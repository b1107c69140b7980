/** JavaScript's global `parseInt(string)` called without a radix, as both
    the questionnaire (quantity inputs) and the server (the `:id` path
    parameter) use it. It follows section 19.2.5 of ECMA-262: skip leading
    white space, read an optional sign, read a "0x"/"0X" prefix as radix 16
    and otherwise use radix 10, then take the longest run of digits of that
    radix. No digit at all gives `NaN`, here `None`. */
module ParseInt {
  import opened Wrappers

  /** WhiteSpace and LineTerminator code points of ECMA-262. */
  predicate IsWhitespace(c: char) {
    var n := c as int;
    || n == 0x09 || n == 0x0A || n == 0x0B || n == 0x0C || n == 0x0D
    || n == 0x20 || n == 0xA0 || n == 0x1680 || 0x2000 <= n <= 0x200A
    || n == 0x2028 || n == 0x2029 || n == 0x202F || n == 0x205F
    || n == 0x3000 || n == 0xFEFF
  }

  /** The value of c as a base-36 digit (0-9, then a/A = 10 up to z/Z = 35);
      36 for a character that is no digit in any radix. */
  function DigitValue(c: char): (d: nat)
    ensures d <= 36
    ensures d < 10 <==> '0' <= c <= '9'
  {
    if '0' <= c <= '9' then c as int - '0' as int
    else if 'a' <= c <= 'z' then c as int - 'a' as int + 10
    else if 'A' <= c <= 'Z' then c as int - 'A' as int + 10
    else 36
  }

  predicate IsDecimalDigit(c: char) {
    '0' <= c <= '9'
  }

  /** The input with its leading white space removed. */
  function TrimStart(s: string): (t: string)
    ensures |t| <= |s| && t == s[|s| - |t|..]
    ensures t == [] || !IsWhitespace(t[0])
    ensures forall i :: 0 <= i < |s| - |t| ==> IsWhitespace(s[i])
  {
    if s != [] && IsWhitespace(s[0]) then TrimStart(s[1..]) else s
  }

  /** The length of the longest prefix of s made of digits of the radix. */
  function DigitRun(s: string, radix: nat): (n: nat)
    ensures n <= |s|
    ensures forall i :: 0 <= i < n ==> DigitValue(s[i]) < radix
    ensures n < |s| ==> DigitValue(s[n]) >= radix
  {
    if s == [] || DigitValue(s[0]) >= radix then 0 else 1 + DigitRun(s[1..], radix)
  }

  /** The number a string of digits denotes, most significant digit first. */
  function Value(digits: string, radix: nat): nat {
    if digits == [] then 0
    else Value(digits[..|digits| - 1], radix) * radix + DigitValue(digits[|digits| - 1])
  }

  /** `parseInt(s)`; a negative zero is the integer 0. */
  function Parse(s: string): Option<int> {
    ParseSigned(TrimStart(s))
  }

  /** An optional sign, then the unsigned numeral. */
  function ParseSigned(t: string): Option<int> {
    var negative := t != [] && t[0] == '-';
    var u := if t != [] && (t[0] == '-' || t[0] == '+') then t[1..] else t;
    match ParseUnsigned(u)
    case None => None
    case Some(v) => var i: int := v; Some(if negative then -i else i)
  }

  /** A "0x"/"0X" prefix selects radix 16, otherwise radix 10; the longest run
      of digits of that radix is read, and an empty run is `NaN`. */
  function ParseUnsigned(u: string): Option<nat> {
    var hex := HasHexPrefix(u);
    var radix := if hex then 16 else 10;
    var body := if hex then u[2..] else u;
    var n := DigitRun(body, radix);
    if n == 0 then None else Some(Value(body[..n], radix))
  }

  predicate HasHexPrefix(u: string) {
    |u| >= 2 && u[0] == '0' && (u[1] == 'x' || u[1] == 'X')
  }

  /** The decimal numeral of a natural number, without leading zeros. */
  function ShowNat(n: nat): (s: string)
    ensures |s| >= 1
    ensures forall i :: 0 <= i < |s| ==> IsDecimalDigit(s[i])
  {
    if n < 10 then ['0' + n as char]
    else ShowNat(n / 10) + ['0' + (n % 10) as char]
  }

  /** The decimal numeral of an integer, with a '-' for negative numbers, as
      JavaScript prints an integral number in a template literal. */
  function Show(n: int): string {
    if n < 0 then "-" + ShowNat(-n) else ShowNat(n)
  }

  lemma {:induction false} ValueOfShowNat(n: nat)
    ensures Value(ShowNat(n), 10) == n
  {
    if n >= 10 {
      var s := ShowNat(n);
      assert s[..|s| - 1] == ShowNat(n / 10);
      ValueOfShowNat(n / 10);
    }
  }

  /** Reading the numeral of n followed by text that cannot continue it gives
      back n. A zero followed by 'x' or 'X' is the one exception: "0x" is
      read as the hexadecimal prefix. */
  lemma ParseNumeralPrefix(n: int, rest: string)
    requires rest == [] || !IsDecimalDigit(rest[0])
    requires rest != [] && (rest[0] == 'x' || rest[0] == 'X') ==> n != 0
    ensures Parse(Show(n) + rest) == Some(n)
  {
    if n < 0 {
      var m: nat := -n;
      var u := ShowNat(m) + rest;
      UnsignedNumeralPrefix(m, rest);
      SignedNumeral(u, m);
      NegativeShow(m, rest);
    } else {
      var u := ShowNat(n) + rest;
      UnsignedNumeralPrefix(n, rest);
      SignedNumeral(u, n);
      assert Show(n) == ShowNat(n);
    }
  }

  lemma NegativeShow(m: nat, rest: string)
    requires m > 0
    ensures Show(-(m as int)) + rest == "-" + (ShowNat(m) + rest)
  {
    assert Show(-(m as int)) == "-" + ShowNat(m);
  }

  /** A numeral starting with a digit, with or without a leading '-', is read
      with its sign. */
  lemma SignedNumeral(u: string, m: nat)
    requires u != [] && IsDecimalDigit(u[0])
    requires ParseUnsigned(u) == Some(m)
    ensures Parse(u) == Some(m)
    ensures Parse("-" + u) == Some(-(m as int))
  {
    UnsignedNumeral(u, m);
    NegatedNumeral(u, m);
  }

  lemma UnsignedNumeral(u: string, m: nat)
    requires u != [] && IsDecimalDigit(u[0])
    requires ParseUnsigned(u) == Some(m)
    ensures Parse(u) == Some(m)
  {
    assert TrimStart(u) == u by {
      assert !IsWhitespace(u[0]);
    }
  }

  lemma NegatedNumeral(u: string, m: nat)
    requires u != [] && IsDecimalDigit(u[0])
    requires ParseUnsigned(u) == Some(m)
    ensures Parse("-" + u) == Some(-(m as int))
  {
    var t := "-" + u;
    assert TrimStart(t) == t by {
      assert !IsWhitespace(t[0]);
    }
    assert t[1..] == u;
  }

  lemma UnsignedNumeralPrefix(m: nat, rest: string)
    requires rest == [] || !IsDecimalDigit(rest[0])
    requires rest != [] && (rest[0] == 'x' || rest[0] == 'X') ==> m != 0
    ensures ParseUnsigned(ShowNat(m) + rest) == Some(m)
  {
    var digits := ShowNat(m);
    var u := digits + rest;
    assert !HasHexPrefix(u) by {
      if |digits| >= 2 {
        assert IsDecimalDigit(u[1]);
      } else if |u| >= 2 && u[0] == '0' {
        assert m == 0;
        assert u[1] == rest[0];
      }
    }
    assert forall i :: 0 <= i < |digits| ==> u[i] == digits[i];
    assert rest != [] ==> u[|digits|] == rest[0];
    var k := DigitRun(u, 10);
    assert k == |digits|;
    assert u[..k] == digits;
    ValueOfShowNat(m);
  }

  /** The numeral of every integer reads back as that integer. */
  lemma ParseShow(n: int)
    ensures Parse(Show(n)) == Some(n)
  {
    ParseNumeralPrefix(n, "");
    assert Show(n) + "" == Show(n);
  }

  /** Leading white space never changes what `parseInt` reads. */
  lemma {:induction false} ParseSkipsWhitespace(ws: string, s: string)
    requires forall i :: 0 <= i < |ws| ==> IsWhitespace(ws[i])
    ensures Parse(ws + s) == Parse(s)
  {
    TrimStartSkips(ws, s);
  }

  lemma {:induction false} TrimStartSkips(ws: string, s: string)
    requires forall i :: 0 <= i < |ws| ==> IsWhitespace(ws[i])
    ensures TrimStart(ws + s) == TrimStart(s)
  {
    if ws != [] {
      assert (ws + s)[1..] == ws[1..] + s;
      TrimStartSkips(ws[1..], s);
    } else {
      assert ws + s == s;
    }
  }
}
