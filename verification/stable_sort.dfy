/** `Array.prototype.sort` with the comparator `(a, b) => key(b) - key(a)`.
    The sort is stable (section 23.1.3.30 of ECMA-262 requires it since
    ES2019), so it orders by key, largest first, and keeps elements with
    equal keys in their original order. It is written here as an insertion
    sort; `UniqueStableOrder` shows that any stable sort gives the same
    sequence. */
module StableSort {

  /** s is ordered by key, largest first. */
  ghost predicate Descending<T>(s: seq<T>, key: T -> nat) {
    forall i, j :: 0 <= i < j < |s| ==> key(s[i]) >= key(s[j])
  }

  /** The elements of s whose key is k, in their order in s. */
  function WithKey<T>(s: seq<T>, key: T -> nat, k: nat): seq<T> {
    if s == [] then []
    else (if key(s[0]) == k then [s[0]] else []) + WithKey(s[1..], key, k)
  }

  /** Inserts x in front of the first element whose key does not exceed the
      key of x, so x lands ahead of the elements with its own key. */
  function Insert<T(==)>(x: T, s: seq<T>, key: T -> nat): (r: seq<T>)
    requires Descending(s, key)
    ensures Descending(r, key)
    ensures multiset(r) == multiset(s) + multiset{x}
    ensures forall k :: WithKey(r, key, k) == (if key(x) == k then [x] else []) + WithKey(s, key, k)
  {
    if s == [] || key(s[0]) <= key(x) then
      InsertInFront(x, s, key);
      [x] + s
    else
      var tail := Insert(x, s[1..], key);
      InsertBehindHead(x, s, tail, key);
      [s[0]] + tail
  }

  /** The sequence an insertion produces, described as Insert promises it. */
  ghost predicate Inserted<T>(x: T, s: seq<T>, r: seq<T>, key: T -> nat) {
    && Descending(r, key)
    && multiset(r) == multiset(s) + multiset{x}
    && forall k :: WithKey(r, key, k) == (if key(x) == k then [x] else []) + WithKey(s, key, k)
  }

  lemma InsertInFront<T>(x: T, s: seq<T>, key: T -> nat)
    requires Descending(s, key)
    requires s == [] || key(s[0]) <= key(x)
    ensures Inserted(x, s, [x] + s, key)
  {
    ConsWithKey(x, s, key);
  }

  lemma InsertBehindHead<T>(x: T, s: seq<T>, tail: seq<T>, key: T -> nat)
    requires s != [] && key(s[0]) > key(x)
    requires Descending(s, key)
    requires Inserted(x, s[1..], tail, key)
    ensures Inserted(x, s, [s[0]] + tail, key)
  {
    var r := [s[0]] + tail;
    ConsWithKey(s[0], tail, key);
    ConsWithKey(s[0], s[1..], key);
    assert s == [s[0]] + s[1..];
    forall i | 0 <= i < |tail|
      ensures key(tail[i]) <= key(s[0])
    {
      assert tail[i] in multiset(s[1..]) + multiset{x};
    }
    forall k
      ensures WithKey(r, key, k) == (if key(x) == k then [x] else []) + WithKey(s, key, k)
    {
      if key(x) == k {
        assert WithKey(s, key, k) == WithKey(s[1..], key, k);
      }
    }
  }

  /** The elements with key k of a sequence with head h and tail t. */
  lemma ConsWithKey<T>(h: T, t: seq<T>, key: T -> nat)
    ensures forall k :: WithKey([h] + t, key, k) == (if key(h) == k then [h] else []) + WithKey(t, key, k)
  {
    assert ([h] + t)[1..] == t;
  }

  /** The sorted copy of s: descending by key, a permutation of s, and equal
      keys in storage order. */
  function SortDescending<T(==)>(s: seq<T>, key: T -> nat): (r: seq<T>)
    ensures Descending(r, key)
    ensures multiset(r) == multiset(s)
    ensures forall k :: WithKey(r, key, k) == WithKey(s, key, k)
  {
    if s == [] then []
    else
      assert s == [s[0]] + s[1..];
      Insert(s[0], SortDescending(s[1..], key), key)
  }

  lemma {:induction false} WithKeyMembers<T>(s: seq<T>, key: T -> nat, k: nat)
    ensures forall x :: x in WithKey(s, key, k) <==> x in s && key(x) == k
  {
    if s != [] {
      WithKeyMembers(s[1..], key, k);
      assert s == [s[0]] + s[1..];
    }
  }

  /** In a descending sequence the first element carries the largest key, so
      it heads the elements with that key. */
  lemma HeadOfWithKey<T>(s: seq<T>, key: T -> nat)
    requires s != []
    ensures WithKey(s, key, key(s[0])) == [s[0]] + WithKey(s[1..], key, key(s[0]))
  {
  }

  /** Removing the head of s removes it from the elements with its key and
      from no other. */
  lemma WithKeyTail<T>(s: seq<T>, key: T -> nat, k: nat)
    requires s != []
    ensures key(s[0]) != k ==> WithKey(s[1..], key, k) == WithKey(s, key, k)
    ensures key(s[0]) == k ==> WithKey(s[1..], key, k) == WithKey(s, key, k)[1..]
  {
  }

  /** The head of a descending sequence carries a key at least as large as
      any key of a sequence with the same elements per key. */
  lemma HeadKeyIsMax<T>(a: seq<T>, b: seq<T>, key: T -> nat)
    requires a != [] && b != [] && Descending(a, key)
    requires forall k :: WithKey(a, key, k) == WithKey(b, key, k)
    ensures key(a[0]) >= key(b[0])
  {
    var kb := key(b[0]);
    HeadOfWithKey(b, key);
    assert b[0] in WithKey(a, key, kb);
    WithKeyMembers(a, key, kb);
    var i :| 0 <= i < |a| && a[i] == b[0];
  }

  /** There is only one stable descending order: two sequences that are both
      descending and agree on the elements of every key are equal. */
  lemma {:induction false} UniqueStableOrder<T>(a: seq<T>, b: seq<T>, key: T -> nat)
    requires Descending(a, key) && Descending(b, key)
    requires forall k :: WithKey(a, key, k) == WithKey(b, key, k)
    ensures a == b
  {
    if a != [] {
      HeadOfWithKey(a, key);
    }
    if b != [] {
      HeadOfWithKey(b, key);
    }
    if a == [] && b == [] {
    } else if a == [] || b == [] {
      assert false;
    } else {
      var ka, kb := key(a[0]), key(b[0]);
      HeadKeyIsMax(a, b, key);
      HeadKeyIsMax(b, a, key);
      assert a[0] == b[0] by {
        HeadOfWithKey(a, key);
        HeadOfWithKey(b, key);
        assert WithKey(a, key, ka) == WithKey(b, key, kb);
        assert WithKey(a, key, ka)[0] == a[0];
      }
      forall k
        ensures WithKey(a[1..], key, k) == WithKey(b[1..], key, k)
      {
        WithKeyTail(a, key, k);
        WithKeyTail(b, key, k);
      }
      UniqueStableOrder(a[1..], b[1..], key);
      assert a == [a[0]] + a[1..];
      assert b == [b[0]] + b[1..];
    }
  }

  /** So the insertion sort agrees with every other stable descending sort. */
  lemma SortIsTheStableSort<T>(s: seq<T>, r: seq<T>, key: T -> nat)
    requires Descending(r, key)
    requires forall k :: WithKey(r, key, k) == WithKey(s, key, k)
    ensures r == SortDescending(s, key)
  {
    UniqueStableOrder(r, SortDescending(s, key), key);
  }
}
