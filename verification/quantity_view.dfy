/** The equipment lists that the questionnaire's review step
    (client/src/components/Questionnaire.jsx) and the admin detail row
    (client/src/components/AdminPortal.jsx) render: a "none selected" line
    for an empty map, otherwise one line per entry, with "unit" pluralised
    when the quantity exceeds one. */
module QuantityView {
  import opened Wrappers
  import opened Json

  datatype Line = Line(item: string, qty: Json, plural: bool)

  datatype View = NoneSelected | Listed(lines: seq<Line>)

  /** `Object.keys(v)` for an object. Other values are given no keys here. */
  function Keys(v: Json): set<string> {
    if v.JObject? then v.fields.Keys else {}
  }

  /** `qty > 1` for a numeric quantity. */
  predicate MoreThanOne(qty: Json) {
    qty.JNumber? && qty.n > 1
  }

  /** `order` lists each key once: the order `Object.entries` returns, which
      the model leaves open. */
  ghost predicate Enumerates(order: seq<string>, keys: set<string>) {
    && (forall i, j :: 0 <= i < j < |order| ==> order[i] != order[j])
    && (forall k :: k in order <==> k in keys)
  }

  /** `Object.keys(v).length > 0 ? entries.map(...) : "None selected"` */
  function Render(v: Json, order: seq<string>): (r: View)
    requires Enumerates(order, Keys(v))
    ensures r.NoneSelected? <==> Keys(v) == {}
    ensures r.Listed? ==> |r.lines| == |Keys(v)|
    ensures r.Listed? ==> forall i :: 0 <= i < |r.lines| ==>
      && r.lines[i].item in Keys(v)
      && r.lines[i].qty == v.fields[r.lines[i].item]
      && (r.lines[i].plural <==> MoreThanOne(r.lines[i].qty))
    ensures r.Listed? ==> forall k :: k in Keys(v) ==> exists i :: 0 <= i < |r.lines| && r.lines[i].item == k
  {
    EnumerationSize(order, Keys(v));
    if |order| == 0 then NoneSelected
    else
      var lines := seq(|order|, i requires 0 <= i < |order| =>
        Line(order[i], v.fields[order[i]], MoreThanOne(v.fields[order[i]])));
      assert forall k :: k in Keys(v) ==> lines[IndexOf(order, k)].item == k;
      Listed(lines)
  }

  function IndexOf(order: seq<string>, k: string): (i: nat)
    requires k in order
    ensures i < |order| && order[i] == k
  {
    if order[0] == k then 0 else 1 + IndexOf(order[1..], k)
  }

  lemma {:induction false} EnumerationSize(order: seq<string>, keys: set<string>)
    requires Enumerates(order, keys)
    ensures |order| == |keys|
  {
    if order != [] {
      var rest := keys - {order[0]};
      assert Enumerates(order[1..], rest) by {
        forall k ensures k in order[1..] <==> k in rest {
          if k in order[1..] {
            var j :| 0 <= j < |order[1..]| && order[1..][j] == k;
            assert order[j + 1] == k;
          }
          if k in rest {
            var j :| 0 <= j < |order| && order[j] == k;
            assert j != 0;
            assert order[1..][j - 1] == k;
          }
        }
      }
      EnumerationSize(order[1..], rest);
    }
  }

  /** The review step lists a quantity map of the form: "None selected"
      exactly when the map is empty, otherwise every item with its quantity,
      plural exactly when the quantity exceeds one. */
  lemma RenderQuantities(m: map<string, int>, order: seq<string>)
    requires Enumerates(order, m.Keys)
    ensures Keys(FromQuantities(m)) == m.Keys
    ensures var r := Render(FromQuantities(m), order);
      && (r.NoneSelected? <==> m == map[])
      && (r.Listed? ==> forall i :: 0 <= i < |r.lines| ==>
            && r.lines[i].item in m
            && r.lines[i].qty == JNumber(m[r.lines[i].item])
            && (r.lines[i].plural <==> m[r.lines[i].item] > 1))
  {
    assert Keys(FromQuantities(m)) == m.Keys;
    if m.Keys == {} {
      assert m == map[];
    }
  }
}
