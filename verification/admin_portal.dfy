/** The admin list of client/src/components/AdminPortal.jsx: the records
    fetched from `GET /api/submissions`, normalised so that both equipment
    fields are parsed values, and the single expanded detail row. */
module AdminPortal {
  import opened Wrappers
  import opened Json
  import Store
  import QuantityView

  /** `typeof v === 'string' ? JSON.parse(v) : (v || {})`. The outer `None`
      is the SyntaxError `JSON.parse` throws. */
  function NormalizeField(v: Option<Json>, parse: Parser): (r: Option<Json>)
    ensures IsString(v) ==> r == parse(v.value.s)
    ensures !IsString(v) ==> r.Some?
    ensures !IsString(v) && Truthy(v) ==> r == v
    ensures !IsString(v) && !Truthy(v) ==> r == Some(EmptyObject)
  {
    if IsString(v) then parse(v.value.s)
    else if Truthy(v) then v
    else Some(EmptyObject)
  }

  /** `{...sub, equipment: ..., auxiliary_equipment: ...}`: the two fields
      are normalised independently and every other field is copied. */
  function NormalizeRecord(rec: Store.Submission, parse: Parser): (r: Option<Store.Submission>)
    ensures r.Some? <==> NormalizeField(rec.equipment, parse).Some? && NormalizeField(rec.auxiliaryEquipment, parse).Some?
    ensures r.Some? ==>
      && r.value.equipment == NormalizeField(rec.equipment, parse)
      && r.value.auxiliaryEquipment == NormalizeField(rec.auxiliaryEquipment, parse)
      && r.value.(equipment := rec.equipment, auxiliaryEquipment := rec.auxiliaryEquipment) == rec
  {
    var equipment := NormalizeField(rec.equipment, parse);
    var auxiliary := NormalizeField(rec.auxiliaryEquipment, parse);
    if equipment.None? || auxiliary.None? then None
    else Some(rec.(equipment := equipment, auxiliaryEquipment := auxiliary))
  }

  /** `result.data.map(...)`: one throw aborts the whole map. */
  function NormalizeAll(data: seq<Store.Submission>, parse: Parser): (r: Option<seq<Store.Submission>>)
    ensures r.Some? <==> forall i :: 0 <= i < |data| ==> NormalizeRecord(data[i], parse).Some?
    ensures r.Some? ==> |r.value| == |data|
    ensures r.Some? ==> forall i :: 0 <= i < |data| ==> NormalizeRecord(data[i], parse) == Some(r.value[i])
  {
    if data == [] then Some([])
    else
      match NormalizeRecord(data[0], parse)
      case None => None
      case Some(first) =>
        match NormalizeAll(data[1..], parse)
        case None => None
        case Some(rest) =>
          assert forall i :: 1 <= i < |data| ==> data[i] == data[1..][i - 1];
          Some([first] + rest)
  }

  datatype AdminState = AdminState(submissions: seq<Store.Submission>, loading: bool, expandedRow: Option<int>)

  /** What `fetchSubmissions` learns: a parsed response, or nothing (the
      request or the JSON decoding threw). */
  datatype FetchReply = Answered(success: bool, data: seq<Store.Submission>) | Unreachable

  /** `fetchSubmissions`: the list is replaced only by a successful response
      whose records all normalise; in every case loading ends and the
      expanded row stays. */
  function FetchSubmissions(s: AdminState, reply: FetchReply, parse: Parser): (r: AdminState)
    ensures !r.loading && r.expandedRow == s.expandedRow
    ensures reply.Answered? && reply.success && NormalizeAll(reply.data, parse).Some? ==>
      r.submissions == NormalizeAll(reply.data, parse).value
    ensures !(reply.Answered? && reply.success && NormalizeAll(reply.data, parse).Some?) ==>
      r.submissions == s.submissions
  {
    match reply
    case Answered(true, data) =>
      (match NormalizeAll(data, parse)
       case Some(processed) => s.(submissions := processed, loading := false)
       case None => s.(loading := false))
    case _ => s.(loading := false)
  }

  /** `toggleExpand(id)`: the row of `id` opens unless it is the open one,
      which closes; at most one row is ever open. */
  function ToggleExpand(s: AdminState, id: int): (r: AdminState)
    ensures r.expandedRow == Some(id) <==> s.expandedRow != Some(id)
    ensures forall other :: other != id ==> r.expandedRow != Some(other)
    ensures r.submissions == s.submissions && r.loading == s.loading
  {
    s.(expandedRow := if s.expandedRow == Some(id) then None else Some(id))
  }

  /** Toggling the same row twice restores the state exactly when no row, or
      that row, was open before; from another open row it ends with none. */
  lemma ToggleTwice(s: AdminState, id: int)
    ensures ToggleExpand(ToggleExpand(s, id), id) == s <==> s.expandedRow == None || s.expandedRow == Some(id)
    ensures s.expandedRow != Some(id) ==> ToggleExpand(ToggleExpand(s, id), id).expandedRow == None
  {
  }

  /** An equipment map reaches the admin list unchanged whether it was stored
      as a value or as its serialised text. */
  lemma NormalizeRoundTrip(fields: map<string, Json>, parse: Parser, stringify: Stringifier)
    requires Agree(parse, stringify)
    ensures NormalizeField(Some(JObject(fields)), parse) == Some(JObject(fields))
    ensures NormalizeField(Some(JString(stringify(JObject(fields)))), parse) == Some(JObject(fields))
  {
  }

  /** A missing or null field becomes the empty object. */
  lemma MissingBecomesEmpty(parse: Parser)
    ensures NormalizeField(None, parse) == Some(EmptyObject)
    ensures NormalizeField(Some(JNull), parse) == Some(EmptyObject)
  {
  }

  /** A second pass over what normalisation produced: it is a fixed point
      exactly when the first result is a truthy non-string value, or a
      string that parses to itself. A falsy result such as `null`, `false`
      or `0` (stored text "null", say) becomes `{}`, and a string result (a
      doubly serialised value) is parsed once more. */
  lemma NormalizeIdempotent(v: Option<Json>, parse: Parser)
    requires NormalizeField(v, parse).Some?
    ensures var w := NormalizeField(v, parse);
      NormalizeField(w, parse) == w <==> (!IsString(w) && Truthy(w)) || (IsString(w) && parse(w.value.s) == w)
    ensures var w := NormalizeField(v, parse);
      !IsString(w) && !Truthy(w) ==> NormalizeField(w, parse) == Some(EmptyObject)
    ensures var w := NormalizeField(v, parse);
      IsString(w) ==> NormalizeField(w, parse) == parse(w.value.s)
  {
  }

  /** `submission.equipment || {}` as the detail row reads it. */
  function Shown(v: Option<Json>): Json {
    if Truthy(v) then v.value else EmptyObject
  }

  /** The detail row of an expanded record: its equipment and auxiliary
      lists, each in the key order `Object.entries` gives. */
  function DetailLists(rec: Store.Submission, equipmentOrder: seq<string>, auxiliaryOrder: seq<string>): (r: (QuantityView.View, QuantityView.View))
    requires QuantityView.Enumerates(equipmentOrder, QuantityView.Keys(Shown(rec.equipment)))
    requires QuantityView.Enumerates(auxiliaryOrder, QuantityView.Keys(Shown(rec.auxiliaryEquipment)))
    ensures r.0.NoneSelected? <==> !Truthy(rec.equipment) || QuantityView.Keys(rec.equipment.value) == {}
    ensures r.1.NoneSelected? <==> !Truthy(rec.auxiliaryEquipment) || QuantityView.Keys(rec.auxiliaryEquipment.value) == {}
  {
    (QuantityView.Render(Shown(rec.equipment), equipmentOrder),
     QuantityView.Render(Shown(rec.auxiliaryEquipment), auxiliaryOrder))
  }
}
