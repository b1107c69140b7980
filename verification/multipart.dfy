/** The way between the two halves: the multipart body that the
    questionnaire's `handleSubmit` sends, as multer's `upload.fields(...)`
    in server/server.js hands it to the POST handler, and what the admin
    list then shows of the stored record. */
module Multipart {
  import opened Wrappers
  import opened Json
  import Store
  import Questionnaire
  import AdminPortal

  /** multer: text parts become `req.body`; each file part is written under a
      generated name and listed, alone, under its field. The generated name
      (a clock reading and a random number before the original name) is the
      parameter `storedName`. */
  function Receive(p: Questionnaire.Payload, storedName: (string, Questionnaire.File) -> string): Store.Request {
    Store.Request(p.fields, map n | n in p.files :: [Store.UploadedFile(p.files[n].name, storedName(n, p.files[n]))])
  }

  /** The record a POST of the form's payload stores. */
  function Posted(s: Questionnaire.FormState, db: Store.Db, now: nat, parse: Parser, stringify: Stringifier,
                  storedName: (string, Questionnaire.File) -> string): Store.Posted
  {
    Store.PostSubmission(db, Receive(Questionnaire.BuildPayload(s, stringify), storedName), now, parse)
  }

  /** What the POST handler finds in `req.body` and `req.files` for a
      payload the form built. */
  lemma ReceivedRequest(s: Questionnaire.FormState, stringify: Stringifier,
                        storedName: (string, Questionnaire.File) -> string)
    ensures var req := Receive(Questionnaire.BuildPayload(s, stringify), storedName);
      && Store.BodyField(req, "cabinetType") == Some(Questionnaire.Resolved(s, Questionnaire.CabinetType))
      && Store.BodyField(req, "detectionIO") == Some(Questionnaire.Resolved(s, Questionnaire.DetectionIO))
      && Store.BodyField(req, "tlsConnection") == Some(Questionnaire.Resolved(s, Questionnaire.TlsConnection))
      && Store.BodyField(req, "equipment") == Some(stringify(FromQuantities(s.formData.equipment)))
      && Store.BodyField(req, "auxiliaryEquipment") == Some(stringify(FromQuantities(s.formData.auxiliaryEquipment)))
      && Store.BodyField(req, "distributor") == Some(s.formData.distributor)
      && Store.BodyField(req, "endUser") == Some(s.formData.endUser)
      && Store.BodyField(req, "address") == Some(s.formData.address)
      && Store.BodyField(req, "city") == Some(s.formData.city)
      && Store.BodyField(req, "state") == Some(s.formData.state)
      && Store.BodyField(req, "zip") == Some(s.formData.zip)
      && ("intersectionPhasingFile" in req.files <==> s.intersectionPhasingFile.Some?)
      && ("signalTimingFile" in req.files <==> s.signalTimingFile.Some?)
      && (s.intersectionPhasingFile.Some? ==>
            req.files["intersectionPhasingFile"] == [Store.UploadedFile(s.intersectionPhasingFile.value.name, storedName("intersectionPhasingFile", s.intersectionPhasingFile.value))])
      && (s.signalTimingFile.Some? ==>
            req.files["signalTimingFile"] == [Store.UploadedFile(s.signalTimingFile.value.name, storedName("signalTimingFile", s.signalTimingFile.value))])
  {
  }

  /** A serialised map is never the empty text, so the server parses it and
      gets the map back. */
  lemma MapFieldRoundTrip(parse: Parser, stringify: Stringifier, m: map<string, int>)
    requires Agree(parse, stringify)
    ensures Store.ParseMapField(parse, Some(stringify(FromQuantities(m)))) == Some(FromQuantities(m))
  {
    assert stringify(FromQuantities(m)) != "";
  }

  /** A submission from the form is always accepted and gets the next
      identifier, and the stored record holds the override text for an
      "Other" choice (even an empty one), the literal choice otherwise, and
      the two quantity maps. */
  lemma SubmissionIsStoredAsAnswered(
    s: Questionnaire.FormState, db: Store.Db, now: nat,
    parse: Parser, stringify: Stringifier, storedName: (string, Questionnaire.File) -> string)
    requires Agree(parse, stringify)
    ensures var p := Posted(s, db, now, parse, stringify, storedName);
      && p.response == Store.Created(db.nextId)
      && var rec := Store.Last(p.db);
      && rec.id == db.nextId
      && rec.cabinetType == Some(Questionnaire.Resolved(s, Questionnaire.CabinetType))
      && rec.detectionIO == Some(Questionnaire.Resolved(s, Questionnaire.DetectionIO))
      && rec.tlsConnection == Some(Questionnaire.Resolved(s, Questionnaire.TlsConnection))
      && rec.equipment == Some(FromQuantities(s.formData.equipment))
      && rec.auxiliaryEquipment == Some(FromQuantities(s.formData.auxiliaryEquipment))
  {
    var req := Receive(Questionnaire.BuildPayload(s, stringify), storedName);
    ReceivedRequest(s, stringify, storedName);
    MapFieldRoundTrip(parse, stringify, s.formData.equipment);
    MapFieldRoundTrip(parse, stringify, s.formData.auxiliaryEquipment);
    Store.PostedRecord(db, req, now, parse);
  }

  /** The stored record carries the contact fields as typed, and a file
      reference exactly for each slot where a file was chosen: the name
      multer stored that file under. */
  lemma ContactAndFilesStored(
    s: Questionnaire.FormState, db: Store.Db, now: nat,
    parse: Parser, stringify: Stringifier, storedName: (string, Questionnaire.File) -> string)
    requires Agree(parse, stringify)
    ensures var p := Posted(s, db, now, parse, stringify, storedName);
      && p.response.Created?
      && var rec := Store.Last(p.db);
      && rec.distributor == Some(s.formData.distributor)
      && rec.endUser == Some(s.formData.endUser)
      && rec.address == Some(s.formData.address)
      && rec.city == Some(s.formData.city)
      && rec.state == Some(s.formData.state)
      && rec.zip == Some(s.formData.zip)
      && (rec.intersectionPhasingFile.Some? <==> s.intersectionPhasingFile.Some?)
      && (rec.signalTimingFile.Some? <==> s.signalTimingFile.Some?)
      && (s.intersectionPhasingFile.Some? ==>
            rec.intersectionPhasingFile == Some(storedName("intersectionPhasingFile", s.intersectionPhasingFile.value)))
      && (s.signalTimingFile.Some? ==>
            rec.signalTimingFile == Some(storedName("signalTimingFile", s.signalTimingFile.value)))
  {
    var req := Receive(Questionnaire.BuildPayload(s, stringify), storedName);
    ReceivedRequest(s, stringify, storedName);
    MapFieldRoundTrip(parse, stringify, s.formData.equipment);
    MapFieldRoundTrip(parse, stringify, s.formData.auxiliaryEquipment);
    Store.PostedRecord(db, req, now, parse);
  }

  /** The admin list shows the record's equipment maps exactly as the form
      held them, and copies every other field. */
  lemma AdminSeesStoredRecord(rec: Store.Submission, equipment: map<string, int>, auxiliary: map<string, int>, parse: Parser)
    requires rec.equipment == Some(FromQuantities(equipment))
    requires rec.auxiliaryEquipment == Some(FromQuantities(auxiliary))
    ensures AdminPortal.NormalizeRecord(rec, parse) == Some(rec)
  {
  }

  /** The concrete case: against the empty store, a first submission with an
      "Other" detection I/O overridden by "Custom Harness V2" and two Nexus
      units is stored as record 1 with that text and that map, and is the
      one record the list returns. */
  lemma FirstSubmissionScenario(s: Questionnaire.FormState, now: nat, parse: Parser, stringify: Stringifier,
                                storedName: (string, Questionnaire.File) -> string)
    requires Agree(parse, stringify)
    requires s.formData.cabinetType == "NEMA TS-2 Type 1"
    requires s.formData.detectionIO == "Other" && s.detectionIOOther == "Custom Harness V2"
    requires s.formData.tlsConnection == "NTCIP"
    requires s.formData.equipment == map["Nexus Unit" := 2]
    ensures var p := Posted(s, Store.EmptyDb, now, parse, stringify, storedName);
      var list := Store.ListSubmissions(p.db);
      && p.response == Store.Created(1)
      && |list| == 1
      && list[0].detectionIO == Some("Custom Harness V2")
      && list[0].cabinetType == Some("NEMA TS-2 Type 1")
      && list[0].equipment == Some(JObject(map["Nexus Unit" := JNumber(2)]))
  {
    SubmissionIsStoredAsAnswered(s, Store.EmptyDb, now, parse, stringify, storedName);
    var p := Posted(s, Store.EmptyDb, now, parse, stringify, storedName);
    var rec := Store.Last(p.db);
    assert p.db.submissions == [rec];
    SingleRecordList(p.db);
    assert Questionnaire.Resolved(s, Questionnaire.DetectionIO) == "Custom Harness V2";
    assert Questionnaire.Resolved(s, Questionnaire.CabinetType) == "NEMA TS-2 Type 1";
    SingleQuantity("Nexus Unit", 2);
  }

  /** A one-item quantity map serialises to a one-key object. */
  lemma SingleQuantity(item: string, n: int)
    ensures FromQuantities(map[item := n]) == JObject(map[item := JNumber(n)])
  {
    assert (map k | k in map[item := n] :: JNumber(map[item := n][k])) == map[item := JNumber(n)];
  }

  /** A store with one record lists just that record. */
  lemma SingleRecordList(db: Store.Db)
    requires |db.submissions| == 1
    ensures Store.ListSubmissions(db) == db.submissions
  {
    var list := Store.ListSubmissions(db);
    assert multiset(list) == multiset{db.submissions[0]};
    assert |list| == 1;
    assert list[0] in multiset(list);
  }

  /** Both equipment fields of a record hold JSON objects, as every record
      stored from the form does. */
  predicate ObjectValued(rec: Store.Submission) {
    && rec.equipment.Some? && rec.equipment.value.JObject?
    && rec.auxiliaryEquipment.Some? && rec.auxiliaryEquipment.value.JObject?
  }

  /** A record with object-valued maps is its own normal form. */
  lemma ObjectValuedIsNormal(rec: Store.Submission, parse: Parser)
    requires ObjectValued(rec)
    ensures AdminPortal.NormalizeRecord(rec, parse) == Some(rec)
  {
  }

  /** A list of such records normalises to itself. */
  lemma ObjectValuedListIsNormal(list: seq<Store.Submission>, parse: Parser)
    requires forall i :: 0 <= i < |list| ==> ObjectValued(list[i])
    ensures AdminPortal.NormalizeAll(list, parse) == Some(list)
  {
    forall i | 0 <= i < |list| ensures AdminPortal.NormalizeRecord(list[i], parse) == Some(list[i]) {
      ObjectValuedIsNormal(list[i], parse);
    }
    var n := AdminPortal.NormalizeAll(list, parse);
    assert n.Some?;
    assert forall i :: 0 <= i < |list| ==> n.value[i] == list[i];
    assert n.value == list;
  }

  /** When every stored record holds object-valued maps, a successful
      `GET /api/submissions` puts exactly the server's list, in its order,
      into the admin page; loading ends and the open row stays. */
  lemma AdminShowsTheList(s: AdminPortal.AdminState, db: Store.Db, parse: Parser)
    requires forall rec :: rec in db.submissions ==> ObjectValued(rec)
    ensures var r := AdminPortal.FetchSubmissions(s, AdminPortal.Answered(true, Store.ListSubmissions(db)), parse);
      r.submissions == Store.ListSubmissions(db) && !r.loading && r.expandedRow == s.expandedRow
  {
    var list := Store.ListSubmissions(db);
    forall i | 0 <= i < |list| ensures ObjectValued(list[i]) {
      assert list[i] in multiset(list);
      assert list[i] in db.submissions;
    }
    ObjectValuedListIsNormal(list, parse);
  }
}
