/** The submission store of server/server.js: the `{submissions, nextId}`
    document that each route handler reads, changes and writes back,
    modelled as a value passed in and returned. File I/O is not modelled:
    `Db` is the document a handler reads and the one it writes. */
module Store {
  import opened Wrappers
  import opened Json
  import ParseInt
  import StableSort

  /** One stored record. Text fields are `None` when the request carried no
      such field (the property is then `undefined` and JSON drops it).
      `createdAt` stands for the ISO timestamp: only its order matters. */
  datatype Submission = Submission(
    id: int,
    cabinetType: Option<string>,
    detectionIO: Option<string>,
    tlsConnection: Option<string>,
    intersectionPhasingFile: Option<string>,
    signalTimingFile: Option<string>,
    equipment: Option<Json>,
    auxiliaryEquipment: Option<Json>,
    distributor: Option<string>,
    endUser: Option<string>,
    address: Option<string>,
    city: Option<string>,
    state: Option<string>,
    zip: Option<string>,
    createdAt: nat)

  datatype Db = Db(submissions: seq<Submission>, nextId: int)

  function CreatedAt(r: Submission): nat {
    r.createdAt
  }

  function Ids(s: seq<Submission>): set<int> {
    set r | r in s :: r.id
  }

  /** The store invariant: identifiers are pairwise distinct and all below
      `nextId`, so the next identifier handed out is fresh. */
  ghost predicate Valid(db: Db) {
    && DistinctIds(db.submissions)
    && (forall r :: r in db.submissions ==> r.id < db.nextId)
  }

  ghost predicate DistinctIds(s: seq<Submission>) {
    forall i, j :: 0 <= i < j < |s| ==> s[i].id != s[j].id
  }

  /** The document `initDatabase` writes when there is none. */
  const EmptyDb: Db := Db([], 1)

  /** `initDatabase`: an existing document is left as it is; an absent one is
      created with no submissions and `nextId` 1. */
  function InitDatabase(existing: Option<Db>): (db: Db)
    ensures existing.Some? ==> db == existing.value
    ensures existing.None? ==> db.submissions == [] && db.nextId == 1 && Valid(db)
  {
    match existing
    case Some(d) => d
    case None => EmptyDb
  }

  /** `readDatabase`: `None` is a document that could not be read or parsed,
      which falls back to the same value `initDatabase` writes. */
  function ReadDatabase(stored: Option<Db>): (db: Db)
    ensures stored.None? ==> db == InitDatabase(None)
    ensures stored.Some? ==> db == stored.value
  {
    match stored
    case Some(d) => d
    case None => EmptyDb
  }

  // ---------------------------------------------------------------------
  // POST /api/submissions

  /** A file part after multer stored it: `filename` is the generated name. */
  datatype UploadedFile = UploadedFile(originalName: string, filename: string)

  /** A multipart request after multer: the text fields (`req.body`) and the
      stored files per field name (`req.files`). */
  datatype Request = Request(body: map<string, string>, files: map<string, seq<UploadedFile>>)

  /** Destructuring `req.body`: a missing field is `undefined`. */
  function BodyField(req: Request, name: string): Option<string> {
    if name in req.body then Some(req.body[name]) else None
  }

  /** `req.files?.[name]?.[0]` */
  function FirstUpload(req: Request, name: string): Option<UploadedFile> {
    if name in req.files && |req.files[name]| > 0 then Some(req.files[name][0]) else None
  }

  /** `file ? file.filename : null` */
  function AttachmentRef(req: Request, name: string): Option<string> {
    match FirstUpload(req, name)
    case Some(f) => Some(f.filename)
    case None => None
  }

  /** `JSON.parse(field || '{}')`: a missing or empty field is read as the
      text "{}". `None` is the SyntaxError. */
  function ParseMapField(parse: Parser, field: Option<string>): Option<Json> {
    parse(if field.None? || field.value == "" then "{}" else field.value)
  }

  /** The record the handler builds with identifier `id` at time `now`, or
      `None` when one of the two `JSON.parse` calls throws. */
  function NewSubmission(id: int, req: Request, now: nat, parse: Parser): Option<Submission> {
    var equipment := ParseMapField(parse, BodyField(req, "equipment"));
    var auxiliary := ParseMapField(parse, BodyField(req, "auxiliaryEquipment"));
    if equipment.None? || auxiliary.None? then None
    else Some(Submission(
      id,
      BodyField(req, "cabinetType"),
      BodyField(req, "detectionIO"),
      BodyField(req, "tlsConnection"),
      AttachmentRef(req, "intersectionPhasingFile"),
      AttachmentRef(req, "signalTimingFile"),
      equipment,
      auxiliary,
      BodyField(req, "distributor"),
      BodyField(req, "endUser"),
      BodyField(req, "address"),
      BodyField(req, "city"),
      BodyField(req, "state"),
      BodyField(req, "zip"),
      now))
  }

  /** `{success: true, id}` or `{success: false, error}` (status 500). */
  datatype PostResponse = Created(id: int) | Failed

  datatype Posted = Posted(db: Db, response: PostResponse)

  /** The POST handler: build the record with `id = nextId`, push it, and
      increment `nextId`; a parse failure throws before the push, so the
      document is not written and the response reports failure. */
  function PostSubmission(db: Db, req: Request, now: nat, parse: Parser): (p: Posted)
    ensures p.response.Created? <==>
      && ParseMapField(parse, BodyField(req, "equipment")).Some?
      && ParseMapField(parse, BodyField(req, "auxiliaryEquipment")).Some?
    ensures p.response.Failed? ==> p.db == db
    ensures p.response.Created? ==>
      && p.response.id == db.nextId
      && p.db.nextId == db.nextId + 1
      && |p.db.submissions| == |db.submissions| + 1
      && p.db.submissions[..|db.submissions|] == db.submissions
      && p.db.submissions[|db.submissions|].id == db.nextId
      && p.db.submissions[|db.submissions|].createdAt == now
    ensures Valid(db) ==> Valid(p.db)
    ensures Valid(db) && p.response.Created? ==> p.response.id !in Ids(db.submissions)
  {
    match NewSubmission(db.nextId, req, now, parse)
    case None => Posted(db, Failed)
    case Some(r) =>
      var db' := Db(db.submissions + [r], db.nextId + 1);
      assert db'.submissions[..|db.submissions|] == db.submissions;
      Posted(db', Created(r.id))
  }

  /** The record a successful POST appended. */
  function Last(db: Db): Submission
    requires db.submissions != []
  {
    db.submissions[|db.submissions| - 1]
  }

  /** Each attachment reference is the stored name of the first file in its
      own field, or `None` when that field holds no file; the text fields
      are copied from the body, the two maps are what `JSON.parse` made of
      theirs, and the record is stamped with `now`. */
  lemma PostedRecord(db: Db, req: Request, now: nat, parse: Parser)
    requires PostSubmission(db, req, now, parse).response.Created?
    ensures var r := Last(PostSubmission(db, req, now, parse).db);
      && (r.intersectionPhasingFile.Some? <==> "intersectionPhasingFile" in req.files && req.files["intersectionPhasingFile"] != [])
      && (r.intersectionPhasingFile.Some? ==> r.intersectionPhasingFile.value == req.files["intersectionPhasingFile"][0].filename)
      && (r.signalTimingFile.Some? <==> "signalTimingFile" in req.files && req.files["signalTimingFile"] != [])
      && (r.signalTimingFile.Some? ==> r.signalTimingFile.value == req.files["signalTimingFile"][0].filename)
      && r.equipment == ParseMapField(parse, BodyField(req, "equipment"))
      && r.auxiliaryEquipment == ParseMapField(parse, BodyField(req, "auxiliaryEquipment"))
      && r.cabinetType == BodyField(req, "cabinetType")
      && r.detectionIO == BodyField(req, "detectionIO")
      && r.tlsConnection == BodyField(req, "tlsConnection")
      && r.distributor == BodyField(req, "distributor")
      && r.endUser == BodyField(req, "endUser")
      && r.address == BodyField(req, "address")
      && r.city == BodyField(req, "city")
      && r.state == BodyField(req, "state")
      && r.zip == BodyField(req, "zip")
      && r.createdAt == now
  {
  }

  /** A request without an equipment field (or with an empty one) stores the
      empty object, given only that `JSON.parse("{}")` is `{}`; the same holds
      for the auxiliary field on its own. */
  lemma MissingMapsAreEmpty(db: Db, req: Request, now: nat, parse: Parser)
    requires parse("{}") == Some(EmptyObject)
    requires "equipment" !in req.body || req.body["equipment"] == ""
    ensures var p := PostSubmission(db, req, now, parse);
      && (p.response.Created? <==> ParseMapField(parse, BodyField(req, "auxiliaryEquipment")).Some?)
      && (p.response.Created? ==> Last(p.db).equipment == Some(EmptyObject))
  {
  }

  /** Two POSTs whose handlers both read the same document before either
      writes: both answer the same id, and the document written last holds
      the earlier records plus one new record, so the other submission is
      lost. */
  lemma OverlappingPostsLoseOne(db: Db, req1: Request, now1: nat, req2: Request, now2: nat, parse: Parser)
    requires PostSubmission(db, req1, now1, parse).response.Created?
    requires PostSubmission(db, req2, now2, parse).response.Created?
    ensures var p1, p2 := PostSubmission(db, req1, now1, parse), PostSubmission(db, req2, now2, parse);
      && p1.response == p2.response
      && |p2.db.submissions| == |db.submissions| + 1
      && p2.db.submissions[..|db.submissions|] == db.submissions
  {
  }

  // ---------------------------------------------------------------------
  // DELETE /api/submissions/:id

  /** `sub.id !== id`; a `NaN` identifier (`None`) differs from every id. */
  predicate Kept(r: Submission, id: Option<int>) {
    id.None? || r.id != id.value
  }

  /** a is b with some elements left out, the rest in their order. */
  ghost predicate Subsequence<T>(a: seq<T>, b: seq<T>)
    decreases |b|
  {
    if a == [] then true
    else if b == [] then false
    else (a[0] == b[0] && Subsequence(a[1..], b[1..])) || Subsequence(a, b[1..])
  }

  /** `submissions.filter(sub => sub.id !== id)`: the records with that id
      are removed, every other one is kept, in order. */
  function Without(s: seq<Submission>, id: Option<int>): (r: seq<Submission>)
    ensures forall x :: x in r <==> x in s && Kept(x, id)
    ensures Subsequence(r, s)
  {
    if s == [] then []
    else if Kept(s[0], id) then
      var tail := Without(s[1..], id);
      assert ([s[0]] + tail)[1..] == tail;
      [s[0]] + tail
    else
      assert Subsequence(Without(s[1..], id), s) by {
        if Without(s[1..], id) != [] {
          assert Without(s[1..], id)[0] != s[0];
        }
      }
      Without(s[1..], id)
  }

  /** Every kept record keeps its number of occurrences; a removed one has
      none left. */
  lemma {:induction false} WithoutCounts(s: seq<Submission>, id: Option<int>, x: Submission)
    ensures multiset(Without(s, id))[x] == if Kept(x, id) then multiset(s)[x] else 0
  {
    if s != [] {
      WithoutCounts(s[1..], id, x);
      assert s == [s[0]] + s[1..];
    }
  }

  /** Filtering keeps identifiers pairwise distinct. */
  lemma {:induction false} WithoutKeepsDistinct(s: seq<Submission>, id: Option<int>)
    ensures DistinctIds(s) ==> DistinctIds(Without(s, id))
  {
    if s != [] && DistinctIds(s) {
      WithoutKeepsDistinct(s[1..], id);
      var r := Without(s, id);
      if Kept(s[0], id) {
        forall j | 0 < j < |r|
          ensures r[0].id != r[j].id
        {
          assert r[j] in Without(s[1..], id);
          var k :| 0 <= k < |s[1..]| && s[1..][k] == r[j];
          assert s[1 + k] == r[j];
        }
      }
    }
  }

  /** The document a DELETE writes and the `success` flag of its response. */
  datatype Deleted = Deleted(db: Db, success: bool)

  /** The DELETE handler: the `:id` text is read with `parseInt`, the
      matching records are filtered out, `nextId` is left alone, and the
      response is `{success: true}` whether or not anything matched, even
      for an id text that is not a number. */
  function DeleteSubmission(db: Db, rawId: string): (d: Deleted)
    ensures d.success
    ensures d.db.nextId == db.nextId
    ensures forall x :: x in d.db.submissions <==> x in db.submissions && Kept(x, ParseInt.Parse(rawId))
    ensures Subsequence(d.db.submissions, db.submissions)
    ensures Valid(db) ==> Valid(d.db)
  {
    var id := ParseInt.Parse(rawId);
    WithoutKeepsDistinct(db.submissions, id);
    Deleted(Db(Without(db.submissions, id), db.nextId), true)
  }

  /** Deleting an identifier that no record carries changes nothing (the
      handler still answers success). */
  lemma {:induction false} DeleteAbsentIsNoOp(s: seq<Submission>, id: int)
    requires id !in Ids(s)
    ensures Without(s, Some(id)) == s
  {
    if s != [] {
      assert s[0] in s;
      assert id !in Ids(s[1..]);
      DeleteAbsentIsNoOp(s[1..], id);
    }
  }

  /** A DELETE of `/api/submissions/<id>` for an id no record carries leaves
      the document as it was and still reports success. */
  lemma DeleteAbsentReportsSuccess(db: Db, id: int)
    requires id !in Ids(db.submissions)
    ensures DeleteSubmission(db, ParseInt.Show(id)) == Deleted(db, true)
  {
    ParseInt.ParseShow(id);
    DeleteAbsentIsNoOp(db.submissions, id);
  }

  /** With distinct identifiers, deleting a stored id removes exactly one
      record. */
  lemma {:induction false} DeletePresentRemovesOne(s: seq<Submission>, id: int)
    requires DistinctIds(s)
    requires id in Ids(s)
    ensures |Without(s, Some(id))| == |s| - 1
  {
    assert s == [s[0]] + s[1..];
    assert DistinctIds(s[1..]) by {
      forall i, j | 0 <= i < j < |s[1..]| ensures s[1..][i].id != s[1..][j].id {
        assert s[1..][i] == s[i + 1] && s[1..][j] == s[j + 1];
      }
    }
    if s[0].id == id {
      assert id !in Ids(s[1..]) by {
        forall r | r in s[1..] ensures r.id != id {
          var k :| 0 <= k < |s[1..]| && s[1..][k] == r;
          assert s[k + 1] == r;
        }
      }
      DeleteAbsentIsNoOp(s[1..], id);
    } else {
      var r :| r in s && r.id == id;
      assert r in s[1..];
      DeletePresentRemovesOne(s[1..], id);
    }
  }

  // ---------------------------------------------------------------------
  // GET /api/submissions

  /** The GET handler: a copy of the records sorted by `created_at`, newest
      first. Equal timestamps keep storage order; there is no tie-break on
      the identifier. */
  function ListSubmissions(db: Db): (r: seq<Submission>)
    ensures multiset(r) == multiset(db.submissions)
    ensures forall i, j :: 0 <= i < j < |r| ==> r[i].createdAt >= r[j].createdAt
    ensures forall t :: StableSort.WithKey(r, CreatedAt, t) == StableSort.WithKey(db.submissions, CreatedAt, t)
  {
    StableSort.SortDescending(db.submissions, CreatedAt)
  }

  // ---------------------------------------------------------------------
  // Sequences of requests

  datatype Op = Post(req: Request, now: nat) | Delete(rawId: string)

  function Apply(db: Db, op: Op, parse: Parser): Db {
    match op
    case Post(req, now) => PostSubmission(db, req, now, parse).db
    case Delete(rawId) => DeleteSubmission(db, rawId).db
  }

  /** The document after the requests run one after another. */
  function Run(db: Db, ops: seq<Op>, parse: Parser): Db
    decreases |ops|
  {
    if ops == [] then db else Run(Apply(db, ops[0], parse), ops[1..], parse)
  }

  /** The identifier one request hands out: one for a successful POST,
      none otherwise. */
  function Issued(db: Db, op: Op, parse: Parser): (a: seq<int>)
    ensures a == [] || a == [db.nextId]
    ensures Apply(db, op, parse).nextId == db.nextId + |a|
  {
    match op
    case Post(req, now) =>
      var p := PostSubmission(db, req, now, parse);
      if p.response.Created? then [p.response.id] else []
    case Delete(_) => []
  }

  /** The identifiers the successful POSTs among `ops` hand out, in order. */
  function Assigned(db: Db, ops: seq<Op>, parse: Parser): seq<int>
    decreases |ops|
  {
    if ops == [] then []
    else Issued(db, ops[0], parse) + Assigned(Apply(db, ops[0], parse), ops[1..], parse)
  }

  /** Identifiers are handed out consecutively from the starting `nextId`,
      which grows by one per successful POST and never otherwise. */
  lemma {:induction false} ConsecutiveIdentifiers(db: Db, ops: seq<Op>, parse: Parser)
    ensures var a := Assigned(db, ops, parse);
      && Run(db, ops, parse).nextId == db.nextId + |a|
      && (forall i :: 0 <= i < |a| ==> a[i] == db.nextId + i)
    decreases |ops|
  {
    if ops != [] {
      ConsecutiveIdentifiers(Apply(db, ops[0], parse), ops[1..], parse);
    }
  }

  /** Every sequence of requests keeps the store invariant. */
  lemma {:induction false} RunKeepsValid(db: Db, ops: seq<Op>, parse: Parser)
    requires Valid(db)
    ensures Valid(Run(db, ops, parse))
    decreases |ops|
  {
    if ops != [] {
      RunKeepsValid(Apply(db, ops[0], parse), ops[1..], parse);
    }
  }

  /** Over any sequence of requests the invariant holds and no identifier
      already stored is handed out again. */
  lemma IdentifiersAreFresh(db: Db, ops: seq<Op>, parse: Parser)
    requires Valid(db)
    ensures Valid(Run(db, ops, parse))
    ensures forall x :: x in Assigned(db, ops, parse) ==> x >= db.nextId && x !in Ids(db.submissions)
  {
    RunKeepsValid(db, ops, parse);
    ConsecutiveIdentifiers(db, ops, parse);
  }

  /** An identifier that was stored and then deleted through
      `DELETE /api/submissions/<id>` is never handed out again. */
  lemma DeletedIdNeverReissued(db: Db, id: int, ops: seq<Op>, parse: Parser)
    requires Valid(db)
    requires id in Ids(db.submissions)
    ensures id !in Assigned(DeleteSubmission(db, ParseInt.Show(id)).db, ops, parse)
  {
    ParseInt.ParseShow(id);
    var d := DeleteSubmission(db, ParseInt.Show(id)).db;
    IdentifiersAreFresh(d, ops, parse);
    var r :| r in db.submissions && r.id == id;
  }
}
