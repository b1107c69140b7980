# Detection equipment questionnaire — a Dafny model

The application collects a traffic-signal detection equipment questionnaire.
A nine-step React form gathers the answers: cabinet type, detection I/O,
TLS connection, two optional file uploads, two equipment quantity maps, a
review step and a contact form. It posts them as one multipart request to an
Express server. The server appends each submission to a JSON document
`{submissions, nextId}`, lists the records newest first and deletes them by
id. An admin page fetches the list, normalises the two equipment fields of
every record and expands one record at a time.

The model covers the three pieces of sequential logic in that application.
Each is written as pure functions on immutable values.

- `Store` (server/server.js): the document a handler reads is a `Db` value
  and the document it writes is the returned value. It models `initDatabase`,
  the read fallback, POST, DELETE and GET. The store invariant is that
  identifiers are distinct and below `nextId`. It is proved to hold over
  every sequence of requests handled one after another. Two conditions
  apply: each handler reads back the document the previous one wrote, and
  identifiers are unbounded integers. Under them an identifier is never
  handed out twice, even after it was deleted. Overlapping POSTs, the read
  fallback (logged only to the console) and the 2^53 limit of JavaScript numbers each break this
  guarantee in the server as written (see "## Left out").
- `Questionnaire` (client/src/components/Questionnaire.jsx): the form is a
  state machine. Its events are only those whose control is rendered in the
  current state, which is what keeps the step inside 1..9. It covers quantity
  editing, "Other" override resolution and clearing, payload building, the
  submit outcome and reset. A click on "Submit" only sends the request. Its
  response is a separate event that may arrive after later clicks, because
  nothing disables the buttons while `handleSubmit` awaits it.
- `AdminPortal` (client/src/components/AdminPortal.jsx): record
  normalisation, `fetchSubmissions` and `toggleExpand`.

Supporting modules:

- `ParseInt` models JavaScript's `parseInt` without a radix (section 19.2.5
  of ECMA-262). Both the quantity inputs and the DELETE route use it.
- `StableSort` is the stable descending sort that `Array.prototype.sort`
  performs. `UniqueStableOrder` proves that every stable descending order is
  the same one.
- `QuantityView` renders an equipment list. It is shared by the review step
  and the admin detail row.
- `Multipart` connects the form's payload to the server's request. It proves
  what a submission from the form is stored as.
- `Json` and `Wrappers` provide the JSON value type and `Option`.

`JSON.parse` and `JSON.stringify` are function parameters, not
re-implementations. Where a proof needs them to behave as JSON, it assumes
`Json.Agree`: the serialisation of a value is never the empty text, parsing
it gives the value back, and `"{}"` parses to the empty object. A record's
`created_at` timestamp is an abstract natural number `now`. The name multer
stores a file under is a function parameter `storedName`.

Where the code and its documented intent differ, the model follows the code:

- The list is ordered by `created_at` alone. The sort is stable, so equal
  timestamps keep storage order. There is no tie-break on the identifier
  (server/server.js:139-141).
- An unreadable store document is replaced by the empty store, and the
  failure is logged only to the console (server/server.js:61-64). The next
  POST or DELETE writes that empty document back (server/server.js:124,
  158). This erases every stored record, and the next POST numbers from 1
  again. `Store.ReadDatabase` models this fallback. The freshness lemmas
  assume the document was read back as it was written.
- A successful submit only sets `submitted`. The answers stay in the state
  until "Submit Another" resets them (client/src/components/Questionnaire.jsx:141-142).
- A response is applied to whatever state the form is in when it arrives.
  If "Previous" is pressed while the request is under way, a successful
  response shows the success view over step 8
  (`Questionnaire.SuccessAfterPrevious`). Two clicks on "Submit" send two
  requests (`Questionnaire.DoubleSubmitSendsTwice`). The server stores two
  records only if it handles them one after the other. If both handlers
  read the document before either writes it, one submission is lost
  (`Store.OverlappingPostsLoseOne`).
- Malformed equipment JSON is answered with status 500, not a client error
  (server/server.js:127-129). The server accepts a request with missing text
  fields and stores them as absent (`None`).
- DELETE always answers success, whether or not a record matched
  (server/server.js:160), and also for an id text that is not a number.

## Model

| member | source | states |
|---|---|---|
| Store.InitDatabase | server/server.js:48-54 | An existing document is kept as it is. An absent one becomes an empty submission list with `nextId` 1, which satisfies the store invariant. |
| Store.ReadDatabase | server/server.js:57-65 | A readable document is returned as stored. An unreadable one falls back to the same value `initDatabase` writes. |
| Store.PostSubmission | server/server.js:97-131 | The POST succeeds exactly when both equipment fields parse. On failure the document is unchanged. On success: the new record's id is the old `nextId`; `nextId` grows by one; exactly one record is appended; the earlier records are untouched; the new record is stamped with `now`; the invariant is kept; the new id is fresh. |
| Store.PostedRecord | server/server.js:100-119 | Each attachment reference is present exactly when its own field holds a file, and is then that file's stored name. The two maps are the parse results of their fields. Each text field is copied from the body. `createdAt` is `now`. |
| Store.MissingMapsAreEmpty | server/server.js:110-111 | A missing or empty equipment field is stored as the empty object. Whether the POST succeeds then depends only on the auxiliary field. |
| Store.Without | server/server.js:156 | The filter keeps exactly the records whose id differs from the parsed id (all of them for `NaN`), as a subsequence of the input. |
| Store.WithoutCounts | server/server.js:156 | Every kept record keeps its number of occurrences. A removed record has none left. |
| Store.WithoutKeepsDistinct | server/server.js:156 | Filtering keeps identifiers pairwise distinct. |
| Store.DeleteSubmission | server/server.js:151-160 | DELETE always reports success, even when nothing matched. It never changes `nextId`. It removes exactly the records matching `parseInt` of the path text and keeps the others in order. It keeps the invariant. |
| Store.DeleteAbsentReportsSuccess | server/server.js:151-160 | Deleting, through its decimal text, an id that no record carries leaves the document identical and still reports success. |
| Store.DeleteAbsentIsNoOp | server/server.js:154-160 | Deleting an id no record carries leaves the list exactly as it was. |
| Store.DeletePresentRemovesOne | server/server.js:156 | With distinct ids, deleting a stored id removes exactly one record. |
| Store.ListSubmissions | server/server.js:136-143 | The list is a permutation of the stored records with `created_at` non-increasing. Records with equal timestamps keep their storage order. |
| Store.OverlappingPostsLoseOne | server/server.js:97-124 | Two successful POSTs handled from the same read document answer the same id. The document written last holds the earlier records and one new record. |
| Store.Issued | server/server.js:104-126 | One request hands out at most one identifier: the current `nextId`, and only for a successful POST. `nextId` advances by the number handed out. |
| Store.ConsecutiveIdentifiers | server/server.js:104-122 | Over any sequence of requests the identifiers handed out are consecutive from the starting `nextId`. The final `nextId` exceeds the start by their number. |
| Store.RunKeepsValid | server/server.js:104-158 | Every sequence of POST and DELETE requests keeps the ids distinct and below `nextId`. |
| Store.IdentifiersAreFresh | server/server.js:104-122 | No identifier handed out by any sequence of requests was already stored. |
| Store.DeletedIdNeverReissued | server/server.js:154-156 | An identifier deleted through its own decimal text is never handed out again by any later sequence of requests. |
| StableSort.Insert | server/server.js:139-141 | Inserting into a descending sequence keeps it descending and adds exactly that element. The element goes in front of the others with its key. |
| StableSort.SortDescending | server/server.js:139-141 | The result is descending by key and a permutation of the input. Within each key it keeps the input order. |
| StableSort.WithKeyMembers | server/server.js:139-141 | The elements with key k are exactly the members of the input that have key k. |
| StableSort.UniqueStableOrder | server/server.js:139-141 | Two descending sequences that agree on the order of the elements of every key are equal. |
| StableSort.SortIsTheStableSort | server/server.js:139-141 | Every stable descending arrangement of the records is the one `SortDescending` returns. |
| ParseInt.DigitValue | server/server.js:154 | A character's digit value is at most 36, and below 10 exactly for '0'..'9'. |
| ParseInt.TrimStart | server/server.js:154 | Leading white space is removed: the result is a suffix of the input, every dropped character is white space, and the result does not start with white space. |
| ParseInt.DigitRun | server/server.js:154 | The length of the longest prefix of digits of the radix: every character in it is a digit and the next one is not. |
| ParseInt.ShowNat | client/src/components/AdminPortal.jsx:38 | The decimal numeral of a natural number is non-empty and made of decimal digits. |
| ParseInt.ValueOfShowNat | client/src/components/AdminPortal.jsx:38 | The value of a natural number's decimal numeral is that number. |
| ParseInt.ParseNumeralPrefix | server/server.js:154 | `parseInt` of an integer's numeral followed by text that cannot continue it gives the integer back. The one exception is "0" followed by 'x'. |
| ParseInt.ParseShow | server/server.js:154 | `parseInt` reads back the id the admin page puts in the DELETE URL. |
| ParseInt.ParseSkipsWhitespace | client/src/components/Questionnaire.jsx:88 | Leading white space never changes what `parseInt` reads. |
| Questionnaire.SelectChoice | client/src/components/Questionnaire.jsx:203-208 | Selecting a value stores it. It clears that field's override unless the value is "Other", in which case the override is kept. The other choices and overrides, the contact fields, the two unused text fields, both maps, both chosen files, the step, `submitted` and the pending requests are untouched. |
| Questionnaire.Quantity | client/src/components/Questionnaire.jsx:88 | The quantity (`parseInt` of the text, or 0 for `NaN`) is non-zero exactly when `parseInt` yields a non-zero number, and is then that number. |
| Questionnaire.HandleQuantityChange | client/src/components/Questionnaire.jsx:85-98 | The item's key is present afterwards exactly when `parseInt` of the text is positive, and then holds that value. Every other key and every other form field is unchanged. |
| Questionnaire.SetContact | client/src/components/Questionnaire.jsx:81-83 | Editing a contact field stores the text in that field only. Every other contact field, every choice, both maps and the two unused text fields are unchanged. |
| Questionnaire.Resolved | client/src/components/Questionnaire.jsx:114-116 | A choice of "Other" resolves to the override text, even an empty one. Any other choice resolves to itself. |
| Questionnaire.BuildPayload | client/src/components/Questionnaire.jsx:111-132 | The body has exactly the eleven text fields. Each choice field carries its resolved value, so the review step and the body agree. Each quantity field carries the JSON text of its map, and each contact field its text. A file part is present exactly when a file was chosen for its slot, and is that file. No other file part exists. |
| Questionnaire.HandleSubmit | client/src/components/Questionnaire.jsx:139-149 | A successful answer sets `submitted` and changes nothing else. A failure or a thrown request leaves the whole state unchanged. |
| Questionnaire.ResetForm | client/src/components/Questionnaire.jsx:152-175 | Reset returns to step 1 and the form view. Choices, overrides, contact fields and the two unused text fields are empty, both maps are empty and no file is chosen. The result satisfies the invariant. Requests already sent stay pending. |
| Questionnaire.Buttons | client/src/components/Questionnaire.jsx:535-549 | The success view shows only "Submit Another". The form shows "Previous" exactly from step 2, "Next" exactly before step 9 and "Submit" exactly from step 9. |
| Questionnaire.ApplyKeepsValid | client/src/components/Questionnaire.jsx:81-106 | Every event keeps the invariant, including a response that arrives at any step. The step stays in 1..9, the maps hold positive quantities of offered items, and an override is empty unless its choice is "Other". |
| Questionnaire.ChoiceEventKeepsValid | client/src/components/Questionnaire.jsx:203-225 | Selecting a choice or typing its override keeps the invariant. |
| Questionnaire.AnswerEventKeepsValid | client/src/components/Questionnaire.jsx:312-510 | Picking a file, editing a quantity or editing a contact field keeps the invariant. |
| Questionnaire.QuantityEditKeepsValid | client/src/components/Questionnaire.jsx:85-98 | A quantity edit of an offered item never stores a non-positive quantity or an unoffered item. |
| Questionnaire.ContactEditKeepsValid | client/src/components/Questionnaire.jsx:81-83 | Editing a contact field keeps the invariant. |
| Questionnaire.SelectKeepsValid | client/src/components/Questionnaire.jsx:203-208 | Selecting a choice keeps every override empty unless its choice is "Other". |
| Questionnaire.NavigationKeepsValid | client/src/components/Questionnaire.jsx:535-549 | The buttons, including "Submit", and a response arriving in any state keep the step within 1..9. |
| Questionnaire.ApplyMovesStep | client/src/components/Questionnaire.jsx:100-106 | "Next" adds exactly one to the step and "Previous" subtracts exactly one. "Submit Another" returns to step 1. Every other event leaves the step alone. |
| Questionnaire.RunKeepsValid | client/src/components/Questionnaire.jsx:535-549 | From a valid state, any interleaving of user actions and responses keeps the invariant. |
| Questionnaire.InitialStateIsValid | client/src/components/Questionnaire.jsx:58-79 | The initial state satisfies the invariant. |
| Questionnaire.SubmitOnlySends | client/src/components/Questionnaire.jsx:108-137 | A click on "Submit" changes no answer, no step and no view. It adds one request in flight. |
| Questionnaire.SuccessAfterPrevious | client/src/components/Questionnaire.jsx:104-106 | With the buttons left enabled, "Submit", "Previous" and then a successful response show the success view at step 8. |
| Questionnaire.DoubleSubmitSendsTwice | client/src/components/Questionnaire.jsx:543-547 | Two clicks on "Submit" before any response leave two requests in flight and change nothing else. |
| QuantityView.Render | client/src/components/AdminPortal.jsx:175-185 | An object with no keys renders "none selected". Otherwise there is one line per key, each with that key's quantity, with "units" exactly when the quantity is a number above one, and every key listed. |
| QuantityView.RenderQuantities | client/src/components/Questionnaire.jsx:419-425 | The review step shows "None selected" exactly for an empty map. Otherwise it lists every item with its quantity, plural exactly when the quantity exceeds one. |
| AdminPortal.NormalizeField | client/src/components/AdminPortal.jsx:23 | A string is replaced by its parse result (a throw when it does not parse). A truthy non-string is kept as is. A falsy or absent value becomes `{}`. |
| AdminPortal.NormalizeRecord | client/src/components/AdminPortal.jsx:21-25 | A record normalises exactly when both fields do. The two fields are normalised independently and every other field is copied. |
| AdminPortal.NormalizeAll | client/src/components/AdminPortal.jsx:21-25 | The list normalises exactly when every record does. The result then has the same length and each position holds the normalised record of that position. |
| AdminPortal.FetchSubmissions | client/src/components/AdminPortal.jsx:14-33 | Loading always ends and the expanded row stays. The list is replaced only by a successful reply whose records all normalise, and then by the normalised records. |
| AdminPortal.ToggleExpand | client/src/components/AdminPortal.jsx:53-55 | The row opens exactly when it was not the open one. No other row is open afterwards. |
| AdminPortal.ToggleTwice | client/src/components/AdminPortal.jsx:53-55 | Toggling a row twice restores the state exactly when no row, or that row, was open. From another open row it ends with none open. |
| AdminPortal.NormalizeRoundTrip | client/src/components/AdminPortal.jsx:23 | A map reaches the admin list unchanged whether it was stored as a value or as its serialised text. |
| AdminPortal.MissingBecomesEmpty | client/src/components/AdminPortal.jsx:23 | An absent or `null` field becomes the empty object. |
| AdminPortal.NormalizeIdempotent | client/src/components/AdminPortal.jsx:23-24 | A second pass leaves a normalised value unchanged exactly when it is a truthy non-string value, or a string that parses to itself. A falsy result becomes `{}`, and a string result is parsed again. |
| AdminPortal.DetailLists | client/src/components/AdminPortal.jsx:172-204 | Each equipment list of the detail row shows its "no equipment" text exactly when the field is falsy or an object without keys. |
| Multipart.ReceivedRequest | server/server.js:78-101 | The server finds, under each field name, the value the form appended. The override-resolved choices, the serialised maps and the contact texts are each under their own name. Each file field holds exactly the chosen file under its stored name, or is missing. |
| Multipart.MapFieldRoundTrip | server/server.js:110-111 | A serialised map from the form is never empty text, so the server parses it back to the same map. |
| Multipart.SubmissionIsStoredAsAnswered | client/src/components/Questionnaire.jsx:114-118 | A submission from the form is always accepted and gets the next id. The record holds the resolved choices and both quantity maps. |
| Multipart.ContactAndFilesStored | client/src/components/Questionnaire.jsx:119-132 | The record holds the contact fields as typed. It has a file reference exactly for each chosen file, equal to that file's stored name. |
| Multipart.AdminSeesStoredRecord | client/src/components/AdminPortal.jsx:21-25 | A record whose maps came from the form is shown by the admin list exactly as stored. |
| Multipart.FirstSubmissionScenario | server/server.js:103-143 | Against the empty store, a first submission with detection I/O "Other" overridden by "Custom Harness V2" and two Nexus units becomes record 1. That record holds the override text and the map, and is the only record listed. |
| Multipart.SingleRecordList | server/server.js:139-141 | A store holding one record lists exactly that record. |
| Multipart.ObjectValuedIsNormal | client/src/components/AdminPortal.jsx:21-25 | A record whose two maps are JSON objects passes normalisation unchanged. |
| Multipart.ObjectValuedListIsNormal | client/src/components/AdminPortal.jsx:21-25 | A list of such records normalises to itself, record by record. |
| Multipart.AdminShowsTheList | client/src/components/AdminPortal.jsx:14-28 | When every stored record holds object-valued maps, a successful fetch of the server's list shows exactly that list, in the server's order. Loading ends and the open row stays. |

## Left out

- File I/O is not modelled: reading and writing the document, the access check in `initDatabase`, the uploads directory and static serving. The document is a value passed in and returned.
- The read-modify-write race between concurrent requests is not modelled. It is concurrency, and the code takes no lock. Two POSTs that both read the document before either writes it each push their record onto their own copy (server/server.js:97, 104, 121, 124). The later write replaces the earlier one. The document gains one record, the other submission is lost, and both callers are told the same id. `Store.OverlappingPostsLoseOne` states this for one shared document. The freshness lemmas describe requests handled one after another.
- Multer's generated file name (`Date.now()` and `Math.random()`, server/server.js:29-30) is the parameter `storedName`, because it needs a clock and randomness. Multer's `maxCount` errors for a second file in one field are not modelled: the form never sends one.
- `JSON.parse` and `JSON.stringify` are parameters, not implementations. Only the round trip stated by `Json.Agree` is assumed where a proof needs it. `FromQuantities` is the JSON object the form's quantity map serialises.
- `Json.Json` numbers are integers. `JSON.parse` yields double-precision numbers, so a stored quantity that is fractional, non-finite or beyond 2^53 cannot be represented. Such a value could come from a client other than the form, which only sends integers.
- ISO timestamps and their parsing in the sort are replaced by a natural number `createdAt`. Two records with the same number stand for equal millisecond timestamps.
- `fetch`, `alert`, `confirm`, `console`, `useEffect` and React rendering are left out. The network replies are the datatypes `Questionnaire.Reply` and `AdminPortal.FetchReply`.
- The admin page's `handleDelete` (client/src/components/AdminPortal.jsx:35-51) is only a confirm dialog, a DELETE request and a refetch. Its two effects are `Store.DeleteSubmission` and `AdminPortal.FetchSubmissions`.
- The progress bar percentage and the "Step n of 9" text are left out (floating point and display only). So is `formatDate`, which is locale-dependent.
- The field labels and placeholders are left out. The `intersectionPhasing` and `signalTiming` text fields of `formData` are modelled, but no handler edits them and `handleSubmit` does not send them.
- The questionnaire's events are only those whose input or button is rendered in the current state (`Questionnaire.Offered`). A select offers only its placeholder and its options. The browser's enforcement of `min="0"` and of the number input's allowed text is not modelled: any text reaches `handleQuantityChange`.
- client/src/App.jsx, client/src/components/Logo.jsx and client/src/config.js are not part of this model. They hold routing, an image size lookup and the API base URL.
- ParseInt.Parse: models `parseInt` on integers only. It does not produce floating-point results, so numerals beyond 2^53 lose no precision here, and `-0` is the integer 0.
- QuantityView.Keys: `Object.keys` of a non-object value (a number, a string, an array) is treated as having no keys, so the admin detail row shows "no equipment" for such a stored value.
- QuantityView.MoreThanOne: `qty > 1` is modelled for numeric quantities only. JavaScript's coercion of strings and other values in that comparison is not modelled.
- Store.Request: only multipart bodies are modelled, so every body field is text. The server also mounts `bodyParser.json()` for every route (server/server.js:41), and multer leaves a non-multipart request alone, so the POST handler accepts JSON bodies too. There a field can be any JSON value. An object-valued `equipment` becomes the text "[object Object]" and fails to parse, which gives a 500. A falsy `equipment` (`0`, `false`) is stored as `{}`, and `true` is stored as `true`. A numeric or `null` contact field is stored as that value. `Store.PostSubmission`'s "created exactly when both map fields parse" is proved for text fields only.
- Store.PostSubmission: `nextId` is an unbounded integer. In JavaScript `db.nextId++` stops growing at 2^53 (9007199254740992 + 1 is 9007199254740992), and from there every POST reuses the same identifier.
- Store.IdentifiersAreFresh: assumes each handler reads back the document the previous one wrote. With the fallback of `Store.ReadDatabase` (logged only to the console), the next write erases every stored record, numbering restarts at 1, and identifiers can be reused.
