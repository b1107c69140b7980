/** The multi-step form of client/src/components/Questionnaire.jsx: the
    component's state (`step`, `formData`, `submitted`, the three "Other"
    texts and the two chosen files), the requests still awaiting a response,
    and the transitions its event handlers make. Rendering is modelled only
    as far as it decides which inputs and buttons exist, because that is
    what bounds the step counter. */
module Questionnaire {
  import opened Wrappers
  import opened Json
  import ParseInt

  const FirstStep := 1
  const LastStep := 9

  /** The option whose selection reveals the free-text override. */
  const OtherOption := "Other"

  const CabinetTypeOptions: seq<string> := [
    "NEMA TS-1", "NEMA TS-2 Type 1", "NEMA TS-2 Type 2", "ATC Cabinet",
    "332 Cabinet", "334 Cabinet", "336 Cabinet", "TEES Cabinet",
    "NYDOT Cabinet", "M Cabinet", "G Cabinet", "P Cabinet", "R Cabinet",
    "Super P Cabinet", "Super M Cabinet", "ITS Cabinet", "Other"]

  const DetectionIOOptions: seq<string> := [
    "DB37 to Spades", "SDLC 15 Pin", "SDLC 25 to 15 Pin", "NTCIP",
    "Smart Harness", "Other"]

  const TlsConnectionOptions: seq<string> := [
    "NTCIP", "SDLC", "C1/C4 Harness", "DB25 to Spade Cables", "None", "Other"]

  const EquipmentOptions: seq<string> := [
    "Nexus Unit", "Sensor Power Unit", "Type 1 Sensor", "Type 2 Sensor"]

  const AuxiliaryOptions: seq<string> := [
    "Wifi Repeater", "19\" Rack Mount Kit", "Shelf Mount Kit", "C1 Harness"]

  datatype ChoiceField = CabinetType | DetectionIO | TlsConnection
  datatype QuantityField = Equipment | AuxiliaryEquipment
  datatype ContactField = Distributor | EndUser | Address | City | State | Zip
  datatype FileSlot = IntersectionPhasing | SignalTiming

  /** A file the user picked; only its name is used by the form. */
  datatype File = File(name: string)

  datatype FormData = FormData(
    cabinetType: string,
    detectionIO: string,
    tlsConnection: string,
    intersectionPhasing: string,
    signalTiming: string,
    equipment: map<string, int>,
    auxiliaryEquipment: map<string, int>,
    distributor: string,
    endUser: string,
    address: string,
    city: string,
    state: string,
    zip: string)

  datatype FormState = FormState(
    step: int,
    formData: FormData,
    submitted: bool,
    cabinetTypeOther: string,
    detectionIOOther: string,
    tlsConnectionOther: string,
    intersectionPhasingFile: Option<File>,
    signalTimingFile: Option<File>,
    pending: nat)

  const EmptyFormData: FormData := FormData("", "", "", "", "", map[], map[], "", "", "", "", "", "")

  /** The state `useState` starts from, with no request under way.
      `pending` is not React state: it counts the `handleSubmit` calls whose
      `fetch` has not yet settled, because nothing disables the buttons
      while one is awaited. */
  const InitialState: FormState := FormState(FirstStep, EmptyFormData, false, "", "", "", None, None, 0)

  // ---------------------------------------------------------------------
  // Field access

  function Choice(d: FormData, f: ChoiceField): string {
    match f
    case CabinetType => d.cabinetType
    case DetectionIO => d.detectionIO
    case TlsConnection => d.tlsConnection
  }

  function OtherText(s: FormState, f: ChoiceField): string {
    match f
    case CabinetType => s.cabinetTypeOther
    case DetectionIO => s.detectionIOOther
    case TlsConnection => s.tlsConnectionOther
  }

  function WithOtherText(s: FormState, f: ChoiceField, text: string): FormState {
    match f
    case CabinetType => s.(cabinetTypeOther := text)
    case DetectionIO => s.(detectionIOOther := text)
    case TlsConnection => s.(tlsConnectionOther := text)
  }

  function ChoiceOptions(f: ChoiceField): seq<string> {
    match f
    case CabinetType => CabinetTypeOptions
    case DetectionIO => DetectionIOOptions
    case TlsConnection => TlsConnectionOptions
  }

  function Quantities(d: FormData, f: QuantityField): map<string, int> {
    match f
    case Equipment => d.equipment
    case AuxiliaryEquipment => d.auxiliaryEquipment
  }

  function WithQuantities(d: FormData, f: QuantityField, m: map<string, int>): FormData {
    match f
    case Equipment => d.(equipment := m)
    case AuxiliaryEquipment => d.(auxiliaryEquipment := m)
  }

  function ItemOptions(f: QuantityField): seq<string> {
    match f
    case Equipment => EquipmentOptions
    case AuxiliaryEquipment => AuxiliaryOptions
  }

  function Contact(d: FormData, f: ContactField): string {
    match f
    case Distributor => d.distributor
    case EndUser => d.endUser
    case Address => d.address
    case City => d.city
    case State => d.state
    case Zip => d.zip
  }

  function ChosenFile(s: FormState, slot: FileSlot): Option<File> {
    match slot
    case IntersectionPhasing => s.intersectionPhasingFile
    case SignalTiming => s.signalTimingFile
  }

  // ---------------------------------------------------------------------
  // Handlers

  /** `handleChange(field, value)` for a text input of the last step. */
  function SetContact(d: FormData, f: ContactField, value: string): (r: FormData)
    ensures Contact(r, f) == value
    ensures forall g :: g != f ==> Contact(r, g) == Contact(d, g)
    ensures forall c :: Choice(r, c) == Choice(d, c)
    ensures forall q :: Quantities(r, q) == Quantities(d, q)
    ensures r.intersectionPhasing == d.intersectionPhasing && r.signalTiming == d.signalTiming
  {
    match f
    case Distributor => d.(distributor := value)
    case EndUser => d.(endUser := value)
    case Address => d.(address := value)
    case City => d.(city := value)
    case State => d.(state := value)
    case Zip => d.(zip := value)
  }

  /** The `onChange` of a choice select: store the value and, unless it is
      "Other", clear that field's override text. */
  function SelectChoice(s: FormState, f: ChoiceField, value: string): (r: FormState)
    ensures Choice(r.formData, f) == value
    ensures value != OtherOption ==> OtherText(r, f) == ""
    ensures value == OtherOption ==> OtherText(r, f) == OtherText(s, f)
    ensures forall g :: g != f ==> Choice(r.formData, g) == Choice(s.formData, g) && OtherText(r, g) == OtherText(s, g)
    ensures r.step == s.step && r.submitted == s.submitted
    ensures r.formData.equipment == s.formData.equipment && r.formData.auxiliaryEquipment == s.formData.auxiliaryEquipment
    ensures forall c :: Contact(r.formData, c) == Contact(s.formData, c)
    ensures forall slot :: ChosenFile(r, slot) == ChosenFile(s, slot)
    ensures r.formData.intersectionPhasing == s.formData.intersectionPhasing
    ensures r.formData.signalTiming == s.formData.signalTiming
    ensures r.pending == s.pending
  {
    var d := match f
      case CabinetType => s.formData.(cabinetType := value)
      case DetectionIO => s.formData.(detectionIO := value)
      case TlsConnection => s.formData.(tlsConnection := value);
    var s' := s.(formData := d);
    if value != OtherOption then WithOtherText(s', f, "") else s'
  }

  /** `parseInt(quantity) || 0`: `NaN` and zero both become 0. */
  function Quantity(text: string): (q: int)
    ensures q != 0 <==> ParseInt.Parse(text).Some? && ParseInt.Parse(text).value != 0
    ensures q != 0 ==> ParseInt.Parse(text) == Some(q)
  {
    match ParseInt.Parse(text)
    case None => 0
    case Some(n) => n
  }

  /** `handleQuantityChange(field, item, quantity)`: a positive quantity sets
      or overwrites the item's key, anything else (zero, negative, not a
      number) deletes it. Only that key of that map changes. */
  function HandleQuantityChange(d: FormData, f: QuantityField, item: string, quantity: string): (r: FormData)
    ensures var m, m' := Quantities(d, f), Quantities(r, f);
      && (item in m' <==> ParseInt.Parse(quantity).Some? && ParseInt.Parse(quantity).value > 0)
      && (item in m' ==> Some(m'[item]) == ParseInt.Parse(quantity))
      && (forall k :: k != item ==> (k in m' <==> k in m) && (k in m' ==> m'[k] == m[k]))
    ensures r == WithQuantities(d, f, Quantities(r, f))
  {
    var m := Quantities(d, f);
    var qty := Quantity(quantity);
    var m' := if qty > 0 then m[item := qty] else m - {item};
    WithQuantities(d, f, m')
  }

  /** The text the review step shows, and the value `handleSubmit` sends, for
      a choice field: the override when the choice is "Other", even if the
      override is empty; the choice itself otherwise. */
  function Resolved(s: FormState, f: ChoiceField): (v: string)
    ensures Choice(s.formData, f) == OtherOption ==> v == OtherText(s, f)
    ensures Choice(s.formData, f) != OtherOption ==> v == Choice(s.formData, f)
  {
    if Choice(s.formData, f) == OtherOption then OtherText(s, f) else Choice(s.formData, f)
  }

  // ---------------------------------------------------------------------
  // Submission

  /** The multipart body `handleSubmit` builds: each text field is appended
      once under its own name, and each file only when one was chosen. */
  datatype Payload = Payload(fields: map<string, string>, files: map<string, File>)

  /** The multipart field name each answer is sent under. */
  function ChoiceName(f: ChoiceField): string {
    match f
    case CabinetType => "cabinetType"
    case DetectionIO => "detectionIO"
    case TlsConnection => "tlsConnection"
  }

  function QuantityName(f: QuantityField): string {
    match f
    case Equipment => "equipment"
    case AuxiliaryEquipment => "auxiliaryEquipment"
  }

  function ContactName(f: ContactField): string {
    match f
    case Distributor => "distributor"
    case EndUser => "endUser"
    case Address => "address"
    case City => "city"
    case State => "state"
    case Zip => "zip"
  }

  /** The eleven text fields of the body; the two form fields
      `intersectionPhasing` and `signalTiming` are not among them. */
  const TextFieldNames: set<string> := {
    "cabinetType", "detectionIO", "tlsConnection", "equipment", "auxiliaryEquipment",
    "distributor", "endUser", "address", "city", "state", "zip"}

  /** The value `handleSubmit` appends under a text field's name. */
  function TextField(s: FormState, stringify: Stringifier, name: string): string {
    match name
    case "cabinetType" => Resolved(s, CabinetType)
    case "detectionIO" => Resolved(s, DetectionIO)
    case "tlsConnection" => Resolved(s, TlsConnection)
    case "equipment" => stringify(FromQuantities(s.formData.equipment))
    case "auxiliaryEquipment" => stringify(FromQuantities(s.formData.auxiliaryEquipment))
    case "distributor" => s.formData.distributor
    case "endUser" => s.formData.endUser
    case "address" => s.formData.address
    case "city" => s.formData.city
    case "state" => s.formData.state
    case _ => s.formData.zip
  }

  /** The body sent for the state at the moment "Submit" is clicked: a choice
      field carries its resolved value (the override when "Other" is
      chosen), a quantity map its JSON text, a contact field its text. */
  function BuildPayload(s: FormState, stringify: Stringifier): (p: Payload)
    ensures p.fields.Keys == TextFieldNames
    ensures forall f :: ChoiceName(f) in p.fields && p.fields[ChoiceName(f)] == Resolved(s, f)
    ensures forall f :: QuantityName(f) in p.fields && p.fields[QuantityName(f)] == stringify(FromQuantities(Quantities(s.formData, f)))
    ensures forall f :: ContactName(f) in p.fields && p.fields[ContactName(f)] == Contact(s.formData, f)
    ensures "intersectionPhasingFile" in p.files <==> s.intersectionPhasingFile.Some?
    ensures "signalTimingFile" in p.files <==> s.signalTimingFile.Some?
    ensures forall n :: n in p.files ==> n == "intersectionPhasingFile" || n == "signalTimingFile"
    ensures s.intersectionPhasingFile.Some? ==> p.files["intersectionPhasingFile"] == s.intersectionPhasingFile.value
    ensures s.signalTimingFile.Some? ==> p.files["signalTimingFile"] == s.signalTimingFile.value
  {
    var fields := map n | n in TextFieldNames :: TextField(s, stringify, n);
    var phasing: map<string, File> := match s.intersectionPhasingFile
      case Some(file) => map["intersectionPhasingFile" := file]
      case None => map[];
    var timing: map<string, File> := match s.signalTimingFile
      case Some(file) => map["signalTimingFile" := file]
      case None => map[];
    Payload(fields, phasing + timing)
  }

  /** What `handleSubmit` learns: a parsed response with its `success` flag,
      or nothing (the request or the JSON decoding threw). */
  datatype Reply = Answered(success: bool) | Unreachable

  /** `handleSubmit` after the response: success shows the success view,
      whatever the step and answers are by then; any failure (an alert)
      leaves every field and the step as they are. */
  function HandleSubmit(s: FormState, reply: Reply): (r: FormState)
    ensures reply == Answered(true) ==> r.submitted && r.(submitted := s.submitted) == s
    ensures reply != Answered(true) ==> r == s
  {
    if reply == Answered(true) then s.(submitted := true) else s
  }

  /** `resetForm`: whatever the state, back to step 1 with empty answers,
      empty maps, no files and the form view. Requests already sent are not
      cancelled. */
  function ResetForm(s: FormState): (r: FormState)
    ensures r.step == FirstStep && !r.submitted
    ensures forall q :: Quantities(r.formData, q) == map[]
    ensures forall f :: Choice(r.formData, f) == "" && OtherText(r, f) == ""
    ensures forall c :: Contact(r.formData, c) == ""
    ensures r.formData.intersectionPhasing == "" && r.formData.signalTiming == ""
    ensures forall slot :: ChosenFile(r, slot).None?
    ensures r.pending == s.pending
    ensures Valid(r)
  {
    InitialState.(pending := s.pending)
  }

  // ---------------------------------------------------------------------
  // Navigation and the events the rendered view offers

  datatype Button = Previous | Next | Submit | SubmitAnother

  /** The buttons on screen: the success view has only "Submit Another";
      the form has "Previous" from step 2 on, and "Next" before the last
      step, "Submit" on it. */
  function Buttons(s: FormState): (b: set<Button>)
    ensures Previous in b <==> !s.submitted && s.step > FirstStep
    ensures Next in b <==> !s.submitted && s.step < LastStep
    ensures Submit in b <==> !s.submitted && s.step >= LastStep
    ensures SubmitAnother in b <==> s.submitted
  {
    if s.submitted then {SubmitAnother}
    else
      (if s.step > FirstStep then {Previous} else {})
      + (if s.step < LastStep then {Next} else {Submit})
  }

  /** The step on which a choice field's select is rendered. */
  function ChoiceStep(f: ChoiceField): int {
    match f
    case CabinetType => 1
    case DetectionIO => 2
    case TlsConnection => 3
  }

  function FileStep(slot: FileSlot): int {
    match slot
    case IntersectionPhasing => 4
    case SignalTiming => 5
  }

  function QuantityStep(f: QuantityField): int {
    match f
    case Equipment => 6
    case AuxiliaryEquipment => 7
  }

  const ContactStep := 9

  /** A user action, or the response to an earlier "Submit" click arriving.
      A select offers the empty placeholder and its options; a file input
      yields the first selected file or none. */
  datatype Event =
    | Select(choice: ChoiceField, value: string)
    | TypeOther(choice: ChoiceField, text: string)
    | PickFile(slot: FileSlot, file: Option<File>)
    | EditQuantity(field: QuantityField, item: string, quantity: string)
    | EditContact(contact: ContactField, value: string)
    | Press(button: Button)
    | Respond(reply: Reply)

  /** The event's control is on screen in state s. */
  predicate Offered(s: FormState, e: Event) {
    match e
    case Select(f, v) => !s.submitted && s.step == ChoiceStep(f) && (v == "" || v in ChoiceOptions(f))
    case TypeOther(f, _) => !s.submitted && s.step == ChoiceStep(f) && Choice(s.formData, f) == OtherOption
    case PickFile(slot, _) => !s.submitted && s.step == FileStep(slot)
    case EditQuantity(f, item, _) => !s.submitted && s.step == QuantityStep(f) && item in ItemOptions(f)
    case EditContact(_, _) => !s.submitted && s.step == ContactStep
    case Press(b) => b in Buttons(s)
    case Respond(_) => s.pending > 0
  }

  /** The effect of an event whose control is on screen; an event whose
      control is not rendered cannot happen and changes nothing. "Submit"
      only sends the request (built by `BuildPayload` from the state at that
      moment); its response may arrive after any number of later events, and
      is then applied to the state as it is by then. */
  function Apply(s: FormState, e: Event): FormState {
    if !Offered(s, e) then s
    else match e
      case Select(f, v) => SelectChoice(s, f, v)
      case TypeOther(f, t) => WithOtherText(s, f, t)
      case PickFile(IntersectionPhasing, file) => s.(intersectionPhasingFile := file)
      case PickFile(SignalTiming, file) => s.(signalTimingFile := file)
      case EditQuantity(f, item, q) => s.(formData := HandleQuantityChange(s.formData, f, item, q))
      case EditContact(c, v) => s.(formData := SetContact(s.formData, c, v))
      case Press(Previous) => s.(step := s.step - 1)
      case Press(Next) => s.(step := s.step + 1)
      case Press(SubmitAnother) => ResetForm(s)
      case Press(Submit) => s.(pending := s.pending + 1)
      case Respond(reply) => HandleSubmit(s.(pending := s.pending - 1), reply)
  }

  function Run(s: FormState, events: seq<Event>): FormState
    decreases |events|
  {
    if events == [] then s else Run(Apply(s, events[0]), events[1..])
  }

  // ---------------------------------------------------------------------
  // Invariant

  /** Every quantity is positive and names an item offered for that map. */
  ghost predicate QuantitiesWellFormed(m: map<string, int>, options: seq<string>) {
    forall k :: k in m ==> m[k] > 0 && k in options
  }

  /** The state the form keeps: the step is within 1..9, the maps hold
      positive quantities of offered items, and an override text is empty
      unless its choice is "Other". The success view is not tied to the last
      step: a response may arrive after "Previous" was pressed. */
  ghost predicate Valid(s: FormState) {
    && FirstStep <= s.step <= LastStep
    && QuantitiesWellFormed(s.formData.equipment, EquipmentOptions)
    && QuantitiesWellFormed(s.formData.auxiliaryEquipment, AuxiliaryOptions)
    && (forall f :: Choice(s.formData, f) != OtherOption ==> OtherText(s, f) == "")
  }

  /** Every event keeps the invariant. */
  lemma ApplyKeepsValid(s: FormState, e: Event)
    requires Valid(s)
    ensures Valid(Apply(s, e))
  {
    if e.Select? || e.TypeOther? {
      ChoiceEventKeepsValid(s, e);
    } else if e.PickFile? || e.EditQuantity? || e.EditContact? {
      AnswerEventKeepsValid(s, e);
    } else {
      NavigationKeepsValid(s, e);
    }
  }

  lemma ChoiceEventKeepsValid(s: FormState, e: Event)
    requires Valid(s) && (e.Select? || e.TypeOther?)
    ensures Valid(Apply(s, e))
  {
    if Offered(s, e) && e.Select? {
      SelectKeepsValid(s, e.choice, e.value);
    }
  }

  lemma AnswerEventKeepsValid(s: FormState, e: Event)
    requires Valid(s) && (e.PickFile? || e.EditQuantity? || e.EditContact?)
    ensures Valid(Apply(s, e))
  {
    if Offered(s, e) {
      match e
      case EditQuantity(f, item, q) => QuantityEditKeepsValid(s, f, item, q);
      case EditContact(c, v) => ContactEditKeepsValid(s, c, v);
      case PickFile(_, _) => OverridesUnchanged(s, Apply(s, e));
    }
  }

  lemma ContactEditKeepsValid(s: FormState, c: ContactField, v: string)
    requires Valid(s)
    ensures Valid(s.(formData := SetContact(s.formData, c, v)))
  {
    OverridesUnchanged(s, s.(formData := SetContact(s.formData, c, v)));
  }

  lemma NavigationKeepsValid(s: FormState, e: Event)
    requires Valid(s) && (e.Press? || e.Respond?)
    ensures Valid(Apply(s, e))
  {
  }

  /** "Next" and "Previous" move the step by exactly one, "Submit Another"
      returns to step 1, and every other event leaves the step alone. */
  lemma ApplyMovesStep(s: FormState, e: Event)
    ensures Offered(s, e) && e == Press(Next) ==> Apply(s, e).step == s.step + 1
    ensures Offered(s, e) && e == Press(Previous) ==> Apply(s, e).step == s.step - 1
    ensures Offered(s, e) && e == Press(SubmitAnother) ==> Apply(s, e).step == FirstStep
    ensures !(e.Press? && e.button in {Next, Previous, SubmitAnother}) ==> Apply(s, e).step == s.step
  {
  }

  lemma QuantityEditKeepsValid(s: FormState, f: QuantityField, item: string, q: string)
    requires Valid(s) && item in ItemOptions(f)
    ensures Valid(s.(formData := HandleQuantityChange(s.formData, f, item, q)))
  {
    var d := HandleQuantityChange(s.formData, f, item, q);
    var r := s.(formData := d);
    var m, m' := Quantities(s.formData, f), Quantities(d, f);
    assert QuantitiesWellFormed(m', ItemOptions(f)) by {
      forall k | k in m' ensures m'[k] > 0 && k in ItemOptions(f) {
        if k != item {
          assert k in m;
        }
      }
    }
    OverridesUnchanged(s, r);
    match f
    case Equipment =>
      assert d.auxiliaryEquipment == s.formData.auxiliaryEquipment;
    case AuxiliaryEquipment =>
      assert d.equipment == s.formData.equipment;
  }

  lemma SelectKeepsValid(s: FormState, f: ChoiceField, v: string)
    requires Valid(s)
    ensures Valid(SelectChoice(s, f, v))
  {
  }

  lemma OverridesUnchanged(s: FormState, r: FormState)
    requires forall f :: Choice(s.formData, f) != OtherOption ==> OtherText(s, f) == ""
    requires r.formData.cabinetType == s.formData.cabinetType && r.cabinetTypeOther == s.cabinetTypeOther
    requires r.formData.detectionIO == s.formData.detectionIO && r.detectionIOOther == s.detectionIOOther
    requires r.formData.tlsConnection == s.formData.tlsConnection && r.tlsConnectionOther == s.tlsConnectionOther
    ensures forall f :: Choice(r.formData, f) != OtherOption ==> OtherText(r, f) == ""
  {
    forall f ensures Choice(r.formData, f) != OtherOption ==> OtherText(r, f) == "" {
      assert Choice(r.formData, f) == Choice(s.formData, f);
    }
  }

  /** From any state satisfying the invariant, every interleaving of user
      actions and responses keeps it: in particular the step counter never
      leaves 1..9 and no map ever holds a zero or negative quantity. */
  lemma {:induction false} RunKeepsValid(s: FormState, events: seq<Event>)
    requires Valid(s)
    ensures Valid(Run(s, events))
    decreases |events|
  {
    if events != [] {
      ApplyKeepsValid(s, events[0]);
      RunKeepsValid(Apply(s, events[0]), events[1..]);
    }
  }

  lemma InitialStateIsValid()
    ensures Valid(InitialState)
  {
  }

  /** The race the unguarded buttons allow: "Submit", then "Previous" before
      the response, then a successful response shows the success view over
      step 8. */
  lemma SuccessAfterPrevious(s: FormState)
    requires Valid(s) && s.step == LastStep && !s.submitted
    ensures var r := Run(s, [Press(Submit), Press(Previous), Respond(Answered(true))]);
      r.submitted && r.step == LastStep - 1 && r.pending == s.pending
  {
    var s1 := Apply(s, Press(Submit));
    var s2 := Apply(s1, Press(Previous));
    assert Run(s, [Press(Submit), Press(Previous), Respond(Answered(true))])
      == Run(s2, [Respond(Answered(true))]);
  }

  /** A click on "Submit" only adds a request in flight. */
  lemma SubmitOnlySends(s: FormState)
    requires !s.submitted && s.step == LastStep
    ensures Apply(s, Press(Submit)) == s.(pending := s.pending + 1)
  {
    assert Offered(s, Press(Submit));
  }

  /** Two clicks on "Submit" before a response send two requests and change
      nothing but the count of responses awaited. */
  lemma DoubleSubmitSendsTwice(s: FormState)
    requires Valid(s) && s.step == LastStep && !s.submitted
    ensures var r := Run(s, [Press(Submit), Press(Submit)]);
      r == s.(pending := s.pending + 2)
  {
    var s1 := s.(pending := s.pending + 1);
    SubmitOnlySends(s);
    SubmitOnlySends(s1);
    assert Run(s, [Press(Submit), Press(Submit)]) == Run(s1, [Press(Submit)]);
  }
}
