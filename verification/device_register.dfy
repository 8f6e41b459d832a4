/** The two-step device registration wizard
    (frontend/src/app/device/register/page.tsx): step 1 collects six
    required fields and validates them, step 2 shows them for confirmation
    and submits. */
module DeviceRegister {
  import opened Ui
  import opened Text

  datatype Field = DeviceId | DeviceName | Model | Location | InstallDate | CompanyCode

  datatype FormData = FormData(
    deviceId: string,
    deviceName: string,
    model: string,
    location: string,
    installDate: string,
    companyCode: string)
  {
    function Get(f: Field): string
    {
      match f
      case DeviceId => deviceId
      case DeviceName => deviceName
      case Model => model
      case Location => location
      case InstallDate => installDate
      case CompanyCode => companyCode
    }

    /** `{ ...prev, [field]: value }`. */
    function Set(f: Field, v: string): (r: FormData)
      ensures r.Get(f) == v
      ensures forall g :: g != f ==> r.Get(g) == Get(g)
    {
      match f
      case DeviceId => this.(deviceId := v)
      case DeviceName => this.(deviceName := v)
      case Model => this.(model := v)
      case Location => this.(location := v)
      case InstallDate => this.(installDate := v)
      case CompanyCode => this.(companyCode := v)
    }
  }

  const EmptyForm: FormData := FormData("", "", "", "", "", "")

  /** `Partial<DeviceFormData>`: the message shown under each field. A field
      shows an error when its entry is present and non-empty (JavaScript
      truthiness). */
  type Errors = map<Field, string>

  predicate HasError(errors: Errors, f: Field)
  {
    f in errors && errors[f] != ""
  }

  /** The message `validateStep1` records for a blank field. */
  function RequiredMessage(f: Field): (m: string)
    ensures m != ""
  {
    match f
    case DeviceId => "장비 ID를 입력해주세요."
    case DeviceName => "장비명을 입력해주세요."
    case Model => "모델명을 입력해주세요."
    case Location => "설치위치를 선택해주세요."
    case InstallDate => "설치일을 선택해주세요."
    case CompanyCode => "업체코드를 입력해주세요."
  }

  datatype Validation = Validation(ok: bool, errors: Errors)

  /** The fields in the order `validateStep1` checks them. */
  const CheckOrder: seq<Field> := [DeviceId, DeviceName, Model, Location, InstallDate, CompanyCode]

  lemma CheckOrderCoversEveryField(f: Field)
    ensures f in CheckOrder
  {
  }

  /** Runs the `if (!formData.<field>.trim())` checks for `fields` in
      order, adding the required-field message of each blank one. */
  function RecordBlanks(form: FormData, fields: seq<Field>, errors: Errors): Errors
    decreases |fields|
  {
    if |fields| == 0 then errors
    else
      var f := fields[0];
      RecordBlanks(form, fields[1..], if IsBlank(form.Get(f)) then errors[f := RequiredMessage(f)] else errors)
  }

  /** After the checks, a field has an entry exactly when it had one before
      or it is checked and blank; every new entry holds the field's message. */
  lemma {:induction false} RecordBlanksExact(form: FormData, fields: seq<Field>, errors: Errors, g: Field)
    ensures g in RecordBlanks(form, fields, errors) <==> g in errors || (g in fields && IsBlank(form.Get(g)))
    ensures g in fields && IsBlank(form.Get(g)) ==> RecordBlanks(form, fields, errors)[g] == RequiredMessage(g)
    ensures g !in fields && g in errors ==> RecordBlanks(form, fields, errors)[g] == errors[g]
    decreases |fields|
  {
    if |fields| > 0 {
      var f := fields[0];
      var e := if IsBlank(form.Get(f)) then errors[f := RequiredMessage(f)] else errors;
      RecordBlanksExact(form, fields[1..], e, g);
      assert g in fields <==> g == f || g in fields[1..];
    }
  }

  /** `validateStep1`: the new error map has an entry, with that field's
      message, for exactly the fields that are blank after `trim()`, and the
      form passes exactly when the map is empty, that is when no field is
      blank. */
  function ValidateStep1(form: FormData): (v: Validation)
    ensures forall f :: f in v.errors <==> IsBlank(form.Get(f))
    ensures forall f :: f in v.errors ==> v.errors[f] == RequiredMessage(f)
    ensures v.ok <==> forall f :: !IsBlank(form.Get(f))
  {
    var e := RecordBlanks(form, CheckOrder, map[]);
    forall f
      ensures f in e <==> IsBlank(form.Get(f))
      ensures f in e ==> e[f] == RequiredMessage(f)
    {
      CheckOrderCoversEveryField(f);
      RecordBlanksExact(form, CheckOrder, map[], f);
    }
    assert (forall f :: !IsBlank(form.Get(f))) ==> e.Keys == {};
    Validation(|e| == 0, e)
  }

  datatype WizardState = WizardState(step: int, form: FormData, errors: Errors)

  const InitialState: WizardState := WizardState(1, EmptyForm, map[])

  /** `handleInputChange(field, value)`: the field takes the value, and its
      error, if one is showing, is replaced by "" while other errors stay. */
  function InputChange(s: WizardState, f: Field, v: string): (r: WizardState)
    ensures r.step == s.step
    ensures r.form.Get(f) == v
    ensures forall g :: g != f ==> r.form.Get(g) == s.form.Get(g)
    ensures !HasError(r.errors, f)
    ensures forall g :: g != f ==> (g in r.errors <==> g in s.errors)
    ensures forall g :: g != f && g in s.errors ==> r.errors[g] == s.errors[g]
    ensures !HasError(s.errors, f) ==> r.errors == s.errors
  {
    var errors := if HasError(s.errors, f) then s.errors[f := ""] else s.errors;
    s.(form := s.form.Set(f, v), errors := errors)
  }

  /** `handleNext`: from step 1, validate and move to step 2 only if the
      form passes; in every other step nothing changes. */
  function Next(s: WizardState): (r: WizardState)
    ensures r.form == s.form
    ensures s.step == 1 ==> r.errors == ValidateStep1(s.form).errors
    ensures s.step == 1 ==> (r.step == 2 <==> ValidateStep1(s.form).ok)
    ensures s.step == 1 && !ValidateStep1(s.form).ok ==> r.step == 1
    ensures s.step == 2 ==> r == s
  {
    if s.step == 1 then
      var v := ValidateStep1(s.form);
      if v.ok then s.(step := 2, errors := v.errors) else s.(errors := v.errors)
    else if s.step < 2 then s.(step := s.step + 1)
    else s
  }

  /** `handlePrev`: go back one step unless already at step 1. */
  function Prev(s: WizardState): (r: WizardState)
    ensures r.form == s.form && r.errors == s.errors
    ensures s.step == 2 ==> r.step == 1
    ensures s.step == 1 ==> r == s
  {
    if s.step > 1 then s.(step := s.step - 1) else s
  }

  /** `handleSubmit`: the success alert, then the device list. */
  function Submit(s: WizardState): (effects: seq<Effect>)
    ensures |effects| == 2 && effects[0].Alert? && effects[1] == Navigate("/device")
  {
    [Alert("디바이스가 성공적으로 등록되었습니다."), Navigate("/device")]
  }

  datatype Event =
    | Input(field: Field, value: string)   // an input of step 1
    | NextClicked                          // "다음" of step 1
    | PrevClicked                          // "이전" of step 2
    | SubmitClicked                        // "등록" of step 2
    | CancelClicked                        // "취소" of either step

  datatype Transition = Transition(state: WizardState, effects: seq<Effect>)

  /** The inputs and the next button belong to step 1's rendering, the
      previous and submit buttons to step 2's; an event from a control that
      is not on screen leaves the state alone. */
  function Step(s: WizardState, e: Event): (t: Transition)
    ensures e.SubmitClicked? && t.effects != [] ==> s.step == 2
    ensures e.SubmitClicked? && s.step == 2 ==> t.effects == Submit(s) && t.state == s
    ensures e.CancelClicked? ==> t.effects == [Navigate("/device")] && t.state == s
    ensures !e.SubmitClicked? && !e.CancelClicked? ==> t.effects == []
    ensures e.Input? && s.step != 1 ==> t.state == s
    ensures e.Input? && s.step == 1 ==> t.state == InputChange(s, e.field, e.value)
    ensures e.NextClicked? ==> t.state == (if s.step == 1 then Next(s) else s)
    ensures e.PrevClicked? ==> t.state == (if s.step == 2 then Prev(s) else s)
  {
    match e
    case Input(f, v) => Transition(if s.step == 1 then InputChange(s, f, v) else s, [])
    case NextClicked => Transition(if s.step == 1 then Next(s) else s, [])
    case PrevClicked => Transition(if s.step == 2 then Prev(s) else s, [])
    case SubmitClicked => if s.step == 2 then Transition(s, Submit(s)) else Transition(s, [])
    case CancelClicked => Transition(s, [Navigate("/device")])   // `handleCancel`
  }

  /** The wizard is always at step 1 or 2, and at step 2 the form has passed
      validation. */
  ghost predicate Invariant(s: WizardState)
  {
    && (s.step == 1 || s.step == 2)
    && (s.step == 2 ==> forall f :: !IsBlank(s.form.Get(f)))
  }

  lemma StepPreservesInvariant(s: WizardState, e: Event)
    requires Invariant(s)
    ensures Invariant(Step(s, e).state)
  {
    match e
    case Input(f, v) =>
    case NextClicked =>
      if s.step == 1 {
        assert ValidateStep1(s.form).ok ==> forall g :: !IsBlank(s.form.Get(g));
      }
    case PrevClicked =>
    case SubmitClicked =>
    case CancelClicked =>
  }

  function Run(s: WizardState, events: seq<Event>): WizardState
    decreases |events|
  {
    if |events| == 0 then s else Run(Step(s, events[0]).state, events[1..])
  }

  /** Every reachable wizard state is at step 1 or 2, and every submission
      carries a form whose six fields are non-blank. */
  lemma {:induction false} ReachableStatesAreValid(events: seq<Event>, e: Event)
    ensures Invariant(Run(InitialState, events))
    ensures var s := Run(InitialState, events);
      Step(s, e).effects != [] && e.SubmitClicked? ==> forall f :: !IsBlank(s.form.Get(f))
  {
    RunPreservesInvariant(InitialState, events);
  }

  lemma {:induction false} RunPreservesInvariant(s: WizardState, events: seq<Event>)
    requires Invariant(s)
    ensures Invariant(Run(s, events))
    decreases |events|
  {
    if |events| > 0 {
      StepPreservesInvariant(s, events[0]);
      RunPreservesInvariant(Step(s, events[0]).state, events[1..]);
    }
  }

  /** Going forward from a valid step 1 and back again returns to step 1
      with the same form and no errors; from an invalid step 1, "이전" is not
      reachable and the form stays at step 1 with the validation errors. */
  lemma NextThenPrev(s: WizardState)
    ensures s.step == 1 && ValidateStep1(s.form).ok ==> Prev(Next(s)) == s.(errors := map[])
    ensures s.step == 1 && !ValidateStep1(s.form).ok ==>
      Next(s).step == 1 && Next(s).form == s.form && Next(s).errors != map[]
  {
  }

  /** Running `a` and then `b` is running `a + b`. */
  lemma {:induction false} RunAppend(s: WizardState, a: seq<Event>, b: seq<Event>)
    ensures Run(s, a + b) == Run(Run(s, a), b)
    decreases |a|
  {
    if |a| == 0 {
      assert a + b == b;
    } else {
      assert (a + b)[1..] == a[1..] + b;
      RunAppend(Step(s, a[0]).state, a[1..], b);
    }
  }

  /** Typing the value `v` holds for each field of `fs` into its input. */
  function FillFields(v: FormData, fs: seq<Field>): (events: seq<Event>)
    ensures |events| == |fs|
    ensures forall i :: 0 <= i < |fs| ==> events[i] == Input(fs[i], v.Get(fs[i]))
  {
    if |fs| == 0 then [] else [Input(fs[0], v.Get(fs[0]))] + FillFields(v, fs[1..])
  }

  /** At step 1, typing into the inputs of `fs` stays at step 1, sets each
      typed field to its value and leaves the others alone. */
  lemma {:induction false} FillFieldsSetsForm(s: WizardState, v: FormData, fs: seq<Field>)
    requires s.step == 1
    ensures Run(s, FillFields(v, fs)).step == 1
    ensures forall f :: f in fs ==> Run(s, FillFields(v, fs)).form.Get(f) == v.Get(f)
    ensures forall f :: f !in fs ==> Run(s, FillFields(v, fs)).form.Get(f) == s.form.Get(f)
    decreases |fs|
  {
    if |fs| > 0 {
      var events := FillFields(v, fs);
      var s' := Step(s, events[0]).state;
      assert events[1..] == FillFields(v, fs[1..]);
      FillFieldsSetsForm(s', v, fs[1..]);
      forall f | f in fs
        ensures Run(s, events).form.Get(f) == v.Get(f)
      {
        if f != fs[0] {
          assert f in fs[1..];
        }
      }
    }
  }

  /** Typing every field's value of `v` into the wizard at step 1, in any
      order that names each field, gives the form `v`, still at step 1. */
  lemma FillAllFields(s: WizardState, v: FormData, fs: seq<Field>)
    requires s.step == 1
    requires forall f :: f in fs
    ensures Run(s, FillFields(v, fs)).step == 1
    ensures Run(s, FillFields(v, fs)).form == v
  {
    FillFieldsSetsForm(s, v, fs);
    var form := Run(s, FillFields(v, fs)).form;
    assert form.Get(DeviceId) == v.Get(DeviceId);
    assert form.Get(DeviceName) == v.Get(DeviceName);
    assert form.Get(Model) == v.Get(Model);
    assert form.Get(Location) == v.Get(Location);
    assert form.Get(InstallDate) == v.Get(InstallDate);
    assert form.Get(CompanyCode) == v.Get(CompanyCode);
  }

  /** Running one event is taking one step. */
  lemma RunOne(s: WizardState, e: Event)
    ensures Run(s, [e]) == Step(s, e).state
  {
    assert [e][1..] == [];
  }

  /** From step 1, typing every field's non-blank value of `v` (in an order
      `fs` that names each field) and pressing "다음" reaches step 2 with
      exactly that form and no error showing. */
  lemma FillThenNext(s: WizardState, v: FormData, fs: seq<Field>)
    requires s.step == 1
    requires forall f :: f in fs
    requires forall f :: !IsBlank(v.Get(f))
    ensures Run(s, FillFields(v, fs) + [NextClicked]).step == 2
    ensures Run(s, FillFields(v, fs) + [NextClicked]).form == v
    ensures Run(s, FillFields(v, fs) + [NextClicked]).errors == map[]
  {
    var events := FillFields(v, fs);
    FillAllFields(s, v, fs);
    var filled := Run(s, events);
    RunAppend(s, events, [NextClicked]);
    RunOne(filled, NextClicked);
    assert Step(filled, NextClicked).state == Next(filled);
    ValidatedFormReachesStepTwo(filled);
  }

  /** Step 2 is reachable: filling all six fields of the empty wizard with
      non-blank values and pressing "다음" reaches step 2 with exactly that
      form and no error showing. */
  lemma StepTwoReachable(v: FormData)
    requires forall f :: !IsBlank(v.Get(f))
    ensures Run(InitialState, FillFields(v, CheckOrder) + [NextClicked]).step == 2
    ensures Run(InitialState, FillFields(v, CheckOrder) + [NextClicked]).form == v
    ensures Run(InitialState, FillFields(v, CheckOrder) + [NextClicked]).errors == map[]
  {
    forall f
      ensures f in CheckOrder
    {
      CheckOrderCoversEveryField(f);
    }
    FillThenNext(InitialState, v, CheckOrder);
  }

  /** "다음" on a step-1 form with no blank field moves to step 2 with the
      form kept and no error showing. */
  lemma ValidatedFormReachesStepTwo(s: WizardState)
    requires s.step == 1 && forall f :: !IsBlank(s.form.Get(f))
    ensures Next(s).step == 2 && Next(s).form == s.form
    ensures Next(s).errors == map[]
  {
    var v := ValidateStep1(s.form);
    assert v.ok;
    forall f | f in v.errors
      ensures false
    {
    }
    assert v.errors.Keys == {};
  }
}
