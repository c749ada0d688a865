/**
 * The hire-request modal: a six-field form (three of them drop-downs) shown
 * while the modal is open, stored in the "hire-requests" collection on
 * submit. A successful store shows the success banner and schedules a reset,
 * two seconds later, that closes the modal, empties the form and clears the
 * banner. There is no validation in the component itself: the inputs'
 * `required` attributes keep an incomplete form from being submitted.
 */
module HireMeSection {
  import opened Submission

  datatype HireField = Name | Email | ProjectType | Budget | Timeline | Description

  /** The component's `HireFormData`. */
  datatype HireData = HireData(
    name: string,
    email: string,
    projectType: string,
    budget: string,
    timeline: string,
    description: string)

  const EmptyHire := HireData("", "", "", "", "", "")

  const HireCollection := "hire-requests"

  /** The option values of the three drop-downs, placeholder `""` first. */
  const ProjectTypeOptions: seq<string> :=
    ["", "landing", "ecommerce", "portfolio", "webapp", "mobile", "ui", "consultation", "other"]
  const BudgetOptions: seq<string> := ["", "xs", "small", "medium", "large", "xl", "custom"]
  const TimelineOptions: seq<string> := ["", "urgent", "short", "normal", "extended", "flexible"]

  /** The `name` attribute of a field's control, which is also its key in the stored document. */
  function FieldName(f: HireField): string {
    match f
    case Name => "name"
    case Email => "email"
    case ProjectType => "projectType"
    case Budget => "budget"
    case Timeline => "timeline"
    case Description => "description"
  }

  function Get(d: HireData, f: HireField): string {
    match f
    case Name => d.name
    case Email => d.email
    case ProjectType => d.projectType
    case Budget => d.budget
    case Timeline => d.timeline
    case Description => d.description
  }

  /** `{ ...prev, [name]: value }`: one field replaced, the other five kept. */
  function With(d: HireData, f: HireField, v: string): (r: HireData)
    ensures Get(r, f) == v
    ensures forall g :: g != f ==> Get(r, g) == Get(d, g)
  {
    match f
    case Name => d.(name := v)
    case Email => d.(email := v)
    case ProjectType => d.(projectType := v)
    case Budget => d.(budget := v)
    case Timeline => d.(timeline := v)
    case Description => d.(description := v)
  }

  /** The values a control can produce: any text for the inputs, one of its options for a drop-down. */
  predicate IsChoice(f: HireField, v: string) {
    match f
    case ProjectType => v in ProjectTypeOptions
    case Budget => v in BudgetOptions
    case Timeline => v in TimelineOptions
    case _ => true
  }

  /** Every drop-down holds one of its own options. */
  predicate Choices(d: HireData) {
    forall f :: IsChoice(f, Get(d, f))
  }

  /** What a set of `required` controls lets through: no field is empty. */
  predicate Filled(d: HireData) {
    forall f :: Get(d, f) != ""
  }

  /** The document stored for a request: `{ ...formData, timestamp }`, each field under its own name. */
  function HireDocument(d: HireData, now: int): (doc: Document)
    ensures doc.collection == HireCollection && doc.timestamp == now
    ensures forall f :: FieldName(f) in doc.fields && doc.fields[FieldName(f)] == Get(d, f)
  {
    Document(HireCollection, map[
      FieldName(Name) := d.name, FieldName(Email) := d.email,
      FieldName(ProjectType) := d.projectType, FieldName(Budget) := d.budget,
      FieldName(Timeline) := d.timeline, FieldName(Description) := d.description], now)
  }

  /** The stored document goes to "hire-requests" and holds the six fields and nothing else. */
  lemma {:induction false} HireDocumentHoldsForm(d: HireData, now: int)
    ensures HireDocument(d, now).collection == "hire-requests"
    ensures HireDocument(d, now).fields.Keys == {"name", "email", "projectType", "budget", "timeline", "description"}
    ensures |HireDocument(d, now).fields| == 6
  {
    var keys := HireDocument(d, now).fields.Keys;
    assert keys == {"name", "email", "projectType", "budget", "timeline", "description"};
    assert |keys| == 6;
  }

  /** Each drop-down offers its placeholder and then 8, 6 and 5 distinct real values. */
  lemma OptionSets()
    ensures ProjectTypeOptions[0] == "" && |ProjectTypeOptions[1..]| == 8 && "" !in ProjectTypeOptions[1..]
    ensures BudgetOptions[0] == "" && |BudgetOptions[1..]| == 6 && "" !in BudgetOptions[1..]
    ensures TimelineOptions[0] == "" && |TimelineOptions[1..]| == 5 && "" !in TimelineOptions[1..]
    ensures forall i, j :: 0 <= i < j < |ProjectTypeOptions| ==> ProjectTypeOptions[i] != ProjectTypeOptions[j]
    ensures forall i, j :: 0 <= i < j < |BudgetOptions| ==> BudgetOptions[i] != BudgetOptions[j]
    ensures forall i, j :: 0 <= i < j < |TimelineOptions| ==> TimelineOptions[i] != TimelineOptions[j]
  {
  }

  /** The empty form holds the placeholder of every drop-down, and so cannot be submitted. */
  lemma {:induction false} EmptyHireChoices()
    ensures Choices(EmptyHire) && !Filled(EmptyHire)
  {
    assert Get(EmptyHire, Name) == "";
    forall f ensures IsChoice(f, Get(EmptyHire, f)) {
      assert Get(EmptyHire, f) == "" && ProjectTypeOptions[0] == "" && BudgetOptions[0] == "" && TimelineOptions[0] == "";
    }
  }

  /** The hire section's component state. */
  class HireMe {
    var isModalOpen: bool
    var data: HireData
    var isSubmitting: bool
    var submitStatus: SubmitStatus
    /** Resets scheduled by successful stores whose two-second timer has not fired yet. */
    var pendingResets: nat

    ghost predicate Valid()
      reads this
    {
      Choices(data)
    }

    constructor ()
      ensures Valid()
      ensures !isModalOpen && data == EmptyHire && !isSubmitting && submitStatus == Idle
      ensures pendingResets == 0
    {
      isModalOpen := false;
      data := EmptyHire;
      isSubmitting := false;
      submitStatus := Idle;
      pendingResets := 0;
      EmptyHireChoices();
    }

    /** A "Get Started" button: opens the modal over whatever the form held. */
    method Open()
      requires Valid()
      modifies this`isModalOpen
      ensures Valid()
      ensures isModalOpen
    {
      isModalOpen := true;
    }

    /** The backdrop or the close button: hides the modal; the form and banner are kept. */
    method Close()
      requires Valid()
      modifies this`isModalOpen
      ensures Valid()
      ensures !isModalOpen
    {
      isModalOpen := false;
    }

    /** `handleChange` on a control of the open modal: replaces that one field. */
    method HandleChange(f: HireField, v: string)
      requires Valid() && isModalOpen && IsChoice(f, v)
      modifies this`data
      ensures Valid()
      ensures data == With(old(data), f, v)
    {
      data := With(data, f, v);
    }

    /**
     * `handleSubmit` up to the `addDoc` call, on a completely filled form in
     * the open modal, with no request in flight. The flag goes up; the banner
     * is not reset, so an earlier error stays visible while the call runs.
     */
    method HandleSubmit(now: int) returns (request: Document)
      requires Valid() && isModalOpen && !isSubmitting && Filled(data)
      modifies this`isSubmitting
      ensures Valid()
      ensures isSubmitting
      ensures request == HireDocument(data, now)
    {
      isSubmitting := true;
      request := HireDocument(data, now);
    }

    /**
     * The `addDoc` call settles: `stored` says whether it succeeded. Success
     * shows the success banner and schedules a reset; failure shows the error
     * banner. Either way the flag goes down, and the form and modal stay.
     */
    method SubmitSettled(stored: bool)
      requires Valid() && isSubmitting
      modifies this`submitStatus, this`pendingResets, this`isSubmitting
      ensures Valid()
      ensures !isSubmitting
      ensures submitStatus == if stored then Success else Error
      ensures pendingResets == if stored then old(pendingResets) + 1 else old(pendingResets)
    {
      if stored {
        submitStatus := Success;
        pendingResets := pendingResets + 1;
      } else {
        submitStatus := Error;
      }
      isSubmitting := false;
    }

    /** A scheduled reset fires: the modal closes, the form empties and the banner clears. */
    method TimerFires()
      requires Valid() && pendingResets > 0
      modifies this`isModalOpen, this`data, this`submitStatus, this`pendingResets
      ensures Valid()
      ensures !isModalOpen && data == EmptyHire && submitStatus == Idle
      ensures pendingResets == old(pendingResets) - 1
    {
      isModalOpen := false;
      data := EmptyHire;
      submitStatus := Idle;
      pendingResets := pendingResets - 1;
      EmptyHireChoices();
    }
  }

  /** A request as a visitor might type it. */
  const SampleRequest := HireData("A", "a@b.com", "webapp", "small", "normal", "A shop")

  lemma {:induction false} SampleRequestComplete()
    ensures Filled(SampleRequest)
    ensures IsChoice(ProjectType, "webapp") && IsChoice(Budget, "small") && IsChoice(Timeline, "normal")
  {
    assert ProjectTypeOptions[4] == "webapp";
    assert BudgetOptions[2] == "small";
    assert TimelineOptions[3] == "normal";
  }

  /** Types the sample request into the open modal, one control at a time. */
  method FillSample(hire: HireMe)
    requires hire.Valid() && hire.isModalOpen
    modifies hire`data
    ensures hire.Valid() && hire.data == SampleRequest
  {
    SampleRequestComplete();
    hire.HandleChange(Name, "A");
    hire.HandleChange(Email, "a@b.com");
    hire.HandleChange(ProjectType, "webapp");
    hire.HandleChange(Budget, "small");
    hire.HandleChange(Timeline, "normal");
    hire.HandleChange(Description, "A shop");
  }

  /** A complete request from an empty form, through both outcomes of the store and a retry. */
  method RequestScenario(stored: bool)
  {
    var hire := new HireMe();
    hire.Open();
    FillSample(hire);
    SampleRequestComplete();
    var request := hire.HandleSubmit(0);
    assert request == HireDocument(SampleRequest, 0);
    assert hire.submitStatus == Idle && hire.isSubmitting;
    hire.SubmitSettled(stored);
    assert hire.isModalOpen && hire.data == SampleRequest && !hire.isSubmitting;
    if stored {
      assert hire.submitStatus == Success && hire.pendingResets == 1;
      hire.TimerFires();
      assert !hire.isModalOpen && hire.data == EmptyHire && hire.submitStatus == Idle;
    } else {
      assert hire.submitStatus == Error && hire.pendingResets == 0;
      // A retry keeps the error banner up until the new call settles.
      request := hire.HandleSubmit(1);
      assert hire.isSubmitting && hire.submitStatus == Error;
    }
  }
}
