/**
 * The contact form: four text fields, a field-error map rebuilt by each
 * validation pass, and the submission flag and banner status around the
 * `addDoc` call that stores a message in the "contacts" collection.
 */
module ContactSection {
  import opened Wrappers
  import opened TextPatterns
  import opened Submission

  datatype Field = Name | Email | Mobile | Message

  /** The form's `FormData`. */
  datatype ContactData = ContactData(name: string, email: string, mobile: string, message: string)

  const EmptyForm := ContactData("", "", "", "")

  const NameRequired := "Name is required"
  const EmailRequired := "Email is required"
  const EmailInvalid := "Invalid email address"
  const MobileRequired := "Mobile number is required"
  const MobileInvalid := "Invalid mobile number"
  const MessageRequired := "Message is required"

  const ContactsCollection := "contacts"

  /** The `name` attribute of a field's input, which is also its key in the stored document. */
  function FieldName(f: Field): string {
    match f
    case Name => "name"
    case Email => "email"
    case Mobile => "mobile"
    case Message => "message"
  }

  function Get(d: ContactData, f: Field): string {
    match f
    case Name => d.name
    case Email => d.email
    case Mobile => d.mobile
    case Message => d.message
  }

  /** `{ ...prev, [name]: value }`: one field replaced, the other three kept. */
  function With(d: ContactData, f: Field, v: string): (r: ContactData)
    ensures Get(r, f) == v
    ensures forall g :: g != f ==> Get(r, g) == Get(d, g)
  {
    match f
    case Name => d.(name := v)
    case Email => d.(email := v)
    case Mobile => d.(mobile := v)
    case Message => d.(message := v)
  }

  /**
   * The error map `validateForm` builds, field by field in the source's order.
   * A value is blank when trimming leaves nothing of it (`TrimEmptyIffBlank`).
   * Name and message are only checked for being blank; email and mobile draw
   * their required message when blank and otherwise their invalid message
   * when the untrimmed value is not in the pattern's language.
   */
  ghost function Validate(d: ContactData): (errors: map<Field, string>)
    ensures Name in errors <==> IsBlank(d.name)
    ensures Email in errors <==> !IsEmail(d.email)
    ensures Mobile in errors <==> !IsMobile(d.mobile)
    ensures Message in errors <==> IsBlank(d.message)
    ensures Name in errors ==> errors[Name] == NameRequired
    ensures Email in errors ==> errors[Email] == if IsBlank(d.email) then EmailRequired else EmailInvalid
    ensures Mobile in errors ==> errors[Mobile] == if IsBlank(d.mobile) then MobileRequired else MobileInvalid
    ensures Message in errors ==> errors[Message] == MessageRequired
  {
    AcceptedEmailNotBlank(d.email);
    AcceptedMobileNotBlank(d.mobile);
    var e0: map<Field, string> := map[];
    var e1 := if IsBlank(d.name) then e0[Name := NameRequired] else e0;
    var e2 := if IsBlank(d.email) then e1[Email := EmailRequired]
              else if !IsEmail(d.email) then e1[Email := EmailInvalid]
              else e1;
    var e3 := if IsBlank(d.mobile) then e2[Mobile := MobileRequired]
              else if !IsMobile(d.mobile) then e2[Mobile := MobileInvalid]
              else e2;
    if IsBlank(d.message) then e3[Message := MessageRequired] else e3
  }

  /** Every field passes its own rule. */
  ghost predicate Acceptable(d: ContactData) {
    !IsBlank(d.name) && IsEmail(d.email) && IsMobile(d.mobile) && !IsBlank(d.message)
  }

  /** A blank email can never pass the pattern: an accepted address holds an '@'. */
  lemma {:induction false} AcceptedEmailNotBlank(s: string)
    ensures IsEmail(s) ==> !IsBlank(s)
  {
    if IsEmail(s) {
      var p :| EmailWellFormed(p) && RenderEmail(p) == s;
      RenderedEmailOneAt(p);
      assert !IsJsWhitespace(s[|p.local|]);
    }
  }

  /** A blank mobile number can never pass the pattern: an accepted number holds digits. */
  lemma {:induction false} AcceptedMobileNotBlank(s: string)
    ensures IsMobile(s) ==> !IsBlank(s)
  {
    if IsMobile(s) {
      var p :| MobileWellFormed(p) && RenderMobile(p) == s;
      RenderedMobileShape(p);
      if IsBlank(s) {
        DigitCountNoDigits(s);
      }
    }
  }

  /** The form is valid exactly when every field passes its own rule. */
  lemma {:induction false} ValidateEmptyIff(d: ContactData)
    ensures Validate(d) == map[] <==> Acceptable(d)
  {
    var e := Validate(d);
    if Acceptable(d) {
      assert forall f :: f !in e;
    }
  }

  /** A valid address padded with a space is reported invalid rather than accepted. */
  lemma {:induction false} PaddedEmailReportedInvalid(d: ContactData)
    requires IsEmail(d.email)
    ensures Email in Validate(d.(email := " " + d.email))
    ensures Validate(d.(email := " " + d.email))[Email] == EmailInvalid
  {
    PaddedEmailRejected(d.email);
    AcceptedEmailNotBlank(d.email);
    var padded := " " + d.email;
    var i :| 0 <= i < |d.email| && !IsJsWhitespace(d.email[i]);
    assert padded[i + 1] == d.email[i];
  }

  /** Format errors only: a well-formed name and message draw no error. */
  lemma {:induction false} FormatErrorsOnly()
    ensures Validate(ContactData("A", "bad", "123", "hi")) == map[Email := EmailInvalid, Mobile := MobileInvalid]
  {
    EmailWithoutAtRejected();
    ShortMobileRejected();
    assert !IsJsWhitespace('A') && !IsJsWhitespace('b') && !IsJsWhitespace('1') && !IsJsWhitespace('h');
    assert "A"[0] == 'A' && "bad"[0] == 'b' && "123"[0] == '1' && "hi"[0] == 'h';
  }

  /** A number written with a country code before a parenthesised area code is refused. */
  lemma {:induction false} CountryCodeReportedInvalid()
    ensures Validate(ContactData("A", "a@b.com", "+1 (555) 123-4567", "hi")) == map[Mobile := MobileInvalid]
  {
    SimpleEmailAccepted();
    CountryCodeMobileRejected();
    var m := "+1 (555) 123-4567";
    assert !IsJsWhitespace(m[0]);
    assert "A"[0] == 'A' && "hi"[0] == 'h';
    assert !IsJsWhitespace('A') && !IsJsWhitespace('h');
  }

  /** The document stored for a submission: each field under its own name, and the time. */
  function ContactDocument(d: ContactData, now: int): (doc: Document)
    ensures doc.collection == ContactsCollection && doc.timestamp == now
    ensures forall f :: FieldName(f) in doc.fields && doc.fields[FieldName(f)] == Get(d, f)
  {
    Document(ContactsCollection, map[
      FieldName(Name) := d.name, FieldName(Email) := d.email,
      FieldName(Mobile) := d.mobile, FieldName(Message) := d.message], now)
  }

  /** The stored document goes to "contacts" and holds the four fields and nothing else. */
  lemma {:induction false} ContactDocumentHoldsForm(d: ContactData, now: int)
    ensures ContactDocument(d, now).collection == "contacts"
    ensures ContactDocument(d, now).fields.Keys == {"name", "email", "mobile", "message"}
    ensures |ContactDocument(d, now).fields| == 4
  {
    var keys := ContactDocument(d, now).fields.Keys;
    assert keys == {"name", "email", "mobile", "message"};
    assert |keys| == 4;
  }

  /** The contact section's component state. */
  class ContactForm {
    var data: ContactData
    var errors: map<Field, string>
    var isSubmitting: bool
    var submitStatus: SubmitStatus
    /** The form contents handed to `addDoc` whose outcome is still awaited. */
    ghost var inFlight: Option<ContactData>

    /**
     * A call is in flight exactly while the flag is up; what it carries passed
     * validation, and no field error can be showing until it settles.
     */
    ghost predicate Valid()
      reads this
    {
      (isSubmitting <==> inFlight.Some?)
      && (inFlight.Some? ==> Acceptable(inFlight.value) && errors == map[])
    }

    constructor ()
      ensures Valid()
      ensures data == EmptyForm && errors == map[]
      ensures !isSubmitting && submitStatus == Idle && inFlight == None
    {
      data := EmptyForm;
      errors := map[];
      isSubmitting := false;
      submitStatus := Idle;
      inFlight := None;
    }

    /** `handleChange`: stores the new value and clears that field's error, if it has one. */
    method HandleChange(f: Field, v: string)
      requires Valid()
      modifies this
      ensures Valid()
      ensures data == With(old(data), f, v)
      ensures errors == old(errors) - {f}
      ensures isSubmitting == old(isSubmitting) && submitStatus == old(submitStatus)
      ensures inFlight == old(inFlight)
    {
      data := With(data, f, v);
      if f in errors {
        errors := errors - {f};
      }
    }

    /** `validateForm`: replaces the whole error map and reports whether it is empty. */
    method ValidateForm() returns (ok: bool)
      requires Valid() && !isSubmitting
      modifies this`errors
      ensures Valid()
      ensures errors == Validate(data)
      ensures ok <==> errors == map[]
    {
      var newErrors: map<Field, string> := map[];
      var blank := TrimsToEmpty(data.name);
      if blank {
        newErrors := newErrors[Name := NameRequired];
      }
      ghost var e1 := newErrors;
      blank := TrimsToEmpty(data.email);
      var matches := TestEmail(data.email);
      if blank {
        newErrors := newErrors[Email := EmailRequired];
      } else if !matches {
        newErrors := newErrors[Email := EmailInvalid];
      }
      assert newErrors == if IsBlank(data.email) then e1[Email := EmailRequired]
                          else if !IsEmail(data.email) then e1[Email := EmailInvalid]
                          else e1;
      ghost var e2 := newErrors;
      blank := TrimsToEmpty(data.mobile);
      matches := TestMobile(data.mobile);
      if blank {
        newErrors := newErrors[Mobile := MobileRequired];
      } else if !matches {
        newErrors := newErrors[Mobile := MobileInvalid];
      }
      assert newErrors == if IsBlank(data.mobile) then e2[Mobile := MobileRequired]
                          else if !IsMobile(data.mobile) then e2[Mobile := MobileInvalid]
                          else e2;
      ghost var e3 := newErrors;
      blank := TrimsToEmpty(data.message);
      if blank {
        newErrors := newErrors[Message := MessageRequired];
      }
      assert newErrors == if IsBlank(data.message) then e3[Message := MessageRequired] else e3;
      errors := newErrors;
      ok := |newErrors| == 0;
    }

    /**
     * `handleSubmit` up to the `addDoc` call. The submit button is disabled
     * while a call is in flight. A form that fails validation is not sent and
     * leaves the flag and the banner as they were; a valid one raises the flag,
     * resets the banner to idle and is returned as the document to store.
     */
    method HandleSubmit(now: int) returns (request: Option<Document>)
      requires Valid() && !isSubmitting
      modifies this
      ensures Valid()
      ensures data == old(data) && errors == Validate(old(data))
      ensures request.Some? <==> Validate(old(data)) == map[]
      ensures request.Some? ==> request.value == ContactDocument(old(data), now)
                                && isSubmitting && submitStatus == Idle && inFlight == Some(old(data))
      ensures request.None? ==> !isSubmitting && submitStatus == old(submitStatus) && inFlight == None
    {
      var ok := ValidateForm();
      ValidateEmptyIff(data);
      if !ok {
        return None;
      }
      isSubmitting := true;
      submitStatus := Idle;
      inFlight := Some(data);
      request := Some(ContactDocument(data, now));
    }

    /**
     * The `addDoc` call settles: `stored` says whether it succeeded. Success
     * shows the success banner and empties the form; failure shows the error
     * banner and keeps what the user typed. Either way the flag goes down.
     */
    method SubmitSettled(stored: bool)
      requires Valid() && isSubmitting
      modifies this
      ensures Valid()
      ensures !isSubmitting && inFlight == None
      ensures submitStatus == if stored then Success else Error
      ensures data == if stored then EmptyForm else old(data)
      ensures errors == old(errors) == map[]
    {
      if stored {
        submitStatus := Success;
        data := EmptyForm;
      } else {
        submitStatus := Error;
      }
      isSubmitting := false;
      inFlight := None;
    }
  }

  /** A valid message through both outcomes of the store. */
  method SubmissionScenario(stored: bool)
  {
    var form := new ContactForm();
    form.HandleChange(Name, "A");
    form.HandleChange(Email, "a@b.com");
    form.HandleChange(Mobile, "(555) 123-4567");
    form.HandleChange(Message, "hi");
    var typed := ContactData("A", "a@b.com", "(555) 123-4567", "hi");
    assert form.data == typed;
    SimpleEmailAccepted();
    MobileWithAreaCodeAccepted();
    assert "A"[0] == 'A' && "hi"[0] == 'h';
    ValidateEmptyIff(typed);
    var request := form.HandleSubmit(0);
    assert request == Some(ContactDocument(typed, 0));
    assert form.isSubmitting && form.submitStatus == Idle;
    form.SubmitSettled(stored);
    assert stored ==> form.submitStatus == Success && form.data == EmptyForm;
    assert !stored ==> form.submitStatus == Error && form.data == typed;
    assert !form.isSubmitting;
  }
}
