/**
 * The create-patient form: the record its inputs edit, the map of field
 * errors, the submit step that validates before it dispatches, and the reset
 * that follows a successful create.
 */
module PatientForm {
  import opened Wrappers
  import opened Text
  import opened PatientTypes
  import opened Validation
  import opened PatientSlice

  /** The nine inputs of the form. */
  datatype FormField =
    | FirstName | MiddleName | LastName | DateOfBirth | Status
    | Street | City | State | ZipCode

  /** The key an input is stored and reported under. */
  function FieldKey(f: FormField): string {
    match f
    case FirstName => "firstName"
    case MiddleName => "middleName"
    case LastName => "lastName"
    case DateOfBirth => "dateOfBirth"
    case Status => "status"
    case Street => "street"
    case City => "city"
    case State => "state"
    case ZipCode => "zipCode"
  }

  /** The form's record: the text of each input, the status by its name. */
  datatype FormData = FormData(
    firstName: string, middleName: string, lastName: string, dateOfBirth: string, status: string,
    street: string, city: string, state: string, zipCode: string)

  /** Every text input empty and the status on "Inquiry". */
  const InitialForm := FormData("", "", "", "", "Inquiry", "", "", "", "")

  function FieldOf(form: FormData, f: FormField): string {
    match f
    case FirstName => form.firstName
    case MiddleName => form.middleName
    case LastName => form.lastName
    case DateOfBirth => form.dateOfBirth
    case Status => form.status
    case Street => form.street
    case City => form.city
    case State => form.state
    case ZipCode => form.zipCode
  }

  /** `{ ...prev, [field]: value }`: the named input takes the value, the others keep theirs. */
  function WithField(form: FormData, f: FormField, value: string): (r: FormData)
    ensures FieldOf(r, f) == value
    ensures forall g :: g != f ==> FieldOf(r, g) == FieldOf(form, g)
  {
    match f
    case FirstName => form.(firstName := value)
    case MiddleName => form.(middleName := value)
    case LastName => form.(lastName := value)
    case DateOfBirth => form.(dateOfBirth := value)
    case Status => form.(status := value)
    case Street => form.(street := value)
    case City => form.(city := value)
    case State => form.(state := value)
    case ZipCode => form.(zipCode := value)
  }

  /** The record as the validator receives it: every key present. */
  function AsCandidate(form: FormData): (c: Candidate)
    ensures forall f :: Lookup(c, FieldKey(f)) == Some(FieldOf(form, f))
  {
    map[
      "firstName" := form.firstName, "middleName" := form.middleName, "lastName" := form.lastName,
      "dateOfBirth" := form.dateOfBirth, "status" := form.status, "street" := form.street,
      "city" := form.city, "state" := form.state, "zipCode" := form.zipCode]
  }

  lemma InitialFormIsBlank()
    ensures forall f :: f != Status ==> FieldOf(InitialForm, f) == ""
    ensures ParseStatus(FieldOf(InitialForm, Status)) == Some(Inquiry)
  {
  }

  // ------------------------------------------------------------ error map

  /** `path.join('.')`. */
  function PathKey(path: seq<string>): string {
    Join(path, ".")
  }

  /** The error map the issues leave behind when written one after another. */
  function ErrorMapOf(issues: seq<Issue>): map<string, string>
    decreases |issues|
  {
    if issues == [] then map[]
    else
      var last := issues[|issues| - 1];
      ErrorMapOf(issues[..|issues| - 1])[PathKey(last.path) := last.message]
  }

  /** The error map has one key per distinct issue path. */
  lemma {:induction false} ErrorMapKeys(issues: seq<Issue>)
    ensures ErrorMapOf(issues).Keys == set e | e in issues :: PathKey(e.path)
    decreases |issues|
  {
    if issues != [] {
      var front := issues[..|issues| - 1];
      ErrorMapKeys(front);
      assert issues == front + [issues[|issues| - 1]];
    }
  }

  /** For each key, the message is the one of the last issue with that key. */
  lemma {:induction false} ErrorMapLastWins(issues: seq<Issue>, i: nat)
    requires i < |issues|
    requires forall j :: i < j < |issues| ==> PathKey(issues[j].path) != PathKey(issues[i].path)
    ensures PathKey(issues[i].path) in ErrorMapOf(issues)
    ensures ErrorMapOf(issues)[PathKey(issues[i].path)] == issues[i].message
    decreases |issues|
  {
    if i < |issues| - 1 {
      var front := issues[..|issues| - 1];
      ErrorMapLastWins(front, i);
    }
  }

  /** Every message in the map is the message of some issue under that key. */
  lemma {:induction false} ErrorMapValues(issues: seq<Issue>)
    ensures forall k :: k in ErrorMapOf(issues) ==>
      exists e :: e in issues && PathKey(e.path) == k && ErrorMapOf(issues)[k] == e.message
    decreases |issues|
  {
    if issues != [] {
      var front := issues[..|issues| - 1];
      var last := issues[|issues| - 1];
      ErrorMapValues(front);
      assert ErrorMapOf(issues) == ErrorMapOf(front)[PathKey(last.path) := last.message];
      forall k | k in ErrorMapOf(issues)
        ensures exists e :: e in issues && PathKey(e.path) == k && ErrorMapOf(issues)[k] == e.message
      {
        if k != PathKey(issues[|issues| - 1].path) {
          var e :| e in front && PathKey(e.path) == k && ErrorMapOf(front)[k] == e.message;
          assert e in issues;
        }
      }
    }
  }

  /** The `forEach` of `handleSubmit` that fills the error map, one issue at a time. */
  method BuildErrorMap(issues: seq<Issue>) returns (errors: map<string, string>)
    ensures errors == ErrorMapOf(issues)
  {
    errors := map[];
    var i := 0;
    while i < |issues|
      invariant 0 <= i <= |issues|
      invariant errors == ErrorMapOf(issues[..i])
    {
      assert issues[..i + 1][..i] == issues[..i];
      errors := errors[PathKey(issues[i].path) := issues[i].message];
      i := i + 1;
    }
    assert issues[..i] == issues;
  }

  /** The error map the schema's issues leave has exactly the failing fields as keys. */
  lemma ErrorKeysAreFailingFields(c: Candidate, today: Instant, parse: DateParser)
    ensures ErrorMapOf(SchemaIssues(Schema, c, today, parse)).Keys == FailingFields(c, today, parse)
  {
    var issues := SchemaIssues(Schema, c, today, parse);
    ErrorMapKeys(issues);
    IssuesNameFailingFields(c, today, parse);
    SingletonPathKeys(issues, FailingFields(c, today, parse));
  }

  /** Issues whose paths are exactly the one-name paths of `names` have exactly `names` as keys. */
  lemma SingletonPathKeys(issues: seq<Issue>, names: set<string>)
    requires forall e :: e in issues ==> |e.path| == 1 && e.path[0] in names
    requires forall f :: f in names ==> exists e :: e in issues && e.path == [f]
    ensures (set e | e in issues :: PathKey(e.path)) == names
  {
    forall e | e in issues ensures PathKey(e.path) == e.path[0] {
      assert e.path == [e.path[0]];
    }
    forall f | f in names ensures f in (set e | e in issues :: PathKey(e.path)) {
      var e :| e in issues && e.path == [f];
      assert PathKey(e.path) == f;
    }
  }

  /** After a failed validation, the error map's keys are exactly the fields that break their rules. */
  lemma SubmitErrorsNameFailingFields(form: FormData, today: Instant, parse: DateParser)
    ensures var r := SafeParse(AsCandidate(form), today, parse);
      r.Failure? ==> ErrorMapOf(r.issues).Keys == FailingFields(AsCandidate(form), today, parse)
  {
    ErrorKeysAreFailingFields(AsCandidate(form), today, parse);
  }

  /** The messages a failed validation leaves in the error map are all non-empty. */
  lemma SubmitErrorsNonEmpty(form: FormData, today: Instant, parse: DateParser)
    ensures var r := SafeParse(AsCandidate(form), today, parse);
      r.Failure? ==> forall k :: k in ErrorMapOf(r.issues) ==> ErrorMapOf(r.issues)[k] != ""
  {
    var r := SafeParse(AsCandidate(form), today, parse);
    if r.Failure? {
      SchemaMessagesAllNonEmpty();
      IssueMessagesNonEmpty(Schema, AsCandidate(form), today, parse);
      ErrorMapValues(r.issues);
    }
  }

  /** The submit button is disabled while a create is under way, and enabled again once it settles. */
  predicate SubmitDisabled(s: PatientState) {
    s.createLoading
  }

  lemma DisabledWhileCreating(s: PatientState, reply: Reply<Patient>)
    ensures SubmitDisabled(Reduce(s, CreatePending))
    ensures !SubmitDisabled(Reduce(Reduce(s, CreatePending), CreatePatientSettled(reply)))
  {
  }

  // ------------------------------------------------------------ the form

  /** The form's state, and the store it dispatches to. */
  class PatientFormView {
    var formData: FormData
    var validationErrors: map<string, string>
    const store: PatientStore

    /** Every error shown is a non-empty message. */
    predicate Valid()
      reads this
    {
      forall k :: k in validationErrors ==> validationErrors[k] != ""
    }

    constructor (store: PatientStore)
      ensures formData == InitialForm && validationErrors == map[] && this.store == store
      ensures Valid()
    {
      formData := InitialForm;
      validationErrors := map[];
      this.store := store;
    }

    /**
     * `handleInputChange`: the input takes the value; that input's error, if
     * one is shown, is removed and every other error stays.
     */
    method HandleInputChange(field: FormField, value: string)
      requires Valid()
      modifies this
      ensures Valid()
      ensures formData == WithField(old(formData), field, value)
      ensures validationErrors == old(validationErrors) - {FieldKey(field)}
    {
      formData := WithField(formData, field, value);
      var key := FieldKey(field);
      if key in validationErrors && validationErrors[key] != "" {
        validationErrors := validationErrors - {key};
      }
    }

    /** The state input stores what was typed, upper-cased. */
    method HandleStateInput(raw: string)
      requires Valid()
      modifies this
      ensures Valid()
      ensures formData == old(formData).(state := Upper(raw))
      ensures validationErrors == old(validationErrors) - {"state"}
    {
      HandleInputChange(State, Upper(raw));
    }

    /**
     * `handleSubmit`. The record is validated first; when it fails, nothing
     * is dispatched and the error map is filled from the issues. When it
     * passes, the error map is empty, `createPatient` runs against the
     * server's reply, and a created patient resets the form.
     */
    method HandleSubmit(today: Instant, parse: DateParser, reply: Reply<Patient>) returns (dispatched: bool)
      modifies this, store
      ensures Valid()
      ensures var result := SafeParse(AsCandidate(old(formData)), today, parse);
        && (dispatched <==> result.Success?)
        && (!dispatched ==>
             && store.State() == old(store.State())
             && formData == old(formData)
             && validationErrors == ErrorMapOf(result.issues))
        && (dispatched ==>
             && validationErrors == map[]
             && store.State() == Reduce(Reduce(old(store.State()), CreatePending), CreatePatientSettled(reply))
             && formData == (if reply.Resolved? then InitialForm else old(formData)))
    {
      validationErrors := map[];
      var result := SafeParse(AsCandidate(formData), today, parse);
      if result.Failure? {
        var errors := BuildErrorMap(result.issues);
        SubmitErrorsNonEmpty(formData, today, parse);
        validationErrors := errors;
        return false;
      }
      var created := store.CreatePatient(reply);
      if created {
        formData := InitialForm;
      }
      dispatched := true;
    }

    /** Leaving the form resets the create request's state in the store. */
    method Unmount()
      modifies store
      ensures store.State() == Reduce(old(store.State()), ResetCreateState)
    {
      store.ResetCreateState();
    }
  }

  // ------------------------------------------------------------ examples

  /** What the validator reads under each key is the input of that name. */
  lemma CandidateReadsForm(form: FormData)
    ensures var c := AsCandidate(form);
      && Lookup(c, "firstName") == Some(form.firstName) && Lookup(c, "middleName") == Some(form.middleName)
      && Lookup(c, "lastName") == Some(form.lastName) && Lookup(c, "dateOfBirth") == Some(form.dateOfBirth)
      && Lookup(c, "status") == Some(form.status) && Lookup(c, "street") == Some(form.street)
      && Lookup(c, "city") == Some(form.city) && Lookup(c, "state") == Some(form.state)
      && Lookup(c, "zipCode") == Some(form.zipCode)
  {
    var c := AsCandidate(form);
    assert Lookup(c, FieldKey(FirstName)) == Some(form.firstName);
    assert Lookup(c, FieldKey(MiddleName)) == Some(form.middleName);
    assert Lookup(c, FieldKey(LastName)) == Some(form.lastName);
    assert Lookup(c, FieldKey(DateOfBirth)) == Some(form.dateOfBirth);
    assert Lookup(c, FieldKey(Status)) == Some(form.status);
    assert Lookup(c, FieldKey(Street)) == Some(form.street);
    assert Lookup(c, FieldKey(City)) == Some(form.city);
    assert Lookup(c, FieldKey(State)) == Some(form.state);
    assert Lookup(c, FieldKey(FormField.ZipCode)) == Some(form.zipCode);
  }

  /** On the all-empty form only the middle name and the status follow their rules. */
  lemma EmptyFormVerdicts(today: Instant, parse: DateParser)
    ensures forall n :: n in FieldNames ==>
      (FieldAcceptable(n, Lookup(AsCandidate(InitialForm), n), today, parse) <==> n == "middleName" || n == "status")
  {
    CandidateReadsForm(InitialForm);
  }

  /** The all-empty form fails on exactly the seven required text fields. */
  lemma AllEmptyFormRejected(today: Instant, parse: DateParser)
    ensures !Acceptable(AsCandidate(InitialForm), today, parse)
    ensures FailingFields(AsCandidate(InitialForm), today, parse) == SevenRequired
  {
    var c := AsCandidate(InitialForm);
    EmptyFormSchemaVerdicts(today, parse);
    OnlyOptionalRejected(c, today, parse);
    OnlyOptionalFailingWithin(c, today, parse);
    OnlyOptionalFailingCovers(c, today, parse);
  }

  /** Only the middleName and status rules, the ones an empty form can meet, pass. */
  predicate OnlyOptionalFieldsPass(c: Candidate, today: Instant, parse: DateParser) {
    forall i :: 0 <= i < |Schema| ==>
      (FieldAcceptable(Schema[i].name, Lookup(c, Schema[i].name), today, parse) <==> i == 1 || i == 4)
  }

  const SevenRequired := {"firstName", "lastName", "dateOfBirth", "street", "city", "state", "zipCode"}

  lemma OnlyOptionalRejected(c: Candidate, today: Instant, parse: DateParser)
    requires OnlyOptionalFieldsPass(c, today, parse)
    ensures !Acceptable(c, today, parse)
  {
    assert !FieldAcceptable(Schema[0].name, Lookup(c, Schema[0].name), today, parse);
  }

  lemma OnlyOptionalFailingWithin(c: Candidate, today: Instant, parse: DateParser)
    requires OnlyOptionalFieldsPass(c, today, parse)
    ensures FailingFields(c, today, parse) <= SevenRequired
  {
    forall n | n in FailingFields(c, today, parse) ensures n in SevenRequired {
      var r :| r in Schema && !FieldAcceptable(r.name, Lookup(c, r.name), today, parse) && r.name == n;
      var i :| 0 <= i < |Schema| && Schema[i] == r;
    }
  }

  lemma OnlyOptionalFailingCovers(c: Candidate, today: Instant, parse: DateParser)
    requires OnlyOptionalFieldsPass(c, today, parse)
    ensures SevenRequired <= FailingFields(c, today, parse)
  {
    assert Schema[0] in Schema && Schema[2] in Schema && Schema[3] in Schema && Schema[5] in Schema;
    assert Schema[6] in Schema && Schema[7] in Schema && Schema[8] in Schema;
  }

  /** On the all-empty form, the rules read by position: only middleName and status pass. */
  lemma EmptyFormSchemaVerdicts(today: Instant, parse: DateParser)
    ensures OnlyOptionalFieldsPass(AsCandidate(InitialForm), today, parse)
  {
    EmptyFormVerdicts(today, parse);
    SchemaNames();
  }

  const JaneForm := FormData("Jane", "", "Smith", "1990-01-01", "Inquiry", "123 Main St", "New York", "NY", "10001")

  /** Every field of the sample record follows its rule when its date of birth reads as a past date within 120 years. */
  lemma JaneFormFieldsPass(today: Instant, parse: DateParser)
    requires BirthDateAccepted("1990-01-01", today, parse)
    ensures forall n :: n in FieldNames ==> FieldAcceptable(n, Lookup(AsCandidate(JaneForm), n), today, parse)
  {
    SampleTextPasses(today, parse);
    CandidateReadsForm(JaneForm);
  }

  /** The sample's text fields, one rule at a time. */
  lemma SampleTextPasses(today: Instant, parse: DateParser)
    ensures FieldAcceptable("firstName", Some("Jane"), today, parse)
    ensures FieldAcceptable("lastName", Some("Smith"), today, parse)
    ensures FieldAcceptable("street", Some("123 Main St"), today, parse)
    ensures FieldAcceptable("city", Some("New York"), today, parse)
    ensures FieldAcceptable("state", Some("NY"), today, parse)
    ensures FieldAcceptable("zipCode", Some("10001"), today, parse)
  {
    assert FieldAcceptable("firstName", Some("Jane"), today, parse) by {
      assert AllIn("Jane", LettersSpaces);
    }
    assert FieldAcceptable("lastName", Some("Smith"), today, parse) by {
      assert AllIn("Smith", LettersSpaces);
    }
    assert FieldAcceptable("street", Some("123 Main St"), today, parse) by {
      assert AllIn("123 Main St", LettersDigitsSpaces);
    }
    assert FieldAcceptable("city", Some("New York"), today, parse) by {
      assert AllIn("New York", LettersSpaces);
    }
    assert FieldAcceptable("state", Some("NY"), today, parse) by {
      assert AllIn("NY", Uppercase);
    }
    assert FieldAcceptable("zipCode", Some("10001"), today, parse) by {
      assert AllIn("10001", Digits);
    }
  }

  /** The sample record passes, and the parse hands it back typed. */
  lemma JaneFormAccepted(today: Instant, parse: DateParser)
    requires BirthDateAccepted("1990-01-01", today, parse)
    ensures var r := SafeParse(AsCandidate(JaneForm), today, parse);
      r.Success? && r.data == CreatePatientRequest("Jane", Some(""), "Smith", "1990-01-01", Inquiry,
        "123 Main St", "New York", "NY", "10001")
  {
    var c := AsCandidate(JaneForm);
    JaneFormFieldsPass(today, parse);
    AcceptableByName(c, today, parse);
    CandidateReadsForm(JaneForm);
    var r := SafeParse(c, today, parse);
    assert r.Success?;
    assert ParseStatus("Inquiry") == Some(Inquiry);
  }
}
