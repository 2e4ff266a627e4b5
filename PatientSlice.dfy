/**
 * The patients slice of the store: its state, the actions the three request
 * families and the three reset reducers produce, the reducer as a pure
 * function of state and action, and the store object whose methods apply one
 * transition each in place.
 *
 * The requests themselves are not modelled: a request is represented only by
 * what the server answered, a payload or an optional error message, which the
 * request step turns into its settling action.
 */
module PatientSlice {
  import opened Wrappers
  import opened PatientTypes

  datatype PatientState = PatientState(
    patients: seq<Patient>,
    currentPatient: Option<Patient>,
    loading: bool,
    error: Option<string>,
    createLoading: bool,
    createError: Option<string>)

  const InitialState := PatientState([], None, false, None, false, None)

  datatype Action =
    | ClearError
    | ClearCurrentPatient
    | ResetCreateState
    | CreatePending
    | CreateFulfilled(created: Patient)
    | CreateRejected(reason: string)
    | FetchPatientsPending
    | FetchPatientsFulfilled(fetched: seq<Patient>)
    | FetchPatientsRejected(reason: string)
    | FetchByIdPending
    | FetchByIdFulfilled(found: Patient)
    | FetchByIdRejected(reason: string)

  /** The steps of the create request. */
  predicate IsCreateStep(a: Action) {
    a.CreatePending? || a.CreateFulfilled? || a.CreateRejected?
  }

  /** The steps of the two requests that share the list's `loading` and `error`. */
  predicate IsListStep(a: Action) {
    || a.FetchPatientsPending? || a.FetchPatientsFulfilled? || a.FetchPatientsRejected?
    || a.FetchByIdPending? || a.FetchByIdFulfilled? || a.FetchByIdRejected?
  }

  predicate IsReset(a: Action) {
    a.ClearError? || a.ClearCurrentPatient? || a.ResetCreateState?
  }

  /**
   * The slice reducer. Create steps leave the list flags alone, list steps
   * leave the create flags alone, and only the two fulfilled steps that
   * carry patients touch the list: create appends, fetch replaces.
   */
  function Reduce(s: PatientState, a: Action): (r: PatientState)
    ensures IsCreateStep(a) ==> r.loading == s.loading && r.error == s.error
    ensures IsListStep(a) ==> r.createLoading == s.createLoading && r.createError == s.createError
    ensures a.CreateFulfilled? ==> r.patients == s.patients + [a.created] && r.currentPatient == Some(a.created)
    ensures a.FetchPatientsFulfilled? ==> r.patients == a.fetched
    ensures !a.CreateFulfilled? && !a.FetchPatientsFulfilled? ==> r.patients == s.patients
    ensures a.CreatePending? ==> r.createLoading
    ensures a.FetchPatientsPending? || a.FetchByIdPending? ==> r.loading
    ensures a.CreatePending? ==> r.createError == None
    ensures a.FetchPatientsPending? || a.FetchByIdPending? ==> r.error == None
    ensures a.CreateFulfilled? || a.CreateRejected? ==> !r.createLoading
    ensures a.FetchPatientsFulfilled? || a.FetchPatientsRejected? || a.FetchByIdFulfilled? || a.FetchByIdRejected? ==> !r.loading
    ensures a.CreateRejected? ==> r.createError == Some(a.reason)
    ensures a.FetchPatientsRejected? || a.FetchByIdRejected? ==> r.error == Some(a.reason)
    ensures !a.CreateFulfilled? && !a.FetchByIdFulfilled? && !a.ClearCurrentPatient? ==> r.currentPatient == s.currentPatient
    ensures a.FetchByIdFulfilled? ==> r.currentPatient == Some(a.found)
    ensures a.ClearCurrentPatient? ==> r.currentPatient == None
    ensures a.CreateFulfilled? ==> r.createError == s.createError
    ensures a.FetchPatientsFulfilled? || a.FetchByIdFulfilled? ==> r.error == s.error
  {
    match a
    case ClearError => s.(error := None, createError := None)
    case ClearCurrentPatient => s.(currentPatient := None)
    case ResetCreateState => s.(createLoading := false, createError := None)
    case CreatePending => s.(createLoading := true, createError := None)
    case CreateFulfilled(p) => s.(createLoading := false, patients := s.patients + [p], currentPatient := Some(p))
    case CreateRejected(m) => s.(createLoading := false, createError := Some(m))
    case FetchPatientsPending => s.(loading := true, error := None)
    case FetchPatientsFulfilled(ps) => s.(loading := false, patients := ps)
    case FetchPatientsRejected(m) => s.(loading := false, error := Some(m))
    case FetchByIdPending => s.(loading := true, error := None)
    case FetchByIdFulfilled(p) => s.(loading := false, currentPatient := Some(p))
    case FetchByIdRejected(m) => s.(loading := false, error := Some(m))
  }

  /** Actions applied one after another: "last response wins" is just this order. */
  function Run(s: PatientState, actions: seq<Action>): PatientState
    decreases |actions|
  {
    if actions == [] then s else Run(Reduce(s, actions[0]), actions[1..])
  }

  // --------------------------------------------------- the request steps

  /** What the server answered a request: the payload, or an error that may carry a message. */
  datatype Reply<T> = Resolved(payload: T) | Refused(message: Option<string>)

  const CreateFallback := "Failed to create patient"
  const FetchPatientsFallback := "Failed to fetch patients"
  const FetchPatientFallback := "Failed to fetch patient"

  /** `message || fallback`: the server's message unless it is missing or empty. */
  function RejectionReason(message: Option<string>, fallback: string): (r: string)
    ensures message.Some? && message.value != "" ==> r == message.value
    ensures message.None? || message.value == "" ==> r == fallback
    ensures fallback != "" ==> r != ""
  {
    if message.Some? && message.value != "" then message.value else fallback
  }

  /** The action `createPatient` settles with. */
  function CreatePatientSettled(reply: Reply<Patient>): (a: Action)
    ensures IsCreateStep(a) && !a.CreatePending?
    ensures reply.Resolved? ==> a == CreateFulfilled(reply.payload)
    ensures reply.Refused? ==> a.CreateRejected? && a.reason != ""
    ensures reply.Refused? && reply.message.Some? && reply.message.value != "" ==> a == CreateRejected(reply.message.value)
    ensures reply.Refused? && (reply.message.None? || reply.message.value == "") ==> a == CreateRejected(CreateFallback)
  {
    match reply
    case Resolved(p) => CreateFulfilled(p)
    case Refused(m) => CreateRejected(RejectionReason(m, CreateFallback))
  }

  /** The action `fetchPatients` settles with. */
  function FetchPatientsSettled(reply: Reply<seq<Patient>>): (a: Action)
    ensures IsListStep(a) && !a.FetchPatientsPending? && !a.FetchByIdPending?
    ensures reply.Resolved? ==> a == FetchPatientsFulfilled(reply.payload)
    ensures reply.Refused? ==> a.FetchPatientsRejected? && a.reason != ""
    ensures reply.Refused? && reply.message.Some? && reply.message.value != "" ==> a == FetchPatientsRejected(reply.message.value)
    ensures reply.Refused? && (reply.message.None? || reply.message.value == "") ==> a == FetchPatientsRejected(FetchPatientsFallback)
  {
    match reply
    case Resolved(ps) => FetchPatientsFulfilled(ps)
    case Refused(m) => FetchPatientsRejected(RejectionReason(m, FetchPatientsFallback))
  }

  /** The action `fetchPatientById` settles with. */
  function FetchPatientByIdSettled(reply: Reply<Patient>): (a: Action)
    ensures IsListStep(a) && !a.FetchPatientsPending? && !a.FetchByIdPending?
    ensures reply.Resolved? ==> a == FetchByIdFulfilled(reply.payload)
    ensures reply.Refused? ==> a.FetchByIdRejected? && a.reason != ""
    ensures reply.Refused? && reply.message.Some? && reply.message.value != "" ==> a == FetchByIdRejected(reply.message.value)
    ensures reply.Refused? && (reply.message.None? || reply.message.value == "") ==> a == FetchByIdRejected(FetchPatientFallback)
  {
    match reply
    case Resolved(p) => FetchByIdFulfilled(p)
    case Refused(m) => FetchByIdRejected(RejectionReason(m, FetchPatientFallback))
  }

  // --------------------------------------------------------------- lemmas

  lemma InitialStateIsIdle()
    ensures InitialState.patients == [] && InitialState.currentPatient == None
    ensures !InitialState.loading && !InitialState.createLoading
    ensures InitialState.error == None && InitialState.createError == None
  {
  }

  /** Each reset touches only its own fields, and doing it twice is doing it once. */
  lemma ResetsAreIdempotent(s: PatientState, a: Action)
    requires IsReset(a)
    ensures Reduce(Reduce(s, a), a) == Reduce(s, a)
    ensures a.ClearError? ==> Reduce(s, a) == s.(error := None, createError := None)
    ensures a.ResetCreateState? ==> Reduce(s, a) == s.(createLoading := false, createError := None)
    ensures a.ClearCurrentPatient? ==> Reduce(s, a) == s.(currentPatient := None)
  {
  }

  /** No run of create steps changes the list's `loading` or `error`. */
  lemma {:induction false} CreateStepsKeepListFlags(s: PatientState, actions: seq<Action>)
    requires forall i :: 0 <= i < |actions| ==> IsCreateStep(actions[i])
    ensures Run(s, actions).loading == s.loading && Run(s, actions).error == s.error
    decreases |actions|
  {
    if actions != [] {
      CreateStepsKeepListFlags(Reduce(s, actions[0]), actions[1..]);
    }
  }

  /** No run of list steps changes `createLoading` or `createError`. */
  lemma {:induction false} ListStepsKeepCreateFlags(s: PatientState, actions: seq<Action>)
    requires forall i :: 0 <= i < |actions| ==> IsListStep(actions[i])
    ensures Run(s, actions).createLoading == s.createLoading && Run(s, actions).createError == s.createError
    decreases |actions|
  {
    if actions != [] {
      ListStepsKeepCreateFlags(Reduce(s, actions[0]), actions[1..]);
    }
  }

  /** The patients created by a run, in the order they were appended. */
  function Created(actions: seq<Action>): seq<Patient> {
    if actions == [] then []
    else (if actions[0].CreateFulfilled? then [actions[0].created] else []) + Created(actions[1..])
  }

  /**
   * Without a list fetch that succeeds, the list only grows, by the created
   * patients at the end and in order: earlier patients keep their places.
   */
  lemma {:induction false} ListGrowsOnlyByCreates(s: PatientState, actions: seq<Action>)
    requires forall i :: 0 <= i < |actions| ==> !actions[i].FetchPatientsFulfilled?
    ensures Run(s, actions).patients == s.patients + Created(actions)
    decreases |actions|
  {
    if actions != [] {
      ListGrowsOnlyByCreates(Reduce(s, actions[0]), actions[1..]);
      var c0 := if actions[0].CreateFulfilled? then [actions[0].created] else [];
      assert Reduce(s, actions[0]).patients == s.patients + c0;
      assert s.patients + c0 + Created(actions[1..]) == s.patients + (c0 + Created(actions[1..]));
    }
  }

  /** Two actions in a row are the reducer applied twice. */
  lemma RunPair(s: PatientState, a: Action, b: Action)
    ensures Run(s, [a, b]) == Reduce(Reduce(s, a), b)
  {
    assert [a, b][1..] == [b];
    assert [b][1..] == [];
    calc {
      Run(s, [a, b]);
      Run(Reduce(s, a), [b]);
      Run(Reduce(Reduce(s, a), b), []);
    }
  }

  /** A create that goes through: one more patient, it is current, and no create error or spinner remains. */
  lemma CreateSucceeds(s: PatientState, p: Patient)
    ensures var r := Run(s, [CreatePending, CreatePatientSettled(Resolved(p))]);
      && |r.patients| == |s.patients| + 1 && r.patients[|s.patients|] == p
      && r.patients[..|s.patients|] == s.patients
      && r.currentPatient == Some(p)
      && r.createError == None && !r.createLoading
      && r.loading == s.loading && r.error == s.error
  {
    RunPair(s, CreatePending, CreateFulfilled(p));
  }

  /** A list fetch refused without a message stores the fallback text and keeps the list. */
  lemma FetchRefusedWithoutMessage(s: PatientState)
    ensures var r := Run(s, [FetchPatientsPending, FetchPatientsSettled(Refused(None))]);
      && r.error == Some("Failed to fetch patients")
      && r.patients == s.patients && !r.loading
  {
    RunPair(s, FetchPatientsPending, FetchPatientsRejected(FetchPatientsFallback));
  }

  /** A create refused with a non-empty server message stores that message and stops the spinner. */
  lemma CreateRefusedWithMessage(s: PatientState, m: string)
    requires m != ""
    ensures var r := Run(s, [CreatePending, CreatePatientSettled(Refused(Some(m)))]);
      && r.createError == Some(m) && !r.createLoading
      && r.patients == s.patients && r.currentPatient == s.currentPatient
  {
    RunPair(s, CreatePending, CreateRejected(m));
  }

  /** A fetch refused with a non-empty server message stores that message, whichever fetch it was. */
  lemma FetchRefusedWithMessage(s: PatientState, m: string)
    requires m != ""
    ensures var r := Run(s, [FetchPatientsPending, FetchPatientsSettled(Refused(Some(m)))]);
      r.error == Some(m) && r.patients == s.patients && !r.loading
    ensures var r := Run(s, [FetchByIdPending, FetchPatientByIdSettled(Refused(Some(m)))]);
      r.error == Some(m) && r.currentPatient == s.currentPatient && !r.loading
  {
    RunPair(s, FetchPatientsPending, FetchPatientsRejected(m));
    RunPair(s, FetchByIdPending, FetchByIdRejected(m));
  }

  // ---------------------------------------------------------- the store

  /** The slice's state held in place; each method applies one reducer case. */
  class PatientStore {
    var patients: seq<Patient>
    var currentPatient: Option<Patient>
    var loading: bool
    var error: Option<string>
    var createLoading: bool
    var createError: Option<string>

    function State(): PatientState
      reads this
    {
      PatientState(patients, currentPatient, loading, error, createLoading, createError)
    }

    constructor ()
      ensures State() == InitialState
    {
      patients := [];
      currentPatient := None;
      loading := false;
      error := None;
      createLoading := false;
      createError := None;
    }

    method ClearError()
      modifies this
      ensures State() == Reduce(old(State()), Action.ClearError)
    {
      error := None;
      createError := None;
    }

    method ClearCurrentPatient()
      modifies this
      ensures State() == Reduce(old(State()), Action.ClearCurrentPatient)
    {
      currentPatient := None;
    }

    method ResetCreateState()
      modifies this
      ensures State() == Reduce(old(State()), Action.ResetCreateState)
    {
      createLoading := false;
      createError := None;
    }

    method CreatePending()
      modifies this
      ensures State() == Reduce(old(State()), Action.CreatePending)
    {
      createLoading := true;
      createError := None;
    }

    /** Appends the created patient in place and makes it current. */
    method CreateFulfilled(payload: Patient)
      modifies this
      ensures State() == Reduce(old(State()), Action.CreateFulfilled(payload))
      ensures patients == old(patients) + [payload]
    {
      createLoading := false;
      patients := patients + [payload];
      currentPatient := Some(payload);
    }

    method CreateRejected(reason: string)
      modifies this
      ensures State() == Reduce(old(State()), Action.CreateRejected(reason))
    {
      createLoading := false;
      createError := Some(reason);
    }

    method FetchPatientsPending()
      modifies this
      ensures State() == Reduce(old(State()), Action.FetchPatientsPending)
    {
      loading := true;
      error := None;
    }

    method FetchPatientsFulfilled(payload: seq<Patient>)
      modifies this
      ensures State() == Reduce(old(State()), Action.FetchPatientsFulfilled(payload))
    {
      loading := false;
      patients := payload;
    }

    method FetchPatientsRejected(reason: string)
      modifies this
      ensures State() == Reduce(old(State()), Action.FetchPatientsRejected(reason))
    {
      loading := false;
      error := Some(reason);
    }

    method FetchByIdPending()
      modifies this
      ensures State() == Reduce(old(State()), Action.FetchByIdPending)
    {
      loading := true;
      error := None;
    }

    method FetchByIdFulfilled(payload: Patient)
      modifies this
      ensures State() == Reduce(old(State()), Action.FetchByIdFulfilled(payload))
    {
      loading := false;
      currentPatient := Some(payload);
    }

    method FetchByIdRejected(reason: string)
      modifies this
      ensures State() == Reduce(old(State()), Action.FetchByIdRejected(reason))
    {
      loading := false;
      error := Some(reason);
    }

    /**
     * Dispatching `createPatient`: the pending step, then the step the
     * server's reply settles it with. `unwrap` succeeds exactly on a payload.
     */
    method CreatePatient(reply: Reply<Patient>) returns (ok: bool)
      modifies this
      ensures State() == Reduce(Reduce(old(State()), Action.CreatePending), CreatePatientSettled(reply))
      ensures ok <==> reply.Resolved?
    {
      CreatePending();
      match reply {
        case Resolved(p) => CreateFulfilled(p);
        case Refused(m) => CreateRejected(RejectionReason(m, CreateFallback));
      }
      ok := reply.Resolved?;
    }

    /** Dispatching `fetchPatients`. */
    method FetchPatients(reply: Reply<seq<Patient>>)
      modifies this
      ensures State() == Reduce(Reduce(old(State()), Action.FetchPatientsPending), FetchPatientsSettled(reply))
    {
      FetchPatientsPending();
      match reply
      case Resolved(ps) => FetchPatientsFulfilled(ps);
      case Refused(m) => FetchPatientsRejected(RejectionReason(m, FetchPatientsFallback));
    }

    /** Dispatching `fetchPatientById`. */
    method FetchPatientById(reply: Reply<Patient>)
      modifies this
      ensures State() == Reduce(Reduce(old(State()), Action.FetchByIdPending), FetchPatientByIdSettled(reply))
    {
      FetchByIdPending();
      match reply
      case Resolved(p) => FetchByIdFulfilled(p);
      case Refused(m) => FetchByIdRejected(RejectionReason(m, FetchPatientFallback));
    }

    /** `dispatch`: routes an action to its case. */
    method Dispatch(a: Action)
      modifies this
      ensures State() == Reduce(old(State()), a)
    {
      match a
      case ClearError => ClearError();
      case ClearCurrentPatient => ClearCurrentPatient();
      case ResetCreateState => ResetCreateState();
      case CreatePending => CreatePending();
      case CreateFulfilled(p) => CreateFulfilled(p);
      case CreateRejected(m) => CreateRejected(m);
      case FetchPatientsPending => FetchPatientsPending();
      case FetchPatientsFulfilled(ps) => FetchPatientsFulfilled(ps);
      case FetchPatientsRejected(m) => FetchPatientsRejected(m);
      case FetchByIdPending => FetchByIdPending();
      case FetchByIdFulfilled(p) => FetchByIdFulfilled(p);
      case FetchByIdRejected(m) => FetchByIdRejected(m);
    }
  }
}
