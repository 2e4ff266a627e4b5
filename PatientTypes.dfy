/** The patient record, the request a user submits to create one, and the closed status enumeration. */
module PatientTypes {
  import opened Wrappers

  /** `PatientStatus`: a closed union of four string literals. */
  datatype PatientStatus = Inquiry | Onboarding | Active | Churned

  /** `PATIENT_STATUSES`, in declaration order. */
  const PatientStatuses: seq<PatientStatus> := [Inquiry, Onboarding, Active, Churned]

  /** The string literal each status is at run time. */
  function StatusName(s: PatientStatus): string {
    match s
    case Inquiry => "Inquiry"
    case Onboarding => "Onboarding"
    case Active => "Active"
    case Churned => "Churned"
  }

  /** Reads a status back from its string; any other string is not a status. */
  function ParseStatus(t: string): (r: Option<PatientStatus>)
    ensures r.Some? ==> StatusName(r.value) == t
    ensures r.None? ==> forall s :: StatusName(s) != t
  {
    if t == "Inquiry" then Some(Inquiry)
    else if t == "Onboarding" then Some(Onboarding)
    else if t == "Active" then Some(Active)
    else if t == "Churned" then Some(Churned)
    else None
  }

  lemma StatusNameRoundTrip(s: PatientStatus)
    ensures ParseStatus(StatusName(s)) == Some(s)
  {
  }

  /** The list names every status once, in order, and no status is missing from it. */
  lemma StatusesListed()
    ensures |PatientStatuses| == 4
    ensures PatientStatuses[0] == Inquiry && PatientStatuses[1] == Onboarding
    ensures PatientStatuses[2] == Active && PatientStatuses[3] == Churned
    ensures forall i, j :: 0 <= i < j < |PatientStatuses| ==> PatientStatuses[i] != PatientStatuses[j]
    ensures forall s: PatientStatus :: s in PatientStatuses
  {
    forall s: PatientStatus ensures s in PatientStatuses {
      match s
      case Inquiry => assert PatientStatuses[0] == s;
      case Onboarding => assert PatientStatuses[1] == s;
      case Active => assert PatientStatuses[2] == s;
      case Churned => assert PatientStatuses[3] == s;
    }
  }

  /** `Patient`: `id`, `middleName`, the two timestamps and the version are optional. */
  datatype Patient = Patient(
    id: Option<string>,
    firstName: string,
    middleName: Option<string>,
    lastName: string,
    dateOfBirth: string,
    status: PatientStatus,
    street: string,
    city: string,
    state: string,
    zipCode: string,
    createdAt: Option<string>,
    updatedAt: Option<string>,
    version: Option<int>)

  /** `CreatePatientRequest`: the nine user-supplied fields of a patient and nothing else. */
  datatype CreatePatientRequest = CreatePatientRequest(
    firstName: string,
    middleName: Option<string>,
    lastName: string,
    dateOfBirth: string,
    status: PatientStatus,
    street: string,
    city: string,
    state: string,
    zipCode: string)

  datatype Address = Address(street: string, city: string, state: string, zipCode: string)

  /** The request part of a stored patient. */
  function UserFields(p: Patient): CreatePatientRequest {
    CreatePatientRequest(p.firstName, p.middleName, p.lastName, p.dateOfBirth, p.status,
                         p.street, p.city, p.state, p.zipCode)
  }

  /** A request once the server has given it an identifier, timestamps and a version. */
  function Persisted(req: CreatePatientRequest, id: string, createdAt: string, updatedAt: string, version: int): (p: Patient)
    ensures p.id == Some(id) && p.createdAt == Some(createdAt) && p.updatedAt == Some(updatedAt)
    ensures p.version == Some(version)
    ensures UserFields(p) == req
  {
    Patient(Some(id), req.firstName, req.middleName, req.lastName, req.dateOfBirth, req.status,
            req.street, req.city, req.state, req.zipCode, Some(createdAt), Some(updatedAt), Some(version))
  }

  /** A patient is its request plus the server-assigned fields: nothing else is stored. */
  lemma PatientIsRequestPlusServerFields(p: Patient)
    requires p.id.Some? && p.createdAt.Some? && p.updatedAt.Some? && p.version.Some?
    ensures Persisted(UserFields(p), p.id.value, p.createdAt.value, p.updatedAt.value, p.version.value) == p
  {
  }
}
