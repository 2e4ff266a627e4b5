# Patient dashboard core, modelled in Dafny

The dashboard keeps a list of patients (name, date of birth, status, postal
address), validates the create-patient form against a declarative field
schema, and shows the patients as cards with a search box, a status filter
and per-status counts. This project models the logic behind that:

- **Validation.dfy** — the create-patient schema (`createPatientSchema`) kept
  as data, nine field rules in declaration order with their exact messages,
  an interpreter with the schema library's semantics (every check of a field
  runs, a missing key reports "Required", the status enumeration reports its
  one message), and the safe parse (`validatePatientDataSafe`). Beside it, the
  rule table written as plain predicates, and lemmas proving the interpreter
  agrees with it field by field and as a whole.
- **PatientSlice.dfy** — the store's patients slice: its state, the twelve
  transitions (three resets, three request families of pending / fulfilled /
  rejected), the reducer as a pure function `Reduce`, the request steps with
  their fallback messages, and `PatientStore`, a class holding the six fields
  whose methods apply one transition each in place.
- **PatientList.dfy** — the name search and status filter, the status counts
  (`GetStatusCounts`, a loop over the four statuses filling a map), and the
  choice between spinner, empty notices and card grid.
- **PatientCard.dfy** — full name, address line, status badge class,
  shortened identifier and click target, each with an inverse or an
  independent reading proved against it.
- **PatientForm.dfy** — the form record and its error map as a class
  (`PatientFormView`): editing an input, upper-casing the state input, and the
  submit step that validates, fills the error map issue by issue (later issues
  win), or dispatches the create and resets the form on success.
- **PatientTypes.dfy** — `Patient`, `CreatePatientRequest`, `Address`, the
  closed `PatientStatus` and the ordered list of statuses.
- **Text.dfy**, **Wrappers.dfy** — ASCII character classes and case mapping,
  substring search, join and split; the `Option` type.

The clock and JavaScript's date parser are parameters: `today` is today's
midnight as an `Instant` (a point on the time line plus its calendar year),
and `parse` maps a string to an `Instant` or to `None` for an invalid date.
A server reply is a parameter too: `Resolved(payload)` or `Refused(message)`.

The model follows the code where it departs from what its messages or an
informal reading suggest: the "less than 50 characters" messages sit on
checks that accept exactly 50 characters; the 120-year limit on the date of
birth compares calendar years, not exact age (so it is stricter than an age
bound: an age above 120 is always refused, and some people aged 120 are
refused too); the store never checks that identifiers are unique, so neither
does the model; and a server error message that is present but empty falls
back to the default text, because the code uses `||`.

## Model

| member | source | states |
|---|---|---|
| Validation.MatchPlusIff | src/lib/validation.ts:9 | `^[k]+$` matches exactly the non-empty strings whose every character is in class k |
| Validation.MatchCountIff | src/lib/validation.ts:57 | `^[k]{n}$` matches exactly the strings of length n all in class k |
| Validation.ZipPatternIff | src/lib/validation.ts:62 | the ZIP pattern matches exactly five digits, or five digits, a hyphen and four digits |
| Validation.FailedMessages | src/lib/validation.ts:4-9 | a field's check list reports nothing iff every check passes; every reported message is the message of a check the value fails, and every check the value fails has its message reported; when the last check fails, its message is the last one reported |
| Validation.FailuresOfTail | src/lib/validation.ts:4-9 | the first check's failure followed by the rest's failures covers exactly the failing checks of the whole list, keeps the last check's failure last, and is empty iff every check passes |
| Validation.BirthDateAccepted | src/lib/validation.ts:28-33 | the date refinement: the text parses to a date strictly before today's midnight, and today's calendar year minus its year is at most 120; DateOfBirthRuleIff and BirthDateBounds state it against the rule |
| Validation.FieldMessages | src/lib/validation.ts:4-62 | the schema library's per-field semantics: a missing required key reports only "Required", every string check of a present value runs, an optional value that is absent or empty reports nothing, the enumeration reports its one message; FailedMessages, FieldRuleIff and FieldMessagesNonEmpty state what it reports |
| Validation.FieldIssuesNamed | src/lib/validation.ts:3-63 | every issue a field contributes has that field's name as its path and one of its reported messages, and there is one iff the field reports any message |
| Validation.SchemaIssues | src/lib/validation.ts:3-63 | the issues of all rules, rule after rule in declaration order; SchemaIssuesEmptyIff, IssuesComeFromFailingRules and FailingRulesReported state what they contain |
| Validation.BoundedStringRule | src/lib/validation.ts:4-9 | a required string field with min(1), min(lo), max(hi) and a one-or-more class regex reports nothing iff the value is present, lo to hi characters long and all in the class |
| Validation.MiddleNameRuleIff | src/lib/validation.ts:11-16 | middleName reports nothing iff it is absent, empty, or at most 50 letters and whitespace |
| Validation.DateOfBirthRuleIff | src/lib/validation.ts:25-33 | dateOfBirth reports nothing iff it is present, non-empty, parses, is strictly before today's midnight and today's year minus its year is at most 120 |
| Validation.StatusRuleIff | src/lib/validation.ts:35-37 | status reports nothing iff it names one of the four statuses |
| Validation.StateRuleIff | src/lib/validation.ts:53-57 | state reports nothing iff it is exactly two characters in A–Z |
| Validation.ZipCodeRuleIff | src/lib/validation.ts:59-62 | zipCode reports nothing iff it has the ZIP shape |
| Validation.FieldRuleIff | src/lib/validation.ts:3-63 | every one of the nine schema rules reports nothing iff the rule table accepts the value |
| Validation.SchemaIssuesEmptyIff | src/lib/validation.ts:3-63 | a list of rules yields no issue iff none of its rules fails |
| Validation.IssuesComeFromFailingRules | src/lib/validation.ts:3-63 | every issue names a rule of the list that fails, by that rule's field name |
| Validation.FailingRulesReported | src/lib/validation.ts:3-63 | every failing rule has an issue whose path is its field name |
| Validation.SchemaRulesIff | src/lib/validation.ts:3-63 | for each rule of the schema, it fails iff the rule table rejects its field |
| Validation.NoIssuesIffAcceptable | src/lib/validation.ts:3-63 | the schema yields no issue iff every field follows the rule table |
| Validation.IssuesNameFailingFields | src/lib/validation.ts:3-63 | every issue's path is a single failing field name, and every failing field has an issue with its name as path |
| Validation.AcceptableByName | src/lib/validation.ts:3-63 | acceptance is every field name of the schema following its rule |
| Validation.FailingFieldsByName | src/lib/validation.ts:3-63 | a name is a failing field iff it is one of the nine field names and breaks its rule |
| Validation.FieldMessagesNonEmpty | src/lib/validation.ts:3-63 | a field whose declared messages are non-empty reports only non-empty messages |
| Validation.IssueMessagesNonEmpty | src/lib/validation.ts:3-63 | every issue of rules with non-empty messages has a non-empty message |
| Validation.SchemaMessagesAllNonEmpty | src/lib/validation.ts:3-63 | every message the schema declares is non-empty |
| Validation.SafeParse | src/lib/validation.ts:71-73 | the safe parse always returns; it succeeds iff every field follows its rule, then carrying the candidate's own values with the status read as a status; otherwise it carries the schema's issues, at least one |
| Validation.FiftyLetterFirstNamePasses | src/lib/validation.ts:8 | a first name of exactly 50 letters passes the "less than 50" check |
| Validation.MissingMiddleNamePasses | src/lib/validation.ts:11-16 | an absent or empty middle name reports nothing |
| Validation.MiddleNameMinimumNeverFails | src/lib/validation.ts:14 | the middle name's at-least-1 refinement cannot fail on any value it sees |
| Validation.StateExamples | src/lib/validation.ts:53-57 | "NY" passes and "ny" fails |
| Validation.LowerCaseStateFails | src/lib/validation.ts:57 | "ny" is reported: the state pattern admits capitals only |
| Validation.ZipCodeExamples | src/lib/validation.ts:59-62 | "10001" passes and "1000" fails |
| Validation.ZipPlusFourExample | src/lib/validation.ts:62 | "10001-1234" passes |
| Validation.BirthDateBounds | src/lib/validation.ts:28-33 | a date on or after today's midnight, or more than 120 calendar years back, is reported |
| PatientTypes.ParseStatus | src/types/patient.ts:36 | reading a status name gives the status with that name, and nothing for any other string |
| PatientTypes.StatusNameRoundTrip | src/types/patient.ts:36 | every status's name reads back as that status |
| PatientTypes.StatusesListed | src/types/patient.ts:36-38 | the status list is Inquiry, Onboarding, Active, Churned in that order, without duplicates, and holds every status |
| PatientTypes.Persisted | src/types/patient.ts:1-27 | a stored patient is a create request plus the server's identifier, timestamps and version, the nine user fields unchanged |
| PatientTypes.PatientIsRequestPlusServerFields | src/types/patient.ts:1-27 | a patient with all server fields is exactly its user fields plus those server fields |
| PatientSlice.Reduce | src/store/patientSlice.ts:63-121 | create steps keep loading and error; list steps keep createLoading and createError; create-pending sets createLoading and clears createError; list and by-id pending set loading and clear error; only create-fulfilled (append at the end) and list-fulfilled (replace) change the list; settled steps clear their own loading flag; fulfilled steps keep their own family's error, rejections store the reason; create-fulfilled and by-id-fulfilled make their payload the current patient, clearCurrentPatient empties it, and nothing else changes it |
| PatientSlice.RejectionReason | src/store/patientSlice.ts:31 | the server's message when present and non-empty, otherwise the fallback; never empty when the fallback is not |
| PatientSlice.CreatePatientSettled | src/store/patientSlice.ts:24-34 | a payload settles create as fulfilled with it; a refusal as rejected with a non-empty reason: the server's message when it is present and non-empty, otherwise "Failed to create patient" |
| PatientSlice.FetchPatientsSettled | src/store/patientSlice.ts:36-46 | a list payload settles the fetch as fulfilled with it; a refusal as rejected with the server's non-empty message, otherwise "Failed to fetch patients" |
| PatientSlice.FetchPatientByIdSettled | src/store/patientSlice.ts:48-58 | a patient payload settles the fetch as fulfilled with it; a refusal as rejected with the server's non-empty message, otherwise "Failed to fetch patient" |
| PatientSlice.InitialStateIsIdle | src/store/patientSlice.ts:14-21 | the initial state has no patients, no current patient, both flags false and both errors absent |
| PatientSlice.ResetsAreIdempotent | src/store/patientSlice.ts:64-74 | clearError clears both errors only, resetCreateState clears the create flag and error only, clearCurrentPatient clears the current patient only, and each applied twice equals once |
| PatientSlice.CreateStepsKeepListFlags | src/store/patientSlice.ts:79-91 | any run of create steps leaves loading and error as they were |
| PatientSlice.ListStepsKeepCreateFlags | src/store/patientSlice.ts:95-121 | any run of list and by-id steps leaves createLoading and createError as they were |
| PatientSlice.ListGrowsOnlyByCreates | src/store/patientSlice.ts:83-87 | without a successful list fetch, the list after any run is the old list followed by the created patients in order |
| PatientSlice.Run | src/store/patientSlice.ts:60-123 | dispatching a sequence of actions applies the reducer to each in order; RunPair and the run lemmas above state its effect |
| PatientSlice.RunPair | src/store/patientSlice.ts:60-123 | two dispatched actions are the reducer applied twice |
| PatientSlice.CreateSucceeds | src/store/patientSlice.ts:79-87 | a create that resolves adds exactly one patient at the end, keeps the earlier ones in place, makes it current, and leaves no create error or spinner |
| PatientSlice.FetchRefusedWithoutMessage | src/store/patientSlice.ts:43 | a list fetch refused without a message stores "Failed to fetch patients" and keeps the list |
| PatientSlice.CreateRefusedWithMessage | src/store/patientSlice.ts:31 | a create refused with a non-empty server message stores that message as `createError`, stops the spinner, and keeps the list and the current patient |
| PatientSlice.FetchRefusedWithMessage | src/store/patientSlice.ts:43-55 | a list fetch or a by-id fetch refused with a non-empty server message stores that message as `error`, stops the spinner, and keeps the list or the current patient |
| PatientSlice.PatientStore.constructor | src/store/patientSlice.ts:14-21 | a new store holds the initial state |
| PatientSlice.PatientStore.ClearError | src/store/patientSlice.ts:64-67 | the new state is the reducer's clearError case |
| PatientSlice.PatientStore.ClearCurrentPatient | src/store/patientSlice.ts:68-70 | the new state is the reducer's clearCurrentPatient case |
| PatientSlice.PatientStore.ResetCreateState | src/store/patientSlice.ts:71-74 | the new state is the reducer's resetCreateState case |
| PatientSlice.PatientStore.CreatePending | src/store/patientSlice.ts:79-82 | the new state is the reducer's create-pending case |
| PatientSlice.PatientStore.CreateFulfilled | src/store/patientSlice.ts:83-87 | the payload is pushed onto the list in place, and the new state is the reducer's create-fulfilled case |
| PatientSlice.PatientStore.CreateRejected | src/store/patientSlice.ts:88-91 | the new state is the reducer's create-rejected case |
| PatientSlice.PatientStore.FetchPatientsPending | src/store/patientSlice.ts:95-98 | the new state is the reducer's list-pending case |
| PatientSlice.PatientStore.FetchPatientsFulfilled | src/store/patientSlice.ts:99-102 | the new state is the reducer's list-fulfilled case |
| PatientSlice.PatientStore.FetchPatientsRejected | src/store/patientSlice.ts:103-106 | the new state is the reducer's list-rejected case |
| PatientSlice.PatientStore.FetchByIdPending | src/store/patientSlice.ts:110-113 | the new state is the reducer's by-id-pending case |
| PatientSlice.PatientStore.FetchByIdFulfilled | src/store/patientSlice.ts:114-117 | the new state is the reducer's by-id-fulfilled case |
| PatientSlice.PatientStore.FetchByIdRejected | src/store/patientSlice.ts:118-121 | the new state is the reducer's by-id-rejected case |
| PatientSlice.PatientStore.CreatePatient | src/store/patientSlice.ts:24-34 | dispatching create applies pending then the settling step for the reply, and succeeds exactly when the reply carries a payload |
| PatientSlice.PatientStore.FetchPatients | src/store/patientSlice.ts:36-46 | dispatching the list fetch applies pending then the settling step for the reply |
| PatientSlice.PatientStore.FetchPatientById | src/store/patientSlice.ts:48-58 | dispatching the single fetch applies pending then the settling step for the reply |
| PatientSlice.PatientStore.Dispatch | src/store/patientSlice.ts:60-123 | dispatching any action leaves the state the reducer gives |
| PatientList.FilterPatients | src/components/PatientList.tsx:28-37 | the shown patients are an order-preserving subsequence of the list; a patient is shown iff it is in the list and passes both the search and the status filter; and every shown patient appears as often as in the list |
| PatientList.MatchesSearch | src/components/PatientList.tsx:29-32 | the search test: the lower-cased term is included in the lower-cased first name, last name, or non-empty middle name; MatchesSearchIff states it by occurrence |
| PatientList.MatchesStatus | src/components/PatientList.tsx:34 | the status test: the filter is All or equals the patient's status; FilteredHaveStatus states it of the shown list |
| PatientList.MatchesSearchIff | src/components/PatientList.tsx:29-32 | a patient matches iff the lower-cased term occurs in the lower-cased first name, last name, or non-empty middle name |
| PatientList.SearchIgnoresTermCase | src/components/PatientList.tsx:29-32 | the search gives the same answer for a term and its lower-cased form |
| PatientList.EmptySearchShowsAll | src/components/PatientList.tsx:28-37 | with the empty term and the filter on All, the shown list is the whole list |
| PatientList.FilteredHaveStatus | src/components/PatientList.tsx:34 | under a status filter every shown patient has that status |
| PatientList.FilterByStatus | src/components/PatientList.tsx:41 | every patient kept has the given status |
| PatientList.GetStatusCounts | src/components/PatientList.tsx:39-45 | the map has a count for each of the four statuses and nothing else, each count being the number of patients with that status |
| PatientList.StatusCountIsMultiplicity | src/components/PatientList.tsx:41 | a status's count is its multiplicity in the multiset of the patients' statuses |
| PatientList.StatusCountsSum | src/components/PatientList.tsx:39-45 | the four counts add up to the number of patients |
| PatientList.ListScreenFor | src/components/PatientList.tsx:49-135 | the spinner shows iff loading with no patients; "No patients added yet" iff not loading with no patients; "No patients match your search criteria" iff there are patients but none is shown; otherwise the cards of exactly the shown patients |
| PatientCard.FullName | src/components/PatientCard.tsx:38-40 | the full name is the name parts (middle name only when non-empty) joined by single spaces |
| PatientCard.FullNameSplits | src/components/PatientCard.tsx:38-40 | for names without spaces, splitting the full name at spaces gives the name parts back |
| PatientCard.FullNameExample | src/components/PatientCard.tsx:38-40 | John, A., Doe gives "John A. Doe" |
| PatientCard.EmptyMiddleNameOmitted | src/components/PatientCard.tsx:39 | an absent or empty middle name leaves "first last" with one space |
| PatientCard.AddressParts | src/components/PatientCard.tsx:44 | the kept address parts are non-empty and at most four; AddressPartsKept states which ones |
| PatientCard.AddressPartsKept | src/components/PatientCard.tsx:44 | the kept parts are the non-empty ones among street, city, state and ZIP code, each as often as it occurs there, in that order |
| PatientCard.FullAddress | src/components/PatientCard.tsx:42-46 | with no non-empty part the line is "No address provided" (exactly when all four are empty); otherwise the parts joined by ", " |
| PatientCard.AddressSplits | src/components/PatientCard.tsx:42-46 | for parts without commas, splitting the address line at commas and dropping the following space gives the parts back |
| PatientCard.ClassesHaveNoComma | src/lib/validation.ts:9 | no character class of the schema admits a comma |
| PatientCard.ValidAddressSplits | src/components/PatientCard.tsx:42-46 | a validated address shows all four parts and reads back into them |
| PatientCard.FullAddressExample | src/components/PatientCard.tsx:42-46 | 123 Main St, New York, NY, 10001 gives "123 Main St, New York, NY, 10001" |
| PatientCard.StatusColor | src/components/PatientCard.tsx:15-28 | any string that names no status gets the gray default class |
| PatientCard.StatusColorsDistinct | src/components/PatientCard.tsx:15-28 | each status's class reads back as that status, so the four classes are distinct, and none is the gray default |
| PatientCard.DisplayId | src/components/PatientCard.tsx:70 | an absent or empty id shows "N/A"; otherwise a prefix of the id, 8 characters long or the whole id when shorter |
| PatientCard.DisplayIdExample | src/components/PatientCard.tsx:70 | "1234567890abcdef" shows as "12345678" |
| PatientCard.ClickTarget | src/components/PatientCard.tsx:48-52 | a click leads somewhere iff the id is present and non-empty, to "/patients/" followed by exactly the id |
| PatientForm.WithField | src/components/PatientForm.tsx:94 | the named input takes the value and every other input keeps its value |
| PatientForm.AsCandidate | src/components/PatientForm.tsx:49 | the validator sees every input under its key |
| PatientForm.InitialFormIsBlank | src/components/PatientForm.tsx:21-31 | the initial form has every text input empty and the status on Inquiry |
| PatientForm.ErrorMapOf | src/components/PatientForm.tsx:53-56 | the error map left by writing each issue's message under its dot-joined path, one issue after another; ErrorMapKeys, ErrorMapLastWins and ErrorMapValues state its content |
| PatientForm.ErrorMapKeys | src/components/PatientForm.tsx:52-56 | the error map has one key per distinct dot-joined issue path, and no other |
| PatientForm.ErrorMapLastWins | src/components/PatientForm.tsx:53-56 | under each key stands the message of the last issue with that key |
| PatientForm.ErrorMapValues | src/components/PatientForm.tsx:53-56 | every message in the map is the message of an issue under that key |
| PatientForm.BuildErrorMap | src/components/PatientForm.tsx:52-56 | the loop writing one issue after another leaves exactly the error map of the issues |
| PatientForm.ErrorKeysAreFailingFields | src/components/PatientForm.tsx:52-56 | the error map of the schema's issues has exactly the failing fields as keys |
| PatientForm.SubmitErrorsNameFailingFields | src/components/PatientForm.tsx:49-57 | after a failed validation the error map's keys are exactly the fields that break their rules |
| PatientForm.SubmitErrorsNonEmpty | src/components/PatientForm.tsx:49-57 | after a failed validation every message in the error map is non-empty |
| PatientForm.DisabledWhileCreating | src/components/PatientForm.tsx:280 | the submit button is disabled once the create is pending and enabled again once it settles either way |
| PatientForm.PatientFormView.constructor | src/components/PatientForm.tsx:21-33 | a new form is the initial form with no errors |
| PatientForm.PatientFormView.HandleInputChange | src/components/PatientForm.tsx:93-104 | only the named input changes; that input's error is removed and every other error stays |
| PatientForm.PatientFormView.HandleStateInput | src/components/PatientForm.tsx:251 | the state input stores the typed text upper-cased, and clears only the state error |
| PatientForm.PatientFormView.HandleSubmit | src/components/PatientForm.tsx:42-91 | create is dispatched iff validation succeeds; on failure the store and form are unchanged and the error map is the issues' map; on success the error map is empty, the store has gone through pending and the reply's settling step, and the form is reset exactly when the create resolved |
| PatientForm.PatientFormView.Unmount | src/components/PatientForm.tsx:36-40 | leaving the form applies resetCreateState to the store |
| PatientForm.CandidateReadsForm | src/components/PatientForm.tsx:49 | the validator reads each input under its own key |
| PatientForm.EmptyFormVerdicts | src/components/PatientForm.tsx:21-31 | on the all-empty form exactly the middle name and the status follow their rules |
| PatientForm.AllEmptyFormRejected | src/components/__tests__/PatientForm.test.tsx:63-77 | the all-empty form is rejected, failing on exactly firstName, lastName, dateOfBirth, street, city, state and zipCode |
| PatientForm.SampleTextPasses | src/components/__tests__/PatientForm.test.tsx:79-88 | Jane, Smith, 123 Main St, New York, NY and 10001 each pass their rule |
| PatientForm.JaneFormFieldsPass | src/components/__tests__/PatientForm.test.tsx:79-88 | with a date of birth that reads as a past date within 120 years every field of the sample record passes |
| PatientForm.JaneFormAccepted | src/components/__tests__/PatientForm.test.tsx:79-101 | the sample record passes validation and comes back typed, with an empty middle name and the status Inquiry |
| Text.Includes | src/components/PatientList.tsx:30 | `includes` as a scan over the start positions; IncludesIffOccurs states it |
| Text.IncludesIffOccurs | src/components/PatientList.tsx:30 | the left-to-right scan finds the needle iff it occurs at some offset |
| Text.Lower | src/components/PatientList.tsx:30 | lower-casing keeps the length and maps each character |
| Text.CasePartners | src/components/PatientList.tsx:30 | each capital is lowered to the letter 32 code points above it and each small letter raised to the one 32 below, and raising undoes lowering and back |
| Text.Upper | src/components/PatientForm.tsx:251 | upper-casing keeps the length and maps each character |
| Text.Join | src/components/PatientCard.tsx:45 | the parts with the separator between neighbours; SplitJoin reads them back |
| Text.NonEmpty | src/components/PatientCard.tsx:44 | `filter(Boolean)` on strings: the non-empty strings in their order; NonEmptyKeeps states it |
| Text.NonEmptyKeeps | src/components/PatientCard.tsx:44 | the filter's result holds no empty string, is an order-preserving subsequence of its input, and keeps every non-empty string as often as it occurs |
| Text.SplitPrepend | src/components/PatientCard.tsx:45 | separator-free text in front of a string sticks to the first piece of its split |
| Text.SplitJoin | src/components/PatientCard.tsx:45 | splitting a join at the separator's first character gives the parts back, later parts carrying the separator's tail |

## Left out

- src/services/api.ts: the HTTP calls are network I/O; a request is represented only by the server's reply (`Reply`), a parameter of the methods that dispatch it.
- JavaScript `Date` parsing and the wall clock (src/lib/validation.ts:29-31): passed in as `parse` and `today`; the model does not know which strings parse to which dates.
- `toLocaleDateString` formatting of dates on the card and the details page: presentation only.
- Rendering, toasts, routing and navigation effects, src/pages/Index.tsx and src/pages/PatientDetails.tsx: presentation only; `ClickTarget` gives the route a click would open.
- Delete and update of patients: the slice has no reducer for them and the API calls are bare HTTP.
- src/config.ts, src/store/index.ts, the jest configuration: wiring with no behaviour of its own.
- Overlapping requests and promise interleaving: transitions apply one at a time, and "last response wins" is sequential application (`Run`).
- Unicode: `\s` and `toLowerCase`/`toUpperCase` are modelled at ASCII level (space and tab through carriage return; A–Z and a–z).
- Validation.SafeParse: lengths (`min`, `max`, `length`) and `slice` count characters, while JavaScript counts UTF-16 code units; for text with characters outside the Basic Multilingual Plane (U+10000 and above) the model's length checks, and so its issue list, can differ from the source's (a first name "😀" is one character here, two code units there). Whether a record is accepted, and the message the error map keeps for each field, are unaffected, because every pattern of the schema refuses such characters anyway and its issue comes last.
- PatientCard.DisplayId: the 8-character prefix likewise counts characters, not UTF-16 code units.
- Validation.FieldMessages: the date parser is a parameter and is not constrained on the empty string; JavaScript's `new Date("")` is always an invalid date, so for an empty date of birth the source also reports the date message, which the model reports only when `parse("")` is `None`. Whether the record is accepted is unaffected, because the empty value already fails the required check.
- Validation.SafeParse: values that are not strings (numbers, objects) are left out; the candidate is a map from keys to strings, a missing key standing for `undefined`.
- validatePatientData (src/lib/validation.ts:67-69): the throwing twin of the safe parse, with the same issues raised as an exception; it has no member of its own.
- PatientForm.PatientFormView.HandleSubmit: the form's status is kept as the select's text; the select offers only the four statuses, which the model does not assume.
- The refresh button of the list (src/components/PatientList.tsx:24-26, 69-82) and the initial list fetch: each is one call of `PatientStore.FetchPatients`.
- The state input's `maxLength={2}` (src/components/PatientForm.tsx:253): a browser limit on typing, not part of the logic.
