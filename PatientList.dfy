/**
 * The patient list screen's logic: the name search and status filter that
 * choose the cards, the per-status counts of the header, and which of the
 * spinner, the empty notices and the card grid is shown.
 */
module PatientList {
  import opened Wrappers
  import opened Text
  import opened PatientTypes

  /** The status filter's value: every status, or one of them. */
  datatype StatusFilter = All | Only(status: PatientStatus)

  /**
   * The search test: the lower-cased term occurs in the lower-cased first or
   * last name, or in the middle name when there is a non-empty one.
   */
  predicate MatchesSearch(p: Patient, term: string) {
    var t := Lower(term);
    || Includes(Lower(p.firstName), t)
    || Includes(Lower(p.lastName), t)
    || (p.middleName.Some? && p.middleName.value != "" && Includes(Lower(p.middleName.value), t))
  }

  predicate MatchesStatus(p: Patient, f: StatusFilter) {
    f.All? || p.status == f.status
  }

  predicate Shown(p: Patient, term: string, f: StatusFilter) {
    MatchesSearch(p, term) && MatchesStatus(p, f)
  }

  /** The cards the grid shows: the patients passing both tests, in list order. */
  function FilterPatients(ps: seq<Patient>, term: string, f: StatusFilter): (r: seq<Patient>)
    ensures IsSubsequence(r, ps)
    ensures forall p :: p in r <==> p in ps && Shown(p, term, f)
    ensures forall p :: Shown(p, term, f) ==> multiset(r)[p] == multiset(ps)[p]
    ensures |r| <= |ps|
  {
    if ps == [] then []
    else
      assert ps == [ps[0]] + ps[1..];
      if Shown(ps[0], term, f) then [ps[0]] + FilterPatients(ps[1..], term, f)
      else FilterPatients(ps[1..], term, f)
  }

  /** A patient matches the search iff the lower-cased term occurs in one of the lower-cased names. */
  lemma MatchesSearchIff(p: Patient, term: string)
    ensures MatchesSearch(p, term) <==>
      || OccursIn(Lower(term), Lower(p.firstName))
      || OccursIn(Lower(term), Lower(p.lastName))
      || (p.middleName.Some? && p.middleName.value != "" && OccursIn(Lower(term), Lower(p.middleName.value)))
  {
    IncludesIffOccurs(Lower(p.firstName), Lower(term));
    IncludesIffOccurs(Lower(p.lastName), Lower(term));
    if p.middleName.Some? {
      IncludesIffOccurs(Lower(p.middleName.value), Lower(term));
    }
  }

  /** The search is blind to letter case in the term. */
  lemma SearchIgnoresTermCase(p: Patient, term: string)
    ensures MatchesSearch(p, term) <==> MatchesSearch(p, Lower(term))
  {
    assert Lower(Lower(term)) == Lower(term);
  }

  /** With an empty search and the filter on "All", every patient is shown, in order. */
  lemma {:induction false} EmptySearchShowsAll(ps: seq<Patient>)
    ensures FilterPatients(ps, "", All) == ps
  {
    if ps != [] {
      assert Includes(Lower(ps[0].firstName), Lower(""));
      EmptySearchShowsAll(ps[1..]);
    }
  }

  /** Under a status filter every card shown has that status. */
  lemma FilteredHaveStatus(ps: seq<Patient>, term: string, st: PatientStatus)
    ensures forall p :: p in FilterPatients(ps, term, Only(st)) ==> p.status == st
  {
  }

  // ------------------------------------------------------ status counts

  /** `patients.filter(p => p.status === status)`. */
  function FilterByStatus(ps: seq<Patient>, st: PatientStatus): (r: seq<Patient>)
    ensures forall p :: p in r ==> p.status == st
  {
    if ps == [] then []
    else if ps[0].status == st then [ps[0]] + FilterByStatus(ps[1..], st)
    else FilterByStatus(ps[1..], st)
  }

  function StatusesOf(ps: seq<Patient>): (r: seq<PatientStatus>)
    ensures |r| == |ps|
    ensures forall i :: 0 <= i < |ps| ==> r[i] == ps[i].status
  {
    if ps == [] then [] else [ps[0].status] + StatusesOf(ps[1..])
  }

  /**
   * `getStatusCounts`: walks the four statuses in order and records, for
   * each, how many patients have it.
   */
  method GetStatusCounts(ps: seq<Patient>) returns (counts: map<PatientStatus, nat>)
    ensures forall st: PatientStatus :: st in counts && counts[st] == |FilterByStatus(ps, st)|
    ensures |counts.Keys| == |PatientStatuses|
  {
    counts := map[];
    var i := 0;
    while i < |PatientStatuses|
      invariant 0 <= i <= |PatientStatuses|
      invariant forall st :: st in counts <==> st in PatientStatuses[..i]
      invariant forall st :: st in counts ==> counts[st] == |FilterByStatus(ps, st)|
    {
      var st := PatientStatuses[i];
      counts := counts[st := |FilterByStatus(ps, st)|];
      assert PatientStatuses[..i + 1] == PatientStatuses[..i] + [st];
      i := i + 1;
    }
    StatusesListed();
    assert PatientStatuses[..i] == PatientStatuses;
    EveryStatusKeyed(counts);
  }

  /** A map with every status as a key has exactly as many keys as there are statuses. */
  lemma EveryStatusKeyed<V>(m: map<PatientStatus, V>)
    requires forall st: PatientStatus :: st in m
    ensures |m.Keys| == |PatientStatuses|
  {
    assert m.Keys == {Inquiry, Onboarding, Active, Churned} by {
      forall st: PatientStatus ensures st in m.Keys <==> st in {Inquiry, Onboarding, Active, Churned} {
        assert st in m;
        assert st.Inquiry? || st.Onboarding? || st.Active? || st.Churned?;
      }
    }
  }

  /** A status's count is that status's multiplicity among the patients' statuses. */
  lemma {:induction false} StatusCountIsMultiplicity(ps: seq<Patient>, st: PatientStatus)
    ensures |FilterByStatus(ps, st)| == multiset(StatusesOf(ps))[st]
  {
    if ps != [] {
      StatusCountIsMultiplicity(ps[1..], st);
      assert StatusesOf(ps) == [ps[0].status] + StatusesOf(ps[1..]);
    }
  }

  /** The statuses are closed, so the four counts add up to the number of patients. */
  lemma {:induction false} StatusCountsSum(ps: seq<Patient>)
    ensures |FilterByStatus(ps, Inquiry)| + |FilterByStatus(ps, Onboarding)|
      + |FilterByStatus(ps, Active)| + |FilterByStatus(ps, Churned)| == |ps|
  {
    if ps != [] {
      StatusCountsSum(ps[1..]);
    }
  }

  // ------------------------------------------------------- the screen

  const NoPatientsYet := "No patients added yet"
  const NoPatientsMatch := "No patients match your search criteria"

  /** What the list shows in place of, or as, the grid. */
  datatype ListScreen = Spinner | EmptyNotice(message: string) | Cards(shown: seq<Patient>)

  function ListScreenFor(ps: seq<Patient>, loading: bool, term: string, f: StatusFilter): (r: ListScreen)
    ensures r.Spinner? <==> loading && ps == []
    ensures r == EmptyNotice(NoPatientsYet) <==> !loading && ps == []
    ensures r == EmptyNotice(NoPatientsMatch) <==> ps != [] && FilterPatients(ps, term, f) == []
    ensures r.Cards? <==> FilterPatients(ps, term, f) != []
    ensures r.Cards? ==> r.shown == FilterPatients(ps, term, f)
  {
    if loading && ps == [] then Spinner
    else
      var shown := FilterPatients(ps, term, f);
      if shown == [] then EmptyNotice(if ps == [] then NoPatientsYet else NoPatientsMatch)
      else Cards(shown)
  }
}
