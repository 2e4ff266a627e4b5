/**
 * The text a patient card shows: the full name, the one-line address, the
 * badge class of the status, the shortened identifier, and where a click on
 * the card leads.
 */
module PatientCard {
  import opened Wrappers
  import opened Text
  import opened PatientTypes
  import Validation

  // ------------------------------------------------------------ full name

  /** The names the full name is made of: the middle name only when it is non-empty. */
  function NameParts(p: Patient): seq<string> {
    if p.middleName.Some? && p.middleName.value != "" then [p.firstName, p.middleName.value, p.lastName]
    else [p.firstName, p.lastName]
  }

  /** `getFullName`: the name parts with one space between neighbours. */
  function FullName(p: Patient): (r: string)
    ensures r == Join(NameParts(p), " ")
  {
    var middle := if p.middleName.Some? && p.middleName.value != "" then p.middleName.value + " " else "";
    assert Join(NameParts(p), " ") == p.firstName + " " + middle + p.lastName by {
      var parts := NameParts(p);
      if |parts| == 3 {
        assert parts[1..] == [p.middleName.value, p.lastName];
        assert parts[1..][1..] == [p.lastName];
        assert Join(parts[1..], " ") == p.middleName.value + " " + p.lastName;
        assert p.firstName + " " + (p.middleName.value + " " + p.lastName)
            == p.firstName + " " + (p.middleName.value + " ") + p.lastName;
      } else {
        assert parts[1..] == [p.lastName];
        assert p.firstName + " " + "" + p.lastName == p.firstName + " " + p.lastName;
      }
    }
    p.firstName + " " + middle + p.lastName
  }

  /** Prefixing nothing changes nothing. */
  lemma {:induction false} PrefixedByNothing(xs: seq<string>)
    ensures Prefixed("", xs) == xs
  {
    if xs != [] {
      PrefixedByNothing(xs[1..]);
      assert "" + xs[0] == xs[0];
    }
  }

  /** Names without spaces are recovered by splitting the full name at its spaces. */
  lemma FullNameSplits(p: Patient)
    requires ' ' !in p.firstName && ' ' !in p.lastName
    requires p.middleName.Some? ==> ' ' !in p.middleName.value
    ensures SplitOn(FullName(p), ' ') == NameParts(p)
  {
    var parts := NameParts(p);
    assert " " == [' '] + "";
    SplitJoin(parts, ' ', "");
    PrefixedByNothing(parts[1..]);
    assert [parts[0]] + parts[1..] == parts;
  }

  lemma FullNameExample()
    ensures FullName(Patient(Some("1234567890abcdef"), "John", Some("A."), "Doe", "1990-01-01", Active,
      "123 Main St", "New York", "NY", "10001", None, None, None)) == "John A. Doe"
  {
  }

  /** An empty middle name is left out, with no double space. */
  lemma EmptyMiddleNameOmitted(p: Patient)
    requires p.middleName == Some("") || p.middleName == None
    ensures FullName(p) == p.firstName + " " + p.lastName
  {
  }

  // -------------------------------------------------------------- address

  /** `[street, city, state, zipCode].filter(Boolean)`. */
  function AddressParts(p: Patient): (r: seq<string>)
    ensures forall i :: 0 <= i < |r| ==> r[i] != ""
    ensures |r| <= 4
  {
    (if p.street != "" then [p.street] else [])
    + (if p.city != "" then [p.city] else [])
    + (if p.state != "" then [p.state] else [])
    + (if p.zipCode != "" then [p.zipCode] else [])
  }

  /**
   * The kept parts are exactly the non-empty ones among street, city, state
   * and ZIP code, each as often as it occurs there, in that order.
   */
  lemma AddressPartsKept(p: Patient)
    ensures IsSubsequence(AddressParts(p), [p.street, p.city, p.state, p.zipCode])
    ensures forall x :: x != "" ==>
      multiset(AddressParts(p))[x] == multiset([p.street, p.city, p.state, p.zipCode])[x]
  {
    AddressPartsFilter(p);
    NonEmptyKeeps([p.street, p.city, p.state, p.zipCode]);
  }

  /** The four conditional parts are the filter over the four fields. */
  lemma AddressPartsFilter(p: Patient)
    ensures AddressParts(p) == NonEmpty([p.street, p.city, p.state, p.zipCode])
  {
    var xs := [p.street, p.city, p.state, p.zipCode];
    var z := if p.zipCode != "" then [p.zipCode] else [];
    var sz := (if p.state != "" then [p.state] else []) + z;
    var csz := (if p.city != "" then [p.city] else []) + sz;
    assert NonEmpty(xs[3..]) == z by {
      assert xs[3..] == [p.zipCode] && xs[3..][1..] == [];
    }
    assert NonEmpty(xs[2..]) == sz by {
      assert xs[2..][0] == p.state && xs[2..][1..] == xs[3..];
    }
    assert NonEmpty(xs[1..]) == csz by {
      assert xs[1..][0] == p.city && xs[1..][1..] == xs[2..];
    }
    assert NonEmpty(xs) == (if p.street != "" then [p.street] else []) + csz by {
      assert xs[1..] == xs[1..];
    }
  }

  const NoAddress := "No address provided"

  /** `getFullAddress`: the non-empty parts joined by ", ", or the notice when there are none. */
  function FullAddress(p: Patient): (r: string)
    ensures AddressParts(p) == [] <==> p.street == "" && p.city == "" && p.state == "" && p.zipCode == ""
    ensures AddressParts(p) == [] ==> r == NoAddress
    ensures AddressParts(p) != [] ==> r == Join(AddressParts(p), ", ")
  {
    var parts := AddressParts(p);
    if |parts| > 0 then Join(parts, ", ") else NoAddress
  }

  /** Drops one leading space. */
  function DropSpace(x: string): string {
    if |x| > 0 && x[0] == ' ' then x[1..] else x
  }

  function DropSpaces(xs: seq<string>): (r: seq<string>)
    ensures |r| == |xs|
  {
    if xs == [] then [] else [DropSpace(xs[0])] + DropSpaces(xs[1..])
  }

  /** Reading an address line back: split at the commas and drop the space after each. */
  function SplitAddress(s: string): seq<string> {
    var pieces := SplitOn(s, ',');
    [pieces[0]] + DropSpaces(pieces[1..])
  }

  lemma {:induction false} DropSpacesPrefixed(xs: seq<string>)
    ensures DropSpaces(Prefixed(" ", xs)) == xs
  {
    if xs != [] {
      DropSpacesPrefixed(xs[1..]);
      assert (" " + xs[0])[1..] == xs[0];
    }
  }

  /** The parts of an address without commas are read back from the address line. */
  lemma AddressSplits(p: Patient)
    requires AddressParts(p) != []
    requires ',' !in p.street && ',' !in p.city && ',' !in p.state && ',' !in p.zipCode
    ensures SplitAddress(FullAddress(p)) == AddressParts(p)
  {
    var parts := AddressParts(p);
    assert forall i :: 0 <= i < |parts| ==> parts[i] in [p.street, p.city, p.state, p.zipCode];
    assert ", " == [','] + " ";
    SplitJoin(parts, ',', " ");
    DropSpacesPrefixed(parts[1..]);
    assert [parts[0]] + parts[1..] == parts;
  }

  /** No character class of the schema holds a comma. */
  lemma ClassesHaveNoComma(s: string, k: Validation.CharClass)
    requires Validation.AllIn(s, k)
    ensures ',' !in s
  {
  }

  /**
   * For an address that passed validation, the line shows all four parts and
   * reads back into them.
   */
  lemma ValidAddressSplits(p: Patient)
    requires Validation.Bounded(Some(p.street), 5, 100, Validation.LettersDigitsSpaces)
    requires Validation.Bounded(Some(p.city), 2, 50, Validation.LettersSpaces)
    requires Validation.StateCodeOk(Some(p.state))
    requires Validation.ZipCodeOk(Some(p.zipCode))
    ensures AddressParts(p) == [p.street, p.city, p.state, p.zipCode]
    ensures SplitAddress(FullAddress(p)) == [p.street, p.city, p.state, p.zipCode]
  {
    ClassesHaveNoComma(p.street, Validation.LettersDigitsSpaces);
    ClassesHaveNoComma(p.city, Validation.LettersSpaces);
    ClassesHaveNoComma(p.state, Validation.Uppercase);
    var z := p.zipCode;
    if |z| == 5 {
      ClassesHaveNoComma(z, Validation.Digits);
    } else {
      ClassesHaveNoComma(z[..5], Validation.Digits);
      ClassesHaveNoComma(z[6..], Validation.Digits);
      assert z == z[..5] + [z[5]] + z[6..];
    }
    AddressSplits(p);
  }

  lemma FullAddressExample()
    ensures FullAddress(Patient(None, "John", None, "Doe", "1990-01-01", Active,
      "123 Main St", "New York", "NY", "10001", None, None, None)) == "123 Main St, New York, NY, 10001"
  {
    var parts := ["123 Main St", "New York", "NY", "10001"];
    assert parts[1..] == ["New York", "NY", "10001"];
    assert parts[1..][1..] == ["NY", "10001"];
    assert parts[1..][1..][1..] == ["10001"];
    assert Join(["10001"], ", ") == "10001";
    assert Join(["NY", "10001"], ", ") == "NY, 10001";
    assert Join(["New York", "NY", "10001"], ", ") == "New York, NY, 10001";
    assert Join(parts, ", ") == "123 Main St, New York, NY, 10001";
  }

  // --------------------------------------------------------- status badge

  const ActiveClass := "bg-green-100 text-green-800 border-green-200"
  const InquiryClass := "bg-blue-100 text-blue-800 border-blue-200"
  const OnboardingClass := "bg-yellow-100 text-yellow-800 border-yellow-200"
  const ChurnedClass := "bg-red-100 text-red-800 border-red-200"
  const GrayClass := "bg-gray-100 text-gray-800 border-gray-200"

  /** `getStatusColor`: takes any string; a value that names no status gets the gray default. */
  function StatusColor(status: string): (r: string)
    ensures ParseStatus(status).None? ==> r == GrayClass
  {
    match status
    case "Active" => ActiveClass
    case "Inquiry" => InquiryClass
    case "Onboarding" => OnboardingClass
    case "Churned" => ChurnedClass
    case _ => GrayClass
  }

  /** The badge class read back as the status it stands for. */
  function ColorStatus(cls: string): Option<PatientStatus> {
    if cls == ActiveClass then Some(Active)
    else if cls == InquiryClass then Some(Inquiry)
    else if cls == OnboardingClass then Some(Onboarding)
    else if cls == ChurnedClass then Some(Churned)
    else None
  }

  /** Every status has its own class, none of them the gray default. */
  lemma StatusColorsDistinct(s: PatientStatus)
    ensures ColorStatus(StatusColor(StatusName(s))) == Some(s)
    ensures StatusColor(StatusName(s)) != GrayClass
  {
  }

  // ------------------------------------------------------- id and click

  /** `_id?.slice(0, 8) || 'N/A'`: an absent or empty id shows "N/A". */
  function DisplayId(id: Option<string>): (r: string)
    ensures id.None? || id.value == "" ==> r == "N/A"
    ensures id.Some? && id.value != "" ==> IsPrefix(r, id.value) && |r| == if |id.value| < 8 then |id.value| else 8
  {
    if id.Some? && id.value != "" then
      (if |id.value| < 8 then id.value else id.value[..8])
    else "N/A"
  }

  lemma DisplayIdExample()
    ensures DisplayId(Some("1234567890abcdef")) == "12345678"
  {
  }

  const PatientRoute := "/patients/"

  /** `handleClick`: the route a click leads to, if any. */
  function ClickTarget(id: Option<string>): (r: Option<string>)
    ensures r.Some? <==> id.Some? && id.value != ""
    ensures r.Some? ==> IsPrefix(PatientRoute, r.value) && r.value[|PatientRoute|..] == id.value
  {
    if id.Some? && id.value != "" then Some(PatientRoute + id.value) else None
  }
}
