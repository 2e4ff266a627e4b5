/**
 * The create-patient schema and its safe parse.
 *
 * The schema is kept as data, the way the source declares it: nine field
 * rules in declaration order, each a list of checks with its message. The
 * interpreter follows the schema library's behaviour: every check of a string
 * field runs and reports (a failed check does not stop the next one),
 * refinements run even when an earlier check failed, a missing key yields a
 * single "Required" issue, and the status enumeration reports its one custom
 * message for every failure. Issues come out field by field in schema order.
 *
 * The input is an untyped object: a map from keys to string values, a missing
 * key being `undefined`. The clock and JavaScript's date parser are
 * parameters: `today` is today's local midnight and `parse` turns a string
 * into a date, `None` standing for an invalid date.
 */
module Validation {
  import opened Wrappers
  import opened Text
  import opened PatientTypes

  /** A parsed date, reduced to what the date-of-birth rule reads: its position on the time line and its calendar year. */
  datatype Instant = Instant(stamp: int, year: int)

  type DateParser = string -> Option<Instant>

  /** An untyped candidate record. */
  type Candidate = map<string, string>

  function Lookup(c: Candidate, key: string): Option<string> {
    if key in c then Some(c[key]) else None
  }

  // ---------------------------------------------------------------- patterns

  /** The bracket classes of the schema's regular expressions. */
  datatype CharClass =
    | LettersSpaces        // [a-zA-Z\s]
    | LettersDigitsSpaces  // [a-zA-Z0-9\s]
    | Uppercase            // [A-Z]
    | Digits               // \d

  predicate InClass(c: char, k: CharClass) {
    match k
    case LettersSpaces => IsAsciiLetter(c) || IsWhitespace(c)
    case LettersDigitsSpaces => IsAsciiLetter(c) || IsAsciiDigit(c) || IsWhitespace(c)
    case Uppercase => IsAsciiUpper(c)
    case Digits => IsAsciiDigit(c)
  }

  predicate AllIn(s: string, k: CharClass) {
    forall i :: 0 <= i < |s| ==> InClass(s[i], k)
  }

  /** The three anchored pattern shapes the schema uses. */
  datatype Pattern =
    | OneOrMore(cls: CharClass)          // ^[cls]+$
    | Exactly(cls: CharClass, count: nat) // ^[cls]{count}$
    | ZipCode                            // ^\d{5}(-\d{4})?$

  /** `[k]+` consuming the whole string from the left. */
  predicate MatchPlus(s: string, k: CharClass)
    decreases |s|
  {
    |s| > 0 && InClass(s[0], k) && (|s| == 1 || MatchPlus(s[1..], k))
  }

  /** `[k]{n}` consuming the whole string from the left. */
  predicate MatchCount(s: string, k: CharClass, n: nat)
    decreases n
  {
    if n == 0 then s == [] else |s| > 0 && InClass(s[0], k) && MatchCount(s[1..], k, n - 1)
  }

  predicate Matches(p: Pattern, s: string) {
    match p
    case OneOrMore(k) => MatchPlus(s, k)
    case Exactly(k, n) => MatchCount(s, k, n)
    case ZipCode =>
      |s| >= 5 && MatchCount(s[..5], Digits, 5)
      && (|s| == 5 || (s[5] == '-' && MatchCount(s[6..], Digits, 4)))
  }

  lemma {:induction false} MatchPlusIff(s: string, k: CharClass)
    ensures MatchPlus(s, k) <==> |s| >= 1 && AllIn(s, k)
    decreases |s|
  {
    if |s| > 1 {
      MatchPlusIff(s[1..], k);
      assert forall i :: 1 <= i < |s| ==> s[1..][i - 1] == s[i];
    }
  }

  lemma {:induction false} MatchCountIff(s: string, k: CharClass, n: nat)
    ensures MatchCount(s, k, n) <==> |s| == n && AllIn(s, k)
    decreases n
  {
    if n > 0 && |s| > 0 {
      MatchCountIff(s[1..], k, n - 1);
      assert forall i :: 1 <= i < |s| ==> s[1..][i - 1] == s[i];
    }
  }

  /** The ZIP shape: five digits, or five digits, a hyphen and four digits. */
  predicate ZipShape(s: string) {
    || (|s| == 5 && AllIn(s, Digits))
    || (|s| == 10 && AllIn(s[..5], Digits) && s[5] == '-' && AllIn(s[6..], Digits))
  }

  lemma ZipPatternIff(s: string)
    ensures Matches(ZipCode, s) <==> ZipShape(s)
  {
    if |s| >= 5 {
      MatchCountIff(s[..5], Digits, 5);
      assert |s| == 5 ==> s[..5] == s;
      if |s| > 5 {
        MatchCountIff(s[6..], Digits, 4);
      }
    }
  }

  // ------------------------------------------------------------------ checks

  /** One check of a string field, with the message it reports when it fails. */
  datatype Check =
    | MinLength(min: nat, message: string)
    | MaxLength(max: nat, message: string)
    | ExactLength(length: nat, message: string)
    | Regex(pattern: Pattern, message: string)

  predicate Passes(c: Check, s: string) {
    match c
    case MinLength(n, _) => |s| >= n
    case MaxLength(n, _) => |s| <= n
    case ExactLength(n, _) => |s| == n
    case Regex(p, _) => Matches(p, s)
  }

  /** `m` is the message of some check of `checks` that `s` fails. */
  ghost predicate ReportedBy(checks: seq<Check>, s: string, m: string) {
    exists i :: 0 <= i < |checks| && !Passes(checks[i], s) && checks[i].message == m
  }

  /** The messages of the checks `s` fails, in declaration order; every check runs. */
  function FailedMessages(checks: seq<Check>, s: string): (r: seq<string>)
    ensures r == [] <==> forall i :: 0 <= i < |checks| ==> Passes(checks[i], s)
    ensures forall j :: 0 <= j < |r| ==> ReportedBy(checks, s, r[j])
    ensures forall i :: 0 <= i < |checks| && !Passes(checks[i], s) ==> checks[i].message in r
    ensures |checks| > 0 && !Passes(checks[|checks| - 1], s) ==> |r| > 0 && r[|r| - 1] == checks[|checks| - 1].message
  {
    if checks == [] then []
    else
      var rest := FailedMessages(checks[1..], s);
      var r := (if Passes(checks[0], s) then [] else [checks[0].message]) + rest;
      FailuresOfTail(checks, s, rest, r);
      r
  }

  /** The failures of the first check followed by those of the rest are the failures of the whole list. */
  lemma FailuresOfTail(checks: seq<Check>, s: string, rest: seq<string>, r: seq<string>)
    requires |checks| > 0
    requires r == (if Passes(checks[0], s) then [] else [checks[0].message]) + rest
    requires rest == [] <==> forall i :: 0 <= i < |checks[1..]| ==> Passes(checks[1..][i], s)
    requires forall j :: 0 <= j < |rest| ==> ReportedBy(checks[1..], s, rest[j])
    requires forall i :: 0 <= i < |checks[1..]| && !Passes(checks[1..][i], s) ==> checks[1..][i].message in rest
    requires |checks| > 1 && !Passes(checks[|checks| - 1], s) ==> |rest| > 0 && rest[|rest| - 1] == checks[|checks| - 1].message
    ensures r == [] <==> forall i :: 0 <= i < |checks| ==> Passes(checks[i], s)
    ensures forall j :: 0 <= j < |r| ==> ReportedBy(checks, s, r[j])
    ensures forall i :: 0 <= i < |checks| && !Passes(checks[i], s) ==> checks[i].message in r
    ensures !Passes(checks[|checks| - 1], s) ==> |r| > 0 && r[|r| - 1] == checks[|checks| - 1].message
  {
    var head: seq<string> := if Passes(checks[0], s) then [] else [checks[0].message];
    forall j | 0 <= j < |r| ensures ReportedBy(checks, s, r[j]) {
      if j < |head| {
        assert !Passes(checks[0], s) && checks[0].message == r[j];
      } else {
        ReportedByTail(checks, s, rest[j - |head|]);
      }
    }
    forall i | 0 <= i < |checks| && !Passes(checks[i], s) ensures checks[i].message in r {
      if i == 0 {
        assert r[0] == checks[0].message;
      } else {
        assert checks[1..][i - 1] == checks[i];
        assert checks[i].message in rest;
      }
    }
    if forall i :: 0 <= i < |checks| ==> Passes(checks[i], s) {
      assert forall i :: 0 <= i < |checks[1..]| ==> Passes(checks[1..][i], s);
    }
    if !Passes(checks[|checks| - 1], s) {
      if |checks| == 1 {
        assert r[0] == checks[0].message;
      } else {
        assert r[|r| - 1] == rest[|rest| - 1];
      }
    }
  }

  /** A message reported by the checks after the first is reported by the whole list. */
  lemma ReportedByTail(checks: seq<Check>, s: string, m: string)
    requires |checks| > 0 && ReportedBy(checks[1..], s, m)
    ensures ReportedBy(checks, s, m)
  {
    var i :| 0 <= i < |checks[1..]| && !Passes(checks[1..][i], s) && checks[1..][i].message == m;
    assert checks[i + 1] == checks[1..][i];
  }

  // ------------------------------------------------------------------ schema

  /** How one field is declared. */
  datatype FieldSchema =
    | StringField(checks: seq<Check>)                  // required string with checks
    | OptionalStringField(refinements: seq<Check>)     // optional string, each refinement guarded by `!val ||`
    | DateField(checks: seq<Check>, dateMessage: string) // required string with checks, then the date refinement
    | EnumField(options: seq<string>, enumMessage: string) // enumeration with one message for every failure

  datatype FieldRule = FieldRule(name: string, schema: FieldSchema)

  /** The schema library's message for a missing required key. */
  const RequiredMessage := "Required"

  const FirstNameRule := FieldRule("firstName", StringField([
    MinLength(1, "First name is required"),
    MinLength(2, "First name must be at least 2 characters"),
    MaxLength(50, "First name must be less than 50 characters"),
    Regex(OneOrMore(LettersSpaces), "First name can only contain letters and spaces")]))

  const MiddleNameRule := FieldRule("middleName", OptionalStringField([
    MinLength(1, "Middle name must be at least 1 character if provided"),
    MaxLength(50, "Middle name must be less than 50 characters"),
    Regex(OneOrMore(LettersSpaces), "Middle name can only contain letters and spaces")]))

  const LastNameRule := FieldRule("lastName", StringField([
    MinLength(1, "Last name is required"),
    MinLength(2, "Last name must be at least 2 characters"),
    MaxLength(50, "Last name must be less than 50 characters"),
    Regex(OneOrMore(LettersSpaces), "Last name can only contain letters and spaces")]))

  const DateOfBirthRule := FieldRule("dateOfBirth", DateField(
    [MinLength(1, "Date of birth is required")],
    "Please enter a valid date of birth (must be earlier than today and age must be between 0 and 120)"))

  const StatusRule := FieldRule("status", EnumField(
    ["Inquiry", "Onboarding", "Active", "Churned"],
    "Please select a valid status"))

  const StreetRule := FieldRule("street", StringField([
    MinLength(1, "Street address is required"),
    MinLength(5, "Street address must be at least 5 characters"),
    MaxLength(100, "Street address must be less than 100 characters"),
    Regex(OneOrMore(LettersDigitsSpaces), "Street address can only contain letters, numbers, and spaces")]))

  const CityRule := FieldRule("city", StringField([
    MinLength(1, "City is required"),
    MinLength(2, "City must be at least 2 characters"),
    MaxLength(50, "City must be less than 50 characters"),
    Regex(OneOrMore(LettersSpaces), "City can only contain letters and spaces")]))

  const StateRule := FieldRule("state", StringField([
    MinLength(1, "State is required"),
    ExactLength(2, "State must be exactly 2 characters"),
    Regex(Exactly(Uppercase, 2), "State must be a valid 2-letter state code")]))

  const ZipCodeRule := FieldRule("zipCode", StringField([
    MinLength(1, "ZIP code is required"),
    Regex(ZipCode, "ZIP code must be in format 12345 or 12345-6789")]))

  /** `createPatientSchema`, in declaration order. */
  const Schema: seq<FieldRule> := [
    FirstNameRule, MiddleNameRule, LastNameRule, DateOfBirthRule, StatusRule,
    StreetRule, CityRule, StateRule, ZipCodeRule]

  /** The date refinement: a valid date, strictly before today's midnight, at most 120 calendar years back. */
  predicate BirthDateAccepted(s: string, today: Instant, parse: DateParser) {
    var d := parse(s);
    d.Some? && d.value.stamp < today.stamp && today.year - d.value.year <= 120
  }

  /** The messages one field reports for the value `v` (`None`: the key is missing). */
  function FieldMessages(schema: FieldSchema, v: Option<string>, today: Instant, parse: DateParser): seq<string> {
    match schema
    case StringField(checks) =>
      if v.None? then [RequiredMessage] else FailedMessages(checks, v.value)
    case OptionalStringField(refinements) =>
      if v.None? || v.value == "" then [] else FailedMessages(refinements, v.value)
    case DateField(checks, dateMessage) =>
      if v.None? then [RequiredMessage]
      else FailedMessages(checks, v.value) + (if BirthDateAccepted(v.value, today, parse) then [] else [dateMessage])
    case EnumField(options, enumMessage) =>
      if v.Some? && v.value in options then [] else [enumMessage]
  }

  /** A validation issue: the path of the offending field and a message. */
  datatype Issue = Issue(path: seq<string>, message: string)

  /** The issues one field contributes: one per reported message, under the field's name. */
  function FieldIssues(rule: FieldRule, c: Candidate, today: Instant, parse: DateParser): seq<Issue> {
    var ms := FieldMessages(rule.schema, Lookup(c, rule.name), today, parse);
    seq(|ms|, i requires 0 <= i < |ms| => Issue([rule.name], ms[i]))
  }

  /** A field's issues all carry its name and one of its messages, and there are some iff it reports any. */
  lemma FieldIssuesNamed(rule: FieldRule, c: Candidate, today: Instant, parse: DateParser)
    ensures FieldIssues(rule, c, today, parse) == [] <==> FieldMessages(rule.schema, Lookup(c, rule.name), today, parse) == []
    ensures forall e :: e in FieldIssues(rule, c, today, parse) ==>
      e.path == [rule.name] && e.message in FieldMessages(rule.schema, Lookup(c, rule.name), today, parse)
  {
    var r := FieldIssues(rule, c, today, parse);
    forall e | e in r
      ensures e.path == [rule.name] && e.message in FieldMessages(rule.schema, Lookup(c, rule.name), today, parse)
    {
      var k :| 0 <= k < |r| && r[k] == e;
    }
  }

  /** Every rule's issues, rule after rule. */
  function SchemaIssues(rules: seq<FieldRule>, c: Candidate, today: Instant, parse: DateParser): seq<Issue> {
    if rules == [] then [] else FieldIssues(rules[0], c, today, parse) + SchemaIssues(rules[1..], c, today, parse)
  }

  // ------------------------------------------------------ the rule table

  /** A required string of `lo` to `hi` characters, all in class `k`. */
  predicate Bounded(v: Option<string>, lo: nat, hi: nat, k: CharClass) {
    v.Some? && lo <= |v.value| <= hi && AllIn(v.value, k)
  }

  predicate MiddleNameOk(v: Option<string>) {
    v.None? || v.value == "" || (|v.value| <= 50 && AllIn(v.value, LettersSpaces))
  }

  predicate DateOfBirthOk(v: Option<string>, today: Instant, parse: DateParser) {
    v.Some? && v.value != "" && BirthDateAccepted(v.value, today, parse)
  }

  predicate StatusOk(v: Option<string>) {
    v.Some? && ParseStatus(v.value).Some?
  }

  predicate StateCodeOk(v: Option<string>) {
    v.Some? && |v.value| == 2 && AllIn(v.value, Uppercase)
  }

  predicate ZipCodeOk(v: Option<string>) {
    v.Some? && ZipShape(v.value)
  }

  /** The field rules written as plain predicates, one field at a time. */
  predicate FieldAcceptable(name: string, v: Option<string>, today: Instant, parse: DateParser) {
    if name == "firstName" || name == "lastName" || name == "city" then Bounded(v, 2, 50, LettersSpaces)
    else if name == "middleName" then MiddleNameOk(v)
    else if name == "dateOfBirth" then DateOfBirthOk(v, today, parse)
    else if name == "status" then StatusOk(v)
    else if name == "street" then Bounded(v, 5, 100, LettersDigitsSpaces)
    else if name == "state" then StateCodeOk(v)
    else if name == "zipCode" then ZipCodeOk(v)
    else true
  }

  /** Every field of the candidate follows its rule. */
  predicate Acceptable(c: Candidate, today: Instant, parse: DateParser) {
    forall i :: 0 <= i < |Schema| ==> FieldAcceptable(Schema[i].name, Lookup(c, Schema[i].name), today, parse)
  }

  /** The names of the fields that break their rule. */
  ghost function FailingFields(c: Candidate, today: Instant, parse: DateParser): set<string> {
    set r | r in Schema && !FieldAcceptable(r.name, Lookup(c, r.name), today, parse) :: r.name
  }

  /** The schema's field names, in order. */
  const FieldNames: seq<string> := [
    "firstName", "middleName", "lastName", "dateOfBirth", "status", "street", "city", "state", "zipCode"]

  lemma SchemaNames()
    ensures |Schema| == |FieldNames|
    ensures forall i :: 0 <= i < |Schema| ==> Schema[i].name == FieldNames[i]
  {
  }

  /** Acceptance read field name by field name. */
  lemma AcceptableByName(c: Candidate, today: Instant, parse: DateParser)
    ensures Acceptable(c, today, parse) <==>
      forall n :: n in FieldNames ==> FieldAcceptable(n, Lookup(c, n), today, parse)
  {
    SchemaNames();
    if Acceptable(c, today, parse) {
      forall n | n in FieldNames ensures FieldAcceptable(n, Lookup(c, n), today, parse) {
        var i :| 0 <= i < |FieldNames| && FieldNames[i] == n;
        assert Schema[i].name == n;
      }
    }
  }

  /** The failing fields read field name by field name. */
  lemma FailingFieldsByName(c: Candidate, today: Instant, parse: DateParser)
    ensures forall n :: n in FailingFields(c, today, parse) <==>
      n in FieldNames && !FieldAcceptable(n, Lookup(c, n), today, parse)
  {
    SchemaNames();
    forall n ensures n in FailingFields(c, today, parse) <==>
      n in FieldNames && !FieldAcceptable(n, Lookup(c, n), today, parse)
    {
      if n in FailingFields(c, today, parse) {
        var r :| r in Schema && !FieldAcceptable(r.name, Lookup(c, r.name), today, parse) && r.name == n;
        var i :| 0 <= i < |Schema| && Schema[i] == r;
        assert FieldNames[i] == n;
      }
      if n in FieldNames && !FieldAcceptable(n, Lookup(c, n), today, parse) {
        var i :| 0 <= i < |FieldNames| && FieldNames[i] == n;
        assert Schema[i] in Schema && Schema[i].name == n;
      }
    }
  }

  // ------------------------------------- the schema against the rule table

  /** A name-like field: required, `lo` to `hi` characters of one class. */
  lemma BoundedStringRule(m1: string, m2: string, m3: string, m4: string, lo: nat, hi: nat, k: CharClass,
                          v: Option<string>, today: Instant, parse: DateParser)
    requires lo >= 1
    ensures FieldMessages(StringField([MinLength(1, m1), MinLength(lo, m2), MaxLength(hi, m3), Regex(OneOrMore(k), m4)]), v, today, parse) == []
            <==> Bounded(v, lo, hi, k)
  {
    if v.Some? {
      var checks := [MinLength(1, m1), MinLength(lo, m2), MaxLength(hi, m3), Regex(OneOrMore(k), m4)];
      MatchPlusIff(v.value, k);
      assert (forall i :: 0 <= i < |checks| ==> Passes(checks[i], v.value))
             <==> Passes(checks[0], v.value) && Passes(checks[1], v.value) && Passes(checks[2], v.value) && Passes(checks[3], v.value);
    }
  }

  lemma MiddleNameRuleIff(v: Option<string>, today: Instant, parse: DateParser)
    ensures FieldMessages(MiddleNameRule.schema, v, today, parse) == [] <==> MiddleNameOk(v)
  {
    if v.Some? && v.value != "" {
      var checks := MiddleNameRule.schema.refinements;
      MatchPlusIff(v.value, LettersSpaces);
      assert (forall i :: 0 <= i < |checks| ==> Passes(checks[i], v.value))
             <==> Passes(checks[0], v.value) && Passes(checks[1], v.value) && Passes(checks[2], v.value);
    }
  }

  lemma DateOfBirthRuleIff(v: Option<string>, today: Instant, parse: DateParser)
    ensures FieldMessages(DateOfBirthRule.schema, v, today, parse) == [] <==> DateOfBirthOk(v, today, parse)
  {
    if v.Some? {
      var checks := DateOfBirthRule.schema.checks;
      assert (forall i :: 0 <= i < |checks| ==> Passes(checks[i], v.value)) <==> Passes(checks[0], v.value);
    }
  }

  lemma StatusRuleIff(v: Option<string>, today: Instant, parse: DateParser)
    ensures FieldMessages(StatusRule.schema, v, today, parse) == [] <==> StatusOk(v)
  {
    if v.Some? {
      var options := StatusRule.schema.options;
      assert v.value in options <==> v.value == options[0] || v.value == options[1] || v.value == options[2] || v.value == options[3];
    }
  }

  lemma StateRuleIff(v: Option<string>, today: Instant, parse: DateParser)
    ensures FieldMessages(StateRule.schema, v, today, parse) == [] <==> StateCodeOk(v)
  {
    if v.Some? {
      var checks := StateRule.schema.checks;
      MatchCountIff(v.value, Uppercase, 2);
      assert (forall i :: 0 <= i < |checks| ==> Passes(checks[i], v.value))
             <==> Passes(checks[0], v.value) && Passes(checks[1], v.value) && Passes(checks[2], v.value);
    }
  }

  lemma ZipCodeRuleIff(v: Option<string>, today: Instant, parse: DateParser)
    ensures FieldMessages(ZipCodeRule.schema, v, today, parse) == [] <==> ZipCodeOk(v)
  {
    if v.Some? {
      var checks := ZipCodeRule.schema.checks;
      ZipPatternIff(v.value);
      assert (forall i :: 0 <= i < |checks| ==> Passes(checks[i], v.value))
             <==> Passes(checks[0], v.value) && Passes(checks[1], v.value);
    }
  }

  /** Each declared field reports nothing exactly when the value follows the rule table. */
  lemma FieldRuleIff(i: nat, v: Option<string>, today: Instant, parse: DateParser)
    requires i < |Schema|
    ensures FieldMessages(Schema[i].schema, v, today, parse) == [] <==> FieldAcceptable(Schema[i].name, v, today, parse)
  {
    if i < 4 {
      PersonRuleIff(i, v, today, parse);
    } else if i == 4 {
      StatusRuleIff(v, today, parse);
    } else if i < 7 {
      StreetAndCityRuleIff(i, v, today, parse);
    } else {
      StateAndZipRuleIff(i, v, today, parse);
    }
  }

  lemma PersonRuleIff(i: nat, v: Option<string>, today: Instant, parse: DateParser)
    requires i < 4
    ensures FieldMessages(Schema[i].schema, v, today, parse) == [] <==> FieldAcceptable(Schema[i].name, v, today, parse)
  {
    if i == 0 {
      BoundedStringRule("First name is required", "First name must be at least 2 characters",
        "First name must be less than 50 characters", "First name can only contain letters and spaces",
        2, 50, LettersSpaces, v, today, parse);
    } else if i == 1 {
      MiddleNameRuleIff(v, today, parse);
    } else if i == 2 {
      BoundedStringRule("Last name is required", "Last name must be at least 2 characters",
        "Last name must be less than 50 characters", "Last name can only contain letters and spaces",
        2, 50, LettersSpaces, v, today, parse);
    } else {
      DateOfBirthRuleIff(v, today, parse);
    }
  }

  lemma StreetAndCityRuleIff(i: nat, v: Option<string>, today: Instant, parse: DateParser)
    requires 5 <= i < 7
    ensures FieldMessages(Schema[i].schema, v, today, parse) == [] <==> FieldAcceptable(Schema[i].name, v, today, parse)
  {
    if i == 5 {
      BoundedStringRule("Street address is required", "Street address must be at least 5 characters",
        "Street address must be less than 100 characters", "Street address can only contain letters, numbers, and spaces",
        5, 100, LettersDigitsSpaces, v, today, parse);
    } else {
      BoundedStringRule("City is required", "City must be at least 2 characters",
        "City must be less than 50 characters", "City can only contain letters and spaces",
        2, 50, LettersSpaces, v, today, parse);
    }
  }

  lemma StateAndZipRuleIff(i: nat, v: Option<string>, today: Instant, parse: DateParser)
    requires 7 <= i < |Schema|
    ensures FieldMessages(Schema[i].schema, v, today, parse) == [] <==> FieldAcceptable(Schema[i].name, v, today, parse)
  {
    if i == 7 {
      StateRuleIff(v, today, parse);
    } else {
      ZipCodeRuleIff(v, today, parse);
    }
  }

  /** The rule reports at least one message for the candidate's value. */
  predicate RuleFails(r: FieldRule, c: Candidate, today: Instant, parse: DateParser) {
    FieldMessages(r.schema, Lookup(c, r.name), today, parse) != []
  }

  lemma {:induction false} SchemaIssuesEmptyIff(rules: seq<FieldRule>, c: Candidate, today: Instant, parse: DateParser)
    ensures SchemaIssues(rules, c, today, parse) == [] <==> forall r :: r in rules ==> !RuleFails(r, c, today, parse)
  {
    if rules != [] {
      SchemaIssuesEmptyIff(rules[1..], c, today, parse);
      FieldIssuesNamed(rules[0], c, today, parse);
      var head := FieldIssues(rules[0], c, today, parse);
      var tail := SchemaIssues(rules[1..], c, today, parse);
      assert head + tail == [] <==> head == [] && tail == [];
      assert head == [] <==> !RuleFails(rules[0], c, today, parse);
      assert forall r :: r in rules <==> r == rules[0] || r in rules[1..];
    }
  }

  /** Every issue carries the name of a rule that fails as its path. */
  lemma {:induction false} IssuesComeFromFailingRules(rules: seq<FieldRule>, c: Candidate, today: Instant, parse: DateParser)
    ensures forall e :: e in SchemaIssues(rules, c, today, parse) ==>
            exists r :: r in rules && e.path == [r.name] && RuleFails(r, c, today, parse)
  {
    if rules != [] {
      IssuesComeFromFailingRules(rules[1..], c, today, parse);
      FieldIssuesNamed(rules[0], c, today, parse);
      var head := FieldIssues(rules[0], c, today, parse);
      forall e | e in head ensures e.path == [rules[0].name] && RuleFails(rules[0], c, today, parse) {
        var k :| 0 <= k < |head| && head[k] == e;
      }
    }
  }

  /** Every rule that fails contributes an issue whose path is its name. */
  lemma {:induction false} FailingRulesReported(rules: seq<FieldRule>, c: Candidate, today: Instant, parse: DateParser)
    ensures forall r :: r in rules && RuleFails(r, c, today, parse) ==>
            exists e :: e in SchemaIssues(rules, c, today, parse) && e.path == [r.name]
  {
    if rules != [] {
      FailingRulesReported(rules[1..], c, today, parse);
      FieldIssuesNamed(rules[0], c, today, parse);
      var head := FieldIssues(rules[0], c, today, parse);
      var tail := SchemaIssues(rules[1..], c, today, parse);
      if RuleFails(rules[0], c, today, parse) {
        assert head[0] in head + tail;
      }
      forall r | r in rules[1..] && RuleFails(r, c, today, parse)
        ensures exists e :: e in head + tail && e.path == [r.name]
      {
        var e :| e in tail && e.path == [r.name];
        assert e in head + tail;
      }
    }
  }

  lemma SchemaRulesIff(c: Candidate, today: Instant, parse: DateParser)
    ensures forall r :: r in Schema ==>
            (RuleFails(r, c, today, parse) <==> !FieldAcceptable(r.name, Lookup(c, r.name), today, parse))
  {
    forall i | 0 <= i < |Schema| {
      FieldRuleIff(i, Lookup(c, Schema[i].name), today, parse);
    }
  }

  /** The schema reports nothing exactly when the candidate follows the rule table. */
  lemma NoIssuesIffAcceptable(c: Candidate, today: Instant, parse: DateParser)
    ensures SchemaIssues(Schema, c, today, parse) == [] <==> Acceptable(c, today, parse)
  {
    SchemaIssuesEmptyIff(Schema, c, today, parse);
    SchemaRulesIff(c, today, parse);
  }

  /**
   * Issues name exactly the failing fields: every issue's path is a single
   * field name that breaks its rule, and every field that breaks its rule
   * has an issue with its name as the path.
   */
  lemma IssuesNameFailingFields(c: Candidate, today: Instant, parse: DateParser)
    ensures forall e :: e in SchemaIssues(Schema, c, today, parse) ==>
            |e.path| == 1 && e.path[0] in FailingFields(c, today, parse)
    ensures forall f :: f in FailingFields(c, today, parse) ==>
            exists e :: e in SchemaIssues(Schema, c, today, parse) && e.path == [f]
  {
    var issues := SchemaIssues(Schema, c, today, parse);
    var failing := FailingFields(c, today, parse);
    SchemaRulesIff(c, today, parse);
    forall e | e in issues ensures |e.path| == 1 && e.path[0] in failing {
      IssuesComeFromFailingRules(Schema, c, today, parse);
      var r :| r in Schema && e.path == [r.name] && RuleFails(r, c, today, parse);
    }
    forall f | f in failing ensures exists e :: e in issues && e.path == [f] {
      FailingRulesReported(Schema, c, today, parse);
      var r :| r in Schema && !FieldAcceptable(r.name, Lookup(c, r.name), today, parse) && r.name == f;
    }
  }

  predicate MessagesNonEmpty(checks: seq<Check>) {
    forall i :: 0 <= i < |checks| ==> checks[i].message != ""
  }

  predicate SchemaMessagesNonEmpty(fs: FieldSchema) {
    match fs
    case StringField(checks) => MessagesNonEmpty(checks)
    case OptionalStringField(refinements) => MessagesNonEmpty(refinements)
    case DateField(checks, dateMessage) => MessagesNonEmpty(checks) && dateMessage != ""
    case EnumField(_, enumMessage) => enumMessage != ""
  }

  lemma FieldMessagesNonEmpty(fs: FieldSchema, v: Option<string>, today: Instant, parse: DateParser)
    requires SchemaMessagesNonEmpty(fs)
    ensures forall m :: m in FieldMessages(fs, v, today, parse) ==> m != ""
  {
    if v.Some? && (fs.StringField? || fs.OptionalStringField? || fs.DateField?) {
      FailedMessagesNonEmpty(if fs.OptionalStringField? then fs.refinements else fs.checks, v.value);
    }
  }

  lemma FailedMessagesNonEmpty(checks: seq<Check>, s: string)
    requires MessagesNonEmpty(checks)
    ensures forall m :: m in FailedMessages(checks, s) ==> m != ""
  {
    var fails := FailedMessages(checks, s);
    forall m | m in fails ensures m != "" {
      var k :| 0 <= k < |fails| && fails[k] == m;
    }
  }

  /** Every message the schema can report is non-empty. */
  lemma {:induction false} IssueMessagesNonEmpty(rules: seq<FieldRule>, c: Candidate, today: Instant, parse: DateParser)
    requires forall r :: r in rules ==> SchemaMessagesNonEmpty(r.schema)
    ensures forall e :: e in SchemaIssues(rules, c, today, parse) ==> e.message != ""
  {
    if rules != [] {
      IssueMessagesNonEmpty(rules[1..], c, today, parse);
      FieldIssuesNamed(rules[0], c, today, parse);
      FieldMessagesNonEmpty(rules[0].schema, Lookup(c, rules[0].name), today, parse);
      var head := FieldIssues(rules[0], c, today, parse);
      forall e | e in head ensures e.message != "" {
        var k :| 0 <= k < |head| && head[k] == e;
      }
    }
  }

  lemma SchemaMessagesAllNonEmpty()
    ensures forall r :: r in Schema ==> SchemaMessagesNonEmpty(r.schema)
  {
    PersonMessagesNonEmpty();
    AddressMessagesNonEmpty();
  }

  lemma PersonMessagesNonEmpty()
    ensures SchemaMessagesNonEmpty(FirstNameRule.schema) && SchemaMessagesNonEmpty(MiddleNameRule.schema)
    ensures SchemaMessagesNonEmpty(LastNameRule.schema) && SchemaMessagesNonEmpty(DateOfBirthRule.schema)
    ensures SchemaMessagesNonEmpty(StatusRule.schema)
  {
  }

  lemma AddressMessagesNonEmpty()
    ensures SchemaMessagesNonEmpty(StreetRule.schema) && SchemaMessagesNonEmpty(CityRule.schema)
    ensures SchemaMessagesNonEmpty(StateRule.schema) && SchemaMessagesNonEmpty(ZipCodeRule.schema)
  {
  }

  // --------------------------------------------------------------- results

  /** The outcome of the safe parse: the typed record, or the issues. */
  datatype SafeParseResult = Success(data: CreatePatientRequest) | Failure(issues: seq<Issue>)

  function StringAt(c: Candidate, key: string): string {
    Lookup(c, key).GetOr("")
  }

  /** The typed record a passing candidate denotes. */
  function RequestFrom(c: Candidate): CreatePatientRequest {
    CreatePatientRequest(
      StringAt(c, "firstName"), Lookup(c, "middleName"), StringAt(c, "lastName"), StringAt(c, "dateOfBirth"),
      ParseStatus(StringAt(c, "status")).GetOr(Inquiry),
      StringAt(c, "street"), StringAt(c, "city"), StringAt(c, "state"), StringAt(c, "zipCode"))
  }

  /** An accepted candidate holds every required key, and its status names a status. */
  lemma AcceptedFieldsPresent(c: Candidate, today: Instant, parse: DateParser)
    requires Acceptable(c, today, parse)
    ensures "firstName" in c && "lastName" in c && "dateOfBirth" in c && "status" in c
    ensures "street" in c && "city" in c && "state" in c && "zipCode" in c
    ensures ParseStatus(c["status"]).Some?
  {
    assert FieldAcceptable(Schema[0].name, Lookup(c, Schema[0].name), today, parse);
    assert FieldAcceptable(Schema[2].name, Lookup(c, Schema[2].name), today, parse);
    assert FieldAcceptable(Schema[3].name, Lookup(c, Schema[3].name), today, parse);
    assert FieldAcceptable(Schema[4].name, Lookup(c, Schema[4].name), today, parse);
    assert FieldAcceptable(Schema[5].name, Lookup(c, Schema[5].name), today, parse);
    assert FieldAcceptable(Schema[6].name, Lookup(c, Schema[6].name), today, parse);
    assert FieldAcceptable(Schema[7].name, Lookup(c, Schema[7].name), today, parse);
    assert FieldAcceptable(Schema[8].name, Lookup(c, Schema[8].name), today, parse);
  }

  /**
   * `validatePatientDataSafe`: never fails to return. It succeeds exactly
   * when every field follows its rule, and then carries the candidate's own
   * values with the status read as a status; otherwise it carries at least
   * one issue.
   */
  function SafeParse(c: Candidate, today: Instant, parse: DateParser): (r: SafeParseResult)
    ensures r.Success? <==> Acceptable(c, today, parse)
    ensures r.Failure? ==> r.issues == SchemaIssues(Schema, c, today, parse) && |r.issues| > 0
    ensures r.Success? ==>
      && "firstName" in c && r.data.firstName == c["firstName"]
      && r.data.middleName == Lookup(c, "middleName")
      && "lastName" in c && r.data.lastName == c["lastName"]
      && "dateOfBirth" in c && r.data.dateOfBirth == c["dateOfBirth"]
      && "status" in c && StatusName(r.data.status) == c["status"]
      && "street" in c && r.data.street == c["street"]
      && "city" in c && r.data.city == c["city"]
      && "state" in c && r.data.state == c["state"]
      && "zipCode" in c && r.data.zipCode == c["zipCode"]
  {
    var issues := SchemaIssues(Schema, c, today, parse);
    NoIssuesIffAcceptable(c, today, parse);
    if issues == [] then
      AcceptedFieldsPresent(c, today, parse);
      Success(RequestFrom(c))
    else
      Failure(issues)
  }

  // -------------------------------------------------------------- examples

  /** The length bound of the name rules is inclusive: fifty letters pass although the message says "less than 50". */
  lemma FiftyLetterFirstNamePasses(s: string, today: Instant, parse: DateParser)
    requires |s| == 50 && forall i :: 0 <= i < |s| ==> IsAsciiLetter(s[i])
    ensures FieldMessages(FirstNameRule.schema, Some(s), today, parse) == []
  {
    FieldRuleIff(0, Some(s), today, parse);
  }

  /** An absent or empty middle name always passes. */
  lemma MissingMiddleNamePasses(today: Instant, parse: DateParser)
    ensures FieldMessages(MiddleNameRule.schema, None, today, parse) == []
    ensures FieldMessages(MiddleNameRule.schema, Some(""), today, parse) == []
  {
  }

  /** The middle name's "at least 1 character" refinement can never fail: its guard already admits every empty value. */
  lemma MiddleNameMinimumNeverFails(s: string)
    ensures s == "" || Passes(MiddleNameRule.schema.refinements[0], s)
  {
  }

  lemma StateExamples(today: Instant, parse: DateParser)
    ensures FieldMessages(StateRule.schema, Some("NY"), today, parse) == []
    ensures FieldMessages(StateRule.schema, Some("ny"), today, parse) != []
  {
    assert StateCodeOk(Some("NY")) by {
      assert AllIn("NY", Uppercase);
    }
    StateRuleIff(Some("NY"), today, parse);
    LowerCaseStateFails(today, parse);
  }

  lemma LowerCaseStateFails(today: Instant, parse: DateParser)
    ensures FieldMessages(StateRule.schema, Some("ny"), today, parse) != []
  {
    StateRuleIff(Some("ny"), today, parse);
    assert !InClass("ny"[0], Uppercase);
  }

  lemma ZipCodeExamples(today: Instant, parse: DateParser)
    ensures FieldMessages(ZipCodeRule.schema, Some("10001"), today, parse) == []
    ensures FieldMessages(ZipCodeRule.schema, Some("1000"), today, parse) != []
  {
    ZipCodeRuleIff(Some("10001"), today, parse);
    ZipCodeRuleIff(Some("1000"), today, parse);
  }

  lemma ZipPlusFourExample(today: Instant, parse: DateParser)
    ensures FieldMessages(ZipCodeRule.schema, Some("10001-1234"), today, parse) == []
  {
    ZipCodeRuleIff(Some("10001-1234"), today, parse);
    assert ZipShape("10001-1234") by {
      var s := "10001-1234";
      assert s[..5] == "10001" && s[6..] == "1234";
      assert AllIn("10001", Digits);
      assert AllIn("1234", Digits);
    }
  }

  /** A date of birth on or after today's midnight is refused, and so is one more than 120 calendar years back. */
  lemma BirthDateBounds(s: string, today: Instant, parse: DateParser)
    requires parse(s).Some?
    requires parse(s).value.stamp >= today.stamp || today.year - parse(s).value.year > 120
    ensures FieldMessages(DateOfBirthRule.schema, Some(s), today, parse) != []
  {
    DateOfBirthRuleIff(Some(s), today, parse);
  }
}
