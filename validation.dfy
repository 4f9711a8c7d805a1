/**
 * validateCompleteForm: four presence checks, run in a fixed order and never
 * short-circuited, each adding at most one error for its own field.
 */
module Validation {
  import opened Wrappers
  import opened Text
  import opened Payload

  datatype ValidationError = ValidationError(field: string, message: string)

  /** The checked fields. */
  datatype Field = Name | Occupation | Timezone | Age

  /** The checked fields, in the order the checks run. */
  const RequiredFields: seq<Field> := [Name, Occupation, Timezone, Age]

  const MinimumAge: int := 13

  /** The `field` string reported for each checked field. */
  function FieldName(f: Field): string {
    match f
    case Name => "name"
    case Occupation => "occupation"
    case Timezone => "timezone"
    case Age => "age"
  }

  /** The message reported with each field's error. */
  function MessageFor(f: Field): string {
    match f
    case Name => "Name is required"
    case Occupation => "Occupation is required"
    case Timezone => "Timezone is required"
    case Age => "Valid age is required"
  }

  /** Position of a field in RequiredFields. */
  function Rank(f: Field): nat {
    match f
    case Name => 0
    case Occupation => 1
    case Timezone => 2
    case Age => 3
  }

  /** `!data.age || data.age < 13` fails for an acceptable age: present, non-zero and at least 13. */
  predicate AgeAcceptable(age: Option<int>) {
    age.Some? && age.value != 0 && !(age.value < MinimumAge)
  }

  /** Whether the check for f fails on data (JavaScript truthiness, no trimming). */
  predicate Missing(data: Submission, f: Field) {
    match f
    case Name => !Truthy(data.name)
    case Occupation => !Truthy(data.occupation)
    case Timezone => !Truthy(data.timezone)
    case Age => !AgeAcceptable(data.age)
  }

  /** The members of `fields` whose check fails on data, in their order in `fields`. */
  function MissingFields(data: Submission, fields: seq<Field>): (r: seq<Field>)
    ensures |r| <= |fields|
    ensures forall f :: f in r <==> f in fields && Missing(data, f)
  {
    if fields == [] then []
    else (if Missing(data, fields[0]) then [fields[0]] else []) + MissingFields(data, fields[1..])
  }

  /** The error validateCompleteForm reports for a failed check of f. */
  function ErrorFor(f: Field): ValidationError {
    ValidationError(FieldName(f), MessageFor(f))
  }

  /** One error per field, carrying that field's message. */
  function ErrorsFor(fields: seq<Field>): (r: seq<ValidationError>)
    ensures |r| == |fields|
    ensures forall i :: 0 <= i < |r| ==> r[i] == ErrorFor(fields[i])
  {
    if fields == [] then [] else [ErrorFor(fields[0])] + ErrorsFor(fields[1..])
  }

  /** The reference definition of the validator: one error for each failing check, in check order. */
  function ExpectedErrors(data: Submission): seq<ValidationError> {
    ErrorsFor(MissingFields(data, RequiredFields))
  }

  /** validateCompleteForm: a fresh list filled by successive appends; data is a value and is not changed. */
  method ValidateCompleteForm(data: Submission) returns (errors: seq<ValidationError>)
    ensures errors == ExpectedErrors(data)
    ensures |errors| <= |RequiredFields|
  {
    var n := if Missing(data, Name) then [Name] else [];
    var o := if Missing(data, Occupation) then [Occupation] else [];
    var t := if Missing(data, Timezone) then [Timezone] else [];
    var a := if Missing(data, Age) then [Age] else [];
    errors := [];
    if !Truthy(data.name) {
      errors := errors + [ValidationError("name", "Name is required")];
    }
    assert errors == ErrorsFor(n);
    if !Truthy(data.occupation) {
      errors := errors + [ValidationError("occupation", "Occupation is required")];
    }
    ErrorsForAppend(n, o);
    assert errors == ErrorsFor(n + o);
    if !Truthy(data.timezone) {
      errors := errors + [ValidationError("timezone", "Timezone is required")];
    }
    ErrorsForAppend(n + o, t);
    assert errors == ErrorsFor(n + o + t);
    if !data.age.Some? || data.age.value == 0 || data.age.value < 13 {
      errors := errors + [ValidationError("age", "Valid age is required")];
    }
    ErrorsForAppend(n + o + t, a);
    assert ErrorsFor(a) == if Missing(data, Age) then [ErrorFor(Age)] else [];
    assert errors == ErrorsFor(n + o + t + a);
    Regroup(n, o, t, a);
    MissingRequiredFields(data);
  }

  /** The failing checks of data, written out check by check. */
  lemma MissingRequiredFields(data: Submission)
    ensures MissingFields(data, RequiredFields) ==
      (if Missing(data, Name) then [Name] else []) +
      ((if Missing(data, Occupation) then [Occupation] else []) +
      ((if Missing(data, Timezone) then [Timezone] else []) +
      (if Missing(data, Age) then [Age] else [])))
  {
    var fs := RequiredFields;
    var n := if Missing(data, Name) then [Name] else [];
    var o := if Missing(data, Occupation) then [Occupation] else [];
    var t := if Missing(data, Timezone) then [Timezone] else [];
    var a := if Missing(data, Age) then [Age] else [];
    assert fs[1..] == [Occupation, Timezone, Age];
    assert fs[1..][1..] == [Timezone, Age];
    assert fs[1..][1..][1..] == [Age];
    assert MissingFields(data, [Age]) == a;
    assert MissingFields(data, [Timezone, Age]) == t + a;
    assert MissingFields(data, [Occupation, Timezone, Age]) == o + (t + a);
  }

  lemma {:induction false} ErrorsForAppend(a: seq<Field>, b: seq<Field>)
    ensures ErrorsFor(a + b) == ErrorsFor(a) + ErrorsFor(b)
  {
    if a != [] {
      assert (a + b)[1..] == a[1..] + b;
      ErrorsForAppend(a[1..], b);
    }
  }

  lemma Regroup<T>(n: seq<T>, o: seq<T>, t: seq<T>, a: seq<T>)
    ensures n + o + t + a == n + (o + (t + a))
  {
  }

  /** Position of a reported field name in the check order; names that are not checked come last. */
  function FieldRank(name: string): nat {
    if name == "name" then 0
    else if name == "occupation" then 1
    else if name == "timezone" then 2
    else if name == "age" then 3
    else 4
  }

  /** Fields listed in strictly increasing check order. */
  predicate StrictlyRanked(fs: seq<Field>) {
    forall i, j :: 0 <= i < j < |fs| ==> Rank(fs[i]) < Rank(fs[j])
  }

  lemma {:induction false} MissingFieldsRanked(data: Submission, fs: seq<Field>)
    requires StrictlyRanked(fs)
    ensures StrictlyRanked(MissingFields(data, fs))
  {
    if fs != [] {
      var rest := MissingFields(data, fs[1..]);
      MissingFieldsRanked(data, fs[1..]);
      forall f | f in rest ensures Rank(fs[0]) < Rank(f) {
        var k :| 1 <= k < |fs| && fs[k] == f;
      }
    }
  }

  lemma ErrorForInjective(f: Field, g: Field)
    ensures ErrorFor(f) == ErrorFor(g) <==> f == g
    ensures FieldRank(ErrorFor(f).field) == Rank(f)
  {
    assert FieldName(f)[0] == match f case Name => 'n' case Occupation => 'o' case Timezone => 't' case Age => 'a';
    assert FieldName(g)[0] == match g case Name => 'n' case Occupation => 'o' case Timezone => 't' case Age => 'a';
  }

  /**
   * The error list never holds more than four errors, and its field names are
   * strictly in check order (name, occupation, timezone, age), so no field is
   * reported twice.
   */
  lemma ErrorsInCheckOrder(data: Submission)
    ensures |ExpectedErrors(data)| <= 4
    ensures forall i, j :: 0 <= i < j < |ExpectedErrors(data)| ==>
      FieldRank(ExpectedErrors(data)[i].field) < FieldRank(ExpectedErrors(data)[j].field)
    ensures forall i, j :: 0 <= i < j < |ExpectedErrors(data)| ==>
      ExpectedErrors(data)[i].field != ExpectedErrors(data)[j].field
  {
    var ms := MissingFields(data, RequiredFields);
    MissingFieldsRanked(data, RequiredFields);
    forall i | 0 <= i < |ms| ensures FieldRank(ExpectedErrors(data)[i].field) == Rank(ms[i]) {
      ErrorForInjective(ms[i], ms[i]);
    }
  }

  /** A field's error is in the list exactly when its check fails. */
  lemma FieldReported(data: Submission, f: Field)
    ensures ErrorFor(f) in ExpectedErrors(data) <==> Missing(data, f)
  {
    var ms := MissingFields(data, RequiredFields);
    if ErrorFor(f) in ExpectedErrors(data) {
      var i :| 0 <= i < |ms| && ExpectedErrors(data)[i] == ErrorFor(f);
      ErrorForInjective(ms[i], f);
    }
    if Missing(data, f) {
      assert f in RequiredFields;
      var i :| 0 <= i < |ms| && ms[i] == f;
      assert ExpectedErrors(data)[i] == ErrorFor(f);
    }
  }

  /** The age check fails for an absent age and for every age below 13 (0 included), and passes from 13 on. */
  lemma AgeReported(data: Submission)
    ensures ErrorFor(Age) in ExpectedErrors(data) <==> data.age.None? || data.age.value < MinimumAge
  {
    FieldReported(data, Age);
  }

  /** Name, occupation and timezone are non-empty and age is at least 13. */
  predicate Complete(data: Submission) {
    Truthy(data.name) && Truthy(data.occupation) && Truthy(data.timezone) &&
    data.age.Some? && data.age.value >= MinimumAge
  }

  /** The list is empty exactly when name, occupation and timezone are all non-empty and age is at least 13. */
  lemma NoErrorsIff(data: Submission)
    ensures ExpectedErrors(data) == [] <==> Complete(data)
  {
    FieldReported(data, Name);
    FieldReported(data, Occupation);
    FieldReported(data, Timezone);
    FieldReported(data, Age);
  }

  /** Two submissions that agree on the value checked for f. */
  predicate SameValue(d1: Submission, d2: Submission, f: Field) {
    match f
    case Name => d1.name == d2.name
    case Occupation => d1.occupation == d2.occupation
    case Timezone => d1.timezone == d2.timezone
    case Age => d1.age == d2.age
  }

  /** Whether f is reported depends on f's own value only, whatever the other fields hold. */
  lemma FieldIndependent(d1: Submission, d2: Submission, f: Field)
    requires SameValue(d1, d2, f)
    ensures ErrorFor(f) in ExpectedErrors(d1) <==> ErrorFor(f) in ExpectedErrors(d2)
  {
    FieldReported(d1, f);
    FieldReported(d2, f);
  }

  /** A submission with only the given required fields and nothing else. */
  function Basic(name: Option<string>, occupation: Option<string>, timezone: Option<string>, age: Option<int>): Submission {
    Submission(name, None, None, occupation, timezone, age, None, None, None, None,
               None, None, None, None, None, None, None)
  }

  /** Ada, a student aged 10, is rejected on age alone. */
  lemma UnderageExample()
    ensures ExpectedErrors(Basic(Some("Ada"), Some("Student"), Some("UTC+00:00"), Some(10))) ==
      [ValidationError("age", "Valid age is required")]
  {
    MissingRequiredFields(Basic(Some("Ada"), Some("Student"), Some("UTC+00:00"), Some(10)));
  }

  /** The checks do not trim: a name of three spaces passes. */
  lemma BlankNameAccepted()
    ensures ExpectedErrors(Basic(Some("   "), Some("Student"), Some("UTC"), Some(13))) == []
  {
    NoErrorsIff(Basic(Some("   "), Some("Student"), Some("UTC"), Some(13)));
  }
}
