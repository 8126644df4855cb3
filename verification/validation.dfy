/** The form validation rules, each schema read as a parser: raw form values
    in, the typed engine input out, or nothing when the schema rejects.
    Only acceptance is modelled, not the error messages. */
module Validation {
  import opened Wrappers
  import opened Types
  import opened LifeTableAccess
  import opened Frequency

  const MinAge: int := 0
  const MaxAge: int := 100
  const MaxVisitsPerYear: int := 365

  /** A person as the form submits it: a number, and two strings. */
  datatype RawPerson = RawPerson(age: real, sex: string, country: string)

  /** A "times per period" pair as the form submits it. */
  datatype RawTimes = RawTimes(period: string, times: real)

  /** A validated "times per period" pair. */
  datatype TimesPerPeriod = TimesPerPeriod(period: FrequencyPeriod, times: int)

  /** A relationship as the form submits it; the last two fields may be absent. */
  datatype RawRelationship = RawRelationship(
    you: RawPerson,
    them: RawPerson,
    relationType: string,
    visitsPerYear: real,
    frequencyPeriod: Option<string>,
    timesPerPeriod: Option<real>)

  /** A number with no fractional part (zod's `.int()`). */
  predicate IsWhole(x: real) {
    x.Floor as real == x
  }

  /** The `^[A-Z]{3}$` pattern. */
  predicate MatchesUpperTriple(code: string) {
    |code| == 3 && forall i :: 0 <= i < |code| ==> 'A' <= code[i] <= 'Z'
  }

  /** The person schema, used for both people: a whole age from 0 to 100, a
      known sex, and a country code of three capital letters (the shape of
      an ISO 3166-1 alpha-3 code, not membership in the list). */
  function ParsePerson(p: RawPerson): (r: Option<PersonInput>)
    ensures r.Some? <==>
      && IsWhole(p.age) && 0.0 <= p.age <= 100.0
      && (p.sex == "male" || p.sex == "female")
      && |p.country| == 3
      && (forall i :: 0 <= i < 3 ==> 'A' <= p.country[i] <= 'Z')
    ensures r.Some? ==>
      && r.value.age as real == p.age
      && SexName(r.value.sex) == p.sex
      && r.value.country == p.country
      && CoveredAge(r.value.age)
  {
    var sex := ParseSex(p.sex);
    if IsWhole(p.age) && MinAge as real <= p.age <= MaxAge as real
       && sex.Some?
       && |p.country| == 3 && MatchesUpperTriple(p.country)
    then Some(PersonInput(p.age.Floor, sex.value, p.country))
    else None
  }

  /** The maximum table written into the "times per period" schema. */
  function SchemaMaxTimes(p: FrequencyPeriod): int {
    match p
    case Weekly => 7
    case Monthly => 31
    case Quarterly => 90
    case Yearly => 365
  }

  /** The "times per period" schema: a known period and a whole count from 1
      up to the period's maximum, the same maximum the frequency helper
      reports. Converted to a year, an accepted pair gives at most 372
      visits (31 a month). */
  function ParseTimesPerPeriod(t: RawTimes): (r: Option<TimesPerPeriod>)
    ensures r.Some? <==>
      && ParseFrequencyPeriod(t.period).Some?
      && IsWhole(t.times)
      && 1.0 <= t.times <= MaxTimesForPeriod(t.period) as real
    ensures r.Some? ==> PeriodName(r.value.period) == t.period && r.value.times as real == t.times
    ensures r.Some? ==> 1 <= VisitsPerYear(t.period, r.value.times) <= 372
  {
    match ParseFrequencyPeriod(t.period)
    case None => None
    case Some(p) =>
      if IsWhole(t.times) && 1.0 <= t.times && t.times <= SchemaMaxTimes(p) as real
      then Some(TimesPerPeriod(p, t.times.Floor))
      else None
  }

  /** The schema's own table and the frequency helper agree on every period. */
  lemma SchemaMaxMatchesHelper(p: FrequencyPeriod)
    ensures SchemaMaxTimes(p) == MaxTimesForPeriod(PeriodName(p))
  {
  }

  /** An optional frequency period: absent, or a known period name. */
  predicate OptionalPeriodAccepted(name: Option<string>) {
    name.None? || ParseFrequencyPeriod(name.value).Some?
  }

  /** An optional times-per-period count: absent, or a whole number >= 1. */
  predicate OptionalTimesAccepted(times: Option<real>) {
    times.None? || (IsWhole(times.value) && 1.0 <= times.value)
  }

  /** The relationship schema: both people, a known relation type, a whole
      number of visits a year from 0 to 365, well-formed optional fields,
      then the two refinements (your age within 0..100, and for a parent or
      grandparent relation the other person strictly older). */
  function ParseRelationship(raw: RawRelationship): (r: Option<RelationshipInput>)
    ensures r.Some? <==>
      && ParsePerson(raw.you).Some?
      && ParsePerson(raw.them).Some?
      && raw.relationType in RelationNames
      && IsWhole(raw.visitsPerYear) && 0.0 <= raw.visitsPerYear <= 365.0
      && OptionalPeriodAccepted(raw.frequencyPeriod)
      && OptionalTimesAccepted(raw.timesPerPeriod)
      && (raw.relationType in ParentRelationNames ==> raw.them.age > raw.you.age)
    ensures r.Some? ==>
      && r.value.you == ParsePerson(raw.you).value
      && r.value.them == ParsePerson(raw.them).value
      && r.value.you.age as real == raw.you.age
      && r.value.them.age as real == raw.them.age
      && RelationName(r.value.relationType) == raw.relationType
      && r.value.visitsPerYear as real == raw.visitsPerYear
      && 0 <= r.value.visitsPerYear <= MaxVisitsPerYear
      && (r.value.frequencyPeriod.Some? <==> raw.frequencyPeriod.Some?)
      && (r.value.frequencyPeriod.Some? ==> PeriodName(r.value.frequencyPeriod.value) == raw.frequencyPeriod.value)
      && (r.value.timesPerPeriod.Some? <==> raw.timesPerPeriod.Some?)
      && (r.value.timesPerPeriod.Some? ==> r.value.timesPerPeriod.value as real == raw.timesPerPeriod.value)
  {
    var you := ParsePerson(raw.you);
    var them := ParsePerson(raw.them);
    var relation := ParseRelationType(raw.relationType);
    RelationTypesClosed(raw.relationType, Mother);
    if you.None? || them.None? || relation.None?
       || !(IsWhole(raw.visitsPerYear) && 0.0 <= raw.visitsPerYear <= MaxVisitsPerYear as real)
       || !OptionalPeriodAccepted(raw.frequencyPeriod)
       || !OptionalTimesAccepted(raw.timesPerPeriod)
    then None
    else if !(MinAge <= you.value.age <= MaxAge) then None
    else if raw.relationType in ParentRelationNames && !(them.value.age > you.value.age) then None
    else
      var period := if raw.frequencyPeriod.Some? then ParseFrequencyPeriod(raw.frequencyPeriod.value) else None;
      var times := if raw.timesPerPeriod.Some? then Some(raw.timesPerPeriod.value.Floor) else None;
      Some(RelationshipInput(you.value, them.value, relation.value, raw.visitsPerYear.Floor, period, times))
  }

  /** An accepted relationship has both ages inside the tables and a
      non-negative visit rate, the conditions the engine's bounds need. */
  lemma AcceptedInputIsCovered(raw: RawRelationship)
    requires ParseRelationship(raw).Some?
    ensures var input := ParseRelationship(raw).value;
      CoveredAge(input.you.age) && CoveredAge(input.them.age) && 0 <= input.visitsPerYear
  {
  }

  /** For a parent or grandparent relation, acceptance means the other
      person is strictly older. */
  lemma ParentsAreOlder(raw: RawRelationship)
    requires ParseRelationship(raw).Some?
    ensures var input := ParseRelationship(raw).value;
      IsParentRelation(input.relationType) ==> input.them.age > input.you.age
  {
    var input := ParseRelationship(raw).value;
    ParentRelationNamesMatch(input.relationType);
  }

  /** Partner, friend, other family and other impose no age order:
      exchanging the two people's ages keeps an accepted input accepted. */
  lemma OtherRelationsAnyOrder(raw: RawRelationship)
    requires ParseRelationship(raw).Some?
    requires raw.relationType in ["partner", "friend", "other_family", "other"]
    ensures ParseRelationship(raw.(you := raw.you.(age := raw.them.age),
                                   them := raw.them.(age := raw.you.age))).Some?
  {
  }

  /** The refinement on your age never rejects anything the person schema
      accepted. */
  lemma YourAgeRefinementRedundant(raw: RawRelationship)
    requires ParsePerson(raw.you).Some?
    ensures MinAge <= ParsePerson(raw.you).value.age <= MaxAge
  {
  }

  /** Inside a relationship the count per period is checked only to be a
      whole number >= 1: thirty visits a week pass there, while the
      "times per period" schema rejects them. */
  lemma TimesNotCheckedAgainstMaximum()
    ensures var raw := RawRelationship(
      RawPerson(30.0, "female", "CHL"), RawPerson(60.0, "female", "CHL"),
      "mother", 52.0, Some("weekly"), Some(30.0));
      ParseRelationship(raw).Some? && ParseTimesPerPeriod(RawTimes("weekly", 30.0)).None?
  {
    var you := RawPerson(30.0, "female", "CHL");
    var them := RawPerson(60.0, "female", "CHL");
    assert MatchesUpperTriple("CHL");
    assert ParsePerson(you).Some?;
    assert ParsePerson(them).Some?;
    assert "mother" in RelationNames;
  }
}
