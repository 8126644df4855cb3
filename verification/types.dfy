/** The records of the actuarial model: people, relationships, life tables
    and the result of an encounter calculation, together with the closed
    enumerations (sex, relation type, frequency period) and their wire names. */
module Types {
  import opened Wrappers

  datatype Sex = Male | Female

  datatype RelationType =
    | Mother
    | Father
    | GrandmotherMaternal
    | GrandmotherPaternal
    | GrandfatherMaternal
    | GrandfatherPaternal
    | Partner
    | Friend
    | OtherFamily
    | Other

  datatype FrequencyPeriod = Weekly | Monthly | Quarterly | Yearly

  /** A person as the engine sees it, after validation: a whole age. */
  datatype PersonInput = PersonInput(age: int, sex: Sex, country: string)

  datatype RelationshipInput = RelationshipInput(
    you: PersonInput,
    them: PersonInput,
    relationType: RelationType,
    visitsPerYear: int,
    frequencyPeriod: Option<FrequencyPeriod>,
    timesPerPeriod: Option<int>)

  /** One life-table row: probability of death `qx` between age x and x+1,
      survivors `lx` at age x, residual life expectancy `ex` at age x. */
  datatype LifeTableEntry = LifeTableEntry(age: int, qx: real, lx: real, ex: real)

  datatype LifeTable = LifeTable(country: string, sex: Sex, year: int, entries: seq<LifeTableEntry>)

  /** One row of the deterministic survival curve, `year` years from now. */
  datatype SurvivalPoint = SurvivalPoint(year: int, youAlive: real, themAlive: real, bothAlive: real)

  /** Percentiles of the simulated visit totals. */
  datatype VisitsRange = VisitsRange(p25: int, p50: int, p75: int)

  /** Mean, 10th and 90th percentile of the simulated years both alive. */
  datatype YearsBothAlive = YearsBothAlive(expected: real, min: int, max: int)

  datatype Assumptions = Assumptions(
    youLifeExpectancy: real,
    themLifeExpectancy: real,
    dataSource: string,
    dataYear: int)

  datatype CalculationResult = CalculationResult(
    expectedVisits: int,
    expectedVisitsRange: VisitsRange,
    yearsWithBothAlive: YearsBothAlive,
    yearByYearSurvival: seq<SurvivalPoint>,
    assumptions: Assumptions)

  // Wire names of the enumerations, as the form and the JSON use them.

  function SexName(s: Sex): string {
    match s
    case Male => "male"
    case Female => "female"
  }

  function RelationName(r: RelationType): string {
    match r
    case Mother => "mother"
    case Father => "father"
    case GrandmotherMaternal => "grandmother_maternal"
    case GrandmotherPaternal => "grandmother_paternal"
    case GrandfatherMaternal => "grandfather_maternal"
    case GrandfatherPaternal => "grandfather_paternal"
    case Partner => "partner"
    case Friend => "friend"
    case OtherFamily => "other_family"
    case Other => "other"
  }

  function PeriodName(p: FrequencyPeriod): string {
    match p
    case Weekly => "weekly"
    case Monthly => "monthly"
    case Quarterly => "quarterly"
    case Yearly => "yearly"
  }

  /** The names listed by the relation-type enumeration, in declaration order. */
  const RelationNames: seq<string> := [
    "mother", "father",
    "grandmother_maternal", "grandmother_paternal",
    "grandfather_maternal", "grandfather_paternal",
    "partner", "friend", "other_family", "other"]

  /** The names listed by the frequency-period enumeration. */
  const PeriodNames: seq<string> := ["weekly", "monthly", "quarterly", "yearly"]

  /** The `parentRelations` list shared by the engine and the validation. */
  const ParentRelationNames: seq<string> := [
    "mother", "father",
    "grandmother_maternal", "grandmother_paternal",
    "grandfather_maternal", "grandfather_paternal"]

  predicate IsParentRelation(r: RelationType) {
    r.Mother? || r.Father? || r.GrandmotherMaternal? || r.GrandmotherPaternal?
    || r.GrandfatherMaternal? || r.GrandfatherPaternal?
  }

  // Parsing a wire name back into the enumeration (a zod `z.enum` check).

  function ParseSex(name: string): (r: Option<Sex>)
    ensures r.Some? ==> SexName(r.value) == name
    ensures r.None? ==> forall s :: SexName(s) != name
  {
    if name == "male" then Some(Male)
    else if name == "female" then Some(Female)
    else None
  }

  function ParseRelationType(name: string): (r: Option<RelationType>)
    ensures r.Some? ==> RelationName(r.value) == name
    ensures r.None? ==> forall t :: RelationName(t) != name
  {
    if name == "mother" then Some(Mother)
    else if name == "father" then Some(Father)
    else if name == "grandmother_maternal" then Some(GrandmotherMaternal)
    else if name == "grandmother_paternal" then Some(GrandmotherPaternal)
    else if name == "grandfather_maternal" then Some(GrandfatherMaternal)
    else if name == "grandfather_paternal" then Some(GrandfatherPaternal)
    else if name == "partner" then Some(Partner)
    else if name == "friend" then Some(Friend)
    else if name == "other_family" then Some(OtherFamily)
    else if name == "other" then Some(Other)
    else None
  }

  function ParseFrequencyPeriod(name: string): (r: Option<FrequencyPeriod>)
    ensures r.Some? ==> PeriodName(r.value) == name
    ensures r.None? ==> forall p :: PeriodName(p) != name
  {
    if name == "weekly" then Some(Weekly)
    else if name == "monthly" then Some(Monthly)
    else if name == "quarterly" then Some(Quarterly)
    else if name == "yearly" then Some(Yearly)
    else None
  }

  /** Each enumeration is closed: a name parses exactly when it is one of the
      listed names, and printing then parsing gives back the same value. */
  lemma RelationTypesClosed(name: string, t: RelationType)
    ensures ParseRelationType(name).Some? <==> name in RelationNames
    ensures ParseRelationType(RelationName(t)) == Some(t)
    ensures |RelationNames| == 10
    ensures forall i, j :: 0 <= i < j < |RelationNames| ==> RelationNames[i] != RelationNames[j]
  {
  }

  lemma FrequencyPeriodsClosed(name: string, p: FrequencyPeriod)
    ensures ParseFrequencyPeriod(name).Some? <==> name in PeriodNames
    ensures ParseFrequencyPeriod(PeriodName(p)) == Some(p)
    ensures |PeriodNames| == 4
    ensures forall i, j :: 0 <= i < j < |PeriodNames| ==> PeriodNames[i] != PeriodNames[j]
  {
  }

  lemma SexesClosed(name: string, s: Sex)
    ensures ParseSex(name).Some? <==> name in ["male", "female"]
    ensures ParseSex(SexName(s)) == Some(s)
  {
  }

  /** The six-name list and the parent constructors agree. */
  lemma ParentRelationNamesMatch(t: RelationType)
    ensures RelationName(t) in ParentRelationNames <==> IsParentRelation(t)
  {
  }
}
