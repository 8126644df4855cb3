/** `calculateExpectedEncounters`: the deterministic survival curve for
    display, a seeded Monte Carlo run for the visit count and its range, and
    the life expectancies and data source recorded with the result; and
    `calculateTimeAlreadySpent`, the share of the time together already
    behind you. */
module Encounters {
  import opened Seqs
  import opened Types
  import opened LifeTableAccess
  import opened SurvivalCurve
  import opened MonteCarlo

  const DataSource: string := "UN World Population Prospects 2024"
  const DataYear: int := 2024

  /** The generator seed: a fixed mix of the two ages and the visit rate, so
      that equal inputs give equal results. */
  function Seed(input: RelationshipInput): int {
    input.you.age * 1000 + input.them.age * 100 + input.visitsPerYear
  }

  /** The Monte Carlo outcomes of a calculation, in drawing order; the
      generator maps a seed to its stream of draws. */
  function Outcomes(input: RelationshipInput, yourTable: LifeTable, theirTable: LifeTable,
                    generator: int -> Draws): (s: Samples)
    ensures |s.years| == MonteCarloSimulations && |s.visits| == MonteCarloSimulations
    ensures var draws := generator(Seed(input));
      forall k: nat :: k < MonteCarloSimulations ==>
        && s.years[k] == RunTrial(yourTable, input.you.age, theirTable, input.them.age, draws,
                                  TrialStart(k, yourTable, input.you.age, theirTable, input.them.age, draws, 0)).years
        && s.visits[k] == TotalVisits(s.years[k], input.visitsPerYear)
  {
    Simulate(MonteCarloSimulations, yourTable, input.you.age, theirTable, input.them.age,
             input.visitsPerYear, generator(Seed(input)), 0)
  }

  /** The full calculation. The headline figure is the median of the
      simulated visit totals; the quartiles of the visits and the 10th/90th
      percentiles of the years both alive are read by rank from the sorted
      outcomes, and the expected years are the mean of all outcomes. */
  function CalculateExpectedEncounters(input: RelationshipInput, yourTable: LifeTable, theirTable: LifeTable,
                                       generator: int -> Draws): (r: CalculationResult)
    requires NonZeroLxAt(yourTable.entries, input.you.age) && NonZeroLxAt(theirTable.entries, input.them.age)
    ensures r.expectedVisits == r.expectedVisitsRange.p50
    ensures r.expectedVisitsRange.p25 <= r.expectedVisitsRange.p50 <= r.expectedVisitsRange.p75
    ensures r.yearsWithBothAlive.min <= r.yearsWithBothAlive.max
    ensures var s := Outcomes(input, yourTable, theirTable, generator);
      && r.expectedVisitsRange.p25 in s.visits
      && r.expectedVisitsRange.p50 in s.visits
      && r.expectedVisitsRange.p75 in s.visits
      && r.yearsWithBothAlive.min in s.years
      && r.yearsWithBothAlive.max in s.years
    ensures var s := Outcomes(input, yourTable, theirTable, generator);
      var visits := Sort(s.visits);
      var years := Sort(s.years);
      && r.expectedVisitsRange.p25 == visits[PercentileIndex(MonteCarloSimulations, 25)]
      && r.expectedVisitsRange.p50 == visits[PercentileIndex(MonteCarloSimulations, 50)]
      && r.expectedVisitsRange.p75 == visits[PercentileIndex(MonteCarloSimulations, 75)]
      && r.yearsWithBothAlive.min == years[PercentileIndex(MonteCarloSimulations, 10)]
      && r.yearsWithBothAlive.max == years[PercentileIndex(MonteCarloSimulations, 90)]
      && r.yearsWithBothAlive.expected == Sum(s.years) as real / MonteCarloSimulations as real
    ensures r.yearByYearSurvival == YearByYearSurvival(yourTable, input.you.age, theirTable, input.them.age)
    ensures r.assumptions.youLifeExpectancy == LifeExpectancy(yourTable, input.you.age as real)
    ensures r.assumptions.themLifeExpectancy == LifeExpectancy(theirTable, input.them.age as real)
    ensures r.assumptions.dataSource == DataSource && r.assumptions.dataYear == DataYear
  {
    var s := Outcomes(input, yourTable, theirTable, generator);
    var visits := Sort(s.visits);
    var years := Sort(s.years);
    PermutationMembers(s.visits, visits);
    PermutationMembers(s.years, years);
    PercentileMonotone(visits, 25, 50);
    PercentileMonotone(visits, 50, 75);
    PercentileMonotone(years, 10, 90);
    SumSort(s.years);
    var range := VisitsRange(Percentile(visits, 25), Percentile(visits, 50), Percentile(visits, 75));
    var yearsBoth := YearsBothAlive(
      Sum(years) as real / |years| as real,
      Percentile(years, 10),
      Percentile(years, 90));
    CalculationResult(
      range.p50,
      range,
      yearsBoth,
      YearByYearSurvival(yourTable, input.you.age, theirTable, input.them.age),
      Assumptions(
        LifeExpectancy(yourTable, input.you.age as real),
        LifeExpectancy(theirTable, input.them.age as real),
        DataSource,
        DataYear))
  }

  /** For ages the tables cover, the years both alive (mean, 10th and 90th
      percentile) lie between 0 and the horizon, the years until the first
      of the two reaches the oldest tabulated age. */
  lemma YearsWithinHorizon(input: RelationshipInput, yourTable: LifeTable, theirTable: LifeTable,
                           generator: int -> Draws)
    requires NonZeroLxAt(yourTable.entries, input.you.age) && NonZeroLxAt(theirTable.entries, input.them.age)
    requires CoveredAge(input.you.age) && CoveredAge(input.them.age)
    ensures var r := CalculateExpectedEncounters(input, yourTable, theirTable, generator);
      var h := Horizon(input.you.age, input.them.age);
      && 0 <= r.yearsWithBothAlive.min <= r.yearsWithBothAlive.max <= h
      && 0.0 <= r.yearsWithBothAlive.expected <= h as real
  {
    var h := Horizon(input.you.age, input.them.age);
    var s := Outcomes(input, yourTable, theirTable, generator);
    var years := Sort(s.years);
    PermutationWithin(s.years, years, 0, h);
    MeanWithin(years, 0, h);
    PercentileWithin(years, 10, 0, h);
    PercentileWithin(years, 90, 0, h);
  }

  /** For ages the tables cover and a non-negative visit rate, every
      reported visit figure lies between 0 and the visits of a full horizon. */
  lemma VisitsWithinHorizon(input: RelationshipInput, yourTable: LifeTable, theirTable: LifeTable,
                            generator: int -> Draws)
    requires NonZeroLxAt(yourTable.entries, input.you.age) && NonZeroLxAt(theirTable.entries, input.them.age)
    requires CoveredAge(input.you.age) && CoveredAge(input.them.age) && 0 <= input.visitsPerYear
    ensures var r := CalculateExpectedEncounters(input, yourTable, theirTable, generator);
      var most := TotalVisits(Horizon(input.you.age, input.them.age), input.visitsPerYear);
      0 <= r.expectedVisitsRange.p25 && r.expectedVisitsRange.p75 <= most
  {
    var most := TotalVisits(Horizon(input.you.age, input.them.age), input.visitsPerYear);
    var s := Outcomes(input, yourTable, theirTable, generator);
    var visits := Sort(s.visits);
    PermutationWithin(s.visits, visits, 0, most);
    PercentileWithin(visits, 25, 0, most);
    PercentileWithin(visits, 75, 0, most);
  }

  /** No visits a year means no visits at all, at every percentile, whatever
      the ages. */
  lemma ZeroRateZeroEncounters(input: RelationshipInput, yourTable: LifeTable, theirTable: LifeTable,
                               generator: int -> Draws)
    requires NonZeroLxAt(yourTable.entries, input.you.age) && NonZeroLxAt(theirTable.entries, input.them.age)
    requires input.visitsPerYear == 0
    ensures var r := CalculateExpectedEncounters(input, yourTable, theirTable, generator);
      r.expectedVisitsRange == VisitsRange(0, 0, 0) && r.expectedVisits == 0
  {
    var s := Outcomes(input, yourTable, theirTable, generator);
    ZeroRateZeroVisits(s.years);
    var visits := Sort(s.visits);
    PermutationWithin(s.visits, visits, 0, 0);
    PercentileWithin(visits, 25, 0, 0);
    PercentileWithin(visits, 50, 0, 0);
    PercentileWithin(visits, 75, 0, 0);
  }

  /** Ages past the oldest tabulated one are not rejected by the engine.
      With your age covered and theirs above 100, every trial reports
      100 minus their age as the years together, a negative number, and the
      visit figures are that number times the rate. */
  lemma OverAgeGivesNegativeYears(input: RelationshipInput, yourTable: LifeTable, theirTable: LifeTable,
                                  generator: int -> Draws)
    requires NonZeroLxAt(yourTable.entries, input.you.age) && NonZeroLxAt(theirTable.entries, input.them.age)
    requires CoveredAge(input.you.age) && input.them.age > MaxTableAge
    ensures var r := CalculateExpectedEncounters(input, yourTable, theirTable, generator);
      var years := MaxYears(input.them.age);
      && years < 0
      && r.yearsWithBothAlive.min == years && r.yearsWithBothAlive.max == years
      && r.expectedVisits == TotalVisits(years, input.visitsPerYear)
  {
    var years := MaxYears(input.them.age);
    var visits := TotalVisits(years, input.visitsPerYear);
    var draws := generator(Seed(input));
    var s := Outcomes(input, yourTable, theirTable, generator);
    forall k: nat | k < MonteCarloSimulations
      ensures s.years[k] == years && s.visits[k] == visits
    {
      var start := TrialStart(k, yourTable, input.you.age, theirTable, input.them.age, draws, 0);
      TrialIsEarlierDeath(yourTable, input.you.age, theirTable, input.them.age, draws, start);
    }
    assert AllWithin(s.years, years, years);
    assert AllWithin(s.visits, visits, visits);
    PermutationWithin(s.years, Sort(s.years), years, years);
    PermutationWithin(s.visits, Sort(s.visits), visits, visits);
  }

  /** The result depends on the two ages, the visit rate, the tables and the
      generator only: sexes, countries, relation type and the optional
      frequency fields do not enter the calculation. */
  lemma ResultDependsOnAgesAndRate(a: RelationshipInput, b: RelationshipInput, yourTable: LifeTable,
                                   theirTable: LifeTable, generator: int -> Draws)
    requires NonZeroLxAt(yourTable.entries, a.you.age) && NonZeroLxAt(theirTable.entries, a.them.age)
    requires a.you.age == b.you.age && a.them.age == b.them.age && a.visitsPerYear == b.visitsPerYear
    ensures CalculateExpectedEncounters(a, yourTable, theirTable, generator)
         == CalculateExpectedEncounters(b, yourTable, theirTable, generator)
  {
    assert Seed(a) == Seed(b);
  }

  /** The age at which time together typically peaks: 18 for the six
      parent and grandparent relations, 15 for every other name. */
  function PeakAge(relationType: string): (peak: int)
    ensures peak == 18 || peak == 15
    ensures peak == 18 <==> relationType in ParentRelationNames
  {
    if relationType in ParentRelationNames then 18 else 15
  }

  /** Share of the lifetime time together already spent at `yourAge`:
      linear up to the peak age, then 0.7 plus a quarter of an exponential
      approach, using the exponential function `exp`. */
  function TimeAlreadySpent(yourAge: real, relationType: string, exp: real -> real): (r: real)
    ensures 0.0 <= yourAge <= PeakAge(relationType) as real ==> 0.0 <= r <= 1.0
    ensures yourAge <= PeakAge(relationType) as real ==> r * PeakAge(relationType) as real == yourAge
    ensures (forall x: real :: x < 0.0 ==> 0.0 < exp(x) < 1.0) && yourAge > PeakAge(relationType) as real
      ==> 0.7 < r < 0.95
  {
    var peak := PeakAge(relationType) as real;
    if yourAge <= peak then yourAge / peak
    else 0.7 + 0.25 * (1.0 - exp(-(yourAge - peak) / 10.0))
  }

  /** Nothing is spent at birth and everything at the peak age. */
  lemma TimeSpentEndpoints(relationType: string, exp: real -> real)
    ensures TimeAlreadySpent(0.0, relationType, exp) == 0.0
    ensures TimeAlreadySpent(PeakAge(relationType) as real, relationType, exp) == 1.0
  {
  }

  /** Up to the peak the share grows with age. */
  lemma TimeSpentGrowsToPeak(a: real, b: real, relationType: string, exp: real -> real)
    requires 0.0 <= a <= b <= PeakAge(relationType) as real
    ensures TimeAlreadySpent(a, relationType, exp) <= TimeAlreadySpent(b, relationType, exp)
  {
    var peak := PeakAge(relationType) as real;
    assert a / peak <= b / peak;
  }

  /** Past the peak the share grows again with age for an increasing `exp`. */
  lemma TimeSpentGrowsAfterPeak(a: real, b: real, relationType: string, exp: real -> real)
    requires forall x: real, y: real :: x <= y ==> exp(x) <= exp(y)
    requires PeakAge(relationType) as real < a <= b
    ensures TimeAlreadySpent(a, relationType, exp) <= TimeAlreadySpent(b, relationType, exp)
  {
    var peak := PeakAge(relationType) as real;
    assert -(b - peak) / 10.0 <= -(a - peak) / 10.0;
  }

  /** The two branches do not meet: the share is 1 at the peak age and below
      0.95 at every later age, so it drops once the peak is passed. */
  lemma TimeSpentDropsAfterPeak(a: real, relationType: string, exp: real -> real)
    requires forall x: real :: x < 0.0 ==> 0.0 < exp(x) < 1.0
    requires PeakAge(relationType) as real < a
    ensures TimeAlreadySpent(a, relationType, exp) < TimeAlreadySpent(PeakAge(relationType) as real, relationType, exp)
  {
  }

  /** The peak is 18 exactly for the parent and grandparent constructors. */
  lemma ParentPeak(t: RelationType)
    ensures PeakAge(RelationName(t)) == 18 <==> IsParentRelation(t)
  {
    ParentRelationNamesMatch(t);
  }
}
