# What's Left Together — actuarial encounter engine in Dafny

This project models the core of the "What's Left Together" calculator. The
calculator estimates how many more times two people will meet, given their ages,
their life tables and how often they meet a year. The model covers:

- **Life-table accessors** (`LifeTableAccess`):
  - residual life expectancy `ex` at the integer part of an age;
  - the survival ratio lx(a+t)/lx(a).
  Both read the first row with a matching age and degrade to 0 when a row is missing.
- **The deterministic survival curve** (`SurvivalCurve`). It has one row per year
  offset 0, 1, 2, … up to the years left until the first of the two reaches age 100.
  Each row's joint probability is the product of the two marginals. Row 0 is always
  kept, and the curve stops at the first later year whose joint probability is below
  0.0001.
- **The Monte Carlo estimate** (`MonteCarlo`, `Encounters`):
  - each death year is sampled by walking the yearly death probabilities `qx`
    against a stream of uniform draws;
  - 10,000 trials each take the earlier of the two death years and multiply it by
    the visit rate;
  - percentiles are read by rank, floor(n·p) clamped to n−1, from the sorted
    outcomes;
  - the median is the headline figure;
  - the result also records the life expectancies, the data source and the data
    year.
- **Time already spent** (`Encounters.TimeAlreadySpent`). This is the share of the
  lifetime time together that already lies behind you. The peak age is 18 for the six
  parent and grandparent relations and 15 otherwise.
- **Visit-frequency conversion** (`Frequency`). It gives the per-period maxima and
  converts "times per period" into visits a year.
- **Form validation** (`Validation`). Each schema is read as a parser from raw form
  values to the typed engine input, returning nothing when the schema rejects.
- **Country lookups** (`CountryData`):
  - the countries with data;
  - whether a code has data;
  - a country's display name.
  The country list is a parameter.

`Types` holds the records and the three closed enumerations with their wire names.
`Seqs` holds the sequence helpers the engine relies on: first-match search, filter,
an ascending sort proved to be a sorted permutation, and sums. `Wrappers` holds
`Option`.

The random source is a parameter. `generator: int -> Draws` maps a seed to an
endless stream of draws, and the seed is `you.age·1000 + them.age·100 +
visitsPerYear` as in the source. Each death-year sample takes its draws from a cursor
and hands the next unused position to the following sample. So a fixed input gives a
fixed result by construction.

Numbers are Dafny `real`s for probabilities, survivor counts and life expectancies.
Ages, years, visit rates and visit totals are integers. The calculator form reads
every age and the visit rate with `parseInt` (src/components/Calculator.tsx:73, 153
and 232), and the results view hands the form state to the engine unchanged
(src/components/Results.tsx:19-42), so the engine only ever sees whole numbers. The
engine does not check their range. The two accessors keep a real age, because the
engine's own contract allows any number there.

The zod schemas in src/lib/validation/schemas.ts are not on that call path: nothing
in the application imports them. What they would accept is modelled in `Validation`,
and `Validation.AcceptedInputIsCovered` shows that accepted input stays within the
table's ages. The form itself lets the other person's age go up to 120
(src/components/Calculator.tsx:150). Past age 100 the code returns the negative
distance `100 − age` as the sampled death year, as `MonteCarlo.SampleDeathYear`
states. `Encounters.OverAgeGivesNegativeYears` follows this through the whole
calculation: with your age in the table and theirs above 100, every trial reports a
negative number of years, and the expected visits are that number times the rate.

## Model

| member | source | states |
|---|---|---|
| `Types.ParseSex` | src/lib/validation/schemas.ts:19-22 | a sex name parses exactly when it is the wire name of a sex, and to that sex |
| `Types.ParseRelationType` | src/lib/validation/schemas.ts:42-59 | a relation name parses exactly when it is one of the ten wire names, and to the constructor with that name |
| `Types.ParseFrequencyPeriod` | src/lib/validation/schemas.ts:34-37 | a period name parses exactly when it is one of the four wire names, and to the period with that name |
| `Types.RelationTypesClosed` | src/types/index.ts:7-17 | the relation enumeration has exactly ten distinct names, parsing succeeds exactly on them, and printing then parsing is the identity |
| `Types.FrequencyPeriodsClosed` | src/types/index.ts:19 | the period enumeration has exactly four distinct names, parsing succeeds exactly on them, and printing then parsing is the identity |
| `Types.SexesClosed` | src/types/index.ts:5 | a sex name parses exactly when it is "male" or "female", and printing then parsing is the identity |
| `Types.ParentRelationNamesMatch` | src/lib/models/actuarial.ts:234-241 | the six-name parent list holds exactly the names of the mother, father and four grandparent relations |
| `Frequency.MaxTimesForPeriod` | src/lib/utils/frequency.ts:10-23 | the maximum lies in 7..365, is 365 for any name outside the enumeration, and is 7 exactly for weekly |
| `Frequency.VisitsPerYear` | src/lib/utils/frequency.ts:28-41 | a known period multiplies the count by the number of such periods in a year (52, 12, 4, 1); any other name leaves the count unchanged |
| `Frequency.MaxTimesTable` | src/lib/utils/frequency.ts:10-23 | the maxima are 7, 31, 90 and 365, and 365 for an unknown name |
| `Frequency.VisitsPerYearAdditive` | src/lib/utils/frequency.ts:28-41 | for a fixed period the conversion of a + b is the sum of the conversions |
| `Frequency.VisitsPerYearMonotone` | src/lib/utils/frequency.ts:28-41 | the conversion is monotone in the count and never below a non-negative count |
| `Frequency.ZeroTimesZeroVisits` | src/lib/utils/frequency.ts:28-41 | zero visits per period give zero visits a year for every period name |
| `Frequency.VisitsAtMaximum` | src/lib/utils/__tests__/frequency.test.ts:123-141 | at the per-period maximum the annual count exceeds 365 only for monthly; weekly gives 364 and monthly 372 |
| `LifeTableAccess.Horizon` | src/lib/models/actuarial.ts:137-140 | the horizon is the smaller of the two people's years left to age 100 |
| `LifeTableAccess.IndexAt` | src/lib/models/actuarial.ts:71-72 | the lookup finds the first row with the given age, and finds nothing exactly when no row has it |
| `LifeTableAccess.LifeExpectancy` | src/lib/models/actuarial.ts:47-57 | the result is the ex of the first row at floor(age), or 0 when no row has that age |
| `LifeTableAccess.SurvivalAt` | src/lib/models/actuarial.ts:63-80 | the survival probability is 0 when the row for the current age or for the target age is missing; only the current row's lx must be non-zero, so a target row with lx 0 gives 0 |
| `LifeTableAccess.SurvivalProbability` | src/lib/models/actuarial.ts:67-69 | with a real age, the probability is 0 when the row at floor(age) or at floor(age) + t is missing |
| `LifeTableAccess.SurvivalIsLxRatio` | src/lib/models/actuarial.ts:71-79 | with both rows present the probability is lx(target) / lx(current), read from the first matching rows |
| `LifeTableAccess.SurvivalAtZeroYears` | src/lib/models/actuarial.ts:63-80 | zero years ahead gives exactly 1 whenever the current age is tabulated |
| `LifeTableAccess.SurvivalIsProbability` | src/lib/models/actuarial.ts:78-79 | on a table with ascending ages and non-negative, non-increasing lx, with a non-zero lx at the current age, looking ahead gives a value in [0, 1] |
| `LifeTableAccess.FractionalAgeUsesFloor` | src/lib/models/actuarial.ts:49 | a fractional age reads the rows of its integer part, for life expectancy and for survival |
| `SurvivalCurve.Marginals` | src/lib/models/actuarial.ts:146-147 | entry t is the survival probability t years ahead, for t below n |
| `SurvivalCurve.CurveFrom` | src/lib/models/actuarial.ts:145-161 | rows carry consecutive years from t, hold the two marginals of their year and their product; every row after year 0 is at or above the threshold; a curve that stops early stops at a year with joint probability below the threshold |
| `SurvivalCurve.YearByYearSurvival` | src/lib/models/actuarial.ts:137-161 | rows are years 0, 1, 2, … never past the horizon; each joint probability is the product of its marginals; rows after the first are at or above 0.0001; there is a first row exactly when the horizon is not negative |
| `SurvivalCurve.CurveRowsAreMarginals` | src/lib/models/actuarial.ts:145-148 | row k holds the two survival probabilities k years ahead |
| `SurvivalCurve.CurveStopsAtThreshold` | src/lib/models/actuarial.ts:150-153 | a curve that ends before the horizon ends at a later year whose joint survival is below 0.0001 |
| `SurvivalCurve.CurveStartsCertain` | src/lib/models/actuarial.ts:145-148 | with both ages tabulated and a non-negative horizon, row 0 has both marginals and the joint probability equal to 1 |
| `MonteCarlo.WalkFrom` | src/lib/models/actuarial.ts:103-115 | the walk stops at the first year it does not live through, or at the bound; each year lived through and each death decided by a draw uses exactly one draw |
| `MonteCarlo.SampleDeathYear` | src/lib/models/actuarial.ts:99-118 | for an age in 0..100 the year lies in [0, 100 − age]; all earlier years are lived through, and a year before the bound is one not lived through (no row, or a draw below qx); past age 100 the result is 100 − age with no draw used |
| `MonteCarlo.DeathYearIsFirstDeath` | src/lib/models/actuarial.ts:99-118 | any year matching the first-death description is the sampled year |
| `MonteCarlo.NoDeathDrawSurvivesToMax` | src/lib/models/actuarial.ts:103-117 | with every remaining age tabulated and no draw below any qx, the sample is the full 100 − age |
| `MonteCarlo.RunTrial` | src/lib/models/actuarial.ts:171-177 | for covered ages the years both alive lie between 0 and the horizon |
| `MonteCarlo.TrialIsEarlierDeath` | src/lib/models/actuarial.ts:173-177 | the years both alive are the minimum of the two sampled death years, and the second sample continues the draw stream after the first |
| `MonteCarlo.TrialStartChain` | src/lib/models/actuarial.ts:169-174 | trial k + 1 starts drawing exactly where trial k stopped, so all trials share one stream and no draw is skipped or reused |
| `MonteCarlo.IterateChain` | src/lib/models/actuarial.ts:171-174 | after k + 1 steps of a step function the position is one step past the position after k steps |
| `MonteCarlo.SimulateYears` | src/lib/models/actuarial.ts:171-184 | n trials are run and outcome k is the trial run from draw position TrialStart(k), each trial continuing the stream where the previous one stopped; for covered ages every outcome lies between 0 and the horizon |
| `MonteCarlo.ScaleVisits` | src/lib/models/actuarial.ts:179-183 | each trial's visits are its years both alive times the visit rate, bounded by the horizon's visits for a non-negative rate |
| `MonteCarlo.Simulate` | src/lib/models/actuarial.ts:163-184 | both outcome lists have one entry per trial; years k is the k-th trial on the shared stream and visits k is those years times the rate; both respect the horizon bounds for covered ages |
| `MonteCarlo.ZeroRateZeroVisits` | src/lib/models/actuarial.ts:180 | a zero visit rate gives zero visits in every trial |
| `MonteCarlo.PercentileIndex` | src/lib/models/actuarial.ts:190-193 | the rank is below n, at most n·p, and equal to floor(n·p) unless clamped to n − 1 |
| `MonteCarlo.Percentile` | src/lib/models/actuarial.ts:190-193 | the result is the element at rank min(floor(n·p), n − 1); on a sorted sequence every value ranked below n·p is at most it and every value from its rank on is at least it |
| `MonteCarlo.PercentileMonotone` | src/lib/models/actuarial.ts:195-205 | on a sorted sequence a higher percentile is never smaller, which orders p25 ≤ p50 ≤ p75 and the 10th ≤ 90th percentile |
| `MonteCarlo.PercentileWithin` | src/lib/models/actuarial.ts:190-193 | a percentile respects any bounds all the values respect |
| `MonteCarlo.MeanWithin` | src/lib/models/actuarial.ts:203 | the mean of values within [lo, hi] is within [lo, hi] |
| `Seqs.Sort` | src/lib/models/actuarial.ts:187-188 | the numeric sort returns an ascending permutation of its input, of the same length |
| `Seqs.SumSort` | src/lib/models/actuarial.ts:188-203 | summing the sorted outcomes gives the same total as summing them in drawing order |
| `Encounters.Outcomes` | src/lib/models/actuarial.ts:167-184 | 10,000 outcomes; outcome k is the k-th trial drawn from the generator seeded with you.age·1000 + them.age·100 + visitsPerYear, starting at the first draw, and its visits are its years times the rate |
| `Encounters.CalculateExpectedEncounters` | src/lib/models/actuarial.ts:126-223 | p25, p50 and p75 are the visit outcomes at ranks floor(0.25n), floor(0.5n) and floor(0.75n) of the sorted visits, and expectedVisits is p50; min and max are the year outcomes at ranks floor(0.1n) and floor(0.9n) of the sorted years; expected is the sum of the years over n; p25 ≤ p50 ≤ p75 and min ≤ max; the curve, life expectancies, source "UN World Population Prospects 2024" and year 2024 are recorded |
| `Encounters.YearsWithinHorizon` | src/lib/models/actuarial.ts:202-206 | for covered ages the mean, 10th and 90th percentile of years both alive lie between 0 and the horizon |
| `Encounters.VisitsWithinHorizon` | src/lib/models/actuarial.ts:195-199 | for covered ages and a non-negative rate, p25 ≥ 0 and p75 ≤ horizon × rate |
| `Encounters.ZeroRateZeroEncounters` | src/lib/models/actuarial.ts:179-199 | a zero visit rate gives p25 = p50 = p75 = expectedVisits = 0, whatever the ages |
| `Encounters.OverAgeGivesNegativeYears` | src/lib/models/actuarial.ts:99-117 | with your age in the table and the other age above 100, the 10th and 90th percentile of years together are both 100 − their age (negative), and expectedVisits is that times the rate |
| `Encounters.ResultDependsOnAgesAndRate` | src/lib/models/actuarial.ts:167-169 | two inputs with the same ages and visit rate give the same result for the same tables and generator |
| `Encounters.PeakAge` | src/lib/models/actuarial.ts:234-243 | the peak is 18 exactly for the six parent and grandparent names, and 15 otherwise |
| `Encounters.TimeAlreadySpent` | src/lib/models/actuarial.ts:229-251 | up to the peak the share is age / peak, within [0, 1] for a non-negative age; past the peak it lies strictly between 0.7 and 0.95 for an exponential with values in (0, 1) below 0 |
| `Encounters.TimeSpentEndpoints` | src/lib/models/actuarial.ts:245-247 | the share is 0 at age 0 and 1 at the peak age |
| `Encounters.TimeSpentGrowsToPeak` | src/lib/models/actuarial.ts:245-247 | up to the peak the share grows with age |
| `Encounters.TimeSpentGrowsAfterPeak` | src/lib/models/actuarial.ts:249-251 | past the peak the share grows with age for an increasing exponential |
| `Encounters.TimeSpentDropsAfterPeak` | src/lib/models/actuarial.ts:243-251 | every age past the peak has a smaller share than the peak age itself |
| `Encounters.ParentPeak` | src/lib/models/actuarial.ts:234-243 | the peak is 18 exactly for the parent and grandparent constructors |
| `Validation.ParsePerson` | src/lib/validation/schemas.ts:10-29 | a person is accepted exactly when the age is whole and in 0..100, the sex is male or female, and the country is three letters A–Z; the typed person carries the same values (the other person's schema, lines 92-111, states the same rules) |
| `Validation.ParseTimesPerPeriod` | src/lib/validation/schemas.ts:65-86 | a pair is accepted exactly when the period is known and the count is whole, at least 1 and at most the frequency helper's maximum; an accepted pair converts to between 1 and 372 visits a year |
| `Validation.SchemaMaxMatchesHelper` | src/lib/validation/schemas.ts:72-78 | the schema's maximum table agrees with the frequency helper on every period |
| `Validation.ParseRelationship` | src/lib/validation/schemas.ts:116-160 | a relationship is accepted exactly when both people, the relation name, a whole visit rate in 0..365 and the optional fields are valid, and for a parent relation the other person is strictly older; the typed input holds the two parsed people (age, sex, country), the relation, the rate and the optional fields unchanged |
| `Validation.AcceptedInputIsCovered` | src/lib/validation/schemas.ts:116-125 | an accepted relationship has both ages in 0..100 and a non-negative visit rate |
| `Validation.ParentsAreOlder` | src/lib/validation/schemas.ts:139-160 | an accepted parent or grandparent relation has the other person strictly older |
| `Validation.OtherRelationsAnyOrder` | src/lib/validation/schemas.ts:151-154 | for partner, friend, other_family and other, exchanging the two ages keeps an accepted input accepted |
| `Validation.YourAgeRefinementRedundant` | src/lib/validation/schemas.ts:129-138 | the separate check on your age never rejects a person the person schema accepted |
| `Validation.TimesNotCheckedAgainstMaximum` | src/lib/validation/schemas.ts:126-127 | inside a relationship thirty visits a week are accepted, while the times-per-period schema rejects them |
| `CountryData.FindCountry` | src/lib/data/index.ts:27 | the lookup returns the first country with the code, and nothing exactly when no country has it |
| `CountryData.AvailableCountries` | src/lib/data/index.ts:19-21 | the result holds exactly the countries with data, each as often as in the list, in list order |
| `CountryData.HasLifeTableData` | src/lib/data/index.ts:26-29 | the answer is the hasData of the first country with the code, and false for an unknown code |
| `CountryData.CountryName` | src/lib/data/index.ts:92-97 | an unknown code names itself; otherwise the first match gives nameEs for Spanish and name for English |
| `CountryData.AvailableHaveData` | src/lib/data/__tests__/index.test.ts:181-188 | with unique codes, every available country reports data |

## Left out

- The mulberry32 generator (src/lib/models/actuarial.ts:86-93) relies on JavaScript's int32 and double coercions. It is a parameter here, `generator: int -> Draws`, and no property depends on the draws lying in [0, 1).
- `getLifeTable` and its two error classes (src/lib/data/index.ts:31-87) are network I/O. The tables are parameters of the engine.
- Encounters.TimeAlreadySpent: takes `Math.exp` as the parameter `exp`. The post-peak properties assume only what they state about it: values in (0, 1) below 0, or monotonicity. The numeric values of the exponential are not modelled.
- IEEE-754 doubles: probabilities and survivor counts are exact reals, so rounding, NaN and Infinity are not modelled.
- LifeTableAccess.SurvivalAt: requires the first row at the current age, if any, to have a non-zero lx. The source divides by it regardless and would return NaN or Infinity there. A zero lx at the target age is allowed and gives 0.
- LifeTableAccess.SurvivalProbability: requires a non-zero lx at the row for floor(age), for the same reason.
- SurvivalCurve.YearByYearSurvival: requires a non-zero lx at each person's current-age row, for the same reason.
- Encounters.CalculateExpectedEncounters: requires a non-zero lx at each person's current-age row, for the same reason.
- Encounters.CalculateExpectedEncounters: takes whole ages and a whole visit rate, the only values the form produces (`parseInt`). Fractional ages and rates passed to the engine by other callers are not modelled. The accessors still take real ages.
- MonteCarlo.Percentile: requires a non-empty sequence and takes the percentile as a whole percentage (10, 25, 50, 75, 90). The source calls it only with 10,000 outcomes and those five fractions. An empty array would give `undefined` there.
- Frequency.VisitsPerYear: takes an integer count. The source accepts any number, and its tests pass 1.5 a month; fractional counts are not modelled. The application itself never calls this helper.
- Validation: zod's error messages, the distinction between a missing field and a wrongly typed one, and non-numeric values are not modelled. A schema either yields the typed value or nothing.
- The statistical tests (result scaling with the visit rate within ±20%, variance of the Monte Carlo range) are properties of the generator's distribution, not of the code's logic, and are not stated.
- React components, ETL scripts, i18n, middleware and configuration are outside the engine.
