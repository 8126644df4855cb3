/** The Monte Carlo part of the encounter engine: sampling a death year by
    walking the yearly death probabilities against a stream of uniform
    draws, running independent trials, and reading rank-based percentiles
    from the sorted outcomes. */
module MonteCarlo {
  import opened Seqs
  import opened Types
  import opened LifeTableAccess

  /** Number of simulated futures per calculation. */
  const MonteCarloSimulations: nat := 10000

  /** The seeded generator's output: `draws(k)` is the value its k-th call
      returns. */
  type Draws = nat -> real

  /** A sampled death: years from now until death, and the position of the
      first draw not yet used. */
  datatype DeathSample = DeathSample(year: int, next: nat)

  /** The table has a row for age `age + u`, and the draw made for that year,
      which is the `start + u`-th, is not below the row's death probability:
      the person lives through year `u`. */
  predicate SurvivesYear(entries: seq<LifeTableEntry>, age: int, draws: Draws, start: nat, u: nat) {
    match IndexAt(entries, age + u)
    case None => false
    case Some(i) => draws(start + u) >= entries[i].qx
  }

  /** The table has a row for year `u`, so a draw decides that year; the
      person dies in it when the draw is below the row's qx. */
  predicate DrawDecides(entries: seq<LifeTableEntry>, age: int, u: int) {
    IndexAt(entries, age + u).Some?
  }

  /** The walk from year `t` on: the first year in [t, maxYears) the person
      does not live through, or `maxYears` if there is none. Every year
      lived through uses one draw, and so does a death decided by a draw;
      a year without a row ends the walk without drawing. */
  function WalkFrom(entries: seq<LifeTableEntry>, age: int, maxYears: int, draws: Draws, start: nat, t: nat)
    : (s: DeathSample)
    requires t <= maxYears
    decreases maxYears - t
    ensures t <= s.year <= maxYears
    ensures forall u: nat :: t <= u < s.year ==> SurvivesYear(entries, age, draws, start, u)
    ensures s.year < maxYears ==> !SurvivesYear(entries, age, draws, start, s.year)
    ensures s.next == start + s.year + (if s.year < maxYears && DrawDecides(entries, age, s.year) then 1 else 0)
  {
    if t == maxYears then DeathSample(t, start + t)
    else if !DrawDecides(entries, age, t) then DeathSample(t, start + t)
    else if !SurvivesYear(entries, age, draws, start, t) then DeathSample(t, start + t + 1)
    else WalkFrom(entries, age, maxYears, draws, start, t + 1)
  }

  /** Years until death for someone aged `age`, drawing from position
      `start` on: the first year the person does not live through, or the
      years left to the oldest tabulated age. Past that age the loop never
      runs and the (negative) distance to it comes back unchanged. */
  function SampleDeathYear(table: LifeTable, age: int, draws: Draws, start: nat): (s: DeathSample)
    ensures MaxYears(age) <= 0 ==> s == DeathSample(MaxYears(age), start)
    ensures CoveredAge(age) ==> 0 <= s.year <= MaxYears(age)
    ensures forall u: nat :: u < s.year ==> SurvivesYear(table.entries, age, draws, start, u)
    ensures 0 <= s.year < MaxYears(age) ==> !SurvivesYear(table.entries, age, draws, start, s.year)
    ensures 0 <= s.year ==>
      s.next == start + s.year + (if s.year < MaxYears(age) && DrawDecides(table.entries, age, s.year) then 1 else 0)
  {
    var maxYears := MaxYears(age);
    if maxYears <= 0 then DeathSample(maxYears, start)
    else WalkFrom(table.entries, age, maxYears, draws, start, 0)
  }

  /** The sampled year is the only year the walk could stop at: any year
      with the same first-death description is the sampled one. */
  lemma DeathYearIsFirstDeath(table: LifeTable, age: int, draws: Draws, start: nat, y: nat)
    requires CoveredAge(age)
    requires y <= MaxYears(age)
    requires forall u: nat :: u < y ==> SurvivesYear(table.entries, age, draws, start, u)
    requires y < MaxYears(age) ==> !SurvivesYear(table.entries, age, draws, start, y)
    ensures SampleDeathYear(table, age, draws, start).year == y
  {
  }

  /** A person whose table covers every remaining year and whose every draw
      is at least every death probability lives to the oldest tabulated age. */
  lemma NoDeathDrawSurvivesToMax(table: LifeTable, age: int, draws: Draws, start: nat)
    requires CoveredAge(age)
    requires forall a :: age <= a < MaxTableAge ==> !MissingAge(table.entries, a)
    requires forall k: nat, i :: 0 <= i < |table.entries| ==> draws(k) >= table.entries[i].qx
    ensures SampleDeathYear(table, age, draws, start).year == MaxYears(age)
  {
  }

  /** Visits in `years` years at `v` visits a year. */
  function TotalVisits(years: int, v: int): int {
    years * v
  }

  /** One simulated future: the years both are alive, and the position of
      the first draw the next trial uses. */
  datatype Trial = Trial(years: int, next: nat)

  /** Multiplying a range of years by a non-negative visit rate keeps order. */
  lemma ScaleWithin(a: int, b: int, v: int)
    requires 0 <= a <= b && 0 <= v
    ensures 0 <= TotalVisits(a, v) <= TotalVisits(b, v)
  {
  }

  /** One trial: sample your death year, then theirs from the next unused
      draw; both are alive until the earlier of the two. */
  function RunTrial(yourTable: LifeTable, youAge: int, theirTable: LifeTable, themAge: int,
                    draws: Draws, start: nat): (tr: Trial)
    ensures CoveredAge(youAge) && CoveredAge(themAge) ==> 0 <= tr.years <= Horizon(youAge, themAge)
  {
    var yours := SampleDeathYear(yourTable, youAge, draws, start);
    var theirs := SampleDeathYear(theirTable, themAge, draws, yours.next);
    Trial(if yours.year <= theirs.year then yours.year else theirs.year, theirs.next)
  }

  /** Both are alive until the earlier of the two sampled deaths, and the
      next trial draws where their sample stopped. */
  lemma TrialIsEarlierDeath(yourTable: LifeTable, youAge: int, theirTable: LifeTable, themAge: int,
                            draws: Draws, start: nat)
    ensures var tr := RunTrial(yourTable, youAge, theirTable, themAge, draws, start);
      var yours := SampleDeathYear(yourTable, youAge, draws, start);
      var theirs := SampleDeathYear(theirTable, themAge, draws, yours.next);
      && tr.years <= yours.year && tr.years <= theirs.year
      && (tr.years == yours.year || tr.years == theirs.year)
      && tr.next == theirs.next
  {
  }

  /** Position reached after `k` steps of `step` from `start`, taking the
      first step first. */
  function Iterate(k: nat, step: nat -> nat, start: nat): nat {
    if k == 0 then start else Iterate(k - 1, step, step(start))
  }

  /** Taking one more step is applying `step` to the position after `k`
      steps. */
  lemma {:induction false} IterateChain(k: nat, step: nat -> nat, start: nat)
    ensures Iterate(k + 1, step, start) == step(Iterate(k, step, start))
  {
    if k > 0 {
      IterateChain(k - 1, step, step(start));
    }
  }

  /** The draw position at which trial `k` starts when trial 0 starts at
      `start`: the end of `k` trials run one after the other. */
  function TrialStart(k: nat, yourTable: LifeTable, youAge: int, theirTable: LifeTable, themAge: int,
                      draws: Draws, start: nat): nat
  {
    Iterate(k, pos => RunTrial(yourTable, youAge, theirTable, themAge, draws, pos).next, start)
  }

  /** Each trial starts drawing exactly where the previous trial stopped:
      all trials share one stream and no draw is skipped or reused. */
  lemma TrialStartChain(k: nat, yourTable: LifeTable, youAge: int, theirTable: LifeTable,
                        themAge: int, draws: Draws, start: nat)
    ensures TrialStart(k + 1, yourTable, youAge, theirTable, themAge, draws, start)
         == RunTrial(yourTable, youAge, theirTable, themAge, draws,
                     TrialStart(k, yourTable, youAge, theirTable, themAge, draws, start)).next
  {
    IterateChain(k, pos => RunTrial(yourTable, youAge, theirTable, themAge, draws, pos).next, start);
  }

  /** The years both are alive in each of `n` trials: outcome `k` is the
      trial run from draw position `TrialStart(k)`. */
  function SimulateYears(n: nat, yourTable: LifeTable, youAge: int, theirTable: LifeTable, themAge: int,
                         draws: Draws, start: nat): (years: seq<int>)
    ensures |years| == n
    ensures forall k: nat :: k < n ==>
      years[k] == RunTrial(yourTable, youAge, theirTable, themAge, draws,
                           TrialStart(k, yourTable, youAge, theirTable, themAge, draws, start)).years
    ensures CoveredAge(youAge) && CoveredAge(themAge) ==> AllWithin(years, 0, Horizon(youAge, themAge))
  {
    if n == 0 then []
    else
      var tr := RunTrial(yourTable, youAge, theirTable, themAge, draws, start);
      var rest := SimulateYears(n - 1, yourTable, youAge, theirTable, themAge, draws, tr.next);
      ConsWithin(tr.years, rest, 0, Horizon(youAge, themAge));
      var years := [tr.years] + rest;
      assert forall k: nat :: 0 < k < n ==> years[k] == rest[k - 1];
      years
  }

  /** Each trial's visit total: its years both alive times the visit rate. */
  function ScaleVisits(years: seq<int>, v: int): (visits: seq<int>)
    ensures |visits| == |years|
    ensures forall k :: 0 <= k < |years| ==> visits[k] == TotalVisits(years[k], v)
    ensures forall h :: 0 <= v && AllWithin(years, 0, h) ==> AllWithin(visits, 0, TotalVisits(h, v))
  {
    if |years| == 0 then []
    else
      var rest := ScaleVisits(years[1..], v);
      var visits := [TotalVisits(years[0], v)] + rest;
      assert forall k :: 1 <= k < |years| ==> visits[k] == rest[k - 1] && years[k] == years[1..][k - 1];
      assert forall h :: 0 <= v && AllWithin(years, 0, h) ==> AllWithin(years[1..], 0, h) && 0 <= years[0] <= h;
      ScaleFirst(years[0], rest, v);
      visits
  }

  /** The bounds step for one more trial in front. */
  lemma ScaleFirst(y: int, rest: seq<int>, v: int)
    ensures forall h :: 0 <= v && 0 <= y <= h && AllWithin(rest, 0, TotalVisits(h, v)) ==>
      AllWithin([TotalVisits(y, v)] + rest, 0, TotalVisits(h, v))
  {
    forall h | 0 <= v && 0 <= y <= h && AllWithin(rest, 0, TotalVisits(h, v))
      ensures AllWithin([TotalVisits(y, v)] + rest, 0, TotalVisits(h, v))
    {
      ScaleWithin(y, h, v);
      ConsWithin(TotalVisits(y, v), rest, 0, TotalVisits(h, v));
    }
  }

  /** The outcomes of a run of trials, in the order they were drawn. */
  datatype Samples = Samples(years: seq<int>, visits: seq<int>)

  /** `n` trials: the years both alive in each, and the visits they bring. */
  function Simulate(n: nat, yourTable: LifeTable, youAge: int, theirTable: LifeTable, themAge: int, v: int,
                    draws: Draws, start: nat): (s: Samples)
    ensures |s.years| == n && |s.visits| == n
    ensures forall k: nat :: k < n ==>
      s.years[k] == RunTrial(yourTable, youAge, theirTable, themAge, draws,
                             TrialStart(k, yourTable, youAge, theirTable, themAge, draws, start)).years
    ensures forall k :: 0 <= k < n ==> s.visits[k] == TotalVisits(s.years[k], v)
    ensures CoveredAge(youAge) && CoveredAge(themAge) ==> AllWithin(s.years, 0, Horizon(youAge, themAge))
    ensures CoveredAge(youAge) && CoveredAge(themAge) && 0 <= v ==>
      AllWithin(s.visits, 0, TotalVisits(Horizon(youAge, themAge), v))
  {
    var years := SimulateYears(n, yourTable, youAge, theirTable, themAge, draws, start);
    Samples(years, ScaleVisits(years, v))
  }

  /** A zero visit rate gives zero visits in every trial. */
  lemma ZeroRateZeroVisits(years: seq<int>)
    ensures AllWithin(ScaleVisits(years, 0), 0, 0)
  {
    var visits := ScaleVisits(years, 0);
    forall k | 0 <= k < |years|
      ensures visits[k] == 0
    {
      assert visits[k] == TotalVisits(years[k], 0);
    }
  }

  /** The rank read for percentile `pct` (in percent) of `n` sorted values:
      floor(n * pct / 100), clamped to the last rank. */
  function PercentileIndex(n: nat, pct: nat): (k: nat)
    requires n > 0
    ensures k < n
    ensures k * 100 <= n * pct
    ensures k == n - 1 || n * pct < (k + 1) * 100
  {
    var idx := n * pct / 100;
    if idx < n - 1 then idx else n - 1
  }

  /** `getPercentile`: the value at rank floor(n * pct / 100), clamped. On a
      sorted sequence every value ranked below n * pct / 100 is at most the
      result and every value ranked at least one past it is at least it. */
  function Percentile(s: seq<int>, pct: nat): (r: int)
    requires |s| > 0
    ensures r == s[PercentileIndex(|s|, pct)]
    ensures Sorted(s) ==> forall i :: 0 <= i < |s| && i * 100 < |s| * pct ==> s[i] <= r
    ensures Sorted(s) ==> forall i :: PercentileIndex(|s|, pct) <= i < |s| ==> r <= s[i]
  {
    var k := PercentileIndex(|s|, pct);
    assert forall i :: 0 <= i < |s| && i * 100 < |s| * pct ==> i <= k;
    s[k]
  }

  lemma RankMonotone(n: nat, p: nat, q: nat)
    requires n > 0 && p <= q
    ensures PercentileIndex(n, p) <= PercentileIndex(n, q)
  {
    var d: nat := q - p;
    assert n * q == n * p + n * d;
    var kp, kq := PercentileIndex(n, p), PercentileIndex(n, q);
    assert kp * 100 <= n * p;
    assert kq == n - 1 || n * q < (kq + 1) * 100;
  }

  /** Higher percentiles of a sorted sequence are never smaller. */
  lemma PercentileMonotone(s: seq<int>, p: nat, q: nat)
    requires |s| > 0 && Sorted(s) && p <= q
    ensures Percentile(s, p) <= Percentile(s, q)
  {
    RankMonotone(|s|, p, q);
  }

  /** Percentiles stay within any bounds the values respect. */
  lemma PercentileWithin(s: seq<int>, pct: nat, lo: int, hi: int)
    requires |s| > 0 && AllWithin(s, lo, hi)
    ensures lo <= Percentile(s, pct) <= hi
  {
  }

  lemma CastProduct(a: int, b: int)
    ensures (a * b) as real == a as real * b as real
  {
  }

  lemma DivideWithin(x: real, n: real, lo: real, hi: real)
    requires n > 0.0 && n * lo <= x <= n * hi
    ensures lo <= x / n <= hi
  {
    assert x / n * n == x;
  }

  /** The mean of values within [lo, hi] is within [lo, hi]. */
  lemma MeanWithin(s: seq<int>, lo: int, hi: int)
    requires |s| > 0 && AllWithin(s, lo, hi)
    ensures lo as real <= Sum(s) as real / |s| as real <= hi as real
  {
    SumWithin(s, lo, hi);
    CastProduct(|s|, lo);
    CastProduct(|s|, hi);
    DivideWithin(Sum(s) as real, |s| as real, lo as real, hi as real);
  }
}
