/** The deterministic year-by-year joint survival curve: one row per year
    offset, joint survival taken as the product of the two marginals
    (independent mortality), truncated once the joint probability becomes
    negligible. */
module SurvivalCurve {
  import opened Types
  import opened LifeTableAccess

  /** Joint probabilities below this end the curve (row 0 excepted). */
  const MinProbabilityThreshold: real := 0.0001

  /** Probability that both are alive `t` years from now. */
  function JointSurvival(youTable: LifeTable, youAge: int, themTable: LifeTable, themAge: int, t: int): real
    requires NonZeroLxAt(youTable.entries, youAge) && NonZeroLxAt(themTable.entries, themAge)
  {
    Both(SurvivalAt(youTable, youAge, t), SurvivalAt(themTable, themAge, t))
  }

  /** The joint probability of two independent events. */
  function Both(p: real, q: real): real {
    p * q
  }

  /** Every row's joint probability is the product of its marginals
      (the two deaths are taken to be independent). */
  predicate JointIsProduct(rows: seq<SurvivalPoint>) {
    forall k :: 0 <= k < |rows| ==> rows[k].bothAlive == Both(rows[k].youAlive, rows[k].themAlive)
  }

  /** Survival probabilities 0, 1, ..., n-1 years ahead. */
  function Marginals(table: LifeTable, age: int, n: nat): (ps: seq<real>)
    requires NonZeroLxAt(table.entries, age)
    ensures |ps| == n
    ensures forall t :: 0 <= t < n ==> ps[t] == SurvivalAt(table, age, t)
  {
    if n == 0 then [] else Marginals(table, age, n - 1) + [SurvivalAt(table, age, n - 1)]
  }

  /** Number of year offsets t with 0 <= t <= horizon. */
  function YearCount(horizon: int): (n: nat)
    ensures horizon < 0 ==> n == 0
    ensures 0 <= horizon ==> n == horizon + 1
  {
    if horizon < 0 then 0 else horizon + 1
  }

  /** The curve from year offset `t` on, for the marginal survival
      probabilities `you` and `them` (index = years ahead). */
  function CurveFrom(you: seq<real>, them: seq<real>, t: nat): (rows: seq<SurvivalPoint>)
    requires |you| == |them|
    decreases |you| - t
    ensures t + |rows| <= |you| || |rows| == 0
    ensures forall k :: 0 <= k < |rows| ==>
      && t + k < |you|
      && rows[k].year == t + k
      && rows[k].youAlive == you[t + k]
      && rows[k].themAlive == them[t + k]
      && rows[k].bothAlive == Both(rows[k].youAlive, rows[k].themAlive)
    ensures forall k :: 0 <= k < |rows| && t + k > 0 ==> rows[k].bothAlive >= MinProbabilityThreshold
    ensures t + |rows| < |you| ==>
      t + |rows| > 0 && Both(you[t + |rows|], them[t + |rows|]) < MinProbabilityThreshold
  {
    if t >= |you| then []
    else
      var youAlive := you[t];
      var themAlive := them[t];
      var bothAlive := Both(youAlive, themAlive);
      if bothAlive < MinProbabilityThreshold && t > 0 then []
      else
        var rest := CurveFrom(you, them, t + 1);
        var rows := [SurvivalPoint(t, youAlive, themAlive, bothAlive)] + rest;
        assert forall k :: 1 <= k < |rows| ==> rows[k] == rest[k - 1];
        rows
  }

  /** The curve returned with a calculation: rows for years 0, 1, 2, ... up
      to the horizon, cut short at the first later year whose joint
      probability falls below the threshold. */
  function YearByYearSurvival(youTable: LifeTable, youAge: int, themTable: LifeTable, themAge: int)
    : (rows: seq<SurvivalPoint>)
    requires NonZeroLxAt(youTable.entries, youAge) && NonZeroLxAt(themTable.entries, themAge)
    ensures forall k :: 0 <= k < |rows| ==> rows[k].year == k && k <= Horizon(youAge, themAge)
    ensures JointIsProduct(rows)
    ensures forall k :: 0 < k < |rows| ==> rows[k].bothAlive >= MinProbabilityThreshold
    ensures 0 <= Horizon(youAge, themAge) <==> |rows| >= 1
  {
    var n := YearCount(Horizon(youAge, themAge));
    CurveFrom(Marginals(youTable, youAge, n), Marginals(themTable, themAge, n), 0)
  }

  /** Each row holds the two marginal survival probabilities for its year. */
  lemma CurveRowsAreMarginals(youTable: LifeTable, youAge: int, themTable: LifeTable, themAge: int)
    requires NonZeroLxAt(youTable.entries, youAge) && NonZeroLxAt(themTable.entries, themAge)
    ensures var rows := YearByYearSurvival(youTable, youAge, themTable, themAge);
      forall k :: 0 <= k < |rows| ==>
        && rows[k].youAlive == SurvivalAt(youTable, youAge, k)
        && rows[k].themAlive == SurvivalAt(themTable, themAge, k)
  {
    var n := YearCount(Horizon(youAge, themAge));
    var you := Marginals(youTable, youAge, n);
    var them := Marginals(themTable, themAge, n);
    var rows := CurveFrom(you, them, 0);
    assert forall k :: 0 <= k < |rows| ==> rows[k].youAlive == you[k] && rows[k].themAlive == them[k];
  }

  /** A curve that ends before the horizon ends at the first later year whose
      joint survival is below the threshold. */
  lemma CurveStopsAtThreshold(youTable: LifeTable, youAge: int, themTable: LifeTable, themAge: int)
    requires NonZeroLxAt(youTable.entries, youAge) && NonZeroLxAt(themTable.entries, themAge)
    ensures var rows := YearByYearSurvival(youTable, youAge, themTable, themAge);
      |rows| <= Horizon(youAge, themAge) ==>
        |rows| > 0 && JointSurvival(youTable, youAge, themTable, themAge, |rows|) < MinProbabilityThreshold
  {
    var n := YearCount(Horizon(youAge, themAge));
    var you := Marginals(youTable, youAge, n);
    var them := Marginals(themTable, themAge, n);
    var rows := CurveFrom(you, them, 0);
    if |rows| <= Horizon(youAge, themAge) {
      assert |rows| < n;
      assert Both(you[|rows|], them[|rows|]) < MinProbabilityThreshold;
    }
  }

  /** When both current ages are tabulated and the horizon is not negative,
      the curve starts with both certainly alive. */
  lemma CurveStartsCertain(youTable: LifeTable, youAge: int, themTable: LifeTable, themAge: int)
    requires NonZeroLxAt(youTable.entries, youAge) && NonZeroLxAt(themTable.entries, themAge)
    requires !MissingAge(youTable.entries, youAge) && !MissingAge(themTable.entries, themAge)
    requires 0 <= Horizon(youAge, themAge)
    ensures var rows := YearByYearSurvival(youTable, youAge, themTable, themAge);
      |rows| >= 1 && rows[0].youAlive == 1.0 && rows[0].themAlive == 1.0 && rows[0].bothAlive == 1.0
  {
    CurveRowsAreMarginals(youTable, youAge, themTable, themAge);
    SurvivalAtZeroYears(youTable, youAge);
    SurvivalAtZeroYears(themTable, themAge);
  }
}
