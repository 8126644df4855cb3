/** Pure lookups against one life table: residual life expectancy and the
    survival ratio lx(a+t)/lx(a). A missing age means "no data" and degrades
    to 0, never to an error. */
module LifeTableAccess {
  import opened Wrappers
  import opened Types

  /** The oldest age the tables cover. */
  const MaxTableAge: int := 100

  /** Years until someone aged `age` reaches the oldest tabulated age
      (negative past that age). */
  function MaxYears(age: int): int {
    MaxTableAge - age
  }

  /** Years until the first of two people reaches the oldest tabulated age. */
  function Horizon(youAge: int, themAge: int): (h: int)
    ensures h <= MaxYears(youAge) && h <= MaxYears(themAge)
    ensures h == MaxYears(youAge) || h == MaxYears(themAge)
  {
    if MaxYears(youAge) <= MaxYears(themAge) then MaxYears(youAge) else MaxYears(themAge)
  }

  /** An age the tables cover. */
  predicate CoveredAge(age: int) {
    0 <= age <= MaxTableAge
  }

  /** `i` is the index of the first entry for integer age `a`. */
  predicate FirstAtAge(entries: seq<LifeTableEntry>, a: int, i: int) {
    0 <= i < |entries| && entries[i].age == a
    && forall j :: 0 <= j < i ==> entries[j].age != a
  }

  /** No entry has integer age `a`. */
  predicate MissingAge(entries: seq<LifeTableEntry>, a: int) {
    forall j :: 0 <= j < |entries| ==> entries[j].age != a
  }

  /** Index of the first entry whose age equals `a` (a linear `find`). */
  function IndexAt(entries: seq<LifeTableEntry>, a: int): (r: Option<nat>)
    ensures r.None? <==> MissingAge(entries, a)
    ensures r.Some? ==> FirstAtAge(entries, a, r.value)
  {
    if |entries| == 0 then None
    else if entries[0].age == a then Some(0)
    else
      match IndexAt(entries[1..], a)
      case None => None
      case Some(i) => Some(i + 1)
  }

  /** There is at most one first row for an age. */
  lemma FirstAtAgeUnique(entries: seq<LifeTableEntry>, a: int)
    ensures forall i, k :: FirstAtAge(entries, a, i) && FirstAtAge(entries, a, k) ==> i == k
  {
  }

  /** The first row at age `a`, if there is one, has a non-zero survivor
      count: a survival ratio from age `a` divides by it. */
  predicate NonZeroLxAt(entries: seq<LifeTableEntry>, a: int) {
    forall i :: 0 <= i < |entries| && FirstAtAge(entries, a, i) ==> entries[i].lx != 0.0
  }

  /** Residual life expectancy at `floor(age)`; 0 when the table has no row. */
  function LifeExpectancy(table: LifeTable, age: real): (r: real)
    ensures MissingAge(table.entries, age.Floor) ==> r == 0.0
    ensures forall i :: FirstAtAge(table.entries, age.Floor, i) ==> r == table.entries[i].ex
  {
    match IndexAt(table.entries, age.Floor)
    case None => 0.0
    case Some(i) => FirstAtAgeUnique(table.entries, age.Floor); table.entries[i].ex
  }

  /** Probability of surviving `years` more years from the whole age `a`. */
  function SurvivalAt(table: LifeTable, a: int, years: int): (r: real)
    requires NonZeroLxAt(table.entries, a)
    ensures MissingAge(table.entries, a) ==> r == 0.0
    ensures MissingAge(table.entries, a + years) ==> r == 0.0
  {
    var current := IndexAt(table.entries, a);
    var future := IndexAt(table.entries, a + years);
    if current.None? || future.None? then 0.0
    else table.entries[future.value].lx / table.entries[current.value].lx
  }

  /** Probability of surviving `years` more years from `currentAge`, read at
      the integer part of the age. */
  function SurvivalProbability(table: LifeTable, currentAge: real, years: int): (r: real)
    requires NonZeroLxAt(table.entries, currentAge.Floor)
    ensures MissingAge(table.entries, currentAge.Floor) ==> r == 0.0
    ensures MissingAge(table.entries, currentAge.Floor + years) ==> r == 0.0
  {
    SurvivalAt(table, currentAge.Floor, years)
  }

  /** With both rows present the probability is the ratio of survivor
      counts, lx(target) / lx(current), read from the first matching rows. */
  lemma SurvivalIsLxRatio(table: LifeTable, a: int, years: int, i: int, j: int)
    requires NonZeroLxAt(table.entries, a)
    requires FirstAtAge(table.entries, a, i)
    requires FirstAtAge(table.entries, a + years, j)
    ensures SurvivalAt(table, a, years) == table.entries[j].lx / table.entries[i].lx
  {
    FirstAtAgeUnique(table.entries, a);
    FirstAtAgeUnique(table.entries, a + years);
  }

  /** Zero years ahead is certain survival whenever the age is tabulated. */
  lemma SurvivalAtZeroYears(table: LifeTable, a: int)
    requires NonZeroLxAt(table.entries, a)
    requires !MissingAge(table.entries, a)
    ensures SurvivalAt(table, a, 0) == 1.0
  {
    var i := IndexAt(table.entries, a).value;
    SurvivalIsLxRatio(table, a, 0, i, i);
    SelfRatio(table.entries[i].lx);
  }

  /** A well-formed table: ages strictly ascending, survivor counts
      non-negative and non-increasing with age. */
  predicate WellFormed(table: LifeTable) {
    && (forall i :: 0 <= i < |table.entries| ==> table.entries[i].lx >= 0.0)
    && (forall i, j :: 0 <= i < j < |table.entries| ==>
          table.entries[i].age < table.entries[j].age
          && table.entries[j].lx <= table.entries[i].lx)
  }

  /** On a well-formed table looking ahead gives a probability. */
  lemma SurvivalIsProbability(table: LifeTable, a: int, years: int)
    requires WellFormed(table) && NonZeroLxAt(table.entries, a)
    requires years >= 0
    ensures 0.0 <= SurvivalAt(table, a, years) <= 1.0
  {
    var current := IndexAt(table.entries, a);
    var future := IndexAt(table.entries, a + years);
    if current.Some? && future.Some? {
      var i, j := current.value, future.value;
      assert i <= j;
      DivisionAtMostOne(table.entries[j].lx, table.entries[i].lx);
    }
  }

  lemma SelfRatio(x: real)
    requires x != 0.0
    ensures x / x == 1.0
  {
  }

  lemma DivisionAtMostOne(x: real, y: real)
    requires 0.0 <= x <= y && y != 0.0
    ensures 0.0 <= x / y <= 1.0
  {
  }

  /** A fractional age reads the rows of its integer part. */
  lemma FractionalAgeUsesFloor(table: LifeTable, whole: int, fraction: real, years: int)
    requires NonZeroLxAt(table.entries, whole)
    requires 0.0 <= fraction < 1.0
    ensures LifeExpectancy(table, whole as real + fraction) == LifeExpectancy(table, whole as real)
    ensures SurvivalProbability(table, whole as real + fraction, years) == SurvivalAt(table, whole, years)
  {
    assert (whole as real + fraction).Floor == whole;
  }
}
