/** Conversion between "times per period" and annual visits. The period is
    the raw period name, so that a name outside the enumeration reaches the
    `default` branch exactly as the switch statements do. */
module Frequency {
  import opened Wrappers
  import opened Types

  /** How many of each period fit in a year: the reference the conversion is
      checked against. */
  function PeriodsPerYear(p: FrequencyPeriod): nat {
    match p
    case Weekly => 52
    case Monthly => 12
    case Quarterly => 4
    case Yearly => 1
  }

  /** Largest sensible number of visits in one period (days in the period). */
  function MaxTimesForPeriod(period: string): (r: nat)
    ensures 7 <= r <= 365
    ensures ParseFrequencyPeriod(period).None? ==> r == 365
    ensures ParseFrequencyPeriod(period) == Some(Weekly) <==> r == 7
  {
    if period == "weekly" then 7
    else if period == "monthly" then 31
    else if period == "quarterly" then 90
    else if period == "yearly" then 365
    else 365
  }

  /** Annual visits for `times` visits per period. */
  function VisitsPerYear(period: string, times: int): (r: int)
    ensures ParseFrequencyPeriod(period).Some? ==>
      r == times * PeriodsPerYear(ParseFrequencyPeriod(period).value)
    ensures ParseFrequencyPeriod(period).None? ==> r == times
  {
    if period == "weekly" then times * 52
    else if period == "monthly" then times * 12
    else if period == "quarterly" then times * 4
    else if period == "yearly" then times
    else times
  }

  /** The maxima per period: a week's, a long month's, a quarter's and a
      year's worth of days, and a year's worth for any other name. */
  lemma MaxTimesTable()
    ensures MaxTimesForPeriod("weekly") == 7
    ensures MaxTimesForPeriod("monthly") == 31
    ensures MaxTimesForPeriod("quarterly") == 90
    ensures MaxTimesForPeriod("yearly") == 365
    ensures MaxTimesForPeriod("fortnightly") == 365
  {
  }

  /** For a fixed period the conversion is additive in `times` ... */
  lemma VisitsPerYearAdditive(period: string, a: int, b: int)
    ensures VisitsPerYear(period, a + b) == VisitsPerYear(period, a) + VisitsPerYear(period, b)
  {
  }

  /** ... and monotone, never below `times` itself for a non-negative count. */
  lemma VisitsPerYearMonotone(period: string, a: int, b: int)
    requires a <= b
    ensures VisitsPerYear(period, a) <= VisitsPerYear(period, b)
    ensures 0 <= a ==> a <= VisitsPerYear(period, a)
  {
  }

  /** Zero visits per period is zero visits per year, whatever the period. */
  lemma ZeroTimesZeroVisits(period: string)
    ensures VisitsPerYear(period, 0) == 0
  {
  }

  /** At the per-period maximum the annual count stays within a year's days
      for every period except monthly (31 * 12 = 372). */
  lemma VisitsAtMaximum(p: FrequencyPeriod)
    ensures VisitsPerYear(PeriodName(p), MaxTimesForPeriod(PeriodName(p))) > 365
      <==> p == Monthly
    ensures VisitsPerYear("weekly", MaxTimesForPeriod("weekly")) == 364
    ensures VisitsPerYear("monthly", MaxTimesForPeriod("monthly")) == 372
  {
  }
}
