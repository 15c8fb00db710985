/** `calculate_total_months` of bot.py's countdown: whole calendar months between two dates. */
module Countdown {

  /** A calendar date; the time of day plays no part in the month count. */
  datatype Date = Date(year: int, month: int, day: int)

  /** Months since year 0, so that consecutive months differ by one. */
  function MonthIndex(d: Date): int {
    d.year * 12 + d.month
  }

  /** The date `k` months after `d` on the same day of the month, as (month index, day). */
  function Shifted(d: Date, k: int): (int, int) {
    (MonthIndex(d) + k, d.day)
  }

  predicate OnOrBefore(a: (int, int), b: Date) {
    a.0 < MonthIndex(b) || (a.0 == MonthIndex(b) && a.1 <= b.day)
  }

  /** The number of whole months from `start` to `end`: the largest k such that k months
      after `start`, on the same day, is not later than `end` (negative when `end` is earlier). */
  function TotalMonths(start: Date, end: Date): (k: int)
    ensures OnOrBefore(Shifted(start, k), end)
    ensures !OnOrBefore(Shifted(start, k + 1), end)
  {
    (end.year - start.year) * 12 + end.month - start.month - (if end.day < start.day then 1 else 0)
  }

  /** The two conditions above pin the count down: no other k satisfies both. */
  lemma TotalMonthsUnique(start: Date, end: Date, k: int)
    requires OnOrBefore(Shifted(start, k), end) && !OnOrBefore(Shifted(start, k + 1), end)
    ensures k == TotalMonths(start, end)
  {
  }
}
