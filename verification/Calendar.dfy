/** Calendar dates and months as the client reads them from `Date` objects:
    `getFullYear()`, `getMonth()` and the month arithmetic of
    `new Date(year, month - i, 1)`. Months are 1-based here (January is 1)
    where `getMonth()` is 0-based; only equality and order of months matter. */
module Calendar {

  /** A calendar date, already parsed and placed in a fixed time zone. */
  datatype CalDate = CalDate(year: int, month: int, day: int)

  /** A (year, month) pair: the bucket a date falls into. */
  datatype YearMonth = YearMonth(year: int, month: int)

  predicate WellFormed(ym: YearMonth) {
    1 <= ym.month <= 12
  }

  /** The month a date falls in. */
  function MonthOf(d: CalDate): YearMonth {
    YearMonth(d.year, d.month)
  }

  /** Months counted from January of year 0. */
  function MonthIndex(ym: YearMonth): int {
    ym.year * 12 + (ym.month - 1)
  }

  /** The month with the given index. The floor division is what `Date`
      does with an out-of-range month argument: month -1 of a year is
      December of the year before. */
  function FromMonthIndex(i: int): (ym: YearMonth)
    ensures WellFormed(ym)
    ensures MonthIndex(ym) == i
  {
    YearMonth(i / 12, i % 12 + 1)
  }

  lemma FromMonthIndexInverse(ym: YearMonth)
    requires WellFormed(ym)
    ensures FromMonthIndex(MonthIndex(ym)) == ym
  {
  }

  /** The first day of `new Date(y, m - back, 1)` for the month `ref`, as a month. */
  function MonthsBefore(ref: YearMonth, back: nat): (ym: YearMonth)
    ensures WellFormed(ym)
    ensures MonthIndex(ym) == MonthIndex(ref) - back
  {
    FromMonthIndex(MonthIndex(ref) - back)
  }

  /** The month after `ym`, with the year rolling over after December. */
  function Next(ym: YearMonth): YearMonth {
    if ym.month == 12 then YearMonth(ym.year + 1, 1) else YearMonth(ym.year, ym.month + 1)
  }

  /** Stepping `back + 1` months back and then one forward lands `back` months back. */
  lemma NextOfMonthsBefore(ref: YearMonth, back: nat)
    ensures Next(MonthsBefore(ref, back + 1)) == MonthsBefore(ref, back)
  {
  }

  /** Zero months back is the reference month itself. */
  lemma MonthsBeforeZero(ref: YearMonth)
    requires WellFormed(ref)
    ensures MonthsBefore(ref, 0) == ref
  {
  }

  /** Distinct offsets give distinct months. */
  lemma MonthsBeforeInjective(ref: YearMonth, a: nat, b: nat)
    requires a != b
    ensures MonthsBefore(ref, a) != MonthsBefore(ref, b)
  {
  }

  /** `a` is on or before `b`: the order of the time values `new Date(a)` and
      `new Date(b)` for date-only values. */
  predicate OnOrBefore(a: CalDate, b: CalDate) {
    a.year < b.year
    || (a.year == b.year && a.month < b.month)
    || (a.year == b.year && a.month == b.month && a.day <= b.day)
  }

  lemma OnOrBeforeTotal(a: CalDate, b: CalDate)
    ensures OnOrBefore(a, b) || OnOrBefore(b, a)
  {
  }

  lemma OnOrBeforeTransitive(a: CalDate, b: CalDate, c: CalDate)
    requires OnOrBefore(a, b) && OnOrBefore(b, c)
    ensures OnOrBefore(a, c)
  {
  }
}
