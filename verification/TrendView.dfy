/** The spending trend chart: the twelve months up to the current one, a
    short label for each, what the ledger's records dated in each month add
    up to, and the empty state shown when every total is zero. */
module TrendView {
  import opened Values
  import opened Calendar
  import opened Records
  import Ledger
  import BudgetView

  const WindowLength: nat := 12

  /** The months `new Date(y, m - i, 1)` for `i` from 11 down to 0, oldest first. */
  function Window(ref: YearMonth): (w: seq<YearMonth>)
    ensures |w| == WindowLength
    ensures forall k :: 0 <= k < |w| ==> w[k] == MonthsBefore(ref, WindowLength - 1 - k)
  {
    seq(WindowLength, k requires 0 <= k < WindowLength => MonthsBefore(ref, WindowLength - 1 - k))
  }

  /** The window is twelve consecutive months, one after another across a
      year boundary, ending with the current month, none of them repeated. */
  lemma WindowShape(ref: YearMonth)
    requires WellFormed(ref)
    ensures Window(ref)[WindowLength - 1] == ref
    ensures forall k :: 0 <= k < WindowLength - 1 ==> Next(Window(ref)[k]) == Window(ref)[k + 1]
    ensures forall i, j :: 0 <= i < j < WindowLength ==> Window(ref)[i] != Window(ref)[j]
  {
    MonthsBeforeZero(ref);
    forall k | 0 <= k < WindowLength - 1
      ensures Next(Window(ref)[k]) == Window(ref)[k + 1]
    {
      NextOfMonthsBefore(ref, WindowLength - 2 - k);
    }
    forall i, j | 0 <= i < j < WindowLength
      ensures Window(ref)[i] != Window(ref)[j]
    {
      MonthsBeforeInjective(ref, WindowLength - 1 - i, WindowLength - 1 - j);
    }
  }

  /** A month is charted exactly when it is one of the eleven months before
      the current one or the current one itself. */
  lemma WindowMembership(ref: YearMonth, ym: YearMonth)
    requires WellFormed(ym)
    ensures ym in Window(ref) <==> MonthIndex(ref) - 11 <= MonthIndex(ym) <= MonthIndex(ref)
  {
    var w := Window(ref);
    if MonthIndex(ref) - 11 <= MonthIndex(ym) <= MonthIndex(ref) {
      var k := 11 - (MonthIndex(ref) - MonthIndex(ym));
      FromMonthIndexInverse(ym);
      FromMonthIndexInverse(w[k]);
      assert w[k] == ym;
    }
  }

  const MonthNames: seq<string> :=
    ["Jan", "Feb", "Mar", "Apr", "May", "Jun", "Jul", "Aug", "Sep", "Oct", "Nov", "Dec"]

  /** The month a short name stands for; 0 for any other text. */
  function MonthOfName(name: string): int {
    if name == "Jan" then 1 else if name == "Feb" then 2 else if name == "Mar" then 3
    else if name == "Apr" then 4 else if name == "May" then 5 else if name == "Jun" then 6
    else if name == "Jul" then 7 else if name == "Aug" then 8 else if name == "Sep" then 9
    else if name == "Oct" then 10 else if name == "Nov" then 11 else if name == "Dec" then 12
    else 0
  }

  /** Each short name names its own month, so no two months share a name. */
  lemma MonthNamesDistinct(m: int)
    requires 1 <= m <= 12
    ensures MonthOfName(MonthNames[m - 1]) == m
  {
  }

  /** The last two digits of a year. */
  function TwoDigitYear(year: int): (s: string)
    ensures |s| == 2 && IsDigit(s[0]) && IsDigit(s[1])
    ensures DigitValue(s[0]) == year % 100 / 10 && DigitValue(s[1]) == year % 10
  {
    var y := year % 100;
    assert 0 <= y / 10 < 10;
    [DigitChar(y / 10), DigitChar(year % 10)]
  }

  /** `toLocaleDateString('en-US', { month: 'short', year: '2-digit' })`, e.g. "Jan 25". */
  function Label(ym: YearMonth): (s: string)
    requires WellFormed(ym)
    ensures |s| == 6 && s[..3] == MonthNames[ym.month - 1] && s[3] == ' '
    ensures s[4..] == TwoDigitYear(ym.year)
  {
    MonthNames[ym.month - 1] + " " + TwoDigitYear(ym.year)
  }

  /** The chart's labels, one per window month. */
  function Labels(ref: YearMonth): (ls: seq<string>)
    ensures |ls| == WindowLength
    ensures forall k :: 0 <= k < WindowLength ==> ls[k] == Label(Window(ref)[k])
  {
    seq(WindowLength, k requires 0 <= k < WindowLength => Label(Window(ref)[k]))
  }

  /** No two points of the chart share a label: within twelve consecutive
      months a month name never repeats. */
  lemma LabelsDistinct(ref: YearMonth)
    ensures forall i, j :: 0 <= i < j < WindowLength ==> Labels(ref)[i] != Labels(ref)[j]
  {
    var w := Window(ref);
    forall i, j | 0 <= i < j < WindowLength
      ensures Labels(ref)[i] != Labels(ref)[j]
    {
      var a := w[i];
      var b := w[j];
      assert MonthIndex(a) == MonthIndex(ref) - (11 - i);
      assert MonthIndex(b) == MonthIndex(ref) - (11 - j);
      assert a.month != b.month;
      MonthNamesDistinct(a.month);
      MonthNamesDistinct(b.month);
      assert Label(a)[..3] != Label(b)[..3];
    }
  }

  /** The total of each month in `ms`, in order. */
  function BucketTotals(es: seq<Expense>, ms: seq<YearMonth>): (ts: seq<real>)
    ensures |ts| == |ms|
    ensures forall k :: 0 <= k < |ms| ==> ts[k] == SumAmounts(ExpensesIn(es, ms[k]))
  {
    if ms == [] then []
    else BucketTotals(es, ms[..|ms| - 1]) + [SumAmounts(ExpensesIn(es, ms[|ms| - 1]))]
  }

  /** The records dated in any of the months `ms`, in ledger order. */
  function InMonths(es: seq<Expense>, ms: seq<YearMonth>): (r: seq<Expense>)
    ensures IsSubsequence(r, es)
    ensures forall x :: x in r <==> x in es && MonthOf(x.date) in ms
  {
    if es == [] then []
    else if MonthOf(es[0].date) in ms then
      var r := [es[0]] + InMonths(es[1..], ms);
      assert r[1..] == InMonths(es[1..], ms);
      SubsequenceMembers(InMonths(es[1..], ms), es[1..]);
      assert forall x :: x in es <==> x == es[0] || x in es[1..];
      r
    else
      assert forall x :: x in es <==> x == es[0] || x in es[1..];
      InMonths(es[1..], ms)
  }

  /** Adding a month not yet counted adds that month's total. */
  lemma {:induction false} InMonthsSplit(es: seq<Expense>, p: seq<YearMonth>, m: YearMonth)
    requires m !in p
    ensures SumAmounts(InMonths(es, p + [m])) == SumAmounts(InMonths(es, p)) + SumAmounts(ExpensesIn(es, m))
    decreases |es|
  {
    if es != [] {
      var e := es[0];
      InMonthsSplit(es[1..], p, m);
      var all := InMonths(es[1..], p + [m]);
      var some := InMonths(es[1..], p);
      var one := ExpensesIn(es[1..], m);
      if MonthOf(e.date) == m {
        assert InMonths(es, p + [m]) == [e] + all;
        assert InMonths(es, p) == some;
        assert ExpensesIn(es, m) == [e] + one;
        SumAmountsCons(e, all);
        SumAmountsCons(e, one);
      } else if MonthOf(e.date) in p {
        assert InMonths(es, p + [m]) == [e] + all;
        assert InMonths(es, p) == [e] + some;
        assert ExpensesIn(es, m) == one;
        SumAmountsCons(e, all);
        SumAmountsCons(e, some);
      } else {
        assert InMonths(es, p + [m]) == all;
        assert InMonths(es, p) == some;
        assert ExpensesIn(es, m) == one;
      }
    }
  }

  predicate DistinctMonths(ms: seq<YearMonth>) {
    forall i, j :: 0 <= i < j < |ms| ==> ms[i] != ms[j]
  }

  /** With no month listed twice, the month totals add up to the total of
      the records in those months: every record is counted once. */
  lemma {:induction false} BucketsPartition(es: seq<Expense>, ms: seq<YearMonth>)
    requires DistinctMonths(ms)
    ensures SumSeq(BucketTotals(es, ms)) == SumAmounts(InMonths(es, ms))
    decreases |ms|
  {
    if ms == [] {
      var r := InMonths(es, ms);
      assert forall k :: 0 <= k < |r| ==> r[k] in r;
    } else {
      var p := ms[..|ms| - 1];
      var m := ms[|ms| - 1];
      assert ms == p + [m];
      BucketsPartition(es, p);
      InMonthsSplit(es, p, m);
      var ts := BucketTotals(es, ms);
      assert ts[..|ts| - 1] == BucketTotals(es, p);
    }
  }

  /** What `generateMonthlyData` returns. */
  datatype MonthlyData = MonthlyData(months: seq<string>, monthlyTotals: seq<real>)

  function GenerateMonthlyData(es: seq<Expense>, ref: YearMonth): (d: MonthlyData)
    ensures |d.months| == |d.monthlyTotals| == WindowLength
    ensures forall k :: 0 <= k < WindowLength ==>
      d.months[k] == Label(Window(ref)[k]) && d.monthlyTotals[k] == SumAmounts(ExpensesIn(es, Window(ref)[k]))
  {
    MonthlyData(Labels(ref), BucketTotals(es, Window(ref)))
  }

  /** The chart's points add up to what was spent in the charted months. */
  lemma ChartTotalIsWindowTotal(es: seq<Expense>, ref: YearMonth)
    ensures SumSeq(GenerateMonthlyData(es, ref).monthlyTotals) == SumAmounts(InMonths(es, Window(ref)))
  {
    forall i, j | 0 <= i < j < WindowLength
      ensures Window(ref)[i] != Window(ref)[j]
    {
      MonthsBeforeInjective(ref, WindowLength - 1 - i, WindowLength - 1 - j);
    }
    BucketsPartition(es, Window(ref));
  }

  /** `monthlyTotals.every(t => t === 0)`: the "Not enough data" state. */
  predicate ShowsEmptyState(d: MonthlyData)
    ensures ShowsEmptyState(d) ==> SumSeq(d.monthlyTotals) == 0.0
  {
    SumSeqOfZeros(d.monthlyTotals);
    forall k :: 0 <= k < |d.monthlyTotals| ==> d.monthlyTotals[k] == 0.0
  }

  lemma {:induction false} SumSeqOfZeros(xs: seq<real>)
    ensures (forall k :: 0 <= k < |xs| ==> xs[k] == 0.0) ==> SumSeq(xs) == 0.0
    decreases |xs|
  {
    if xs != [] {
      SumSeqOfZeros(xs[..|xs| - 1]);
    }
  }

  lemma {:induction false} SumAmountsPositive(es: seq<Expense>)
    requires es != []
    requires forall k :: 0 <= k < |es| ==> es[k].amount > 0.0
    ensures SumAmounts(es) > 0.0
    decreases |es|
  {
    var p := es[..|es| - 1];
    if p != [] {
      SumAmountsPositive(p);
    }
  }

  /** A month's total is zero exactly when no record is dated in it, as
      long as every amount is positive. */
  lemma MonthTotalZeroIffEmpty(es: seq<Expense>, m: YearMonth)
    requires forall k :: 0 <= k < |es| ==> es[k].amount > 0.0
    ensures SumAmounts(ExpensesIn(es, m)) == 0.0 <==> forall x :: x in es ==> MonthOf(x.date) != m
  {
    var r := ExpensesIn(es, m);
    SubsequenceMembers(r, es);
    assert forall j :: 0 <= j < |r| ==> r[j] in r;
    if r != [] {
      assert forall j :: 0 <= j < |r| ==> r[j] in es;
      SumAmountsPositive(r);
    }
  }

  /** When every record has a positive amount, the chart shows its empty
      state exactly when no record is dated in the last twelve months. */
  lemma EmptyStateIffNoRecentExpense(es: seq<Expense>, ref: YearMonth)
    requires forall k :: 0 <= k < |es| ==> es[k].amount > 0.0
    ensures ShowsEmptyState(GenerateMonthlyData(es, ref)) <==> forall x :: x in es ==> MonthOf(x.date) !in Window(ref)
  {
    var w := Window(ref);
    forall k | 0 <= k < WindowLength {
      MonthTotalZeroIffEmpty(es, w[k]);
    }
  }

  /** The chart's last point is the sidebar's spending for the current month. */
  lemma LastPointIsSidebarTotal(s: Ledger.LedgerState, ref: YearMonth)
    requires WellFormed(ref)
    ensures GenerateMonthlyData(s.expenses, ref).monthlyTotals[WindowLength - 1] == BudgetView.TotalExpenses(s, ref)
  {
    MonthsBeforeZero(ref);
  }
}
