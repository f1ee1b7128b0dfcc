/** The budget panel of the sidebar: this month's spending against the
    budget, the remaining or overspent amount, the progress bar with its
    colour band, and whether the budget editor is open. */
module BudgetView {
  import opened Values
  import opened Calendar
  import opened Records
  import opened Ledger
  import Store

  /** What this month's records add up to. */
  function TotalExpenses(s: LedgerState, ref: YearMonth): (t: real)
    ensures (forall x :: x in s.expenses ==> x.amount >= 0.0) ==> t >= 0.0
    ensures (forall x :: x in s.expenses ==> MonthOf(x.date) != ref) ==> t == 0.0
  {
    var m := Store.CurrentMonthExpenses(s, ref);
    SumAmountsNonNegative(m);
    assert forall k :: 0 <= k < |m| ==> m[k] in m;
    SumAmounts(m)
  }

  /** `monthlyBudget != null ? monthlyBudget - total : 0`. */
  function Remaining(budget: Option<Num>, total: real): (r: Num)
    ensures budget.None? ==> r == Finite(0.0)
    ensures budget.Some? && budget.value.Finite? ==> r.Finite? && r.v + total == budget.value.v
    ensures budget.Some? && !budget.value.Finite? ==> r == budget.value
  {
    if budget.None? then Finite(0.0) else Minus(budget.value, total)
  }

  /** `monthlyBudget != null && monthlyBudget > 0 ? total / monthlyBudget * 100 : 0`.
      An infinite budget takes the first branch and gives `total / Infinity`,
      which is 0 for a finite total. */
  function Progress(budget: Option<Num>, total: real): (p: real)
    ensures !(budget.Some? && budget.value.Finite? && budget.value.v > 0.0) ==> p == 0.0
    ensures budget.Some? && budget.value.Finite? && budget.value.v > 0.0 ==> p * budget.value.v == total * 100.0
  {
    if budget.Some? && IsPositive(budget.value) then
      match budget.value
      case Finite(b) => total / b * 100.0
      case _ => 0.0
    else 0.0
  }

  /** The colour of the bar. */
  datatype Band = Green | Yellow | Red

  function BandRank(b: Band): nat {
    match b
    case Green => 0
    case Yellow => 1
    case Red => 2
  }

  /** `progress <= 75 ? accent : progress <= 90 ? yellow : red`. */
  function BandOf(p: real): (b: Band)
    ensures b == Green <==> p <= 75.0
    ensures b == Yellow <==> 75.0 < p <= 90.0
    ensures b == Red <==> 90.0 < p
  {
    if p <= 75.0 then Green else if p <= 90.0 then Yellow else Red
  }

  /** More spending never moves the bar to a calmer colour. */
  lemma BandMonotone(p: real, q: real)
    requires p <= q
    ensures BandRank(BandOf(p)) <= BandRank(BandOf(q))
  {
  }

  /** `Math.min(progress, 100)`, the bar's width in percent. */
  function BarWidth(p: real): (w: real)
    ensures w <= 100.0 && w <= p
    ensures w == p || w == 100.0
  {
    if p < 100.0 then p else 100.0
  }

  /** The label next to the bar: `remaining >= 0 ? 'Remaining: ' : 'Over: '`
      followed by `Math.abs(remaining)`. A NaN remaining fails `>= 0` and is
      labelled as over. */
  datatype Label = RemainingLabel(amount: Num) | OverLabel(amount: Num)

  function LabelOf(remaining: Num): (l: Label)
    ensures l.RemainingLabel? <==> IsNonNegative(remaining)
    ensures l.amount == Abs(remaining)
  {
    if IsNonNegative(remaining) then RemainingLabel(Abs(remaining)) else OverLabel(Abs(remaining))
  }

  /** The percentage of a positive budget passes 100 exactly when spending
      passes the budget, and is never negative for non-negative spending. */
  lemma PercentageAgainstBudget(b: real, total: real)
    requires b > 0.0
    ensures total / b * 100.0 > 100.0 <==> total > b
    ensures total >= 0.0 ==> total / b * 100.0 >= 0.0
  {
    var q := total / b;
    assert q * b == total;
    if total > b {
      assert q > 1.0;
    } else {
      assert q <= 1.0;
    }
  }

  /** With a positive finite budget and no refunds, the panel agrees with
      itself: the label says "Over" exactly when spending passes the budget,
      which is exactly when the progress passes 100 and the bar is full and
      red; within the budget the label shows what is left. */
  lemma PanelIsConsistent(b: real, total: real)
    requires b > 0.0 && total >= 0.0
    ensures var budget := Some(Finite(b));
      var p := Progress(budget, total);
      && 0.0 <= p
      && (LabelOf(Remaining(budget, total)).OverLabel? <==> total > b)
      && (p > 100.0 <==> total > b)
      && (total > b ==> BarWidth(p) == 100.0 && BandOf(p) == Red)
      && (total <= b ==> LabelOf(Remaining(budget, total)) == RemainingLabel(Finite(b - total)))
  {
    assert Progress(Some(Finite(b)), total) == total / b * 100.0;
    PercentageAgainstBudget(b, total);
  }

  /** With no budget, or one that is zero, negative or infinite, the bar stays
      empty and green whatever was spent. */
  lemma NoUsableBudgetShowsEmptyBar(budget: Option<Num>, total: real)
    requires budget.None? || !IsPositive(budget.value) || budget.value.PosInf?
    ensures Progress(budget, total) == 0.0
    ensures BarWidth(Progress(budget, total)) == 0.0 && BandOf(Progress(budget, total)) == Green
  {
  }

  /** An infinite budget is accepted by the store, so the panel shows an
      infinite remaining amount with nothing used. */
  lemma InfiniteBudgetNeverOver(total: real)
    ensures LabelOf(Remaining(Some(PosInf), total)) == RemainingLabel(PosInf)
    ensures Progress(Some(PosInf), total) == 0.0
  {
  }

  /** What the budget input holds: the empty string or a number. */
  datatype BudgetInput = Text(text: string) | Number(n: Num) | Blank

  /** The panel's own state: `isEditingBudget` and `budgetValue`. */
  datatype Panel = Panel(editing: bool, input: BudgetInput)

  /** The effect that runs whenever the store's budget changes: no budget
      opens the editor with an empty input, a budget closes it and copies
      the budget into the input. */
  function OnBudgetChange(budget: Option<Num>): (p: Panel)
    ensures p.editing <==> budget.None?
    ensures budget.None? ==> p.input == Text("")
    ensures budget.Some? ==> p.input == Number(budget.value)
  {
    if budget.None? then Panel(true, Text("")) else Panel(false, Number(budget.value))
  }

  /** The pencil button: open the editor. */
  function StartEditing(p: Panel): (r: Panel)
    ensures r.editing && r.input == p.input
  {
    p.(editing := true)
  }

  /** Cancel: put the store's budget back in the input and close the editor.
      With no budget the input becomes null, shown as `''`. */
  function Cancel(budget: Option<Num>): (p: Panel)
    ensures !p.editing
    ensures budget.None? ==> p.input == Blank
    ensures budget.Some? ==> p.input == Number(budget.value)
  {
    Panel(false, if budget.None? then Blank else Number(budget.value))
  }

  /** `isEditingBudget || monthlyBudget == null`: the editor or the summary. */
  predicate EditorShown(p: Panel, budget: Option<Num>)
    ensures budget.None? ==> EditorShown(p, budget)
  {
    p.editing || budget.None?
  }

  /** The text the editor's input shows: `budgetValue ?? ''`. */
  function InputText(p: Panel, showNumber: Num -> string): (t: string)
    ensures p.input == Blank ==> t == ""
    ensures p.input.Text? ==> t == p.input.text
  {
    match p.input
    case Blank => ""
    case Text(t) => t
    case Number(n) => showNumber(n)
  }

  /** The save button reads "Set Budget" while there is no budget, "Save" otherwise. */
  function SaveLabel(budget: Option<Num>): (l: string)
    ensures l == "Set Budget" <==> budget.None?
  {
    if budget.None? then "Set Budget" else "Save"
  }

  /** After the effect, the editor is shown exactly when there is no budget,
      and then its input is empty; a budget shows the summary. Cancelling
      without a budget leaves the editor on screen. */
  lemma EditorFollowsBudget(budget: Option<Num>, showNumber: Num -> string)
    ensures EditorShown(OnBudgetChange(budget), budget) <==> budget.None?
    ensures budget.None? ==> InputText(OnBudgetChange(budget), showNumber) == ""
    ensures EditorShown(Cancel(budget), budget) <==> budget.None?
    ensures budget.None? ==> InputText(Cancel(budget), showNumber) == ""
    ensures forall p: Panel :: EditorShown(StartEditing(p), budget)
  {
  }
}
