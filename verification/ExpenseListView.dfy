/** The expense list: a copy of the ledger sorted newest first, cut to an
    optional `limit`, the total of what is shown, and the colour of a
    category badge. */
module ExpenseListView {
  import opened Values
  import opened Calendar
  import opened Records
  import Ledger

  /** Every record is dated on or after every record after it. */
  predicate NewestFirst(es: seq<Expense>) {
    forall i, j :: 0 <= i < j < |es| ==> OnOrBefore(es[j].date, es[i].date)
  }

  /** Place `x` in a newest-first list, in front of the first record that is
      not newer than it, so records of the same date keep their order. */
  function Insert(x: Expense, t: seq<Expense>): (r: seq<Expense>)
    ensures |r| == |t| + 1
    ensures multiset(r) == multiset(t) + multiset{x}
    ensures forall y :: y in r <==> y == x || y in t
  {
    if t == [] then [x]
    else if OnOrBefore(t[0].date, x.date) then [x] + t
    else
      var rest := Insert(x, t[1..]);
      assert t == [t[0]] + t[1..];
      [t[0]] + rest
  }

  lemma {:induction false} InsertKeepsOrder(x: Expense, t: seq<Expense>)
    requires NewestFirst(t)
    ensures NewestFirst(Insert(x, t))
    decreases |t|
  {
    if t == [] {
    } else if OnOrBefore(t[0].date, x.date) {
      var r := Insert(x, t);
      forall i, j | 0 <= i < j < |r|
        ensures OnOrBefore(r[j].date, r[i].date)
      {
        if i == 0 && j > 1 {
          OnOrBeforeTransitive(r[j].date, t[0].date, x.date);
        }
      }
    } else {
      OnOrBeforeTotal(t[0].date, x.date);
      InsertKeepsOrder(x, t[1..]);
      var rest := Insert(x, t[1..]);
      var r := [t[0]] + rest;
      assert forall y :: y in rest ==> OnOrBefore(y.date, t[0].date) by {
        forall y | y in rest
          ensures OnOrBefore(y.date, t[0].date)
        {
          if y != x {
            var k :| 0 <= k < |t[1..]| && t[1..][k] == y;
            assert t[k + 1] == y;
          }
        }
      }
      forall i, j | 0 <= i < j < |r|
        ensures OnOrBefore(r[j].date, r[i].date)
      {
        if i == 0 {
          assert r[j] == rest[j - 1];
          assert rest[j - 1] in rest;
        } else {
          assert r[i] == rest[i - 1] && r[j] == rest[j - 1];
        }
      }
    }
  }

  /** `[...expenses].sort((a, b) => new Date(b.date) - new Date(a.date))`:
      a newest-first permutation of the ledger, the ledger itself untouched. */
  function SortNewestFirst(es: seq<Expense>): (r: seq<Expense>)
    ensures |r| == |es|
    ensures multiset(r) == multiset(es)
    ensures NewestFirst(r)
  {
    if es == [] then []
    else
      var rest := SortNewestFirst(es[1..]);
      InsertKeepsOrder(es[0], rest);
      assert es == [es[0]] + es[1..];
      Insert(es[0], rest)
  }

  /** The end index of `.slice(0, limit || n)`: a missing or zero limit shows
      everything, a negative limit counts back from the end, and a limit past
      the end is clamped to it. */
  function SliceEnd(n: nat, limit: Option<int>): (end: nat)
    ensures end <= n
    ensures (limit.None? || limit == Some(0)) ==> end == n
    ensures limit.Some? && limit.value > 0 ==> end == if limit.value < n then limit.value else n
    ensures limit.Some? && limit.value < 0 ==> end == if n + limit.value < 0 then 0 else n + limit.value
  {
    var want := if limit.None? || limit.value == 0 then n else limit.value;
    if want < 0 then (if n + want < 0 then 0 else n + want)
    else if want > n then n
    else want
  }

  /** The records the list shows. */
  function Displayed(es: seq<Expense>, limit: Option<int>): (r: seq<Expense>)
    ensures |r| == SliceEnd(|es|, limit)
    ensures NewestFirst(r)
    ensures multiset(r) <= multiset(es)
  {
    var sorted := SortNewestFirst(es);
    var end := SliceEnd(|es|, limit);
    assert sorted == sorted[..end] + sorted[end..];
    sorted[..end]
  }

  /** What is shown is the newest part of the ledger: nothing shown is older
      than anything left out, and everything shown is a ledger record. */
  lemma DisplayedAreNewest(es: seq<Expense>, limit: Option<int>)
    ensures var sorted := SortNewestFirst(es);
      var end := SliceEnd(|es|, limit);
      && Displayed(es, limit) + sorted[end..] == sorted
      && (forall i, j :: 0 <= i < end <= j < |es| ==> OnOrBefore(sorted[j].date, sorted[i].date))
      && multiset(Displayed(es, limit)) <= multiset(es)
  {
    var sorted := SortNewestFirst(es);
    var end := SliceEnd(|es|, limit);
    DisplayedIsSortedPrefix(es, limit);
    PrefixThenRest(sorted, end);
    NewestFirstSplit(sorted, end);
  }

  /** The shown records are the first `SliceEnd` records of the sorted list. */
  lemma DisplayedIsSortedPrefix(es: seq<Expense>, limit: Option<int>)
    ensures Displayed(es, limit) == SortNewestFirst(es)[..SliceEnd(|es|, limit)]
  {
  }

  /** A prefix followed by the rest is the whole sequence. */
  lemma PrefixThenRest<T>(xs: seq<T>, k: nat)
    requires k <= |xs|
    ensures xs[..k] + xs[k..] == xs
  {
  }

  /** In a newest-first list, nothing before a cut is older than anything after it. */
  lemma NewestFirstSplit(xs: seq<Expense>, end: nat)
    requires NewestFirst(xs) && end <= |xs|
    ensures forall i, j :: 0 <= i < end <= j < |xs| ==> OnOrBefore(xs[j].date, xs[i].date)
  {
  }

  /** `sortedExpenses.reduce((sum, e) => sum + e.amount, 0)`. */
  function TotalSpent(es: seq<Expense>, limit: Option<int>): (t: real)
    ensures t + SumAmounts(SortNewestFirst(es)[SliceEnd(|es|, limit)..]) == SumAmounts(es)
    ensures SliceEnd(|es|, limit) == |es| ==> t == SumAmounts(es)
  {
    var sorted := SortNewestFirst(es);
    var end := SliceEnd(|es|, limit);
    assert sorted == sorted[..end] + sorted[end..];
    SumAmountsAppend(sorted[..end], sorted[end..]);
    SortKeepsTotal(es);
    assert sorted[..|es|] == sorted;
    SumAmounts(Displayed(es, limit))
  }

  lemma {:induction false} InsertAddsAmount(x: Expense, t: seq<Expense>)
    ensures SumAmounts(Insert(x, t)) == x.amount + SumAmounts(t)
    decreases |t|
  {
    if t == [] {
      SumAmountsCons(x, []);
    } else if OnOrBefore(t[0].date, x.date) {
      SumAmountsCons(x, t);
    } else {
      InsertAddsAmount(x, t[1..]);
      SumAmountsCons(t[0], Insert(x, t[1..]));
      SumAmountsCons(t[0], t[1..]);
      assert t == [t[0]] + t[1..];
    }
  }

  lemma {:induction false} SortKeepsTotal(es: seq<Expense>)
    ensures SumAmounts(SortNewestFirst(es)) == SumAmounts(es)
    decreases |es|
  {
    if es != [] {
      SortKeepsTotal(es[1..]);
      InsertAddsAmount(es[0], SortNewestFirst(es[1..]));
      SumAmountsCons(es[0], es[1..]);
      assert es == [es[0]] + es[1..];
    }
  }

  /** Without a limit the list's total is the ledger's total: sorting moves
      records but does not change what they add up to. */
  lemma TotalSpentWithoutLimit(es: seq<Expense>)
    ensures TotalSpent(es, None) == SumAmounts(es)
    ensures TotalSpent(es, Some(0)) == SumAmounts(es)
  {
    var sorted := SortNewestFirst(es);
    assert sorted[..|es|] == sorted;
    SortKeepsTotal(es);
  }

  /** The class list of a category badge, or the inherited `Object.prototype`
      member that `colors[category]` finds for a name such as "constructor";
      such a member is truthy, so the fallback to `colors.Misc` does not fire. */
  datatype Style = ClassList(classes: string) | InheritedMember(name: string)

  const Colors: map<string, string> := map[
    "Food" := "bg-orange-100 text-orange-700",
    "Travel" := "bg-blue-100 text-blue-700",
    "Bills" := "bg-red-100 text-red-700",
    "Shopping" := "bg-purple-100 text-purple-700",
    "Entertainment" := "bg-pink-100 text-pink-700",
    "Healthcare" := "bg-green-100 text-green-700",
    "Education" := "bg-indigo-100 text-indigo-700",
    "Misc" := "bg-gray-100 text-gray-700"]

  /** The names every object literal inherits from `Object.prototype`. */
  const ObjectPrototypeMembers: set<string> := {
    "constructor", "toString", "toLocaleString", "valueOf", "hasOwnProperty",
    "isPrototypeOf", "propertyIsEnumerable", "__proto__", "__defineGetter__",
    "__defineSetter__", "__lookupGetter__", "__lookupSetter__"}

  /** `colors[category] || colors.Misc`. */
  function CategoryColor(category: string): (r: Style)
    ensures r.InheritedMember? <==> category in ObjectPrototypeMembers
    ensures r.InheritedMember? ==> r.name == category
    ensures r.ClassList? ==> r.classes in Colors.Values
    ensures category in Colors ==> r == ClassList(Colors[category])
  {
    if category in Colors then ClassList(Colors[category])
    else if category in ObjectPrototypeMembers then InheritedMember(category)
    else ClassList(Colors["Misc"])
  }

  /** Each category the ledger offers has its own colour; any other plain
      name falls back to the colour of "Misc". */
  lemma CategoryColors(category: string)
    ensures category in Ledger.Categories ==> CategoryColor(category).ClassList?
    ensures forall a, b :: a in Ledger.Categories && b in Ledger.Categories && a != b ==> CategoryColor(a) != CategoryColor(b)
    ensures category !in Ledger.Categories && category !in ObjectPrototypeMembers ==> CategoryColor(category) == CategoryColor("Misc")
  {
  }
}
