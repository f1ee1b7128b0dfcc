/** The ledger state and its reducer `expenseReducer`: a tagged-action state
    machine over expenses, the monthly budget, the loading and error flags and
    the `lastUpdated` stamp. The reducer is pure; the time it stamps is passed in. */
module Ledger {
  import opened Values
  import opened Records

  /** `new Date().toISOString()`, kept opaque: milliseconds since the epoch. */
  type Timestamp = nat

  datatype LedgerState = LedgerState(
    expenses: seq<Expense>,
    monthlyBudget: Option<Num>,
    categories: seq<string>,
    loading: bool,
    error: Option<string>,
    lastUpdated: Option<Timestamp>)

  /** The fixed category list of the initial state. */
  const Categories: seq<string> :=
    ["Food", "Travel", "Bills", "Shopping", "Entertainment", "Healthcare", "Education", "Misc"]

  const InitialState: LedgerState :=
    LedgerState([], None, Categories, false, None, None)

  /** The actions the reducer knows, plus any other tag. `FetchSuccess` carries an
      optional list and an optional budget because the reducer falls back to the
      old values when they are absent. */
  datatype Action =
    | FetchStart
    | FetchSuccess(newExpenses: Option<seq<Expense>>, newBudget: Option<Num>)
    | FetchError(message: string)
    | AddExpense(added: Expense)
    | UpdateExpense(updated: Expense)
    | DeleteExpense(deletedId: Option<Id>)
    | SetBudget(budget: Num)
    | ImportExpenses(imported: seq<Expense>)
    | ClearError
    | Unknown(tag: string)

  /** `expenses.map(e => e.id === p.id ? p : e)`. */
  function ReplaceById(es: seq<Expense>, p: Expense): (r: seq<Expense>)
    ensures |r| == |es|
    ensures forall i :: 0 <= i < |es| && es[i].id == p.id ==> r[i] == p
    ensures forall i :: 0 <= i < |es| && es[i].id != p.id ==> r[i] == es[i]
  {
    if es == [] then []
    else [if es[0].id == p.id then p else es[0]] + ReplaceById(es[1..], p)
  }

  /** The number of records carrying identifier `id`. */
  function CountId(es: seq<Expense>, id: Option<Id>): nat {
    if es == [] then 0 else (if es[0].id == id then 1 else 0) + CountId(es[1..], id)
  }

  lemma {:induction false} CountIdZero(es: seq<Expense>, id: Option<Id>)
    ensures CountId(es, id) == 0 <==> forall i :: 0 <= i < |es| ==> es[i].id != id
    decreases |es|
  {
    if es != [] {
      CountIdZero(es[1..], id);
      assert forall i :: 1 <= i < |es| ==> es[i] == es[1..][i - 1];
    }
  }

  /** `expenses.filter(e => e.id !== id)`. */
  function RemoveById(es: seq<Expense>, id: Option<Id>): (r: seq<Expense>)
    ensures IsSubsequence(r, es)
    ensures forall i :: 0 <= i < |r| ==> r[i].id != id
    ensures forall x :: x in es && x.id != id ==> x in r
    ensures |r| + CountId(es, id) == |es|
  {
    if es == [] then []
    else if es[0].id == id then RemoveById(es[1..], id)
    else
      var r := [es[0]] + RemoveById(es[1..], id);
      assert r[1..] == RemoveById(es[1..], id);
      r
  }

  /** `expenseReducer(state, action)`, with `now` the time a mutating action stamps. */
  function Reduce(s: LedgerState, a: Action, now: Timestamp): (r: LedgerState)
    ensures r.categories == s.categories
    ensures r.expenses != s.expenses ==>
      a.FetchSuccess? || a.AddExpense? || a.UpdateExpense? || a.DeleteExpense? || a.ImportExpenses?
    ensures r.monthlyBudget != s.monthlyBudget ==> a.SetBudget? || (a.FetchSuccess? && a.newBudget.Some?)
    ensures r.loading != s.loading ==> a.FetchStart? || a.FetchSuccess? || a.FetchError?
    ensures r.error.Some? ==> r.error == s.error || a == FetchError(r.error.value)
    ensures r.lastUpdated == s.lastUpdated || r.lastUpdated == Some(now)
    ensures a.Unknown? ==> r == s
  {
    match a
    case FetchStart => s.(loading := true, error := None)
    case FetchSuccess(newExpenses, newBudget) =>
      s.(loading := false, error := None,
         expenses := newExpenses.GetOr(s.expenses),
         monthlyBudget := if newBudget.Some? then newBudget else s.monthlyBudget,
         lastUpdated := Some(now))
    case FetchError(message) => s.(loading := false, error := Some(message))
    case AddExpense(e) => s.(expenses := s.expenses + [e], lastUpdated := Some(now))
    case UpdateExpense(p) => s.(expenses := ReplaceById(s.expenses, p), lastUpdated := Some(now))
    case DeleteExpense(id) => s.(expenses := RemoveById(s.expenses, id), lastUpdated := Some(now))
    case SetBudget(b) => s.(monthlyBudget := Some(b), lastUpdated := Some(now))
    case ImportExpenses(es) => s.(expenses := s.expenses + es, lastUpdated := Some(now))
    case ClearError => s.(error := None)
    case Unknown(_) => s
  }

  /** The fields a transition leaves alone besides the ones it names. */
  predicate SameBudgetAndFlags(s: LedgerState, t: LedgerState) {
    t.monthlyBudget == s.monthlyBudget && t.loading == s.loading
    && t.error == s.error && t.categories == s.categories
  }

  /** ADD_EXPENSE appends exactly one record at the end; the prefix is untouched. */
  lemma AddAppendsOne(s: LedgerState, e: Expense, now: Timestamp)
    ensures var t := Reduce(s, AddExpense(e), now);
      && |t.expenses| == |s.expenses| + 1
      && t.expenses[..|s.expenses|] == s.expenses
      && t.expenses[|s.expenses|] == e
      && SameBudgetAndFlags(s, t) && t.lastUpdated == Some(now)
  {
  }

  /** IMPORT_EXPENSES appends the payload in order after the unchanged ledger. */
  lemma ImportAppendsInOrder(s: LedgerState, es: seq<Expense>, now: Timestamp)
    ensures var t := Reduce(s, ImportExpenses(es), now);
      && |t.expenses| == |s.expenses| + |es|
      && t.expenses[..|s.expenses|] == s.expenses
      && (forall i :: 0 <= i < |es| ==> t.expenses[|s.expenses| + i] == es[i])
      && SameBudgetAndFlags(s, t)
  {
  }

  /** UPDATE_EXPENSE keeps length and order and replaces exactly the records
      whose identifier equals the payload's. */
  lemma UpdateReplacesMatching(s: LedgerState, p: Expense, now: Timestamp)
    ensures var t := Reduce(s, UpdateExpense(p), now);
      && |t.expenses| == |s.expenses|
      && (forall i :: 0 <= i < |s.expenses| ==>
            t.expenses[i] == (if s.expenses[i].id == p.id then p else s.expenses[i]))
      && SameBudgetAndFlags(s, t)
  {
  }

  /** An update for an identifier nobody has leaves the expenses as they were. */
  lemma UpdateUnknownIdIsNoOp(s: LedgerState, p: Expense, now: Timestamp)
    requires forall i :: 0 <= i < |s.expenses| ==> s.expenses[i].id != p.id
    ensures Reduce(s, UpdateExpense(p), now).expenses == s.expenses
  {
  }

  /** An update keeps every identifier in place, so unique identifiers stay unique. */
  lemma UpdatePreservesUniqueIds(s: LedgerState, p: Expense, now: Timestamp)
    requires UniqueIds(s.expenses)
    ensures UniqueIds(Reduce(s, UpdateExpense(p), now).expenses)
  {
  }

  /** DELETE_EXPENSE removes every record with the identifier and keeps the
      others in relative order. */
  lemma DeleteRemovesAll(s: LedgerState, id: Option<Id>, now: Timestamp)
    ensures var t := Reduce(s, DeleteExpense(id), now);
      && IsSubsequence(t.expenses, s.expenses)
      && (forall x :: x in t.expenses <==> x in s.expenses && x.id != id)
      && |t.expenses| == |s.expenses| - CountId(s.expenses, id)
      && SameBudgetAndFlags(s, t)
  {
    var t := Reduce(s, DeleteExpense(id), now);
    SubsequenceMembers(t.expenses, s.expenses);
  }

  /** Deleting an identifier nobody has leaves the expenses as they were. */
  lemma {:induction false} DeleteUnknownIdIsNoOp(s: LedgerState, id: Option<Id>, now: Timestamp)
    requires forall i :: 0 <= i < |s.expenses| ==> s.expenses[i].id != id
    ensures Reduce(s, DeleteExpense(id), now).expenses == s.expenses
  {
    var t := Reduce(s, DeleteExpense(id), now);
    CountIdZero(s.expenses, id);
    SubsequenceOfSameLength(t.expenses, s.expenses);
  }

  /** A subsequence as long as the whole is the whole. */
  lemma {:induction false} SubsequenceOfSameLength<T>(a: seq<T>, b: seq<T>)
    requires IsSubsequence(a, b) && |a| == |b|
    ensures a == b
    decreases |b|
  {
    if a != [] {
      if a[0] == b[0] {
        SubsequenceOfSameLength(a[1..], b[1..]);
        assert a == [a[0]] + a[1..];
        assert b == [b[0]] + b[1..];
      } else {
        SubsequenceMembers(a, b[1..]);
      }
    }
  }

  /** Deleting keeps unique identifiers unique. */
  lemma {:induction false} SubsequencePreservesUniqueIds(a: seq<Expense>, b: seq<Expense>)
    requires IsSubsequence(a, b) && UniqueIds(b)
    ensures UniqueIds(a)
    decreases |b|
  {
    if a != [] && b != [] {
      assert UniqueIds(b[1..]) by {
        assert forall i :: 0 <= i < |b[1..]| ==> b[1..][i] == b[i + 1];
      }
      if a[0] == b[0] {
        SubsequencePreservesUniqueIds(a[1..], b[1..]);
        SubsequenceMembers(a[1..], b[1..]);
        forall j | 1 <= j < |a|
          ensures a[0].id != a[j].id
        {
          assert a[j] == a[1..][j - 1];
          assert a[j] in b[1..];
          var k :| 0 <= k < |b[1..]| && b[1..][k] == a[j];
          assert b[k + 1] == a[j];
        }
        forall i, j | 0 <= i < j < |a|
          ensures a[i].id != a[j].id
        {
          if i > 0 {
            assert a[i] == a[1..][i - 1] && a[j] == a[1..][j - 1];
          }
        }
      } else {
        SubsequencePreservesUniqueIds(a, b[1..]);
      }
    }
  }

  lemma DeletePreservesUniqueIds(s: LedgerState, id: Option<Id>, now: Timestamp)
    requires UniqueIds(s.expenses)
    ensures UniqueIds(Reduce(s, DeleteExpense(id), now).expenses)
  {
    SubsequencePreservesUniqueIds(Reduce(s, DeleteExpense(id), now).expenses, s.expenses);
  }

  /** ADD_EXPENSE keeps identifiers unique exactly when the new one is fresh;
      the reducer itself does not check. */
  lemma AddPreservesUniqueIdsIff(s: LedgerState, e: Expense, now: Timestamp)
    requires UniqueIds(s.expenses)
    ensures UniqueIds(Reduce(s, AddExpense(e), now).expenses)
        <==> forall i :: 0 <= i < |s.expenses| ==> s.expenses[i].id != e.id
  {
    var t := Reduce(s, AddExpense(e), now).expenses;
    if !UniqueIds(t) {
      var i, j :| 0 <= i < j < |t| && t[i].id == t[j].id;
      assert j == |s.expenses|;
      assert s.expenses[i].id == e.id;
    } else {
      forall i | 0 <= i < |s.expenses|
        ensures s.expenses[i].id != e.id
      {
        assert t[i] == s.expenses[i] && t[|s.expenses|] == e;
      }
    }
  }

  /** FETCH_START, FETCH_ERROR and CLEAR_ERROR only move the loading and error
      flags; none of them touches expenses, budget or the stamp. */
  lemma FlagActionsTouchOnlyFlags(s: LedgerState, message: string, now: Timestamp)
    ensures var t := Reduce(s, FetchStart, now);
      t.loading && t.error.None? && t == s.(loading := t.loading, error := t.error)
    ensures var t := Reduce(s, FetchError(message), now);
      !t.loading && t.error == Some(message) && t == s.(loading := t.loading, error := t.error)
    ensures var t := Reduce(s, ClearError, now);
      t.error.None? && t == s.(error := t.error)
  {
  }

  /** An action with an unknown tag returns the very same state. */
  lemma UnknownActionIsIdentity(s: LedgerState, tag: string, now: Timestamp)
    ensures Reduce(s, Unknown(tag), now) == s
  {
  }

  /** FETCH_SUCCESS clears the flags, falls back to the old list when the payload
      has none and to the old budget when the payload budget is absent. */
  lemma FetchSuccessFallbacks(s: LedgerState, es: Option<seq<Expense>>, b: Option<Num>, now: Timestamp)
    ensures var t := Reduce(s, FetchSuccess(es, b), now);
      && !t.loading && t.error.None? && t.lastUpdated == Some(now)
      && (es.None? ==> t.expenses == s.expenses)
      && (es.Some? ==> t.expenses == es.value)
      && (b.None? ==> t.monthlyBudget == s.monthlyBudget)
      && (b.Some? ==> t.monthlyBudget == b)
  {
  }

  /** SET_BUDGET stores whatever number it is given, negative or NaN included. */
  lemma SetBudgetDoesNotValidate(s: LedgerState, b: Num, now: Timestamp)
    ensures Reduce(s, SetBudget(b), now).monthlyBudget == Some(b)
    ensures Reduce(s, SetBudget(b), now).expenses == s.expenses
  {
  }
}
