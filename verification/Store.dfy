/** The operations the expense context offers: each one runs its request
    against a scripted server (see `Requests`), then dispatches one action to
    the reducer and answers `{ success, data | error }`. */
module Store {
  import opened Values
  import opened Calendar
  import opened Records
  import opened Ledger
  import opened Requests

  const InvalidBudgetMessage: string := "Invalid budget amount"

  /** The body of `GET /api/expenses`: an array of records, or anything else. */
  datatype ListBody = RecordList(records: seq<Expense>) | NotAList

  /** `setMonthlyBudget(amount)` once `parseFloat` has produced `amount`: NaN
      and negative values are refused with an error; anything else, zero and
      +Infinity included, is stored. */
  function SetMonthlyBudget(s: LedgerState, amount: Num, now: Timestamp): (r: (LedgerState, Result<()>))
    ensures r.1.Err? <==> amount.NaN? || IsNegative(amount)
    ensures r.1.Err? ==> (r.1.message == InvalidBudgetMessage
      && r.0.monthlyBudget == s.monthlyBudget && r.0.error == Some(InvalidBudgetMessage)
      && r.0.expenses == s.expenses && !r.0.loading)
    ensures r.1.Ok? ==> (r.0.monthlyBudget == Some(amount) && IsNonNegative(amount)
      && r.0.error == s.error && r.0.expenses == s.expenses)
  {
    if amount.NaN? || IsNegative(amount) then
      (Reduce(s, FetchError(InvalidBudgetMessage), now), Err(InvalidBudgetMessage))
    else
      (Reduce(s, SetBudget(amount), now), Ok(()))
  }

  lemma BudgetZeroAccepted(s: LedgerState, now: Timestamp)
    ensures SetMonthlyBudget(s, Finite(0.0), now).1.Ok?
    ensures SetMonthlyBudget(s, Finite(0.0), now).0.monthlyBudget == Some(Finite(0.0))
  {
  }

  lemma BudgetNegativeRejected(s: LedgerState, now: Timestamp)
    ensures SetMonthlyBudget(s, Finite(-5.0), now).1.Err?
    ensures SetMonthlyBudget(s, Finite(-5.0), now).0.monthlyBudget == s.monthlyBudget
  {
  }

  /** Infinity is not NaN and not negative, so it passes the check. */
  lemma BudgetInfinityAccepted(s: LedgerState, now: Timestamp)
    ensures SetMonthlyBudget(s, PosInf, now).0.monthlyBudget == Some(PosInf)
  {
  }

  /** `addExpense`: on success the normalised created record is appended; on
      failure the error is shown and the ledger is untouched. */
  function AddExpense(s: LedgerState, script: seq<Attempt<Expense>>, now: Timestamp): (r: (LedgerState, Result<Expense>))
    requires MaxRetries <= |script|
    ensures r.1.Ok? <==> Execute(script).Ok?
    ensures r.1.Ok? ==> (r.1.value == Normalize(Execute(script).value)
      && r.0.expenses == s.expenses + [r.1.value])
    ensures r.1.Err? ==> (r.1.message == Execute(script).message
      && r.0.expenses == s.expenses && r.0.error == Some(OrElse(r.1.message, "Failed to add expense")))
    ensures r.0.monthlyBudget == s.monthlyBudget
  {
    match Execute(script)
    case Ok(created) =>
      var n := Normalize(created);
      (Reduce(s, Action.AddExpense(n), now), Ok(n))
    case Err(m) =>
      (Reduce(s, FetchError(OrElse(m, "Failed to add expense")), now), Err(m))
  }

  /** `updateExpense(id, updates)`: the normalised server answer replaces every
      record carrying its identifier. The `id` argument only addresses the
      request; the replacement is matched on the answer's own identifier. */
  function UpdateExpense(s: LedgerState, id: Id, script: seq<Attempt<Expense>>, now: Timestamp): (r: (LedgerState, Result<Expense>))
    requires MaxRetries <= |script|
    ensures r.1.Ok? <==> Execute(script).Ok?
    ensures r.1.Ok? ==> (r.1.value == Normalize(Execute(script).value)
      && |r.0.expenses| == |s.expenses|
      && forall i :: 0 <= i < |s.expenses| ==>
           r.0.expenses[i] == (if s.expenses[i].id == r.1.value.id then r.1.value else s.expenses[i]))
    ensures r.1.Err? ==> (r.1.message == Execute(script).message && r.0.expenses == s.expenses
      && r.0.error == Some(OrElse(r.1.message, "Failed to update expense")))
  {
    match Execute(script)
    case Ok(updated) =>
      var n := Normalize(updated);
      (Reduce(s, Action.UpdateExpense(n), now), Ok(n))
    case Err(m) =>
      (Reduce(s, FetchError(OrElse(m, "Failed to update expense")), now), Err(m))
  }

  /** `deleteExpense(id)`: on success every record with that identifier goes. */
  function DeleteExpense(s: LedgerState, id: Option<Id>, script: seq<Attempt<()>>, now: Timestamp): (r: (LedgerState, Result<()>))
    requires MaxRetries <= |script|
    ensures r.1.Ok? <==> Execute(script).Ok?
    ensures r.1.Ok? ==> (IsSubsequence(r.0.expenses, s.expenses)
      && (forall x :: x in r.0.expenses <==> x in s.expenses && x.id != id)
      && |r.0.expenses| + CountId(s.expenses, id) == |s.expenses|)
    ensures r.1.Err? ==> (r.1.message == Execute(script).message && r.0.expenses == s.expenses
      && r.0.error == Some(OrElse(r.1.message, "Failed to delete expense")))
  {
    match Execute(script)
    case Ok(_) =>
      var t := Reduce(s, Action.DeleteExpense(id), now);
      SubsequenceMembers(t.expenses, s.expenses);
      (t, Ok(()))
    case Err(m) =>
      (Reduce(s, FetchError(OrElse(m, "Failed to delete expense")), now), Err(m))
  }

  /** Every create request of an import succeeded. */
  predicate AllCreated(scripts: seq<seq<Attempt<Expense>>>)
    requires forall i :: 0 <= i < |scripts| ==> MaxRetries <= |scripts[i]|
  {
    forall i :: 0 <= i < |scripts| ==> Execute(scripts[i]).Ok?
  }

  /** Run the create requests in order: the normalised records, or the first
      failure's message. */
  function CreateAll(scripts: seq<seq<Attempt<Expense>>>): (r: Result<seq<Expense>>)
    requires forall i :: 0 <= i < |scripts| ==> MaxRetries <= |scripts[i]|
    ensures r.Ok? <==> AllCreated(scripts)
    ensures r.Ok? ==> (|r.value| == |scripts|
      && forall i :: 0 <= i < |scripts| ==> r.value[i] == Normalize(Execute(scripts[i]).value))
    ensures r.Err? ==> exists i :: 0 <= i < |scripts| && Execute(scripts[i]) == Err(r.message)
  {
    if scripts == [] then Ok([])
    else
      match Execute(scripts[0])
      case Err(m) => Err(m)
      case Ok(created) =>
        match CreateAll(scripts[1..])
        case Err(m) =>
          assert forall i :: 1 <= i < |scripts| ==> scripts[i] == scripts[1..][i - 1];
          Err(m)
        case Ok(rest) =>
          assert forall i :: 1 <= i < |scripts| ==> scripts[i] == scripts[1..][i - 1];
          Ok([Normalize(created)] + rest)
  }

  /** `importExpenses(records)`, one create request per record: all or nothing.
      The ledger grows by every created record in submission order when every
      request succeeds; otherwise it stays as it was and the error is shown. */
  function ImportExpenses(s: LedgerState, scripts: seq<seq<Attempt<Expense>>>, now: Timestamp): (r: (LedgerState, Result<seq<Expense>>))
    requires forall i :: 0 <= i < |scripts| ==> MaxRetries <= |scripts[i]|
    ensures r.1.Ok? <==> AllCreated(scripts)
    ensures r.1.Ok? ==> (r.0.expenses == s.expenses + r.1.value && |r.1.value| == |scripts|
      && forall i :: 0 <= i < |scripts| ==> r.1.value[i] == Normalize(Execute(scripts[i]).value))
    ensures r.1.Err? ==> (r.0.expenses == s.expenses && !r.0.loading
      && r.0.error == Some(OrElse(r.1.message, "Failed to import expenses"))
      && exists i :: 0 <= i < |scripts| && Execute(scripts[i]) == Err(r.1.message))
    ensures r.0.monthlyBudget == s.monthlyBudget
  {
    match CreateAll(scripts)
    case Ok(created) => (Reduce(s, Action.ImportExpenses(created), now), Ok(created))
    case Err(m) => (Reduce(s, FetchError(OrElse(m, "Failed to import expenses")), now), Err(m))
  }

  /** A single failing create leaves the ledger exactly as it was. */
  lemma ImportOneFailureCommitsNothing(s: LedgerState, scripts: seq<seq<Attempt<Expense>>>, k: nat, now: Timestamp)
    requires forall i :: 0 <= i < |scripts| ==> MaxRetries <= |scripts[i]|
    requires k < |scripts| && Execute(scripts[k]).Err?
    ensures ImportExpenses(s, scripts, now).0.expenses == s.expenses
    ensures ImportExpenses(s, scripts, now).1.Err?
  {
  }

  /** The list a GET answer yields: an array is normalised, anything else is empty. */
  function ListOf(body: ListBody): (r: seq<Expense>)
    ensures body.NotAList? ==> r == []
    ensures body.RecordList? ==> r == NormalizeAll(body.records)
  {
    match body
    case RecordList(records) => NormalizeAll(records)
    case NotAList => []
  }

  /** The GET and its dispatch, shared by `refreshExpenses` and the initial
      load (each dispatches FETCH_START once, before it): the answer replaces
      the ledger, the budget stays; a failure keeps the ledger and shows the
      request's message, or `fallback` when that is empty. */
  function ReceiveList(s: LedgerState, script: seq<Attempt<ListBody>>, fallback: string, now: Timestamp): (r: (LedgerState, Result<()>))
    requires MaxRetries <= |script|
    ensures !r.0.loading
    ensures r.0.monthlyBudget == s.monthlyBudget
    ensures r.1.Ok? <==> Execute(script).Ok?
    ensures r.1.Ok? ==> r.0.expenses == ListOf(Execute(script).value) && r.0.error.None?
    ensures r.1.Err? ==> (r.1.message == Execute(script).message && r.0.expenses == s.expenses
      && r.0.error == Some(OrElse(r.1.message, fallback)))
  {
    match Execute(script)
    case Ok(body) => (Reduce(s, FetchSuccess(Some(ListOf(body)), None), now), Ok(()))
    case Err(m) => (Reduce(s, FetchError(OrElse(m, fallback)), now), Err(m))
  }

  /** `refreshExpenses()`: FETCH_START, then the GET. An array answer replaces
      the ledger with its normalised records; any other successful answer
      empties it; a failure keeps it and shows the request's message or
      "Failed to refresh expenses", and returns the request's message. */
  function RefreshExpenses(s: LedgerState, script: seq<Attempt<ListBody>>, now: Timestamp): (r: (LedgerState, Result<()>))
    requires MaxRetries <= |script|
    ensures !r.0.loading && r.0.monthlyBudget == s.monthlyBudget
    ensures r.1.Ok? <==> Execute(script).Ok?
    ensures r.1.Ok? ==> r.0.expenses == ListOf(Execute(script).value) && r.0.error.None?
    ensures Execute(script) == Ok(NotAList) ==> r.0.expenses == []
    ensures r.1.Err? ==> (r.1.message == Execute(script).message && r.0.expenses == s.expenses
      && r.0.error == Some(OrElse(Execute(script).message, "Failed to refresh expenses")))
  {
    ReceiveList(Reduce(s, FetchStart, now), script, "Failed to refresh expenses", now)
  }

  /** The initial load: FETCH_START, then the stored budget (when the stored
      text is non-empty; `savedBudget` is its `parseFloat`, NaN included, with
      no check), then the GET. */
  function LoadInitialData(s: LedgerState, savedBudget: Option<Num>, script: seq<Attempt<ListBody>>, now: Timestamp): (r: LedgerState)
    requires MaxRetries <= |script|
    ensures !r.loading
    ensures savedBudget.Some? ==> r.monthlyBudget == savedBudget
    ensures savedBudget.None? ==> r.monthlyBudget == s.monthlyBudget
    ensures Execute(script).Ok? ==> r.expenses == ListOf(Execute(script).value) && r.error.None?
    ensures Execute(script).Err? ==> (r.expenses == s.expenses
      && r.error == Some(OrElse(Execute(script).message, "Failed to load expenses")))
  {
    var started := Reduce(s, FetchStart, now);
    var budgeted := if savedBudget.Some? then Reduce(started, SetBudget(savedBudget.value), now) else started;
    ReceiveList(budgeted, script, "Failed to load expenses", now).0
  }

  /** `getCurrentMonthExpenses()` for the reference month `ref`. */
  function CurrentMonthExpenses(s: LedgerState, ref: YearMonth): (r: seq<Expense>)
    ensures IsSubsequence(r, s.expenses)
    ensures forall x :: x in r <==> x in s.expenses && MonthOf(x.date) == ref
    ensures forall x :: multiset(r)[x] == if MonthOf(x.date) == ref then multiset(s.expenses)[x] else 0
  {
    var r := ExpensesIn(s.expenses, ref);
    SubsequenceMembers(r, s.expenses);
    r
  }
}
