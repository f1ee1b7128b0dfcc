/** Expense records and the identifier normalisation `{ ...e, id: e.id ?? e._id }`
    applied to every record the server returns. */
module Records {
  import opened Values
  import opened Calendar

  type Id = string

  /** An expense record as the client holds it. `id` is the client's identifier
      and `mongoId` the server's `_id`; either may be missing in a raw record.
      The amount is finite; `note` is optional. */
  datatype Expense = Expense(
    id: Option<Id>,
    mongoId: Option<Id>,
    date: CalDate,
    category: string,
    amount: real,
    note: Option<string>)

  /** `{ ...e, id: e.id ?? e._id }`: keep a present `id`, otherwise copy `_id`. */
  function Normalize(e: Expense): (r: Expense)
    ensures e.id.Some? ==> r.id == e.id
    ensures e.id.None? ==> r.id == e.mongoId
    ensures r.id.Some? <==> e.id.Some? || e.mongoId.Some?
    ensures r.mongoId == e.mongoId && r.date == e.date && r.category == e.category
    ensures r.amount == e.amount && r.note == e.note
  {
    if e.id.Some? then e else e.(id := e.mongoId)
  }

  /** Normalising twice is normalising once. */
  lemma NormalizeIdempotent(e: Expense)
    ensures Normalize(Normalize(e)) == Normalize(e)
  {
  }

  /** A record labelled by `_id` and the same record labelled by `id` get the
      same canonical identifier and the same data. The first still carries
      its `_id` field, so the two records are not equal as a whole. */
  lemma NormalizeReconcilesIdentifiers(a: Id, withMongoId: Expense, withId: Expense)
    requires withMongoId.id == None && withMongoId.mongoId == Some(a)
    requires withId.id == Some(a)
    requires withId.(id := None, mongoId := Some(a)) == withMongoId
    ensures Normalize(withMongoId).id == Normalize(withId).id == Some(a)
    ensures Normalize(withMongoId).(mongoId := None) == Normalize(withId).(mongoId := None)
  {
  }

  /** `expenses.map(e => normalize(e))`. */
  function NormalizeAll(es: seq<Expense>): (r: seq<Expense>)
    ensures |r| == |es|
    ensures forall i :: 0 <= i < |es| ==> r[i] == Normalize(es[i])
  {
    if es == [] then [] else [Normalize(es[0])] + NormalizeAll(es[1..])
  }

  /** The sum of the amounts, `es.reduce((s, e) => s + e.amount, 0)`. */
  function SumAmounts(es: seq<Expense>): real {
    if es == [] then 0.0 else SumAmounts(es[..|es| - 1]) + es[|es| - 1].amount
  }

  lemma {:induction false} SumAmountsAppend(xs: seq<Expense>, ys: seq<Expense>)
    ensures SumAmounts(xs + ys) == SumAmounts(xs) + SumAmounts(ys)
    decreases |ys|
  {
    if ys == [] {
      assert xs + ys == xs;
    } else {
      assert (xs + ys)[..|xs + ys| - 1] == xs + ys[..|ys| - 1];
      SumAmountsAppend(xs, ys[..|ys| - 1]);
    }
  }

  /** Non-negative amounts add up to a non-negative total. */
  lemma {:induction false} SumAmountsNonNegative(es: seq<Expense>)
    ensures (forall x :: x in es ==> x.amount >= 0.0) ==> SumAmounts(es) >= 0.0
    decreases |es|
  {
    if es != [] {
      var p := es[..|es| - 1];
      assert forall x :: x in p ==> x in es;
      SumAmountsNonNegative(p);
      assert es[|es| - 1] in es;
    }
  }

  lemma SumAmountsCons(e: Expense, es: seq<Expense>)
    ensures SumAmounts([e] + es) == e.amount + SumAmounts(es)
  {
    SumAmountsAppend([e], es);
    assert SumAmounts([e]) == SumAmounts([]) + e.amount;
  }

  /** The records dated in month `ym`, in ledger order: the filter
      `new Date(e.date).getMonth() === m && getFullYear() === y`. */
  function ExpensesIn(es: seq<Expense>, ym: YearMonth): (r: seq<Expense>)
    ensures IsSubsequence(r, es)
    ensures forall i :: 0 <= i < |r| ==> MonthOf(r[i].date) == ym
    ensures forall x :: x in es && MonthOf(x.date) == ym ==> x in r
    ensures forall x :: multiset(r)[x] == if MonthOf(x.date) == ym then multiset(es)[x] else 0
  {
    if es == [] then []
    else
      assert es == [es[0]] + es[1..];
      if MonthOf(es[0].date) == ym then
        var r := [es[0]] + ExpensesIn(es[1..], ym);
        assert r[1..] == ExpensesIn(es[1..], ym);
        r
      else ExpensesIn(es[1..], ym)
  }

  /** No two records share an identifier, a property the reducer does not
      enforce (see `Ledger.AddPreservesUniqueIdsIff`).
      Two missing identifiers count as equal, as `undefined === undefined`. */
  predicate UniqueIds(es: seq<Expense>) {
    forall i, j :: 0 <= i < j < |es| ==> es[i].id != es[j].id
  }

  /** `a` is `b` with some records dropped and the rest kept in order. */
  predicate IsSubsequence<T(==)>(a: seq<T>, b: seq<T>)
    decreases |b|
  {
    if a == [] then true
    else if b == [] then false
    else if a[0] == b[0] then IsSubsequence(a[1..], b[1..])
    else IsSubsequence(a, b[1..])
  }

  lemma {:induction false} SubsequenceMembers<T>(a: seq<T>, b: seq<T>)
    requires IsSubsequence(a, b)
    ensures forall x :: x in a ==> x in b
    ensures |a| <= |b|
    decreases |b|
  {
    if a == [] {
    } else if b == [] {
    } else if a[0] == b[0] {
      SubsequenceMembers(a[1..], b[1..]);
      assert forall x :: x in a ==> x == a[0] || x in a[1..];
    } else {
      SubsequenceMembers(a, b[1..]);
    }
  }
}
