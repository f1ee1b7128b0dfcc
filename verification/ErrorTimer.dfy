/** The effect that clears a visible error after five seconds. It is keyed on
    the error VALUE: it re-runs only when `state.error` changes, cancelling the
    previous timer and arming a new one when the new error is truthy. Time is a
    parameter; `Tick` is the moment a timer callback may run. */
module ErrorTimer {
  import opened Values
  import opened Ledger

  const ErrorDisplayTime: nat := 5000

  /** The one pending timer, if any: the error it was armed for and when it fires. */
  datatype Timer = Idle | Armed(forError: string, deadline: Timestamp)

  /** The store together with its pending timer. */
  datatype Session = Session(state: LedgerState, timer: Timer)

  const InitialSession: Session := Session(InitialState, Idle)

  /** The effect's reaction to a committed error change from `prev` to `next`. */
  function Rearm(prev: Option<string>, next: Option<string>, timer: Timer, now: Timestamp): (t: Timer)
    ensures prev == next ==> t == timer
    ensures prev != next ==> (t.Armed? <==> Truthy(next))
    ensures prev != next && t.Armed? ==> t == Armed(next.value, now + ErrorDisplayTime)
  {
    if prev == next then timer
    else if Truthy(next) then Armed(next.value, now + ErrorDisplayTime)
    else Idle
  }

  /** Dispatch an action and let the effect react to the new error value. */
  function Dispatch(sys: Session, a: Action, now: Timestamp): (r: Session)
    ensures r.state == Reduce(sys.state, a, now)
    ensures r.state.error == sys.state.error ==> r.timer == sys.timer
    ensures r.timer != sys.timer ==> r.timer.Idle? || r.timer.deadline == now + ErrorDisplayTime
  {
    var t := Reduce(sys.state, a, now);
    Session(t, Rearm(sys.state.error, t.error, sys.timer, now))
  }

  /** Let time reach `now`: a due timer dispatches CLEAR_ERROR. */
  function Tick(sys: Session, now: Timestamp): (r: Session)
    ensures !(sys.timer.Armed? && sys.timer.deadline <= now) ==> r == sys
    ensures sys.timer.Armed? && sys.timer.deadline <= now ==>
      r.state.error.None? && r.state.expenses == sys.state.expenses
      && r.state.monthlyBudget == sys.state.monthlyBudget
    ensures sys.timer.Armed? && sys.timer.deadline <= now && sys.state.error.Some? ==> r.timer.Idle?
  {
    if sys.timer.Armed? && sys.timer.deadline <= now then Dispatch(sys, ClearError, now)
    else sys
  }

  /** The pending timer belongs to the error on screen, and every truthy error
      on screen has a pending timer. */
  predicate TimerMatchesError(sys: Session) {
    && (sys.timer.Armed? ==> sys.state.error == Some(sys.timer.forError))
    && (Truthy(sys.state.error) ==> sys.timer.Armed?)
  }

  lemma InitialSessionMatches()
    ensures TimerMatchesError(InitialSession)
  {
  }

  lemma DispatchKeepsTimerMatching(sys: Session, a: Action, now: Timestamp)
    requires TimerMatchesError(sys)
    ensures TimerMatchesError(Dispatch(sys, a, now))
  {
  }

  lemma TickKeepsTimerMatching(sys: Session, now: Timestamp)
    requires TimerMatchesError(sys)
    ensures TimerMatchesError(Tick(sys, now))
  {
  }

  /** A timer only ever clears the error it was armed for: a stale timer of an
      earlier, different error has been cancelled. */
  lemma TickClearsOnlyItsOwnError(sys: Session, now: Timestamp)
    requires TimerMatchesError(sys)
    requires Tick(sys, now).state.error != sys.state.error
    ensures sys.timer.Armed? && sys.state.error == Some(sys.timer.forError)
    ensures Tick(sys, now).state.error.None?
  {
  }

  /** A newly shown truthy error is cleared five seconds after it appeared,
      unless something replaces it first. */
  lemma NewErrorGetsFullDelay(sys: Session, message: string, now: Timestamp)
    requires sys.state.error != Some(message) && message != ""
    ensures Dispatch(sys, FetchError(message), now).timer == Armed(message, now + ErrorDisplayTime)
  {
  }

  /** The same message shown again does not re-arm the timer: it keeps the
      deadline of the first showing, so the repeat is cleared early. */
  lemma RepeatedMessageKeepsOldDeadline(sys: Session, message: string, first: Timestamp, now: Timestamp)
    requires sys.state.error == Some(message) && sys.timer == Armed(message, first + ErrorDisplayTime)
    requires first < now
    ensures Dispatch(sys, FetchError(message), now).timer.deadline < now + ErrorDisplayTime
    ensures Dispatch(sys, FetchError(message), now).state.error == Some(message)
  {
  }
}
