/** What refreshing makes of each record, read off the record as it stood before. */
module AdmittedRefresh {
  import opened Wrappers
  import opened CandidateAvailability
  import opened AdmittedExecution

  /** A record that is not in local overload and waits for a retry, is ready for one or is blocked. */
  predicate Pending(st: AttemptState) {
    (st.RetryWaiting? || st.RetryReady? || st.TemporarilyUnavailable?) && !st.LocalOverload()
  }

  /** The store blocks a candidate, for a reason that passes. */
  predicate PassingBlock(store: Store, c: Candidate, nowMs: int) {
    !IsAvailable(store, c, nowMs) && Waitable(GetEntry(store, c).value.reason)
  }

  /** The deadline uses up a record that is pending, or untried but blocked for a reason that passes. */
  predicate OutOfTime(r: Record, store: Store, nowMs: int, deadlineMs: int, mode: Mode) {
    nowMs >= deadlineMs
    && (Pending(r.state) || (mode.Ordinary? && r.state.Untried? && PassingBlock(store, r.identity, nowMs)))
  }

  /** The store makes a record unavailable, or keeps it so. */
  predicate Withheld(r: Record, store: Store, nowMs: int, mode: Mode) {
    || (r.state.TemporarilyUnavailable? && !IsAvailable(store, r.identity, nowMs))
    || (mode.Ordinary? && r.state.Untried? && PassingBlock(store, r.identity, nowMs))
  }

  /** A record whose own wait is over. */
  predicate ComesDue(r: Record, nowMs: int) {
    r.state.RetryWaiting? && r.state.untilMs <= nowMs
  }

  /** A record whose block is over. */
  predicate Released(r: Record, store: Store, nowMs: int) {
    r.state.TemporarilyUnavailable? && IsAvailable(store, r.identity, nowMs)
  }

  predicate SameCounters(a: AttemptState, b: AttemptState) {
    a.attempts == b.attempts && a.finiteFailures == b.finiteFailures && a.overloadDelayMs == b.overloadDelayMs
  }

  /** What refreshing makes of record `r`: the deadline uses it up; or the store withholds it, until the
      store's own horizon and for the store's reason; or a wait that is over makes it ready in its class; or a
      block that is over makes it ready for a standard retry; or it stays as it is. */
  ghost predicate RefreshedFrom(r: Record, t: Record, store: Store, nowMs: int, deadlineMs: int, mode: Mode) {
    var a, b := r.state, t.state;
    && t.identity == r.identity && t.routeIndex == r.routeIndex && SameCounters(a, b)
    && (b.Exhausted? <==> a.Exhausted? || OutOfTime(r, store, nowMs, deadlineMs, mode))
    && (b.Exhausted? ==> b.lastFailure == if a.RetryWaiting? || a.RetryReady? || a.Exhausted? then a.lastFailure else None)
    && (!b.Exhausted? ==>
          && (b.TemporarilyUnavailable? <==> Withheld(r, store, nowMs, mode))
          && (b.TemporarilyUnavailable? ==>
                var e := GetEntry(store, r.identity).value; b.untilMs == e.untilMs && b.reason == e.reason)
          && (b.RetryReady? <==> a.RetryReady? || ComesDue(r, nowMs) || Released(r, store, nowMs))
          && (ComesDue(r, nowMs) ==>
                b.RetryReady? && b.wait == a.wait && b.untilMs == a.untilMs && b.lastFailure == a.lastFailure)
          && (Released(r, store, nowMs) ==>
                b.RetryReady? && b.wait == StandardWait && b.untilMs == a.untilMs && b.lastFailure.None?)
          && (!Withheld(r, store, nowMs, mode) && !ComesDue(r, nowMs) && !Released(r, store, nowMs) ==> b == a))
  }

  /** Every record is refreshed exactly so, in both modes. */
  lemma RefreshesExactly(s: State, x: Input, k: nat)
    requires k < |s.records|
    ensures RefreshedFrom(s.records[k], Refreshed(s, x).records[k], s.store, x.nowMs, s.cfg.deadlineMs, s.cfg.mode)
  {
  }
}
