/** What one iteration does to each record, and how a run came to its outcome, told from the history. */
module AdmittedEvolution {
  import opened Wrappers
  import opened CandidateAvailability
  import opened RecoveryPolicy
  import opened AdmittedExecution
  import opened AttemptLedger
  import opened AdmittedRefresh
  import opened AdmittedExecutionInvariant
  import opened AdmittedTurn

  // ---------------------------------------------------------------- one record, one iteration

  function WaitClass(failure: Failure): Wait {
    match failure
    case Overloaded => OverloadWait
    case RateLimit(_, _) => RateLimitWait
    case _ => StandardWait
  }

  /** The record after a failure that the loop survives; `log` includes the failed attempt. An overload
      leaves the finite budget alone; any other failure draws on it, and the fourth uses it up. A record
      that may go on waits in the class of its failure until the history says it is due. */
  ghost predicate FailedFrom(a: AttemptState, b: AttemptState, failure: Failure, log: seq<Event>, i: nat) {
    && b.attempts == a.attempts + 1
    && b.finiteFailures == a.finiteFailures + (if failure.Overloaded? then 0 else 1)
    && b.overloadDelayMs == Backoff(Streak(log, i) + 1)
    && (b.Exhausted? || b.RetryWaiting?) && b.lastFailure == Some(failure)
    && (b.Exhausted? <==> !failure.Overloaded? && a.finiteFailures >= 3)
    && (b.RetryWaiting? ==> b.wait == WaitClass(failure) && Due(log, i) == Some(b.untilMs))
  }

  /** The record after it was selected and found blocked: it waits out a block that passes, and is
      exhausted by any other. */
  ghost predicate SetAsideFrom(r: Record, t: Record, store: Store, nowMs: int) {
    var a, b := r.state, t.state;
    && t.identity == r.identity && t.routeIndex == r.routeIndex && SameCounters(a, b)
    && !a.LocalOverload() && (a.Untried? || a.RetryReady?) && !IsAvailable(store, r.identity, nowMs)
    && (b.TemporarilyUnavailable? <==> PassingBlock(store, r.identity, nowMs))
    && (b.TemporarilyUnavailable? ==>
          var e := GetEntry(store, r.identity).value; b.untilMs == e.untilMs && b.reason == e.reason)
    && (!b.TemporarilyUnavailable? ==> b.Exhausted? && b.lastFailure == if a.RetryReady? then a.lastFailure else None)
  }

  /** The event of an iteration that made one. */
  predicate Adds(s: State, t: State, e: Event) {
    t.log == s.log + [e]
  }

  /** Record `k` before and after an iteration the run survives: refreshed, then changed further only by
      its own failure or by being set aside. */
  ghost predicate Evolved(s: State, t: State, x: Input, k: nat)
    requires k < |s.records| == |t.records|
  {
    exists mid: Record ::
      && RefreshedFrom(s.records[k], mid, s.store, x.nowMs, s.cfg.deadlineMs, s.cfg.mode)
      && (if x.outcome.Failed? && Adds(s, t, Attempted(k, x.nowMs, x.outcome, x.settledMs)) then
            && t.records[k].identity == mid.identity && t.records[k].routeIndex == mid.routeIndex
            && FailedFrom(mid.state, t.records[k].state, x.outcome.failure, t.log, k)
          else if Adds(s, t, Reclassified(k)) then s.cfg.mode.Ordinary? && SetAsideFrom(mid, t.records[k], s.store, x.nowMs)
          else t.records[k] == mid)
  }

  lemma LastEvent(s: State, t: State, e: Event)
    requires Adds(s, t, e)
    ensures forall f :: Adds(s, t, f) ==> f == e
  {
    assert t.log[|s.log|] == e;
  }

  lemma FailureEvolves(u: State, i: nat, x: Input, pass: Pass)
    requires ReadyToDispatch(u, i, pass) && Dispatch(u, i, x).status.Running?
    ensures x.outcome.Failed?
    ensures var t := Dispatch(u, i, x);
            && t.records[i].identity == u.records[i].identity && t.records[i].routeIndex == u.records[i].routeIndex
            && FailedFrom(u.records[i].state, t.records[i].state, x.outcome.failure, t.log, i)
  {
    var e := Attempted(i, x.nowMs, x.outcome, x.settledMs);
    var w := Await(u, x, e);
    var failure := x.outcome.failure;
    var st := u.records[i].state;
    assert RecordOk(u.records[i], u.log, i, u.clockMs, pass, u.cfg.mode);
    DispatchLogs(u, i, x);
    FailureLeadsTo(w, i, x.outcome.phase, failure, x.outcome.payloads);
    FailureBecomesAnyMode(w, i, x.outcome.phase, failure, x.outcome.payloads);
    FailureIsAccounted(u.records[i], i, u.log, e);
    AccountedFrom(st, failure, u.log + [e], i, x.settledMs);
  }

  lemma FailureBecomesAnyMode(s: State, i: nat, phase: Phase, failure: Failure, payloads: seq<string>)
    requires i < |s.records| && s.status.Running?
    requires Settle(s, i, Failed(phase, failure, payloads)).status.Running?
    ensures Retryable(failure)
    ensures var r := s.records[i];
            Settle(s, i, Failed(phase, failure, payloads)).records[i] ==
            r.(state := AfterFailure(r.state, failure, DecideFailure(failure, RECOVERY_DELAY_MS, r.state.overloadDelayMs, s.clockMs), s.clockMs))
  {
  }

  lemma AccountedFrom(st: AttemptState, failure: Failure, log: seq<Event>, i: nat, settledMs: int)
    requires Retryable(failure)
    requires failure.Overloaded? ==> Streak(log, i) >= 1 && Backoff(Streak(log, i)) == st.overloadDelayMs
    requires Backoff(Streak(log, i) + 1) == if failure.Overloaded? then Doubled(st.overloadDelayMs) else FIRST_OVERLOAD_DELAY_MS
    requires Due(log, i) == Some(DueAfter(failure, Streak(log, i), settledMs))
    ensures FailedFrom(st, AfterFailure(st, failure, DecideFailure(failure, RECOVERY_DELAY_MS, st.overloadDelayMs, settledMs), settledMs),
                       failure, log, i)
  {
    RetryDueMatches(failure, Streak(log, i), st.overloadDelayMs, settledMs);
  }

  lemma DispatchEvolves(s: State, u: State, i: nat, x: Input, pass: Pass, k: nat)
    requires u == Dispatching(s, x) && ReadyToDispatch(u, i, pass) && k < |s.records|
    requires Dispatch(u, i, x).status.Running?
    ensures Evolved(s, Dispatch(u, i, x), x, k)
  {
    var t, e := Dispatch(u, i, x), Attempted(i, x.nowMs, x.outcome, x.settledMs);
    RefreshesExactly(s, x, k);
    DispatchLogs(u, i, x);
    LastEvent(s, t, e);
    FailureEvolves(u, i, x, pass);
    if k != i {
      DispatchTouchesOne(u, i, x, k);
    }
  }

  lemma ChosenIsReady(t: State, nowMs: int, pass: Pass)
    requires Inv(t, pass) && t.mandatoryFirst.None?
    requires Choose(t.cfg, t.records, t.store, nowMs).Attempt?
    ensures ReadyToDispatch(t, Choose(t.cfg, t.records, t.store, nowMs).index, pass)
    ensures !t.records[Choose(t.cfg, t.records, t.store, nowMs).index].state.ContextFailed?
  {
    assert t.cfg.mode.Pinned? ==> RecordOk(t.records[0], t.log, 0, t.clockMs, pass, t.cfg.mode);
    ChoiceIsEligible(t.cfg, t.records, t.store, nowMs);
  }

  lemma SetAsideEvolves(s: State, x: Input, i: nat, k: nat)
    requires i < |s.records| && k < |s.records| && s.cfg.mode.Ordinary?
    requires var t := Refreshed(s, x);
             && MustReclassify(t.cfg, t.records[i], t.store, x.nowMs)
             && (t.records[i].state.Untried? || t.records[i].state.RetryReady?)
    ensures Evolved(s, SetAside(Refreshed(s, x), i), x, k)
  {
    var t, u := Refreshed(s, x), SetAside(Refreshed(s, x), i);
    RefreshesExactly(s, x, k);
    LastEvent(s, u, Reclassified(i));
    if k == i {
      assert Adds(s, u, Reclassified(k));
      assert SetAsideFrom(t.records[k], u.records[k], s.store, x.nowMs);
    }
  }

  lemma WaitEvolves(s: State, x: Input, owner: Option<nat>, waitMs: int, k: nat)
    requires k < |s.records|
    ensures Evolved(s, Await(Refreshed(s, x), x, Waited(owner, x.nowMs, waitMs)), x, k)
  {
    var u := Await(Refreshed(s, x), x, Waited(owner, x.nowMs, waitMs));
    RefreshesExactly(s, x, k);
    LastEvent(s, u, Waited(owner, x.nowMs, waitMs));
  }

  lemma ScheduledEvolves(s: State, x: Input, pass: Pass, k: nat)
    requires Inv(s, pass) && ClockOk(s, x) && !s.aborted && s.mandatoryFirst.None? && k < |s.records|
    requires Scheduled(Refreshed(s, x), x).status.Running?
    ensures Evolved(s, Scheduled(Refreshed(s, x), x), x, k)
  {
    var t := Refreshed(s, x);
    var c := Choose(t.cfg, t.records, t.store, x.nowMs);
    RefreshKeepsInv(s, x, pass);
    if c.WaitFor? {
      WaitEvolves(s, x, c.owner, c.waitMs, k);
    } else if c.Attempt? {
      ChosenIsReady(t, x.nowMs, pass);
      if MustReclassify(t.cfg, t.records[c.index], t.store, x.nowMs) {
        SetAsideEvolves(s, x, c.index, k);
      } else {
        DispatchEvolves(s, t, c.index, x, pass, k);
      }
    }
  }

  /** Each iteration the run survives changes each record exactly as its refresh, its own failure or its
      being set aside says, and no record in any other way. */
  lemma RecordsEvolveExactly(s: State, x: Input, pass: Pass, k: nat)
    requires Inv(s, pass) && ClockOk(s, x) && k < |s.records|
    requires Step(s, x).status.Running?
    ensures Evolved(s, Step(s, x), x, k)
  {
    if s.mandatoryFirst.Some? {
      var i := MandatoryAttempt(s, pass, x);
      DispatchEvolves(s, Dispatching(s, x), i, x, pass, k);
    } else {
      ScheduledEvolves(s, x, pass, k);
    }
  }

  // ---------------------------------------------------------------- pinned runs

  /** A pinned run waits exactly until its record is due by the history, and attempts it otherwise. */
  lemma PinnedWaitsUntilDue(s: State, x: Input)
    requires Inv(s, FirstPass) && s.cfg.mode.Pinned? && !s.aborted && ClockOk(s, x)
    ensures var due := Due(s.log, 0);
            Adds(s, Step(s, x),
                 if due.Some? && due.value > x.nowMs then Waited(Some(0), x.nowMs, due.value - x.nowMs)
                 else Attempted(0, x.nowMs, x.outcome, x.settledMs))
  {
    var t := Refreshed(s, x);
    RefreshKeepsInv(s, x, FirstPass);
    RefreshesExactly(s, x, 0);
    assert RecordOk(s.records[0], s.log, 0, s.clockMs, FirstPass, Pinned);
    assert RecordOk(t.records[0], t.log, 0, t.clockMs, FirstPass, Pinned);
    if Choose(t.cfg, t.records, t.store, x.nowMs).Attempt? { DispatchLogs(t, 0, x); }
  }
}
