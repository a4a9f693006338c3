/** What a run still does once its deadline has passed. */
module AdmittedDeadline {
  import opened RecoveryPolicy
  import opened AdmittedExecution
  import opened AttemptLedger
  import opened AdmittedExecutionInvariant
  import opened AdmittedTurn

  /** An attempt of record `i`, started at the deadline or later, that did not end in server overload. */
  predicate LateAttempt(e: Event, i: nat, deadlineMs: int) {
    AttemptOn(e, i) && !OverloadFailure(e.outcome) && e.atMs >= deadlineMs
  }

  function LateOn(log: seq<Event>, i: nat, deadlineMs: int): nat {
    if log == [] then 0
    else LateOn(log[..|log| - 1], i, deadlineMs) + if LateAttempt(log[|log| - 1], i, deadlineMs) then 1 else 0
  }

  lemma LateSnoc(log: seq<Event>, e: Event, i: nat, deadlineMs: int)
    ensures LateOn(log + [e], i, deadlineMs) == LateOn(log, i, deadlineMs) + if LateAttempt(e, i, deadlineMs) then 1 else 0
  {
    assert (log + [e])[..|log|] == log;
  }

  /** The record has had its last attempt: it is exhausted, or will be when it is refreshed. */
  ghost predicate Done(s: State, i: nat)
    requires i < |s.records|
  {
    var st := s.records[i].state;
    st.Exhausted? || (st.RetryWaiting? && !st.LocalOverload() && s.clockMs >= s.cfg.deadlineMs)
  }

  /** Since it had `base` late attempts, record `i` has made at most one more, and is done if it has. */
  ghost predicate LastLate(s: State, i: nat, base: nat) {
    && i < |s.records|
    && LateOn(s.log, i, s.cfg.deadlineMs) <= base + 1
    && (s.status.Running? && LateOn(s.log, i, s.cfg.deadlineMs) == base + 1 ==> Done(s, i))
  }

  lemma DoneIsExhausted(s: State, i: nat, x: Input)
    requires i < |s.records| && Done(s, i) && s.clockMs <= x.nowMs
    ensures Refreshed(s, x).records[i].state.Exhausted?
  {
  }

  lemma DispatchLeavesExhausted(u: State, k: nat, x: Input, pass: Pass, i: nat)
    requires ReadyToDispatch(u, k, pass) && i < |u.records| && u.records[i].state.Exhausted?
    ensures Dispatch(u, k, x).records[i] == u.records[i]
    ensures AttemptsOn(Dispatch(u, k, x).log, i) == AttemptsOn(u.log, i)
  {
    assert k != i;
    DispatchTouchesOne(u, k, x, i);
    DispatchLogs(u, k, x);
    Snoc(u.log, Attempted(k, x.nowMs, x.outcome, x.settledMs), i);
  }

  lemma ScheduledLeavesExhausted(t: State, x: Input, pass: Pass, i: nat)
    requires Inv(t, pass) && t.mandatoryFirst.None? && t.clockMs == x.nowMs
    requires i < |t.records| && t.records[i].state.Exhausted?
    ensures Scheduled(t, x).records[i] == t.records[i]
    ensures AttemptsOn(Scheduled(t, x).log, i) == AttemptsOn(t.log, i)
  {
    var d := ScheduledAnatomy(t, x, pass);
    if d.Some? {
      DispatchLeavesExhausted(t, d.value, x, pass, i);
    } else if Scheduled(t, x).log != t.log {
      var e: Event :| !e.Attempted? && Scheduled(t, x).log == t.log + [e];
      Snoc(t.log, e, i);
    }
  }

  lemma MandatoryLeavesExhausted(s: State, x: Input, pass: Pass, i: nat)
    requires Inv(s, pass) && ClockOk(s, x) && !s.aborted && s.mandatoryFirst.Some?
    requires i < |s.records| && Refreshed(s, x).records[i].state.Exhausted?
    ensures Step(s, x).records[i] == Refreshed(s, x).records[i]
    ensures AttemptsOn(Step(s, x).log, i) == AttemptsOn(s.log, i)
  {
    var k := MandatoryAttempt(s, pass, x);
    DispatchLeavesExhausted(Dispatching(s, x), k, x, pass, i);
  }

  lemma DoneStaysDone(s: State, x: Input, pass: Pass, i: nat)
    requires Inv(s, pass) && ClockOk(s, x) && i < |s.records| && Done(s, i)
    ensures var t := Step(s, x); t.status.Running? ==> t.records[i].state.Exhausted?
    ensures AttemptsOn(Step(s, x).log, i) == AttemptsOn(s.log, i)
  {
    if !s.aborted {
      DoneIsExhausted(s, i, x);
      if s.mandatoryFirst.Some? {
        MandatoryLeavesExhausted(s, x, pass, i);
      } else {
        RefreshKeepsInv(s, x, pass);
        ScheduledLeavesExhausted(Refreshed(s, x), x, pass, i);
      }
    }
  }

  /** A settled attempt that is not an overload failure is its record's last if it is made so late. */
  lemma LateSettlementIsLast(u: State, k: nat, x: Input)
    requires k < |u.records| && u.records[k].routeIndex in u.cfg.plans
    requires u.cfg.deadlineMs <= x.settledMs && !OverloadFailure(x.outcome)
    ensures var t := Dispatch(u, k, x); t.status.Running? ==> Done(t, k)
  {
    var w := Await(u, x, Attempted(k, x.nowMs, x.outcome, x.settledMs));
    if x.outcome.Failed? { SettledFailureIsDone(w, k, x.outcome.phase, x.outcome.failure, x.outcome.payloads); }
  }

  lemma SettledFailureIsDone(w: State, k: nat, phase: Phase, failure: Failure, payloads: seq<string>)
    requires k < |w.records| && w.cfg.deadlineMs <= w.clockMs && !failure.Overloaded?
    ensures var t := Settle(w, k, Failed(phase, failure, payloads)); t.status.Running? ==> Done(t, k)
  {
  }

  lemma LateIsCounted(log: seq<Event>, more: seq<Event>, i: nat, deadlineMs: int)
    requires more == log || exists e: Event :: more == log + [e]
    requires AttemptsOn(more, i) == AttemptsOn(log, i)
    ensures LateOn(more, i, deadlineMs) == LateOn(log, i, deadlineMs)
  {
    if more != log {
      var e: Event :| more == log + [e];
      Snoc(log, e, i);
      LateSnoc(log, e, i, deadlineMs);
    }
  }

  lemma NotDoneKeepsLastLate(s: State, x: Input, pass: Pass, i: nat, base: nat)
    requires Inv(s, pass) && ClockOk(s, x) && i < |s.records|
    requires LateOn(s.log, i, s.cfg.deadlineMs) <= base
    ensures LastLate(Step(s, x), i, base)
  {
    var d := StepAnatomy(s, x, pass);
    match d {
      case Some(k) =>
        LateSnoc(s.log, Attempted(k, x.nowMs, x.outcome, x.settledMs), i, s.cfg.deadlineMs);
        if x.settledMs >= s.cfg.deadlineMs && !OverloadFailure(x.outcome) {
          LateSettlementIsLast(Dispatching(s, x), k, x);
        }
      case None =>
        if Step(s, x).log != s.log {
          var e: Event :| !e.Attempted? && Step(s, x).log == s.log + [e];
          LateSnoc(s.log, e, i, s.cfg.deadlineMs);
        }
    }
  }

  lemma StepKeepsLastLate(s: State, x: Input, pass: Pass, i: nat, base: nat)
    requires Inv(s, pass) && ClockOk(s, x) && LastLate(s, i, base)
    ensures LastLate(Step(s, x), i, base)
  {
    if Done(s, i) {
      var d := StepAnatomy(s, x, pass);
      DoneStaysDone(s, x, pass, i);
      LateIsCounted(s.log, Step(s, x).log, i, s.cfg.deadlineMs);
    } else {
      NotDoneKeepsLastLate(s, x, pass, i, base);
    }
  }

  lemma {:induction false} RunKeepsLastLate(s: State, xs: seq<Input>, pass: Pass, i: nat)
    requires Inv(s, pass) && Punctual(s.log) && Chronological(s.clockMs, xs) && i < |s.records|
    ensures LastLate(Run(s, xs), i, LateOn(s.log, i, s.cfg.deadlineMs))
  {
    if xs != [] {
      var n := |xs| - 1;
      RunKeepsLastLate(s, xs[..n], pass, i);
      RunIsSafe(s, xs[..n], pass);
      if Run(s, xs[..n]).status.Running? {
        StepKeepsLastLate(Run(s, xs[..n]), xs[n], pass, i, LateOn(s.log, i, s.cfg.deadlineMs));
      }
    }
  }

  /** However long a run goes on after its deadline, each record is attempted at most once more there,
      not counting the attempts that meet server overload. */
  lemma OneLateAttemptEach(s: State, xs: seq<Input>, pass: Pass, i: nat)
    requires Inv(s, pass) && Punctual(s.log) && Chronological(s.clockMs, xs) && i < |s.records|
    ensures LateOn(Run(s, xs).log, i, s.cfg.deadlineMs) <= LateOn(s.log, i, s.cfg.deadlineMs) + 1
  {
    RunKeepsLastLate(s, xs, pass, i);
  }
}
