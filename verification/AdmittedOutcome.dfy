/** How a run came to its outcome, and what it did to the shared store, told from its history. */
module AdmittedOutcome {
  import opened Wrappers
  import opened CandidateAvailability
  import opened RecoveryPolicy
  import opened AdmittedExecution
  import opened AttemptLedger
  import opened AdmittedExecutionInvariant
  import opened AdmittedExecutionSelection
  import opened AdmittedTurn
  import opened AdmittedEvolution

  // ---------------------------------------------------------------- why a run ended

  /** The failure of the last attempt after the first `from` events. */
  function LastFailureSince(log: seq<Event>, from: nat): Option<Failure>
    decreases |log|
  {
    if |log| <= from then None
    else
      var e := log[|log| - 1];
      if e.Attempted? && e.outcome.Failed? then Some(e.outcome.failure)
      else LastFailureSince(log[..|log| - 1], from)
  }

  lemma LastFailureSnoc(log: seq<Event>, e: Event, from: nat)
    requires from <= |log|
    ensures LastFailureSince(log + [e], from) ==
            if e.Attempted? && e.outcome.Failed? then Some(e.outcome.failure) else LastFailureSince(log, from)
  {
    assert (log + [e])[..|log|] == log;
  }

  /** The scheduler gave up: the run fails with its last failure, or for want of a candidate. */
  ghost predicate GaveUp(t: State, from: nat) {
    && t.status.Finished?
    && t.status.outcome ==
       TurnFailed(if t.settled == [] then PreProvider else ProviderAttempt, t.settled,
                  match LastFailureSince(t.log, from)
                  case Some(failure) => FailedWith(failure)
                  case None => if t.clockMs >= t.cfg.deadlineMs then NoCandidateInTime else NoHealthyCandidate,
                  None)
  }

  /** The owner aborted, and the next iteration noticed. */
  ghost predicate AbortNoticed(t: State) {
    && t.status.Finished? && t.aborted
    && t.status.outcome ==
       if t.settled == [] then Unwrapped(Aborted) else TurnFailed(ProviderAttempt, t.settled, Aborted, None)
  }

  /** What a failed attempt on candidate `c` ends a run with, when it ends or suspends it. */
  ghost predicate FailureEnded(t: State, c: Candidate, phase: Phase, failure: Failure, payloads: seq<string>)
    requires t.status.Finished?
  {
    var refused := phase.ProviderAttempt? && failure.InputContextExhausted?;
    var o := t.status.outcome;
    if phase.ProviderAttempt? && payloads == [] then o == Unwrapped(MissingEnvelope)
    else if t.aborted then
      o == if t.settled == [] then Unwrapped(FailedWith(failure))
           else TurnFailed(ProviderAttempt, t.settled, FailedWith(failure), Some(c))
    else if refused && t.cfg.mode.Ordinary? && !t.cfg.recoveryMode then
      && o.Suspended? && o.suspension.contextFailed == c && o.suspension.records == t.records
      && o.suspension.authority == t.cfg.authority && o.suspension.deadlineMs == t.cfg.deadlineMs
      && o.suspension.bindings == t.cfg.bindings
    else
      && (!Retryable(failure) || (t.cfg.mode.Pinned? && !failure.Overloaded?))
      && o == TurnFailed(if t.settled == [] then PreProvider else ProviderAttempt, t.settled,
                         if refused && t.cfg.recoveryMode then ContextStillExhausted else FailedWith(failure), Some(c))
  }

  /** The last attempt ended the run. */
  ghost predicate AttemptEnded(t: State) {
    && t.status.Finished? && t.log != []
    && var e := t.log[|t.log| - 1];
       && e.Attempted? && e.index < |t.cfg.authority|
       && match e.outcome
          case Succeeded(_) => t.status.outcome == Completed(t.settled)
          case PublicationUnknown => t.status.outcome == Unwrapped(PublicationOutcomeUnknown)
          case PlanIntegrity => t.status.outcome == Unwrapped(PlanIntegrityBroken)
          case Failed(phase, failure, payloads) => FailureEnded(t, t.cfg.authority[e.index], phase, failure, payloads)
  }

  ghost predicate Explained(t: State, from: nat) {
    t.status.Finished? ==> AttemptEnded(t) || AbortNoticed(t) || GaveUp(t, from)
  }

  /** The failure the run remembers is the last one of its history. */
  ghost predicate Remembers(t: State, from: nat) {
    from <= |t.log| && (t.status.Running? ==> t.lastFailure == LastFailureSince(t.log, from))
  }

  lemma SettleIsExplained(w: State, i: nat, c: Candidate, phase: Phase, failure: Failure, payloads: seq<string>)
    requires i < |w.records| && w.status.Running? && w.records[i].identity == c
    ensures var t := Settle(w, i, Failed(phase, failure, payloads));
            && (t.status.Finished? ==> FailureEnded(t, c, phase, failure, payloads))
            && (t.status.Running? ==> t.lastFailure == Some(failure))
            && t.aborted == w.aborted
  {
  }

  lemma DispatchIsExplained(u: State, i: nat, x: Input, pass: Pass, from: nat)
    requires ReadyToDispatch(u, i, pass) && from <= |u.log|
    ensures Explained(Dispatch(u, i, x), from) && Remembers(Dispatch(u, i, x), from)
  {
    var e := Attempted(i, x.nowMs, x.outcome, x.settledMs);
    var w, t := Await(u, x, e), Dispatch(u, i, x);
    assert u.records[i].identity == u.cfg.authority[i];
    DispatchLogs(u, i, x);
    LastFailureSnoc(u.log, e, from);
    assert t.log[|t.log| - 1] == e;
    if x.outcome.Failed? {
      SettleIsExplained(w, i, u.cfg.authority[i], x.outcome.phase, x.outcome.failure, x.outcome.payloads);
    }
  }

  lemma ScheduledIsExplained(t: State, x: Input, pass: Pass, from: nat)
    requires Inv(t, pass) && t.mandatoryFirst.None? && t.clockMs == x.nowMs && Remembers(t, from)
    requires t.cfg.mode.Ordinary? ==> AllFresh(t.records, t.store, t.clockMs, t.cfg.deadlineMs)
    ensures Explained(Scheduled(t, x), from) && Remembers(Scheduled(t, x), from)
  {
    var c := Choose(t.cfg, t.records, t.store, x.nowMs);
    if c.Attempt? {
      ChosenIsReady(t, x.nowMs, pass);
      if MustReclassify(t.cfg, t.records[c.index], t.store, x.nowMs) {
        LastFailureSnoc(t.log, Reclassified(c.index), from);
      } else {
        DispatchIsExplained(t, c.index, x, pass, from);
      }
    } else if c.WaitFor? {
      LastFailureSnoc(t.log, Waited(c.owner, x.nowMs, c.waitMs), from);
    } else {
      GivingUpInTime(t, x.nowMs);
    }
  }

  /** Out of time only at the deadline, and out of candidates only before it. */
  lemma GivingUpInTime(t: State, nowMs: int)
    requires ValidMode(t.cfg, t.records) && WellFormed(t.store)
    requires t.cfg.mode.Ordinary? ==> AllFresh(t.records, t.store, nowMs, t.cfg.deadlineMs)
    ensures var c := Choose(t.cfg, t.records, t.store, nowMs);
            (c.TimeIsUp? ==> nowMs >= t.cfg.deadlineMs) && (c.NothingLeft? ==> nowMs < t.cfg.deadlineMs)
  {
    if t.cfg.mode.Ordinary? && !AnyOverload(t.records) {
      assert forall i :: 0 <= i < |t.records| ==> Fresh(t.records[i], t.store, nowMs, t.cfg.deadlineMs);
    }
  }

  lemma RefreshedIsFresh(s: State, x: Input)
    requires ValidMode(s.cfg, s.records)
    ensures s.cfg.mode.Ordinary? ==> AllFresh(Refreshed(s, x).records, s.store, x.nowMs, s.cfg.deadlineMs)
  {
    if s.cfg.mode.Ordinary? { RefreshAllFresh(s.records, s.store, x.nowMs, s.cfg.deadlineMs); }
  }

  lemma StepIsExplained(s: State, x: Input, pass: Pass, from: nat)
    requires Inv(s, pass) && ClockOk(s, x) && Remembers(s, from)
    ensures Explained(Step(s, x), from) && Remembers(Step(s, x), from)
  {
    if !s.aborted {
      if s.mandatoryFirst.Some? {
        var i := MandatoryAttempt(s, pass, x);
        DispatchIsExplained(Dispatching(s, x), i, x, pass, from);
      } else {
        RefreshKeepsInv(s, x, pass);
        RefreshedIsFresh(s, x);
        ScheduledIsExplained(Refreshed(s, x), x, pass, from);
      }
    }
  }

  /** Once the owner has aborted, the next iteration ends the run without another attempt. */
  lemma AbortEndsRun(s: State, x: Input)
    requires ValidMode(s.cfg, s.records) && s.status.Running? && s.aborted
    ensures var t := Step(s, x);
            AbortNoticed(t) && t == s.(status := t.status)
  {
  }

  /** Every run that ends does so because of its last attempt, because the owner aborted, or because
      nothing was left to try, and its outcome says so: with the failure and candidate of that attempt,
      with the abort, or with the last failure the run has met, if it has met one. */
  lemma {:induction false} OutcomeIsExplained(s: State, xs: seq<Input>, pass: Pass)
    requires Inv(s, pass) && Punctual(s.log) && Chronological(s.clockMs, xs) && s.lastFailure.None?
    ensures Explained(Run(s, xs), |s.log|) && Remembers(Run(s, xs), |s.log|)
  {
    if xs != [] {
      var n := |xs| - 1;
      OutcomeIsExplained(s, xs[..n], pass);
      RunIsSafe(s, xs[..n], pass);
      if Run(s, xs[..n]).status.Running? {
        StepIsExplained(Run(s, xs[..n]), xs[n], pass, |s.log|);
      }
    }
  }

  // ---------------------------------------------------------------- what the store went through

  /** The block a failure publishes: for the backoff after an overload, for an hour after a permanent
      refusal, until its horizon after a rate limit, for a minute after a passing failure. */
  function BlockOf(failure: Failure, streak: nat, settledMs: int): Option<Decision>
    requires failure.Overloaded? ==> streak >= 1
  {
    match failure
    case Overloaded => Some(Decision(Cooling, DueAfter(failure, streak, settledMs), Some(ServerOverloaded)))
    case AuthFailure => Some(Decision(BlockedUntil, settledMs + 3_600_000, Some(AuthPermanent)))
    case RateLimit(_, _) => Some(Decision(BlockedUntil, DueAfter(failure, streak, settledMs), Some(RateLimited)))
    case Transient => Some(Decision(Cooling, settledMs + 60_000, Some(ServerTransient)))
    case TimeoutFailure => Some(Decision(Cooling, settledMs + 60_000, Some(TimedOut)))
    case Unknown => Some(Decision(Cooling, settledMs + 60_000, Some(UnknownFailure)))
    case _ => None
  }

  /** A block is waited out for exactly the reasons that retryable failures publish. */
  lemma WaitsForRetryables(reason: Option<Reason>)
    ensures Waitable(reason) <==>
            exists failure :: Retryable(failure) && BlockOf(failure, 1, 0).Some? && BlockOf(failure, 1, 0).value.reason == reason
  {
    forall failure | Retryable(failure) && BlockOf(failure, 1, 0).Some? && BlockOf(failure, 1, 0).value.reason == reason
      ensures Waitable(reason)
    {
    }
    if Waitable(reason) {
      var failure :=
        match reason.value
        case ServerTransient => Transient
        case ServerOverloaded => Overloaded
        case TimedOut => TimeoutFailure
        case RateLimited => RateLimit(None, None)
        case _ => Failure.Unknown;
      assert Retryable(failure) && BlockOf(failure, 1, 0).value.reason == reason;
    }
  }

  /** What a settled attempt on `c` tells the store; a pinned run tells of successes and overloads only. */
  function Publication(mode: Mode, c: Candidate, outcome: AttemptOutcome, streak: nat, settledMs: int): seq<StoreOp>
    requires OverloadFailure(outcome) ==> streak >= 1
  {
    match outcome
    case Succeeded(_) => [MarkSucceeded(c, settledMs)]
    case Failed(phase, failure, payloads) =>
      var block := BlockOf(failure, streak, settledMs);
      if block.None? || (phase.ProviderAttempt? && payloads == []) || (mode.Pinned? && !failure.Overloaded?) then []
      else [MarkFailed(c, block.value, settledMs)]
    case _ => []
  }

  /** What reaches the store in the iteration that takes `s` to `t`: during an await the calls of other
      invocations, and then what the settled attempt publishes, unless the owner has aborted by then. */
  function StepOps(s: State, t: State, x: Input): seq<StoreOp> {
    if |t.log| != |s.log| + 1 then []
    else
      var e := t.log[|s.log|];
      match e
      case Reclassified(_) => []
      case Waited(_, _, _) => x.interference
      case Attempted(i, _, outcome, settledMs) =>
        if t.aborted || i >= |t.cfg.authority| then x.interference
        else
          assert OverloadFailure(outcome) ==> Streak(t.log, i) >= 1;
          x.interference + Publication(t.cfg.mode, t.cfg.authority[i], outcome, Streak(t.log, i), settledMs)
  }

  /** What reaches the store over a run, in order. */
  function RunOps(s: State, xs: seq<Input>): seq<StoreOp>
    requires ValidMode(s.cfg, s.records)
  {
    if xs == [] then []
    else
      var n := |xs| - 1;
      RunOps(s, xs[..n]) + StepOps(Run(s, xs[..n]), Run(s, xs), xs[n])
  }

  lemma {:induction false} ReplayAppends(store: Store, a: seq<StoreOp>, b: seq<StoreOp>)
    ensures Replay(store, a + b) == Replay(Replay(store, a), b)
  {
    if b == [] {
      assert a + b == a;
    } else {
      var n := |b| - 1;
      assert (a + b)[..|a + b| - 1] == a + b[..n];
      ReplayAppends(store, a, b[..n]);
    }
  }

  lemma ReplayOne(store: Store, op: StoreOp)
    ensures Replay(store, [op]) == Apply(store, op)
  {
    assert [op][..0] == [];
  }

  lemma BlocksAgree(failure: Failure, streak: nat, overloadDelayMs: int, settledMs: int)
    requires failure.Overloaded? ==> streak >= 1 && Backoff(streak) == overloadDelayMs
    ensures DecisionBlock(DecideFailure(failure, RECOVERY_DELAY_MS, overloadDelayMs, settledMs)) == BlockOf(failure, streak, settledMs)
  {
  }

  lemma SettlePublishes(w: State, i: nat, outcome: AttemptOutcome, streak: nat)
    requires i < |w.records| && !w.aborted
    requires OverloadFailure(outcome) ==> streak >= 1 && Backoff(streak) == w.records[i].state.overloadDelayMs
    ensures Settle(w, i, outcome).store == Replay(w.store, Publication(w.cfg.mode, w.records[i].identity, outcome, streak, w.clockMs))
  {
    var c := w.records[i].identity;
    match outcome {
      case Succeeded(_) => ReplayOne(w.store, MarkSucceeded(c, w.clockMs));
      case Failed(phase, failure, payloads) =>
        BlocksAgree(failure, streak, w.records[i].state.overloadDelayMs, w.clockMs);
        var block := BlockOf(failure, streak, w.clockMs);
        if block.Some? { ReplayOne(w.store, MarkFailed(c, block.value, w.clockMs)); }
        if !(phase.ProviderAttempt? && payloads == []) { PublishedStore(w, i, phase, failure, payloads); }
      case _ =>
    }
  }

  lemma DispatchPublishes(s: State, u: State, i: nat, x: Input, pass: Pass)
    requires u == Dispatching(s, x) && ReadyToDispatch(u, i, pass)
    ensures Dispatch(u, i, x).store == Replay(s.store, StepOps(s, Dispatch(u, i, x), x))
    ensures Awaited(s, Dispatch(u, i, x), x)
  {
    var e := Attempted(i, x.nowMs, x.outcome, x.settledMs);
    var w, t := Await(u, x, e), Dispatch(u, i, x);
    assert RecordOk(u.records[i], u.log, i, u.clockMs, pass, u.cfg.mode);
    assert u.records[i].identity == u.cfg.authority[i];
    DispatchLogs(u, i, x);
    assert t.log[|s.log|] == e;
    AbortIsKept(u, i, x);
    var streak := Streak(t.log, i);
    if x.outcome.Failed? { FailureIsAccounted(u.records[i], i, u.log, e); }
    if t.aborted {
      AbortPublishesNothing(w, i, x.outcome);
    } else {
      SettlePublishes(w, i, x.outcome, streak);
      ReplayAppends(s.store, x.interference, Publication(w.cfg.mode, w.records[i].identity, x.outcome, streak, x.settledMs));
    }
  }

  /** An await takes the clock and the owner's abort from the environment. */
  lemma AbortIsKept(u: State, i: nat, x: Input)
    requires i < |u.records| && u.records[i].routeIndex in u.cfg.plans
    ensures var t := Dispatch(u, i, x); t.aborted == (u.aborted || x.abortDuring) && t.clockMs == x.settledMs
  {
  }

  lemma SetAsidePublishes(s: State, t: State, i: nat, x: Input)
    requires t == Refreshed(s, x) && i < |t.records|
    ensures SetAside(t, i).store == Replay(s.store, StepOps(s, SetAside(t, i), x)) && Awaited(s, SetAside(t, i), x)
  {
    assert SetAside(t, i).log[|s.log|] == Reclassified(i);
  }

  lemma WaitPublishes(s: State, t: State, owner: Option<nat>, waitMs: int, x: Input)
    requires t == Refreshed(s, x)
    ensures var u := Await(t, x, Waited(owner, x.nowMs, waitMs));
            u.store == Replay(s.store, StepOps(s, u, x)) && Awaited(s, u, x)
  {
    assert Await(t, x, Waited(owner, x.nowMs, waitMs)).log[|s.log|] == Waited(owner, x.nowMs, waitMs);
  }

  lemma ScheduledPublishes(s: State, x: Input, pass: Pass)
    requires Inv(s, pass) && ClockOk(s, x) && s.mandatoryFirst.None?
    ensures Scheduled(Refreshed(s, x), x).store == Replay(s.store, StepOps(s, Scheduled(Refreshed(s, x), x), x))
    ensures Awaited(s, Scheduled(Refreshed(s, x), x), x)
  {
    var t := Refreshed(s, x);
    RefreshKeepsInv(s, x, pass);
    var c := Choose(t.cfg, t.records, t.store, x.nowMs);
    if c.Attempt? {
      ChosenIsReady(t, x.nowMs, pass);
      if MustReclassify(t.cfg, t.records[c.index], t.store, x.nowMs) {
        SetAsidePublishes(s, t, c.index, x);
      } else {
        DispatchPublishes(s, t, c.index, x, pass);
      }
    } else if c.WaitFor? {
      WaitPublishes(s, t, c.owner, c.waitMs, x);
    }
  }

  /** The clock after the iteration, and whether the owner has aborted: both are read from the input
      whenever something was awaited. */
  ghost predicate Awaited(s: State, t: State, x: Input) {
    var awaited := |t.log| == |s.log| + 1 && !t.log[|s.log|].Reclassified?;
    && (awaited ==> t.clockMs == x.settledMs && t.aborted == (s.aborted || x.abortDuring))
    && (!awaited ==> (t.clockMs == s.clockMs || t.clockMs == x.nowMs) && t.aborted == s.aborted)
  }

  lemma StepPublishes(s: State, x: Input, pass: Pass)
    requires Inv(s, pass) && ClockOk(s, x)
    ensures Step(s, x).store == Replay(s.store, StepOps(s, Step(s, x), x))
    ensures Awaited(s, Step(s, x), x)
  {
    if !s.aborted {
      if s.mandatoryFirst.Some? {
        var i := MandatoryAttempt(s, pass, x);
        DispatchPublishes(s, Dispatching(s, x), i, x, pass);
      } else {
        ScheduledPublishes(s, x, pass);
      }
    }
  }

  /** After any run the store is what replaying the calls of other invocations and the run's own
      publications makes of it, each publication following from the history alone. */
  lemma {:induction false} StoreIsReplayed(s: State, xs: seq<Input>, pass: Pass)
    requires Inv(s, pass) && Punctual(s.log) && Chronological(s.clockMs, xs)
    ensures Run(s, xs).store == Replay(s.store, RunOps(s, xs))
  {
    if xs != [] {
      var n := |xs| - 1;
      var before := Run(s, xs[..n]);
      StoreIsReplayed(s, xs[..n], pass);
      RunIsSafe(s, xs[..n], pass);
      if before.status.Running? { StepPublishes(before, xs[n], pass); }
      ReplayAppends(s.store, RunOps(s, xs[..n]), StepOps(before, Run(s, xs), xs[n]));
    }
  }
}
