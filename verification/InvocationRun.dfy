/** The scheduler as the object it is: records, evidence and failure are fields updated in place by
    the loop, and every method is proved to do exactly what the transition system says. */
module InvocationRun {
  import opened Wrappers
  import opened CandidateAvailability
  import opened RecoveryPolicy
  import opened AdmittedExecution
  import opened AdmittedRecovery

  /** Once finished, a run ignores further input. */
  lemma {:induction false} FinishedStays(s: State, xs: seq<Input>, k: nat)
    requires ValidMode(s.cfg, s.records) && k <= |xs|
    requires Run(s, xs[..k]).status.Finished?
    ensures Run(s, xs) == Run(s, xs[..k])
    decreases |xs|
  {
    if k == |xs| {
      assert xs[..k] == xs;
    } else {
      var n := |xs| - 1;
      assert xs[..n][..k] == xs[..k];
      FinishedStays(s, xs[..n], k);
    }
  }

  class AdmittedRun {
    const cfg: Config
    const availability: MemoryCandidateAvailability
    var records: seq<Record>
    var settled: seq<Exchange>
    var lastFailure: Option<Failure>
    var mandatoryFirst: Option<Candidate>
    var aborted: bool
    var clockMs: int
    ghost var log: seq<Event>

    ghost function Model(): State
      reads this, availability
    {
      State(cfg, records, availability.entries, settled, lastFailure, mandatoryFirst, aborted, clockMs, log, Running)
    }

    ghost predicate Valid()
      reads this
    {
      ValidMode(cfg, records)
    }

    /** Start an ordinary run over the admitted candidates of the chain. */
    constructor Ordinary(
      chain: seq<Verdict>, bindings: Bindings, availability: MemoryCandidateAvailability, nowMs: int, aborted: bool)
      ensures Valid() && this.availability == availability
      ensures Model() == OrdinaryStart(chain, bindings, availability.entries, nowMs, aborted)
    {
      var rs: seq<Record>, plans: map<nat, string> := [], map[];
      for i := 0 to |chain|
        invariant rs == AdmittedRecords(chain[..i]) && plans == AdmittedPlans(chain[..i])
      {
        assert chain[..i + 1][..i] == chain[..i];
        if chain[i].Admitted? {
          rs := rs + [Record(chain[i].candidate, i, Untried(0, 0, FIRST_OVERLOAD_DELAY_MS))];
          plans := plans[i := chain[i].plan];
        }
      }
      assert chain[..|chain|] == chain;
      cfg := Config(Mode.Ordinary, false, nowMs + UNAVAILABILITY_TIMEOUT_MS, Identities(rs), plans, bindings);
      this.availability := availability;
      records, settled, lastFailure, mandatoryFirst := rs, [], None, None;
      this.aborted, clockMs, log := aborted, nowMs, [];
    }

    /** Start a pinned run over one candidate. */
    constructor Pinned(
      c: Candidate, plan: string, bindings: Bindings, availability: MemoryCandidateAvailability, nowMs: int, aborted: bool)
      ensures Valid() && this.availability == availability
      ensures Model() == PinnedStart(c, plan, bindings, availability.entries, nowMs, aborted)
    {
      cfg := Config(Mode.Pinned, false, nowMs + UNAVAILABILITY_TIMEOUT_MS, [c], map[0 := plan], bindings);
      this.availability := availability;
      records, settled, lastFailure, mandatoryFirst := [Record(c, 0, Untried(0, 0, FIRST_OVERLOAD_DELAY_MS))], [], None, None;
      this.aborted, clockMs, log := aborted, nowMs, [];
    }

    /** Resume a prepared suspension. */
    constructor Resumed(
      p: Preparation, availability: MemoryCandidateAvailability, nowMs: int, aborted: bool, ghost history: seq<Event>)
      ensures Valid() && this.availability == availability
      ensures Model() == Resume(p, availability.entries, nowMs, aborted, history)
    {
      var plans: map<nat, string> := map[];
      for i := 0 to |p.plans|
        invariant plans == PlanMap(p.plans[..i])
      {
        assert p.plans[..i + 1][..i] == p.plans[..i];
        plans := plans[p.plans[i].0 := p.plans[i].1];
      }
      assert p.plans[..|p.plans|] == p.plans;
      cfg := Config(Mode.Ordinary, true, p.deadlineMs, p.authority, plans, p.bindings);
      this.availability := availability;
      records, settled, lastFailure, mandatoryFirst := p.records, p.settled, None, Some(p.mandatoryFirst);
      this.aborted, clockMs, log := aborted, nowMs, history;
    }

    method SetState(i: nat, state: AttemptState)
      requires i < |records|
      modifies this`records
      ensures records == old(records)[i := old(records)[i].(state := state)]
    {
      records := records[i := records[i].(state := state)];
    }

    method RefreshRecordStates(nowMs: int)
      modifies this`records
      ensures records == Refresh(old(records), availability.entries, nowMs, cfg.deadlineMs, cfg.mode)
    {
      var i := 0;
      while i < |records|
        invariant 0 <= i <= |records| == |old(records)|
        invariant forall j :: 0 <= j < i ==>
                    records[j] == RefreshRecord(old(records)[j], availability.entries, nowMs, cfg.deadlineMs, cfg.mode)
        invariant forall j :: i <= j < |records| ==> records[j] == old(records)[j]
      {
        RefreshRecordState(i, nowMs);
        i := i + 1;
      }
    }

    method RefreshRecordState(i: nat, nowMs: int)
      requires i < |records|
      modifies this`records
      ensures records ==
              old(records)[i := RefreshRecord(old(records)[i], availability.entries, nowMs, cfg.deadlineMs, cfg.mode)]
    {
      var entry := availability.Lookup(records[i].identity);
      var state := records[i].state;
      if cfg.mode.Ordinary? && state.Untried? && entry.Some? && !entry.value.state.Healthy?
         && nowMs < entry.value.untilMs && Waitable(entry.value.reason)
      {
        state := TemporarilyUnavailable(state.attempts, state.finiteFailures, state.overloadDelayMs,
                                        entry.value.untilMs, entry.value.reason);
      }
      if nowMs >= cfg.deadlineMs && !state.LocalOverload()
         && (state.RetryWaiting? || state.RetryReady? || state.TemporarilyUnavailable?)
      {
        state := Exhausted(state.attempts, state.finiteFailures, state.overloadDelayMs, state.LastFailure());
      } else if state.RetryWaiting? && state.untilMs <= nowMs {
        state := RetryReady(state.attempts, state.finiteFailures, state.overloadDelayMs,
                            state.wait, state.untilMs, state.lastFailure);
      } else if state.TemporarilyUnavailable? {
        if entry.None? || entry.value.state.Healthy? || nowMs >= entry.value.untilMs {
          state := RetryReady(state.attempts, state.finiteFailures, state.overloadDelayMs,
                              StandardWait, state.untilMs, None);
        } else {
          state := TemporarilyUnavailable(state.attempts, state.finiteFailures, state.overloadDelayMs,
                                          entry.value.untilMs, entry.value.reason);
        }
      }
      SetState(i, state);
    }

    method PushSettled(payloads: seq<string>)
      modifies this`settled
      ensures settled == old(settled) + IndexExchanges(cfg.bindings.inputId, |old(settled)|, payloads)
    {
      settled := settled + IndexExchanges(cfg.bindings.inputId, |settled|, payloads);
    }

    /** Returns what the failed attempt makes the run throw, or None when the loop goes on. */
    method HandleAdmittedAttemptFailure(i: nat, outcome: AttemptOutcome) returns (thrown: Option<Outcome>)
      requires Valid() && i < |records| && !outcome.Succeeded?
      modifies this`records, this`settled, this`lastFailure, availability
      ensures Valid()
      ensures thrown.None? ==> Model() == Settle(old(Model()), i, outcome)
      ensures thrown.Some? ==> Finish(Model(), thrown.value) == Settle(old(Model()), i, outcome)
    {
      match outcome {
        case PublicationUnknown => return Some(Unwrapped(PublicationOutcomeUnknown));
        case PlanIntegrity => return Some(Unwrapped(PlanIntegrityBroken));
        case Failed(phase, failure, payloads) =>
          if phase.ProviderAttempt? {
            if |payloads| == 0 {
              return Some(Unwrapped(MissingEnvelope));
            }
            PushSettled(payloads);
          } else {
            assert settled == settled + IndexExchanges(cfg.bindings.inputId, |settled|, []);
          }
          var identity := records[i].identity;
          if aborted {
            if settled == [] {
              return Some(Unwrapped(FailedWith(failure)));
            }
            return Some(TurnFailed(ProviderAttempt, settled, FailedWith(failure), Some(identity)));
          }
          thrown := AccountForFailure(i, phase, failure);
      }
    }

    method MarkUnavailable(identity: Candidate, decision: FailureDecision)
      modifies availability
      ensures Model() == old(Model()).(store := StoreAfter(old(availability.entries), cfg.mode, identity, decision, clockMs))
    {
      var block := DecisionBlock(decision);
      if block.Some? && (cfg.mode.Ordinary? || decision.RetryOverloaded?) {
        availability.Failed(identity, block.value, clockMs);
      }
    }

    method AccountForFailure(i: nat, phase: Phase, failure: Failure) returns (thrown: Option<Outcome>)
      requires Valid() && i < |records|
      modifies this`records, this`lastFailure, availability
      ensures Valid()
      ensures thrown.None? ==> Model() == Account(old(Model()), i, phase, failure)
      ensures thrown.Some? ==> Finish(Model(), thrown.value) == Account(old(Model()), i, phase, failure)
    {
      var decision := DecideFailure(failure, RECOVERY_DELAY_MS, records[i].state.overloadDelayMs, clockMs);
      MarkUnavailable(records[i].identity, decision);
      thrown := ConcludeFailure(i, phase, failure, decision);
    }

    method ConcludeFailure(i: nat, phase: Phase, failure: Failure, decision: FailureDecision)
      returns (thrown: Option<Outcome>)
      requires Valid() && i < |records|
      modifies this`records, this`lastFailure
      ensures Valid()
      ensures thrown.None? ==> Model() == Conclude(old(Model()), i, phase, failure, decision)
      ensures thrown.Some? ==> Finish(Model(), thrown.value) == Conclude(old(Model()), i, phase, failure, decision)
    {
      if ContextExhausted(phase, failure) && !cfg.recoveryMode && cfg.mode.Ordinary? {
        var outcome := Suspend(i, phase, failure);
        return Some(outcome);
      }
      if decision.Terminal? || (cfg.mode.Pinned? && !decision.RetryOverloaded?) {
        return Some(TerminalOutcome(settled, cfg.recoveryMode, records[i].identity, phase, failure));
      }
      RetryLater(i, failure, decision);
      return None;
    }

    method Suspend(i: nat, phase: Phase, failure: Failure) returns (outcome: Outcome)
      requires i < |records|
      modifies this`records
      ensures var was := old(Model());
              Model() == was.(records := was.records[i := was.records[i].(state := AfterContextFailure(was.records[i].state, phase, failure))])
      ensures |records| == |old(records)| && outcome == Suspended(settled, SuspensionOf(Model(), i))
    {
      var state := records[i].state;
      SetState(i, ContextFailed(state.attempts + 1, state.finiteFailures + 1, FIRST_OVERLOAD_DELAY_MS, phase, failure));
      outcome := Suspended(settled,
                           Suspension(cfg.authority, records, records[i].identity, settled, cfg.deadlineMs, cfg.bindings));
    }

    method RetryLater(i: nat, failure: Failure, decision: FailureDecision)
      requires i < |records| && !decision.Terminal?
      modifies this`records, this`lastFailure
      ensures var was := old(Model());
              Model() == was.(records := was.records[i := was.records[i].(state := AfterFailure(was.records[i].state, failure, decision, clockMs))],
                              lastFailure := Some(failure))
    {
      lastFailure := Some(failure);
      var state := records[i].state;
      var overloaded := decision.RetryOverloaded?;
      var attempts := state.attempts + 1;
      var finiteFailures := state.finiteFailures + if overloaded then 0 else 1;
      var overloadDelayMs := if overloaded then Min(MAX_OVERLOAD_DELAY_MS, state.overloadDelayMs * 2) else FIRST_OVERLOAD_DELAY_MS;
      var hasBudget := overloaded || finiteFailures < 1 + MAX_RECOVERY_RETRIES;
      if !hasBudget {
        SetState(i, Exhausted(attempts, finiteFailures, overloadDelayMs, Some(failure)));
      } else {
        SetState(i, RetryWaiting(attempts, finiteFailures, overloadDelayMs, RetryWait(decision),
                                 RetryUntil(decision, clockMs), Some(failure)));
      }
    }

    /** What the awaited operation and everyone else did meanwhile. */
    method AwaitInput(x: Input, ghost e: Event)
      modifies this`aborted, this`clockMs, this`log, availability
      ensures Model() == Await(old(Model()), x, e)
    {
      availability.Interfere(x.interference);
      aborted := aborted || x.abortDuring;
      clockMs := x.settledMs;
      log := log + [e];
    }

    /** Dispatch one attempt and settle it. */
    method AttemptRecord(i: nat, x: Input) returns (ended: Option<Outcome>)
      requires Valid() && i < |records|
      modifies this, availability
      ensures Valid()
      ensures ended.None? ==> Model() == Dispatch(old(Model()), i, x)
      ensures ended.Some? ==> Finish(Model(), ended.value) == Dispatch(old(Model()), i, x)
    {
      if records[i].routeIndex !in cfg.plans {
        return Some(Unwrapped(MissingPlan));
      }
      AwaitInput(x, Attempted(i, x.nowMs, x.outcome, x.settledMs));
      if x.outcome.Succeeded? {
        PushSettled(x.outcome.payloads);
        if !aborted {
          availability.Succeeded(records[i].identity, clockMs);
        }
        return Some(Completed(settled));
      }
      ended := HandleAdmittedAttemptFailure(i, x.outcome);
    }

    /** One pass through the loop body. */
    method Iterate(x: Input) returns (ended: Option<Outcome>)
      requires Valid()
      modifies this, availability
      ensures Valid()
      ensures ended.None? ==> Model() == Step(old(Model()), x)
      ensures ended.Some? ==> Finish(Model(), ended.value) == Step(old(Model()), x)
    {
      if aborted {
        if settled == [] {
          return Some(Unwrapped(Aborted));
        }
        return Some(TurnFailed(ProviderAttempt, settled, Aborted, None));
      }
      RefreshRecordStates(x.nowMs);
      clockMs := x.nowMs;
      assert Model() == Refreshed(old(Model()), x);
      if mandatoryFirst.Some? {
        var mandatory := IndexOfIdentity(records, mandatoryFirst.value);
        if mandatory.None? {
          return Some(Unwrapped(LostMandatoryCandidate));
        }
        mandatoryFirst := None;
        ended := AttemptRecord(mandatory.value, x);
      } else {
        ended := Schedule(x);
      }
    }

    method Schedule(x: Input) returns (ended: Option<Outcome>)
      requires Valid()
      modifies this, availability
      ensures Valid()
      ensures ended.None? ==> Model() == Scheduled(old(Model()), x)
      ensures ended.Some? ==> Finish(Model(), ended.value) == Scheduled(old(Model()), x)
    {
      var next := Choose(cfg, records, availability.entries, x.nowMs);
      match next {
        case TimeIsUp =>
          return Some(TurnFailed(PhaseOf(settled), settled,
                                 if lastFailure.Some? then FailedWith(lastFailure.value) else NoCandidateInTime, None));
        case NothingLeft =>
          return Some(TurnFailed(PhaseOf(settled), settled,
                                 if lastFailure.Some? then FailedWith(lastFailure.value) else NoHealthyCandidate, None));
        case WaitFor(waitMs, owner) =>
          AwaitInput(x, Waited(owner, x.nowMs, waitMs));
          return None;
        case Attempt(i) =>
          var r := records[i];
          if cfg.mode.Ordinary? && !r.state.LocalOverload() && !availability.Available(r.identity, x.nowMs) {
            var entry := availability.Lookup(r.identity);
            if entry.Some? && !entry.value.state.Healthy? && Waitable(entry.value.reason) {
              SetState(i, r.state.ToUnavailable(entry.value.untilMs, entry.value.reason));
            } else {
              SetState(i, r.state.ToExhausted(r.state.LastFailure()));
            }
            log := log + [Reclassified(i)];
            return None;
          }
          ended := AttemptRecord(i, x);
      }
    }

    /** The scheduling loop, for as many iterations as the environment supplies. */
    method RunAdmittedExecution(env: seq<Input>) returns (ended: Option<Outcome>)
      requires Valid()
      modifies this, availability
      ensures Valid()
      ensures ended.None? ==> Model() == Run(old(Model()), env)
      ensures ended.Some? ==> Finish(Model(), ended.value) == Run(old(Model()), env)
    {
      var k := 0;
      while k < |env|
        invariant 0 <= k <= |env| && Valid()
        invariant Model() == Run(old(Model()), env[..k])
      {
        assert env[..k + 1][..k] == env[..k];
        ended := Iterate(env[k]);
        k := k + 1;
        if ended.Some? {
          FinishedStays(old(Model()), env, k);
          return;
        }
      }
      assert env[..k] == env;
      return None;
    }
  }

  /** Rebuild a request for every retained record against the compacted conversation. */
  method PrepareAdmittedRecovery(u: Suspension, ordinaryRoute: bool, bindings: Bindings, readmit: Candidate -> Readmission)
    returns (r: Result<Preparation, PrepareError>)
    ensures r == Prepare(u, ordinaryRoute, bindings, readmit)
  {
    if !ordinaryRoute {
      return Err(NotOrdinary);
    }
    if !Verified(u) {
      return Err(VerificationFailed);
    }
    if u.bindings != bindings {
      return Err(BindingsChanged);
    }
    var plans: seq<(nat, string)> := [];
    for i := 0 to |u.records|
      invariant PlansFor(u.records[..i], u.settled, readmit) == Ok(plans)
    {
      assert u.records[..i + 1][..i] == u.records[..i];
      var record := u.records[i];
      if !record.state.Exhausted? {
        var verdict := readmit(record.identity);
        if !verdict.admitted {
          r := Err(if record.state.ContextFailed? then MandatoryRefused(u.settled, record.identity)
                   else NoLongerAdmitted(record.routeIndex));
          assert r.error == Refusal(record, u.settled);
          RefusalStays(u.records, u.settled, readmit, i + 1);
          return;
        }
        plans := plans + [(record.routeIndex, verdict.plan)];
      }
    }
    assert u.records[..|u.records|] == u.records;
    return Ok(Preparation(u.authority, bindings, u.records, plans, u.contextFailed, u.settled, u.deadlineMs));
  }

  lemma {:induction false} RefusalStays(records: seq<Record>, settled: seq<Exchange>, readmit: Candidate -> Readmission, k: nat)
    requires k <= |records| && PlansFor(records[..k], settled, readmit).Err?
    ensures PlansFor(records, settled, readmit) == PlansFor(records[..k], settled, readmit)
    decreases |records|
  {
    if k == |records| {
      assert records[..k] == records;
    } else {
      var n := |records| - 1;
      assert records[..n][..k] == records[..k];
      RefusalStays(records[..n], settled, readmit, k);
    }
  }
}
