/** Properties of whole runs, and of a whole turn across one suspension. */
module AdmittedTurn {
  import opened Wrappers
  import opened Search
  import opened CandidateAvailability
  import opened RecoveryPolicy
  import opened AdmittedExecution
  import opened AttemptLedger
  import opened AdmittedExecutionInvariant
  import opened AdmittedRecovery

  /** Clock readings never go back. */
  ghost predicate Chronological(clockMs: int, xs: seq<Input>) {
    && (forall k :: 0 <= k < |xs| ==> xs[k].nowMs <= xs[k].settledMs)
    && (forall k :: 0 < k < |xs| ==> xs[k - 1].settledMs <= xs[k].nowMs)
    && (|xs| > 0 ==> clockMs <= xs[0].nowMs)
  }

  function LastClock(clockMs: int, xs: seq<Input>): int {
    if xs == [] then clockMs else xs[|xs| - 1].settledMs
  }

  /** The state an attempt of this iteration is dispatched in. */
  function Dispatching(s: State, x: Input): State {
    Refreshed(s, x).(mandatoryFirst := None)
  }

  /** What one scheduled iteration does besides an attempt: it may note a wait or set a record aside. */
  ghost predicate NoAttempt(s: State, t: State) {
    && (t.log == s.log || exists e: Event :: !e.Attempted? && t.log == s.log + [e])
    && |t.records| == |s.records|
    && (forall k :: 0 <= k < |s.records| ==> t.records[k].identity == s.records[k].identity)
    && (forall k :: 0 <= k < |s.records| && s.records[k].state.Exhausted? ==> t.records[k] == s.records[k])
  }

  lemma ScheduledAnatomy(t: State, x: Input, pass: Pass) returns (i: Option<nat>)
    requires Inv(t, pass) && t.mandatoryFirst.None? && t.clockMs == x.nowMs
    ensures i.Some? ==> ReadyToDispatch(t, i.value, pass) && Scheduled(t, x) == Dispatch(t, i.value, x)
    ensures i.None? ==> NoAttempt(t, Scheduled(t, x))
  {
    assert t.cfg.mode.Pinned? ==> RecordOk(t.records[0], t.log, 0, t.clockMs, pass, t.cfg.mode);
    ChoiceIsEligible(t.cfg, t.records, t.store, x.nowMs);
    i := None;
    var c := Choose(t.cfg, t.records, t.store, x.nowMs);
    if c.Attempt? {
      if MustReclassify(t.cfg, t.records[c.index], t.store, x.nowMs) {
        assert SetAside(t, c.index).log == t.log + [Reclassified(c.index)];
      } else {
        i := Some(c.index);
      }
    } else if c.WaitFor? {
      assert Scheduled(t, x).log == t.log + [Waited(c.owner, x.nowMs, c.waitMs)];
    }
  }

  /** One iteration dispatches at most one attempt, and only of a record ready for it. */
  lemma StepAnatomy(s: State, x: Input, pass: Pass) returns (i: Option<nat>)
    requires Inv(s, pass) && ClockOk(s, x)
    ensures i.Some? ==>
              && ReadyToDispatch(Dispatching(s, x), i.value, pass)
              && Step(s, x) == Dispatch(Dispatching(s, x), i.value, x)
              && Step(s, x).log == s.log + [Attempted(i.value, x.nowMs, x.outcome, x.settledMs)]
    ensures i.None? ==> NoAttempt(s, Step(s, x))
  {
    i := None;
    if !s.aborted {
      var t := Refreshed(s, x);
      RefreshKeepsInv(s, x, pass);
      if s.mandatoryFirst.Some? {
        MandatoryIsReady(t, pass);
        i := IndexOfIdentity(t.records, s.mandatoryFirst.value);
      } else {
        i := ScheduledAnatomy(t, x, pass);
        forall k | 0 <= k < |s.records| ensures SameAccount(s.records[k], t.records[k]) {
          RefreshKeepsAccount(s.records[k], s.store, x.nowMs, s.cfg.deadlineMs, s.cfg.mode);
        }
      }
    }
  }

  // ---------------------------------------------------------------- attempts stay within the budget

  function CapSum(records: seq<Record>, pass: Pass): nat {
    SumOf(records, (r: Record) => Cap(r.identity, pass))
  }

  function Limit(n: nat, pass: Pass): nat {
    4 * n + if pass.SecondPass? && pass.spent then 1 else 0
  }

  lemma {:induction false} CapSumLimit(records: seq<Record>, pass: Pass)
    requires forall i, j :: 0 <= i < j < |records| ==> records[i].identity != records[j].identity
    ensures CapSum(records, pass) <= Limit(|records|, pass)
    ensures (forall i :: 0 <= i < |records| ==> !pass.Exceeds(records[i].identity)) ==>
              CapSum(records, pass) == 4 * |records|
  {
    if records != [] {
      var n := |records| - 1;
      CapSumLimit(records[..n], pass);
      if pass.Exceeds(records[n].identity) {
        assert forall i :: 0 <= i < n ==> records[..n][i].identity != records[n].identity;
      }
    }
  }

  lemma CoreWithinLimit(s: State, pass: Pass)
    requires Core(s, pass)
    ensures FiniteCount(s.log) <= CapSum(s.records, pass) <= Limit(|s.records|, pass)
    ensures (exists i :: 0 <= i < |s.records| && s.records[i].state.finiteFailures < Cap(s.records[i].identity, pass)) ==>
              FiniteCount(s.log) < CapSum(s.records, pass)
  {
    var cap := (r: Record) => Cap(r.identity, pass);
    forall i | 0 <= i < |s.records|
      ensures FiniteFailuresOf(s.records[i]) <= cap(s.records[i])
    {
      assert RecordOk(s.records[i], s.log, i, s.clockMs, pass, s.cfg.mode);
    }
    SumCompare(s.records, FiniteFailuresOf, s.records, cap);
    assert SumOf(s.records, cap) == CapSum(s.records, pass);
    forall i, j | 0 <= i < j < |s.records| ensures s.records[i].identity != s.records[j].identity {
      assert s.cfg.authority[i] != s.cfg.authority[j];
    }
    CapSumLimit(s.records, pass);
    if i :| 0 <= i < |s.records| && s.records[i].state.finiteFailures < Cap(s.records[i].identity, pass) {
      assert FiniteFailuresOf(s.records[i]) < cap(s.records[i]);
    }
  }

  lemma StepWithinLimit(s: State, x: Input, pass: Pass)
    requires Inv(s, pass) && ClockOk(s, x)
    ensures FiniteCount(Step(s, x).log) <= Limit(|s.records|, pass)
  {
    CoreWithinLimit(s, pass);
    var i := StepAnatomy(s, x, pass);
    match i {
      case Some(k) =>
        var u := Dispatching(s, x);
        CoreWithinLimit(u, pass);
        assert RecordOk(u.records[k], u.log, k, u.clockMs, pass, u.cfg.mode);
        assert u.records[k].state.finiteFailures < Cap(u.records[k].identity, pass);
        Snoc(s.log, Attempted(k, x.nowMs, x.outcome, x.settledMs), k);
      case None =>
        if Step(s, x).log != s.log {
          var e: Event :| !e.Attempted? && Step(s, x).log == s.log + [e];
          Snoc(s.log, e, 0);
        }
    }
  }

  /** No record has made more attempts that were not overload failures than it may. */
  ghost predicate WithinCaps(s: State, pass: Pass) {
    forall i :: 0 <= i < |s.records| ==> FiniteOn(s.log, i) <= Cap(s.records[i].identity, pass)
  }

  lemma CoreWithinCaps(s: State, pass: Pass)
    requires Core(s, pass)
    ensures WithinCaps(s, pass)
  {
    forall i | 0 <= i < |s.records| ensures FiniteOn(s.log, i) <= Cap(s.records[i].identity, pass) {
      assert RecordOk(s.records[i], s.log, i, s.clockMs, pass, s.cfg.mode);
    }
  }

  lemma DispatchKeepsIdentities(s: State, k: nat, x: Input, i: nat)
    requires k < |s.records| && i < |s.records|
    ensures Dispatch(s, k, x).records[i].identity == s.records[i].identity
  {
  }

  lemma DispatchWithinCap(u: State, k: nat, x: Input, pass: Pass, i: nat)
    requires ReadyToDispatch(u, k, pass) && WithinCaps(u, pass) && i < |u.records|
    ensures FiniteOn(Dispatch(u, k, x).log, i) <= Cap(u.records[i].identity, pass)
  {
    assert RecordOk(u.records[k], u.log, k, u.clockMs, pass, u.cfg.mode);
    DispatchLogs(u, k, x);
    Snoc(u.log, Attempted(k, x.nowMs, x.outcome, x.settledMs), i);
  }

  lemma StepWithinCaps(s: State, x: Input, pass: Pass)
    requires Inv(s, pass) && ClockOk(s, x)
    requires Good(Step(s, x), pass)
    ensures WithinCaps(Step(s, x), pass)
  {
    CoreWithinCaps(s, pass);
    var t := Step(s, x);
    var d := StepAnatomy(s, x, pass);
    forall i | 0 <= i < |s.records| ensures FiniteOn(t.log, i) <= Cap(t.records[i].identity, pass) {
      match d {
        case Some(k) =>
          var u := Dispatching(s, x);
          CoreWithinCaps(u, pass);
          DispatchKeepsIdentities(u, k, x, i);
          DispatchWithinCap(u, k, x, pass, i);
        case None =>
          if t.log != s.log {
            var e: Event :| !e.Attempted? && t.log == s.log + [e];
            Snoc(s.log, e, i);
          }
      }
    }
  }

  // ---------------------------------------------------------------- no retry before it is due

  /** The attempt at position `p` did not start before the record's previous failure was due. */
  predicate PunctualAt(log: seq<Event>, p: nat)
    requires p < |log| && log[p].Attempted?
  {
    var due := Due(log[..p], log[p].index);
    due.None? || due.value <= log[p].atMs
  }

  ghost predicate Punctual(log: seq<Event>) {
    forall p :: 0 <= p < |log| && log[p].Attempted? ==> PunctualAt(log, p)
  }

  lemma PunctualSnoc(log: seq<Event>, e: Event)
    requires Punctual(log)
    requires e.Attempted? ==> Due(log, e.index).None? || Due(log, e.index).value <= e.atMs
    ensures Punctual(log + [e])
  {
    var all := log + [e];
    forall p | 0 <= p < |all| && all[p].Attempted? ensures PunctualAt(all, p) {
      if p < |log| {
        assert all[..p] == log[..p];
        assert PunctualAt(log, p);
      } else {
        assert all[..p] == log;
      }
    }
  }

  lemma StepKeepsPunctual(s: State, x: Input, pass: Pass)
    requires Inv(s, pass) && ClockOk(s, x) && Punctual(s.log)
    ensures Punctual(Step(s, x).log)
  {
    var i := StepAnatomy(s, x, pass);
    match i {
      case Some(k) =>
        var u := Dispatching(s, x);
        assert RecordOk(u.records[k], u.log, k, u.clockMs, pass, u.cfg.mode);
        PunctualSnoc(s.log, Attempted(k, x.nowMs, x.outcome, x.settledMs));
      case None =>
        if Step(s, x).log != s.log {
          var e: Event :| !e.Attempted? && Step(s, x).log == s.log + [e];
          PunctualSnoc(s.log, e);
        }
    }
  }

  // ---------------------------------------------------------------- runs

  /** What holds of a state `t` reached from `s`. */
  ghost predicate Safe(s: State, t: State, pass: Pass) {
    && ValidMode(t.cfg, t.records)
    && Good(t, pass) && Punctual(t.log)
    && FiniteCount(t.log) <= Limit(|s.records|, pass)
    && WithinCaps(t, pass)
    && s.log <= t.log
  }

  lemma StepIsSafe(s: State, t: State, x: Input, pass: Pass)
    requires Safe(s, t, pass) && |t.records| == |s.records|
    requires ClockOk(t, x)
    ensures Safe(s, Step(t, x), pass)
  {
    if t.status.Running? {
      StepKeepsGood(t, x, pass);
      StepKeepsPunctual(t, x, pass);
      StepWithinLimit(t, x, pass);
      StepWithinCaps(t, x, pass);
      var i := StepAnatomy(t, x, pass);
    }
  }

  /** The invariant, the attempt limit and punctuality hold after every run of the loop. */
  lemma {:induction false} RunIsSafe(s: State, xs: seq<Input>, pass: Pass)
    requires Inv(s, pass) && Punctual(s.log) && Chronological(s.clockMs, xs)
    ensures Safe(s, Run(s, xs), pass)
    ensures Run(s, xs).clockMs <= LastClock(s.clockMs, xs)
  {
    if xs == [] {
      CoreWithinLimit(s, pass);
      CoreWithinCaps(s, pass);
    } else {
      var n := |xs| - 1;
      RunIsSafe(s, xs[..n], pass);
      var before := Run(s, xs[..n]);
      assert ClockOk(before, xs[n]);
      StepIsSafe(s, before, xs[n], pass);
    }
  }

  /** On every run, success and every turn failure carry all settled exchanges, indexed in order under
      the run's input id; only broken-integrity errors are exempt, and an unwrapped abort or error
      means that nothing had settled. */
  lemma EvidenceIsConserved(s: State, xs: seq<Input>, pass: Pass)
    requires Inv(s, pass) && Punctual(s.log) && Chronological(s.clockMs, xs)
    ensures var t := Run(s, xs);
            var all := IndexExchanges(t.cfg.bindings.inputId, 0, Payloads(t.log));
            && t.settled == all
            && (t.status.Finished? ==>
                  match t.status.outcome
                  case Completed(evidence) => evidence == all
                  case TurnFailed(phase, evidence, _, _) => evidence == all && (phase.ProviderAttempt? <==> all != [])
                  case Suspended(evidence, u) => evidence == all && u.settled == all && all != []
                  case Unwrapped(cause) => Exempt(cause) || all == [])
  {
    RunIsSafe(s, xs, pass);
  }

  /** A record's counters as the history has them. */
  ghost predicate CountedInHistory(st: AttemptState, log: seq<Event>, i: nat) {
    && st.attempts == AttemptsOn(log, i)
    && st.finiteFailures == AttemptsOn(log, i) - OverloadsOn(log, i)
    && st.overloadDelayMs == Backoff(Streak(log, i) + 1)
    && (st.LocalOverload() ==> Streak(log, i) >= 1 && Due(log, i) == Some(st.untilMs))
    && (!st.Exhausted? && !st.ContextFailed? && !st.LocalOverload() ==> st.finiteFailures < 4)
  }

  lemma RecordOkCounts(t: State, pass: Pass, i: nat)
    requires Good(t, pass) && t.status.Running? && i < |t.records|
    ensures CountedInHistory(t.records[i].state, t.log, i)
  {
    assert RecordOk(t.records[i], t.log, i, t.clockMs, pass, t.cfg.mode);
  }

  /** In every reachable state each record's counters are those of the history: attempts are finite
      failures plus overloads, and the backoff is the one the current overload streak calls for. */
  lemma FailuresAreAccounted(s: State, xs: seq<Input>, pass: Pass, i: nat)
    requires Inv(s, pass) && Punctual(s.log) && Chronological(s.clockMs, xs)
    requires Run(s, xs).status.Running? && i < |s.records|
    ensures CountedInHistory(Run(s, xs).records[i].state, Run(s, xs).log, i)
  {
    RunIsSafe(s, xs, pass);
    RecordOkCounts(Run(s, xs), pass, i);
  }

  predicate NoAttemptBetween(log: seq<Event>, p: int, q: int, i: nat)
    requires 0 <= p <= q <= |log|
  {
    forall k :: p <= k < q ==> !AttemptOn(log[k], i)
  }

  lemma {:induction false} DueUnchanged(log: seq<Event>, p: nat, q: nat, i: nat)
    requires p <= q <= |log| && NoAttemptBetween(log, p, q, i)
    ensures Due(log[..q], i) == Due(log[..p], i) && Streak(log[..q], i) == Streak(log[..p], i)
    decreases q - p
  {
    if p < q {
      DueUnchanged(log, p, q - 1, i);
      assert log[..q] == log[..q - 1] + [log[q - 1]];
      Snoc(log[..q - 1], log[q - 1], i);
    }
  }

  /** Positions `p` and `q` are successive attempts on record `i`, the first one overloaded. */
  predicate RetryAfterOverload(log: seq<Event>, p: nat, q: nat, i: nat) {
    && p < q < |log|
    && AttemptOn(log[p], i) && OverloadFailure(log[p].outcome) && AttemptOn(log[q], i)
    && NoAttemptBetween(log, p + 1, q, i)
  }

  predicate WaitedBackoff(log: seq<Event>, p: nat, q: nat, i: nat)
    requires RetryAfterOverload(log, p, q, i)
  {
    var k := Streak(log[..p + 1], i);
    k >= 1 && log[q].atMs >= log[p].settledMs + Min(600_000, 30_000 * PowerOfTwo(k - 1))
  }

  /** In every run, between the k-th overload failure in a row of a record and its next attempt at least
      min(600000, 30000 * 2^(k-1)) ms pass, however often the record was refreshed in between. */
  lemma BackoffIsWaited(s: State, xs: seq<Input>, pass: Pass, p: nat, q: nat, i: nat)
    requires Inv(s, pass) && Punctual(s.log) && Chronological(s.clockMs, xs)
    requires RetryAfterOverload(Run(s, xs).log, p, q, i)
    ensures WaitedBackoff(Run(s, xs).log, p, q, i)
  {
    RunIsSafe(s, xs, pass);
    PunctualMeansBackoff(Run(s, xs).log, p, q, i);
  }

  lemma PunctualMeansBackoff(log: seq<Event>, p: nat, q: nat, i: nat)
    requires Punctual(log) && RetryAfterOverload(log, p, q, i)
    ensures WaitedBackoff(log, p, q, i)
  {
    assert log[..p + 1] == log[..p] + [log[p]];
    Snoc(log[..p], log[p], i);
    DueUnchanged(log, p + 1, q, i);
    assert PunctualAt(log, q);
  }

  /** An exhausted record stays as it is and is never attempted again. */
  lemma {:induction false} ExhaustedIsAbsorbing(s: State, xs: seq<Input>, pass: Pass, i: nat)
    requires Inv(s, pass) && Punctual(s.log) && Chronological(s.clockMs, xs)
    requires i < |s.records| && s.records[i].state.Exhausted?
    ensures Run(s, xs).records[i] == s.records[i]
    ensures AttemptsOn(Run(s, xs).log, i) == AttemptsOn(s.log, i)
  {
    if xs != [] {
      var n := |xs| - 1;
      ExhaustedIsAbsorbing(s, xs[..n], pass, i);
      RunIsSafe(s, xs[..n], pass);
      var before := Run(s, xs[..n]);
      if before.status.Running? {
        ExhaustedStaysPut(before, xs[n], pass, i);
      }
    }
  }

  lemma ExhaustedStaysPut(s: State, x: Input, pass: Pass, i: nat)
    requires Inv(s, pass) && ClockOk(s, x)
    requires i < |s.records| && s.records[i].state.Exhausted?
    ensures Step(s, x).records[i] == s.records[i]
    ensures AttemptsOn(Step(s, x).log, i) == AttemptsOn(s.log, i)
  {
    RefreshKeepsAccount(s.records[i], s.store, x.nowMs, s.cfg.deadlineMs, s.cfg.mode);
    assert Refreshed(s, x).records[i] == s.records[i];
    var d := StepAnatomy(s, x, pass);
    match d {
      case Some(k) =>
        assert k != i;
        DispatchTouchesOne(Dispatching(s, x), k, x, i);
        Snoc(s.log, Attempted(k, x.nowMs, x.outcome, x.settledMs), i);
      case None =>
        if Step(s, x).log != s.log {
          var e: Event :| !e.Attempted? && Step(s, x).log == s.log + [e];
          Snoc(s.log, e, i);
        }
    }
  }

  lemma DispatchTouchesOne(s: State, k: nat, x: Input, i: nat)
    requires k < |s.records| && i < |s.records| && i != k
    ensures Dispatch(s, k, x).records[i] == s.records[i]
  {
  }

  // ---------------------------------------------------------------- what a failure leads to

  /** A failed attempt is followed by another iteration exactly when it is retryable (an overload, in a
      pinned run), came with its evidence and was not overtaken by an abort; it suspends the run exactly
      when a provider refused the context in a first ordinary pass. */
  lemma FailureLeadsTo(s: State, i: nat, phase: Phase, failure: Failure, payloads: seq<string>)
    requires i < |s.records| && s.status.Running?
    ensures var t := Settle(s, i, Failed(phase, failure, payloads));
            var counted := !s.aborted && !(phase.ProviderAttempt? && payloads == []);
            && (t.status.Running? <==>
                  counted && Retryable(failure) && (s.cfg.mode.Pinned? ==> failure.Overloaded?))
            && (t.status.Finished? && t.status.outcome.Suspended? <==>
                  counted && phase.ProviderAttempt? && failure.InputContextExhausted?
                  && s.cfg.mode.Ordinary? && !s.cfg.recoveryMode)
            && (t.status.Running? ==>
                  (t.records[i].state.Exhausted? <==> !failure.Overloaded? && s.records[i].state.finiteFailures + 1 >= 4))
  {
    if !s.aborted && !(phase.ProviderAttempt? && payloads == []) {
      var added := if phase.ProviderAttempt? then payloads else [];
      AccountLeadsTo(s.(settled := s.settled + IndexExchanges(s.cfg.bindings.inputId, |s.settled|, added)), i, phase, failure);
    }
  }

  lemma AccountLeadsTo(s: State, i: nat, phase: Phase, failure: Failure)
    requires i < |s.records| && s.status.Running?
    ensures var t := Account(s, i, phase, failure);
            && (t.status.Running? <==> Retryable(failure) && (s.cfg.mode.Pinned? ==> failure.Overloaded?))
            && (t.status.Finished? && t.status.outcome.Suspended? <==>
                  phase.ProviderAttempt? && failure.InputContextExhausted? && s.cfg.mode.Ordinary? && !s.cfg.recoveryMode)
            && (t.status.Running? ==>
                  (t.records[i].state.Exhausted? <==> !failure.Overloaded? && s.records[i].state.finiteFailures + 1 >= 4))
  {
  }

  // ---------------------------------------------------------------- what other invocations see

  /** The block a failed attempt publishes, if any; a pinned run publishes overloads only. */
  function PublishedBlock(s: State, i: nat, failure: Failure): Option<Decision>
    requires i < |s.records|
  {
    if s.cfg.mode.Pinned? && !failure.Overloaded? then None
    else DecisionBlock(DecideFailure(failure, RECOVERY_DELAY_MS, s.records[i].state.overloadDelayMs, s.clockMs))
  }

  lemma PublishedStore(s: State, i: nat, phase: Phase, failure: Failure, payloads: seq<string>)
    requires i < |s.records| && !s.aborted && !(phase.ProviderAttempt? && payloads == [])
    ensures var block := PublishedBlock(s, i, failure);
            Settle(s, i, Failed(phase, failure, payloads)).store ==
            if block.Some? then Apply(s.store, MarkFailed(s.records[i].identity, block.value, s.clockMs)) else s.store
  {
  }

  /** A failure makes its candidate unavailable until its own block and any earlier one have passed. */
  lemma FailureIsPublished(s: State, i: nat, phase: Phase, failure: Failure, payloads: seq<string>, c: Candidate, nowMs: int)
    requires i < |s.records| && WellFormed(s.store) && !s.aborted && !(phase.ProviderAttempt? && payloads == [])
    ensures var block := PublishedBlock(s, i, failure);
            IsAvailable(Settle(s, i, Failed(phase, failure, payloads)).store, c, nowMs) <==>
            IsAvailable(s.store, c, nowMs) && (c == s.records[i].identity && block.Some? ==> nowMs >= block.value.untilMs)
  {
    var block, own := PublishedBlock(s, i, failure), s.records[i].identity;
    PublishedStore(s, i, phase, failure, payloads);
    if block.Some? {
      PutIsMapUpdate(s.store, FailedEntry(GetEntry(s.store, own), own, block.value, s.clockMs), c);
    }
  }

  /** A success makes its candidate available again and leaves the others alone. */
  lemma SuccessIsPublished(s: State, i: nat, payloads: seq<string>, c: Candidate, nowMs: int)
    requires i < |s.records| && WellFormed(s.store) && !s.aborted
    ensures IsAvailable(Settle(s, i, Succeeded(payloads)).store, c, nowMs) <==>
            c == s.records[i].identity || IsAvailable(s.store, c, nowMs)
  {
    PutIsMapUpdate(s.store, SucceededEntry(s.records[i].identity, s.clockMs), c);
  }

  /** Once the owner has aborted, no settlement touches the store. */
  lemma AbortPublishesNothing(s: State, i: nat, outcome: AttemptOutcome)
    requires i < |s.records| && s.aborted
    ensures Settle(s, i, outcome).store == s.store
  {
  }

  // ---------------------------------------------------------------- pinned runs

  /** Two states that differ in the availability store at most. */
  ghost predicate SameButStore(s: State, t: State) {
    t == s.(store := t.store)
  }

  lemma SettleIgnoresStore(s: State, t: State, i: nat, outcome: AttemptOutcome)
    requires SameButStore(s, t) && i < |s.records|
    ensures SameButStore(Settle(s, i, outcome), Settle(t, i, outcome))
  {
  }

  lemma DispatchIgnoresStore(s: State, t: State, i: nat, x: Input)
    requires SameButStore(s, t) && i < |s.records|
    ensures SameButStore(Dispatch(s, i, x), Dispatch(t, i, x))
  {
    var e := Attempted(i, x.nowMs, x.outcome, x.settledMs);
    SettleIgnoresStore(Await(s, x, e), Await(t, x, e), i, x.outcome);
  }

  lemma PinnedScheduledIgnoresStore(s: State, t: State, x: Input)
    requires SameButStore(s, t) && s.cfg.mode.Pinned? && ValidMode(s.cfg, s.records)
    ensures SameButStore(Scheduled(s, x), Scheduled(t, x))
  {
    var c := Choose(s.cfg, s.records, s.store, x.nowMs);
    assert c == Choose(t.cfg, t.records, t.store, x.nowMs) == ChoosePinned(s.records, x.nowMs);
    if c.Attempt? { DispatchIgnoresStore(s, t, c.index, x); }
  }

  lemma PinnedRefreshIgnoresStore(s: State, t: State, x: Input)
    requires SameButStore(s, t) && s.cfg.mode.Pinned? && Inv(s, FirstPass)
    ensures SameButStore(Refreshed(s, x), Refreshed(t, x))
  {
    assert RecordOk(s.records[0], s.log, 0, s.clockMs, FirstPass, Pinned);
    assert Refreshed(s, x).records == Refreshed(t, x).records;
  }

  /** A pinned run never reads the availability store: whatever the store holds, an iteration does the
      same to everything else. */
  lemma PinnedIgnoresStore(s: State, t: State, x: Input)
    requires SameButStore(s, t) && s.cfg.mode.Pinned? && Inv(s, FirstPass)
    ensures SameButStore(Step(s, x), Step(t, x))
  {
    if !s.aborted {
      PinnedRefreshIgnoresStore(s, t, x);
      PinnedScheduledIgnoresStore(Refreshed(s, x), Refreshed(t, x), x);
    }
  }

  lemma PinnedStepRetriesOverloadsOnly(s: State, x: Input)
    requires Inv(s, FirstPass) && s.cfg.mode.Pinned? && ClockOk(s, x)
    ensures var t := Step(s, x); t.status.Running? ==> FiniteCount(t.log) == FiniteCount(s.log)
  {
    StepKeepsGood(s, x, FirstPass);
    var t := Step(s, x);
    if t.status.Running? {
      NoFiniteFailures(s);
      NoFiniteFailures(t);
    }
  }

  /** How far a pinned run can have come. */
  ghost predicate PinnedSoFar(t: State) {
    && FiniteCount(t.log) <= 1
    && (t.status.Running? ==> FiniteCount(t.log) == 0)
    && (t.status.Finished? ==> !t.status.outcome.Suspended?)
  }

  lemma PinnedStep(s: State, x: Input)
    requires Good(s, FirstPass) && s.cfg.mode.Pinned? && ValidMode(s.cfg, s.records) && ClockOk(s, x)
    requires PinnedSoFar(s)
    ensures PinnedSoFar(Step(s, x))
  {
    if s.status.Running? {
      StepKeepsGood(s, x, FirstPass);
      PinnedStepRetriesOverloadsOnly(s, x);
      var i := StepAnatomy(s, x, FirstPass);
      OneMoreAtMost(s.log, Step(s, x).log);
    }
  }

  /** A pinned run retries overloads only: any other settlement ends it. */
  lemma {:induction false} PinnedRetriesOverloadsOnly(s: State, xs: seq<Input>)
    requires Inv(s, FirstPass) && s.cfg.mode.Pinned? && s.log == [] && Chronological(s.clockMs, xs)
    ensures PinnedSoFar(Run(s, xs))
  {
    if xs != [] {
      var n := |xs| - 1;
      PinnedRetriesOverloadsOnly(s, xs[..n]);
      RunIsSafe(s, xs[..n], FirstPass);
      PinnedStep(Run(s, xs[..n]), xs[n]);
    }
  }

  lemma OneMoreAtMost(a: seq<Event>, b: seq<Event>)
    requires b == a || exists e: Event :: b == a + [e]
    ensures FiniteCount(b) <= FiniteCount(a) + 1
  {
    if b != a {
      var e: Event :| b == a + [e];
      Snoc(a, e, 0);
    }
  }

  lemma NoFiniteFailures(s: State)
    requires Inv(s, FirstPass) && s.cfg.mode.Pinned?
    ensures FiniteCount(s.log) == s.records[0].state.finiteFailures
  {
    assert s.records[..0] == [];
    assert SumOf(s.records, FiniteFailuresOf) == SumOf(s.records[..0], FiniteFailuresOf) + FiniteFailuresOf(s.records[0]);
  }

  // ---------------------------------------------------------------- a turn with one suspension

  /** What is promised of a run `t` of `start`, which resumes the suspended `s`. */
  ghost predicate ResumptionSafe(s: State, start: State, t: State, pass: Pass) {
    && start.records == s.records && start.settled == s.settled
    && start.cfg.deadlineMs == s.cfg.deadlineMs && start.cfg.bindings == s.cfg.bindings
    && Safe(start, t, pass)
    && s.log <= t.log
    && (t.status.Finished? ==> !t.status.outcome.Suspended?)
    && FiniteCount(t.log) <= 4 * |s.records| + (if pass.SecondPass? && pass.spent then 1 else 0)
  }

  /** A whole turn. The first run keeps its promises and makes at most 4n attempts that are not overload
      failures; if it is suspended, the suspension verifies and holds exactly one context-failed record;
      preparation can fail only on changed bindings or a record that no longer admits; and the resumed
      run starts with the same deadline, records and evidence, dispatches only records that have a plan,
      never suspends again, and brings the turn to at most 4n such attempts, or 4n + 1 if the refused
      record was suspended with its budget spent. */
  lemma TurnIsSafe(
    chain: seq<Verdict>, bindings: Bindings, store: Store, startMs: int, aborted: bool, xs: seq<Input>,
    readmit: Candidate -> Readmission, laterStore: Store, resumeMs: int, laterAborted: bool, ys: seq<Input>)
    requires DuplicateFree(chain) && WellFormed(store) && WellFormed(laterStore)
    requires startMs >= 0 && Chronological(startMs, xs)
    requires LastClock(startMs, xs) <= resumeMs && Chronological(resumeMs, ys)
    ensures var first := OrdinaryStart(chain, bindings, store, startMs, aborted);
            var s := Run(first, xs);
            && Safe(first, s, FirstPass) && FiniteCount(s.log) <= 4 * |AdmittedRecords(chain)|
            && (s.status.Finished? && s.status.outcome.Suspended? ==>
                  var u := s.status.outcome.suspension;
                  && Verified(u)
                  && (Prepare(u, true, bindings, readmit).Ok? <==>
                        forall i :: 0 <= i < |u.records| ==> !Refused(u.records[i], readmit))
                  && (Prepare(u, true, bindings, readmit).Ok? ==>
                        var start := Resume(Prepare(u, true, bindings, readmit).value, laterStore, resumeMs, laterAborted, s.log);
                        ResumptionSafe(s, start, Run(start, ys), PassAfter(u))))
  {
    var s0 := OrdinaryStart(chain, bindings, store, startMs, aborted);
    OrdinaryStartIsGood(chain, bindings, store, startMs, aborted);
    RunIsSafe(s0, xs, FirstPass);
    var s := Run(s0, xs);
    if s.status.Finished? && s.status.outcome.Suspended? {
      ResumedIsSafe(s, bindings, readmit, laterStore, resumeMs, laterAborted, ys);
    }
  }

  /** A suspended run with the bindings it will be prepared with. */
  ghost predicate ReadyToResume(s: State, bindings: Bindings, store: Store, resumeMs: int) {
    && Good(s, FirstPass) && s.status.Finished? && s.status.outcome.Suspended? && Punctual(s.log)
    && s.cfg.deadlineMs > 0 && s.cfg.bindings == bindings && WellFormed(store)
    && s.clockMs <= resumeMs
  }

  lemma ResumedIsSafe(
    s: State, bindings: Bindings, readmit: Candidate -> Readmission, store: Store, resumeMs: int, aborted: bool, ys: seq<Input>)
    requires ReadyToResume(s, bindings, store, resumeMs) && Chronological(resumeMs, ys)
    ensures var u := s.status.outcome.suspension;
            && Verified(u)
            && (Prepare(u, true, bindings, readmit).Ok? <==>
                  forall i :: 0 <= i < |u.records| ==> !Refused(u.records[i], readmit))
            && (Prepare(u, true, bindings, readmit).Ok? ==>
                  var start := Resume(Prepare(u, true, bindings, readmit).value, store, resumeMs, aborted, s.log);
                  ResumptionSafe(s, start, Run(start, ys), PassAfter(u)))
  {
    var u := s.status.outcome.suspension;
    SuspensionsVerify(s);
    PreparationFailsExactly(u.records, u.settled, readmit);
    if Prepare(u, true, bindings, readmit).Ok? {
      ResumeIsGood(s, bindings, readmit, store, resumeMs, aborted);
      var start := Resume(Prepare(u, true, bindings, readmit).value, store, resumeMs, aborted, s.log);
      RunIsSafe(start, ys, PassAfter(u));
    }
  }

  // ---------------------------------------------------------------- exactly when a fifth failure happens

  /** The resumed loop first dispatches the refused record, as it was suspended. */
  lemma MandatoryAttempt(start: State, pass: Pass, x: Input) returns (k: nat)
    requires Inv(start, pass) && start.mandatoryFirst.Some? && !start.aborted && ClockOk(start, x)
    ensures k < |start.records| && start.records[k].state.ContextFailed? && start.records[k].identity == pass.first
    ensures ReadyToDispatch(Dispatching(start, x), k, pass) && Dispatching(start, x).records[k] == start.records[k]
    ensures Step(start, x) == Dispatch(Dispatching(start, x), k, x)
  {
    var t := Refreshed(start, x);
    RefreshKeepsInv(start, x, pass);
    MandatoryIsReady(t, pass);
    k := IndexOfIdentity(t.records, start.mandatoryFirst.value).value;
    var j :| 0 <= j < |start.records| && start.records[j].identity == pass.first && start.records[j].state.ContextFailed?;
    assert j == k by {
      assert start.cfg.authority[j] == start.cfg.authority[k];
    }
  }

  /** A retryable failure of the mandatory attempt that counts: an overload keeps the record alive with
      its finite failures as they were, spent or not, and any other one adds to them, which uses the
      record up exactly when it had three or more. */
  lemma MandatoryFailureCounts(start: State, pass: Pass, x: Input) returns (k: nat)
    requires Inv(start, pass) && start.mandatoryFirst.Some? && !start.aborted && ClockOk(start, x)
    requires x.outcome.Failed? && Retryable(x.outcome.failure) && !x.abortDuring
    requires !(x.outcome.phase.ProviderAttempt? && x.outcome.payloads == [])
    ensures k < |start.records| && start.records[k].state.ContextFailed? && start.records[k].identity == pass.first
    ensures var before, after := start.records[k].state, Step(start, x).records[k].state;
            && Step(start, x).status.Running?
            && (x.outcome.failure.Overloaded? ==>
                  after.LocalOverload() && after.RetryWaiting? && after.finiteFailures == before.finiteFailures)
            && (!x.outcome.failure.Overloaded? ==>
                  after.finiteFailures == before.finiteFailures + 1 && (after.Exhausted? <==> before.finiteFailures >= 3))
  {
    k := MandatoryAttempt(start, pass, x);
    var u := Dispatching(start, x);
    var t := Await(u, x, Attempted(k, x.nowMs, x.outcome, x.settledMs));
    FailureLeadsTo(t, k, x.outcome.phase, x.outcome.failure, x.outcome.payloads);
    FailureBecomes(t, k, x.outcome.phase, x.outcome.failure, x.outcome.payloads);
  }

  lemma FailureBecomes(s: State, i: nat, phase: Phase, failure: Failure, payloads: seq<string>)
    requires i < |s.records| && s.cfg.mode.Ordinary? && Retryable(failure)
    requires !s.aborted && !(phase.ProviderAttempt? && payloads == [])
    ensures var st := s.records[i].state;
            Settle(s, i, Failed(phase, failure, payloads)).records[i].state ==
            AfterFailure(st, failure, DecideFailure(failure, RECOVERY_DELAY_MS, st.overloadDelayMs, s.clockMs), s.clockMs)
  {
  }

  /** Some run of the resumed loop has one record make a fifth attempt that is not an overload failure. */
  ghost predicate FifthAttemptPossible(start: State, resumeMs: int)
    requires ValidMode(start.cfg, start.records)
  {
    exists ys, i: nat :: Chronological(resumeMs, ys) && i < |start.records| && FiniteOn(Run(start, ys).log, i) > 4
  }

  function OneFailure(nowMs: int): Input {
    Input(nowMs, Failed(PreProvider, ParseError, []), nowMs, [], false)
  }

  /** A suspended turn can bring a record to a fifth finite failure exactly when the refused record was
      suspended with its budget spent, whatever happens afterwards. */
  lemma FifthFailureExactly(
    s: State, bindings: Bindings, readmit: Candidate -> Readmission, store: Store, resumeMs: int)
    requires ReadyToResume(s, bindings, store, resumeMs)
    requires Prepare(s.status.outcome.suspension, true, bindings, readmit).Ok?
    ensures var u := s.status.outcome.suspension;
            var start := Resume(Prepare(u, true, bindings, readmit).value, store, resumeMs, false, s.log);
            FifthAttemptPossible(start, resumeMs) <==> BudgetSpent(u)
  {
    var u := s.status.outcome.suspension;
    var start := Resume(Prepare(u, true, bindings, readmit).value, store, resumeMs, false, s.log);
    ResumeIsGood(s, bindings, readmit, store, resumeMs, false);
    if BudgetSpent(u) {
      SpentReachesFifth(start, u, resumeMs);
    } else {
      forall ys, i: nat | Chronological(resumeMs, ys) && i < |start.records|
        ensures FiniteOn(Run(start, ys).log, i) <= 4
      {
        RunIsSafe(start, ys, PassAfter(u));
      }
    }
  }

  lemma SpentReachesFifth(start: State, u: Suspension, resumeMs: int)
    requires Inv(start, PassAfter(u)) && BudgetSpent(u) && start.records == u.records
    requires start.mandatoryFirst.Some? && !start.aborted && start.clockMs == resumeMs
    ensures FifthAttemptPossible(start, resumeMs)
  {
    var x, pass := OneFailure(resumeMs), PassAfter(u);
    var k := MandatoryAttempt(start, pass, x);
    RefusedRecordIsSpent(start, u, k);
    Snoc(start.log, Attempted(k, x.nowMs, x.outcome, x.settledMs), k);
    DispatchLogs(Dispatching(start, x), k, x);
    OneStepRun(start, x);
    assert Chronological(resumeMs, [x]);
    assert FiniteOn(Run(start, [x]).log, k) == 5;
  }

  lemma RefusedRecordIsSpent(start: State, u: Suspension, k: nat)
    requires Core(start, PassAfter(u)) && BudgetSpent(u) && start.records == u.records
    requires k < |start.records| && start.records[k].identity == PassAfter(u).first
    ensures FiniteOn(start.log, k) == FINITE_LIMIT
  {
    var j :| 0 <= j < |u.records| && u.records[j].state.ContextFailed? && u.records[j].state.finiteFailures == FINITE_LIMIT;
    assert start.cfg.authority[j] == start.records[j].identity;
    assert RecordOk(start.records[k], start.log, k, start.clockMs, PassAfter(u), start.cfg.mode);
  }

  lemma DispatchLogs(u: State, k: nat, x: Input)
    requires k < |u.records| && u.records[k].routeIndex in u.cfg.plans
    ensures Dispatch(u, k, x).log == u.log + [Attempted(k, x.nowMs, x.outcome, x.settledMs)]
  {
  }

  lemma OneStepRun(s: State, x: Input)
    requires ValidMode(s.cfg, s.records)
    ensures Run(s, [x]) == Step(s, x)
  {
    assert [x][..0] == [];
  }
}
