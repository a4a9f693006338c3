/** The invariant of a run: every record agrees with the history, evidence is conserved, and every
    record the loop can still attempt has a plan. */
module AdmittedExecutionInvariant {
  import opened Wrappers
  import opened Search
  import opened CandidateAvailability
  import opened RecoveryPolicy
  import opened AdmittedExecution
  import opened AttemptLedger

  // ---------------------------------------------------------------- one record

  ghost predicate Ledger(st: AttemptState, log: seq<Event>, i: nat) {
    && st.attempts == AttemptsOn(log, i)
    && st.attempts == st.finiteFailures + OverloadsOn(log, i)
    && st.overloadDelayMs == Backoff(Streak(log, i) + 1)
    && (st.Untried? ==> st.attempts == 0)
    && (st.LocalOverload() ==> Streak(log, i) >= 1)
  }

  ghost predicate Timing(st: AttemptState, log: seq<Event>, i: nat, clockMs: int) {
    && (st.RetryWaiting? || st.LocalOverload() ==> Due(log, i) == Some(st.untilMs))
    && (st.Untried? || st.ContextFailed? ==> Due(log, i).None?)
    && (st.RetryReady? || st.TemporarilyUnavailable? ==> Due(log, i).None? || Due(log, i).value <= clockMs)
  }

  const FINITE_LIMIT: nat := 1 + MAX_RECOVERY_RETRIES

  /** Whether a run is the first pass of its turn or resumes a suspension; `spent` says whether the
      context-failed record was suspended with all its finite failures used up. */
  datatype Pass = FirstPass | SecondPass(first: Candidate, spent: bool) {
    /** The record the second pass attempts first. */
    predicate Favours(c: Candidate) {
      SecondPass? && first == c
    }

    /** That record, when the pass owes it an attempt beyond its budget. */
    predicate Exceeds(c: Candidate) {
      Favours(c) && spent
    }
  }

  function Cap(c: Candidate, pass: Pass): nat {
    if pass.Exceeds(c) then FINITE_LIMIT + 1 else FINITE_LIMIT
  }

  ghost predicate Budget(st: AttemptState, cap: nat, pass: Pass) {
    && st.finiteFailures <= cap
    && (st.ContextFailed? ==> st.finiteFailures <= FINITE_LIMIT && st.phase.ProviderAttempt?)
    && (st.ContextFailed? && pass.SecondPass? ==> st.finiteFailures < cap)
    && (st.LocalOverload() ==> st.finiteFailures < cap)
    && (!st.Exhausted? && !st.ContextFailed? && !st.LocalOverload() ==> st.finiteFailures < FINITE_LIMIT)
  }

  ghost predicate RecordOk(r: Record, log: seq<Event>, i: nat, clockMs: int, pass: Pass, mode: Mode) {
    && Ledger(r.state, log, i)
    && Timing(r.state, log, i, clockMs)
    && Budget(r.state, Cap(r.identity, pass), pass)
    && (mode.Pinned? ==> r.state.Untried? || r.state.LocalOverload())
  }

  lemma RefreshRecordOk(
    r: Record, entry: Option<Entry>, log: seq<Event>, i: nat, clockMs: int, nowMs: int, deadlineMs: int,
    pass: Pass, mode: Mode)
    requires RecordOk(r, log, i, clockMs, pass, mode)
    requires clockMs <= nowMs
    ensures RecordOk(r.(state := RefreshState(r.state, entry, nowMs, deadlineMs, mode)), log, i, nowMs, pass, mode)
  {
  }

  // ---------------------------------------------------------------- the whole state

  ghost predicate Membership(records: seq<Record>, authority: seq<Candidate>) {
    && |records| == |authority|
    && (forall i :: 0 <= i < |records| ==> records[i].identity == authority[i])
    && (forall i, j :: 0 <= i < j < |authority| ==> authority[i] != authority[j])
    && (forall i, j :: 0 <= i < j < |records| ==> records[i].routeIndex < records[j].routeIndex)
  }

  ghost predicate RecordsOk(s: State, pass: Pass) {
    forall i :: 0 <= i < |s.records| ==>
      RecordOk(s.records[i], s.log, i, s.clockMs, pass, s.cfg.mode)
  }

  ghost predicate PlansRetained(s: State) {
    forall i :: 0 <= i < |s.records| && !s.records[i].state.Exhausted? ==> s.records[i].routeIndex in s.cfg.plans
  }

  ghost predicate EvidenceKept(s: State) {
    s.settled == IndexExchanges(s.cfg.bindings.inputId, 0, Payloads(s.log))
  }

  function FiniteFailuresOf(r: Record): nat {
    r.state.finiteFailures
  }

  /** Everything but the whereabouts of a context-failed record. */
  ghost predicate Core(s: State, pass: Pass) {
    && ValidMode(s.cfg, s.records)
    && (s.cfg.mode.Pinned? ==> pass.FirstPass?)
    && s.cfg.recoveryMode == pass.SecondPass?
    && Membership(s.records, s.cfg.authority)
    && RecordsOk(s, pass)
    && PlansRetained(s)
    && EvidenceKept(s)
    && SumOf(s.records, FiniteFailuresOf) == FiniteCount(s.log)
    && WellFormed(s.store)
  }

  /** A context-failed record is exactly the one still to be attempted first. */
  ghost predicate MandatoryPending(s: State, pass: Pass) {
    && (s.mandatoryFirst.Some? ==>
          && pass.SecondPass? && s.mandatoryFirst == Some(pass.first)
          && exists i :: 0 <= i < |s.records| && s.records[i].identity == pass.first && s.records[i].state.ContextFailed?)
    && (forall i :: 0 <= i < |s.records| && s.records[i].state.ContextFailed? ==>
          s.mandatoryFirst == Some(s.records[i].identity))
  }

  ghost predicate Inv(s: State, pass: Pass) {
    && s.status.Running?
    && Core(s, pass)
    && MandatoryPending(s, pass)
  }

  // ---------------------------------------------------------------- finished runs

  predicate Exempt(c: Cause) {
    c.PublicationOutcomeUnknown? || c.PlanIntegrityBroken? || c.MissingEnvelope?
  }

  /** The outcome carries every exchange the turn settled; nothing is lost by an unwrapped error
      unless it reports a broken integrity. */
  ghost predicate CarriesEvidence(o: Outcome, all: seq<Exchange>) {
    match o
    case Completed(evidence) => evidence == all
    case TurnFailed(phase, evidence, _, _) => evidence == all && phase == PhaseOf(all)
    case Suspended(evidence, suspension) => evidence == all && suspension.settled == all && all != []
    case Unwrapped(cause) => Exempt(cause) || all == []
  }

  /** A suspension is the state of the run, with exactly the refused record context-failed. */
  ghost predicate SuspendedAt(s: State, u: Suspension, i: nat) {
    && i < |s.records|
    && u == SuspensionOf(s, i)
    && s.records[i].state.ContextFailed?
    && (forall j :: 0 <= j < |s.records| && j != i ==> !s.records[j].state.ContextFailed?)
  }

  ghost predicate Ended(s: State, pass: Pass) {
    && s.status.Finished?
    && EvidenceKept(s)
    && CarriesEvidence(s.status.outcome, s.settled)
    && WellFormed(s.store)
    && (s.status.outcome.Unwrapped? ==> !s.status.outcome.cause.MissingPlan? && !s.status.outcome.cause.LostMandatoryCandidate?)
    && (s.status.outcome.Suspended? ==>
          && Core(s, pass)
          && pass.FirstPass? && s.cfg.mode.Ordinary?
          && exists i :: SuspendedAt(s, s.status.outcome.suspension, i))
  }

  ghost predicate Good(s: State, pass: Pass) {
    if s.status.Running? then Inv(s, pass) else Ended(s, pass)
  }

  // ---------------------------------------------------------------- steps

  predicate ClockOk(s: State, x: Input) {
    s.clockMs <= x.nowMs <= x.settledMs
  }

  /** Refreshing keeps who a record is and what it has spent, and never revives an exhausted one. */
  ghost predicate SameAccount(a: Record, b: Record) {
    && a.identity == b.identity && a.routeIndex == b.routeIndex
    && a.state.finiteFailures == b.state.finiteFailures
    && a.state.ContextFailed? == b.state.ContextFailed?
    && (a.state.Exhausted? ==> a == b)
  }

  lemma RefreshKeepsAccount(r: Record, store: Store, nowMs: int, deadlineMs: int, mode: Mode)
    ensures SameAccount(r, RefreshRecord(r, store, nowMs, deadlineMs, mode))
  {
  }

  lemma SameAccountsKeepCore(s: State, t: State, pass: Pass)
    requires Core(s, pass)
    requires t == s.(records := t.records, clockMs := t.clockMs) && |t.records| == |s.records|
    requires forall i :: 0 <= i < |s.records| ==> SameAccount(s.records[i], t.records[i])
    requires RecordsOk(t, pass)
    ensures Core(t, pass)
  {
    SumEqual(s.records, FiniteFailuresOf, t.records, FiniteFailuresOf);
  }

  lemma RefreshKeepsInv(s: State, x: Input, pass: Pass)
    requires Inv(s, pass) && ClockOk(s, x)
    ensures Inv(Refreshed(s, x), pass)
  {
    var t := Refreshed(s, x);
    forall i | 0 <= i < |s.records|
      ensures SameAccount(s.records[i], t.records[i])
    {
      RefreshKeepsAccount(s.records[i], s.store, x.nowMs, s.cfg.deadlineMs, s.cfg.mode);
    }
    forall i | 0 <= i < |t.records|
      ensures RecordOk(t.records[i], t.log, i, t.clockMs, pass, t.cfg.mode)
    {
      var r := s.records[i];
      RefreshRecordOk(r, GetEntry(s.store, r.identity), s.log, i, s.clockMs, x.nowMs, s.cfg.deadlineMs, pass, s.cfg.mode);
    }
    SameAccountsKeepCore(s, t, pass);
    if s.mandatoryFirst.Some? {
      var k :| 0 <= k < |s.records| && s.records[k].identity == pass.first && s.records[k].state.ContextFailed?;
      assert SameAccount(s.records[k], t.records[k]);
    }
  }

  /** Selection only ever picks a record that may be attempted. */
  lemma ChoiceIsEligible(cfg: Config, records: seq<Record>, store: Store, nowMs: int)
    requires ValidMode(cfg, records)
    requires cfg.mode.Pinned? ==> records[0].state.Untried? || records[0].state.LocalOverload()
    ensures var c := Choose(cfg, records, store, nowMs);
            c.Attempt? ==> records[c.index].state.Untried? || records[c.index].state.RetryReady?
  {
  }

  lemma OthersKeepOk(s: State, e: Event, clockMs: int, i: nat, pass: Pass)
    requires RecordsOk(s, pass) && s.clockMs <= clockMs
    requires e.Attempted? ==> e.index == i
    ensures forall j :: 0 <= j < |s.records| && (j != i || !e.Attempted?) ==>
              RecordOk(s.records[j], s.log + [e], j, clockMs, pass, s.cfg.mode)
  {
    forall j | 0 <= j < |s.records| && (j != i || !e.Attempted?)
      ensures RecordOk(s.records[j], s.log + [e], j, clockMs, pass, s.cfg.mode)
    {
      Snoc(s.log, e, j);
    }
  }

  lemma ReplayOk(store: Store, ops: seq<StoreOp>)
    requires WellFormed(store)
    ensures WellFormed(Replay(store, ops))
  {
    ReplayKeepsWellFormed(store, ops);
  }

  lemma WaitKeepsInv(s: State, x: Input, owner: Option<nat>, waitMs: int, pass: Pass)
    requires Inv(s, pass) && ClockOk(s, x)
    ensures Inv(Await(s, x, Waited(owner, x.nowMs, waitMs)), pass)
  {
    var e := Waited(owner, x.nowMs, waitMs);
    OthersKeepOk(s, e, x.settledMs, 0, pass);
    Snoc(s.log, e, 0);
    ReplayOk(s.store, x.interference);
  }

  /** Replacing one record, in step with one more event, keeps the core invariant. */
  lemma ReplaceKeepsCore(s: State, t: State, i: nat, e: Event, pass: Pass)
    requires Core(s, pass) && i < |s.records|
    requires t.cfg == s.cfg && t.log == s.log + [e] && s.clockMs <= t.clockMs
    requires |t.records| == |s.records| && t.records == s.records[i := t.records[i]]
    requires e.Attempted? ==> e.index == i
    requires t.records[i].identity == s.records[i].identity && t.records[i].routeIndex == s.records[i].routeIndex
    requires t.records[i].state.finiteFailures == s.records[i].state.finiteFailures + if FiniteAttempt(e) then 1 else 0
    requires !s.records[i].state.Exhausted?
    requires RecordOk(t.records[i], t.log, i, t.clockMs, pass, t.cfg.mode)
    requires EvidenceKept(t) && WellFormed(t.store)
    ensures Core(t, pass)
  {
    OthersKeepOk(s, e, t.clockMs, i, pass);
    forall j | 0 <= j < |t.records|
      ensures RecordOk(t.records[j], t.log, j, t.clockMs, pass, t.cfg.mode)
      ensures t.records[j].identity == s.records[j].identity && t.records[j].routeIndex == s.records[j].routeIndex
      ensures !t.records[j].state.Exhausted? ==> t.records[j].routeIndex in t.cfg.plans
    {
      if j != i { assert t.records[j] == s.records[j]; }
    }
    Snoc(s.log, e, i);
    SumUpdate(s.records, FiniteFailuresOf, i, t.records[i]);
  }

  lemma ReclassifiedRecordOk(r: Record, store: Store, log: seq<Event>, i: nat, clockMs: int, pass: Pass)
    requires RecordOk(r, log, i, clockMs, pass, Ordinary)
    requires (r.state.Untried? || r.state.RetryReady?) && !r.state.LocalOverload()
    ensures RecordOk(Reclassify(r, store), log + [Reclassified(i)], i, clockMs, pass, Ordinary)
  {
    Snoc(log, Reclassified(i), i);
  }

  lemma ReclassifyKeepsInv(s: State, i: nat, pass: Pass)
    requires Inv(s, pass) && i < |s.records| && s.cfg.mode.Ordinary? && s.mandatoryFirst.None?
    requires (s.records[i].state.Untried? || s.records[i].state.RetryReady?) && !s.records[i].state.LocalOverload()
    ensures Inv(SetAside(s, i), pass)
  {
    var t := SetAside(s, i);
    var r := s.records[i];
    assert RecordOk(r, s.log, i, s.clockMs, pass, s.cfg.mode);
    ReclassifiedRecordOk(r, s.store, s.log, i, s.clockMs, pass);
    Snoc(s.log, Reclassified(i), i);
    assert EvidenceKept(t);
    ReplaceKeepsCore(s, t, i, Reclassified(i), pass);
    assert MandatoryPending(t, pass);
  }

  // ---------------------------------------------------------------- one dispatched attempt

  /** The state in which record `i` is about to be attempted. */
  ghost predicate ReadyToDispatch(s: State, i: nat, pass: Pass) {
    && s.status.Running?
    && Core(s, pass)
    && s.mandatoryFirst.None?
    && i < |s.records|
    && (s.records[i].state.Untried? || s.records[i].state.RetryReady?
        || (s.records[i].state.ContextFailed? && pass.Favours(s.records[i].identity)))
    && (forall j :: 0 <= j < |s.records| && j != i ==> !s.records[j].state.ContextFailed?)
  }

  /** The new state of a record after one more failure agrees with the extended history. */
  lemma FailureIsAccounted(r: Record, i: nat, log: seq<Event>, e: Event)
    requires Ledger(r.state, log, i)
    requires AttemptOn(e, i) && e.outcome.Failed?
    ensures var log' := log + [e];
            var overloaded := e.outcome.failure.Overloaded?;
            && AttemptsOn(log', i) == r.state.attempts + 1
            && OverloadsOn(log', i) == OverloadsOn(log, i) + (if overloaded then 1 else 0)
            && Backoff(Streak(log', i) + 1) == (if overloaded then Doubled(r.state.overloadDelayMs) else FIRST_OVERLOAD_DELAY_MS)
            && (overloaded ==> Streak(log', i) >= 1 && Backoff(Streak(log', i)) == r.state.overloadDelayMs)
            && Due(log', i) == (if Retryable(e.outcome.failure)
                                then Some(DueAfter(e.outcome.failure, Streak(log', i), e.settledMs)) else None)
  {
    Snoc(log, e, i);
    BackoffDoubles(Streak(log, i) + 1);
    assert PowerOfTwo(0) == 1;
  }

  lemma RetryDueMatches(failure: Failure, streak: nat, overloadDelayMs: int, nowMs: int)
    requires failure.Overloaded? ==> streak >= 1 && Backoff(streak) == overloadDelayMs
    ensures var d := DecideFailure(failure, RECOVERY_DELAY_MS, overloadDelayMs, nowMs);
            && (d.RetryOverloaded? <==> failure.Overloaded?)
            && (d.Terminal? <==> !Retryable(failure))
            && (!d.Terminal? ==>
                  && RetryUntil(d, nowMs) == DueAfter(failure, streak, nowMs)
                  && (RetryWait(d) == OverloadWait <==> failure.Overloaded?))
  {
  }

  lemma StoreAfterOk(store: Store, mode: Mode, c: Candidate, decision: FailureDecision, nowMs: int)
    requires WellFormed(store)
    ensures WellFormed(StoreAfter(store, mode, c, decision, nowMs))
  {
    var block := DecisionBlock(decision);
    if block.Some? {
      PutIsMapUpdate(store, FailedEntry(GetEntry(store, c), c, block.value, nowMs), c);
    }
  }

  lemma AfterFailureOk(
    r: Record, i: nat, log: seq<Event>, e: Event, clockMs: int, pass: Pass, mode: Mode)
    requires RecordOk(r, log, i, clockMs, pass, mode)
    requires AttemptOn(e, i) && e.outcome.Failed?
    requires !r.state.Exhausted? && (r.state.ContextFailed? ==> pass.Favours(r.identity))
    ensures var failure := e.outcome.failure;
            var decision := DecideFailure(failure, RECOVERY_DELAY_MS, r.state.overloadDelayMs, e.settledMs);
            !decision.Terminal? && (mode.Pinned? ==> decision.RetryOverloaded?) ==>
              RecordOk(r.(state := AfterFailure(r.state, failure, decision, e.settledMs)),
                       log + [e], i, e.settledMs, pass, mode)
  {
    FailureIsAccounted(r, i, log, e);
    RetryDueMatches(e.outcome.failure, Streak(log + [e], i), r.state.overloadDelayMs, e.settledMs);
  }

  lemma AfterContextFailureOk(r: Record, i: nat, log: seq<Event>, e: Event, clockMs: int)
    requires RecordOk(r, log, i, clockMs, FirstPass, Ordinary)
    requires AttemptOn(e, i) && e.outcome.Failed? && ContextExhausted(e.outcome.phase, e.outcome.failure)
    requires r.state.Untried? || r.state.RetryReady?
    ensures RecordOk(r.(state := AfterContextFailure(r.state, e.outcome.phase, e.outcome.failure)), log + [e], i, e.settledMs, FirstPass, Ordinary)
  {
    FailureIsAccounted(r, i, log, e);
  }

  lemma AccountedRecordOk(
    before: State, s: State, i: nat, e: Event, phase: Phase, failure: Failure, pass: Pass)
    requires ReadyToDispatch(before, i, pass)
    requires AttemptOn(e, i) && e.outcome.Failed? && e.outcome.failure == failure && e.outcome.phase == phase && e.settledMs == s.clockMs
    requires s.log == before.log + [e] && s.records == before.records && s.cfg == before.cfg && s.status.Running?
    ensures var t := Account(s, i, phase, failure);
            t.records != s.records ==>
              && RecordOk(t.records[i], t.log, i, t.clockMs, pass, t.cfg.mode)
              && t.records == s.records[i := t.records[i]]
              && t.records[i].identity == s.records[i].identity && t.records[i].routeIndex == s.records[i].routeIndex
              && t.records[i].state.finiteFailures == s.records[i].state.finiteFailures + (if failure.Overloaded? then 0 else 1)
              && (t.status.Running? ==> !t.records[i].state.ContextFailed?)
              && (t.status.Finished? ==>
                    && s.cfg.mode.Ordinary? && !s.cfg.recoveryMode
                    && t.records[i].state.ContextFailed?
                    && t.status.outcome == Suspended(t.settled, SuspensionOf(t, i)))
  {
    var r := s.records[i];
    assert RecordOk(r, before.log, i, before.clockMs, pass, s.cfg.mode);
    AccountShape(s, i, phase, failure);
    AfterFailureOk(r, i, before.log, e, before.clockMs, pass, s.cfg.mode);
    if pass.FirstPass? && s.cfg.mode.Ordinary? && ContextExhausted(phase, failure) {
      AfterContextFailureOk(r, i, before.log, e, before.clockMs);
    }
  }

  /** The three ways accounting a failure can go. */
  lemma AccountShape(s: State, i: nat, phase: Phase, failure: Failure)
    requires i < |s.records| && s.status.Running?
    ensures var t := Account(s, i, phase, failure);
            var r := s.records[i];
            var decision := DecideFailure(failure, RECOVERY_DELAY_MS, r.state.overloadDelayMs, s.clockMs);
            || t.records == s.records
            || (t.status.Running? && !decision.Terminal? && (s.cfg.mode.Pinned? ==> decision.RetryOverloaded?)
                && t.records == s.records[i := r.(state := AfterFailure(r.state, failure, decision, s.clockMs))])
            || (s.cfg.mode.Ordinary? && !s.cfg.recoveryMode && ContextExhausted(phase, failure)
                && t.records == s.records[i := r.(state := AfterContextFailure(r.state, phase, failure))]
                && t.status == Finished(Suspended(t.settled, SuspensionOf(t, i))))
  {
  }

  /** An accounted failure that changes no record ends the run, and the failure carries the evidence. */
  lemma AccountEnds(s: State, i: nat, phase: Phase, failure: Failure)
    requires i < |s.records| && s.status.Running?
    requires phase.ProviderAttempt? ==> s.settled != []
    ensures var t := Account(s, i, phase, failure);
            t.records == s.records ==>
              && t.status.Finished? && t.status.outcome.TurnFailed?
              && CarriesEvidence(t.status.outcome, t.settled)
  {
    var st := s.records[i].state;
    var t := Account(s, i, phase, failure);
    if t.records == s.records {
      assert t.records[i].state == st;
    }
  }

  /** The facts about an accounted failure that decide whether the run goes on or is suspended. */
  ghost predicate Accounted(before: State, t: State, i: nat, e: Event, pass: Pass) {
    && i < |before.records| && |t.records| == |before.records|
    && t.cfg == before.cfg && t.log == before.log + [e] && before.clockMs <= t.clockMs
    && t.mandatoryFirst.None?
    && t.records == before.records[i := t.records[i]]
    && RecordOk(t.records[i], t.log, i, t.clockMs, pass, t.cfg.mode)
    && t.records[i].identity == before.records[i].identity && t.records[i].routeIndex == before.records[i].routeIndex
    && t.records[i].state.finiteFailures == before.records[i].state.finiteFailures + (if FiniteAttempt(e) then 1 else 0)
    && EvidenceKept(t) && WellFormed(t.store)
    && (t.status.Running? ==> !t.records[i].state.ContextFailed?)
    && (t.status.Finished? ==>
          && t.cfg.mode.Ordinary? && !t.cfg.recoveryMode && t.settled != []
          && t.records[i].state.ContextFailed?
          && t.status.outcome == Suspended(t.settled, SuspensionOf(t, i)))
  }

  lemma AccountedIsGood(before: State, t: State, i: nat, e: Event, pass: Pass)
    requires ReadyToDispatch(before, i, pass) && AttemptOn(e, i)
    requires Accounted(before, t, i, e, pass)
    ensures Good(t, pass)
  {
    ReplaceKeepsCore(before, t, i, e, pass);
    assert forall j :: 0 <= j < |t.records| && j != i ==> t.records[j] == before.records[j];
    if t.status.Finished? {
      assert SuspendedAt(t, t.status.outcome.suspension, i);
    }
  }

  /** `before` is the state just before the attempt was awaited, `s` the one being accounted in. */
  lemma AccountKeepsGood(
    before: State, s: State, i: nat, x: Input, phase: Phase, failure: Failure, payloads: seq<string>,
    pass: Pass)
    requires ReadyToDispatch(before, i, pass) && before.clockMs <= x.settledMs
    requires var e := Attempted(i, x.nowMs, Failed(phase, failure, payloads), x.settledMs);
             && s.log == before.log + [e]
             && s.records == before.records && s.cfg == before.cfg && s.status.Running?
             && s.mandatoryFirst.None? && s.clockMs == x.settledMs
    requires EvidenceKept(s) && WellFormed(s.store)
    requires phase.ProviderAttempt? ==> s.settled != []
    ensures Good(Account(s, i, phase, failure), pass)
  {
    var e := Attempted(i, x.nowMs, Failed(phase, failure, payloads), x.settledMs);
    var r := s.records[i];
    var t := Account(s, i, phase, failure);
    StoreAfterOk(s.store, s.cfg.mode, r.identity,
                 DecideFailure(failure, RECOVERY_DELAY_MS, r.state.overloadDelayMs, s.clockMs), s.clockMs);
    if t.records != s.records {
      AccountedRecordOk(before, s, i, e, phase, failure, pass);
      AccountedIsGood(before, t, i, e, pass);
    } else {
      AccountEnds(s, i, phase, failure);
    }
  }

  /** The exchanges an attempt settles are appended under the run's input id, whatever the outcome. */
  lemma SettledEvidence(s: State, i: nat, x: Input)
    requires EvidenceKept(s) && i < |s.records|
    ensures var e := Attempted(i, x.nowMs, x.outcome, x.settledMs);
            var t := Await(s, x, e);
            EvidenceKept(t.(settled := t.settled + IndexExchanges(t.cfg.bindings.inputId, |t.settled|, PayloadsOf(e))))
  {
    var e := Attempted(i, x.nowMs, x.outcome, x.settledMs);
    Snoc(s.log, e, i);
    IndexAppends(s.cfg.bindings.inputId, Payloads(s.log), PayloadsOf(e));
  }

  lemma SuccessKeepsGood(s: State, i: nat, payloads: seq<string>, pass: Pass)
    requires i < |s.records| && WellFormed(s.store)
    requires EvidenceKept(s.(settled := s.settled + IndexExchanges(s.cfg.bindings.inputId, |s.settled|, payloads)))
    ensures Good(Settle(s, i, Succeeded(payloads)), pass)
  {
    PutIsMapUpdate(s.store, SucceededEntry(s.records[i].identity, s.clockMs), s.records[i].identity);
  }

  lemma FailureKeepsGood(
    before: State, i: nat, x: Input, phase: Phase, failure: Failure, payloads: seq<string>, pass: Pass)
    requires ReadyToDispatch(before, i, pass) && before.clockMs <= x.settledMs
    requires x.outcome == Failed(phase, failure, payloads)
    ensures var t := Await(before, x, Attempted(i, x.nowMs, x.outcome, x.settledMs));
            Good(Settle(t, i, x.outcome), pass)
  {
    var t := Await(before, x, Attempted(i, x.nowMs, x.outcome, x.settledMs));
    SettledEvidence(before, i, x);
    ReplayOk(before.store, x.interference);
    if phase.ProviderAttempt? && payloads == [] {
      assert t.settled + IndexExchanges(t.cfg.bindings.inputId, |t.settled|, []) == t.settled;
    } else {
      var added := if phase.ProviderAttempt? then payloads else [];
      var settled := t.settled + IndexExchanges(t.cfg.bindings.inputId, |t.settled|, added);
      var u := t.(settled := settled);
      assert phase.ProviderAttempt? ==> |settled| > 0;
      if !t.aborted {
        AccountKeepsGood(before, u, i, x, phase, failure, payloads, pass);
      }
    }
  }

  lemma DispatchKeepsGood(s: State, i: nat, x: Input, pass: Pass)
    requires ReadyToDispatch(s, i, pass) && s.clockMs <= x.settledMs
    ensures Good(Dispatch(s, i, x), pass)
  {
    var t := Await(s, x, Attempted(i, x.nowMs, x.outcome, x.settledMs));
    assert s.records[i].routeIndex in s.cfg.plans;
    if x.outcome.Failed? {
      FailureKeepsGood(s, i, x, x.outcome.phase, x.outcome.failure, x.outcome.payloads, pass);
    } else {
      SettledEvidence(s, i, x);
      ReplayOk(s.store, x.interference);
      if x.outcome.Succeeded? {
        SuccessKeepsGood(t, i, x.outcome.payloads, pass);
      } else {
        assert t.settled + IndexExchanges(t.cfg.bindings.inputId, |t.settled|, []) == t.settled;
      }
    }
  }

  lemma ScheduledKeepsGood(t: State, x: Input, pass: Pass)
    requires Inv(t, pass) && t.mandatoryFirst.None? && t.clockMs == x.nowMs <= x.settledMs
    ensures Good(Scheduled(t, x), pass)
  {
    assert t.cfg.mode.Pinned? ==> RecordOk(t.records[0], t.log, 0, t.clockMs, pass, t.cfg.mode);
    ChoiceIsEligible(t.cfg, t.records, t.store, x.nowMs);
    var c := Choose(t.cfg, t.records, t.store, x.nowMs);
    if c.Attempt? {
      if MustReclassify(t.cfg, t.records[c.index], t.store, x.nowMs) {
        ReclassifyKeepsInv(t, c.index, pass);
      } else {
        DispatchKeepsGood(t, c.index, x, pass);
      }
    } else if c.WaitFor? {
      WaitKeepsInv(t, x, c.owner, c.waitMs, pass);
    }
  }

  lemma MandatoryIsReady(t: State, pass: Pass)
    requires Inv(t, pass) && t.mandatoryFirst.Some?
    ensures IndexOfIdentity(t.records, t.mandatoryFirst.value).Some?
    ensures ReadyToDispatch(t.(mandatoryFirst := None),
                            IndexOfIdentity(t.records, t.mandatoryFirst.value).value, pass)
  {
    var c := t.mandatoryFirst.value;
    var k :| 0 <= k < |t.records| && t.records[k].identity == pass.first && t.records[k].state.ContextFailed?;
    var found := IndexOfIdentity(t.records, c);
    assert found.Some?;
    assert found.value == k by {
      assert t.cfg.authority[k] == t.cfg.authority[found.value];
    }
    forall j | 0 <= j < |t.records| && j != k
      ensures !t.records[j].state.ContextFailed?
    {
      assert t.cfg.authority[k] != t.cfg.authority[j];
    }
  }

  lemma StepKeepsGood(s: State, x: Input, pass: Pass)
    requires Good(s, pass)
    requires ValidMode(s.cfg, s.records)
    requires ClockOk(s, x)
    ensures Good(Step(s, x), pass)
  {
    if s.status.Running? && !s.aborted {
      var t := Refreshed(s, x);
      RefreshKeepsInv(s, x, pass);
      if s.mandatoryFirst.Some? {
        MandatoryIsReady(t, pass);
        var i := IndexOfIdentity(t.records, s.mandatoryFirst.value).value;
        DispatchKeepsGood(t.(mandatoryFirst := None), i, x, pass);
      } else {
        ScheduledKeepsGood(t, x, pass);
      }
    }
  }
}
