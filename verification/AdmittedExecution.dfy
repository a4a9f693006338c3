/** The admitted-execution retry scheduler as a transition system: one `Step` is one iteration of the
    scheduling loop, and `Input` is everything the outside world contributes to that iteration. */
module AdmittedExecution {
  import opened Wrappers
  import opened Search
  import opened CandidateAvailability
  import opened RecoveryPolicy

  const RECOVERY_DELAY_MS := 60_000
  const MAX_RECOVERY_RETRIES := 3
  const UNAVAILABILITY_TIMEOUT_MS := 7_200_000
  const FIRST_OVERLOAD_DELAY_MS := 30_000
  const MAX_OVERLOAD_DELAY_MS := 600_000

  // ---------------------------------------------------------------- records

  datatype Phase = PreProvider | ProviderAttempt

  datatype Wait = StandardWait | RateLimitWait | OverloadWait

  datatype AttemptState =
    | Untried(attempts: nat, finiteFailures: nat, overloadDelayMs: int)
    | TemporarilyUnavailable(attempts: nat, finiteFailures: nat, overloadDelayMs: int,
                             untilMs: int, reason: Option<Reason>)
    | RetryWaiting(attempts: nat, finiteFailures: nat, overloadDelayMs: int,
                   wait: Wait, untilMs: int, lastFailure: Option<Failure>)
    | RetryReady(attempts: nat, finiteFailures: nat, overloadDelayMs: int,
                 wait: Wait, untilMs: int, lastFailure: Option<Failure>)
    | ContextFailed(attempts: nat, finiteFailures: nat, overloadDelayMs: int, phase: Phase, failure: Failure)
    | Exhausted(attempts: nat, finiteFailures: nat, overloadDelayMs: int, lastFailure: Option<Failure>)
  {
    predicate LocalOverload() {
      (RetryWaiting? || RetryReady?) && wait == OverloadWait
    }

    function LastFailure(): Option<Failure> {
      if RetryWaiting? || RetryReady? || Exhausted? then lastFailure else None
    }

    function ToExhausted(last: Option<Failure>): AttemptState {
      Exhausted(attempts, finiteFailures, overloadDelayMs, last)
    }

    function ToUnavailable(untilMs: int, reason: Option<Reason>): AttemptState {
      TemporarilyUnavailable(attempts, finiteFailures, overloadDelayMs, untilMs, reason)
    }
  }

  datatype Record = Record(identity: Candidate, routeIndex: nat, state: AttemptState)

  const FRESH_STATE := Untried(0, 0, FIRST_OVERLOAD_DELAY_MS)

  predicate Waitable(reason: Option<Reason>) {
    reason.Some? &&
    match reason.value
    case ServerTransient => true
    case ServerOverloaded => true
    case TimedOut => true
    case RateLimited => true
    case UnknownFailure => true
    case AuthPermanent => false
    case OtherReason(_) => false
  }

  // ---------------------------------------------------------------- evidence

  datatype Exchange = Exchange(payload: string, sourceInputId: string, attemptIndex: nat)

  function IndexExchanges(inputId: string, offset: nat, payloads: seq<string>): seq<Exchange> {
    seq(|payloads|, i requires 0 <= i < |payloads| => Exchange(payloads[i], inputId, offset + i))
  }

  // ---------------------------------------------------------------- outcomes

  /** How one dispatched attempt settles. */
  datatype AttemptOutcome =
    | Succeeded(payloads: seq<string>)
    | PublicationUnknown
    | PlanIntegrity
    | Failed(phase: Phase, failure: Failure, payloads: seq<string>)

  datatype Cause =
    | Aborted
    | FailedWith(failure: Failure)
    | ContextStillExhausted
    | NoCandidateInTime
    | NoHealthyCandidate
    | PublicationOutcomeUnknown
    | PlanIntegrityBroken
    | MissingEnvelope
    | MissingPlan
    | LostMandatoryCandidate

  datatype Bindings = Bindings(inputId: string, digest: string)

  datatype Suspension = Suspension(
    authority: seq<Candidate>,
    records: seq<Record>,
    contextFailed: Candidate,
    settled: seq<Exchange>,
    deadlineMs: int,
    bindings: Bindings)

  datatype Outcome =
    | Completed(evidence: seq<Exchange>)
    | TurnFailed(phase: Phase, evidence: seq<Exchange>, cause: Cause, candidate: Option<Candidate>)
    | Suspended(turnEvidence: seq<Exchange>, suspension: Suspension)
    | Unwrapped(cause: Cause)

  datatype Status = Running | Finished(outcome: Outcome)

  // ---------------------------------------------------------------- state and inputs

  datatype Mode = Ordinary | Pinned

  datatype Config = Config(
    mode: Mode,
    recoveryMode: bool,
    deadlineMs: int,
    authority: seq<Candidate>,
    plans: map<nat, string>,
    bindings: Bindings)

  datatype Event =
    | Attempted(index: nat, atMs: int, outcome: AttemptOutcome, settledMs: int)
    | Waited(owner: Option<nat>, fromMs: int, waitMs: int)
    | Reclassified(index: nat)

  /** `log` is the history of the turn; the scheduler itself never reads it. */
  datatype State = State(
    cfg: Config,
    records: seq<Record>,
    store: Store,
    settled: seq<Exchange>,
    lastFailure: Option<Failure>,
    mandatoryFirst: Option<Candidate>,
    aborted: bool,
    clockMs: int,
    log: seq<Event>,
    status: Status)

  /** `nowMs` is the clock while the iteration refreshes and selects, `settledMs` the clock once the
      awaited attempt or delay is over. Other invocations touch the shared store, and the owner may
      abort, only during that await. */
  datatype Input = Input(
    nowMs: int,
    outcome: AttemptOutcome,
    settledMs: int,
    interference: seq<StoreOp>,
    abortDuring: bool)

  // ---------------------------------------------------------------- refresh

  function Observed(state: AttemptState, entry: Option<Entry>, nowMs: int, mode: Mode): AttemptState {
    if mode.Ordinary? && state.Untried? && entry.Some? && !entry.value.state.Healthy?
       && nowMs < entry.value.untilMs && Waitable(entry.value.reason)
    then state.ToUnavailable(entry.value.untilMs, entry.value.reason)
    else state
  }

  function RefreshState(
    before: AttemptState, entry: Option<Entry>, nowMs: int, deadlineMs: int, mode: Mode): AttemptState
  {
    var state := Observed(before, entry, nowMs, mode);
    if nowMs >= deadlineMs && !state.LocalOverload()
       && (state.RetryWaiting? || state.RetryReady? || state.TemporarilyUnavailable?)
    then state.ToExhausted(state.LastFailure())
    else if state.RetryWaiting? && state.untilMs <= nowMs then
      RetryReady(state.attempts, state.finiteFailures, state.overloadDelayMs,
                 state.wait, state.untilMs, state.lastFailure)
    else if state.TemporarilyUnavailable? then
      if entry.None? || entry.value.state.Healthy? || nowMs >= entry.value.untilMs then
        RetryReady(state.attempts, state.finiteFailures, state.overloadDelayMs,
                   StandardWait, state.untilMs, None)
      else state.ToUnavailable(entry.value.untilMs, entry.value.reason)
    else state
  }

  function RefreshRecord(r: Record, store: Store, nowMs: int, deadlineMs: int, mode: Mode): Record {
    r.(state := RefreshState(r.state, GetEntry(store, r.identity), nowMs, deadlineMs, mode))
  }

  function Refresh(records: seq<Record>, store: Store, nowMs: int, deadlineMs: int, mode: Mode): (rs: seq<Record>)
    ensures |rs| == |records|
  {
    seq(|records|, i requires 0 <= i < |records| =>
          RefreshRecord(records[i], store, nowMs, deadlineMs, mode))
  }

  // ---------------------------------------------------------------- selection

  datatype Choice =
    | Attempt(index: nat)
    | WaitFor(waitMs: int, owner: Option<nat>)
    | TimeIsUp
    | NothingLeft

  function WaitUntil(untilMs: int, nowMs: int, deadlineMs: int, owner: Option<nat>): Choice {
    var remainingMs := deadlineMs - nowMs;
    if remainingMs <= 0 then TimeIsUp
    else WaitFor(Min(Max(0, untilMs - nowMs), remainingMs), owner)
  }

  predicate ReadyOverload(r: Record) {
    r.state.LocalOverload() && r.state.RetryReady?
  }

  predicate DueBefore(a: Record, b: Record)
    requires ReadyOverload(a) && ReadyOverload(b)
  {
    a.state.untilMs < b.state.untilMs || (a.state.untilMs == b.state.untilMs && a.routeIndex <= b.routeIndex)
  }

  /** The head of the ready overload records sorted by due time, then route order. */
  function OldestReadyOverload(records: seq<Record>): (r: Option<nat>)
    ensures r.Some? ==> r.value < |records| && ReadyOverload(records[r.value])
    ensures r.Some? ==>
              forall j :: 0 <= j < |records| && ReadyOverload(records[j]) ==> DueBefore(records[r.value], records[j])
    ensures r.None? ==> forall j :: 0 <= j < |records| ==> !ReadyOverload(records[j])
  {
    if records == [] then None
    else
      var last := |records| - 1;
      var rest := OldestReadyOverload(records[..last]);
      if !ReadyOverload(records[last]) then rest
      else if rest.None? || !DueBefore(records[rest.value], records[last]) then Some(last)
      else rest
  }

  predicate UntriedAvailable(r: Record, store: Store, nowMs: int) {
    r.state.Untried? && IsAvailable(store, r.identity, nowMs)
  }

  predicate FiniteReady(r: Record, store: Store, nowMs: int) {
    && !r.state.LocalOverload()
    && (r.state.Untried? || r.state.RetryReady?)
    && IsAvailable(store, r.identity, nowMs)
  }

  predicate Waits(r: Record, wait: Wait) {
    r.state.RetryWaiting? && r.state.wait == wait
  }

  predicate Ready(r: Record, wait: Wait) {
    r.state.RetryReady? && r.state.wait == wait
  }

  /** What one record adds to the due times while some record is in local overload. */
  function DueTime(r: Record, store: Store, nowMs: int, deadlineMs: int): Option<int> {
    var s := r.state;
    if s.LocalOverload() then Some(s.untilMs)
    else if s.RetryWaiting? || s.TemporarilyUnavailable? then Some(Min(s.untilMs, deadlineMs))
    else if s.Untried? || s.RetryReady? then
      var entry := GetEntry(store, r.identity);
      if entry.Some? && Waitable(entry.value.reason) && nowMs < deadlineMs
      then Some(Min(entry.value.untilMs, deadlineMs)) else None
    else None
  }

  predicate AnyOverload(records: seq<Record>) {
    exists i :: 0 <= i < |records| && records[i].state.LocalOverload()
  }

  function ChooseDuringOverload(records: seq<Record>, store: Store, nowMs: int, deadlineMs: int): Choice {
    var finiteReady := FindFirst(records, (r: Record) => FiniteReady(r, store, nowMs));
    if finiteReady.Some? then Attempt(finiteReady.value)
    else
      var overloadReady := OldestReadyOverload(records);
      if overloadReady.Some? then Attempt(overloadReady.value)
      else
        var dueTimes := LeastOf(records, (r: Record) => DueTime(r, store, nowMs, deadlineMs));
        var due := if dueTimes.Some? then dueTimes.value else nowMs;
        WaitFor(
          Max(0, due - nowMs),
          FindFirst(records, (r: Record) =>
                      (r.state.RetryWaiting? || r.state.TemporarilyUnavailable?) && r.state.untilMs == due))
  }

  /** A record whose store entry blocks it for a reason worth waiting out. */
  predicate WorthWaitingFor(r: Record, store: Store) {
    var entry := GetEntry(store, r.identity);
    && !r.state.Exhausted?
    && entry.Some? && !entry.value.state.Healthy? && Waitable(entry.value.reason)
  }

  function ChooseFinite(records: seq<Record>, store: Store, nowMs: int, deadlineMs: int): Choice {
    var untried := FindFirst(records, (r: Record) => UntriedAvailable(r, store, nowMs));
    var standardWaiting := FindFirst(records, (r: Record) => Waits(r, StandardWait));
    if standardWaiting.Some? then
      if untried.Some? then Attempt(untried.value)
      else WaitUntil(records[standardWaiting.value].state.untilMs, nowMs, deadlineMs, standardWaiting)
    else
      var standardReady := FindFirst(records, (r: Record) => Ready(r, StandardWait));
      if standardReady.Some? then Attempt(standardReady.value)
      else if untried.Some? then Attempt(untried.value)
      else
        var rateReady := FindFirst(records, (r: Record) => Ready(r, RateLimitWait));
        if rateReady.Some? then Attempt(rateReady.value)
        else
          var rateWaiting := LeastOf(records, (r: Record) =>
                                       if Waits(r, RateLimitWait) then Some(r.state.untilMs) else None);
          if rateWaiting.Some? then
            WaitUntil(rateWaiting.value, nowMs, deadlineMs,
                      FindFirst(records, (r: Record) =>
                                  r.state.RetryWaiting? && r.state.untilMs == rateWaiting.value))
          else
            var blocked := FindFirst(records, (r: Record) => WorthWaitingFor(r, store));
            if blocked.Some? then
              WaitUntil(GetEntry(store, records[blocked.value].identity).value.untilMs,
                        nowMs, deadlineMs, blocked)
            else if nowMs >= deadlineMs then TimeIsUp
            else NothingLeft
  }

  /** A pinned run has exactly one record. */
  function ChoosePinned(records: seq<Record>, nowMs: int): Choice
    requires |records| == 1
  {
    var s := records[0].state;
    if s.RetryWaiting? then WaitFor(Max(0, s.untilMs - nowMs), Some(0)) else Attempt(0)
  }

  predicate ValidMode(cfg: Config, records: seq<Record>) {
    cfg.mode.Pinned? ==> |records| == 1
  }

  function Choose(cfg: Config, records: seq<Record>, store: Store, nowMs: int): (c: Choice)
    requires ValidMode(cfg, records)
    ensures c.Attempt? ==> c.index < |records|
  {
    if cfg.mode.Pinned? then ChoosePinned(records, nowMs)
    else if AnyOverload(records) then ChooseDuringOverload(records, store, nowMs, cfg.deadlineMs)
    else ChooseFinite(records, store, nowMs, cfg.deadlineMs)
  }

  // ---------------------------------------------------------------- attempts

  function PhaseOf(settled: seq<Exchange>): Phase {
    if settled == [] then PreProvider else ProviderAttempt
  }

  function Finish(s: State, outcome: Outcome): State {
    s.(status := Finished(outcome))
  }

  function AbortOutcome(s: State): Outcome {
    if s.settled == [] then Unwrapped(Aborted)
    else TurnFailed(ProviderAttempt, s.settled, Aborted, None)
  }

  function RetryWait(d: FailureDecision): Wait
    requires !d.Terminal?
  {
    match d
    case RetryRateLimited(_) => RateLimitWait
    case RetryOverloaded(_, _) => OverloadWait
    case RetryStandard(_, _) => StandardWait
  }

  function Doubled(overloadDelayMs: int): int {
    Min(MAX_OVERLOAD_DELAY_MS, overloadDelayMs * 2)
  }

  function SuspensionOf(s: State, i: nat): Suspension
    requires i < |s.records|
  {
    Suspension(s.cfg.authority, s.records, s.records[i].identity, s.settled, s.cfg.deadlineMs, s.cfg.bindings)
  }

  predicate ContextExhausted(phase: Phase, failure: Failure) {
    phase.ProviderAttempt? && failure.InputContextExhausted?
  }

  /** The record state after a retryable failure: another wait while the finite budget lasts. */
  function AfterFailure(st: AttemptState, failure: Failure, decision: FailureDecision, nowMs: int): AttemptState
    requires !decision.Terminal?
  {
    var overloaded := decision.RetryOverloaded?;
    var attempts := st.attempts + 1;
    var finite := st.finiteFailures + if overloaded then 0 else 1;
    var delayMs := if overloaded then Doubled(st.overloadDelayMs) else FIRST_OVERLOAD_DELAY_MS;
    if overloaded || finite < 1 + MAX_RECOVERY_RETRIES then
      RetryWaiting(attempts, finite, delayMs, RetryWait(decision), RetryUntil(decision, nowMs), Some(failure))
    else Exhausted(attempts, finite, delayMs, Some(failure))
  }

  /** Context exhaustion is accounted without a budget check. */
  function AfterContextFailure(st: AttemptState, phase: Phase, failure: Failure): AttemptState {
    ContextFailed(st.attempts + 1, st.finiteFailures + 1, FIRST_OVERLOAD_DELAY_MS, phase, failure)
  }

  /** A pinned run tells the shared store about overloads only. */
  function StoreAfter(store: Store, mode: Mode, c: Candidate, decision: FailureDecision, nowMs: int): Store {
    var block := DecisionBlock(decision);
    if block.Some? && (mode.Ordinary? || decision.RetryOverloaded?)
    then Apply(store, MarkFailed(c, block.value, nowMs)) else store
  }

  function TerminalOutcome(
    settled: seq<Exchange>, recoveryMode: bool, c: Candidate, phase: Phase, failure: Failure): Outcome
  {
    if ContextExhausted(phase, failure) && recoveryMode then
      TurnFailed(ProviderAttempt, settled, ContextStillExhausted, Some(c))
    else
      TurnFailed(PhaseOf(settled), settled, FailedWith(failure), Some(c))
  }

  /** Suspend, end or go on, once the availability store knows of the failure. */
  function Conclude(s: State, i: nat, phase: Phase, failure: Failure, decision: FailureDecision): (r: State)
    requires i < |s.records|
    ensures r.cfg == s.cfg && |r.records| == |s.records|
    ensures r.log == s.log && r.settled == s.settled && r.clockMs == s.clockMs && r.mandatoryFirst == s.mandatoryFirst
    ensures r.store == s.store
  {
    var rec := s.records[i];
    if ContextExhausted(phase, failure) && !s.cfg.recoveryMode && s.cfg.mode.Ordinary? then
      var s1 := s.(records := s.records[i := rec.(state := AfterContextFailure(rec.state, phase, failure))]);
      Finish(s1, Suspended(s1.settled, SuspensionOf(s1, i)))
    else if decision.Terminal? || (s.cfg.mode.Pinned? && !decision.RetryOverloaded?) then
      Finish(s, TerminalOutcome(s.settled, s.cfg.recoveryMode, rec.identity, phase, failure))
    else
      s.(records := s.records[i := rec.(state := AfterFailure(rec.state, failure, decision, s.clockMs))],
         lastFailure := Some(failure))
  }

  /** Account for a failure that was neither an integrity error nor overtaken by an abort. */
  function Account(s: State, i: nat, phase: Phase, failure: Failure): (r: State)
    requires i < |s.records|
    ensures r.cfg == s.cfg && |r.records| == |s.records|
    ensures r.log == s.log && r.settled == s.settled && r.clockMs == s.clockMs && r.mandatoryFirst == s.mandatoryFirst
  {
    var rec := s.records[i];
    var decision := DecideFailure(failure, RECOVERY_DELAY_MS, rec.state.overloadDelayMs, s.clockMs);
    Conclude(s.(store := StoreAfter(s.store, s.cfg.mode, rec.identity, decision, s.clockMs)), i, phase, failure, decision)
  }

  function Settle(s: State, i: nat, outcome: AttemptOutcome): (r: State)
    requires i < |s.records|
    ensures r.cfg == s.cfg && |r.records| == |s.records| && r.log == s.log && r.clockMs == s.clockMs
  {
    match outcome
    case Succeeded(payloads) =>
      var settled := s.settled + IndexExchanges(s.cfg.bindings.inputId, |s.settled|, payloads);
      var store :=
        if s.aborted then s.store else Apply(s.store, MarkSucceeded(s.records[i].identity, s.clockMs));
      Finish(s.(settled := settled, store := store), Completed(settled))
    case PublicationUnknown => Finish(s, Unwrapped(PublicationOutcomeUnknown))
    case PlanIntegrity => Finish(s, Unwrapped(PlanIntegrityBroken))
    case Failed(phase, failure, payloads) =>
      if phase.ProviderAttempt? && payloads == [] then Finish(s, Unwrapped(MissingEnvelope))
      else
        var added := if phase.ProviderAttempt? then payloads else [];
        var settled := s.settled + IndexExchanges(s.cfg.bindings.inputId, |s.settled|, added);
        var s1 := s.(settled := settled);
        if s.aborted then
          Finish(s1,
                 if settled == [] then Unwrapped(FailedWith(failure))
                 else TurnFailed(ProviderAttempt, settled, FailedWith(failure), Some(s.records[i].identity)))
        else Account(s1, i, phase, failure)
  }

  /** Everything an await changes besides what was awaited. */
  function Await(s: State, x: Input, e: Event): State {
    s.(store := Replay(s.store, x.interference),
       aborted := s.aborted || x.abortDuring,
       clockMs := x.settledMs,
       log := s.log + [e])
  }

  function Dispatch(s: State, i: nat, x: Input): (r: State)
    requires i < |s.records|
    ensures r.cfg == s.cfg && |r.records| == |s.records|
    ensures r.clockMs == s.clockMs || r.clockMs == x.settledMs
    ensures s.records[i].routeIndex in s.cfg.plans ==>
              r.log == s.log + [Attempted(i, x.nowMs, x.outcome, x.settledMs)]
  {
    if s.records[i].routeIndex !in s.cfg.plans then Finish(s, Unwrapped(MissingPlan))
    else Settle(Await(s, x, Attempted(i, x.nowMs, x.outcome, x.settledMs)), i, x.outcome)
  }

  /** A selected candidate that another invocation has blocked meanwhile is not attempted. */
  function Reclassify(r: Record, store: Store): Record {
    var entry := GetEntry(store, r.identity);
    if entry.Some? && !entry.value.state.Healthy? && Waitable(entry.value.reason)
    then r.(state := r.state.ToUnavailable(entry.value.untilMs, entry.value.reason))
    else r.(state := r.state.ToExhausted(r.state.LastFailure()))
  }

  function SetAside(s: State, i: nat): (r: State)
    requires i < |s.records|
    ensures r.cfg == s.cfg && |r.records| == |s.records|
  {
    s.(records := s.records[i := Reclassify(s.records[i], s.store)], log := s.log + [Reclassified(i)])
  }

  predicate MustReclassify(cfg: Config, r: Record, store: Store, nowMs: int) {
    cfg.mode.Ordinary? && !r.state.LocalOverload() && !IsAvailable(store, r.identity, nowMs)
  }

  function Refreshed(s: State, x: Input): (r: State)
    ensures |r.records| == |s.records|
  {
    s.(records := Refresh(s.records, s.store, x.nowMs, s.cfg.deadlineMs, s.cfg.mode), clockMs := x.nowMs)
  }

  function IndexOfIdentity(records: seq<Record>, c: Candidate): (r: Option<nat>)
    ensures r.Some? ==> r.value < |records| && records[r.value].identity == c
    ensures r.None? ==> forall j :: 0 <= j < |records| ==> records[j].identity != c
  {
    FindFirst(records, (r: Record) => r.identity == c)
  }

  function Scheduled(s: State, x: Input): (r: State)
    requires ValidMode(s.cfg, s.records)
    ensures r.cfg == s.cfg && |r.records| == |s.records|
    ensures r.clockMs == s.clockMs || r.clockMs == x.settledMs
  {
    match Choose(s.cfg, s.records, s.store, x.nowMs)
    case TimeIsUp =>
      Finish(s, TurnFailed(PhaseOf(s.settled), s.settled,
                           if s.lastFailure.Some? then FailedWith(s.lastFailure.value) else NoCandidateInTime, None))
    case NothingLeft =>
      Finish(s, TurnFailed(PhaseOf(s.settled), s.settled,
                           if s.lastFailure.Some? then FailedWith(s.lastFailure.value) else NoHealthyCandidate, None))
    case WaitFor(waitMs, owner) =>
      Await(s, x, Waited(owner, x.nowMs, waitMs))
    case Attempt(i) =>
      if MustReclassify(s.cfg, s.records[i], s.store, x.nowMs) then
        SetAside(s, i)
      else Dispatch(s, i, x)
  }

  function Step(s: State, x: Input): (r: State)
    requires ValidMode(s.cfg, s.records)
    ensures r.cfg == s.cfg && |r.records| == |s.records|
    ensures r.clockMs == s.clockMs || r.clockMs == x.nowMs || r.clockMs == x.settledMs
  {
    if s.status.Finished? then s
    else if s.aborted then Finish(s, AbortOutcome(s))
    else
      var s1 := Refreshed(s, x);
      match s.mandatoryFirst
      case None => Scheduled(s1, x)
      case Some(c) =>
        match IndexOfIdentity(s1.records, c)
        case None => Finish(s1, Unwrapped(LostMandatoryCandidate))
        case Some(i) => Dispatch(s1.(mandatoryFirst := None), i, x)
  }

  function Run(s: State, xs: seq<Input>): (r: State)
    requires ValidMode(s.cfg, s.records)
    ensures r.cfg == s.cfg && |r.records| == |s.records|
  {
    if xs == [] then s
    else
      var before := Run(s, xs[..|xs| - 1]);
      Step(before, xs[|xs| - 1])
  }
}
