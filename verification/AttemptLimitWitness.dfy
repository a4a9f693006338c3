/** The limit of 4n + 1 attempts for a turn suspended with a spent record is met: a concrete turn over one
    candidate makes five, and one whose resumed attempt meets overload stays alive instead. */
module AttemptLimitWitness {
  import opened Wrappers
  import opened CandidateAvailability
  import opened RecoveryPolicy
  import opened AdmittedExecution
  import opened AttemptLedger
  import opened AdmittedExecutionInvariant
  import opened AdmittedRecovery
  import opened AdmittedTurn

  const CANDIDATE := Candidate("provider", None, "model")
  const BINDINGS := Bindings("input", "digest")

  function Unparsed(nowMs: int): Input {
    Input(nowMs, Failed(PreProvider, ParseError, []), nowMs, [], false)
  }

  function TooLong(nowMs: int): Input {
    Input(nowMs, Failed(ProviderAttempt, InputContextExhausted, ["exchange"]), nowMs, [], false)
  }

  function Idle(nowMs: int): Input {
    Input(nowMs, PlanIntegrity, nowMs + 60_000, [], false)
  }

  /** Waiting after `f` failures, the last of them just now. */
  ghost predicate Stage(s: State, f: nat) {
    && s.status.Running? && !s.aborted && s.mandatoryFirst.None?
    && s.cfg.mode.Ordinary? && !s.cfg.recoveryMode && s.cfg.plans == map[0 := "plan"]
    && s.cfg.deadlineMs == 7_200_000 && s.clockMs == (f - 1) * 60_000
    && s.cfg.bindings == BINDINGS
    && s.store == [] && s.settled == []
    && s.records == [Record(CANDIDATE, 0, RetryWaiting(f, f, 30_000, StandardWait, f * 60_000, Some(ParseError)))]
    && FiniteCount(s.log) == f
  }

  /** A retryable failure before the provider was reached touches one record and no store. */
  lemma UnparsedFailure(s: State, nowMs: int)
    requires s.status.Running? && !s.aborted && |s.records| == 1 && s.records[0].routeIndex in s.cfg.plans
    requires s.cfg.mode.Ordinary? && s.settled == [] && s.store == []
    ensures var r := s.records[0];
            var d := DecideFailure(ParseError, RECOVERY_DELAY_MS, r.state.overloadDelayMs, nowMs);
            var t := Dispatch(s, 0, Unparsed(nowMs));
            && t == s.(records := [r.(state := AfterFailure(r.state, ParseError, d, nowMs))],
                       clockMs := nowMs, lastFailure := Some(ParseError), log := t.log)
            && FiniteCount(t.log) == FiniteCount(s.log) + 1
  {
    var x := Unparsed(nowMs);
    Snoc(s.log, Attempted(0, x.nowMs, x.outcome, x.settledMs), 0);
    assert Replay([], []) == [];
    assert IndexExchanges(s.cfg.bindings.inputId, 0, []) == [];
    assert s.records[0 := s.records[0]] == [s.records[0]];
  }

  lemma FirstChoice()
    ensures var t := Refreshed(Start(), Unparsed(0));
            t == Start() && Step(Start(), Unparsed(0)) == Dispatch(t, 0, Unparsed(0))
  {
    var s, x := Start(), Unparsed(0);
    StartRecords();
    var t := Refreshed(s, x);
    assert t.records == s.records;
    assert UntriedAvailable(t.records[0], [], 0);
    assert Choose(t.cfg, t.records, t.store, 0) == Attempt(0);
  }

  /** One more unparsable answer, from any state of the record that still allows it. */
  lemma FailureReachesStage(s: State, f: nat)
    requires f < 3 && s.status.Running? && !s.aborted && s.mandatoryFirst.None?
    requires s.cfg.mode.Ordinary? && !s.cfg.recoveryMode && s.cfg.plans == map[0 := "plan"]
    requires s.cfg.deadlineMs == 7_200_000 && s.cfg.bindings == BINDINGS && s.store == [] && s.settled == []
    requires |s.records| == 1 && s.records[0].identity == CANDIDATE && s.records[0].routeIndex == 0
    requires s.records[0].state.attempts == f && s.records[0].state.finiteFailures == f && FiniteCount(s.log) == f
    ensures Stage(Dispatch(s, 0, Unparsed(f * 60_000)), f + 1)
  {
    UnparsedFailure(s, f * 60_000);
  }

  lemma FirstFailure()
    ensures Stage(Step(Start(), Unparsed(0)), 1)
  {
    StartRecords();
    FirstChoice();
    FailureReachesStage(Start(), 0);
  }

  function Start(): State {
    OrdinaryStart([Admitted(CANDIDATE, "plan")], BINDINGS, [], 0, false)
  }

  lemma StartRecords()
    ensures AdmittedRecords([Admitted(CANDIDATE, "plan")]) == [Record(CANDIDATE, 0, FRESH_STATE)]
    ensures AdmittedPlans([Admitted(CANDIDATE, "plan")]) == map[0 := "plan"]
  {
    var chain := [Admitted(CANDIDATE, "plan")];
    assert chain[..0] == [];
    assert AdmittedRecords([]) == [] && AdmittedPlans([]) == map[];
  }

  lemma WaitIsChosen(s: State, f: nat)
    requires Stage(s, f) && 1 <= f <= 3
    ensures var t := Refreshed(s, Idle(s.clockMs));
            t == s && Choose(t.cfg, t.records, t.store, s.clockMs) == WaitFor(60_000, Some(0))
  {
    var t := Refreshed(s, Idle(s.clockMs));
    assert t.records == s.records;
    assert Waits(t.records[0], StandardWait);
    assert !AnyOverload(t.records);
  }

  lemma WaitOut(s: State, f: nat)
    requires Stage(s, f) && 1 <= f <= 3
    ensures var t := Step(s, Idle(s.clockMs));
            t == s.(clockMs := f * 60_000, log := t.log) && FiniteCount(t.log) == f
  {
    var x := Idle(s.clockMs);
    WaitIsChosen(s, f);
    assert Step(s, x) == Await(s, x, Waited(Some(0), x.nowMs, 60_000));
    Snoc(s.log, Waited(Some(0), x.nowMs, 60_000), 0);
    assert Replay([], []) == [];
  }

  /** After waiting, the record is attempted. */
  lemma Retry(s: State, f: nat, x: Input)
    requires 1 <= f <= 3 && Stage(s.(clockMs := (f - 1) * 60_000), f) && s.clockMs == f * 60_000 == x.nowMs
    ensures Step(s, x) == Dispatch(Refreshed(s, x), 0, x)
    ensures Refreshed(s, x).records ==
            [Record(CANDIDATE, 0, RetryReady(f, f, 30_000, StandardWait, f * 60_000, Some(ParseError)))]
  {
    var t := Refreshed(s, x);
    assert t.records == [Record(CANDIDATE, 0, RetryReady(f, f, 30_000, StandardWait, f * 60_000, Some(ParseError)))];
    assert Ready(t.records[0], StandardWait);
    assert !AnyOverload(t.records);
    assert Choose(t.cfg, t.records, t.store, x.nowMs) == Attempt(0);
  }

  lemma NextStage(s: State, f: nat)
    requires Stage(s, f) && 1 <= f < 3
    ensures Stage(Step(Step(s, Idle(s.clockMs)), Unparsed(f * 60_000)), f + 1)
  {
    WaitOut(s, f);
    var t, x := Step(s, Idle(s.clockMs)), Unparsed(f * 60_000);
    Retry(t, f, x);
    FailureReachesStage(Refreshed(t, x), f);
  }

  lemma ThenSuspended(s: State)
    requires Stage(s, 3)
    ensures var t := Step(Step(s, Idle(s.clockMs)), TooLong(180_000));
            && t.status.Finished? && t.status.outcome.Suspended?
            && t.records == [Record(CANDIDATE, 0, ContextFailed(4, 4, 30_000, ProviderAttempt, InputContextExhausted))]
            && FiniteCount(t.log) == 4
  {
    WaitOut(s, 3);
    var t, x := Step(s, Idle(s.clockMs)), TooLong(180_000);
    Retry(t, 3, x);
    Snoc(t.log, Attempted(0, x.nowMs, x.outcome, x.settledMs), 0);
  }

  /** `f` failures, a minute apart. */
  function StageInputs(f: nat): seq<Input> {
    if f <= 1 then [Unparsed(0)]
    else StageInputs(f - 1) + [Idle((f - 2) * 60_000), Unparsed((f - 1) * 60_000)]
  }

  function Inputs(): seq<Input> {
    StageInputs(3) + [Idle(120_000), TooLong(180_000)]
  }

  lemma RunOne(s: State, xs: seq<Input>, x: Input)
    requires ValidMode(s.cfg, s.records)
    ensures Run(s, xs + [x]) == Step(Run(s, xs), x)
  {
    assert (xs + [x])[..|xs|] == xs;
  }

  lemma RunTwo(s: State, xs: seq<Input>, x: Input, y: Input)
    requires ValidMode(s.cfg, s.records)
    ensures Run(s, xs + [x, y]) == Step(Step(Run(s, xs), x), y)
  {
    RunOne(s, xs, x);
    RunOne(s, xs + [x], y);
    assert (xs + [x]) + [y] == xs + [x, y];
  }

  lemma {:induction false} StageReached(f: nat)
    requires 1 <= f <= 3
    ensures Stage(Run(Start(), StageInputs(f)), f)
  {
    if f == 1 {
      FirstFailure();
      RunOne(Start(), [], Unparsed(0));
      assert [] + [Unparsed(0)] == [Unparsed(0)];
    } else {
      StageReached(f - 1);
      StageExtends(StageInputs(f - 1), f - 1);
    }
  }

  lemma StageExtends(xs: seq<Input>, f: nat)
    requires 1 <= f < 3 && Stage(Run(Start(), xs), f)
    ensures Stage(Run(Start(), xs + [Idle((f - 1) * 60_000), Unparsed(f * 60_000)]), f + 1)
  {
    var s := Run(Start(), xs);
    NextStage(s, f);
    RunTwo(Start(), xs, Idle(s.clockMs), Unparsed(f * 60_000));
  }

  /** Three retries and a context refusal: the candidate is suspended with its finite budget spent. */
  lemma FourthFailureSuspends()
    ensures var t := Run(Start(), Inputs());
            && t.status.Finished? && t.status.outcome.Suspended?
            && t.records == [Record(CANDIDATE, 0, ContextFailed(4, 4, 30_000, ProviderAttempt, InputContextExhausted))]
            && FiniteCount(t.log) == 4
  {
    StageReached(3);
    ThenSuspended(Run(Start(), StageInputs(3)));
    RunTwo(Start(), StageInputs(3), Idle(120_000), TooLong(180_000));
  }

  /** A resumed run over the suspended candidate. */
  ghost predicate ResumedStage(s: State) {
    && s.status.Running? && !s.aborted && s.cfg.mode.Ordinary? && s.cfg.recoveryMode
    && s.records == [Record(CANDIDATE, 0, ContextFailed(4, 4, 30_000, ProviderAttempt, InputContextExhausted))]
    && s.mandatoryFirst == Some(CANDIDATE) && 0 in s.cfg.plans && s.store == []
  }

  lemma MandatoryIsChosen(s: State, nowMs: int)
    requires ResumedStage(s)
    ensures var u := Refreshed(s, Unparsed(nowMs)).(mandatoryFirst := None);
            u == s.(mandatoryFirst := None, clockMs := nowMs) && Step(s, Unparsed(nowMs)) == Dispatch(u, 0, Unparsed(nowMs))
  {
    var u := Refreshed(s, Unparsed(nowMs)).(mandatoryFirst := None);
    assert u.records == s.records;
    assert IndexOfIdentity(u.records, CANDIDATE) == Some(0);
  }

  lemma ResumedAttempt(s: State, nowMs: int)
    requires ResumedStage(s)
    ensures var t := Step(s, Unparsed(nowMs));
            && t.status.Running? && t.records[0].state == Exhausted(5, 5, 30_000, Some(ParseError))
            && FiniteCount(t.log) == FiniteCount(s.log) + 1
  {
    var x := Unparsed(nowMs);
    MandatoryIsChosen(s, nowMs);
    Snoc(s.log, Attempted(0, x.nowMs, x.outcome, x.settledMs), 0);
    assert Replay([], []) == [];
    assert IndexExchanges(s.cfg.bindings.inputId, |s.settled|, []) == [];
  }

  /** The suspended turn prepares and resumes. */
  ghost predicate Resumes(s: State, r: State) {
    && s.status.Finished? && s.status.outcome.Suspended?
    && var u := s.status.outcome.suspension;
       var p := Prepare(u, true, BINDINGS, c => Readmission(true, "smaller"));
       && p.Ok? && r == Resume(p.value, [], 200_000, false, s.log)
       && ResumedStage(r) && FiniteCount(r.log) == 4 && r.clockMs == 200_000 && Inv(r, PassAfter(u))
  }

  lemma SuspendedTurnResumes() returns (r: State)
    ensures Resumes(Run(Start(), Inputs()), r)
  {
    FourthFailureSuspends();
    var s := Run(Start(), Inputs());
    var readmit: Candidate -> Readmission := c => Readmission(true, "smaller");
    WitnessIsGood();
    SuspensionsVerify(s);
    var u := s.status.outcome.suspension;
    PreparationFailsExactly(u.records, u.settled, readmit);
    ResumeIsGood(s, BINDINGS, readmit, [], 200_000, false);
    r := Resume(Prepare(u, true, BINDINGS, readmit).value, [], 200_000, false, s.log);
  }

  /** The turn of one candidate that is suspended on its fourth failure and fails again when resumed:
      five attempts, the most 4n + 1 allows. */
  lemma FiveAttemptsHappen()
    ensures exists r ::
              && Resumes(Run(Start(), Inputs()), r)
              && var t := Run(r, [Unparsed(200_000)]);
                 FiniteCount(t.log) == 4 * 1 + 1 && t.records[0].state.finiteFailures == 5
  {
    var r := SuspendedTurnResumes();
    OneStepRun(r, Unparsed(200_000));
    ResumedAttempt(r, 200_000);
  }

  function Overload(nowMs: int): Input {
    Input(nowMs, Failed(ProviderAttempt, Overloaded, ["busy"]), nowMs, [], false)
  }

  /** The same turn, with the resumed attempt meeting server overload: the record waits for another
      attempt although its finite budget is spent. */
  lemma OverloadKeepsSpentRecordAlive()
    ensures exists r ::
              && Resumes(Run(Start(), Inputs()), r)
              && var t := Run(r, [Overload(200_000)]);
                 && t.status.Running? && t.records[0].state.RetryWaiting? && t.records[0].state.LocalOverload()
                 && t.records[0].state.finiteFailures == 4
  {
    var r := SuspendedTurnResumes();
    OneStepRun(r, Overload(200_000));
    var k := MandatoryFailureCounts(r, PassAfter(Run(Start(), Inputs()).status.outcome.suspension), Overload(200_000));
    assert k == 0;
  }

  lemma {:induction false} StageInputsChronological(f: nat)
    requires f >= 1
    ensures Chronological(0, StageInputs(f)) && LastClock(0, StageInputs(f)) == (f - 1) * 60_000
    ensures StageInputs(f) != []
  {
    if f > 1 { StageInputsChronological(f - 1); }
  }

  lemma InputsAreChronological()
    ensures Chronological(0, Inputs()) && LastClock(0, Inputs()) == 180_000
  {
    StageInputsChronological(3);
  }

  lemma AnyRunIsGood(xs: seq<Input>)
    requires Chronological(0, xs)
    ensures Good(Run(Start(), xs), FirstPass) && Run(Start(), xs).clockMs <= LastClock(0, xs)
  {
    OrdinaryStartIsGood([Admitted(CANDIDATE, "plan")], BINDINGS, [], 0, false);
    RunIsSafe(Start(), xs, FirstPass);
  }

  lemma WitnessIsGood()
    ensures Good(Run(Start(), Inputs()), FirstPass) && Run(Start(), Inputs()).clockMs <= 180_000
    ensures Run(Start(), Inputs()).cfg == Start().cfg
  {
    InputsAreChronological();
    AnyRunIsGood(Inputs());
  }
}
