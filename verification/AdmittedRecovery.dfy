/** Starting a run, suspending it on context exhaustion, preparing the retained records against the
    compacted conversation, and resuming. */
module AdmittedRecovery {
  import opened Wrappers
  import opened Search
  import opened CandidateAvailability
  import opened AdmittedExecution
  import opened AttemptLedger
  import opened AdmittedExecutionInvariant

  // ---------------------------------------------------------------- starting

  /** The local admission verdict for one configured candidate. */
  datatype Verdict = Admitted(candidate: Candidate, plan: string) | Rejected(candidate: Candidate)

  ghost predicate DuplicateFree(chain: seq<Verdict>) {
    forall i, j :: 0 <= i < j < |chain| ==> chain[i].candidate != chain[j].candidate
  }

  function AdmittedRecords(chain: seq<Verdict>): seq<Record> {
    if chain == [] then []
    else
      var n := |chain| - 1;
      AdmittedRecords(chain[..n]) +
      if chain[n].Admitted? then [Record(chain[n].candidate, n, FRESH_STATE)] else []
  }

  function AdmittedPlans(chain: seq<Verdict>): map<nat, string> {
    if chain == [] then map[]
    else
      var n := |chain| - 1;
      if chain[n].Admitted? then AdmittedPlans(chain[..n])[n := chain[n].plan] else AdmittedPlans(chain[..n])
  }

  function Identities(records: seq<Record>): seq<Candidate> {
    seq(|records|, i requires 0 <= i < |records| => records[i].identity)
  }

  function OrdinaryStart(chain: seq<Verdict>, bindings: Bindings, store: Store, nowMs: int, aborted: bool): State {
    var records := AdmittedRecords(chain);
    State(
      Config(Ordinary, false, nowMs + UNAVAILABILITY_TIMEOUT_MS, Identities(records), AdmittedPlans(chain), bindings),
      records, store, [], None, None, aborted, nowMs, [], Running)
  }

  function PinnedStart(c: Candidate, plan: string, bindings: Bindings, store: Store, nowMs: int, aborted: bool): State {
    State(
      Config(Pinned, false, nowMs + UNAVAILABILITY_TIMEOUT_MS, [c], map[0 := plan], bindings),
      [Record(c, 0, FRESH_STATE)], store, [], None, None, aborted, nowMs, [], Running)
  }

  lemma {:induction false} AdmittedRecordsInOrder(chain: seq<Verdict>)
    requires DuplicateFree(chain)
    ensures var rs := AdmittedRecords(chain);
            && (forall i :: 0 <= i < |rs| ==>
                  && rs[i].routeIndex < |chain| && rs[i].identity == chain[rs[i].routeIndex].candidate
                  && rs[i].state == FRESH_STATE && rs[i].routeIndex in AdmittedPlans(chain))
            && (forall i, j :: 0 <= i < j < |rs| ==> rs[i].routeIndex < rs[j].routeIndex)
            && SumOf(rs, FiniteFailuresOf) == 0
  {
    if chain != [] {
      var n := |chain| - 1;
      AdmittedRecordsInOrder(chain[..n]);
      var before, rs := AdmittedRecords(chain[..n]), AdmittedRecords(chain);
      if chain[n].Admitted? {
        assert rs[..|rs| - 1] == before;
        assert SumOf(rs, FiniteFailuresOf) == SumOf(before, FiniteFailuresOf) + FRESH_STATE.finiteFailures;
      } else {
        assert rs == before;
      }
    }
  }

  /** No admitted candidate is left out, and each has the plan it was admitted with. */
  lemma {:induction false} AdmittedAreRecorded(chain: seq<Verdict>, p: nat)
    requires p < |chain| && chain[p].Admitted?
    ensures p in AdmittedPlans(chain) && AdmittedPlans(chain)[p] == chain[p].plan
    ensures Record(chain[p].candidate, p, FRESH_STATE) in AdmittedRecords(chain)
  {
    var n := |chain| - 1;
    if p < n {
      AdmittedAreRecorded(chain[..n], p);
    }
  }

  lemma {:induction false} OnlyAdmittedAreRecorded(chain: seq<Verdict>)
    ensures forall r :: r in AdmittedRecords(chain) ==> r.routeIndex < |chain| && chain[r.routeIndex].Admitted?
  {
    if chain != [] { OnlyAdmittedAreRecorded(chain[..|chain| - 1]); }
  }

  lemma FreshRecordOk(r: Record, i: nat, clockMs: int, pass: Pass, mode: Mode)
    requires r.state == FRESH_STATE
    ensures RecordOk(r, [], i, clockMs, pass, mode)
  {
    assert PowerOfTwo(0) == 1;
  }

  /** A run with no history over untried records. */
  ghost predicate Unstarted(s: State) {
    && s.status.Running? && s.log == [] && s.settled == [] && s.mandatoryFirst.None?
    && !s.cfg.recoveryMode
    && forall i :: 0 <= i < |s.records| ==> s.records[i].state == FRESH_STATE
  }

  lemma UnstartedIsGood(s: State)
    requires Unstarted(s) && ValidMode(s.cfg, s.records) && WellFormed(s.store)
    requires Membership(s.records, s.cfg.authority) && PlansRetained(s) && SumOf(s.records, FiniteFailuresOf) == 0
    ensures Inv(s, FirstPass)
  {
    forall i | 0 <= i < |s.records|
      ensures RecordOk(s.records[i], s.log, i, s.clockMs, FirstPass, s.cfg.mode)
    {
      FreshRecordOk(s.records[i], i, s.clockMs, FirstPass, s.cfg.mode);
    }
    assert EvidenceKept(s);
  }

  /** An ordinary run starts with two hours' time over exactly the admitted candidates, in route order,
      each untried under its route index and with the plan it was admitted with. */
  ghost predicate StartsOver(s: State, chain: seq<Verdict>, nowMs: int) {
    && s.cfg.mode.Ordinary? && s.cfg.deadlineMs == nowMs + 7_200_000 && s.clockMs == nowMs
    && (forall i :: 0 <= i < |s.records| ==>
          && s.records[i].routeIndex < |chain| && chain[s.records[i].routeIndex].Admitted?
          && s.records[i].identity == chain[s.records[i].routeIndex].candidate
          && s.records[i].state == Untried(0, 0, 30_000))
    && (forall i, j :: 0 <= i < j < |s.records| ==> s.records[i].routeIndex < s.records[j].routeIndex)
    && (forall p :: 0 <= p < |chain| && chain[p].Admitted? ==>
          && Record(chain[p].candidate, p, Untried(0, 0, 30_000)) in s.records
          && p in s.cfg.plans && s.cfg.plans[p] == chain[p].plan)
  }

  lemma OrdinaryStartIsGood(chain: seq<Verdict>, bindings: Bindings, store: Store, nowMs: int, aborted: bool)
    requires DuplicateFree(chain) && WellFormed(store)
    ensures Inv(OrdinaryStart(chain, bindings, store, nowMs, aborted), FirstPass)
  {
    AdmittedRecordsInOrder(chain);
    UnstartedIsGood(OrdinaryStart(chain, bindings, store, nowMs, aborted));
  }

  lemma OrdinaryStartIsComplete(chain: seq<Verdict>, bindings: Bindings, store: Store, nowMs: int, aborted: bool)
    requires DuplicateFree(chain)
    ensures StartsOver(OrdinaryStart(chain, bindings, store, nowMs, aborted), chain, nowMs)
  {
    var s := OrdinaryStart(chain, bindings, store, nowMs, aborted);
    AdmittedRecordsInOrder(chain);
    OnlyAdmittedAreRecorded(chain);
    forall i | 0 <= i < |s.records| ensures chain[s.records[i].routeIndex].Admitted? {
      assert s.records[i] in AdmittedRecords(chain);
    }
    forall p | 0 <= p < |chain| && chain[p].Admitted?
      ensures Record(chain[p].candidate, p, Untried(0, 0, 30_000)) in s.records
      ensures p in s.cfg.plans && s.cfg.plans[p] == chain[p].plan
    {
      AdmittedAreRecorded(chain, p);
    }
  }

  /** A pinned run starts with two hours' time over its one candidate, on route 0 and with its plan. */
  lemma PinnedStartIsComplete(c: Candidate, plan: string, bindings: Bindings, store: Store, nowMs: int, aborted: bool)
    ensures var s := PinnedStart(c, plan, bindings, store, nowMs, aborted);
            && s.cfg.mode.Pinned? && s.cfg.deadlineMs == nowMs + 7_200_000 && s.clockMs == nowMs
            && s.records == [Record(c, 0, Untried(0, 0, 30_000))]
            && s.cfg.plans.Keys == {0} && s.cfg.plans[0] == plan
  {
  }

  lemma PinnedStartIsGood(c: Candidate, plan: string, bindings: Bindings, store: Store, nowMs: int, aborted: bool)
    requires WellFormed(store)
    ensures Inv(PinnedStart(c, plan, bindings, store, nowMs, aborted), FirstPass)
  {
    var s := PinnedStart(c, plan, bindings, store, nowMs, aborted);
    assert s.records[..0] == [];
    UnstartedIsGood(s);
  }

  // ---------------------------------------------------------------- verifying a suspension

  predicate AccountingValid(st: AttemptState) {
    && st.finiteFailures <= st.attempts
    && st.overloadDelayMs in {30_000, 60_000, 120_000, 240_000, 480_000, 600_000}
  }

  predicate SettledValid(settled: seq<Exchange>, inputId: string) {
    forall i :: 0 <= i < |settled| ==> settled[i].sourceInputId == inputId && settled[i].attemptIndex == i
  }

  predicate NoDuplicates(cs: seq<Candidate>) {
    forall i, j :: 0 <= i < j < |cs| ==> cs[i] != cs[j]
  }

  predicate OneContextFailed(u: Suspension) {
    exists i :: 0 <= i < |u.records| && u.records[i].state.ContextFailed? && u.records[i].identity == u.contextFailed
      && u.records[i].state.phase.ProviderAttempt?
      && forall j :: 0 <= j < |u.records| && j != i ==> !u.records[j].state.ContextFailed?
  }

  /** Every check made on a suspension before it is prepared, but the one of the authority's hash. */
  predicate Verified(u: Suspension) {
    && |u.authority| > 0
    && NoDuplicates(u.authority)
    && |u.records| == |u.authority|
    && (forall i :: 0 <= i < |u.records| ==> u.records[i].identity == u.authority[i] && AccountingValid(u.records[i].state))
    && (forall i :: 0 < i < |u.records| ==> u.records[i - 1].routeIndex < u.records[i].routeIndex)
    && OneContextFailed(u)
    && SettledValid(u.settled, u.bindings.inputId)
    && u.deadlineMs > 0
  }

  predicate IsContextFailed(r: Record) {
    r.state.ContextFailed?
  }

  /** The state a suspension must be in: records and authority in step, in route order and without
      duplicates; counters that some history accounts for; evidence indexed in order under the input id;
      and exactly one record refused by a provider, the one it names. */
  ghost predicate Intact(u: Suspension) {
    && u.authority != [] && u.deadlineMs > 0
    && Membership(u.records, u.authority)
    && (forall i :: 0 <= i < |u.records| ==>
          && u.records[i].state.finiteFailures <= u.records[i].state.attempts
          && exists k: nat :: k >= 1 && u.records[i].state.overloadDelayMs == Backoff(k))
    && u.settled == IndexExchanges(u.bindings.inputId, 0, seq(|u.settled|, i requires 0 <= i < |u.settled| => u.settled[i].payload))
    && (exists i :: 0 <= i < |u.records| && IsContextFailed(u.records[i]))
    && (forall i :: 0 <= i < |u.records| && IsContextFailed(u.records[i]) ==>
          u.records[i].identity == u.contextFailed && u.records[i].state.phase.ProviderAttempt?)
  }

  lemma BackoffValues(delayMs: int)
    ensures delayMs in {30_000, 60_000, 120_000, 240_000, 480_000, 600_000} <==> exists k: nat :: k >= 1 && delayMs == Backoff(k)
  {
    assert PowerOfTwo(0) == 1 && PowerOfTwo(1) == 2 && PowerOfTwo(2) == 4;
    assert PowerOfTwo(3) == 8 && PowerOfTwo(4) == 16 && PowerOfTwo(5) == 32;
    assert Backoff(1) == 30_000 && Backoff(2) == 60_000 && Backoff(3) == 120_000;
    assert Backoff(4) == 240_000 && Backoff(5) == 480_000 && Backoff(6) == 600_000;
    forall k: nat | k >= 1 && delayMs == Backoff(k)
      ensures delayMs in {30_000, 60_000, 120_000, 240_000, 480_000, 600_000}
    {
      BackoffDoubles(k);
    }
  }

  lemma {:induction false} RouteOrderIsStepwise(records: seq<Record>, i: nat, j: nat)
    requires forall k :: 0 < k < |records| ==> records[k - 1].routeIndex < records[k].routeIndex
    requires i < j < |records|
    ensures records[i].routeIndex < records[j].routeIndex
  {
    if i < j - 1 { RouteOrderIsStepwise(records, i, j - 1); }
  }

  lemma VerifiedIsIntact(u: Suspension)
    requires Verified(u)
    ensures Intact(u)
  {
    forall i, j | 0 <= i < j < |u.records| ensures u.records[i].routeIndex < u.records[j].routeIndex {
      RouteOrderIsStepwise(u.records, i, j);
    }
    forall i | 0 <= i < |u.records| ensures exists k: nat :: k >= 1 && u.records[i].state.overloadDelayMs == Backoff(k) {
      BackoffValues(u.records[i].state.overloadDelayMs);
    }
    var i :| 0 <= i < |u.records| && u.records[i].state.ContextFailed? && u.records[i].identity == u.contextFailed
      && u.records[i].state.phase.ProviderAttempt?
      && forall j :: 0 <= j < |u.records| && j != i ==> !u.records[j].state.ContextFailed?;
    assert IsContextFailed(u.records[i]);
  }

  lemma IntactIsVerified(u: Suspension)
    requires Intact(u)
    ensures Verified(u)
  {
    forall i | 0 <= i < |u.records| ensures AccountingValid(u.records[i].state) {
      BackoffValues(u.records[i].state.overloadDelayMs);
    }
    var i :| 0 <= i < |u.records| && IsContextFailed(u.records[i]);
    forall j | 0 <= j < |u.records| && j != i ensures !u.records[j].state.ContextFailed? {
      assert u.authority[i] != u.authority[j];
      assert IsContextFailed(u.records[j]) == u.records[j].state.ContextFailed?;
    }
  }

  /** The verifier accepts exactly the intact suspensions. */
  lemma VerifiesExactly(u: Suspension)
    ensures Verified(u) <==> Intact(u)
  {
    if Verified(u) { VerifiedIsIntact(u); }
    if Intact(u) { IntactIsVerified(u); }
  }

  /** A suspension the scheduler makes always passes verification (deadlines are epoch times). */
  lemma SuspensionsVerify(s: State)
    requires Good(s, FirstPass) && s.status.Finished? && s.status.outcome.Suspended?
    requires s.cfg.deadlineMs > 0
    ensures Verified(s.status.outcome.suspension)
  {
    var u := s.status.outcome.suspension;
    var k: nat :| SuspendedAt(s, u, k);
    forall i | 0 <= i < |u.records| ensures AccountingValid(u.records[i].state) {
      assert RecordOk(s.records[i], s.log, i, s.clockMs, FirstPass, s.cfg.mode);
      BackoffDoubles(Streak(s.log, i) + 1);
    }
    assert RecordOk(s.records[k], s.log, k, s.clockMs, FirstPass, s.cfg.mode);
    assert u.records[k].state.ContextFailed? && u.records[k].identity == u.contextFailed;
  }

  // ---------------------------------------------------------------- preparing

  /** The refused record was suspended with all its finite failures used up: context exhaustion is
      accounted without a budget check. */
  predicate BudgetSpent(u: Suspension) {
    exists i :: 0 <= i < |u.records| && u.records[i].state.ContextFailed? && u.records[i].state.finiteFailures == FINITE_LIMIT
  }

  /** The pass that resumes a suspension. */
  function PassAfter(u: Suspension): Pass {
    SecondPass(u.contextFailed, BudgetSpent(u))
  }

  /** Rebuilding and admitting a request for one record against the compacted conversation. */
  datatype Readmission = Readmission(admitted: bool, plan: string)

  datatype PrepareError =
    | NotOrdinary
    | VerificationFailed
    | BindingsChanged
    | NoLongerAdmitted(routeIndex: nat)
    | MandatoryRefused(evidence: seq<Exchange>, candidate: Candidate)

  datatype Preparation = Preparation(
    authority: seq<Candidate>,
    bindings: Bindings,
    records: seq<Record>,
    plans: seq<(nat, string)>,
    mandatoryFirst: Candidate,
    settled: seq<Exchange>,
    deadlineMs: int)

  /** The plans for the records up to the first one that does not re-admit. */
  function PlansFor(records: seq<Record>, settled: seq<Exchange>, readmit: Candidate -> Readmission)
    : (r: Result<seq<(nat, string)>, PrepareError>)
  {
    if records == [] then Ok([])
    else
      var n := |records| - 1;
      match PlansFor(records[..n], settled, readmit)
      case Err(e) => Err(e)
      case Ok(plans) =>
        var r := records[n];
        if r.state.Exhausted? then Ok(plans)
        else if readmit(r.identity).admitted then Ok(plans + [(r.routeIndex, readmit(r.identity).plan)])
        else Err(Refusal(r, settled))
  }

  function Refusal(r: Record, settled: seq<Exchange>): PrepareError {
    if r.state.ContextFailed? then MandatoryRefused(settled, r.identity) else NoLongerAdmitted(r.routeIndex)
  }

  predicate Refused(r: Record, readmit: Candidate -> Readmission) {
    !r.state.Exhausted? && !readmit(r.identity).admitted
  }

  predicate FirstRefused(records: seq<Record>, readmit: Candidate -> Readmission, i: int) {
    0 <= i < |records| && Refused(records[i], readmit) && forall j :: 0 <= j < i ==> !Refused(records[j], readmit)
  }

  function Prepare(u: Suspension, ordinaryRoute: bool, bindings: Bindings, readmit: Candidate -> Readmission)
    : Result<Preparation, PrepareError>
  {
    if !ordinaryRoute then Err(NotOrdinary)
    else if !Verified(u) then Err(VerificationFailed)
    else if u.bindings != bindings then Err(BindingsChanged)
    else
      match PlansFor(u.records, u.settled, readmit)
      case Err(e) => Err(e)
      case Ok(plans) =>
        Ok(Preparation(u.authority, bindings, u.records, plans, u.contextFailed, u.settled, u.deadlineMs))
  }

  function PlanMap(plans: seq<(nat, string)>): map<nat, string> {
    if plans == [] then map[]
    else
      var n := |plans| - 1;
      PlanMap(plans[..n])[plans[n].0 := plans[n].1]
  }

  /** `log` is the history of the turn so far; the resumed loop continues it. */
  function Resume(p: Preparation, store: Store, nowMs: int, aborted: bool, log: seq<Event>): State {
    State(
      Config(Ordinary, true, p.deadlineMs, p.authority, PlanMap(p.plans), p.bindings),
      p.records, store, p.settled, None, Some(p.mandatoryFirst), aborted, nowMs, log, Running)
  }

  predicate InRouteOrder(records: seq<Record>) {
    forall i, j :: 0 <= i < j < |records| ==> records[i].routeIndex < records[j].routeIndex
  }

  /** Every record that is not exhausted has the plan of its readmission, and there are no others. */
  ghost predicate Planned(records: seq<Record>, plans: map<nat, string>, readmit: Candidate -> Readmission) {
    && (forall i :: 0 <= i < |records| && !records[i].state.Exhausted? ==>
          && readmit(records[i].identity).admitted
          && records[i].routeIndex in plans && plans[records[i].routeIndex] == readmit(records[i].identity).plan)
    && (forall p :: p in plans ==> exists i :: 0 <= i < |records| && records[i].routeIndex == p && !records[i].state.Exhausted?)
  }

  lemma {:induction false} PlansCoverRecords(records: seq<Record>, settled: seq<Exchange>, readmit: Candidate -> Readmission)
    requires PlansFor(records, settled, readmit).Ok? && InRouteOrder(records)
    ensures Planned(records, PlanMap(PlansFor(records, settled, readmit).value), readmit)
  {
    if records != [] {
      var n := |records| - 1;
      PlansCoverRecords(records[..n], settled, readmit);
      var before, all := PlansFor(records[..n], settled, readmit).value, PlansFor(records, settled, readmit).value;
      if all != before {
        assert all[..|all| - 1] == before;
      }
      PlannedOneMore(records, PlanMap(before), PlanMap(all), readmit);
    }
  }

  lemma PlannedOneMore(records: seq<Record>, before: map<nat, string>, plans: map<nat, string>, readmit: Candidate -> Readmission)
    requires records != [] && InRouteOrder(records)
    requires var n := |records| - 1;
             && Planned(records[..n], before, readmit)
             && plans == (if records[n].state.Exhausted? then before
                          else before[records[n].routeIndex := readmit(records[n].identity).plan])
             && (records[n].state.Exhausted? || readmit(records[n].identity).admitted)
    ensures Planned(records, plans, readmit)
  {
    var n := |records| - 1;
    forall i | 0 <= i < |records| && !records[i].state.Exhausted?
      ensures readmit(records[i].identity).admitted
      ensures records[i].routeIndex in plans && plans[records[i].routeIndex] == readmit(records[i].identity).plan
    {
      if i < n { assert records[..n][i] == records[i]; }
    }
    forall p | p in plans ensures exists i :: 0 <= i < |records| && records[i].routeIndex == p && !records[i].state.Exhausted? {
      if p in before {
        var i :| 0 <= i < n && records[..n][i].routeIndex == p && !records[..n][i].state.Exhausted?;
        assert records[i].routeIndex == p;
      } else {
        assert records[n].routeIndex == p;
      }
    }
  }

  /** Rebuilding the plans fails exactly when some record that is not exhausted does not re-admit, and
      then with the error of the first such record. */
  lemma {:induction false} PreparationFailsExactly(records: seq<Record>, settled: seq<Exchange>, readmit: Candidate -> Readmission)
    ensures PlansFor(records, settled, readmit).Ok? <==> forall i :: 0 <= i < |records| ==> !Refused(records[i], readmit)
    ensures PlansFor(records, settled, readmit).Err? ==>
            exists i :: FirstRefused(records, readmit, i) && PlansFor(records, settled, readmit).error == Refusal(records[i], settled)
  {
    if records != [] {
      var n := |records| - 1;
      var before := records[..n];
      PreparationFailsExactly(before, settled, readmit);
      if PlansFor(before, settled, readmit).Err? {
        var i :| FirstRefused(before, readmit, i) && PlansFor(before, settled, readmit).error == Refusal(before[i], settled);
        FirstRefusedStays(records, n, readmit, i);
        assert records[i] == before[i];
      } else {
        NoneRefusedThen(records, n, readmit);
      }
    }
  }

  lemma FirstRefusedStays(records: seq<Record>, n: nat, readmit: Candidate -> Readmission, i: int)
    requires n <= |records| && FirstRefused(records[..n], readmit, i)
    ensures FirstRefused(records, readmit, i)
  {
    assert forall j :: 0 <= j < n ==> records[..n][j] == records[j];
  }

  lemma NoneRefusedThen(records: seq<Record>, n: nat, readmit: Candidate -> Readmission)
    requires n < |records| && forall j :: 0 <= j < n ==> !Refused(records[..n][j], readmit)
    ensures forall j :: 0 <= j < n ==> !Refused(records[j], readmit)
    ensures Refused(records[n], readmit) ==> FirstRefused(records, readmit, n)
  {
    assert forall j :: 0 <= j < n ==> records[..n][j] == records[j];
  }

  /** Preparing succeeds on an ordinary route for an intact suspension under unchanged bindings whose
      records all re-admit, exhausted ones aside, and fails with the first of these that does not hold. */
  lemma PrepareExactly(u: Suspension, ordinaryRoute: bool, bindings: Bindings, readmit: Candidate -> Readmission)
    ensures var r := Prepare(u, ordinaryRoute, bindings, readmit);
            && (r.Ok? <==> ordinaryRoute && Verified(u) && u.bindings == bindings
                           && forall i :: 0 <= i < |u.records| ==> !Refused(u.records[i], readmit))
            && (r == Err(NotOrdinary) <==> !ordinaryRoute)
            && (r == Err(VerificationFailed) <==> ordinaryRoute && !Verified(u))
            && (r == Err(BindingsChanged) <==> ordinaryRoute && Verified(u) && u.bindings != bindings)
            && (r.Err? && ordinaryRoute && Verified(u) && u.bindings == bindings ==>
                  exists i :: FirstRefused(u.records, readmit, i)
                    && r.error == if u.records[i].state.ContextFailed? then MandatoryRefused(u.settled, u.records[i].identity)
                                  else NoLongerAdmitted(u.records[i].routeIndex))
  {
    PreparationFailsExactly(u.records, u.settled, readmit);
  }

  /** A resumed run has the plan of its readmission for every record it can attempt, and no other plans. */
  lemma ResumedPlans(
    s: State, bindings: Bindings, readmit: Candidate -> Readmission, store: Store, nowMs: int, aborted: bool)
    requires Good(s, FirstPass) && s.status.Finished? && s.status.outcome.Suspended?
    requires Prepare(s.status.outcome.suspension, true, bindings, readmit).Ok?
    ensures var p := Prepare(s.status.outcome.suspension, true, bindings, readmit).value;
            var t := Resume(p, store, nowMs, aborted, s.log);
            Planned(t.records, t.cfg.plans, readmit)
  {
    var u := s.status.outcome.suspension;
    PlansCoverRecords(u.records, u.settled, readmit);
  }

  lemma PlannedIsRetained(t: State, readmit: Candidate -> Readmission)
    requires Planned(t.records, t.cfg.plans, readmit)
    ensures PlansRetained(t)
  {
  }

  /** The budget of a record carries over: only the refused one may exceed it, and only if it was spent. */
  lemma ResumedRecordOk(s: State, u: Suspension, k: nat, i: nat, nowMs: int)
    requires Core(s, FirstPass) && SuspendedAt(s, u, k) && s.cfg.mode.Ordinary? && i < |s.records| && s.clockMs <= nowMs
    ensures RecordOk(s.records[i], s.log, i, nowMs, PassAfter(u), Ordinary)
  {
    assert RecordOk(s.records[i], s.log, i, s.clockMs, FirstPass, Ordinary);
    assert i != k ==> s.cfg.authority[i] != s.cfg.authority[k];
  }

  /** A resumed run starts from the invariant: every record it can still attempt has a plan, the
      refused record is the mandatory first, and budgets, backoff, deadline and evidence are those of
      the suspended run. */
  lemma ResumeIsGood(
    s: State, bindings: Bindings, readmit: Candidate -> Readmission, store: Store, nowMs: int, aborted: bool)
    requires Good(s, FirstPass) && s.status.Finished? && s.status.outcome.Suspended?
    requires WellFormed(store) && s.clockMs <= nowMs
    requires Prepare(s.status.outcome.suspension, true, bindings, readmit).Ok?
    ensures var p := Prepare(s.status.outcome.suspension, true, bindings, readmit).value;
            var t := Resume(p, store, nowMs, aborted, s.log);
            && Inv(t, PassAfter(s.status.outcome.suspension)) && t.mandatoryFirst == Some(p.mandatoryFirst)
            && t.records == s.records && t.settled == s.settled
            && t.cfg.deadlineMs == s.cfg.deadlineMs && t.cfg.bindings == s.cfg.bindings
  {
    var u := s.status.outcome.suspension;
    var k: nat :| SuspendedAt(s, u, k);
    var p := Prepare(u, true, bindings, readmit).value;
    var t := Resume(p, store, nowMs, aborted, s.log);
    assert PlansRetained(t) by {
      ResumedPlans(s, bindings, readmit, store, nowMs, aborted);
      PlannedIsRetained(t, readmit);
    }
    forall i | 0 <= i < |t.records|
      ensures RecordOk(t.records[i], t.log, i, t.clockMs, PassAfter(u), Ordinary)
    {
      ResumedRecordOk(s, u, k, i, nowMs);
    }
    assert t.records[k].identity == p.mandatoryFirst && t.records[k].state.ContextFailed?;
  }
}
