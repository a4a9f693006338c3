/** The scheduling loop ends unless the provider keeps answering with server overload forever. */
module AdmittedTermination {
  import opened Wrappers
  import opened Search
  import opened CandidateAvailability
  import opened RecoveryPolicy
  import opened AdmittedExecution
  import opened AttemptLedger
  import opened AdmittedExecutionInvariant
  import opened AdmittedExecutionSelection
  import opened AdmittedTurn

  /** The state after `k` iterations against an endless environment. */
  function At(s: State, env: nat -> Input, k: nat): (r: State)
    requires ValidMode(s.cfg, s.records)
    ensures r.cfg == s.cfg && |r.records| == |s.records|
  {
    if k == 0 then s else Step(At(s, env, k - 1), env(k - 1))
  }

  predicate ChoosesToWait(s: State, x: Input)
    requires ValidMode(s.cfg, s.records)
  {
    && !s.aborted && s.mandatoryFirst.None?
    && Choose(s.cfg, Refreshed(s, x).records, s.store, x.nowMs).WaitFor?
  }

  /** The clock does not go back, and a delay that was asked for takes at least a millisecond. */
  ghost predicate Timely(s: State, x: Input)
    requires ValidMode(s.cfg, s.records)
  {
    ClockOk(s, x) && (ChoosesToWait(s, x) ==> x.nowMs < x.settledMs)
  }

  // ---------------------------------------------------------------- the measure

  function OverloadSlack(r: Record, clockMs: int): nat {
    if r.state.LocalOverload() then Max(0, r.state.untilMs - clockMs) else 0
  }

  /** Time left until the deadline, plus the time left to each overloaded record's due time. */
  function TimeLeft(s: State): nat {
    Max(0, s.cfg.deadlineMs - s.clockMs) + SumOf(s.records, (r: Record) => OverloadSlack(r, s.clockMs))
  }

  function ReadyAfterRefresh(r: Record, store: Store, clockMs: int, deadlineMs: int, mode: Mode): nat {
    var state := RefreshRecord(r, store, clockMs, deadlineMs, mode).state;
    if state.RetryReady? && !state.LocalOverload() then 1 else 0
  }

  /** Finite records the next refresh will find ready, still to be checked against the store. */
  function ReadyLeft(s: State): nat {
    SumOf(s.records, (r: Record) => ReadyAfterRefresh(r, s.store, s.clockMs, s.cfg.deadlineMs, s.cfg.mode))
  }

  /** Same attempts so far, and the rest of the measure has gone down. */
  ghost predicate Descends(s: State, t: State) {
    && AttemptCount(t.log) == AttemptCount(s.log)
    && (TimeLeft(t) < TimeLeft(s) || (TimeLeft(t) == TimeLeft(s) && ReadyLeft(t) < ReadyLeft(s)))
  }

  lemma CountSnoc(log: seq<Event>, e: Event)
    ensures AttemptCount(log + [e]) == AttemptCount(log) + if e.Attempted? then 1 else 0
  {
    Snoc(log, e, 0);
  }

  // ---------------------------------------------------------------- time

  lemma TimePasses(s: State, t: State)
    requires s.cfg == t.cfg && |s.records| == |t.records| && s.clockMs <= t.clockMs
    requires forall i :: 0 <= i < |s.records| ==> OverloadSlack(t.records[i], t.clockMs) <= OverloadSlack(s.records[i], s.clockMs)
    ensures TimeLeft(t) <= TimeLeft(s)
    ensures s.clockMs < t.clockMs && s.clockMs < s.cfg.deadlineMs ==> TimeLeft(t) < TimeLeft(s)
    ensures (exists i :: 0 <= i < |s.records| && OverloadSlack(t.records[i], t.clockMs) < OverloadSlack(s.records[i], s.clockMs)) ==>
              TimeLeft(t) < TimeLeft(s)
  {
    var f := (r: Record) => OverloadSlack(r, s.clockMs);
    var g := (r: Record) => OverloadSlack(r, t.clockMs);
    forall i | 0 <= i < |s.records| ensures g(t.records[i]) <= f(s.records[i]) {}
    SumCompare(t.records, g, s.records, f);
    if i :| 0 <= i < |s.records| && OverloadSlack(t.records[i], t.clockMs) < OverloadSlack(s.records[i], s.clockMs) {
      assert g(t.records[i]) < f(s.records[i]);
    }
  }

  lemma RefreshKeepsSlack(r: Record, store: Store, clockMs: int, nowMs: int, deadlineMs: int, mode: Mode)
    requires clockMs <= nowMs
    ensures OverloadSlack(RefreshRecord(r, store, nowMs, deadlineMs, mode), nowMs) <= OverloadSlack(r, clockMs)
  {
  }

  lemma RefreshTakesNoTime(s: State, x: Input)
    requires ClockOk(s, x)
    ensures TimeLeft(Refreshed(s, x)) <= TimeLeft(s)
    ensures s.clockMs < x.nowMs && s.clockMs < s.cfg.deadlineMs ==> TimeLeft(Refreshed(s, x)) < TimeLeft(s)
  {
    var t := Refreshed(s, x);
    forall i | 0 <= i < |s.records|
      ensures OverloadSlack(t.records[i], t.clockMs) <= OverloadSlack(s.records[i], s.clockMs)
    {
      RefreshKeepsSlack(s.records[i], s.store, s.clockMs, x.nowMs, s.cfg.deadlineMs, s.cfg.mode);
    }
    TimePasses(s, t);
  }

  /** A wait is chosen before the deadline, or for an overloaded record that is not due yet. */
  lemma WaitHasPurpose(t: State, pass: Pass)
    requires Inv(t, pass)
    requires t.cfg.mode.Ordinary? ==> AllFresh(t.records, t.store, t.clockMs, t.cfg.deadlineMs)
    requires t.cfg.mode.Pinned? && t.records[0].state.RetryWaiting? ==> t.records[0].state.untilMs > t.clockMs
    requires Choose(t.cfg, t.records, t.store, t.clockMs).WaitFor?
    ensures t.clockMs < t.cfg.deadlineMs || exists i :: 0 <= i < |t.records| && OverloadSlack(t.records[i], t.clockMs) > 0
  {
    if t.cfg.mode.Pinned? {
      assert RecordOk(t.records[0], t.log, 0, t.clockMs, pass, Pinned);
      assert OverloadSlack(t.records[0], t.clockMs) > 0;
    } else if AnyOverload(t.records) {
      var o :| 0 <= o < |t.records| && t.records[o].state.LocalOverload();
      assert !ReadyOverload(t.records[o]);
      assert Fresh(t.records[o], t.store, t.clockMs, t.cfg.deadlineMs);
      assert OverloadSlack(t.records[o], t.clockMs) > 0;
    }
  }

  lemma WaitDescends(t: State, x: Input, owner: Option<nat>, waitMs: int)
    requires t.clockMs == x.nowMs < x.settledMs
    requires t.clockMs < t.cfg.deadlineMs || exists i :: 0 <= i < |t.records| && OverloadSlack(t.records[i], t.clockMs) > 0
    ensures var u := Await(t, x, Waited(owner, x.nowMs, waitMs));
            AttemptCount(u.log) == AttemptCount(t.log) && TimeLeft(u) < TimeLeft(t)
  {
    var u := Await(t, x, Waited(owner, x.nowMs, waitMs));
    CountSnoc(t.log, Waited(owner, x.nowMs, waitMs));
    if t.clockMs >= t.cfg.deadlineMs {
      var i :| 0 <= i < |t.records| && OverloadSlack(t.records[i], t.clockMs) > 0;
      assert OverloadSlack(u.records[i], u.clockMs) < OverloadSlack(t.records[i], t.clockMs);
    }
    TimePasses(t, u);
  }

  // ---------------------------------------------------------------- setting a record aside

  lemma RefreshIsIdempotent(r: Record, store: Store, nowMs: int, deadlineMs: int, mode: Mode)
    ensures var once := RefreshRecord(r, store, nowMs, deadlineMs, mode);
            RefreshRecord(once, store, nowMs, deadlineMs, mode) == once
  {
  }

  /** Only a finite retry record can turn out unavailable, and only before the deadline. */
  lemma OnlyReadyIsSetAside(t: State)
    requires t.cfg.mode.Ordinary? && AllFresh(t.records, t.store, t.clockMs, t.cfg.deadlineMs)
    ensures var c := Choose(t.cfg, t.records, t.store, t.clockMs);
            c.Attempt? && MustReclassify(t.cfg, t.records[c.index], t.store, t.clockMs) ==>
              t.records[c.index].state.RetryReady? && t.clockMs < t.cfg.deadlineMs
  {
    var c := Choose(t.cfg, t.records, t.store, t.clockMs);
    if c.Attempt? {
      assert Fresh(t.records[c.index], t.store, t.clockMs, t.cfg.deadlineMs);
    }
  }

  lemma ReclassifiedIsNotReady(r: Record, store: Store, nowMs: int, deadlineMs: int)
    requires r.state.RetryReady? && !r.state.LocalOverload() && !IsAvailable(store, r.identity, nowMs) && nowMs < deadlineMs
    ensures ReadyAfterRefresh(Reclassify(r, store), store, nowMs, deadlineMs, Ordinary) == 0
    ensures ReadyAfterRefresh(r, store, nowMs, deadlineMs, Ordinary) == 1
  {
  }

  lemma SetAsideDescends(t: State, i: nat)
    requires i < |t.records| && t.cfg.mode.Ordinary? && t.clockMs < t.cfg.deadlineMs
    requires t.records[i].state.RetryReady? && MustReclassify(t.cfg, t.records[i], t.store, t.clockMs)
    ensures Descends(t, SetAside(t, i)) && TimeLeft(SetAside(t, i)) == TimeLeft(t)
  {
    var u := SetAside(t, i);
    CountSnoc(t.log, Reclassified(i));
    var slack := (r: Record) => OverloadSlack(r, t.clockMs);
    SumUpdate(t.records, slack, i, u.records[i]);
    assert slack(t.records[i]) == 0 == slack(u.records[i]);
    var ready := (r: Record) => ReadyAfterRefresh(r, t.store, t.clockMs, t.cfg.deadlineMs, t.cfg.mode);
    ReclassifiedIsNotReady(t.records[i], t.store, t.clockMs, t.cfg.deadlineMs);
    SumUpdate(t.records, ready, i, u.records[i]);
    assert ready(u.records[i]) == 0 && ready(t.records[i]) == 1;
  }

  /** Refreshing at the same instant changes nothing that is counted. */
  lemma RefreshKeepsReadyLeft(s: State, x: Input)
    requires x.nowMs == s.clockMs
    ensures ReadyLeft(Refreshed(s, x)) == ReadyLeft(s)
  {
    var t := Refreshed(s, x);
    var f := (r: Record) => ReadyAfterRefresh(r, s.store, s.clockMs, s.cfg.deadlineMs, s.cfg.mode);
    var g := (r: Record) => ReadyAfterRefresh(r, t.store, t.clockMs, t.cfg.deadlineMs, t.cfg.mode);
    forall i | 0 <= i < |s.records| ensures g(t.records[i]) == f(s.records[i]) {
      RefreshIsIdempotent(s.records[i], s.store, x.nowMs, s.cfg.deadlineMs, s.cfg.mode);
    }
    SumEqual(t.records, g, s.records, f);
  }

  // ---------------------------------------------------------------- every iteration makes progress

  lemma ScheduledDescends(t: State, x: Input, pass: Pass)
    requires Inv(t, pass) && t.mandatoryFirst.None? && t.clockMs == x.nowMs <= x.settledMs
    requires t.cfg.mode.Ordinary? ==> AllFresh(t.records, t.store, t.clockMs, t.cfg.deadlineMs)
    requires t.cfg.mode.Pinned? && t.records[0].state.RetryWaiting? ==> t.records[0].state.untilMs > t.clockMs
    requires Choose(t.cfg, t.records, t.store, x.nowMs).WaitFor? ==> x.nowMs < x.settledMs
    ensures var u := Scheduled(t, x);
            || u.status.Finished?
            || AttemptCount(u.log) == AttemptCount(t.log) + 1
            || (AttemptCount(u.log) == AttemptCount(t.log) && TimeLeft(u) < TimeLeft(t))
            || (t.clockMs < t.cfg.deadlineMs && TimeLeft(u) == TimeLeft(t) && Descends(t, u))
  {
    var c := Choose(t.cfg, t.records, t.store, x.nowMs);
    if c.WaitFor? {
      WaitHasPurpose(t, pass);
      WaitDescends(t, x, c.owner, c.waitMs);
    } else if c.Attempt? {
      if MustReclassify(t.cfg, t.records[c.index], t.store, x.nowMs) {
        OnlyReadyIsSetAside(t);
        SetAsideDescends(t, c.index);
      } else {
        var i := ScheduledAnatomy(t, x, pass);
        CountSnoc(t.log, Attempted(c.index, x.nowMs, x.outcome, x.settledMs));
      }
    }
  }

  lemma RefreshedIsFresh(s: State, x: Input)
    requires ValidMode(s.cfg, s.records)
    ensures var t := Refreshed(s, x);
            && (t.cfg.mode.Ordinary? ==> AllFresh(t.records, t.store, t.clockMs, t.cfg.deadlineMs))
            && (t.cfg.mode.Pinned? && t.records[0].state.RetryWaiting? ==> t.records[0].state.untilMs > t.clockMs)
  {
    if s.cfg.mode.Ordinary? {
      RefreshAllFresh(s.records, s.store, x.nowMs, s.cfg.deadlineMs);
    }
  }

  /** Each iteration ends the run, makes an attempt, or lowers the lexicographic measure of time left
      and ready records left. */
  lemma StepProgresses(s: State, x: Input, pass: Pass)
    requires Inv(s, pass) && Timely(s, x)
    ensures var t := Step(s, x);
            t.status.Finished? || AttemptCount(t.log) == AttemptCount(s.log) + 1 || Descends(s, t)
  {
    if !s.aborted {
      var t := Refreshed(s, x);
      RefreshKeepsInv(s, x, pass);
      if s.mandatoryFirst.Some? {
        MandatoryIsReady(t, pass);
        var i := IndexOfIdentity(t.records, s.mandatoryFirst.value).value;
        CountSnoc(s.log, Attempted(i, x.nowMs, x.outcome, x.settledMs));
      } else {
        RefreshedIsFresh(s, x);
        RefreshTakesNoTime(s, x);
        ScheduledDescends(t, x, pass);
        if x.nowMs == s.clockMs { RefreshKeepsReadyLeft(s, x); }
      }
    }
  }

  lemma {:induction false} EndsFrom(s: State, env: nat -> Input, k: nat, overloads: nat, pass: Pass)
    returns (n: nat)
    requires ValidMode(s.cfg, s.records) && Inv(At(s, env, k), pass)
    requires forall j :: At(s, env, j).status.Running? ==> Timely(At(s, env, j), env(j))
    requires forall j :: OverloadCount(At(s, env, j).log) <= overloads
    ensures At(s, env, n).status.Finished?
    ensures FiniteCount(At(s, env, n).log) <= Limit(|s.records|, pass)
    decreases overloads + Limit(|s.records|, pass) - AttemptCount(At(s, env, k).log),
              TimeLeft(At(s, env, k)), ReadyLeft(At(s, env, k))
  {
    var here, x := At(s, env, k), env(k);
    var next := At(s, env, k + 1);
    assert next == Step(here, x);
    assert Timely(here, x);
    StepKeepsGood(here, x, pass);
    StepWithinLimit(here, x, pass);
    CoreWithinLimit(here, pass);
    assert OverloadCount(here.log) <= overloads && OverloadCount(next.log) <= overloads;
    if next.status.Finished? {
      n := k + 1;
    } else {
      StepProgresses(here, x, pass);
      n := EndsFrom(s, env, k + 1, overloads, pass);
    }
  }

  /** Whatever the clock, the shared store and the providers do, a run in which only `overloads`
      attempts meet server overload ends, after at most 4 attempts per record besides those (one more in
      all when it resumes a suspension whose refused record had its budget spent). */
  lemma RunEnds(s: State, env: nat -> Input, overloads: nat, pass: Pass)
    requires Inv(s, pass)
    requires forall j :: At(s, env, j).status.Running? ==> Timely(At(s, env, j), env(j))
    requires forall j :: OverloadCount(At(s, env, j).log) <= overloads
    ensures exists n :: At(s, env, n).status.Finished?
              && AttemptCount(At(s, env, n).log) <= 4 * |s.records| + (if pass.SecondPass? && pass.spent then 1 else 0) + overloads
  {
    assert At(s, env, 0) == s;
    var n := EndsFrom(s, env, 0, overloads, pass);
    assert OverloadCount(At(s, env, n).log) <= overloads;
  }

  // ---------------------------------------------------------------- giving up

  ghost predicate GivesUp(s: State, t: State) {
    t.status.Finished? && t.log == s.log
  }

  lemma WaitGoesOn(t: State, x: Input)
    requires t.status.Running? && ValidMode(t.cfg, t.records)
    requires Choose(t.cfg, t.records, t.store, x.nowMs).WaitFor?
    ensures !GivesUp(t, Scheduled(t, x))
  {
  }

  lemma ChosenHasPlan(t: State, nowMs: int, pass: Pass)
    requires Inv(t, pass)
    requires Choose(t.cfg, t.records, t.store, nowMs).Attempt?
    ensures t.records[Choose(t.cfg, t.records, t.store, nowMs).index].routeIndex in t.cfg.plans
  {
    assert t.cfg.mode.Pinned? ==> RecordOk(t.records[0], t.log, 0, t.clockMs, pass, t.cfg.mode);
    ChoiceIsEligible(t.cfg, t.records, t.store, nowMs);
  }

  lemma AttemptIsLogged(t: State, x: Input, pass: Pass)
    requires Inv(t, pass)
    requires Choose(t.cfg, t.records, t.store, x.nowMs).Attempt?
    ensures |Scheduled(t, x).log| == |t.log| + 1
  {
    ChosenHasPlan(t, x.nowMs, pass);
  }

  lemma EndsWithoutAttempt(t: State, x: Input, pass: Pass)
    requires Inv(t, pass) && t.mandatoryFirst.None? && t.clockMs == x.nowMs
    ensures var c := Choose(t.cfg, t.records, t.store, x.nowMs);
            GivesUp(t, Scheduled(t, x)) <==> c.TimeIsUp? || c.NothingLeft?
  {
    var c := Choose(t.cfg, t.records, t.store, x.nowMs);
    if c.Attempt? {
      AttemptIsLogged(t, x, pass);
    } else if c.WaitFor? {
      WaitGoesOn(t, x);
    }
  }

  /** No premature give-up: an iteration of an ordinary run that is not aborted and owes no mandatory
      attempt ends the run without an attempt exactly when every record, as it stands before the refresh,
      is exhausted, out of time or blocked in the store for a reason that does not pass. */
  lemma GivesUpOnlyWhenHopeless(s: State, x: Input, pass: Pass)
    requires Inv(s, pass) && ClockOk(s, x)
    requires s.cfg.mode.Ordinary? && !s.aborted && s.mandatoryFirst.None?
    ensures GivesUp(s, Step(s, x)) <==> AllSpent(s, x.nowMs)
  {
    RefreshKeepsInv(s, x, pass);
    EndsWithoutAttempt(Refreshed(s, x), x, pass);
    GivesUpExactlyWhenHopeless(s, x);
  }
}
