/** What the scheduler's choice guarantees: it gives up exactly when nothing can become available,
    it never waits for nothing or past what it waits for, and it respects the availability store. */
module AdmittedExecutionSelection {
  import opened Wrappers
  import opened Search
  import opened CandidateAvailability
  import opened RecoveryPolicy
  import opened AdmittedExecution
  import opened AdmittedRefresh

  /** No attempt can ever come of this record without help from another invocation. */
  predicate Hopeless(r: Record, store: Store, nowMs: int) {
    || r.state.Exhausted?
    || ((r.state.Untried? || r.state.TemporarilyUnavailable?)
        && !IsAvailable(store, r.identity, nowMs)
        && !Waitable(GetEntry(store, r.identity).value.reason))
  }

  /** What `Refresh` leaves behind, one record at a time. */
  predicate Fresh(r: Record, store: Store, nowMs: int, deadlineMs: int) {
    var s := r.state;
    var entry := GetEntry(store, r.identity);
    && (s.Untried? ==> IsAvailable(store, r.identity, nowMs) || !Waitable(entry.value.reason))
    && (s.RetryWaiting? ==> s.untilMs > nowMs)
    && (s.TemporarilyUnavailable? ==>
          !IsAvailable(store, r.identity, nowMs) && s.untilMs == entry.value.untilMs)
    && (nowMs >= deadlineMs && !s.LocalOverload() ==>
          !s.RetryWaiting? && !s.RetryReady? && !s.TemporarilyUnavailable?)
  }

  ghost predicate AllFresh(records: seq<Record>, store: Store, nowMs: int, deadlineMs: int) {
    forall i :: 0 <= i < |records| ==> Fresh(records[i], store, nowMs, deadlineMs)
  }

  ghost predicate NoContextFailed(records: seq<Record>) {
    forall i :: 0 <= i < |records| ==> !records[i].state.ContextFailed?
  }

  lemma RefreshIsFresh(r: Record, store: Store, nowMs: int, deadlineMs: int)
    ensures Fresh(RefreshRecord(r, store, nowMs, deadlineMs, Ordinary), store, nowMs, deadlineMs)
  {
  }

  lemma RefreshAllFresh(records: seq<Record>, store: Store, nowMs: int, deadlineMs: int)
    ensures AllFresh(Refresh(records, store, nowMs, deadlineMs, Ordinary), store, nowMs, deadlineMs)
  {
    forall i | 0 <= i < |records|
      ensures Fresh(Refresh(records, store, nowMs, deadlineMs, Ordinary)[i], store, nowMs, deadlineMs)
    {
      RefreshIsFresh(records[i], store, nowMs, deadlineMs);
    }
  }

  // ---------------------------------------------------------------- giving up

  lemma HopelessMeansGivingUp(records: seq<Record>, store: Store, nowMs: int, deadlineMs: int)
    requires WellFormed(store)
    requires forall i :: 0 <= i < |records| ==> Hopeless(records[i], store, nowMs)
    ensures !AnyOverload(records)
    ensures ChooseFinite(records, store, nowMs, deadlineMs) == if nowMs >= deadlineMs then TimeIsUp else NothingLeft
  {
    assert forall i :: 0 <= i < |records| && Hopeless(records[i], store, nowMs) ==> !WorthWaitingFor(records[i], store);
  }

  lemma GivingUpMeansHopeless(records: seq<Record>, store: Store, nowMs: int, deadlineMs: int, i: nat)
    requires WellFormed(store) && AllFresh(records, store, nowMs, deadlineMs) && NoContextFailed(records)
    requires !AnyOverload(records)
    requires var c := ChooseFinite(records, store, nowMs, deadlineMs); c.TimeIsUp? || c.NothingLeft?
    requires i < |records|
    ensures Hopeless(records[i], store, nowMs)
  {
    var r := records[i];
    assert Fresh(r, store, nowMs, deadlineMs);
    var c := ChooseFinite(records, store, nowMs, deadlineMs);
    if nowMs >= deadlineMs {
      assert r.state.Untried? ==> !UntriedAvailable(r, store, nowMs);
    } else {
      assert !UntriedAvailable(r, store, nowMs);
      assert !Waits(r, StandardWait) && !Ready(r, StandardWait);
      assert !Ready(r, RateLimitWait);
      assert !Waits(r, RateLimitWait);
      assert !WorthWaitingFor(r, store);
      assert !r.state.LocalOverload();
    }
  }

  /** Nothing can come of the record in an iteration at `nowMs`, as it stands before any refresh: it is
      exhausted, out of time, or blocked for a reason that does not pass. */
  predicate Spent(r: Record, store: Store, nowMs: int, deadlineMs: int) {
    || r.state.Exhausted?
    || OutOfTime(r, store, nowMs, deadlineMs, Ordinary)
    || ((r.state.Untried? || r.state.TemporarilyUnavailable?)
        && !IsAvailable(store, r.identity, nowMs) && !Waitable(GetEntry(store, r.identity).value.reason))
  }

  lemma SpentMeansHopeless(s: State, x: Input, k: nat)
    requires k < |s.records| && s.cfg.mode.Ordinary?
    ensures Spent(s.records[k], s.store, x.nowMs, s.cfg.deadlineMs) <==>
            Hopeless(Refreshed(s, x).records[k], s.store, x.nowMs)
  {
    RefreshesExactly(s, x, k);
  }

  ghost predicate AllSpent(s: State, nowMs: int) {
    forall i :: 0 <= i < |s.records| ==> Spent(s.records[i], s.store, nowMs, s.cfg.deadlineMs)
  }

  lemma AllSpentMeansHopeless(s: State, x: Input)
    requires s.cfg.mode.Ordinary?
    ensures AllSpent(s, x.nowMs) <==>
            forall i :: 0 <= i < |s.records| ==> Hopeless(Refreshed(s, x).records[i], s.store, x.nowMs)
  {
    forall i | 0 <= i < |s.records|
      ensures Spent(s.records[i], s.store, x.nowMs, s.cfg.deadlineMs) <==>
              Hopeless(Refreshed(s, x).records[i], s.store, x.nowMs)
    {
      SpentMeansHopeless(s, x, i);
    }
  }

  /** While any record is in local overload the scheduler never gives up. */
  lemma OverloadNeverGivesUp(cfg: Config, records: seq<Record>, store: Store, nowMs: int)
    requires cfg.mode.Ordinary? && AnyOverload(records)
    ensures var c := Choose(cfg, records, store, nowMs); c.Attempt? || c.WaitFor?
  {
  }

  lemma GivesUpAfterRefresh(records: seq<Record>, store: Store, nowMs: int, deadlineMs: int)
    requires WellFormed(store) && AllFresh(records, store, nowMs, deadlineMs) && NoContextFailed(records)
    requires !AnyOverload(records)
    ensures var c := ChooseFinite(records, store, nowMs, deadlineMs);
            var hopeless := forall i :: 0 <= i < |records| ==> Hopeless(records[i], store, nowMs);
            && (c.TimeIsUp? <==> hopeless && nowMs >= deadlineMs)
            && (c.NothingLeft? <==> hopeless && nowMs < deadlineMs)
  {
    var c := ChooseFinite(records, store, nowMs, deadlineMs);
    if forall i :: 0 <= i < |records| ==> Hopeless(records[i], store, nowMs) {
      HopelessMeansGivingUp(records, store, nowMs, deadlineMs);
    } else if c.TimeIsUp? || c.NothingLeft? {
      forall i | 0 <= i < |records| ensures Hopeless(records[i], store, nowMs) {
        GivingUpMeansHopeless(records, store, nowMs, deadlineMs, i);
      }
    }
  }

  /** No premature give-up, and no useless waiting: the scheduler stops exactly when every record, as it
      stands before the refresh, is exhausted, out of time or blocked in the store for a reason that does
      not pass; the deadline decides only which of the two answers is given. */
  lemma GivesUpExactlyWhenHopeless(s: State, x: Input)
    requires s.cfg.mode.Ordinary? && WellFormed(s.store) && NoContextFailed(s.records)
    ensures var c := Choose(s.cfg, Refreshed(s, x).records, s.store, x.nowMs);
            && (c.TimeIsUp? <==> AllSpent(s, x.nowMs) && x.nowMs >= s.cfg.deadlineMs)
            && (c.NothingLeft? <==> AllSpent(s, x.nowMs) && x.nowMs < s.cfg.deadlineMs)
  {
    var rs := Refreshed(s, x).records;
    RefreshAllFresh(s.records, s.store, x.nowMs, s.cfg.deadlineMs);
    AllSpentMeansHopeless(s, x);
    if AnyOverload(rs) {
      OverloadNeverGivesUp(s.cfg, rs, s.store, x.nowMs);
      var o :| 0 <= o < |rs| && rs[o].state.LocalOverload();
      assert !Hopeless(rs[o], s.store, x.nowMs);
    } else {
      GivesUpAfterRefresh(rs, s.store, x.nowMs, s.cfg.deadlineMs);
    }
  }

  // ---------------------------------------------------------------- waiting

  lemma DueTimesAreAhead(r: Record, store: Store, nowMs: int, deadlineMs: int)
    requires WellFormed(store) && Fresh(r, store, nowMs, deadlineMs)
    requires !FiniteReady(r, store, nowMs) && !ReadyOverload(r)
    requires DueTime(r, store, nowMs, deadlineMs).Some?
    ensures DueTime(r, store, nowMs, deadlineMs).value > nowMs
  {
  }

  /** A wait that is positive and ends when some record's own wait or block is over, finite due times
      being cut off at the deadline; by the deadline without a local overload, and at the earliest such
      moment with one. */
  ghost predicate SafeWait(records: seq<Record>, store: Store, nowMs: int, deadlineMs: int, waitMs: int) {
    && waitMs > 0
    && (exists i :: 0 <= i < |records| && DueTime(records[i], store, nowMs, deadlineMs) == Some(nowMs + waitMs))
    && (!AnyOverload(records) ==> nowMs + waitMs <= deadlineMs)
    && (AnyOverload(records) ==>
          forall i :: 0 <= i < |records| && DueTime(records[i], store, nowMs, deadlineMs).Some? ==>
            nowMs + waitMs <= DueTime(records[i], store, nowMs, deadlineMs).value)
  }

  predicate WaitsUntil(r: Record, t: int) {
    (r.state.RetryWaiting? || r.state.TemporarilyUnavailable?) && r.state.untilMs == t
  }

  /** During a local overload the wait is positive and ends at the earliest moment any record's own
      due time arrives, finite due times being cut off at the deadline; it is noted for the first record
      that waits until then. */
  lemma OverloadWaitIsExact(records: seq<Record>, store: Store, nowMs: int, deadlineMs: int)
    requires WellFormed(store) && AllFresh(records, store, nowMs, deadlineMs) && AnyOverload(records)
    ensures var c := ChooseDuringOverload(records, store, nowMs, deadlineMs);
            c.WaitFor? ==>
              && SafeWait(records, store, nowMs, deadlineMs, c.waitMs)
              && (c.owner.Some? ==> c.owner.value < |records| && WaitsUntil(records[c.owner.value], nowMs + c.waitMs))
              && forall i :: 0 <= i < |records| && WaitsUntil(records[i], nowMs + c.waitMs) ==> c.owner.Some? && c.owner.value <= i
  {
    var c := ChooseDuringOverload(records, store, nowMs, deadlineMs);
    if c.WaitFor? {
      var f := (r: Record) => DueTime(r, store, nowMs, deadlineMs);
      var due := LeastOf(records, f);
      var o :| 0 <= o < |records| && records[o].state.LocalOverload();
      assert f(records[o]).Some?;
      assert due.Some?;
      var k :| 0 <= k < |records| && f(records[k]) == due;
      assert !FiniteReady(records[k], store, nowMs) && !ReadyOverload(records[k]);
      DueTimesAreAhead(records[k], store, nowMs, deadlineMs);
      assert c.waitMs == due.value - nowMs;
      assert DueTime(records[k], store, nowMs, deadlineMs) == Some(nowMs + c.waitMs);
    }
  }

  /** The record could be attempted at time `t` if nothing but time had passed since `nowMs`. */
  predicate ReadyAt(r: Record, store: Store, t: int, deadlineMs: int) {
    var later := RefreshRecord(r, store, t, deadlineMs, Ordinary);
    Finite(later, store, t) || OverloadDue(later)
  }

  /** By time `t` something has happened to the record: its wait or its block is over, or its time is. */
  predicate ChangedBy(r: Record, store: Store, nowMs: int, t: int, deadlineMs: int) {
    || RefreshRecord(r, store, t, deadlineMs, Ordinary) != r
    || (!IsAvailable(store, r.identity, nowMs) && IsAvailable(store, r.identity, t))
  }

  lemma NotReadySooner(r: Record, store: Store, nowMs: int, deadlineMs: int, t: int)
    requires WellFormed(store) && Fresh(r, store, nowMs, deadlineMs) && nowMs <= t
    requires !FiniteReady(r, store, nowMs) && !ReadyOverload(r)
    requires DueTime(r, store, nowMs, deadlineMs).Some? ==> t < DueTime(r, store, nowMs, deadlineMs).value
    ensures ReadyAt(r, store, t, deadlineMs) ==>
              !IsAvailable(store, r.identity, nowMs) && !PassingBlock(store, r.identity, nowMs)
  {
  }

  lemma ChangedWhenDue(r: Record, store: Store, nowMs: int, deadlineMs: int)
    requires WellFormed(store) && Fresh(r, store, nowMs, deadlineMs)
    requires !FiniteReady(r, store, nowMs) && !ReadyOverload(r)
    requires DueTime(r, store, nowMs, deadlineMs).Some?
    ensures ChangedBy(r, store, nowMs, DueTime(r, store, nowMs, deadlineMs).value, deadlineMs)
  {
  }

  /** A wait during a local overload is as long as it can be and no longer: before it is over no record
      could be attempted, save one that was blocked for a reason that is not waited for; and when it is
      over, something has happened to some record. */
  ghost predicate TightWait(records: seq<Record>, store: Store, nowMs: int, deadlineMs: int, waitMs: int) {
    && (forall i, t :: 0 <= i < |records| && nowMs <= t < nowMs + waitMs && ReadyAt(records[i], store, t, deadlineMs) ==>
          !IsAvailable(store, records[i].identity, nowMs) && !PassingBlock(store, records[i].identity, nowMs))
    && (exists i :: 0 <= i < |records| && ChangedBy(records[i], store, nowMs, nowMs + waitMs, deadlineMs))
  }

  lemma NothingReadyWhileWaiting(records: seq<Record>, store: Store, nowMs: int, deadlineMs: int)
    requires ChooseDuringOverload(records, store, nowMs, deadlineMs).WaitFor?
    ensures forall i :: 0 <= i < |records| ==> !FiniteReady(records[i], store, nowMs) && !ReadyOverload(records[i])
  {
  }

  lemma ExactWaitIsTight(records: seq<Record>, store: Store, nowMs: int, deadlineMs: int, waitMs: int)
    requires WellFormed(store) && AllFresh(records, store, nowMs, deadlineMs)
    requires AnyOverload(records) && SafeWait(records, store, nowMs, deadlineMs, waitMs)
    requires forall i :: 0 <= i < |records| ==> !FiniteReady(records[i], store, nowMs) && !ReadyOverload(records[i])
    ensures TightWait(records, store, nowMs, deadlineMs, waitMs)
  {
    forall i, t | 0 <= i < |records| && nowMs <= t < nowMs + waitMs && ReadyAt(records[i], store, t, deadlineMs)
      ensures !IsAvailable(store, records[i].identity, nowMs) && !PassingBlock(store, records[i].identity, nowMs)
    {
      NotReadySooner(records[i], store, nowMs, deadlineMs, t);
    }
    var k :| 0 <= k < |records| && DueTime(records[k], store, nowMs, deadlineMs) == Some(nowMs + waitMs);
    ChangedWhenDue(records[k], store, nowMs, deadlineMs);
  }

  /** The wait of an ordinary run in local overload is tight. */
  lemma OverloadWaitIsTight(s: State, x: Input)
    requires s.cfg.mode.Ordinary? && WellFormed(s.store) && AnyOverload(Refreshed(s, x).records)
    ensures var rs := Refreshed(s, x).records;
            var c := Choose(s.cfg, rs, s.store, x.nowMs);
            c.WaitFor? ==> c.waitMs > 0 && TightWait(rs, s.store, x.nowMs, s.cfg.deadlineMs, c.waitMs)
  {
    var rs := Refreshed(s, x).records;
    RefreshAllFresh(s.records, s.store, x.nowMs, s.cfg.deadlineMs);
    if ChooseDuringOverload(rs, s.store, x.nowMs, s.cfg.deadlineMs).WaitFor? {
      OverloadWaitIsExact(rs, s.store, x.nowMs, s.cfg.deadlineMs);
      NothingReadyWhileWaiting(rs, s.store, x.nowMs, s.cfg.deadlineMs);
      ExactWaitIsTight(rs, s.store, x.nowMs, s.cfg.deadlineMs, Choose(s.cfg, rs, s.store, x.nowMs).waitMs);
    }
  }

  predicate NoneWaits(records: seq<Record>, wait: Wait) {
    forall j :: 0 <= j < |records| && records[j].state.RetryWaiting? ==> records[j].state.wait != wait
  }

  /** Record `o` decides how long to wait without a local overload: it is the first one waiting for a
      standard retry; failing that the one whose rate limit ends first; failing that the first one with
      a block that passes. */
  ghost predicate WaitedFor(records: seq<Record>, store: Store, nowMs: int, o: nat, untilMs: int)
    requires o < |records|
  {
    var r := records[o];
    if r.state.RetryWaiting? then
      && untilMs == r.state.untilMs
      && (if r.state.wait == StandardWait then NoneWaits(records[..o], StandardWait)
          else
            && r.state.wait == RateLimitWait && NoneWaits(records, StandardWait)
            && (forall j :: 0 <= j < |records| && records[j].state.RetryWaiting? ==> untilMs <= records[j].state.untilMs)
            && (forall j :: 0 <= j < o && records[j].state.RetryWaiting? ==> untilMs < records[j].state.untilMs))
    else
      && (forall j :: 0 <= j < |records| ==> !records[j].state.RetryWaiting?)
      && !r.state.Exhausted? && PassingBlock(store, r.identity, nowMs) && untilMs == GetEntry(store, r.identity).value.untilMs
      && (forall j :: 0 <= j < o ==> records[j].state.Exhausted? || !PassingBlock(store, records[j].identity, nowMs))
  }

  /** The wait without a local overload is for one record and ends when that one's own wait or block does,
      or at the deadline if that comes first. */
  ghost predicate FiniteWait(records: seq<Record>, store: Store, nowMs: int, deadlineMs: int, c: Choice) {
    c.WaitFor? && c.owner.Some? && c.owner.value < |records|
    && exists untilMs :: WaitedFor(records, store, nowMs, c.owner.value, untilMs) && nowMs + c.waitMs == Min(untilMs, deadlineMs)
  }

  ghost predicate NoOverload(records: seq<Record>, store: Store, nowMs: int, deadlineMs: int) {
    WellFormed(store) && AllFresh(records, store, nowMs, deadlineMs) && NoContextFailed(records) && !AnyOverload(records)
  }

  ghost predicate ExactWait(records: seq<Record>, store: Store, nowMs: int, deadlineMs: int, c: Choice) {
    c.WaitFor? && SafeWait(records, store, nowMs, deadlineMs, c.waitMs) && FiniteWait(records, store, nowMs, deadlineMs, c)
  }

  lemma WaitForIsExact(
    records: seq<Record>, store: Store, nowMs: int, deadlineMs: int, o: nat, untilMs: int, c: Choice)
    requires NoOverload(records, store, nowMs, deadlineMs) && o < |records| && WaitedFor(records, store, nowMs, o, untilMs)
    requires nowMs < deadlineMs && untilMs > nowMs && c == WaitUntil(untilMs, nowMs, deadlineMs, Some(o))
    requires DueTime(records[o], store, nowMs, deadlineMs) == Some(Min(untilMs, deadlineMs))
    ensures ExactWait(records, store, nowMs, deadlineMs, c)
  {
    assert DueTime(records[o], store, nowMs, deadlineMs) == Some(nowMs + c.waitMs);
  }

  lemma StandardWaitIsExact(records: seq<Record>, store: Store, nowMs: int, deadlineMs: int, o: nat)
    requires NoOverload(records, store, nowMs, deadlineMs) && nowMs < deadlineMs
    requires FindFirst(records, (r: Record) => Waits(r, StandardWait)) == Some(o)
    requires ChooseFinite(records, store, nowMs, deadlineMs).WaitFor?
    ensures ExactWait(records, store, nowMs, deadlineMs, ChooseFinite(records, store, nowMs, deadlineMs))
  {
    assert Fresh(records[o], store, nowMs, deadlineMs);
    WaitForIsExact(records, store, nowMs, deadlineMs, o, records[o].state.untilMs, ChooseFinite(records, store, nowMs, deadlineMs));
  }

  lemma RateLimitWaitIsExact(records: seq<Record>, store: Store, nowMs: int, deadlineMs: int, untilMs: int)
    requires NoOverload(records, store, nowMs, deadlineMs) && nowMs < deadlineMs
    requires FindFirst(records, (r: Record) => Waits(r, StandardWait)).None?
    requires LeastOf(records, (r: Record) => if Waits(r, RateLimitWait) then Some(r.state.untilMs) else None) == Some(untilMs)
    requires ChooseFinite(records, store, nowMs, deadlineMs).WaitFor?
    ensures ExactWait(records, store, nowMs, deadlineMs, ChooseFinite(records, store, nowMs, deadlineMs))
  {
    var f := (r: Record) => if Waits(r, RateLimitWait) then Some(r.state.untilMs) else None;
    var owner := FindFirst(records, (r: Record) => r.state.RetryWaiting? && r.state.untilMs == untilMs);
    var k :| 0 <= k < |records| && f(records[k]) == Some(untilMs);
    assert owner.Some?;
    var o := owner.value;
    assert Fresh(records[o], store, nowMs, deadlineMs) && !records[o].state.LocalOverload();
    assert Waits(records[o], RateLimitWait);
    assert NoneWaits(records, StandardWait);
    forall j | 0 <= j < |records| && Waits(records[j], RateLimitWait)
      ensures untilMs <= records[j].state.untilMs && (j < o ==> untilMs < records[j].state.untilMs)
    {
      assert f(records[j]) == Some(records[j].state.untilMs);
    }
    WaitForIsExact(records, store, nowMs, deadlineMs, o, untilMs, ChooseFinite(records, store, nowMs, deadlineMs));
  }

  lemma BlockWaitIsExact(records: seq<Record>, store: Store, nowMs: int, deadlineMs: int)
    requires NoOverload(records, store, nowMs, deadlineMs) && nowMs < deadlineMs
    requires FindFirst(records, (r: Record) => Waits(r, StandardWait)).None?
    requires LeastOf(records, (r: Record) => if Waits(r, RateLimitWait) then Some(r.state.untilMs) else None).None?
    requires ChooseFinite(records, store, nowMs, deadlineMs).WaitFor?
    ensures ExactWait(records, store, nowMs, deadlineMs, ChooseFinite(records, store, nowMs, deadlineMs))
  {
    var f := (r: Record) => if Waits(r, RateLimitWait) then Some(r.state.untilMs) else None;
    var o := FindFirst(records, (r: Record) => WorthWaitingFor(r, store)).value;
    assert NoneWaits(records, StandardWait);
    forall j | 0 <= j < |records| ensures !Waits(records[j], RateLimitWait) {
      assert f(records[j]).None?;
    }
    var r, entry := records[o], GetEntry(store, records[o].identity).value;
    assert Fresh(r, store, nowMs, deadlineMs) && !r.state.LocalOverload();
    assert !Ready(r, StandardWait) && !Ready(r, RateLimitWait) && !UntriedAvailable(r, store, nowMs);
    assert r.state.TemporarilyUnavailable?;
    WaitForIsExact(records, store, nowMs, deadlineMs, o, entry.untilMs, ChooseFinite(records, store, nowMs, deadlineMs));
  }

  /** Without a local overload the wait is positive, ends no later than the deadline, and ends when the
      record it is for no longer waits, unless the deadline comes first. */
  lemma FiniteWaitIsBounded(records: seq<Record>, store: Store, nowMs: int, deadlineMs: int)
    requires NoOverload(records, store, nowMs, deadlineMs)
    ensures var c := ChooseFinite(records, store, nowMs, deadlineMs);
            c.WaitFor? ==> nowMs < deadlineMs && ExactWait(records, store, nowMs, deadlineMs, c)
  {
    if ChooseFinite(records, store, nowMs, deadlineMs).WaitFor? {
      assert nowMs < deadlineMs;
      var standard := FindFirst(records, (r: Record) => Waits(r, StandardWait));
      var rate := LeastOf(records, (r: Record) => if Waits(r, RateLimitWait) then Some(r.state.untilMs) else None);
      if standard.Some? {
        StandardWaitIsExact(records, store, nowMs, deadlineMs, standard.value);
      } else if rate.Some? {
        RateLimitWaitIsExact(records, store, nowMs, deadlineMs, rate.value);
      } else {
        BlockWaitIsExact(records, store, nowMs, deadlineMs);
      }
    }
  }

  /** Every wait an ordinary run chooses is safe. */
  lemma WaitsAreSafe(s: State, x: Input)
    requires s.cfg.mode.Ordinary? && WellFormed(s.store) && NoContextFailed(s.records)
    ensures var rs := Refreshed(s, x).records;
            var c := Choose(s.cfg, rs, s.store, x.nowMs);
            c.WaitFor? ==> SafeWait(rs, s.store, x.nowMs, s.cfg.deadlineMs, c.waitMs)
  {
    var rs := Refreshed(s, x).records;
    RefreshAllFresh(s.records, s.store, x.nowMs, s.cfg.deadlineMs);
    if AnyOverload(rs) {
      OverloadWaitIsExact(rs, s.store, x.nowMs, s.cfg.deadlineMs);
    } else {
      FiniteWaitIsBounded(rs, s.store, x.nowMs, s.cfg.deadlineMs);
    }
  }

  // ---------------------------------------------------------------- priority

  /** The scheduler's preference among the records it may attempt now, lowest first; None when it may
      not. While a standard retry is pending only untried candidates may go ahead of it. */
  function Rank(r: Record, standardPending: bool, store: Store, nowMs: int): Option<int> {
    match r.state
    case RetryReady(_, _, _, StandardWait, _, _) => if standardPending then None else Some(0)
    case RetryReady(_, _, _, RateLimitWait, _, _) => if standardPending then None else Some(2)
    case Untried(_, _, _) => if IsAvailable(store, r.identity, nowMs) then Some(1) else None
    case _ => None
  }

  predicate StandardPending(records: seq<Record>) {
    exists i :: 0 <= i < |records| && records[i].state.RetryWaiting? && records[i].state.wait == StandardWait
  }

  /** Without a local overload, an attempt is made exactly when some record has a rank, and then on the
      first in route order among those of the best rank. */
  lemma FiniteChoiceIsBestRanked(records: seq<Record>, store: Store, nowMs: int, deadlineMs: int)
    ensures var c := ChooseFinite(records, store, nowMs, deadlineMs);
            var pending := StandardPending(records);
            && (c.Attempt? <==> exists j :: 0 <= j < |records| && Rank(records[j], pending, store, nowMs).Some?)
            && (c.Attempt? ==>
                  && c.index < |records|
                  && Rank(records[c.index], pending, store, nowMs).Some?
                  && forall j :: 0 <= j < |records| && Rank(records[j], pending, store, nowMs).Some? ==>
                       var best, other := Rank(records[c.index], pending, store, nowMs).value, Rank(records[j], pending, store, nowMs).value;
                       best < other || (best == other && c.index <= j))
  {
    var c := ChooseFinite(records, store, nowMs, deadlineMs);
    var pending := StandardPending(records);
    var standard := FindFirst(records, (r: Record) => Waits(r, StandardWait));
    assert standard.Some? <==> pending;
    forall j | 0 <= j < |records| && Rank(records[j], pending, store, nowMs).Some?
      ensures c.Attempt? && Rank(records[c.index], pending, store, nowMs).Some?
      ensures var best, other := Rank(records[c.index], pending, store, nowMs).value, Rank(records[j], pending, store, nowMs).value;
              best < other || (best == other && c.index <= j)
    {
      assert Ready(records[j], StandardWait) || UntriedAvailable(records[j], store, nowMs) || Ready(records[j], RateLimitWait);
    }
  }

  /** Untried or ready for a finite retry, and available. */
  predicate Finite(r: Record, store: Store, nowMs: int) {
    match r.state
    case Untried(_, _, _) => IsAvailable(store, r.identity, nowMs)
    case RetryReady(_, _, _, wait, _, _) => wait != OverloadWait && IsAvailable(store, r.identity, nowMs)
    case _ => false
  }

  /** Ready for another attempt after an overload. */
  predicate OverloadDue(r: Record) {
    match r.state
    case RetryReady(_, _, _, OverloadWait, _, _) => true
    case _ => false
  }

  /** During a local overload an attempt is made exactly when a finite record is ready and available or
      an overloaded one is due; finite ones go first, in route order. */
  lemma OverloadChoiceIsBest(records: seq<Record>, store: Store, nowMs: int, deadlineMs: int)
    ensures var c := ChooseDuringOverload(records, store, nowMs, deadlineMs);
            && (c.Attempt? <==>
                  exists j :: 0 <= j < |records| && (Finite(records[j], store, nowMs) || OverloadDue(records[j])))
            && (c.Attempt? ==>
                  && c.index < |records|
                  && (Finite(records[c.index], store, nowMs) || OverloadDue(records[c.index]))
                  && forall j :: 0 <= j < |records| && Finite(records[j], store, nowMs) ==>
                       Finite(records[c.index], store, nowMs) && c.index <= j)
  {
    var c := ChooseDuringOverload(records, store, nowMs, deadlineMs);
    var finite := FindFirst(records, (r: Record) => FiniteReady(r, store, nowMs));
    assert forall j :: 0 <= j < |records| ==>
        Finite(records[j], store, nowMs) == FiniteReady(records[j], store, nowMs) && OverloadDue(records[j]) == ReadyOverload(records[j]);
    if finite.None? {
      assert forall j :: 0 <= j < |records| ==> !FiniteReady(records[j], store, nowMs);
    }
  }

  // ---------------------------------------------------------------- attempting

  /** What a chosen attempt may rely on once the recheck has let it through. */
  ghost predicate Permitted(r: Record, records: seq<Record>, store: Store, nowMs: int, deadlineMs: int) {
    && (r.state.Untried? || r.state.RetryReady?)
    && (r.state.LocalOverload() || IsAvailable(store, r.identity, nowMs))
    && (nowMs >= deadlineMs ==> r.state.Untried? || r.state.LocalOverload())
    && (r.state.LocalOverload() ==>
          && (forall j :: 0 <= j < |records| ==> !Finite(records[j], store, nowMs))
          && (forall j :: 0 <= j < |records| && OverloadDue(records[j]) ==>
                r.state.untilMs < records[j].state.untilMs
                || (r.state.untilMs == records[j].state.untilMs && r.routeIndex <= records[j].routeIndex)))
  }

  /** An ordinary run attempts a candidate only when the store has it available or it is in local
      overload; after the deadline only untried and overloaded records are left to attempt; and an
      overloaded record is attempted only when no finite one is ready, oldest due time first and among
      equals in route order. */
  lemma AttemptsArePermitted(s: State, x: Input)
    requires s.cfg.mode.Ordinary?
    ensures var t := Refreshed(s, x);
            var c := Choose(s.cfg, t.records, s.store, x.nowMs);
            c.Attempt? && !MustReclassify(s.cfg, t.records[c.index], s.store, x.nowMs) ==>
              Permitted(t.records[c.index], t.records, s.store, x.nowMs, s.cfg.deadlineMs)
  {
    var t := Refreshed(s, x);
    var c := Choose(s.cfg, t.records, s.store, x.nowMs);
    RefreshAllFresh(s.records, s.store, x.nowMs, s.cfg.deadlineMs);
    if c.Attempt? {
      assert Fresh(t.records[c.index], s.store, x.nowMs, s.cfg.deadlineMs);
      if AnyOverload(t.records) && t.records[c.index].state.LocalOverload() {
        assert ReadyOverload(t.records[c.index]);
        assert forall j :: 0 <= j < |t.records| && ReadyOverload(t.records[j]) ==> DueBefore(t.records[c.index], t.records[j]);
      }
    }
  }
}
