/** Periodic project oversight: one timer or one check at a time, driven by events. */
module ProjectOversight {
  import opened Wrappers

  const MAX_TIMEOUT_MS: real := 2_147_483_647.0

  datatype RuntimeStatus = Stopped | Starting | Running | Pausing | Paused | Closing | Errored

  datatype CheckOutcome = Succeeded | Failed | Cancelled

  datatype Check = Check(cancelled: bool)

  /** A timeout set at monotonic time `setAtMs`; its callback remembers the deadline it was set for. */
  datatype Timer = Timer(deadlineMs: real, setAtMs: real, delayMs: real)

  datatype Attempt = Attempt(outcome: CheckOutcome, settledAt: real)

  /** What happened, at which monotonic time. */
  datatype Entry =
    | StatusChanged(status: RuntimeStatus, atMs: real)
    | Closed(atMs: real)
    | Started(atMs: real)
    | Settled(atMs: real)
    | OwnerFailed(atMs: real)

  /** `overlapped` records an attempt to start a second check; `timersSet` counts the timeouts since the
      last arming, `changes` the change notifications; `log` is the history. The machine's decisions
      read none of them. */
  datatype Machine = Machine(
    enabled: bool,
    intervalMs: real,
    status: RuntimeStatus,
    closing: bool,
    timer: Option<Timer>,
    deadlineMs: Option<real>,
    dueWall: Option<real>,
    check: Option<Check>,
    lastAttempt: Option<Attempt>,
    lastSuccess: Option<real>,
    overlapped: bool,
    timersSet: nat,
    changes: nat,
    log: seq<Entry>)

  /** Whether making and running a check succeeds synchronously. */
  datatype Creation = Runs | Throws

  /** `atMs` is the first monotonic reading of the event, `laterMs` a second one, `wall` the wall clock. */
  datatype Event =
    | ChangeStatus(status: RuntimeStatus, atMs: real, laterMs: real, wall: real)
    | CloseAdmission(atMs: real)
    | TimerFires(atMs: real, laterMs: real, creation: Creation)
    | CheckSettles(outcome: CheckOutcome, atMs: real, laterMs: real, wall: real)
    | CheckRejects(atMs: real)

  function Initial(enabled: bool, intervalMs: real): Machine {
    Machine(enabled, intervalMs, Stopped, false, None, None, None, None, None, None, false, 0, 0, [])
  }

  function Changed(m: Machine): Machine {
    m.(changes := m.changes + 1)
  }

  function Log(m: Machine, e: Entry): Machine {
    m.(log := m.log + [e])
  }

  function Delay(deadlineMs: real, nowMs: real): real {
    var remaining := if deadlineMs - nowMs > 0.0 then deadlineMs - nowMs else 0.0;
    if remaining < MAX_TIMEOUT_MS then remaining else MAX_TIMEOUT_MS
  }

  /** Set one timeout towards the deadline. */
  function ArmRemaining(m: Machine, deadlineMs: real, nowMs: real): Machine {
    Changed(m.(timer := Some(Timer(deadlineMs, nowMs, Delay(deadlineMs, nowMs))), timersSet := m.timersSet + 1))
  }

  function Arm(m: Machine, atMs: real, laterMs: real, wall: real): Machine {
    if !m.enabled || m.closing || !m.status.Running? || m.check.Some? || m.timer.Some? then m
    else
      var deadlineMs := atMs + m.intervalMs;
      ArmRemaining(m.(deadlineMs := Some(deadlineMs), dueWall := Some(wall + m.intervalMs), timersSet := 0),
                   deadlineMs, laterMs)
  }

  function Disarm(m: Machine): Machine {
    m.(timer := None, deadlineMs := None, dueWall := None)
  }

  function CancelCheck(m: Machine): Machine {
    if m.check.Some? then m.(check := Some(Check(true))) else m
  }

  function OwnerFailure(m: Machine, atMs: real): Machine {
    Log(Changed(Disarm(m.(closing := true))), OwnerFailed(atMs))
  }

  function StartCheck(m: Machine, atMs: real, creation: Creation): Machine {
    if m.check.Some? then m.(overlapped := true)
    else
      match creation
      case Throws => OwnerFailure(m, atMs)
      case Runs => Changed(Log(m.(check := Some(Check(false))), Started(atMs)))
  }

  function StatusApplied(m: Machine, atMs: real, laterMs: real, wall: real): Machine {
    if m.status.Running? && !m.closing then
      if m.check.None? then Arm(m, atMs, laterMs, wall) else m
    else CancelCheck(Disarm(m))
  }

  predicate Enabled(m: Machine, e: Event) {
    match e
    case TimerFires(_, _, _) => m.timer.Some?
    case CheckSettles(_, _, _, _) => m.check.Some?
    case CheckRejects(_) => m.check.Some?
    case _ => true
  }

  function Next(m: Machine, e: Event): Machine
    requires Enabled(m, e)
  {
    match e
    case ChangeStatus(status, atMs, laterMs, wall) =>
      if m.status == status then m
      else
        Changed(StatusApplied(Log(m.(status := status), StatusChanged(status, atMs)), atMs, laterMs, wall))
    case CloseAdmission(atMs) =>
      if m.closing then m
      else Changed(CancelCheck(Disarm(Log(m.(closing := true), Closed(atMs)))))
    case TimerFires(atMs, laterMs, creation) =>
      var armedFor := m.timer.value.deadlineMs;
      var m1 := m.(timer := None);
      if m1.deadlineMs != Some(armedFor) then m1
      else if atMs < armedFor then ArmRemaining(m1, armedFor, laterMs)
      else
        var m2 := m1.(deadlineMs := None, dueWall := None);
        if m.enabled && !m.closing && m.status.Running? then StartCheck(m2, atMs, creation) else Changed(m2)
    case CheckSettles(outcome, atMs, laterMs, wall) =>
      var m1 := Log(m.(lastAttempt := Some(Attempt(outcome, wall)),
                       lastSuccess := if outcome.Succeeded? then Some(wall) else m.lastSuccess,
                       check := None),
                    Settled(atMs));
      Changed(if m.enabled && !m.closing && m.status.Running? then Arm(m1, atMs, laterMs, wall) else m1)
    case CheckRejects(atMs) => OwnerFailure(m.(check := None), atMs)
  }

  // ---------------------------------------------------------------- status

  datatype Activity = Waiting | Checking | Unavailable

  datatype Reason = Disabled | ApplicationClosing | NotRunning(status: RuntimeStatus) | CheckInFlight

  datatype StatusView = StatusView(
    eligible: bool,
    reason: Option<Reason>,
    state: Activity,
    nextDue: Option<real>,
    lastAttempt: Option<Attempt>,
    lastSuccess: Option<real>)

  function View(m: Machine): StatusView {
    var eligible := m.enabled && !m.closing && m.status.Running? && m.check.None?;
    StatusView(
      eligible,
      if !m.enabled then Some(Disabled)
      else if m.closing then Some(ApplicationClosing)
      else if !m.status.Running? then Some(NotRunning(m.status))
      else if m.check.Some? then Some(CheckInFlight)
      else None,
      if m.check.Some? then Checking else if eligible && m.timer.Some? then Waiting else Unavailable,
      if m.timer.Some? then m.dueWall else None,
      m.lastAttempt,
      m.lastSuccess)
  }

  // ---------------------------------------------------------------- the invariant

  function LatestStatus(log: seq<Entry>): RuntimeStatus {
    if log == [] then Stopped
    else
      var e := log[|log| - 1];
      if e.StatusChanged? then e.status else LatestStatus(log[..|log| - 1])
  }

  /** The last check that was started has not ended yet. */
  predicate InFlight(log: seq<Entry>) {
    if log == [] then false
    else
      match log[|log| - 1]
      case Started(_) => true
      case Settled(_) => false
      case OwnerFailed(_) => false
      case _ => InFlight(log[..|log| - 1])
  }

  /** Since the last check started, the project has stopped running or oversight has closed. */
  predicate Interrupted(log: seq<Entry>) {
    if log == [] then false
    else
      match log[|log| - 1]
      case Started(_) => false
      case StatusChanged(status, _) => !status.Running? || Interrupted(log[..|log| - 1])
      case Closed(_) => true
      case _ => Interrupted(log[..|log| - 1])
  }

  lemma ChecksSnoc(log: seq<Entry>, e: Entry)
    ensures InFlight(log + [e]) == match e
                                   case Started(_) => true
                                   case Settled(_) => false
                                   case OwnerFailed(_) => false
                                   case _ => InFlight(log)
    ensures Interrupted(log + [e]) == match e
                                      case Started(_) => false
                                      case StatusChanged(status, _) => !status.Running? || Interrupted(log)
                                      case Closed(_) => true
                                      case _ => Interrupted(log)
  {
    assert (log + [e])[..|log|] == log;
  }

  /** A check exists exactly while one is in flight, and is cancelled exactly when it was interrupted. */
  ghost predicate CheckAsNoted(m: Machine) {
    && (m.check.Some? <==> InFlight(m.log))
    && (m.check.Some? ==> (m.check.value.cancelled <==> Interrupted(m.log)))
  }

  lemma NextKeepsCheck(m: Machine, e: Event)
    requires Inv(m) && Enabled(m, e) && CheckAsNoted(m)
    ensures CheckAsNoted(Next(m, e))
  {
    match e {
      case ChangeStatus(status, atMs, _, _) => ChecksSnoc(m.log, StatusChanged(status, atMs));
      case CloseAdmission(atMs) => ChecksSnoc(m.log, Closed(atMs));
      case TimerFires(atMs, _, _) => ChecksSnoc(m.log, Started(atMs)); ChecksSnoc(m.log, OwnerFailed(atMs));
      case CheckSettles(_, atMs, _, _) => ChecksSnoc(m.log, Settled(atMs));
      case CheckRejects(atMs) => ChecksSnoc(m.log, OwnerFailed(atMs));
    }
  }

  /** On every run a check exists from its start to its end, and is cancelled exactly from the moment the
      project stops running or oversight closes. */
  lemma {:induction false} ChecksAreAsNoted(enabled: bool, intervalMs: real, startMs: real, es: seq<Event>)
    requires Chronological(startMs, es)
    ensures var r := Run(Initial(enabled, intervalMs), es);
            r.Some? ==> CheckAsNoted(r.value)
  {
    if es != [] {
      var n := |es| - 1;
      ChecksAreAsNoted(enabled, intervalMs, startMs, es[..n]);
      RunIsSafe(enabled, intervalMs, startMs, es[..n]);
      var before := Run(Initial(enabled, intervalMs), es[..n]);
      if before.Some? && Enabled(before.value, es[n]) { NextKeepsCheck(before.value, es[n]); }
    }
  }

  /** A timer is armed exactly while one is due, and nothing ever overlaps or goes uncancelled. */
  ghost predicate Inv(m: Machine) {
    && (m.timer.Some? <==> m.enabled && !m.closing && m.status.Running? && m.check.None?)
    && (m.deadlineMs.Some? <==> m.timer.Some?)
    && (m.dueWall.Some? <==> m.timer.Some?)
    && (m.timer.Some? ==> m.deadlineMs == Some(m.timer.value.deadlineMs) && 0.0 <= m.timer.value.delayMs <= MAX_TIMEOUT_MS)
    && (m.check.Some? ==> m.enabled)
    && (m.check.Some? && (m.closing || !m.status.Running?) ==> m.check.value.cancelled)
    && !m.overlapped
    && m.status == LatestStatus(m.log)
  }

  lemma LatestSnoc(log: seq<Entry>, e: Entry)
    ensures LatestStatus(log + [e]) == if e.StatusChanged? then e.status else LatestStatus(log)
  {
    assert (log + [e])[..|log|] == log;
  }

  lemma NextKeepsInv(m: Machine, e: Event)
    requires Inv(m) && Enabled(m, e)
    ensures Inv(Next(m, e))
  {
    match e {
      case ChangeStatus(status, atMs, _, _) => LatestSnoc(m.log, StatusChanged(status, atMs));
      case CloseAdmission(atMs) => LatestSnoc(m.log, Closed(atMs));
      case TimerFires(atMs, _, _) => LatestSnoc(m.log, Started(atMs)); LatestSnoc(m.log, OwnerFailed(atMs));
      case CheckSettles(_, atMs, _, _) => LatestSnoc(m.log, Settled(atMs));
      case CheckRejects(atMs) => LatestSnoc(m.log, OwnerFailed(atMs));
    }
  }

  /** `status()` tells the truth: waiting is having a timer, checking is having a check, and exactly one
      of the two is the case whenever oversight is enabled, open and running. */
  lemma ViewAgrees(m: Machine)
    requires Inv(m)
    ensures var v := View(m);
            && (v.eligible <==> m.timer.Some?)
            && (v.reason.None? <==> v.eligible)
            && (v.reason == Some(Disabled) <==> !m.enabled)
            && (v.reason == Some(ApplicationClosing) <==> m.enabled && m.closing)
            && (v.reason == Some(CheckInFlight) <==> m.enabled && !m.closing && m.status.Running? && m.check.Some?)
            && (forall status ::
                  v.reason == Some(NotRunning(status)) <==>
                  m.enabled && !m.closing && !m.status.Running? && m.status == status)
            && (v.state.Waiting? <==> m.timer.Some?)
            && (v.state.Checking? <==> m.check.Some?)
            && (v.nextDue.Some? <==> v.state.Waiting?) && (m.timer.Some? ==> v.nextDue == m.dueWall)
            && v.lastAttempt == m.lastAttempt && v.lastSuccess == m.lastSuccess
            && !(m.timer.Some? && m.check.Some?)
            && (m.enabled && !m.closing && m.status.Running? ==> m.timer.Some? || m.check.Some?)
  {
  }

  /** No event changes what `status()` shows without a change notification. */
  lemma ChangesAreAnnounced(m: Machine, e: Event)
    requires Inv(m) && Enabled(m, e)
    ensures View(Next(m, e)) != View(m) ==> Next(m, e).changes > m.changes
  {
  }

  // ---------------------------------------------------------------- runs

  function Run(m: Machine, es: seq<Event>): (r: Option<Machine>)
  {
    if es == [] then Some(m)
    else
      match Run(m, es[..|es| - 1])
      case None => None
      case Some(before) =>
        if Enabled(before, es[|es| - 1]) then Some(Next(before, es[|es| - 1])) else None
  }

  function SecondReading(e: Event): real {
    match e
    case ChangeStatus(_, _, laterMs, _) => laterMs
    case TimerFires(_, laterMs, _) => laterMs
    case CheckSettles(_, _, laterMs, _) => laterMs
    case _ => e.atMs
  }

  ghost predicate Chronological(startMs: real, es: seq<Event>) {
    && (forall k :: 0 <= k < |es| ==> es[k].atMs <= SecondReading(es[k]))
    && (forall k :: 0 < k < |es| ==> SecondReading(es[k - 1]) <= es[k].atMs)
    && (|es| > 0 ==> startMs <= es[0].atMs)
  }

  function LastReading(startMs: real, es: seq<Event>): real {
    if es == [] then startMs else SecondReading(es[|es| - 1])
  }

  /** Everything logged before happened no later than `t`. */
  ghost predicate NothingAfter(log: seq<Entry>, t: real) {
    forall q :: 0 <= q < |log| ==> log[q].atMs <= t
  }

  /** The check started at `p` had a whole quiet interval before it: no status change, settlement,
      closing or other check, and the project running all along. */
  ghost predicate FullIntervalAt(log: seq<Entry>, p: nat, intervalMs: real)
    requires p < |log|
  {
    NothingAfter(log[..p], log[p].atMs - intervalMs) && LatestStatus(log[..p]).Running?
  }

  ghost predicate FullIntervals(log: seq<Entry>, intervalMs: real) {
    forall p :: 0 <= p < |log| && log[p].Started? ==> FullIntervalAt(log, p, intervalMs)
  }

  /** The armed deadline lies a whole interval after everything that has happened. */
  ghost predicate DeadlineIsFair(m: Machine) {
    m.deadlineMs.Some? ==> NothingAfter(m.log, m.deadlineMs.value - m.intervalMs)
  }

  lemma FullIntervalsSnoc(log: seq<Entry>, e: Entry, intervalMs: real)
    requires FullIntervals(log, intervalMs)
    requires e.Started? ==> NothingAfter(log, e.atMs - intervalMs) && LatestStatus(log).Running?
    ensures FullIntervals(log + [e], intervalMs)
  {
    var all := log + [e];
    forall p | 0 <= p < |all| && all[p].Started? ensures FullIntervalAt(all, p, intervalMs) {
      if p < |log| {
        assert all[..p] == log[..p];
        assert FullIntervalAt(log, p, intervalMs);
      } else {
        assert all[..p] == log;
      }
    }
  }

  lemma NothingAfterSnoc(log: seq<Entry>, e: Entry, t: real)
    ensures NothingAfter(log + [e], t) <==> NothingAfter(log, t) && e.atMs <= t
  {
    assert (log + [e])[|log|] == e;
    assert forall q :: 0 <= q < |log| ==> (log + [e])[q] == log[q];
  }

  lemma NextKeepsIntervals(m: Machine, e: Event)
    requires Inv(m) && Enabled(m, e)
    requires FullIntervals(m.log, m.intervalMs) && DeadlineIsFair(m) && NothingAfter(m.log, e.atMs)
    ensures var n := Next(m, e);
            FullIntervals(n.log, n.intervalMs) && DeadlineIsFair(n) && NothingAfter(n.log, e.atMs)
  {
    var n := Next(m, e);
    if n.log != m.log {
      var added := n.log[|m.log|];
      assert n.log == m.log + [added] && added.atMs == e.atMs;
      if added.Started? {
        assert m.deadlineMs.value <= e.atMs;
      }
      FullIntervalsSnoc(m.log, added, m.intervalMs);
      NothingAfterSnoc(m.log, added, e.atMs);
    }
  }

  lemma {:induction false} RunIsSafe(enabled: bool, intervalMs: real, startMs: real, es: seq<Event>)
    requires Chronological(startMs, es)
    ensures var r := Run(Initial(enabled, intervalMs), es);
            r.Some? ==>
              && Inv(r.value) && DeadlineIsFair(r.value)
              && r.value.intervalMs == intervalMs
              && FullIntervals(r.value.log, intervalMs)
              && NothingAfter(r.value.log, LastReading(startMs, es))
  {
    if es != [] {
      var n := |es| - 1;
      RunIsSafe(enabled, intervalMs, startMs, es[..n]);
      var before := Run(Initial(enabled, intervalMs), es[..n]);
      if before.Some? && Enabled(before.value, es[n]) {
        assert LastReading(startMs, es[..n]) <= es[n].atMs <= SecondReading(es[n]);
        NextKeepsInv(before.value, es[n]);
        NextKeepsIntervals(before.value, es[n]);
      }
    }
  }

  // ---------------------------------------------------------------- aiming at the deadline

  /** An armed timeout ends at its deadline if a single delay can reach that far, at once if the deadline
      has passed, and after the longest possible delay otherwise. */
  ghost predicate Aims(t: Timer) {
    var aheadMs := t.deadlineMs - t.setAtMs;
    && (0.0 <= aheadMs <= 2_147_483_647.0 ==> t.setAtMs + t.delayMs == t.deadlineMs)
    && (aheadMs < 0.0 ==> t.delayMs == 0.0)
    && (aheadMs > 2_147_483_647.0 ==> t.delayMs == 2_147_483_647.0)
  }

  /** The deadline lies exactly one interval after the event that armed it, which is the last one noted. */
  ghost predicate DeadlineIsDue(m: Machine) {
    m.timer.Some? ==>
      && Aims(m.timer.value)
      && m.log != [] && m.timer.value.deadlineMs == m.log[|m.log| - 1].atMs + m.intervalMs
  }

  lemma NextKeepsDue(m: Machine, e: Event)
    requires Inv(m) && Enabled(m, e) && DeadlineIsDue(m)
    ensures DeadlineIsDue(Next(m, e))
  {
  }

  /** A timer is armed by a status change or a settlement only, for an interval after it on either clock,
      and keeps both times until it is disarmed or has fired. */
  lemma ArmsExactly(m: Machine, e: Event)
    requires Inv(m) && Enabled(m, e) && Next(m, e).timer.Some?
    ensures var n := Next(m, e);
            if m.timer.Some? then n.deadlineMs == m.deadlineMs && n.dueWall == m.dueWall
            else (e.ChangeStatus? || e.CheckSettles?)
                 && n.deadlineMs == Some(e.atMs + m.intervalMs) && n.dueWall == Some(e.wall + m.intervalMs)
  {
  }

  /** A timeout fires exactly when its delay is over, and none is set after its deadline. */
  ghost predicate OnTime(m: Machine, e: Event)
    requires Enabled(m, e)
  {
    && (e.TimerFires? ==> e.atMs == m.timer.value.setAtMs + m.timer.value.delayMs)
    && (Next(m, e).timer.Some? ==> Next(m, e).timer.value.setAtMs <= Next(m, e).timer.value.deadlineMs)
  }

  ghost predicate AlwaysOnTime(m: Machine, es: seq<Event>) {
    es == [] ||
    (var n := |es| - 1;
     && AlwaysOnTime(m, es[..n])
     && (Run(m, es[..n]).Some? && Enabled(Run(m, es[..n]).value, es[n]) ==> OnTime(Run(m, es[..n]).value, es[n])))
  }

  /** The check noted at `p` started one interval after what was noted just before it. */
  predicate StartsWhenDue(log: seq<Entry>, p: nat, intervalMs: real)
    requires p < |log|
  {
    p > 0 && log[p].atMs == log[p - 1].atMs + intervalMs
  }

  ghost predicate ChecksStartWhenDue(m: Machine) {
    && DeadlineIsDue(m)
    && (m.timer.Some? ==> m.timer.value.setAtMs <= m.timer.value.deadlineMs)
    && forall p :: 0 <= p < |m.log| && m.log[p].Started? ==> StartsWhenDue(m.log, p, m.intervalMs)
  }

  /** An event notes at most one thing; a check is started by a timeout that has reached its deadline. */
  lemma NextLogs(m: Machine, e: Event)
    requires Enabled(m, e) && Inv(m)
    ensures var n := Next(m, e);
            && n.intervalMs == m.intervalMs
            && (n.log == m.log || (|n.log| == |m.log| + 1 && m.log <= n.log && n.log[|m.log|].atMs == e.atMs))
            && (n.log != m.log && n.log[|m.log|].Started? ==> e.TimerFires? && e.atMs >= m.timer.value.deadlineMs)
  {
  }

  lemma NextStartsWhenDue(m: Machine, e: Event)
    requires Inv(m) && Enabled(m, e) && ChecksStartWhenDue(m) && OnTime(m, e)
    ensures ChecksStartWhenDue(Next(m, e))
  {
    var n := Next(m, e);
    NextKeepsDue(m, e);
    NextLogs(m, e);
    forall p | 0 <= p < |n.log| && n.log[p].Started? ensures StartsWhenDue(n.log, p, n.intervalMs) {
      if p < |m.log| {
        assert n.log[p] == m.log[p] && (p > 0 ==> n.log[p - 1] == m.log[p - 1]);
        assert StartsWhenDue(m.log, p, m.intervalMs);
      } else {
        assert p == |m.log| && n.log[p - 1] == m.log[p - 1];
      }
    }
  }

  /** On every run each armed timeout aims at a deadline that is one interval after the event it was armed
      by; and if timeouts fire exactly when due, and are set before their deadlines, every check starts
      exactly then. */
  lemma {:induction false} ChecksStartOnTime(enabled: bool, intervalMs: real, startMs: real, es: seq<Event>)
    requires Chronological(startMs, es)
    ensures var r := Run(Initial(enabled, intervalMs), es);
            r.Some? ==> DeadlineIsDue(r.value) && (AlwaysOnTime(Initial(enabled, intervalMs), es) ==> ChecksStartWhenDue(r.value))
  {
    if es != [] {
      var n := |es| - 1;
      ChecksStartOnTime(enabled, intervalMs, startMs, es[..n]);
      RunIsSafe(enabled, intervalMs, startMs, es[..n]);
      var before := Run(Initial(enabled, intervalMs), es[..n]);
      if before.Some? && Enabled(before.value, es[n]) {
        NextKeepsDue(before.value, es[n]);
        if AlwaysOnTime(Initial(enabled, intervalMs), es) { NextStartsWhenDue(before.value, es[n]); }
      }
    }
  }

  // ---------------------------------------------------------------- what was last attempted

  function LastSettled(es: seq<Event>): Option<Attempt> {
    if es == [] then None
    else
      var e := es[|es| - 1];
      if e.CheckSettles? then Some(Attempt(e.outcome, e.wall)) else LastSettled(es[..|es| - 1])
  }

  function LastSucceeded(es: seq<Event>): Option<real> {
    if es == [] then None
    else
      var e := es[|es| - 1];
      if e.CheckSettles? && e.outcome.Succeeded? then Some(e.wall) else LastSucceeded(es[..|es| - 1])
  }

  lemma NextRemembers(m: Machine, e: Event)
    requires Enabled(m, e)
    ensures Next(m, e).lastAttempt == if e.CheckSettles? then Some(Attempt(e.outcome, e.wall)) else m.lastAttempt
    ensures Next(m, e).lastSuccess == if e.CheckSettles? && e.outcome.Succeeded? then Some(e.wall) else m.lastSuccess
  {
    match e {
      case ChangeStatus(_, _, _, _) =>
      case CloseAdmission(_) =>
      case TimerFires(_, _, _) =>
      case CheckSettles(_, _, _, _) =>
      case CheckRejects(_) =>
    }
  }

  /** On every run the last attempt is the last check that settled, with its outcome and time, and the
      last success is the last one that succeeded. */
  lemma {:induction false} AttemptsAreRemembered(enabled: bool, intervalMs: real, es: seq<Event>)
    ensures var r := Run(Initial(enabled, intervalMs), es);
            r.Some? ==> r.value.lastAttempt == LastSettled(es) && r.value.lastSuccess == LastSucceeded(es)
  {
    if es != [] {
      var n := |es| - 1;
      AttemptsAreRemembered(enabled, intervalMs, es[..n]);
      var before := Run(Initial(enabled, intervalMs), es[..n]);
      if before.Some? && Enabled(before.value, es[n]) { NextRemembers(before.value, es[n]); }
    }
  }

  // ---------------------------------------------------------------- chunked timeouts

  /** A timeout that never fires before its delay is over. */
  predicate NotEarly(m: Machine, e: Event) {
    e.TimerFires? && m.timer.Some? ==> m.timer.value.setAtMs + m.timer.value.delayMs <= e.atMs
  }

  /** Each timeout but the last of an arming used up a maximal delay of the interval. */
  ghost predicate ChunksFit(m: Machine) {
    m.timer.Some? ==>
      && m.timersSet >= 1
      && m.timer.value.setAtMs >= m.timer.value.deadlineMs - m.intervalMs + (m.timersSet - 1) as real * MAX_TIMEOUT_MS
      && Aims(m.timer.value)
      && (m.timersSet - 1) as real * MAX_TIMEOUT_MS < m.intervalMs
  }

  /** With timeouts that never fire early, one arming sets at most ceil(interval / 2147483647) of them. */
  lemma NextKeepsChunks(m: Machine, e: Event)
    requires Inv(m) && Enabled(m, e) && ChunksFit(m) && NotEarly(m, e)
    requires m.intervalMs > 0.0 && e.atMs <= SecondReading(e)
    ensures ChunksFit(Next(m, e))
  {
    if e.TimerFires? && e.atMs < m.timer.value.deadlineMs {
      var t := m.timer.value;
      assert t.delayMs == MAX_TIMEOUT_MS;
      var n := Next(m, e);
      assert (n.timersSet - 1) as real == (m.timersSet - 1) as real + 1.0;
    }
  }

  ghost predicate NeverEarly(m: Machine, es: seq<Event>) {
    es == [] ||
    (var n := |es| - 1;
     NeverEarly(m, es[..n]) && (Run(m, es[..n]).Some? ==> NotEarly(Run(m, es[..n]).value, es[n])))
  }

  lemma {:induction false} ChunkedTimeoutsFit(enabled: bool, intervalMs: real, startMs: real, es: seq<Event>)
    requires Chronological(startMs, es) && intervalMs > 0.0
    requires NeverEarly(Initial(enabled, intervalMs), es)
    ensures var r := Run(Initial(enabled, intervalMs), es);
            r.Some? ==> ChunksFit(r.value) && r.value.intervalMs == intervalMs
  {
    if es != [] {
      var n := |es| - 1;
      ChunkedTimeoutsFit(enabled, intervalMs, startMs, es[..n]);
      RunIsSafe(enabled, intervalMs, startMs, es[..n]);
      var before := Run(Initial(enabled, intervalMs), es[..n]);
      if before.Some? && Enabled(before.value, es[n]) {
        NextKeepsChunks(before.value, es[n]);
      }
    }
  }

  // ---------------------------------------------------------------- the object

  class OversightSession {
    var cancelled: bool

    constructor ()
      ensures !cancelled
    {
      cancelled := false;
    }

    method Cancel()
      modifies this
      ensures cancelled
    {
      cancelled := true;
    }
  }

  class Oversight {
    const enabled: bool
    const intervalMs: real
    var runtimeStatus: RuntimeStatus
    var closing: bool
    var timer: Option<Timer>
    var deadline: Option<real>
    var dueWall: Option<real>
    var check: OversightSession?
    var lastAttempt: Option<Attempt>
    var lastSuccess: Option<real>
    ghost var overlapped: bool
    ghost var timersSet: nat
    ghost var changes: nat
    ghost var log: seq<Entry>

    ghost function Model(): Machine
      reads this, check
    {
      Machine(enabled, intervalMs, runtimeStatus, closing, timer, deadline, dueWall,
              if check == null then None else Some(Check(check.cancelled)),
              lastAttempt, lastSuccess, overlapped, timersSet, changes, log)
    }

    constructor (enabled: bool, intervalMs: real)
      requires intervalMs > 0.0
      ensures Model() == Initial(enabled, intervalMs) && check == null
    {
      this.enabled, this.intervalMs := enabled, intervalMs;
      runtimeStatus, closing, timer, deadline, dueWall, check := Stopped, false, None, None, None, null;
      lastAttempt, lastSuccess, overlapped, timersSet, changes, log := None, None, false, 0, 0, [];
    }

    ghost method NotifyChanged()
      modifies this`changes
      ensures Model() == Changed(old(Model()))
    {
      changes := changes + 1;
    }

    ghost method Note(e: Entry)
      modifies this`log
      ensures Model() == Log(old(Model()), e)
    {
      log := log + [e];
    }

    method SetTimer(deadlineMs: real, nowMs: real)
      modifies this`timer, this`timersSet, this`changes
      ensures Model() == ArmRemaining(old(Model()), deadlineMs, nowMs)
    {
      var remaining := deadlineMs - nowMs;
      if remaining < 0.0 {
        remaining := 0.0;
      }
      var wait := if remaining < MAX_TIMEOUT_MS then remaining else MAX_TIMEOUT_MS;
      timer := Some(Timer(deadlineMs, nowMs, wait));
      timersSet := timersSet + 1;
      NotifyChanged();
    }

    method ArmTimer(atMs: real, laterMs: real, wall: real)
      modifies this`timer, this`deadline, this`dueWall, this`timersSet, this`changes
      ensures Model() == Arm(old(Model()), atMs, laterMs, wall)
    {
      if !enabled || closing || !runtimeStatus.Running? || check != null || timer.Some? {
        return;
      }
      deadline := Some(atMs + intervalMs);
      dueWall := Some(wall + intervalMs);
      timersSet := 0;
      SetTimer(atMs + intervalMs, laterMs);
    }

    method DisarmTimer()
      modifies this`timer, this`deadline, this`dueWall
      ensures Model() == Disarm(old(Model()))
    {
      timer, deadline, dueWall := None, None, None;
    }

    method CancelRunningCheck()
      modifies check
      ensures Model() == CancelCheck(old(Model()))
    {
      if check != null {
        check.Cancel();
      }
    }

    method DispatchOwnerFailure(atMs: real)
      modifies this`closing, this`timer, this`deadline, this`dueWall, this`changes, this`log
      ensures Model() == OwnerFailure(old(Model()), atMs)
    {
      closing := true;
      DisarmTimer();
      NotifyChanged();
      Note(OwnerFailed(atMs));
    }

    method BeginCheck(atMs: real, creation: Creation)
      modifies this
      ensures Model() == StartCheck(old(Model()), atMs, creation)
      ensures check == old(check) || fresh(check)
    {
      if check != null {
        overlapped := true;
        return;
      }
      if creation.Throws? {
        DispatchOwnerFailure(atMs);
        return;
      }
      check := new OversightSession();
      Note(Started(atMs));
      NotifyChanged();
    }

    method RuntimeStatusChanged(status: RuntimeStatus, atMs: real, laterMs: real, wall: real)
      modifies this, check
      ensures Model() == Next(old(Model()), ChangeStatus(status, atMs, laterMs, wall)) && check == old(check)
    {
      if runtimeStatus == status {
        return;
      }
      runtimeStatus := status;
      Note(StatusChanged(status, atMs));
      assert Model() == Log(old(Model()).(status := status), StatusChanged(status, atMs));
      ApplyStatus(atMs, laterMs, wall);
      NotifyChanged();
    }

    /** Arm for a status that allows checks, stop everything for one that does not. */
    method ApplyStatus(atMs: real, laterMs: real, wall: real)
      modifies this, check
      ensures Model() == StatusApplied(old(Model()), atMs, laterMs, wall) && check == old(check)
    {
      if runtimeStatus.Running? && !closing {
        if check == null {
          ArmTimer(atMs, laterMs, wall);
        }
      } else {
        DisarmTimer();
        CancelRunningCheck();
      }
    }

    method Close(atMs: real)
      modifies this, check
      ensures Model() == Next(old(Model()), CloseAdmission(atMs)) && check == old(check)
    {
      if closing {
        return;
      }
      closing := true;
      Note(Closed(atMs));
      DisarmTimer();
      CancelRunningCheck();
      NotifyChanged();
    }

    /** The armed timeout's callback; a cleared timeout has none. */
    method OnTimer(atMs: real, laterMs: real, creation: Creation)
      requires timer.Some?
      modifies this
      ensures Model() == Next(old(Model()), TimerFires(atMs, laterMs, creation))
      ensures check == old(check) || fresh(check)
    {
      var armedFor := timer.value.deadlineMs;
      timer := None;
      if deadline != Some(armedFor) {
        return;
      }
      if atMs < armedFor {
        SetTimer(armedFor, laterMs);
        return;
      }
      deadline, dueWall := None, None;
      if enabled && !closing && runtimeStatus.Running? {
        BeginCheck(atMs, creation);
      } else {
        NotifyChanged();
      }
    }

    method OnCheckSettled(outcome: CheckOutcome, atMs: real, laterMs: real, wall: real)
      requires check != null
      modifies this
      ensures Model() == Next(old(Model()), CheckSettles(outcome, atMs, laterMs, wall)) && check == null
    {
      lastAttempt := Some(Attempt(outcome, wall));
      if outcome.Succeeded? {
        lastSuccess := Some(wall);
      }
      check := null;
      Note(Settled(atMs));
      if enabled && !closing && runtimeStatus.Running? {
        ArmTimer(atMs, laterMs, wall);
      }
      NotifyChanged();
    }

    method OnCheckRejected(atMs: real)
      requires check != null
      modifies this
      ensures Model() == Next(old(Model()), CheckRejects(atMs)) && check == null
    {
      check := null;
      DispatchOwnerFailure(atMs);
    }
  }

  /** Only a positive interval is accepted. */
  method NewOversight(enabled: bool, intervalMs: real) returns (r: Option<Oversight>)
    ensures r.Some? <==> intervalMs > 0.0
    ensures r.Some? ==> fresh(r.value) && r.value.Model() == Initial(enabled, intervalMs)
  {
    if intervalMs <= 0.0 {
      return None;
    }
    var oversight := new Oversight(enabled, intervalMs);
    return Some(oversight);
  }
}
