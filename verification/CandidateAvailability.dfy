/** The process-local availability store shared by every invocation. */
module CandidateAvailability {
  import opened Wrappers
  import opened Search

  datatype Candidate = Candidate(provider: string, account: Option<string>, model: string)

  datatype Health = Healthy | BlockedUntil | Cooling

  type Blocking = h: Health | h != Healthy witness Cooling

  datatype Reason =
    | ServerTransient
    | ServerOverloaded
    | TimedOut
    | RateLimited
    | UnknownFailure
    | AuthPermanent
    | OtherReason(text: string)

  datatype Decision = Decision(state: Blocking, untilMs: int, reason: Option<Reason>)

  datatype Entry = Entry(
    candidate: Candidate, state: Health, untilMs: int, reason: Option<Reason>, updatedAtMs: int)

  type Store = seq<Entry>

  function IndexOf(store: Store, c: Candidate): (r: Option<nat>)
    ensures r.Some? ==> r.value < |store| && store[r.value].candidate == c
    ensures r.None? ==> forall j :: 0 <= j < |store| ==> store[j].candidate != c
  {
    FindFirst(store, (e: Entry) => e.candidate == c)
  }

  function GetEntry(store: Store, c: Candidate): Option<Entry> {
    match IndexOf(store, c)
    case None => None
    case Some(i) => Some(store[i])
  }

  predicate IsAvailable(store: Store, c: Candidate, nowMs: int) {
    match GetEntry(store, c)
    case None => true
    case Some(e) => e.state.Healthy? || nowMs >= e.untilMs
  }

  /** Replace the entry for `e.candidate`, or append it. */
  function Put(store: Store, e: Entry): Store {
    match IndexOf(store, e.candidate)
    case None => store + [e]
    case Some(i) => store[i := e]
  }

  function SucceededEntry(c: Candidate, nowMs: int): Entry {
    Entry(c, Healthy, 0, None, nowMs)
  }

  /** A new failure may not shorten a longer existing block. */
  function FailedEntry(prev: Option<Entry>, c: Candidate, d: Decision, nowMs: int): Entry {
    var untilMs :=
      if prev.Some? && !prev.value.state.Healthy? && prev.value.untilMs > d.untilMs
      then prev.value.untilMs else d.untilMs;
    Entry(c, d.state, untilMs, d.reason, nowMs)
  }

  datatype StoreOp =
    | MarkFailed(candidate: Candidate, decision: Decision, nowMs: int)
    | MarkSucceeded(candidate: Candidate, nowMs: int)

  function Apply(store: Store, op: StoreOp): Store {
    match op
    case MarkFailed(c, d, now) => Put(store, FailedEntry(GetEntry(store, c), c, d, now))
    case MarkSucceeded(c, now) => Put(store, SucceededEntry(c, now))
  }

  /** The store after a sequence of calls, the last one applied last. */
  function Replay(store: Store, ops: seq<StoreOp>): Store {
    if ops == [] then store
    else Apply(Replay(store, ops[..|ops| - 1]), ops[|ops| - 1])
  }

  /** One entry per candidate, and a healthy entry carries no reason. */
  ghost predicate WellFormed(store: Store) {
    && (forall i, j :: 0 <= i < j < |store| ==> store[i].candidate != store[j].candidate)
    && (forall i :: 0 <= i < |store| && store[i].state.Healthy? ==> store[i].reason.None?)
  }

  lemma GetEntryIsUnique(store: Store, i: nat)
    requires WellFormed(store) && i < |store|
    ensures GetEntry(store, store[i].candidate) == Some(store[i])
  {
    var r := IndexOf(store, store[i].candidate);
    assert r == Some(i);
  }

  lemma PutIsMapUpdate(store: Store, e: Entry, c: Candidate)
    requires WellFormed(store)
    requires e.state.Healthy? ==> e.reason.None?
    ensures WellFormed(Put(store, e))
    ensures GetEntry(Put(store, e), c) == if c == e.candidate then Some(e) else GetEntry(store, c)
  {
    var after := Put(store, e);
    assert WellFormed(after);
    match IndexOf(store, e.candidate) {
      case None => assert after[|store|] == e;
      case Some(k) => assert after[k] == e;
    }
    var r := IndexOf(after, c);
    if r.Some? {
      GetEntryIsUnique(after, r.value);
      if c != e.candidate {
        assert r.value < |store| && store[r.value] == after[r.value];
        GetEntryIsUnique(store, r.value);
      }
    } else {
      assert forall j :: 0 <= j < |store| ==> store[j].candidate == after[j].candidate;
    }
  }

  /** Entries stay where they are, and a new one comes last. */
  lemma PutKeepsOrder(store: Store, e: Entry)
    ensures var after := Put(store, e);
            && |store| <= |after| <= |store| + 1
            && (forall i :: 0 <= i < |store| ==> after[i].candidate == store[i].candidate)
            && (|after| == |store| <==> exists i :: 0 <= i < |store| && store[i].candidate == e.candidate)
  {
    assert IndexOf(store, e.candidate).Some? ==> store[IndexOf(store, e.candidate).value].candidate == e.candidate;
  }

  lemma {:induction false} ReplayKeepsWellFormed(store: Store, ops: seq<StoreOp>)
    requires WellFormed(store)
    ensures WellFormed(Replay(store, ops))
  {
    if ops != [] {
      var before := ops[..|ops| - 1];
      ReplayKeepsWellFormed(store, before);
      var op := ops[|ops| - 1];
      var at := Replay(store, before);
      match op
      case MarkFailed(c, d, now) => PutIsMapUpdate(at, FailedEntry(GetEntry(at, c), c, d, now), c);
      case MarkSucceeded(c, now) => PutIsMapUpdate(at, SucceededEntry(c, now), c);
    }
  }

  /** Call `i` is a failure of `c` with no later success of `c`. */
  ghost predicate Live(ops: seq<StoreOp>, i: int, c: Candidate) {
    && 0 <= i < |ops|
    && ops[i].MarkFailed? && ops[i].candidate == c
    && forall j :: i < j < |ops| ==> !(ops[j].MarkSucceeded? && ops[j].candidate == c)
  }

  /** The horizon of `c` is the largest `untilMs` of its live failures. */
  ghost predicate IsHorizon(ops: seq<StoreOp>, c: Candidate, untilMs: int) {
    && (forall i :: Live(ops, i, c) ==> ops[i].decision.untilMs <= untilMs)
    && (exists i :: Live(ops, i, c) && ops[i].decision.untilMs == untilMs)
  }

  lemma LiveStep(ops: seq<StoreOp>, op: StoreOp, c: Candidate)
    ensures op.candidate != c ==> forall i :: Live(ops + [op], i, c) <==> Live(ops, i, c)
    ensures op.candidate == c && op.MarkSucceeded? ==> forall i :: !Live(ops + [op], i, c)
    ensures op.candidate == c && op.MarkFailed? ==>
              forall i :: Live(ops + [op], i, c) <==> Live(ops, i, c) || i == |ops|
  {
    var all := ops + [op];
    forall i | 0 <= i < |ops|
      ensures Live(all, i, c) <==> Live(ops, i, c) && !(op.MarkSucceeded? && op.candidate == c)
    {
      assert forall j :: i < j < |ops| ==> all[j] == ops[j];
      assert all[|ops|] == op;
    }
  }

  /** What the calls leave behind for one candidate. */
  function EntryAfter(ops: seq<StoreOp>, c: Candidate): Option<Entry> {
    if ops == [] then None
    else
      var before, op := EntryAfter(ops[..|ops| - 1], c), ops[|ops| - 1];
      if op.candidate != c then before
      else
        match op
        case MarkFailed(_, d, now) => Some(FailedEntry(before, c, d, now))
        case MarkSucceeded(_, now) => Some(SucceededEntry(c, now))
  }

  /** Candidates do not interfere: each entry depends only on its own calls. */
  lemma {:induction false} ReplayIsPerCandidate(ops: seq<StoreOp>, c: Candidate)
    ensures WellFormed(Replay([], ops))
    ensures GetEntry(Replay([], ops), c) == EntryAfter(ops, c)
  {
    ReplayKeepsWellFormed([], ops);
    if ops != [] {
      var before, op := ops[..|ops| - 1], ops[|ops| - 1];
      var at := Replay([], before);
      ReplayKeepsWellFormed([], before);
      ReplayIsPerCandidate(before, c);
      match op
      case MarkFailed(b, d, now) => PutIsMapUpdate(at, FailedEntry(GetEntry(at, b), b, d, now), c);
      case MarkSucceeded(b, now) => PutIsMapUpdate(at, SucceededEntry(b, now), c);
    }
  }

  ghost predicate Blocked(e: Option<Entry>) {
    e.Some? && !e.value.state.Healthy?
  }

  lemma {:induction false} EntryIsHorizon(ops: seq<StoreOp>, c: Candidate)
    ensures Blocked(EntryAfter(ops, c)) ==> IsHorizon(ops, c, EntryAfter(ops, c).value.untilMs)
    ensures !Blocked(EntryAfter(ops, c)) ==> forall i :: !Live(ops, i, c)
  {
    if ops != [] {
      var before, op := ops[..|ops| - 1], ops[|ops| - 1];
      assert ops == before + [op];
      EntryIsHorizon(before, c);
      LiveStep(before, op, c);
      assert forall i :: Live(before, i, c) ==> ops[i] == before[i];
      var prev := EntryAfter(before, c);
      if Blocked(prev) {
        var w :| Live(before, w, c) && before[w].decision.untilMs == prev.value.untilMs;
        assert op.candidate != c || op.MarkFailed? ==> Live(ops, w, c);
      }
      if op.candidate == c && op.MarkFailed? {
        assert Live(ops, |before|, c);
      }
    }
  }

  /** Over any call sequence, the store holds one entry per candidate; its block is the largest
      horizon among the failures since the last success, and that alone decides availability. */
  lemma ReplayRefinesHorizons(ops: seq<StoreOp>, c: Candidate)
    ensures WellFormed(Replay([], ops))
    ensures Blocked(GetEntry(Replay([], ops), c)) <==> exists i :: Live(ops, i, c)
    ensures Blocked(GetEntry(Replay([], ops), c)) ==>
              IsHorizon(ops, c, GetEntry(Replay([], ops), c).value.untilMs)
    ensures forall now ::
              IsAvailable(Replay([], ops), c, now) <==>
              forall i :: Live(ops, i, c) ==> ops[i].decision.untilMs <= now
  {
    ReplayIsPerCandidate(ops, c);
    EntryIsHorizon(ops, c);
    if Blocked(EntryAfter(ops, c)) {
      var w :| Live(ops, w, c) && ops[w].decision.untilMs == EntryAfter(ops, c).value.untilMs;
    }
  }

  /** Call `i` is the last one made about `c`. */
  ghost predicate Latest(ops: seq<StoreOp>, i: int, c: Candidate) {
    && 0 <= i < |ops| && ops[i].candidate == c
    && forall j :: i < j < |ops| ==> ops[j].candidate != c
  }

  /** What an entry says of the call that was last made about its candidate. */
  ghost predicate Reports(e: Option<Entry>, op: StoreOp) {
    && e.Some? && e.value.candidate == op.candidate && e.value.updatedAtMs == op.nowMs
    && (op.MarkFailed? ==> e.value.state == op.decision.state && e.value.reason == op.decision.reason)
    && (op.MarkSucceeded? ==> e.value.state.Healthy? && e.value.reason.None? && e.value.untilMs == 0)
  }

  lemma ApplyReports(store: Store, op: StoreOp, c: Candidate)
    requires WellFormed(store)
    ensures c == op.candidate ==> Reports(GetEntry(Apply(store, op), c), op)
    ensures c != op.candidate ==> GetEntry(Apply(store, op), c) == GetEntry(store, c)
  {
    match op
    case MarkFailed(b, d, now) => PutIsMapUpdate(store, FailedEntry(GetEntry(store, b), b, d, now), c);
    case MarkSucceeded(b, now) => PutIsMapUpdate(store, SucceededEntry(b, now), c);
  }

  /** Over any call sequence, the entry of a candidate carries state, reason and time of the last call
      about it, whatever other failures its horizon comes from; there is none before the first call. */
  lemma {:induction false} EntryReportsLatestCall(ops: seq<StoreOp>, c: Candidate)
    ensures GetEntry(Replay([], ops), c).None? <==> forall i :: 0 <= i < |ops| ==> ops[i].candidate != c
    ensures forall i :: Latest(ops, i, c) ==> Reports(GetEntry(Replay([], ops), c), ops[i])
  {
    if ops != [] {
      var before, op := ops[..|ops| - 1], ops[|ops| - 1];
      EntryReportsLatestCall(before, c);
      ReplayKeepsWellFormed([], before);
      ApplyReports(Replay([], before), op, c);
      forall i | Latest(ops, i, c) ensures Reports(GetEntry(Replay([], ops), c), ops[i]) {
        if i < |before| {
          assert Latest(before, i, c) && ops[|before|] == op;
        }
      }
      assert forall i :: 0 <= i < |before| ==> ops[i] == before[i];
      assert ops[|before|] == op;
    }
  }

  /** The store object; `entries` is appended to and overwritten in place. */
  class MemoryCandidateAvailability {
    var entries: seq<Entry>

    constructor ()
      ensures entries == []
    {
      entries := [];
    }

    predicate Available(c: Candidate, nowMs: int)
      reads this
    {
      IsAvailable(entries, c, nowMs)
    }

    function Lookup(c: Candidate): Option<Entry>
      reads this
    {
      GetEntry(entries, c)
    }

    method Succeeded(c: Candidate, nowMs: int)
      modifies this
      ensures entries == Apply(old(entries), MarkSucceeded(c, nowMs))
    {
      var next := Entry(c, Healthy, 0, None, nowMs);
      var index := IndexOf(entries, c);
      if index.None? {
        entries := entries + [next];
      } else {
        entries := entries[index.value := next];
      }
    }

    method Failed(c: Candidate, decision: Decision, nowMs: int)
      modifies this
      ensures entries == Apply(old(entries), MarkFailed(c, decision, nowMs))
    {
      var prev := Lookup(c);
      var untilMs := decision.untilMs;
      if prev.Some? && !prev.value.state.Healthy? && prev.value.untilMs > untilMs {
        untilMs := prev.value.untilMs;
      }
      var next := Entry(c, decision.state, untilMs, decision.reason, nowMs);
      var index := IndexOf(entries, c);
      if index.None? {
        entries := entries + [next];
      } else {
        entries := entries[index.value := next];
      }
    }

    /** Calls made by other invocations, in order. */
    method Interfere(ops: seq<StoreOp>)
      modifies this
      ensures entries == Replay(old(entries), ops)
    {
      for i := 0 to |ops|
        invariant entries == Replay(old(entries), ops[..i])
      {
        assert ops[..i + 1][..i] == ops[..i];
        match ops[i]
        case MarkFailed(c, d, now) => Failed(c, d, now);
        case MarkSucceeded(c, now) => Succeeded(c, now);
      }
      assert ops[..|ops|] == ops;
    }
  }
}
