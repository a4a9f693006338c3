/** Interleaved argument deltas reach the call they belong to, by whichever identity they name it. */
module CodexDemultiplexing {
  import opened Wrappers
  import opened CodexEvents

  function IdSet(call: string, itemId: Option<string>): set<string> {
    if itemId.Some? then {call, itemId.value} else {call}
  }

  function ItemIds(item: Item): set<string> {
    if !item.FunctionCall? then {}
    else
      var call, itemId := Identity(item.callId, item.id), ItemIdentity(item.id);
      if call.Some? && itemId.Ok? then IdSet(call.value, itemId.value) else {}
  }

  /** The identities under which an event adds or completes a call. */
  function Claims(e: CodexEvent): set<string> {
    match e
    case ItemAdded(item) => ItemIds(item)
    case ItemDone(item) => ItemIds(item)
    case ArgumentsDone(callId, itemId, _, _) =>
      var id := Identity(callId, itemId);
      if id.Some? then {id.value} else {}
    case _ => {}
  }

  ghost predicate Unclaimed(es: seq<CodexEvent>, ids: set<string>) {
    forall i :: 0 <= i < |es| ==> Claims(es[i]) !! ids
  }

  /** The text of a delta addressed to one of `ids`. */
  function DeltaText(e: CodexEvent, ids: set<string>): string {
    if e.ArgumentsDelta? && e.delta.Str? then
      var id := Identity(e.callId, e.itemId);
      if id.Some? && id.value in ids then e.delta.text else ""
    else ""
  }

  function Deltas(es: seq<CodexEvent>, ids: set<string>): string {
    if es == [] then "" else Deltas(es[..|es| - 1], ids) + DeltaText(es[|es| - 1], ids)
  }

  predicate Foreign(p: Pending, ids: set<string>) {
    p.id !in ids && (p.itemId.Some? ==> p.itemId.value !in ids)
  }

  /** No pending call of `f` uses any of `ids`, and exactly `emitted` among them are finalized. */
  ghost predicate Apart(f: Fold, ids: set<string>, emitted: set<string>) {
    && Linked(f)
    && f.finalized * ids == emitted
    && forall k :: k in f.keys ==> k !in ids && Foreign(f.slots[f.keys[k]], ids)
  }

  /** Slot `h` holds the call, exactly the identities `ids` lead to it, and it holds `args` so far. */
  ghost predicate Tracks(f: Fold, h: nat, p: Pending, ids: set<string>) {
    && Linked(f)
    && f.finalized !! ids
    && h < |f.slots| && f.slots[h] == p
    && (forall k :: k in ids ==> k in f.keys && f.keys[k] == h)
    && (forall k :: k in f.keys && k !in ids ==> f.keys[k] != h && Foreign(f.slots[f.keys[k]], ids))
  }

  // ---------------------------------------------------------------- the four ways an event acts

  lemma FinalizeElsewhere(f: Fold, id: string, name: Json, args: string, ids: set<string>)
    requires id !in ids
    ensures Finalize(f, id, name, args).finalized * ids == f.finalized * ids
    ensures Finalize(f, id, name, args).keys == f.keys && Finalize(f, id, name, args).slots == f.slots
  {
  }

  lemma AddApart(f: Fold, call: string, itemId: Option<string>, name: Json, args: string, ids: set<string>, emitted: set<string>)
    requires Apart(f, ids, emitted) && IdSet(call, itemId) !! ids
    ensures Apart(AddCall(f, call, itemId, name, args), ids, emitted)
  {
    assert call in IdSet(call, itemId) && (itemId.Some? ==> itemId.value in IdSet(call, itemId));
  }

  lemma CompleteApart(f: Fold, slot: nat, name: Json, arguments: Json, ids: set<string>, emitted: set<string>)
    requires Apart(f, ids, emitted) && slot < |f.slots| && Foreign(f.slots[slot], ids)
    ensures Apart(CompleteSlot(f, slot, name, arguments), ids, emitted)
  {
    var p := f.slots[slot];
    FinalizeElsewhere(f, p.id, JsonOr(name, p.name), TextOr(arguments, p.args), ids);
  }

  lemma AppendApart(f: Fold, slot: nat, delta: string, ids: set<string>, emitted: set<string>)
    requires Apart(f, ids, emitted) && slot < |f.slots|
    ensures Apart(AppendArgs(f, slot, delta), ids, emitted)
  {
  }

  lemma AddTracks(f: Fold, call: string, itemId: Option<string>, name: Json, args: string, h: nat, p: Pending, ids: set<string>)
    requires Tracks(f, h, p, ids) && IdSet(call, itemId) !! ids
    ensures Tracks(AddCall(f, call, itemId, name, args), h, p, ids)
  {
    assert call in IdSet(call, itemId) && (itemId.Some? ==> itemId.value in IdSet(call, itemId));
  }

  lemma CompleteTracks(f: Fold, slot: nat, name: Json, arguments: Json, h: nat, p: Pending, ids: set<string>)
    requires Tracks(f, h, p, ids) && slot < |f.slots| && Foreign(f.slots[slot], ids)
    ensures Tracks(CompleteSlot(f, slot, name, arguments), h, p, ids)
  {
    var q := f.slots[slot];
    FinalizeElsewhere(f, q.id, JsonOr(name, q.name), TextOr(arguments, q.args), ids);
  }

  lemma AppendTracks(f: Fold, slot: nat, delta: string, h: nat, p: Pending, ids: set<string>)
    requires Tracks(f, h, p, ids) && slot < |f.slots|
    ensures Tracks(AppendArgs(f, slot, delta), h, if slot == h then p.(args := p.args + delta) else p, ids)
  {
  }

  /** Starting to track a call that has just been added. */
  lemma AddStartsTracking(f: Fold, call: string, itemId: Option<string>, name: Json, args: string)
    requires Apart(f, IdSet(call, itemId), {})
    ensures Tracks(AddCall(f, call, itemId, name, args), |f.slots|, Pending(call, itemId, name, args), IdSet(call, itemId))
  {
    var ids := IdSet(call, itemId);
    assert forall k :: k in ids && k in f.finalized ==> k in f.finalized * ids;
  }

  lemma UnclaimedKeepsApart(f: Fold, e: CodexEvent, ids: set<string>, emitted: set<string>)
    requires Apart(f, ids, emitted) && Claims(e) !! ids
    ensures Apart(Handle(f, e), ids, emitted)
  {
    if f.status.Open? {
      match e {
        case ItemDone(item) => ItemKeepsApart(f, item, true, ids, emitted);
        case ItemAdded(item) => ItemKeepsApart(f, item, false, ids, emitted);
        case ArgumentsDone(callId, itemId, name, arguments) =>
          var id := Identity(callId, itemId);
          if id.Some? && id.value in f.keys {
            CompleteApart(f, f.keys[id.value], name, arguments, ids, emitted);
          }
        case ArgumentsDelta(callId, itemId, delta) =>
          var id := Identity(callId, itemId);
          if id.Some? && id.value in f.keys && delta.Str? {
            AppendApart(f, f.keys[id.value], delta.text, ids, emitted);
          }
        case _ =>
      }
    }
  }

  lemma ItemKeepsApart(f: Fold, item: Item, done: bool, ids: set<string>, emitted: set<string>)
    requires Apart(f, ids, emitted) && ItemIds(item) !! ids
    ensures Apart(ItemEvent(f, item, done), ids, emitted)
  {
    if item.FunctionCall? && Identity(item.callId, item.id).Some? && ItemIdentity(item.id).Ok? {
      var call, itemId := Identity(item.callId, item.id).value, ItemIdentity(item.id).value;
      assert call in ItemIds(item);
      if done {
        match LookUp(f, call, itemId) {
          case None => FinalizeElsewhere(f, call, JsonOr(item.name, Undefined), TextOr(item.arguments, "{}"), ids);
          case Some(slot) => CompleteApart(f, slot, item.name, item.arguments, ids, emitted);
        }
      } else {
        AddApart(f, call, itemId, item.name, TextOr(item.arguments, ""), ids, emitted);
      }
    }
  }

  lemma ItemKeepsTracking(f: Fold, item: Item, done: bool, h: nat, p: Pending, ids: set<string>)
    requires Tracks(f, h, p, ids) && ItemIds(item) !! ids
    requires ItemEvent(f, item, done).status.Open?
    ensures Tracks(ItemEvent(f, item, done), h, p, ids)
  {
    if item.FunctionCall? {
      var call, itemId := Identity(item.callId, item.id).value, ItemIdentity(item.id).value;
      assert call in ItemIds(item) && (itemId.Some? ==> itemId.value in ItemIds(item));
      if done {
        match LookUp(f, call, itemId) {
          case None => FinalizeElsewhere(f, call, JsonOr(item.name, Undefined), TextOr(item.arguments, "{}"), ids);
          case Some(slot) => CompleteTracks(f, slot, item.name, item.arguments, h, p, ids);
        }
      } else {
        AddTracks(f, call, itemId, item.name, TextOr(item.arguments, ""), h, p, ids);
      }
    }
  }

  lemma UnclaimedKeepsTracking(f: Fold, e: CodexEvent, h: nat, p: Pending, ids: set<string>)
    requires Tracks(f, h, p, ids) && Claims(e) !! ids
    requires Handle(f, e).status.Open?
    ensures Tracks(Handle(f, e), h, p.(args := p.args + DeltaText(e, ids)), ids)
  {
    assert p.args + "" == p.args;
    match e {
      case ItemDone(item) => ItemKeepsTracking(f, item, true, h, p, ids);
      case ItemAdded(item) => ItemKeepsTracking(f, item, false, h, p, ids);
      case ArgumentsDone(callId, itemId, name, arguments) =>
        var id := Identity(callId, itemId).value;
        assert id in Claims(e);
        CompleteTracks(f, f.keys[id], name, arguments, h, p, ids);
      case ArgumentsDelta(callId, itemId, delta) =>
        var id := Identity(callId, itemId).value;
        AppendTracks(f, f.keys[id], delta.text, h, p, ids);
        assert f.keys[id] == h <==> id in ids;
      case _ =>
    }
  }

  lemma {:induction false} ApartAfter(f: Fold, es: seq<CodexEvent>, ids: set<string>, emitted: set<string>)
    requires Apart(f, ids, emitted) && Unclaimed(es, ids)
    ensures Apart(After(f, es), ids, emitted)
  {
    if es != [] {
      var n := |es| - 1;
      ApartAfter(f, es[..n], ids, emitted);
      UnclaimedKeepsApart(After(f, es[..n]), es[n], ids, emitted);
    }
  }

  lemma {:induction false} TracksAfter(f: Fold, es: seq<CodexEvent>, h: nat, p: Pending, ids: set<string>)
    requires Tracks(f, h, p, ids) && Unclaimed(es, ids)
    requires After(f, es).status.Open?
    ensures Tracks(After(f, es), h, p.(args := p.args + Deltas(es, ids)), ids)
  {
    if es == [] {
      assert p.args + "" == p.args;
    } else {
      var n := |es| - 1;
      var before := After(f, es[..n]);
      assert After(f, es) == Handle(before, es[n]) && before.status.Open?;
      TracksAfter(f, es[..n], h, p, ids);
      TracksOneMore(before, es[n], h, p, Deltas(es[..n], ids), ids);
    }
  }

  lemma TracksOneMore(f: Fold, e: CodexEvent, h: nat, p: Pending, deltas: string, ids: set<string>)
    requires Tracks(f, h, p.(args := p.args + deltas), ids) && Claims(e) !! ids
    requires Handle(f, e).status.Open?
    ensures Tracks(Handle(f, e), h, p.(args := p.args + (deltas + DeltaText(e, ids))), ids)
  {
    UnclaimedKeepsTracking(f, e, h, p.(args := p.args + deltas), ids);
    assert (p.args + deltas) + DeltaText(e, ids) == p.args + (deltas + DeltaText(e, ids));
  }

  lemma {:induction false} AfterAppends(f: Fold, a: seq<CodexEvent>, b: seq<CodexEvent>)
    requires Linked(f)
    ensures After(f, a + b) == After(After(f, a), b)
  {
    if b == [] {
      assert a + b == a;
    } else {
      var n := |b| - 1;
      AfterAppends(f, a, b[..n]);
      assert (a + b)[..|a + b| - 1] == a + b[..n];
    }
  }

  /** A completion addressed to a call by an identity of its own. */
  predicate Completes(e: CodexEvent, call: string, itemId: Option<string>) {
    match e
    case ArgumentsDone(callId, item, name, arguments) =>
      Identity(callId, item).Some? && Identity(callId, item).value in IdSet(call, itemId)
    case ItemDone(FunctionCall(callId, id, name, arguments)) =>
      ItemIdentity(id).Ok?
      && Identity(callId, id).Some? && Identity(callId, id).value in IdSet(call, itemId)
    case _ => false
  }

  /** The arguments a completion carries, if any. */
  function ArgumentsIn(e: CodexEvent): Json {
    match e
    case ArgumentsDone(_, _, _, arguments) => arguments
    case ItemDone(FunctionCall(_, _, _, arguments)) => arguments
    case _ => Undefined
  }

  /** The text a value states, or the given one when it states none. */
  function Stated(value: Json, otherwise: string): string {
    match value
    case Str(text) => text
    case Other(text) => text
    case _ => otherwise
  }

  /** The name a completion states, or else the one the call was added with. */
  function NameFor(e: CodexEvent, added: Json): Json {
    if NameIn(e) in {Undefined, Null} then added else NameIn(e)
  }

  predicate ValidName(name: Json) {
    name.Str? && name.text != ""
  }

  function OrEmptyObject(args: string): string {
    if args == "" then "{}" else args
  }

  /** The function name a completion carries, if any. */
  function NameIn(e: CodexEvent): Json {
    match e
    case ArgumentsDone(_, _, name, _) => name
    case ItemDone(FunctionCall(_, _, name, _)) => name
    case _ => Undefined
  }

  lemma CompletionEmits(f: Fold, h: nat, p: Pending, e: CodexEvent)
    requires Tracks(f, h, p, IdSet(p.id, p.itemId)) && f.status.Open?
    requires Completes(e, p.id, p.itemId)
    ensures var g := Handle(f, e);
            if ValidName(NameFor(e, p.name)) then
              && g.status.Open?
              && g.toolCalls == f.toolCalls + [ToolCall(p.id, NameFor(e, p.name).text, OrEmptyObject(Stated(ArgumentsIn(e), p.args)))]
              && forall k :: k in IdSet(p.id, p.itemId) ==> k !in g.keys
            else g.status == Broken(BadName) && g.toolCalls == f.toolCalls
  {
    assert p.id in IdSet(p.id, p.itemId);
  }

  /** A call has been added to an empty fold after `before` and `between` followed: it is still open. */
  lemma AddedIsTracked(
    before: seq<CodexEvent>, item: Item, call: string, itemId: Option<string>, between: seq<CodexEvent>) returns (h: nat)
    requires item.FunctionCall? && Identity(item.callId, item.id) == Some(call) && ItemIdentity(item.id) == Ok(itemId)
    requires Unclaimed(before, IdSet(call, itemId)) && Unclaimed(between, IdSet(call, itemId))
    requires After(EMPTY, before + [ItemAdded(item)] + between).status.Open?
    ensures var args := Stated(item.arguments, "") + Deltas(between, IdSet(call, itemId));
            Tracks(After(EMPTY, before + [ItemAdded(item)] + between), h, Pending(call, itemId, item.name, args), IdSet(call, itemId))
  {
    var ids := IdSet(call, itemId);
    var f0 := After(EMPTY, before);
    ApartAfter(EMPTY, before, ids, {});
    AfterAppends(EMPTY, before + [ItemAdded(item)], between);
    AfterOneMore(EMPTY, before, ItemAdded(item));
    var f1 := After(EMPTY, before + [ItemAdded(item)]);
    ClosedStaysClosed(f1, between);
    AddStartsTracking(f0, call, itemId, item.name, TextOr(item.arguments, ""));
    h := |f0.slots|;
    var p := Pending(call, itemId, item.name, TextOr(item.arguments, ""));
    assert Tracks(f1, h, p, ids);
    TracksAfter(f1, between, h, p, ids);
  }

  lemma AfterOneMore(f: Fold, es: seq<CodexEvent>, e: CodexEvent)
    requires Linked(f)
    ensures After(f, es + [e]) == Handle(After(f, es), e)
  {
    assert (es + [e])[..|es|] == es;
  }

  /** A call is added, any events follow that neither add nor complete a call under its identities, and
      the call is completed: it is emitted with exactly the arguments the completion states, whatever
      deltas came before; and when it states none, with its initial arguments followed by exactly its own
      deltas in order, whatever else was interleaved and whichever of its identities each delta named. An
      empty text is emitted as `{}`, and a call without a name breaks the stream. */
  lemma ArgumentsAreDemultiplexed(
    before: seq<CodexEvent>, item: Item, call: string, itemId: Option<string>, between: seq<CodexEvent>, done: CodexEvent)
    requires item.FunctionCall? && Identity(item.callId, item.id) == Some(call) && ItemIdentity(item.id) == Ok(itemId)
    requires Unclaimed(before, IdSet(call, itemId)) && Unclaimed(between, IdSet(call, itemId))
    requires After(EMPTY, before + [ItemAdded(item)] + between).status.Open?
    requires Completes(done, call, itemId)
    ensures var f := After(EMPTY, before + [ItemAdded(item)] + between);
            var args := Stated(ArgumentsIn(done), Stated(item.arguments, "") + Deltas(between, IdSet(call, itemId)));
            var g := Handle(f, done);
            if ValidName(NameFor(done, item.name)) then
              g.status.Open? && g.toolCalls == f.toolCalls + [ToolCall(call, NameFor(done, item.name).text, OrEmptyObject(args))]
            else g.status == Broken(BadName) && g.toolCalls == f.toolCalls
  {
    var h := AddedIsTracked(before, item, call, itemId, between);
    var args := Stated(item.arguments, "") + Deltas(between, IdSet(call, itemId));
    CompletionEmits(After(EMPTY, before + [ItemAdded(item)] + between), h, Pending(call, itemId, item.name, args), done);
  }

  lemma {:induction false} ClosedStaysClosed(f: Fold, es: seq<CodexEvent>)
    requires Linked(f)
    ensures After(f, es).status.Open? ==> f.status.Open?
  {
    if es != [] { ClosedStaysClosed(f, es[..|es| - 1]); }
  }

  // ---------------------------------------------------------------- exactly when a call is emitted again

  /** The identity a completion names its call by. */
  function CompletedId(e: CodexEvent): Option<string> {
    match e
    case ArgumentsDone(callId, itemId, _, _) => Identity(callId, itemId)
    case ItemDone(FunctionCall(callId, id, _, _)) => if ItemIdentity(id).Ok? then Identity(callId, id) else None
    case _ => None
  }

  /** A completion that names no identity but `ids`. */
  ghost predicate AddressedTo(e: CodexEvent, ids: set<string>) {
    CompletedId(e).Some? && Claims(e) <= ids
  }

  /** The completion of a tracked call, with whatever arguments, leaves it emitted under its call id and
      forgotten under both. */
  lemma CompletionSpends(f: Fold, h: nat, p: Pending, e: CodexEvent)
    requires Tracks(f, h, p, IdSet(p.id, p.itemId)) && f.status.Open?
    requires AddressedTo(e, IdSet(p.id, p.itemId)) && Handle(f, e).status.Open?
    ensures Apart(Handle(f, e), IdSet(p.id, p.itemId), {p.id})
  {
    var ids := IdSet(p.id, p.itemId);
    assert p.id in ids && CompletedId(e).value in Claims(e);
    var name, arguments := NameIn(e), if e.ArgumentsDone? then e.arguments else e.item.arguments;
    assert Handle(f, e) == CompleteSlot(f, h, name, arguments);
  }

  /** What a completion addressed to an emitted call does. */
  lemma SpentCompletion(f: Fold, call: string, itemId: Option<string>, later: CodexEvent)
    requires Apart(f, IdSet(call, itemId), {call}) && f.status.Open? && AddressedTo(later, IdSet(call, itemId))
    ensures EmitsAgain(f, call, later)
  {
    var id := CompletedId(later).value;
    assert id in Claims(later) && id !in f.keys;
    assert id in f.finalized <==> id in f.finalized * IdSet(call, itemId);
    if later.ItemDone? {
      var item, i := later.item, ItemIdentity(later.item.id).value;
      assert i.Some? ==> i.value in Claims(later) && i.value !in f.keys;
      assert Handle(f, later) == Finalize(f, id, JsonOr(item.name, Undefined), TextOr(item.arguments, "{}"));
    }
  }

  /** The completion `later` of call `call` emits a tool call again exactly when it is a completed item
      that goes by another identity than the call id; otherwise it changes nothing or breaks the stream. */
  ghost predicate EmitsAgain(f: Fold, call: string, later: CodexEvent)
    requires Linked(f) && CompletedId(later).Some?
  {
    var id, g := CompletedId(later).value, Handle(f, later);
    && (g.toolCalls != f.toolCalls <==> later.ItemDone? && id != call && ValidName(NameIn(later)))
    && (g.toolCalls != f.toolCalls ==>
          g.status.Open? && |g.toolCalls| == |f.toolCalls| + 1 && f.toolCalls < g.toolCalls
          && g.toolCalls[|f.toolCalls|] == ToolCall(id, NameIn(later).text, OrEmptyObject(Stated(ArgumentsIn(later), "{}"))))
    && (later.ItemDone? && id == call ==> g == f)
    && (later.ItemDone? && id != call && !ValidName(NameIn(later)) ==> g.status == Broken(BadName))
    && (later.ArgumentsDone? ==> g.status == Broken(DoneForUnknownCall(id)))
  }

  /** A completed item whose call was never added is emitted with the arguments it states, or `{}`. */
  lemma UnannouncedCallIsEmitted(before: seq<CodexEvent>, item: Item, call: string, itemId: Option<string>)
    requires item.FunctionCall? && Identity(item.callId, item.id) == Some(call) && ItemIdentity(item.id) == Ok(itemId)
    requires Unclaimed(before, IdSet(call, itemId)) && After(EMPTY, before).status.Open?
    ensures var f := After(EMPTY, before);
            var g := Handle(f, ItemDone(item));
            if ValidName(item.name) then
              g.status.Open? && g.toolCalls == f.toolCalls + [ToolCall(call, item.name.text, OrEmptyObject(Stated(item.arguments, "{}")))]
            else g.status == Broken(BadName) && g.toolCalls == f.toolCalls
  {
    var f, ids := After(EMPTY, before), IdSet(call, itemId);
    ApartAfter(EMPTY, before, ids, {});
    assert call in ids && (itemId.Some? ==> itemId.value in ids);
    assert call in f.finalized <==> call in f.finalized * ids;
    assert Handle(f, ItemDone(item)) == Finalize(f, call, JsonOr(item.name, Undefined), TextOr(item.arguments, "{}"));
  }

  /** A call is added, is completed after any events that leave its identities alone, and more such
      events follow. From then on the call has been emitted once, and another completion addressed to it
      emits it a second time if and only if that is a named item whose resolved identity is not the call
      id, that is, one that repeats the item id only. */
  lemma EmittedAgainExactly(
    before: seq<CodexEvent>, item: Item, call: string, itemId: Option<string>, between: seq<CodexEvent>, done: CodexEvent,
    after: seq<CodexEvent>, later: CodexEvent)
    requires item.FunctionCall? && Identity(item.callId, item.id) == Some(call) && ItemIdentity(item.id) == Ok(itemId)
    requires var ids := IdSet(call, itemId);
             && Unclaimed(before, ids) && Unclaimed(between, ids) && Unclaimed(after, ids)
             && AddressedTo(done, ids) && AddressedTo(later, ids)
    requires After(EMPTY, before + [ItemAdded(item)] + between + [done] + after).status.Open?
    ensures var f := After(EMPTY, before + [ItemAdded(item)] + between + [done] + after);
            && OncePerId(f) && Ids(f.toolCalls) * IdSet(call, itemId) == {call}
            && EmitsAgain(f, call, later)
  {
    var ids := IdSet(call, itemId);
    var added := before + [ItemAdded(item)] + between;
    AfterAppends(EMPTY, added + [done], after);
    AfterOneMore(EMPTY, added, done);
    ClosedStaysClosed(After(EMPTY, added + [done]), after);
    ClosedStaysClosed(After(EMPTY, added), [done]);
    AfterOneMore(After(EMPTY, added), [], done);
    var h := AddedIsTracked(before, item, call, itemId, between);
    var args := Stated(item.arguments, "") + Deltas(between, ids);
    CompletionSpends(After(EMPTY, added), h, Pending(call, itemId, item.name, args), done);
    ApartAfter(After(EMPTY, added + [done]), after, ids, {call});
    SpentCompletion(After(EMPTY, added + [done] + after), call, itemId, later);
    FinalizedExactlyOnce(added + [done] + after, 0);
  }
}
