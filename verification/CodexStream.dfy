/** The stream parser as the object it is: pending calls are mutable objects, and one object may sit in
    the pending map under two keys. */
module CodexStream {
  import opened Wrappers
  import opened CodexEvents
  import SSE = ServerSentEvents

  class PendingCodexToolCall {
    const id: string
    const itemId: Option<string>
    const name: Json
    var args: string

    constructor (id: string, itemId: Option<string>, name: Json, args: string)
      ensures this.id == id && this.itemId == itemId && this.name == name && this.args == args
    {
      this.id, this.itemId, this.name, this.args := id, itemId, name, args;
    }

    ghost function Value(): Pending
      reads this
    {
      Pending(id, itemId, name, args)
    }
  }

  class CodexParser {
    var pendingToolCalls: map<string, PendingCodexToolCall>
    var finalizedToolCalls: set<string>
    var toolCalls: seq<ToolCall>
    var message: Option<string>
    var usage: Usage

    /** Every pending object ever created, in order, and the map as positions in that order. */
    ghost var objects: seq<PendingCodexToolCall>
    ghost var keys: map<string, nat>
    ghost var Repr: set<PendingCodexToolCall>

    ghost predicate Valid()
      reads this
    {
      && (forall i :: 0 <= i < |objects| ==> objects[i] in Repr)
      && (forall i, j :: 0 <= i < j < |objects| ==> objects[i] != objects[j])
      && pendingToolCalls.Keys == keys.Keys
      && (forall k :: k in keys ==> keys[k] < |objects| && pendingToolCalls[k] == objects[keys[k]])
    }

    ghost function Slots(): seq<Pending>
      reads this, objects
    {
      seq(|objects|, i requires 0 <= i < |objects| reads this, objects => objects[i].Value())
    }

    ghost function Model(): Fold
      reads this, objects
    {
      Fold(Slots(), keys, finalizedToolCalls, toolCalls, message, usage, Open)
    }

    constructor ()
      ensures Valid() && Model() == EMPTY && Repr == {}
    {
      pendingToolCalls, finalizedToolCalls, toolCalls, message, usage := map[], {}, [], None, NoUsage;
      objects, keys, Repr := [], map[], {};
    }

    method FinalizeToolCall(id: string, name: Json, args: string) returns (thrown: Option<Failure>)
      requires Valid()
      modifies this`finalizedToolCalls, this`toolCalls
      ensures Valid()
      ensures thrown.None? ==> Model() == Finalize(old(Model()), id, name, args)
      ensures thrown.Some? ==> Fail(old(Model()), thrown.value) == Finalize(old(Model()), id, name, args)
    {
      if id in finalizedToolCalls {
        return None;
      }
      if !name.Str? || name.text == "" {
        return Some(BadName);
      }
      finalizedToolCalls := finalizedToolCalls + {id};
      toolCalls := toolCalls + [ToolCall(id, name.text, if args == "" then "{}" else args)];
      return None;
    }

    method RemovePending(pending: PendingCodexToolCall)
      requires Valid()
      modifies this`pendingToolCalls, this`keys
      ensures Valid()
      ensures Model() == Remove(old(Model()), pending.Value())
    {
      pendingToolCalls := pendingToolCalls - {pending.id};
      if pending.itemId.Some? {
        pendingToolCalls := pendingToolCalls - {pending.itemId.value};
      }
      keys := WithoutKeys(keys, pending.Value());
    }

    /** Finalize a pending call, then forget it under both of its keys. */
    method CompletePending(pending: PendingCodexToolCall, ghost slot: nat, name: Json, arguments: Json)
      returns (thrown: Option<Failure>)
      requires Valid() && slot < |objects| && objects[slot] == pending
      modifies this`finalizedToolCalls, this`toolCalls, this`pendingToolCalls, this`keys
      ensures Valid()
      ensures thrown.None? ==> Model() == CompleteSlot(old(Model()), slot, name, arguments)
      ensures thrown.Some? ==> Fail(old(Model()), thrown.value) == CompleteSlot(old(Model()), slot, name, arguments)
    {
      assert Slots()[slot] == pending.Value();
      thrown := FinalizeToolCall(pending.id, JsonOr(name, pending.name), TextOr(arguments, pending.args));
      if thrown.None? {
        RemovePending(pending);
      }
    }

    method AddPending(callId: string, itemId: Option<string>, name: Json, args: string)
      requires Valid()
      modifies this`pendingToolCalls, this`objects, this`keys, this`Repr
      ensures Valid() && fresh(Repr - old(Repr))
      ensures Model() == AddCall(old(Model()), callId, itemId, name, args)
    {
      ghost var slot, before := |objects|, Slots();
      var pending := new PendingCodexToolCall(callId, itemId, name, args);
      Track(pending);
      assert Slots() == before + [pending.Value()];
      SetKey(callId, pending, slot);
      if itemId.Some? && itemId.value != callId {
        SetKey(itemId.value, pending, slot);
      }
      assert itemId == Some(callId) ==> keys[callId := slot] == keys;
    }

    /** Note a new pending object; it is not in the map yet. */
    ghost method Track(pending: PendingCodexToolCall)
      requires Valid() && pending !in objects
      modifies this`objects, this`Repr
      ensures Valid() && objects == old(objects) + [pending] && Repr == old(Repr) + {pending}
    {
      objects := objects + [pending];
      Repr := Repr + {pending};
    }

    method SetKey(key: string, pending: PendingCodexToolCall, ghost slot: nat)
      requires Valid() && slot < |objects| && objects[slot] == pending
      modifies this`pendingToolCalls, this`keys
      ensures Valid() && keys == old(keys)[key := slot]
    {
      pendingToolCalls := pendingToolCalls[key := pending];
      keys := keys[key := slot];
    }

    method AppendToPending(id: string, delta: string)
      requires Valid() && id in pendingToolCalls
      modifies Repr
      ensures Valid()
      ensures Model() == AppendArgs(old(Model()), keys[id], delta)
    {
      var pending := pendingToolCalls[id];
      ghost var slot := keys[id];
      assert objects[slot] == pending;
      assert old(Slots())[slot] == old(pending.Value());
      pending.args := pending.args + delta;
      assert Slots() == old(Slots())[slot := pending.Value()];
    }

    method FunctionCallItem(item: Item, done: bool) returns (thrown: Option<Failure>)
      requires Valid() && item.FunctionCall?
      modifies this
      ensures Valid() && fresh(Repr - old(Repr))
      ensures thrown.None? ==> Model() == ItemEvent(old(Model()), item, done)
      ensures thrown.Some? ==> Fail(old(Model()), thrown.value) == ItemEvent(old(Model()), item, done)
    {
      var identity := Identity(item.callId, item.id);
      if identity.None? {
        return Some(NoIdentity);
      }
      var itemIdentity := ItemIdentity(item.id);
      if itemIdentity.Err? {
        return Some(itemIdentity.error);
      }
      var callId, itemId := identity.value, itemIdentity.value;
      if !done {
        AddPending(callId, itemId, item.name, TextOr(item.arguments, ""));
        return None;
      }
      ghost var found := LookUp(Model(), callId, itemId);
      if callId in pendingToolCalls {
        thrown := CompletePending(pendingToolCalls[callId], found.value, item.name, item.arguments);
      } else if itemId.Some? && itemId.value in pendingToolCalls {
        thrown := CompletePending(pendingToolCalls[itemId.value], found.value, item.name, item.arguments);
      } else {
        thrown := FinalizeToolCall(callId, JsonOr(item.name, Undefined), TextOr(item.arguments, "{}"));
      }
    }

    method CompletedMessage(item: Item) returns (thrown: Option<Failure>)
      requires Valid() && item.MessageItem?
      modifies this`message
      ensures Valid()
      ensures thrown.None? ==> Model() == ItemEvent(old(Model()), item, true)
      ensures thrown.Some? ==> Fail(old(Model()), thrown.value) == ItemEvent(old(Model()), item, true)
    {
      if item.role != Str("assistant") {
        return Some(BadMessageRole);
      }
      if item.content.None? {
        return Some(BadMessageContent);
      }
      var parts := item.content.value;
      var text := "";
      for i := 0 to |parts|
        invariant MessageText(parts[..i]) == Some(text)
      {
        assert parts[..i + 1][..i] == parts[..i];
        if parts[i].OutputText? {
          if !parts[i].text.Str? {
            BadPartSpoilsMessage(parts, i + 1);
            return Some(BadMessageText);
          }
          text := text + parts[i].text.text;
        }
      }
      assert parts[..|parts|] == parts;
      message := Some(text);
      return None;
    }

    /** Handle one event: Ok(true) when it completes the response, Err when it throws. */
    method HandleEvent(e: CodexEvent) returns (r: Result<bool, Failure>)
      requires Valid()
      modifies this, Repr
      ensures Valid() && fresh(Repr - old(Repr))
      ensures r.Ok? ==> Handle(old(Model()), e) == Model().(status := if r.value then Completed else Open)
      ensures r.Err? ==> Handle(old(Model()), e).status == Broken(r.error)
    {
      var thrown: Option<Failure> := None;
      match e {
        case Unparsable => thrown := Some(BadJson);
        case TextDelta(delta) =>
          if !delta.Str? { thrown := Some(BadTextDelta); }
        case ItemAdded(item) =>
          if item.FunctionCall? { thrown := FunctionCallItem(item, false); }
        case ItemDone(item) =>
          match item {
            case NotAnObject => thrown := Some(DoneItemNotAnObject);
            case FunctionCall(_, _, _, _) => thrown := FunctionCallItem(item, true);
            case MessageItem(_, _) => thrown := CompletedMessage(item);
            case OtherItem =>
          }
        case ArgumentsDelta(callId, itemId, delta) =>
          var id := Identity(callId, itemId);
          if id.None? {
            thrown := Some(NoIdentity);
          } else if id.value !in pendingToolCalls {
            thrown := Some(DeltaForUnknownCall(id.value));
          } else if !delta.Str? {
            thrown := Some(BadArgumentsDelta);
          } else {
            AppendToPending(id.value, delta.text);
          }
        case ArgumentsDone(callId, itemId, name, arguments) =>
          var id := Identity(callId, itemId);
          if id.None? {
            thrown := Some(NoIdentity);
          } else if id.value !in pendingToolCalls {
            thrown := Some(DoneForUnknownCall(id.value));
          } else {
            thrown := CompletePending(pendingToolCalls[id.value], keys[id.value], name, arguments);
          }
        case ResponseFailed(payload) => thrown := Some(ProviderFailure(payload));
        case StreamError(payload) => thrown := Some(ProviderFailure(payload));
        case ResponseCompleted(identified, reported) =>
          if !identified {
            thrown := Some(BadCompletion);
          } else if reported.InvalidUsage? {
            thrown := Some(BadUsage);
          } else {
            usage := reported;
            return Ok(true);
          }
        case OtherEvent =>
      }
      return if thrown.Some? then Err(thrown.value) else Ok(false);
    }

    /** Handle events until one completes the response or throws. */
    method ConsumeEvents(outputs: seq<SSE.Output>, parse: string -> CodexEvent) returns (r: Result<bool, Failure>)
      requires Valid()
      modifies this, Repr
      ensures Valid() && fresh(Repr - old(Repr))
      ensures r.Ok? ==> Consume(old(Model()), outputs, parse) == Model().(status := if r.value then Completed else Open)
      ensures r.Err? ==> Consume(old(Model()), outputs, parse).status == Broken(r.error)
    {
      for i := 0 to |outputs|
        invariant Valid()
        invariant fresh(Repr - old(Repr))
        invariant Consume(old(Model()), outputs[..i], parse) == Model()
      {
        assert outputs[..i + 1][..i] == outputs[..i];
        if outputs[i].Done? {
          ClosedStays(old(Model()), outputs, i + 1, parse);
          return Err(EndedByMarker);
        }
        r := HandleEvent(parse(outputs[i].dataText));
        if r.Err? || r.value {
          ClosedStays(old(Model()), outputs, i + 1, parse);
          return;
        }
      }
      assert outputs[..|outputs|] == outputs;
      return Ok(false);
    }
  }

  lemma {:induction false} BadPartSpoilsMessage(parts: seq<Part>, k: nat)
    requires k <= |parts| && MessageText(parts[..k]).None?
    ensures MessageText(parts).None?
    decreases |parts|
  {
    if k == |parts| {
      assert parts[..k] == parts;
    } else {
      assert parts[..|parts| - 1][..k] == parts[..k];
      BadPartSpoilsMessage(parts[..|parts| - 1], k);
    }
  }

  /** Nothing after the completing or failing output is looked at. */
  lemma {:induction false} ClosedStays(f: Fold, outputs: seq<SSE.Output>, k: nat, parse: string -> CodexEvent)
    requires Linked(f) && k <= |outputs|
    requires !Consume(f, outputs[..k], parse).status.Open?
    ensures Consume(f, outputs, parse) == Consume(f, outputs[..k], parse)
    decreases |outputs|
  {
    if k == |outputs| {
      assert outputs[..k] == outputs;
    } else {
      assert outputs[..|outputs| - 1][..k] == outputs[..k];
      ClosedStays(f, outputs[..|outputs| - 1], k, parse);
    }
  }

  lemma {:induction false} ConsumeAppends(f: Fold, a: seq<SSE.Output>, b: seq<SSE.Output>, parse: string -> CodexEvent)
    requires Linked(f)
    ensures Consume(f, a + b, parse) == Consume(Consume(f, a, parse), b, parse)
  {
    if b == [] {
      assert a + b == a;
    } else {
      var n := |b| - 1;
      ConsumeAppends(f, a, b[..n], parse);
      assert (a + b)[..|a + b| - 1] == a + b[..n];
    }
  }

  /** What the text of a whole stream means, with no mention of chunks. */
  function TextResult(text: string, parse: string -> CodexEvent): Result<Completion, Failure> {
    StreamResult(Consume(EMPTY, SSE.Meaning(text), parse))
  }

  /** An early exit agrees with the meaning of the whole text. */
  lemma EarlyExit(chunks: seq<string>, k: nat, parse: string -> CodexEvent)
    requires k <= |chunks|
    requires !Consume(EMPTY, SSE.ProcessChunks(SSE.START, chunks[..k]).outputs, parse).status.Open?
    ensures TextResult(SSE.Concat(chunks), parse) ==
            StreamResult(Consume(EMPTY, SSE.ProcessChunks(SSE.START, chunks[..k]).outputs, parse))
  {
    var p := SSE.ProcessChunks(SSE.START, chunks[..k]);
    var rest := RestOfOutputs(chunks, k);
    SSE.ReaderRefinesRules(chunks);
    var all := SSE.Meaning(SSE.Concat(chunks));
    assert all[..|p.outputs|] == p.outputs;
    ClosedStays(EMPTY, all, |p.outputs|, parse);
  }

  lemma {:induction false} RestOfOutputs(chunks: seq<string>, k: nat) returns (rest: seq<SSE.Output>)
    requires k <= |chunks|
    ensures SSE.Closing(SSE.ProcessChunks(SSE.START, chunks)) == SSE.ProcessChunks(SSE.START, chunks[..k]).outputs + rest
  {
    rest := MoreOutputs(chunks, k);
    var p := SSE.ProcessChunks(SSE.START, chunks);
    rest := rest + SSE.Finish(p.reader);
  }

  lemma {:induction false} MoreOutputs(chunks: seq<string>, k: nat) returns (rest: seq<SSE.Output>)
    requires k <= |chunks|
    ensures SSE.ProcessChunks(SSE.START, chunks).outputs == SSE.ProcessChunks(SSE.START, chunks[..k]).outputs + rest
    decreases |chunks|
  {
    if k == |chunks| {
      assert chunks[..k] == chunks;
      rest := [];
    } else {
      var n := |chunks| - 1;
      assert chunks[..n][..k] == chunks[..k];
      var before := MoreOutputs(chunks[..n], k);
      rest := before + SSE.Process(SSE.ProcessChunks(SSE.START, chunks[..n]).reader, chunks[n]).outputs;
    }
  }

  /** Push one chunk and handle what it yields. */
  method ConsumeChunk(
    sse: SSE.IncrementalSseReader, parser: CodexParser, chunk: string, parse: string -> CodexEvent, ghost outputs: seq<SSE.Output>)
    returns (consumed: Result<bool, Failure>)
    requires !sse.finished && parser.Valid()
    requires Consume(EMPTY, outputs, parse) == parser.Model()
    modifies sse, parser, parser.Repr
    ensures !sse.finished && parser.Valid() && fresh(parser.Repr - old(parser.Repr))
    ensures sse.Model() == SSE.Process(old(sse.Model()), chunk).reader
    ensures var after := Consume(EMPTY, outputs + SSE.Process(old(sse.Model()), chunk).outputs, parse);
            && (consumed.Ok? ==> after == parser.Model().(status := if consumed.value then Completed else Open))
            && (consumed.Err? ==> after.status == Broken(consumed.error))
  {
    var pushed := sse.Push(chunk);
    ConsumeAppends(EMPTY, outputs, pushed.value, parse);
    consumed := parser.ConsumeEvents(pushed.value, parse);
  }

  method CompletedResult(parser: CodexParser) returns (r: Result<Completion, Failure>)
    ensures r == StreamResult(parser.Model().(status := Completed))
  {
    if |parser.toolCalls| > 0 {
      return Ok(ToolCalls(parser.toolCalls, parser.usage));
    }
    if parser.message.Some? {
      return Ok(Message(parser.message.value, parser.usage));
    }
    return Err(NothingCompleted);
  }

  /** Handle what the end of input yields. */
  method ReadEnd(
    sse: SSE.IncrementalSseReader, parser: CodexParser, parse: string -> CodexEvent, ghost outputs: seq<SSE.Output>)
    returns (r: Result<Completion, Failure>)
    requires !sse.finished && parser.Valid()
    requires Consume(EMPTY, outputs, parse) == parser.Model()
    modifies sse, parser, parser.Repr
    ensures r == StreamResult(Consume(EMPTY, outputs + SSE.Finish(old(sse.Model())), parse))
  {
    var last := sse.FinishInput();
    ConsumeAppends(EMPTY, outputs, last.value, parse);
    var consumed := parser.ConsumeEvents(last.value, parse);
    if consumed.Err? {
      return Err(consumed.error);
    }
    if consumed.value {
      r := CompletedResult(parser);
      return;
    }
    return Err(Truncated);
  }

  /** Read a stream chunk by chunk, stopping at the completing event. The result is a function of the
      text alone: every way of cutting it into chunks gives the same completion or the same failure. */
  method ReadStream(chunks: seq<string>, parse: string -> CodexEvent) returns (r: Result<Completion, Failure>)
    ensures r == TextResult(SSE.Concat(chunks), parse)
  {
    var sse := new SSE.IncrementalSseReader();
    var parser := new CodexParser();
    ghost var outputs: seq<SSE.Output> := [];
    var k := 0;
    while k < |chunks|
      invariant 0 <= k <= |chunks|
      invariant !sse.finished && fresh(sse) && fresh(parser)
      invariant fresh(parser.Repr)
      invariant parser.Valid()
      invariant SSE.Progress(sse.Model(), outputs) == SSE.ProcessChunks(SSE.START, chunks[..k])
      invariant Consume(EMPTY, outputs, parse) == parser.Model()
    {
      assert chunks[..k + 1][..k] == chunks[..k];
      var consumed := ConsumeChunk(sse, parser, chunks[k], parse, outputs);
      k := k + 1;
      outputs := SSE.ProcessChunks(SSE.START, chunks[..k]).outputs;
      if consumed.Err? {
        EarlyExit(chunks, k, parse);
        return Err(consumed.error);
      }
      if consumed.value {
        EarlyExit(chunks, k, parse);
        r := CompletedResult(parser);
        return;
      }
    }
    assert chunks[..k] == chunks;
    SSE.ReaderRefinesRules(chunks);
    r := ReadEnd(sse, parser, parse, outputs);
  }
}
