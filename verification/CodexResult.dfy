/** What a whole stream of events amounts to: which event breaks it, and what it completes with. */
module CodexResult {
  import opened Wrappers
  import opened CodexEvents
  import opened CodexDemultiplexing
  import opened CodexStream

  // ---------------------------------------------------------------- the event that breaks a stream

  /** The failure of an event whose call identity, or item id, is not usable. */
  function FaultyIds(callId: Json, id: Json): Option<Failure> {
    var resolved := if callId == Undefined then id else callId;
    if !ValidName(resolved) then Some(NoIdentity)
    else if id != Undefined && !ValidName(id) then Some(BadItemIdentity)
    else None
  }

  /** The call a completed item stands for: one pending under its call identity, else one pending under
      its item id, else a call of its own that has no name but the item's. */
  function CompletedCall(f: Fold, callId: Json, id: Json): (p: Pending)
    requires Linked(f) && FaultyIds(callId, id).None?
  {
    var resolved := if callId == Undefined then id.text else callId.text;
    if resolved in f.keys then f.slots[f.keys[resolved]]
    else if id.Str? && id.text in f.keys then f.slots[f.keys[id.text]]
    else Pending(resolved, None, Undefined, "{}")
  }

  /** Completing a call fails for want of a name, unless it has been emitted already. */
  predicate Nameless(f: Fold, p: Pending, name: Json) {
    p.id !in f.finalized && !ValidName(if name in {Undefined, Null} then p.name else name)
  }

  /** Why an event breaks an open stream, if it does. */
  function Fault(f: Fold, e: CodexEvent): Option<Failure>
    requires Linked(f)
  {
    match e
    case Unparsable => Some(BadJson)
    case TextDelta(delta) => if delta.Str? then None else Some(BadTextDelta)
    case ItemAdded(FunctionCall(callId, id, _, _)) => FaultyIds(callId, id)
    case ItemDone(NotAnObject) => Some(DoneItemNotAnObject)
    case ItemDone(FunctionCall(callId, id, name, _)) =>
      if FaultyIds(callId, id).Some? then FaultyIds(callId, id)
      else if Nameless(f, CompletedCall(f, callId, id), name) then Some(BadName)
      else None
    case ItemDone(MessageItem(role, content)) =>
      if role != Str("assistant") then Some(BadMessageRole)
      else if content.None? then Some(BadMessageContent)
      else if exists i :: 0 <= i < |content.value| && content.value[i].OutputText? && !content.value[i].text.Str? then
        Some(BadMessageText)
      else None
    case ArgumentsDelta(callId, itemId, delta) =>
      if FaultyIds(callId, itemId) == Some(NoIdentity) then Some(NoIdentity)
      else
        var id := if callId == Undefined then itemId.text else callId.text;
        if id !in f.keys then Some(DeltaForUnknownCall(id))
        else if !delta.Str? then Some(BadArgumentsDelta)
        else None
    case ArgumentsDone(callId, itemId, name, _) =>
      if FaultyIds(callId, itemId) == Some(NoIdentity) then Some(NoIdentity)
      else
        var id := if callId == Undefined then itemId.text else callId.text;
        if id !in f.keys then Some(DoneForUnknownCall(id))
        else if Nameless(f, f.slots[f.keys[id]], name) then Some(BadName)
        else None
    case ResponseFailed(payload) => Some(ProviderFailure(payload))
    case StreamError(payload) => Some(ProviderFailure(payload))
    case ResponseCompleted(identified, usage) =>
      if !identified then Some(BadCompletion) else if usage.InvalidUsage? then Some(BadUsage) else None
    case _ => None
  }

  function PartText(part: Part): string {
    if part.OutputText? then Stated(part.text, "") else ""
  }

  /** The output texts of a message, one after the other. */
  function JoinedTexts(parts: seq<Part>): string {
    if parts == [] then "" else PartText(parts[0]) + JoinedTexts(parts[1..])
  }

  lemma TextsAssociate(a: string, b: string, c: string)
    ensures a + (b + c) == (a + b) + c
  {
  }

  lemma JoinedFirst(first: Part, rest: seq<Part>)
    ensures JoinedTexts([first] + rest) == PartText(first) + JoinedTexts(rest)
  {
    assert ([first] + rest)[1..] == rest;
  }

  lemma {:induction false} JoinedLast(parts: seq<Part>, last: Part)
    ensures JoinedTexts(parts + [last]) == JoinedTexts(parts) + PartText(last)
  {
    if parts == [] {
      JoinedFirst(last, []);
      assert parts + [last] == [last] + [];
      assert PartText(last) + "" == "" + PartText(last);
    } else {
      var first, rest := parts[0], parts[1..];
      JoinedLast(rest, last);
      JoinedFirst(first, rest);
      JoinedFirst(first, rest + [last]);
      TextsAssociate(PartText(first), JoinedTexts(rest), PartText(last));
      assert parts == [first] + rest;
      assert parts + [last] == [first] + (rest + [last]);
    }
  }

  predicate AllTexts(parts: seq<Part>) {
    forall i :: 0 <= i < |parts| && parts[i].OutputText? ==> parts[i].text.Str?
  }

  lemma AllTextsLast(parts: seq<Part>, last: Part)
    ensures AllTexts(parts + [last]) <==> AllTexts(parts) && (last.OutputText? ==> last.text.Str?)
  {
    var all := parts + [last];
    assert all[|parts|] == last && forall i :: 0 <= i < |parts| ==> all[i] == parts[i];
  }

  lemma {:induction false} MessageIsJoined(parts: seq<Part>)
    ensures MessageText(parts) == if AllTexts(parts) then Some(JoinedTexts(parts)) else None
  {
    if parts != [] {
      var init, last := parts[..|parts| - 1], parts[|parts| - 1];
      MessageIsJoined(init);
      JoinedLast(init, last);
      AllTextsLast(init, last);
      assert parts == init + [last];
      assert JoinedTexts(init) + "" == JoinedTexts(init);
    }
  }

  /** The event leaves an open fold broken by its fault, or open, or completed. */
  ghost predicate EndsAs(f: Fold, e: CodexEvent, g: Fold)
    requires Linked(f)
  {
    match Fault(f, e)
    case Some(failure) => g.status == Broken(failure) && g.toolCalls == f.toolCalls && g.message == f.message
    case None => g.status == if e.ResponseCompleted? then Completed else Open
  }

  lemma CallDoneBreaks(f: Fold, item: Item)
    requires Linked(f) && f.status.Open? && item.FunctionCall?
    ensures EndsAs(f, ItemDone(item), Handle(f, ItemDone(item)))
  {
  }

  lemma MessageBreaks(f: Fold, item: Item)
    requires Linked(f) && f.status.Open? && item.MessageItem?
    ensures EndsAs(f, ItemDone(item), Handle(f, ItemDone(item)))
  {
    if item.content.Some? { MessageIsJoined(item.content.value); }
  }

  lemma ArgumentsDoneBreaks(f: Fold, e: CodexEvent)
    requires Linked(f) && f.status.Open? && e.ArgumentsDone?
    ensures EndsAs(f, e, Handle(f, e))
  {
  }

  /** An open stream breaks at an event exactly for the reason the event gives, and then nothing it has
      emitted is lost; only a good completion ends it otherwise. */
  lemma BreaksExactly(f: Fold, e: CodexEvent)
    requires Linked(f) && f.status.Open?
    ensures EndsAs(f, e, Handle(f, e))
  {
    match e {
      case ItemDone(MessageItem(_, _)) => MessageBreaks(f, e.item);
      case ItemDone(FunctionCall(_, _, _, _)) => CallDoneBreaks(f, e.item);
      case ArgumentsDone(_, _, _, _) => ArgumentsDoneBreaks(f, e);
      case _ =>
    }
  }

  // ---------------------------------------------------------------- what a stream completes with

  /** The text of the last assistant message that was completed. */
  function LastMessage(es: seq<CodexEvent>): Option<string> {
    if es == [] then None
    else
      match es[|es| - 1]
      case ItemDone(MessageItem(_, Some(parts))) => Some(JoinedTexts(parts))
      case _ => LastMessage(es[..|es| - 1])
  }

  lemma OpenStep(f: Fold, e: CodexEvent)
    requires Linked(f) && f.status.Open? && Handle(f, e).status.Open?
    ensures var g := Handle(f, e);
            && g.usage == f.usage
            && g.message == match e
                            case ItemDone(MessageItem(_, Some(parts))) => Some(JoinedTexts(parts))
                            case _ => f.message
  {
    match e {
      case ItemDone(MessageItem(_, Some(parts))) => MessageIsJoined(parts);
      case _ =>
    }
  }

  lemma {:induction false} MessageIsLast(es: seq<CodexEvent>)
    requires After(EMPTY, es).status.Open?
    ensures After(EMPTY, es).message == LastMessage(es) && After(EMPTY, es).usage == NoUsage
  {
    if es != [] {
      var n := |es| - 1;
      var before := After(EMPTY, es[..n]);
      assert After(EMPTY, es) == Handle(before, es[n]) && before.status.Open?;
      MessageIsLast(es[..n]);
      OpenStep(before, es[n]);
    }
  }

  /** What a completing event makes of the events before it: the calls emitted by then, or else the last
      message, with the usage of the completing event. */
  function Completing(es: seq<CodexEvent>, usage: Usage): Result<Completion, Failure> {
    var calls := After(EMPTY, es).toolCalls;
    if calls != [] then Ok(ToolCalls(calls, usage))
    else
      match LastMessage(es)
      case Some(text) => Ok(Message(text, usage))
      case None => Err(NothingCompleted)
  }

  /** The first event of `es` that does not leave the stream open is the one at `j`. */
  ghost predicate ClosesAt(es: seq<CodexEvent>, j: nat) {
    j < |es| && After(EMPTY, es[..j]).status.Open? && !After(EMPTY, es[..j + 1]).status.Open?
  }

  /** The result of a stream that its event at `j` closes: the fault of that event, or what it completes. */
  ghost predicate ClosedBy(es: seq<CodexEvent>, j: nat, r: Result<Completion, Failure>)
    requires j < |es|
  {
    match Fault(After(EMPTY, es[..j]), es[j])
    case Some(failure) => r == Err(failure)
    case None => es[j].ResponseCompleted? && r == Completing(es[..j], es[j].usage)
  }

  lemma ClosingResult(es: seq<CodexEvent>, j: nat)
    requires ClosesAt(es, j)
    ensures ClosedBy(es, j, StreamResult(After(EMPTY, es[..j + 1])))
  {
    var f := After(EMPTY, es[..j]);
    assert es[..j + 1] == es[..j] + [es[j]];
    AfterOneMore(EMPTY, es[..j], es[j]);
    BreaksExactly(f, es[j]);
    MessageIsLast(es[..j]);
  }

  // ---------------------------------------------------------------- what a text amounts to

  /** The outputs before the end marker. */
  function UntilMarker(outputs: seq<SSE.Output>): (r: seq<SSE.Output>)
    ensures r <= outputs && (forall i :: 0 <= i < |r| ==> r[i].Event?)
    ensures |r| < |outputs| ==> outputs[|r|].Done?
  {
    if outputs == [] || outputs[0].Done? then [] else [outputs[0]] + UntilMarker(outputs[1..])
  }

  function Parsed(outputs: seq<SSE.Output>, parse: string -> CodexEvent): seq<CodexEvent>
    requires forall i :: 0 <= i < |outputs| ==> outputs[i].Event?
  {
    seq(|outputs|, i requires 0 <= i < |outputs| => parse(outputs[i].dataText))
  }

  lemma {:induction false} EventsAreFolded(outputs: seq<SSE.Output>, parse: string -> CodexEvent)
    requires forall i :: 0 <= i < |outputs| ==> outputs[i].Event?
    ensures Consume(EMPTY, outputs, parse) == After(EMPTY, Parsed(outputs, parse))
  {
    if outputs != [] {
      var n := |outputs| - 1;
      EventsAreFolded(outputs[..n], parse);
      assert Parsed(outputs, parse)[..n] == Parsed(outputs[..n], parse);
    }
  }

  lemma {:induction false} ClosedFoldStays(es: seq<CodexEvent>, k: nat)
    requires k <= |es| && !After(EMPTY, es[..k]).status.Open?
    ensures After(EMPTY, es) == After(EMPTY, es[..k])
    decreases |es|
  {
    if k == |es| {
      assert es[..k] == es;
    } else {
      var n := |es| - 1;
      assert es[..n][..k] == es[..k];
      ClosedFoldStays(es[..n], k);
    }
  }

  lemma {:induction false} SomeEventCloses(es: seq<CodexEvent>) returns (j: nat)
    requires !After(EMPTY, es).status.Open?
    ensures ClosesAt(es, j)
  {
    var n := |es| - 1;
    if After(EMPTY, es[..n]).status.Open? {
      j := n;
      assert es[..n + 1] == es;
    } else {
      j := SomeEventCloses(es[..n]);
      assert es[..n][..j] == es[..j] && es[..n][..j + 1] == es[..j + 1];
    }
  }

  lemma MarkerBreaks(outputs: seq<SSE.Output>, k: nat, parse: string -> CodexEvent)
    requires k < |outputs| && outputs[k].Done? && Consume(EMPTY, outputs[..k], parse).status.Open?
    ensures StreamResult(Consume(EMPTY, outputs, parse)) == Err(EndedByMarker)
  {
    assert outputs[..k + 1][..k] == outputs[..k];
    ClosedStays(EMPTY, outputs, k + 1, parse);
  }

  /** A stream that no event closes is truncated, or ended by the marker if there is one. */
  ghost predicate ResultOf(es: seq<CodexEvent>, marked: bool, r: Result<Completion, Failure>) {
    && ((forall j :: !ClosesAt(es, j)) ==> r == Err(if marked then EndedByMarker else Truncated))
    && (forall j :: ClosesAt(es, j) ==> ClosedBy(es, j, r))
  }

  lemma OpenMeansNoneCloses(es: seq<CodexEvent>)
    requires After(EMPTY, es).status.Open?
    ensures forall j :: !ClosesAt(es, j)
  {
    forall j: nat | ClosesAt(es, j) ensures false {
      ClosedFoldStays(es, j + 1);
    }
  }

  lemma ClosedMeansOneDecides(es: seq<CodexEvent>, marked: bool)
    requires !After(EMPTY, es).status.Open?
    ensures ResultOf(es, marked, StreamResult(After(EMPTY, es)))
  {
    var some := SomeEventCloses(es);
    forall j: nat | ClosesAt(es, j) ensures ClosedBy(es, j, StreamResult(After(EMPTY, es))) {
      ClosedFoldStays(es, j + 1);
      ClosingResult(es, j);
    }
  }

  lemma ConsumedExactly(outputs: seq<SSE.Output>, k: nat, parse: string -> CodexEvent)
    requires k <= |outputs| && (forall i :: 0 <= i < k ==> outputs[i].Event?) && (k < |outputs| ==> outputs[k].Done?)
    ensures ResultOf(Parsed(outputs[..k], parse), k < |outputs|, StreamResult(Consume(EMPTY, outputs, parse)))
  {
    var es := Parsed(outputs[..k], parse);
    EventsAreFolded(outputs[..k], parse);
    if !After(EMPTY, es).status.Open? {
      ClosedStays(EMPTY, outputs, k, parse);
      ClosedMeansOneDecides(es, k < |outputs|);
    } else {
      OpenMeansNoneCloses(es);
      if k < |outputs| {
        MarkerBreaks(outputs, k, parse);
      } else {
        assert outputs[..k] == outputs;
      }
    }
  }

  /** What the text of a stream amounts to: its outputs up to the end marker are parsed, the first event
      that does not leave the stream open decides, by its fault or by what has been gathered until then,
      and without one the stream has ended too early. */
  lemma TextResultExactly(text: string, parse: string -> CodexEvent)
    ensures var outputs := SSE.Meaning(text);
            ResultOf(Parsed(UntilMarker(outputs), parse), UntilMarker(outputs) != outputs, TextResult(text, parse))
  {
    var outputs := SSE.Meaning(text);
    var k := |UntilMarker(outputs)|;
    assert outputs[..k] == UntilMarker(outputs);
    ConsumedExactly(outputs, k, parse);
  }
}
