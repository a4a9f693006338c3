/** The fold of Codex stream events into a completion, on values: pending calls live in slots, and the
    pending map sends each identity to a slot, so that two identities can share one. */
module CodexEvents {
  import opened Wrappers
  import ServerSentEvents

  /** A property of a parsed JSON object. `Other` is any value that is neither a string, null nor
      absent; `text` is what it converts to. */
  datatype Json = Undefined | Null | Str(text: string) | Other(text: string)

  datatype Part = OutputText(text: Json) | OtherPart

  datatype Item =
    | NotAnObject
    | FunctionCall(callId: Json, id: Json, name: Json, arguments: Json)
    | MessageItem(role: Json, content: Option<seq<Part>>)
    | OtherItem

  datatype Usage = NoUsage | Tokens(counters: string) | InvalidUsage

  datatype CodexEvent =
    | Unparsable
    | TextDelta(delta: Json)
    | ItemAdded(item: Item)
    | ItemDone(item: Item)
    | ArgumentsDelta(callId: Json, itemId: Json, delta: Json)
    | ArgumentsDone(callId: Json, itemId: Json, name: Json, arguments: Json)
    | ResponseFailed(payload: string)
    | StreamError(payload: string)
    | ResponseCompleted(identified: bool, usage: Usage)
    | OtherEvent

  datatype Failure =
    | BadJson
    | BadTextDelta
    | NoIdentity
    | BadItemIdentity
    | DoneItemNotAnObject
    | DeltaForUnknownCall(id: string)
    | BadArgumentsDelta
    | DoneForUnknownCall(id: string)
    | BadName
    | BadMessageRole
    | BadMessageContent
    | BadMessageText
    | ProviderFailure(payload: string)
    | BadCompletion
    | BadUsage
    | EndedByMarker
    | Truncated
    | NothingCompleted

  datatype ToolCall = ToolCall(id: string, name: string, arguments: string)

  datatype Completion =
    | ToolCalls(calls: seq<ToolCall>, usage: Usage)
    | Message(content: string, usage: Usage)

  datatype Pending = Pending(id: string, itemId: Option<string>, name: Json, args: string)

  datatype Status = Open | Completed | Broken(failure: Failure)

  datatype Fold = Fold(
    slots: seq<Pending>,
    keys: map<string, nat>,
    finalized: set<string>,
    toolCalls: seq<ToolCall>,
    message: Option<string>,
    usage: Usage,
    status: Status)

  const EMPTY := Fold([], map[], {}, [], None, NoUsage, Open)

  /** Every identity leads to an existing slot. */
  predicate Linked(f: Fold) {
    forall k :: k in f.keys ==> f.keys[k] < |f.slots|
  }

  // ---------------------------------------------------------------- identities and texts

  /** The call id, or the fallback when there is none; it must be a nonempty string. */
  function Identity(callId: Json, fallback: Json): (r: Option<string>)
    ensures forall id :: r == Some(id) <==> id != "" && (callId == Str(id) || (callId == Undefined && fallback == Str(id)))
  {
    var selected := if callId.Undefined? then fallback else callId;
    if selected.Str? && selected.text != "" then Some(selected.text) else None
  }

  function ItemIdentity(id: Json): (r: Result<Option<string>, Failure>)
    ensures r == Ok(None) <==> id == Undefined
    ensures forall text :: r == Ok(Some(text)) <==> id == Str(text) && text != ""
    ensures r.Err? ==> r.error == BadItemIdentity
  {
    if id.Undefined? then Ok(None)
    else if id.Str? && id.text != "" then Ok(Some(id.text))
    else Err(BadItemIdentity)
  }

  predicate Missing(j: Json) {
    j.Undefined? || j.Null?
  }

  function TextOr(j: Json, default: string): string {
    if Missing(j) then default else j.text
  }

  function JsonOr(j: Json, default: Json): Json {
    if Missing(j) then default else j
  }

  function MessageText(parts: seq<Part>): Option<string> {
    if parts == [] then Some("")
    else
      var n := |parts| - 1;
      match MessageText(parts[..n])
      case None => None
      case Some(before) =>
        if parts[n].OtherPart? then Some(before)
        else if parts[n].text.Str? then Some(before + parts[n].text.text)
        else None
  }

  // ---------------------------------------------------------------- one event

  function Fail(f: Fold, failure: Failure): Fold {
    f.(status := Broken(failure))
  }

  function Finalize(f: Fold, id: string, name: Json, args: string): Fold {
    if id in f.finalized then f
    else if !name.Str? || name.text == "" then Fail(f, BadName)
    else f.(finalized := f.finalized + {id},
            toolCalls := f.toolCalls + [ToolCall(id, name.text, if args == "" then "{}" else args)])
  }

  function WithoutKeys(keys: map<string, nat>, p: Pending): map<string, nat> {
    keys - (if p.itemId.Some? then {p.id, p.itemId.value} else {p.id})
  }

  function Remove(f: Fold, p: Pending): Fold {
    if f.status.Open? then f.(keys := WithoutKeys(f.keys, p)) else f
  }

  function AddCall(f: Fold, callId: string, itemId: Option<string>, name: Json, args: string): Fold {
    var slot := |f.slots|;
    var keys := f.keys[callId := slot];
    f.(slots := f.slots + [Pending(callId, itemId, name, args)],
       keys := if itemId.Some? then keys[itemId.value := slot] else keys)
  }

  function LookUp(f: Fold, callId: string, itemId: Option<string>): Option<nat> {
    if callId in f.keys then Some(f.keys[callId])
    else if itemId.Some? && itemId.value in f.keys then Some(f.keys[itemId.value])
    else None
  }

  function CompleteSlot(f: Fold, slot: nat, name: Json, arguments: Json): Fold
    requires slot < |f.slots|
  {
    var p := f.slots[slot];
    Remove(Finalize(f, p.id, JsonOr(name, p.name), TextOr(arguments, p.args)), p)
  }

  function CallDone(f: Fold, callId: string, itemId: Option<string>, name: Json, arguments: Json): Fold
    requires Linked(f)
  {
    match LookUp(f, callId, itemId)
    case None => Finalize(f, callId, JsonOr(name, Undefined), TextOr(arguments, "{}"))
    case Some(slot) => CompleteSlot(f, slot, name, arguments)
  }

  function ItemEvent(f: Fold, item: Item, done: bool): Fold
    requires Linked(f)
  {
    match item
    case FunctionCall(callId, id, name, arguments) =>
      (match Identity(callId, id)
       case None => Fail(f, NoIdentity)
       case Some(call) =>
         match ItemIdentity(id)
         case Err(e) => Fail(f, e)
         case Ok(itemId) =>
           if done then CallDone(f, call, itemId, name, arguments)
           else AddCall(f, call, itemId, name, TextOr(arguments, "")))
    case MessageItem(role, content) =>
      if !done then f
      else if role != Str("assistant") then Fail(f, BadMessageRole)
      else if content.None? then Fail(f, BadMessageContent)
      else
        (match MessageText(content.value)
         case None => Fail(f, BadMessageText)
         case Some(text) => f.(message := Some(text)))
    case NotAnObject => if done then Fail(f, DoneItemNotAnObject) else f
    case OtherItem => f
  }

  function AppendArgs(f: Fold, slot: nat, delta: string): Fold
    requires slot < |f.slots|
  {
    f.(slots := f.slots[slot := f.slots[slot].(args := f.slots[slot].args + delta)])
  }

  function DeltaEvent(f: Fold, callId: Json, itemId: Json, delta: Json): Fold
    requires Linked(f)
  {
    match Identity(callId, itemId)
    case None => Fail(f, NoIdentity)
    case Some(id) =>
      if id !in f.keys then Fail(f, DeltaForUnknownCall(id))
      else if !delta.Str? then Fail(f, BadArgumentsDelta)
      else
        AppendArgs(f, f.keys[id], delta.text)
  }

  function ArgumentsDoneEvent(f: Fold, callId: Json, itemId: Json, name: Json, arguments: Json): Fold
    requires Linked(f)
  {
    match Identity(callId, itemId)
    case None => Fail(f, NoIdentity)
    case Some(id) =>
      if id !in f.keys then Fail(f, DoneForUnknownCall(id))
      else CompleteSlot(f, f.keys[id], name, arguments)
  }

  function Handle(f: Fold, e: CodexEvent): (r: Fold)
    requires Linked(f)
    ensures Linked(r)
  {
    if !f.status.Open? then f
    else
      match e
      case Unparsable => Fail(f, BadJson)
      case TextDelta(delta) => if delta.Str? then f else Fail(f, BadTextDelta)
      case ItemAdded(item) => ItemEvent(f, item, false)
      case ItemDone(item) => ItemEvent(f, item, true)
      case ArgumentsDelta(callId, itemId, delta) => DeltaEvent(f, callId, itemId, delta)
      case ArgumentsDone(callId, itemId, name, arguments) => ArgumentsDoneEvent(f, callId, itemId, name, arguments)
      case ResponseFailed(payload) => Fail(f, ProviderFailure(payload))
      case StreamError(payload) => Fail(f, ProviderFailure(payload))
      case ResponseCompleted(identified, usage) =>
        if !identified then Fail(f, BadCompletion)
        else if usage.InvalidUsage? then Fail(f, BadUsage)
        else f.(usage := usage, status := Completed)
      case OtherEvent => f
  }

  // ---------------------------------------------------------------- event sequences and streams

  function After(f: Fold, es: seq<CodexEvent>): (r: Fold)
    requires Linked(f)
    ensures Linked(r)
  {
    if es == [] then f else Handle(After(f, es[..|es| - 1]), es[|es| - 1])
  }

  function Consume(f: Fold, outputs: seq<ServerSentEvents.Output>, parse: string -> CodexEvent): (r: Fold)
    requires Linked(f)
    ensures Linked(r)
  {
    if outputs == [] then f
    else
      var before := Consume(f, outputs[..|outputs| - 1], parse);
      match outputs[|outputs| - 1]
      case Done => if before.status.Open? then Fail(before, EndedByMarker) else before
      case Event(_, dataText) => Handle(before, parse(dataText))
  }

  function CompletionOf(f: Fold): Result<Completion, Failure> {
    if |f.toolCalls| > 0 then Ok(ToolCalls(f.toolCalls, f.usage))
    else if f.message.Some? then Ok(Message(f.message.value, f.usage))
    else Err(NothingCompleted)
  }

  /** What a stream amounts to once all its outputs are consumed. */
  function StreamResult(f: Fold): Result<Completion, Failure> {
    match f.status
    case Open => Err(Truncated)
    case Completed => CompletionOf(f)
    case Broken(failure) => Err(failure)
  }

  // ---------------------------------------------------------------- exactly-once finalization

  function Ids(calls: seq<ToolCall>): set<string> {
    set i | 0 <= i < |calls| :: calls[i].id
  }

  /** Emitted ids are pairwise distinct and are exactly the finalized ones. */
  ghost predicate OncePerId(f: Fold) {
    && (forall i, j :: 0 <= i < j < |f.toolCalls| ==> f.toolCalls[i].id != f.toolCalls[j].id)
    && Ids(f.toolCalls) == f.finalized
  }

  lemma FinalizeOnce(f: Fold, id: string, name: Json, args: string)
    requires OncePerId(f)
    ensures OncePerId(Finalize(f, id, name, args))
    ensures f.toolCalls <= Finalize(f, id, name, args).toolCalls
  {
    var g := Finalize(f, id, name, args);
    if g.toolCalls != f.toolCalls {
      var n := |f.toolCalls|;
      assert g.toolCalls[n].id == id;
      assert forall i :: 0 <= i < n ==> g.toolCalls[i] == f.toolCalls[i];
      forall i | 0 <= i < n ensures g.toolCalls[i].id != id {
        assert f.toolCalls[i].id in Ids(f.toolCalls);
      }
      assert Ids(g.toolCalls) == Ids(f.toolCalls) + {id};
    }
  }

  lemma HandleOnce(f: Fold, e: CodexEvent)
    requires Linked(f) && OncePerId(f)
    ensures OncePerId(Handle(f, e)) && f.toolCalls <= Handle(f, e).toolCalls
  {
    if f.status.Open? {
      match e {
        case ItemDone(FunctionCall(callId, id, name, arguments)) =>
          if Identity(callId, id).Some? && ItemIdentity(id).Ok? {
            var call, itemId := Identity(callId, id).value, ItemIdentity(id).value;
            match LookUp(f, call, itemId) {
              case None => FinalizeOnce(f, call, JsonOr(name, Undefined), TextOr(arguments, "{}"));
              case Some(slot) =>
                var p := f.slots[slot];
                FinalizeOnce(f, p.id, JsonOr(name, p.name), TextOr(arguments, p.args));
            }
          }
        case ArgumentsDone(callId, itemId, name, arguments) =>
          var id := Identity(callId, itemId);
          if id.Some? && id.value in f.keys {
            var p := f.slots[f.keys[id.value]];
            FinalizeOnce(f, p.id, JsonOr(name, p.name), TextOr(arguments, p.args));
          }
        case _ =>
      }
    }
  }

  /** Whatever the events, each id is finalized at most once, in the order of `toolCalls`, which only
      ever grows. */
  lemma {:induction false} FinalizedExactlyOnce(es: seq<CodexEvent>, k: nat)
    requires k <= |es|
    ensures OncePerId(After(EMPTY, es))
    ensures After(EMPTY, es[..k]).toolCalls <= After(EMPTY, es).toolCalls
  {
    if es == [] {
      assert Ids([]) == {};
      assert es[..k] == es;
    } else {
      var n := |es| - 1;
      var m := if k <= n then k else n;
      FinalizedExactlyOnce(es[..n], m);
      HandleOnce(After(EMPTY, es[..n]), es[n]);
      if k <= n { assert es[..n][..k] == es[..k]; } else { assert es[..k] == es; }
    }
  }

  /** Ids are told apart, not calls: an item that repeats only its item id, after its arguments were done
      under its call id, is emitted twice. */
  lemma ItemIdOnlyCompletionDoubles()
    ensures var es := [
              ItemAdded(FunctionCall(Str("c"), Str("i"), Str("f"), Undefined)),
              ArgumentsDone(Undefined, Str("i"), Undefined, Undefined),
              ItemDone(FunctionCall(Undefined, Str("i"), Str("f"), Undefined))];
            After(EMPTY, es).toolCalls == [ToolCall("c", "f", "{}"), ToolCall("i", "f", "{}")]
  {
    var add := ItemAdded(FunctionCall(Str("c"), Str("i"), Str("f"), Undefined));
    var argumentsDone := ArgumentsDone(Undefined, Str("i"), Undefined, Undefined);
    var itemDone := ItemDone(FunctionCall(Undefined, Str("i"), Str("f"), Undefined));
    var es := [add, argumentsDone, itemDone];
    assert es[..2] == [add, argumentsDone] && es[..2][..1] == [add] && [add][..0] == [];
    AddedCall(add);
    ArgumentsDoneEmits(After(EMPTY, [add]), argumentsDone);
    ItemIdEmits(After(EMPTY, es[..2]), itemDone);
  }

  lemma AddedCall(add: CodexEvent)
    requires add == ItemAdded(FunctionCall(Str("c"), Str("i"), Str("f"), Undefined))
    ensures After(EMPTY, [add]) == AddCall(EMPTY, "c", Some("i"), Str("f"), "")
  {
    assert [add][..0] == [];
    assert |"c"| == 1 && |"i"| == 1;
    assert After(EMPTY, [add]) == Handle(EMPTY, add) == ItemEvent(EMPTY, add.item, false);
  }

  lemma ArgumentsDoneEmits(f: Fold, e: CodexEvent)
    requires f == AddCall(EMPTY, "c", Some("i"), Str("f"), "")
    requires e == ArgumentsDone(Undefined, Str("i"), Undefined, Undefined)
    ensures var g := Handle(f, e);
            g.status.Open? && g.toolCalls == [ToolCall("c", "f", "{}")] && g.finalized == {"c"} && g.keys == map[]
  {
    assert "c" != "i" && |"i"| == 1;
  }

  lemma ItemIdEmits(f: Fold, e: CodexEvent)
    requires f.status.Open? && f.toolCalls == [ToolCall("c", "f", "{}")] && f.finalized == {"c"} && f.keys == map[]
    requires e == ItemDone(FunctionCall(Undefined, Str("i"), Str("f"), Undefined))
    ensures Handle(f, e).toolCalls == [ToolCall("c", "f", "{}"), ToolCall("i", "f", "{}")]
  {
    assert "c" != "i" && |"i"| == 1;
  }
}
