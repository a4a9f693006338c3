/** Incremental server-sent-events reading, and the line-based rules of sections 9.2.5 and 9.2.6 of the
    WHATWG HTML Living Standard it implements (restricted to the event and data fields, with a pending
    event dispatched at end of input). */
module ServerSentEvents {
  import opened Wrappers

  /** `Done` is the marker for the data text `[DONE]`. */
  datatype Output = Done | Event(event: string, dataText: string)

  // ---------------------------------------------------------------- fields of one event

  datatype Fields = Fields(event: string, data: seq<string>)

  const NO_FIELDS := Fields("", [])

  function Join(pieces: seq<string>): string {
    if pieces == [] then ""
    else if |pieces| == 1 then pieces[0]
    else pieces[0] + "\n" + Join(pieces[1..])
  }

  function Outputs(f: Fields): seq<Output> {
    if f.data == [] then []
    else if Join(f.data) == "[DONE]" then [Done]
    else [Event(if f.event == "" then "message" else f.event, Join(f.data))]
  }

  function ColonIn(line: string): (k: nat)
    ensures k <= |line|
    ensures k < |line| ==> line[k] == ':'
    ensures forall j :: 0 <= j < k ==> line[j] != ':'
  {
    if line == "" then 0
    else if line[0] == ':' then 0
    else
      assert forall j :: 0 < j < |line| ==> line[j] == line[1..][j - 1];
      1 + ColonIn(line[1..])
  }

  function FieldName(line: string): string {
    line[..ColonIn(line)]
  }

  function FieldValue(line: string): string {
    var colon := ColonIn(line);
    var value := if colon == |line| then "" else line[colon + 1..];
    if value != "" && value[0] == ' ' then value[1..] else value
  }

  /** A line without a colon is a name alone; otherwise the name ends at the first colon, and the value
      follows it, after one space at most. */
  lemma FieldIsSplitAtColon(line: string)
    ensures ':' !in line ==> FieldName(line) == line && FieldValue(line) == ""
    ensures ':' in line ==>
              && ':' !in FieldName(line)
              && (line == FieldName(line) + ": " + FieldValue(line)
                  || (line == FieldName(line) + ":" + FieldValue(line)
                      && (FieldValue(line) != "" ==> FieldValue(line)[0] != ' ')))
  {
    var k := ColonIn(line);
    if k < |line| {
      assert ':' !in line[..k];
      assert line == line[..k] + ":" + line[k + 1..];
      if line[k + 1..] != "" && line[k + 1] == ' ' {
        assert line == line[..k] + ": " + line[k + 2..] && line[k + 1..][1..] == line[k + 2..];
      }
    } else {
      assert line[..k] == line;
    }
  }

  function AddField(f: Fields, line: string): Fields {
    if FieldName(line) == "event" then f.(event := FieldValue(line))
    else if FieldName(line) == "data" then f.(data := f.data + [FieldValue(line)])
    else f
  }

  // ---------------------------------------------------------------- the reader

  datatype Reader = Reader(line: string, pendingCR: bool, fields: Fields)

  datatype Progress = Progress(reader: Reader, outputs: seq<Output>)

  const START := Reader("", false, NO_FIELDS)

  function Dispatch(r: Reader): Progress {
    Progress(r.(fields := NO_FIELDS), Outputs(r.fields))
  }

  function CompleteLine(r: Reader): Progress {
    var next := r.(line := "");
    if r.line == "" then Dispatch(next)
    else if r.line[0] == ':' then Progress(next, [])
    else Progress(next.(fields := AddField(r.fields, r.line)), [])
  }

  function Feed(r: Reader, c: char): Progress {
    var p := if r.pendingCR then CompleteLine(r.(pendingCR := false)) else Progress(r, []);
    if r.pendingCR && c == '\n' then p
    else if c == '\r' then Progress(p.reader.(pendingCR := true), p.outputs)
    else if c == '\n' then
      var q := CompleteLine(p.reader);
      Progress(q.reader, p.outputs + q.outputs)
    else Progress(p.reader.(line := p.reader.line + [c]), p.outputs)
  }

  function Process(r: Reader, text: string): Progress {
    if text == "" then Progress(r, [])
    else
      var p := Process(r, text[..|text| - 1]);
      Then(p, Feed(p.reader, text[|text| - 1]))
  }

  function Finish(r: Reader): seq<Output> {
    var p := if r.pendingCR then CompleteLine(r.(pendingCR := false)) else Progress(r, []);
    var q := if |p.reader.line| > 0 then CompleteLine(p.reader) else Progress(p.reader, []);
    p.outputs + q.outputs + Dispatch(q.reader).outputs
  }

  /** What has been read so far, and what the end of input adds. */
  function Closing(p: Progress): seq<Output> {
    p.outputs + Finish(p.reader)
  }

  /** Everything a reader yields for a text followed by end of input. */
  function AllOutputs(r: Reader, text: string): seq<Output> {
    Closing(Process(r, text))
  }

  /** Reading in chunks, chunk by chunk. */
  function ProcessChunks(r: Reader, chunks: seq<string>): Progress {
    if chunks == [] then Progress(r, [])
    else
      var p := ProcessChunks(r, chunks[..|chunks| - 1]);
      Then(p, Process(p.reader, chunks[|chunks| - 1]))
  }

  function Concat(chunks: seq<string>): string {
    if chunks == [] then "" else Concat(chunks[..|chunks| - 1]) + chunks[|chunks| - 1]
  }

  function Then(p: Progress, q: Progress): Progress {
    Progress(q.reader, p.outputs + q.outputs)
  }

  lemma ThenAssociates(p: Progress, q: Progress, t: Progress)
    ensures Then(Then(p, q), t) == Then(p, Then(q, t))
  {
    assert (p.outputs + q.outputs) + t.outputs == p.outputs + (q.outputs + t.outputs);
  }

  lemma ProcessOneMore(r: Reader, a: string, c: char)
    ensures Process(r, a + [c]) == Then(Process(r, a), Feed(Process(r, a).reader, c))
  {
    assert (a + [c])[..|a|] == a;
  }

  lemma ProcessOneMoreAfter(r: Reader, a: string, b: string, c: char)
    ensures Process(r, a + (b + [c])) == Then(Process(r, a + b), Feed(Process(r, a + b).reader, c))
  {
    assert a + (b + [c]) == (a + b) + [c];
    ProcessOneMore(r, a + b, c);
  }

  lemma {:induction false} ProcessAppends(r: Reader, a: string, b: string)
    ensures Process(r, a + b) == Then(Process(r, a), Process(Process(r, a).reader, b))
  {
    if b == "" {
      assert a + b == a;
    } else {
      var n := |b| - 1;
      var init, c := b[..n], b[n];
      ProcessAppends(r, a, init);
      var p := Process(r, a);
      var q := Process(p.reader, init);
      ProcessOneMoreAfter(r, a, init, c);
      ProcessOneMore(p.reader, init, c);
      ThenAssociates(p, q, Feed(q.reader, c));
      assert b == init + [c];
    }
  }

  /** Splitting a text into chunks does not change what is read from it. */
  lemma {:induction false} ChunksDoNotMatter(r: Reader, chunks: seq<string>)
    ensures ProcessChunks(r, chunks) == Process(r, Concat(chunks))
  {
    if chunks != [] {
      var n := |chunks| - 1;
      ChunksDoNotMatter(r, chunks[..n]);
      ProcessAppends(r, Concat(chunks[..n]), chunks[n]);
    }
  }

  // ---------------------------------------------------------------- the line-based rules

  predicate IsBreak(c: char) {
    c == '\r' || c == '\n'
  }

  function FirstBreak(text: string): (k: nat)
    ensures k <= |text|
    ensures k < |text| ==> IsBreak(text[k])
    ensures forall j :: 0 <= j < k ==> !IsBreak(text[j])
  {
    if text == "" then 0
    else if IsBreak(text[0]) then 0
    else
      assert forall j :: 0 < j < |text| ==> text[j] == text[1..][j - 1];
      1 + FirstBreak(text[1..])
  }

  /** Length of the line end at position `k`: CRLF, LF or CR, or nothing at end of input. */
  function BreakLength(text: string, k: nat): (n: nat)
    requires k <= |text|
    ensures k + n <= |text|
    ensures k < |text| ==> n > 0
  {
    if k == |text| then 0
    else if text[k] == '\r' && k + 1 < |text| && text[k + 1] == '\n' then 2
    else 1
  }

  /** The lines of a text; an unterminated last line counts unless it is empty. */
  function Lines(text: string): seq<string>
    decreases |text|
  {
    if text == "" then []
    else
      var k := FirstBreak(text);
      [text[..k]] + Lines(text[k + BreakLength(text, k)..])
  }

  /** Lines grouped into events, a group ending at each blank line and at end of input. */
  function Blocks(lines: seq<string>, current: seq<string>): (r: seq<seq<string>>)
    ensures r != []
  {
    if lines == [] then [current]
    else if lines[0] == "" then [current] + Blocks(lines[1..], [])
    else Blocks(lines[1..], current + [lines[0]])
  }

  /** The value of the last event field of a block. */
  function EventName(block: seq<string>): string {
    if block == [] then ""
    else
      var last := block[|block| - 1];
      if FieldName(last) == "event" then FieldValue(last) else EventName(block[..|block| - 1])
  }

  /** The values of the data fields of a block, in order. */
  function DataValues(block: seq<string>): seq<string> {
    if block == [] then []
    else
      var last := block[|block| - 1];
      DataValues(block[..|block| - 1]) + if FieldName(last) == "data" then [FieldValue(last)] else []
  }

  function BlockFields(block: seq<string>): Fields {
    Fields(EventName(block), DataValues(block))
  }

  function BlocksOutputs(blocks: seq<seq<string>>): seq<Output> {
    if blocks == [] then [] else Outputs(BlockFields(blocks[0])) + BlocksOutputs(blocks[1..])
  }

  /** What the rules say a whole text means. */
  function Meaning(text: string): seq<Output> {
    BlocksOutputs(Blocks(Lines(text), []))
  }

  // ---------------------------------------------------------------- the reader follows the rules

  /** Lines interpreted one by one from given fields, then a final dispatch. */
  function Interpret(f: Fields, lines: seq<string>): seq<Output>
    decreases |lines|
  {
    if lines == [] then Outputs(f)
    else if lines[0] == "" then Outputs(f) + Interpret(NO_FIELDS, lines[1..])
    else Interpret(AddField(f, lines[0]), lines[1..])
  }

  lemma {:induction false} PlainTextAccumulates(r: Reader, text: string)
    requires !r.pendingCR && forall j :: 0 <= j < |text| ==> !IsBreak(text[j])
    ensures Process(r, text) == Progress(r.(line := r.line + text), [])
  {
    if text == "" {
      assert r.line + text == r.line;
    } else {
      var n := |text| - 1;
      PlainTextAccumulates(r, text[..n]);
      assert text == text[..n] + [text[n]];
    }
  }

  lemma OneCharacter(r: Reader, c: char)
    ensures Process(r, [c]) == Feed(r, c)
  {
    assert [c][..0] == "";
  }

  lemma ClosingThen(p: Progress, q: Progress)
    ensures Closing(Then(p, q)) == p.outputs + Closing(q)
  {
    var closing := Finish(q.reader);
    assert (p.outputs + q.outputs) + closing == p.outputs + (q.outputs + closing);
  }

  lemma AllOutputsAppends(r: Reader, a: string, b: string)
    ensures AllOutputs(r, a + b) == Process(r, a).outputs + AllOutputs(Process(r, a).reader, b)
  {
    ProcessAppends(r, a, b);
    ClosingThen(Process(r, a), Process(Process(r, a).reader, b));
  }

  /** The same for a single character in front. */
  lemma AllOutputsFirst(r: Reader, c: char, rest: string)
    ensures AllOutputs(r, [c] + rest) == Feed(r, c).outputs + AllOutputs(Feed(r, c).reader, rest)
  {
    OneCharacter(r, c);
    AllOutputsAppends(r, [c], rest);
  }

  lemma FeedPending(r: Reader, c: char)
    requires r.pendingCR && c != '\n'
    ensures var p := CompleteLine(r.(pendingCR := false));
            Feed(r, c) == Then(p, Feed(p.reader, c))
  {
  }

  /** A pending CR ends the line unless an LF follows, whatever else comes next. */
  lemma PendingCREndsLine(r: Reader, rest: string)
    requires r.pendingCR && (rest == "" || rest[0] != '\n')
    ensures var p := CompleteLine(r.(pendingCR := false));
            AllOutputs(r, rest) == p.outputs + AllOutputs(p.reader, rest)
  {
    if rest == "" {
      FinishPending(r);
    } else {
      assert rest == [rest[0]] + rest[1..];
      PendingCRThen(r, rest[0], rest[1..]);
    }
  }

  lemma FinishPending(r: Reader)
    requires r.pendingCR
    ensures var p := CompleteLine(r.(pendingCR := false));
            Finish(r) == p.outputs + Finish(p.reader)
  {
  }

  lemma PendingCRThen(r: Reader, c: char, rest: string)
    requires r.pendingCR && c != '\n'
    ensures var p := CompleteLine(r.(pendingCR := false));
            AllOutputs(r, [c] + rest) == p.outputs + AllOutputs(p.reader, [c] + rest)
  {
    var p := CompleteLine(r.(pendingCR := false));
    AllOutputsFirst(r, c, rest);
    AllOutputsFirst(p.reader, c, rest);
    FeedPending(r, c);
    var q := Feed(p.reader, c);
    Regroup(Feed(r, c), p, q, AllOutputs(q.reader, rest));
  }

  lemma Regroup(f: Progress, p: Progress, q: Progress, after: seq<Output>)
    requires f == Then(p, q)
    ensures f.reader == q.reader && f.outputs + after == p.outputs + (q.outputs + after)
  {
  }

  lemma PlainThenRest(r: Reader, full: Reader, plain: string, rest: string)
    requires !r.pendingCR && forall j :: 0 <= j < |plain| ==> !IsBreak(plain[j])
    requires full == r.(line := r.line + plain)
    ensures AllOutputs(r, plain + rest) == AllOutputs(full, rest)
  {
    PlainTextAccumulates(r, plain);
    AllOutputsAppends(r, plain, rest);
    assert [] + AllOutputs(full, rest) == AllOutputs(full, rest);
  }

  /** Reading one complete line, then the rest. */
  lemma LineThenRest(f: Fields, text: string, k: nat)
    requires k < |text| && IsBreak(text[k]) && forall j :: 0 <= j < k ==> !IsBreak(text[j])
    ensures var p := CompleteLine(Reader(text[..k], false, f));
            AllOutputs(Reader("", false, f), text) == p.outputs + AllOutputs(p.reader, text[k + BreakLength(text, k)..])
  {
    var r, full, rest := Reader("", false, f), Reader(text[..k], false, f), [text[k]] + text[k + 1..];
    assert text == text[..k] + rest;
    assert full.line == r.line + text[..k];
    PlainThenRest(r, full, text[..k], rest);
    BreakEndsLine(full, text, k);
  }

  lemma LineFeedEndsLine(full: Reader, rest: string)
    requires !full.pendingCR
    ensures var p := CompleteLine(full);
            AllOutputs(full, ['\n'] + rest) == p.outputs + AllOutputs(p.reader, rest)
  {
    AllOutputsFirst(full, '\n', rest);
    assert Feed(full, '\n') == Then(Progress(full, []), CompleteLine(full));
  }

  lemma FeedCRLF(full: Reader)
    requires !full.pendingCR
    ensures Feed(full, '\r') == Progress(full.(pendingCR := true), [])
    ensures Feed(full.(pendingCR := true), '\n') == CompleteLine(full)
  {
    assert full.(pendingCR := true).(pendingCR := false) == full;
  }

  lemma PairEndsLine(full: Reader, rest: string)
    requires !full.pendingCR
    ensures var p := CompleteLine(full);
            AllOutputs(full, ['\r'] + (['\n'] + rest)) == p.outputs + AllOutputs(p.reader, rest)
  {
    var pending := full.(pendingCR := true);
    FeedCRLF(full);
    AllOutputsFirst(full, '\r', ['\n'] + rest);
    AllOutputsFirst(pending, '\n', rest);
  }

  lemma ReturnEndsLine(full: Reader, rest: string)
    requires !full.pendingCR && (rest == "" || rest[0] != '\n')
    ensures var p := CompleteLine(full);
            AllOutputs(full, ['\r'] + rest) == p.outputs + AllOutputs(p.reader, rest)
  {
    var pending := full.(pendingCR := true);
    FeedCRLF(full);
    AllOutputsFirst(full, '\r', rest);
    assert pending.(pendingCR := false) == full;
    PendingCREndsLine(pending, rest);
  }

  lemma BreakEndsLine(full: Reader, text: string, k: nat)
    requires !full.pendingCR && k < |text| && IsBreak(text[k])
    ensures var p := CompleteLine(full);
            AllOutputs(full, [text[k]] + text[k + 1..]) == p.outputs + AllOutputs(p.reader, text[k + BreakLength(text, k)..])
  {
    if text[k] == '\n' {
      LineFeedEndsLine(full, text[k + 1..]);
    } else if BreakLength(text, k) == 2 {
      assert text[k + 1..] == ['\n'] + text[k + 2..];
      PairEndsLine(full, text[k + 2..]);
    } else {
      ReturnEndsLine(full, text[k + 1..]);
    }
  }

  lemma UnterminatedLine(f: Fields, line: string)
    requires line != "" && forall j :: 0 <= j < |line| ==> !IsBreak(line[j])
    ensures AllOutputs(Reader("", false, f), line) == Outputs(AddField(f, line))
  {
    PlainTextAccumulates(Reader("", false, f), line);
    assert "" + line == line;
    assert Process(Reader("", false, f), line) == Progress(Reader(line, false, f), []);
    CommentAddsNothing(f, line);
  }

  lemma {:induction false} ReaderInterpretsLines(f: Fields, text: string)
    ensures AllOutputs(Reader("", false, f), text) == Interpret(f, Lines(text))
    decreases |text|
  {
    if text != "" {
      var k := FirstBreak(text);
      var line, rest := text[..k], text[k + BreakLength(text, k)..];
      assert Lines(text)[0] == line && Lines(text)[1..] == Lines(rest);
      if k == |text| {
        assert line == text && rest == "";
        UnterminatedLine(f, text);
      } else {
        LineThenRest(f, text, k);
        CommentAddsNothing(f, line);
        ReaderInterpretsLines(CompleteLine(Reader(line, false, f)).reader.fields, rest);
      }
    }
  }

  lemma CommentAddsNothing(f: Fields, line: string)
    ensures line != "" && line[0] == ':' ==> AddField(f, line) == f
  {
    if line != "" && line[0] == ':' {
      assert ColonIn(line) == 0;
      assert FieldName(line) == "";
    }
  }

  lemma {:induction false} InterpretIsByBlock(block: seq<string>, lines: seq<string>)
    ensures Interpret(BlockFields(block), lines) == BlocksOutputs(Blocks(lines, block))
    decreases |lines|
  {
    if lines == [] {
    } else if lines[0] == "" {
      InterpretIsByBlock([], lines[1..]);
      assert Blocks(lines, block)[1..] == Blocks(lines[1..], []);
    } else {
      var next := block + [lines[0]];
      assert next[..|next| - 1] == block;
      assert BlockFields(next) == AddField(BlockFields(block), lines[0]) by { NamesDiffer(lines[0]); }
      InterpretIsByBlock(next, lines[1..]);
    }
  }

  lemma NamesDiffer(line: string)
    ensures !(FieldName(line) == "event" && FieldName(line) == "data")
  {
    assert "event"[0] != "data"[0];
  }

  /** For every way of cutting a text into chunks, what the pushes and the final `finish` yield together
      is what the line-based rules say the text means. */
  lemma ReaderRefinesRules(chunks: seq<string>)
    ensures Closing(ProcessChunks(START, chunks)) == Meaning(Concat(chunks))
  {
    ChunksDoNotMatter(START, chunks);
    ReaderInterpretsLines(NO_FIELDS, Concat(chunks));
    InterpretIsByBlock([], Lines(Concat(chunks)));
    assert BlockFields([]) == NO_FIELDS;
  }

  /** What the standard says a whole text means: an event that no blank line ends is discarded.
      (The `[DONE]` sentinel is read as the reader reads it.) */
  function StandardMeaning(text: string): seq<Output> {
    var blocks := Blocks(Lines(text), []);
    BlocksOutputs(blocks[..|blocks| - 1])
  }

  /** The lines after the last blank one. */
  function Unended(text: string): seq<string> {
    var blocks := Blocks(Lines(text), []);
    blocks[|blocks| - 1]
  }

  lemma FirstBlockOutputs(first: seq<string>, rest: seq<seq<string>>)
    ensures BlocksOutputs([first] + rest) == Outputs(BlockFields(first)) + BlocksOutputs(rest)
  {
    assert ([first] + rest)[1..] == rest;
  }

  lemma OutputsAssociate(a: seq<Output>, b: seq<Output>, c: seq<Output>)
    ensures a + (b + c) == (a + b) + c
  {
  }

  lemma BlocksAssociate(blocks: seq<seq<string>>, last: seq<string>)
    requires blocks != []
    ensures blocks == [blocks[0]] + blocks[1..]
    ensures blocks + [last] == [blocks[0]] + (blocks[1..] + [last])
  {
  }

  lemma {:induction false} LastBlockOutputs(blocks: seq<seq<string>>, last: seq<string>)
    ensures BlocksOutputs(blocks + [last]) == BlocksOutputs(blocks) + BlocksOutputs([last])
  {
    if blocks == [] {
      assert blocks + [last] == [last];
    } else {
      var first, rest := blocks[0], blocks[1..];
      LastBlockOutputs(rest, last);
      FirstBlockOutputs(first, rest + [last]);
      FirstBlockOutputs(first, rest);
      OutputsAssociate(Outputs(BlockFields(first)), BlocksOutputs(rest), BlocksOutputs([last]));
      BlocksAssociate(blocks, last);
    }
  }

  lemma MeaningAndStandard(text: string)
    ensures Meaning(text) == StandardMeaning(text) + Outputs(BlockFields(Unended(text)))
  {
    var blocks := Blocks(Lines(text), []);
    var n := |blocks| - 1;
    assert blocks == blocks[..n] + [blocks[n]];
    LastBlockOutputs(blocks[..n], blocks[n]);
    FirstBlockOutputs(blocks[n], []);
    assert [blocks[n]] + [] == [blocks[n]];
  }

  /** The reader yields everything the standard does, and then the event left unended if there is one:
      it agrees with the standard exactly when no data line follows the last blank line. */
  lemma AgreesWithStandardExactly(chunks: seq<string>)
    ensures var text, read := Concat(chunks), Closing(ProcessChunks(START, chunks));
            && read == StandardMeaning(text) + Outputs(BlockFields(Unended(text)))
            && (read == StandardMeaning(text) <==> DataValues(Unended(text)) == [])
  {
    ReaderRefinesRules(chunks);
    MeaningAndStandard(Concat(chunks));
  }

  lemma SingleLine(line: string)
    requires line != "" && forall j :: 0 <= j < |line| ==> !IsBreak(line[j])
    ensures Blocks(Lines(line), []) == [[line]]
  {
    assert FirstBreak(line) == |line| && BreakLength(line, |line|) == 0;
    assert line[..|line|] == line && line[|line|..] == "";
    assert Lines(line) == [line] + Lines("") == [line];
    assert [line][1..] == [] && [] + [line] == [line];
  }

  lemma FieldsOfSingleLine(line: string)
    requires FieldName(line) == "data"
    ensures BlockFields([line]) == Fields("", [FieldValue(line)])
  {
    NamesDiffer(line);
    var block, before := [line], [];
    assert block[..|block| - 1] == before;
    assert EventName(block) == EventName(before) == "";
    assert DataValues(block) == DataValues(before) + [FieldValue(line)] == [FieldValue(line)];
  }

  /** One data line alone. */
  lemma UnendedLineIsRead(line: string)
    requires FieldName(line) == "data" && FieldValue(line) != "[DONE]"
    requires forall j :: 0 <= j < |line| ==> !IsBreak(line[j])
    ensures Closing(ProcessChunks(START, [line])) == [Event("message", FieldValue(line))]
    ensures StandardMeaning(line) == []
  {
    var chunks := [line];
    assert chunks[..|chunks| - 1] == [];
    assert Concat(chunks) == Concat([]) + line == line;
    assert line != "";
    SingleLine(line);
    FieldsOfSingleLine(line);
    AgreesWithStandardExactly(chunks);
  }

  lemma ReadsDataLine()
    ensures FieldName("data:x") == "data" && FieldValue("data:x") == "x"
  {
    assert ColonIn("data:x") == 4;
  }

  /** A text on which they differ. */
  lemma UnendedEventIsRead()
    ensures Closing(ProcessChunks(START, ["data:x"])) == [Event("message", "x")]
    ensures StandardMeaning("data:x") == []
  {
    ReadsDataLine();
    UnendedLineIsRead("data:x");
  }

  /** End of input acts exactly like two line feeds. */
  lemma FinishIsTwoLineFeeds(r: Reader)
    ensures Finish(r) == Process(r, "\n\n").outputs
  {
    assert "\n\n"[..1] == "\n";
    OneCharacter(r, '\n');
  }

  // ---------------------------------------------------------------- the reader as an object

  datatype MisuseError = PushAfterFinish | FinishTwice

  class IncrementalSseReader {
    var line: string
    var pendingCR: bool
    var event: string
    var data: seq<string>
    var finished: bool

    constructor ()
      ensures Model() == START && !finished
    {
      line, pendingCR, event, data, finished := "", false, "", [], false;
    }

    ghost function Model(): Reader
      reads this
    {
      Reader(line, pendingCR, Fields(event, data))
    }

    method Push(text: string) returns (r: Result<seq<Output>, MisuseError>)
      modifies this
      ensures finished == old(finished)
      ensures old(finished) ==> r == Err(PushAfterFinish) && Model() == old(Model())
      ensures !old(finished) ==>
                r == Ok(Process(old(Model()), text).outputs) && Model() == Process(old(Model()), text).reader
    {
      if finished {
        return Err(PushAfterFinish);
      }
      var outputs := ProcessText(text);
      return Ok(outputs);
    }

    method FinishInput() returns (r: Result<seq<Output>, MisuseError>)
      modifies this
      ensures finished
      ensures old(finished) ==> r == Err(FinishTwice)
      ensures !old(finished) ==> r == Ok(Finish(old(Model())))
    {
      if finished {
        return Err(FinishTwice);
      }
      finished := true;
      var outputs: seq<Output> := [];
      if pendingCR {
        pendingCR := false;
        outputs := EndLine(outputs);
      }
      if |line| > 0 {
        outputs := EndLine(outputs);
      }
      ghost var before := Model();
      outputs := DispatchEvent(outputs);
      assert outputs == Finish(old(Model()));
      return Ok(outputs);
    }

    method ProcessText(text: string) returns (outputs: seq<Output>)
      modifies this
      ensures finished == old(finished)
      ensures Progress(Model(), outputs) == Process(old(Model()), text)
    {
      outputs := [];
      for i := 0 to |text|
        invariant finished == old(finished)
        invariant Progress(Model(), outputs) == Process(old(Model()), text[..i])
      {
        assert text[..i + 1][..i] == text[..i];
        var character := text[i];
        var wasPending := pendingCR;
        if pendingCR {
          pendingCR := false;
          outputs := EndLine(outputs);
        }
        if !(wasPending && character == '\n') {
          if character == '\r' {
            pendingCR := true;
          } else if character == '\n' {
            outputs := EndLine(outputs);
          } else {
            line := line + [character];
          }
        }
      }
      assert text[..|text|] == text;
    }

    method EndLine(before: seq<Output>) returns (outputs: seq<Output>)
      modifies this
      ensures finished == old(finished)
      ensures Model() == CompleteLine(old(Model())).reader
      ensures outputs == before + CompleteLine(old(Model())).outputs
    {
      var text := line;
      line := "";
      outputs := before;
      if text == "" {
        outputs := DispatchEvent(outputs);
        return;
      }
      if text[0] == ':' {
        return;
      }
      var colon := ColonIn(text);
      var field := if colon == |text| then text else text[..colon];
      assert field == FieldName(text);
      var value := if colon == |text| then "" else text[colon + 1..];
      if value != "" && value[0] == ' ' {
        value := value[1..];
      }
      if field == "event" {
        event := value;
      } else if field == "data" {
        data := data + [value];
      }
    }

    method DispatchEvent(before: seq<Output>) returns (outputs: seq<Output>)
      modifies this`event, this`data
      ensures Model() == Dispatch(old(Model())).reader
      ensures outputs == before + Dispatch(old(Model())).outputs
    {
      outputs := before;
      if |data| > 0 {
        var dataText := Join(data);
        outputs := outputs + [if dataText == "[DONE]" then Done else Event(if event == "" then "message" else event, dataText)];
      }
      event := "";
      data := [];
    }
  }
}
