/** Printing events and reading them back. */
module EventPrinting {
  import opened ServerSentEvents

  /** The pieces of a data text between its line feeds. */
  function Pieces(text: string): (ps: seq<string>)
    ensures ps != []
    decreases |text|
  {
    var k := LineFeedIn(text);
    if k == |text| then [text] else [text[..k]] + Pieces(text[k + 1..])
  }

  function LineFeedIn(text: string): (k: nat)
    ensures k <= |text|
    ensures k < |text| ==> text[k] == '\n'
    ensures forall j :: 0 <= j < k ==> text[j] != '\n'
  {
    if text == "" then 0
    else if text[0] == '\n' then 0
    else
      assert forall j :: 0 < j < |text| ==> text[j] == text[1..][j - 1];
      1 + LineFeedIn(text[1..])
  }

  predicate NoBreaks(text: string) {
    forall j :: 0 <= j < |text| ==> !IsBreak(text[j])
  }

  /** The end marker, or an event that can be told from it and from its neighbours. */
  predicate Printable(o: Output) {
    o.Event? ==>
    && o.event != "" && NoBreaks(o.event)
    && (forall j :: 0 <= j < |o.dataText| ==> o.dataText[j] != '\r')
    && o.dataText != "[DONE]"
  }

  type Message = o: Output | Printable(o) witness Event("message", "")

  function DataLines(pieces: seq<string>): seq<string> {
    seq(|pieces|, i requires 0 <= i < |pieces| => "data: " + pieces[i])
  }

  function EventBlock(o: Message): seq<string> {
    match o
    case Done => ["data: [DONE]"]
    case Event(event, dataText) => ["event: " + event] + DataLines(Pieces(dataText))
  }

  function EventLines(events: seq<Message>): seq<string> {
    if events == [] then [] else EventBlock(events[0]) + [""] + EventLines(events[1..])
  }

  predicate IsLineEnd(eol: string) {
    eol == "\n" || eol == "\r" || eol == "\r\n"
  }

  type LineEnd = eol: string | IsLineEnd(eol) witness "\n"

  /** Lines printed, each with a line end of its own. */
  function PrintLines(lines: seq<string>, eols: seq<LineEnd>): string
    requires |eols| == |lines|
  {
    if lines == [] then "" else lines[0] + (eols[0] + PrintLines(lines[1..], eols[1..]))
  }

  function Print(events: seq<Message>, eols: seq<LineEnd>): string
    requires |eols| == |EventLines(events)|
  {
    PrintLines(EventLines(events), eols)
  }

  // ---------------------------------------------------------------- lines

  lemma FirstBreakAfter(line: string, rest: string)
    requires NoBreaks(line) && (rest == "" || IsBreak(rest[0]))
    ensures FirstBreak(line + rest) == |line|
  {
    var text := line + rest;
    assert forall j :: 0 <= j < |line| ==> text[j] == line[j];
    assert rest != "" ==> text[|line|] == rest[0];
  }

  /** What follows a line end: a CR takes an LF coming right after it along. */
  function Following(rest: string, afterCR: bool): string {
    if afterCR && rest != "" && rest[0] == '\n' then rest[1..] else rest
  }

  lemma SkipBreak(line: string, eol: LineEnd, rest: string)
    requires NoBreaks(line)
    ensures var text := line + (eol + rest);
            FirstBreak(text) == |line| && text[|line| + BreakLength(text, |line|)..] == Following(rest, eol == "\r")
  {
    var text := line + (eol + rest);
    var k, after := |line|, eol + rest;
    FirstBreakAfter(line, after);
    assert text[k..] == after;
    assert BreakLength(text, k) == BreakLength(after, 0);
    assert text[k + BreakLength(after, 0)..] == after[BreakLength(after, 0)..];
    BreakLengthOf(eol, rest);
  }

  lemma BreakLengthOf(eol: LineEnd, rest: string)
    ensures var after := eol + rest;
            after[BreakLength(after, 0)..] == Following(rest, eol == "\r")
  {
    var after := eol + rest;
    if eol == "\r\n" {
      assert after[0] == '\r' && after[1] == '\n';
    } else {
      assert after[0] == eol[0] && after[1..] == rest;
      if eol == "\r" && rest != "" && rest[0] == '\n' { assert after[2..] == rest[1..]; }
    }
  }

  lemma LineThenLines(line: string, eol: LineEnd, rest: string)
    requires NoBreaks(line)
    ensures Lines(line + (eol + rest)) == [line] + Lines(Following(rest, eol == "\r"))
  {
    var text := line + (eol + rest);
    SkipBreak(line, eol, rest);
    assert text[..|line|] == line;
  }

  /** Line `i` is blank and its LF is read as the second half of the line end before it. */
  predicate Swallowed(lines: seq<string>, eols: seq<LineEnd>, afterCR: bool, i: nat)
    requires |eols| == |lines| && i < |lines|
  {
    lines[i] == "" && eols[i] == "\n" && if i == 0 then afterCR else eols[i - 1] == "\r"
  }

  /** The lines that are not swallowed. */
  function Surviving(lines: seq<string>, eols: seq<LineEnd>, afterCR: bool): seq<string>
    requires |eols| == |lines|
  {
    if lines == [] then []
    else
      (if Swallowed(lines, eols, afterCR, 0) then [] else [lines[0]])
      + Surviving(lines[1..], eols[1..], eols[0] == "\r")
  }

  lemma FirstLineRead(line: string, eol: LineEnd, rest: string, afterCR: bool)
    requires NoBreaks(line)
    ensures Lines(Following(line + (eol + rest), afterCR)) ==
            (if line == "" && eol == "\n" && afterCR then [] else [line]) + Lines(Following(rest, eol == "\r"))
  {
    var text := line + (eol + rest);
    if line == "" && eol == "\n" && afterCR {
      assert text[1..] == rest;
    } else {
      assert text[0] == if line == "" then eol[0] else line[0];
      LineThenLines(line, eol, rest);
    }
  }

  lemma {:induction false} LinesSurviving(lines: seq<string>, eols: seq<LineEnd>, afterCR: bool)
    requires |eols| == |lines| && forall i :: 0 <= i < |lines| ==> NoBreaks(lines[i])
    ensures Lines(Following(PrintLines(lines, eols), afterCR)) == Surviving(lines, eols, afterCR)
    decreases |lines|
  {
    if lines != [] {
      var line, eol, rest := lines[0], eols[0], PrintLines(lines[1..], eols[1..]);
      LinesSurviving(lines[1..], eols[1..], eol == "\r");
      FirstLineRead(line, eol, rest, afterCR);
    }
  }

  ghost predicate NoneSwallowed(lines: seq<string>, eols: seq<LineEnd>, afterCR: bool)
    requires |eols| == |lines|
  {
    forall i :: 0 <= i < |lines| ==> !Swallowed(lines, eols, afterCR, i)
  }

  lemma NoneSwallowedFirst(lines: seq<string>, eols: seq<LineEnd>, afterCR: bool)
    requires |eols| == |lines| > 0
    ensures NoneSwallowed(lines, eols, afterCR) <==>
            !Swallowed(lines, eols, afterCR, 0) && NoneSwallowed(lines[1..], eols[1..], eols[0] == "\r")
  {
    var cr := eols[0] == "\r";
    forall i | 0 <= i < |lines| - 1
      ensures Swallowed(lines, eols, afterCR, i + 1) == Swallowed(lines[1..], eols[1..], cr, i)
    {
    }
    if !Swallowed(lines, eols, afterCR, 0) && NoneSwallowed(lines[1..], eols[1..], cr) {
      forall i | 0 <= i < |lines| ensures !Swallowed(lines, eols, afterCR, i) {
        if i > 0 { assert !Swallowed(lines[1..], eols[1..], cr, i - 1); }
      }
    }
  }

  function Blanks(lines: seq<string>): nat {
    if lines == [] then 0 else Blanks(lines[1..]) + if lines[0] == "" then 1 else 0
  }

  lemma {:induction false} BlanksSurviving(lines: seq<string>, eols: seq<LineEnd>, afterCR: bool)
    requires |eols| == |lines|
    ensures Blanks(Surviving(lines, eols, afterCR)) <= Blanks(lines)
    ensures Blanks(Surviving(lines, eols, afterCR)) == Blanks(lines) <==> NoneSwallowed(lines, eols, afterCR)
    ensures NoneSwallowed(lines, eols, afterCR) ==> Surviving(lines, eols, afterCR) == lines
  {
    if lines != [] {
      var rest := Surviving(lines[1..], eols[1..], eols[0] == "\r");
      BlanksSurviving(lines[1..], eols[1..], eols[0] == "\r");
      NoneSwallowedFirst(lines, eols, afterCR);
      assert ([lines[0]] + rest)[1..] == rest;
      assert [] + rest == rest;
    }
  }

  /** Lines printed with any line ends, mixed in any way, are split back exactly when no blank line ended
      by LF follows a line ended by CR. */
  lemma LinesOfPrint(lines: seq<string>, eols: seq<LineEnd>)
    requires |eols| == |lines| && forall i :: 0 <= i < |lines| ==> NoBreaks(lines[i])
    ensures Lines(PrintLines(lines, eols)) == lines <==> NoneSwallowed(lines, eols, false)
  {
    LinesSurviving(lines, eols, false);
    BlanksSurviving(lines, eols, false);
  }

  // ---------------------------------------------------------------- data

  lemma JoinFirst(piece: string, rest: seq<string>, text: string)
    requires rest != [] && Join(rest) == text
    ensures Join([piece] + rest) == piece + "\n" + text
  {
    assert ([piece] + rest)[1..] == rest;
  }

  lemma SplitAtLineFeed(text: string, k: nat)
    requires k < |text| && text[k] == '\n'
    ensures text[..k] + "\n" + text[k + 1..] == text
  {
  }

  lemma {:induction false} JoinOfPieces(text: string)
    ensures Join(Pieces(text)) == text
    decreases |text|
  {
    var k := LineFeedIn(text);
    if k < |text| {
      var head, tail := text[..k], text[k + 1..];
      JoinOfPieces(tail);
      JoinFirst(head, Pieces(tail), tail);
      SplitAtLineFeed(text, k);
    }
  }

  lemma {:induction false} PiecesHaveNoBreaks(text: string)
    requires forall j :: 0 <= j < |text| ==> text[j] != '\r'
    ensures forall i :: 0 <= i < |Pieces(text)| ==> NoBreaks(Pieces(text)[i])
    decreases |text|
  {
    var k := LineFeedIn(text);
    if k < |text| {
      PiecesHaveNoBreaks(text[k + 1..]);
      assert NoBreaks(text[..k]);
    } else {
      assert NoBreaks(text);
    }
  }

  lemma ColonAfterName(name: string, rest: string)
    requires forall j :: 0 <= j < |name| ==> name[j] != ':'
    ensures ColonIn(name + ":" + rest) == |name|
  {
    var line := name + ":" + rest;
    var k := ColonIn(line);
    assert line[|name|] == ':';
    assert forall j :: 0 <= j < |name| ==> line[j] == name[j];
  }

  /** A printed field reads back as its name and value, one leading space being dropped. */
  lemma FieldReadsBack(name: string, value: string)
    requires forall j :: 0 <= j < |name| ==> name[j] != ':'
    ensures var line := name + ": " + value;
            FieldName(line) == name && FieldValue(line) == value
  {
    var line := name + ": " + value;
    assert line == name + ":" + (" " + value);
    ColonAfterName(name, " " + value);
    assert line[|name| + 1..] == " " + value;
  }

  lemma {:induction false} DataLinesReadBack(head: string, event: string, pieces: seq<string>)
    requires head == "event: " + event
    ensures BlockFields([head] + DataLines(pieces)) == Fields(event, pieces)
  {
    var block := [head] + DataLines(pieces);
    var last := |block| - 1;
    assert "event: " == "event" + ": " && "data: " == "data" + ": ";
    if pieces == [] {
      assert head == "event" + ": " + event;
      FieldReadsBack("event", event);
      NamesDiffer(head);
      assert block == [head] && block[..last] == [] && block[last] == head;
      assert FieldName(head) == "event" && FieldValue(head) == event;
      assert EventName(block) == event;
      assert DataValues(block) == [] + [];
    } else {
      var n := |pieces| - 1;
      assert block[last] == "data" + ": " + pieces[n];
      FieldReadsBack("data", pieces[n]);
      NamesDiffer(block[last]);
      assert block[..last] == [head] + DataLines(pieces[..n]);
      DataLinesReadBack(head, event, pieces[..n]);
    }
  }

  /** A group of lines that means one output. */
  predicate Means(block: seq<string>, o: Output) {
    (forall i :: 0 <= i < |block| ==> block[i] != "") && Outputs(BlockFields(block)) == [o]
  }

  lemma BlockReadsBack(o: Message)
    ensures Means(EventBlock(o), o)
  {
    match o {
      case Done => MarkerReadsBack();
      case Event(event, dataText) =>
        DataLinesReadBack("event: " + event, event, Pieces(dataText));
        JoinOfPieces(dataText);
    }
  }

  lemma MarkerReadsBack()
    ensures Outputs(BlockFields(["data: [DONE]"])) == [Done]
  {
    var line := "data: [DONE]";
    assert line == "data" + ": " + "[DONE]";
    FieldReadsBack("data", "[DONE]");
    FieldsOfSingleLine(line);
  }

  lemma {:induction false} BlocksOfBlock(block: seq<string>, rest: seq<string>, current: seq<string>)
    requires forall i :: 0 <= i < |block| ==> block[i] != ""
    ensures Blocks(block + [""] + rest, current) == [current + block] + Blocks(rest, [])
    decreases |block|
  {
    var all := block + [""] + rest;
    if block == [] {
      assert all[0] == "" && all[1..] == rest;
      assert current + block == current;
    } else {
      assert all[0] == block[0] && all[1..] == block[1..] + [""] + rest;
      BlocksOfBlock(block[1..], rest, current + [block[0]]);
      assert current + [block[0]] + block[1..] == current + block;
    }
  }

  lemma FirstBlockRead(block: seq<string>, rest: seq<string>, o: Output)
    requires Means(block, o)
    ensures BlocksOutputs(Blocks(block + [""] + rest, [])) == [o] + BlocksOutputs(Blocks(rest, []))
  {
    BlocksOfBlock(block, rest, []);
    assert [] + block == block;
    FirstBlockOutputs(block, Blocks(rest, []));
  }

  /** The first event's lines, and the lines of the others. */
  lemma FirstEventLines(events: seq<Message>) returns (block: seq<string>, rest: seq<string>)
    requires events != []
    ensures EventLines(events) == block + [""] + rest && Means(block, events[0]) && rest == EventLines(events[1..])
  {
    block, rest := EventBlock(events[0]), EventLines(events[1..]);
    BlockReadsBack(events[0]);
  }

  lemma {:induction false} EventsReadBack(events: seq<Message>)
    ensures BlocksOutputs(Blocks(EventLines(events), [])) == events
  {
    if events != [] {
      EventsReadBack(events[1..]);
      var block, rest := FirstEventLines(events);
      FirstBlockRead(block, rest, events[0]);
    }
  }

  lemma {:induction false} EventLinesHaveNoBreaks(events: seq<Message>)
    ensures forall i :: 0 <= i < |EventLines(events)| ==> NoBreaks(EventLines(events)[i])
  {
    if events != [] {
      EventLinesHaveNoBreaks(events[1..]);
      BlockHasNoBreaks(events[0]);
    }
  }

  lemma BlockHasNoBreaks(o: Message)
    ensures forall i :: 0 <= i < |EventBlock(o)| ==> NoBreaks(EventBlock(o)[i])
  {
    if o.Event? {
      PiecesHaveNoBreaks(o.dataText);
      var pieces := Pieces(o.dataText);
      forall i | 0 <= i < |EventBlock(o)| ensures NoBreaks(EventBlock(o)[i]) {
        if i > 0 {
          assert EventBlock(o)[i] == "data: " + pieces[i - 1];
          assert NoBreaks(pieces[i - 1]) && NoBreaks("data: ");
        } else {
          assert NoBreaks("event: ");
        }
      }
    }
  }

  // ---------------------------------------------------------------- events printed and read

  /** The blank line after the last event makes no difference. */
  lemma {:induction false} TrailingBlank(lines: seq<string>, current: seq<string>)
    ensures BlocksOutputs(Blocks(lines + [""], current)) == BlocksOutputs(Blocks(lines, current))
    decreases |lines|
  {
    if lines == [] {
      assert ([] + [""])[1..] == [];
      assert Blocks([""], current) == [current] + [[]];
      assert Blocks([""], current)[1..] == [[]];
      assert Outputs(BlockFields([])) == [];
    } else {
      assert (lines + [""])[1..] == lines[1..] + [""];
      TrailingBlank(lines[1..], if lines[0] == "" then [] else current + [lines[0]]);
    }
  }

  lemma {:induction false} AtMostOneEventPerBlock(lines: seq<string>, current: seq<string>)
    ensures |BlocksOutputs(Blocks(lines, current))| <= Blanks(lines) + 1
    decreases |lines|
  {
    if lines != [] {
      AtMostOneEventPerBlock(lines[1..], if lines[0] == "" then [] else current + [lines[0]]);
    }
  }

  lemma {:induction false} BlanksAppend(a: seq<string>, b: seq<string>)
    ensures Blanks(a + b) == Blanks(a) + Blanks(b)
  {
    if a == [] {
      assert a + b == b;
    } else {
      assert (a + b)[1..] == a[1..] + b;
      BlanksAppend(a[1..], b);
    }
  }

  lemma {:induction false} NoBlanks(lines: seq<string>)
    requires forall i :: 0 <= i < |lines| ==> lines[i] != ""
    ensures Blanks(lines) == 0
  {
    if lines != [] { NoBlanks(lines[1..]); }
  }

  lemma {:induction false} OneBlankPerEvent(events: seq<Message>)
    ensures Blanks(EventLines(events)) == |events|
    ensures events != [] ==> EventLines(events) != [] && EventLines(events)[|EventLines(events)| - 1] == ""
  {
    if events != [] {
      var block, rest := FirstEventLines(events);
      OneBlankPerEvent(events[1..]);
      NoBlanks(block);
      BlanksAppend(block, [""]);
      BlanksAppend(block + [""], rest);
    }
  }

  lemma {:induction false} SurvivingLast(lines: seq<string>, eols: seq<LineEnd>, afterCR: bool)
    requires |eols| == |lines| > 0
    ensures var n := |lines| - 1;
            Surviving(lines, eols, afterCR) ==
            Surviving(lines[..n], eols[..n], afterCR) + if Swallowed(lines, eols, afterCR, n) then [] else [lines[n]]
    decreases |lines|
  {
    var n := |lines| - 1;
    if n > 0 {
      SurvivingLast(lines[1..], eols[1..], eols[0] == "\r");
      assert lines[..n][1..] == lines[1..][..n - 1] && eols[..n][1..] == eols[1..][..n - 1];
    }
  }

  lemma IdleBlank(lines: seq<string>, last: seq<string>)
    requires last == [] || last == [""]
    ensures BlocksOutputs(Blocks(lines + last, [])) == BlocksOutputs(Blocks(lines, []))
  {
    if last == [] { assert lines + last == lines; } else { TrailingBlank(lines, []); }
  }

  /** The last blank line makes no difference, swallowed or not. */
  lemma LastLineIsIdle(lines: seq<string>, eols: seq<LineEnd>)
    requires |eols| == |lines| > 0 && lines[|lines| - 1] == ""
    ensures var n := |lines| - 1;
            BlocksOutputs(Blocks(Surviving(lines, eols, false), [])) ==
            BlocksOutputs(Blocks(Surviving(lines[..n], eols[..n], false), []))
  {
    var n := |lines| - 1;
    SurvivingLast(lines, eols, false);
    IdleBlank(Surviving(lines[..n], eols[..n], false), if Swallowed(lines, eols, false, n) then [] else [""]);
  }

  /** A blank line that is swallowed merges two groups of lines into one. */
  lemma SwallowedMerges(lines: seq<string>, eols: seq<LineEnd>)
    requires |eols| == |lines|
    ensures NoneSwallowed(lines, eols, false) ==> Surviving(lines, eols, false) == lines
    ensures !NoneSwallowed(lines, eols, false) ==>
              |BlocksOutputs(Blocks(Surviving(lines, eols, false), []))| <= Blanks(lines)
  {
    BlanksSurviving(lines, eols, false);
    AtMostOneEventPerBlock(Surviving(lines, eols, false), []);
  }

  lemma NoneSwallowedBefore(lines: seq<string>, eols: seq<LineEnd>, n: nat)
    requires |eols| == |lines| && n <= |lines|
    ensures NoneSwallowed(lines[..n], eols[..n], false) <==>
            forall i :: 0 <= i < n ==> !Swallowed(lines, eols, false, i)
  {
    forall i | 0 <= i < n ensures Swallowed(lines, eols, false, i) == Swallowed(lines[..n], eols[..n], false, i) {
    }
  }

  /** The lines before the last blank one. */
  lemma WithoutLastBlank(events: seq<Message>) returns (init: seq<string>)
    requires events != []
    ensures EventLines(events) == init + [""]
    ensures BlocksOutputs(Blocks(init, [])) == events && Blanks(init) == |events| - 1
  {
    EventsReadBack(events);
    OneBlankPerEvent(events);
    var lines := EventLines(events);
    init := lines[..|lines| - 1];
    DropLastBlank(lines, init);
  }

  lemma DropLastBlank(lines: seq<string>, init: seq<string>)
    requires lines != [] && lines[|lines| - 1] == "" && init == lines[..|lines| - 1]
    ensures lines == init + [""]
    ensures BlocksOutputs(Blocks(init, [])) == BlocksOutputs(Blocks(lines, [])) && Blanks(init) == Blanks(lines) - 1
  {
    BlanksAppend(init, [""]);
    TrailingBlank(init, []);
  }

  lemma EventsSurviveExactly(events: seq<Message>, eols: seq<LineEnd>)
    requires |eols| == |EventLines(events)|
    ensures BlocksOutputs(Blocks(Surviving(EventLines(events), eols, false), [])) == events <==>
            forall i :: 0 <= i < |eols| - 1 ==> !Swallowed(EventLines(events), eols, false, i)
  {
    if events == [] {
      assert Blocks([], []) == [[]];
      EventsReadBack(events);
    } else {
      var init := WithoutLastBlank(events);
      InnerBlanksDecide(init, eols, events);
    }
  }

  lemma InnerBlanksDecide(init: seq<string>, eols: seq<LineEnd>, outputs: seq<Output>)
    requires |eols| == |init| + 1 && Blanks(init) == |outputs| - 1
    requires BlocksOutputs(Blocks(init, [])) == outputs
    ensures BlocksOutputs(Blocks(Surviving(init + [""], eols, false), [])) == outputs <==>
            forall i :: 0 <= i < |init| ==> !Swallowed(init + [""], eols, false, i)
  {
    var lines, n := init + [""], |init|;
    assert lines[..n] == init;
    LastLineIsIdle(lines, eols);
    SwallowedMerges(init, eols[..n]);
    NoneSwallowedBefore(lines, eols, n);
  }

  /** Printed events are read back unchanged, however the text is cut into chunks and whatever line end
      each line is written with, exactly when no blank line ended by LF follows a line ended by CR; after
      the last event even that does no harm. */
  lemma PrintThenRead(events: seq<Message>, eols: seq<LineEnd>, chunks: seq<string>)
    requires |eols| == |EventLines(events)|
    requires Concat(chunks) == Print(events, eols)
    ensures Closing(ProcessChunks(START, chunks)) == events <==>
            forall i :: 0 <= i < |eols| - 1 ==> !Swallowed(EventLines(events), eols, false, i)
  {
    ReaderRefinesRules(chunks);
    EventLinesHaveNoBreaks(events);
    LinesSurviving(EventLines(events), eols, false);
    EventsSurviveExactly(events, eols);
  }
}
