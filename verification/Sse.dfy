/** Both ends of the event stream (WHATWG HTML, sections 9.2.5 and 9.2.6): the frames the server writes
    (`internal/streaming/handler.go`) and the SDK's line parser (`pkg/sdk/stream.go`). */
module Sse {
  import opened Prelude
  import Text

  /** The SDK's scanner gives up on a line of this many bytes or more. */
  const MAX_LINE := 1024 * 1024

  /** One frame: hub events carry an id, heartbeats and resyncs do not. `data` is the payload as JSON text. */
  datatype Frame = Frame(id: Option<int>, kind: string, data: string)

  /** One parsed message. */
  datatype StreamEvent = StreamEvent(id: string, event: string, data: string)

  // ---------- The printer

  function Digits(n: nat): string {
    if n < 10 then [('0' as int + n) as char] else Digits(n / 10) + [('0' as int + n % 10) as char]
  }

  /** %d. */
  function Decimal(n: int): string {
    if n < 0 then "-" + Digits(-n) else Digits(n)
  }

  function FrameLines(f: Frame): seq<string> {
    (if f.id.Some? then ["id: " + Decimal(f.id.value)] else []) + ["event: " + f.kind, "data: " + f.data]
  }

  function Join(lines: seq<string>): string {
    if lines == [] then "" else lines[0] + "\n" + Join(lines[1..])
  }

  function Print(f: Frame): string {
    Join(FrameLines(f)) + "\n"
  }

  function PrintAll(frames: seq<Frame>): string {
    if frames == [] then "" else Print(frames[0]) + PrintAll(frames[1..])
  }

  // ---------- The scanner

  function LineEnd(s: string): (i: nat)
    ensures i <= |s| && (forall j | 0 <= j < i :: s[j] != '\n') && (i < |s| ==> s[i] == '\n')
  {
    if s == "" || s[0] == '\n' then 0 else 1 + LineEnd(s[1..])
  }

  function DropCR(line: string): string {
    if line != "" && line[|line| - 1] == '\r' then line[..|line| - 1] else line
  }

  /** bufio.ScanLines: a last line without newline counts when it is not empty; a line that is too long ends
      the scan. */
  function Lines(s: string): seq<string>
    decreases |s|
  {
    var i := LineEnd(s);
    if s == "" || Text.Bytes(s[..i]) >= MAX_LINE then []
    else if i == |s| then [DropCR(s)]
    else [DropCR(s[..i])] + Lines(s[i + 1..])
  }

  // ---------- The parser

  datatype Parser = Parser(id: string, event: string, data: string, lastEventID: string, dispatched: seq<StreamEvent>)

  function Start(lastEventID: string): Parser {
    Parser("", "", "", lastEventID, [])
  }

  function Step(p: Parser, line: string): Parser {
    if line == "" then
      Parser("", "", "", if p.id != "" then p.id else p.lastEventID, p.dispatched + [StreamEvent(p.id, p.event, p.data)])
    else if Text.HasPrefix(line, ":") then p
    else if Text.HasPrefix(line, "id:") then p.(id := Text.TrimSpace(line[3..]))
    else if Text.HasPrefix(line, "event:") then p.(event := Text.TrimSpace(line[6..]))
    else if Text.HasPrefix(line, "data:") then
      var d := WithoutSpace(line[5..]);
      p.(data := if p.data == "" then d else p.data + "\n" + d)
    else p
  }

  function WithoutSpace(s: string): string {
    if Text.HasPrefix(s, " ") then s[1..] else s
  }

  function Feed(p: Parser, lines: seq<string>): Parser
    decreases |lines|
  {
    if lines == [] then p else Feed(Step(p, lines[0]), lines[1..])
  }

  /** The next line break, or the end of the text. */
  method Scan(body: string, pos: nat) returns (end: nat)
    requires pos <= |body|
    ensures pos <= end <= |body| && (forall j | pos <= j < end :: body[j] != '\n') && (end < |body| ==> body[end] == '\n')
  {
    end := pos;
    while end < |body| && body[end] != '\n'
      invariant pos <= end <= |body|
      invariant forall j | pos <= j < end :: body[j] != '\n'
    {
      end := end + 1;
    }
  }

  /** The events one connection dispatches, and the last event id it leaves. */
  method Consume(body: string, lastID: string) returns (dispatched: seq<StreamEvent>, lastEventID: string)
    ensures var end := Feed(Start(lastID), Lines(body)); dispatched == end.dispatched && lastEventID == end.lastEventID
  {
    dispatched, lastEventID := [], lastID;
    var id, event, data, pos := "", "", "", 0;
    while pos < |body|
      invariant 0 <= pos <= |body|
      invariant Feed(Start(lastID), Lines(body)) == Feed(Parser(id, event, data, lastEventID, dispatched), Lines(body[pos..]))
    {
      var end := Scan(body, pos);
      NextLine(body, pos, end);
      if Text.Bytes(body[pos..end]) >= MAX_LINE { return; }
      var line := DropCR(body[pos..end]);
      ghost var p, next := Parser(id, event, data, lastEventID, dispatched), if end < |body| then end + 1 else end;
      FeedNext(p, line, Lines(body[next..]));
      if line == "" {
        if id != "" { lastEventID := id; }
        dispatched := dispatched + [StreamEvent(id, event, data)];
        id, event, data := "", "", "";
      } else {
        id, event, data := ReadField(line, id, event, data);
        assert Step(p, line) == p.(id := id, event := event, data := data);
      }
      pos := if end < |body| then end + 1 else end;
    }
  }

  /** The cases of the loop's switch other than the blank line. */
  method ReadField(line: string, id: string, event: string, data: string) returns (newID: string, newEvent: string, newData: string)
    requires line != ""
    ensures forall p: Parser | p.id == id && p.event == event && p.data == data ::
      Step(p, line) == p.(id := newID, event := newEvent, data := newData)
  {
    newID, newEvent, newData := id, event, data;
    if Text.HasPrefix(line, ":") {
    } else if Text.HasPrefix(line, "id:") {
      newID := Text.TrimSpace(line[3..]);
    } else if Text.HasPrefix(line, "event:") {
      newEvent := Text.TrimSpace(line[6..]);
    } else if Text.HasPrefix(line, "data:") {
      var d := WithoutSpace(line[5..]);
      if newData != "" { newData := newData + "\n"; }
      newData := newData + d;
    }
  }

  lemma FeedNext(p: Parser, line: string, rest: seq<string>)
    ensures Feed(p, [line] + rest) == Feed(Step(p, line), rest)
  {
    assert ([line] + rest)[1..] == rest;
  }

  /** What one turn of the scan takes off the text. */
  lemma NextLine(body: string, pos: nat, end: nat)
    requires pos <= end <= |body| && pos < |body|
    requires (forall j | pos <= j < end :: body[j] != '\n') && (end < |body| ==> body[end] == '\n')
    ensures Lines(body[pos..]) ==
      if Text.Bytes(body[pos..end]) >= MAX_LINE then []
      else [DropCR(body[pos..end])] + Lines(body[if end < |body| then end + 1 else end..])
  {
    var rest := body[pos..];
    LineEndIs(rest, end - pos);
    assert rest[..end - pos] == body[pos..end];
    if end < |body| {
      assert rest[end - pos + 1..] == body[end + 1..];
    } else {
      assert rest == body[pos..end] && body[end..] == "";
    }
  }

  lemma LineEndIs(s: string, i: nat)
    requires i <= |s| && (forall j | 0 <= j < i :: s[j] != '\n') && (i < |s| ==> s[i] == '\n')
    ensures LineEnd(s) == i
  {
  }

  // ---------- Printing, then parsing

  ghost predicate SingleLine(line: string) {
    '\n' !in line && Text.Bytes(line) < MAX_LINE
  }

  /** Frames whose type and data each stay on one line the scanner can hold. */
  ghost predicate Printable(f: Frame) {
    && SingleLine("event: " + f.kind) && SingleLine("data: " + f.data)
    && (f.id.Some? ==> -0x8000_0000_0000_0000 <= f.id.value < 0x8000_0000_0000_0000)
  }

  /** What the parser makes of a frame: the type without surrounding space, the data without a final
      carriage return. */
  function Expected(f: Frame): StreamEvent {
    StreamEvent(if f.id.Some? then Decimal(f.id.value) else "", Text.TrimSpace(f.kind), DropCR(f.data))
  }

  /** The frames that survive unchanged. */
  lemma ExpectedIsExactIff(f: Frame)
    ensures Expected(f) == StreamEvent(if f.id.Some? then Decimal(f.id.value) else "", f.kind, f.data)
       <==> Text.Trimmed(f.kind) && (f.data == "" || f.data[|f.data| - 1] != '\r')
  {
    TrimmedIffUnchanged(f.kind);
  }

  lemma {:induction false} TrimLeftShortens(s: string)
    ensures |Text.TrimLeft(s)| <= |s| && (Text.TrimLeft(s) != "" ==> !Text.IsSpace(Text.TrimLeft(s)[0]))
    ensures |Text.TrimLeft(s)| == |s| ==> Text.TrimLeft(s) == s
  {
    if s != "" && Text.IsSpace(s[0]) { TrimLeftShortens(s[1..]); }
  }

  lemma {:induction false} TrimRightShortens(s: string)
    ensures |Text.TrimRight(s)| <= |s| && (Text.TrimRight(s) != "" ==> !Text.IsSpace(Text.TrimRight(s)[|Text.TrimRight(s)| - 1]))
    ensures |Text.TrimRight(s)| == |s| ==> Text.TrimRight(s) == s
  {
    if s != "" && Text.IsSpace(s[|s| - 1]) { TrimRightShortens(s[..|s| - 1]); }
  }

  lemma TrimmedIffUnchanged(s: string)
    ensures Text.TrimSpace(s) == s <==> Text.Trimmed(s)
  {
    TrimLeftShortens(s);
    TrimRightShortens(Text.TrimLeft(s));
  }

  /** A space in front or a carriage return behind makes no difference to TrimSpace. */
  lemma TrimIgnoresPadding(s: string)
    ensures Text.TrimSpace(DropCR(" " + s)) == Text.TrimSpace(s)
  {
    assert DropCR(" " + s) == " " + DropCR(s);
    assert (" " + DropCR(s))[1..] == DropCR(s);
    assert Text.TrimSpace(" " + DropCR(s)) == Text.TrimSpace(DropCR(s));
    if DropCR(s) != s {
      TrimDropsTrailingCR(DropCR(s));
      assert s == DropCR(s) + "\r";
    }
  }

  lemma {:induction false} TrimDropsTrailingCR(s: string)
    ensures Text.TrimSpace(s + "\r") == Text.TrimSpace(s)
  {
    var t := s + "\r";
    if s == "" {
      assert Text.TrimLeft("\r") == Text.TrimLeft("") == "" by { assert "\r"[1..] == ""; }
    } else if Text.IsSpace(s[0]) {
      assert t[1..] == s[1..] + "\r";
      TrimDropsTrailingCR(s[1..]);
    } else {
      assert Text.TrimLeft(t) == t && Text.TrimLeft(s) == s;
      assert t[..|t| - 1] == s;
    }
  }

  function ExpectedAll(frames: seq<Frame>): seq<StreamEvent> {
    seq(|frames|, i requires 0 <= i < |frames| => Expected(frames[i]))
  }

  lemma LineThenRest(line: string, rest: string)
    requires SingleLine(line)
    ensures Lines(line + "\n" + rest) == [DropCR(line)] + Lines(rest)
  {
    var s := line + "\n" + rest;
    LineEndIs(s, |line|);
    assert s[..|line|] == line && s[|line| + 1..] == rest;
  }

  function WithoutCRs(lines: seq<string>): seq<string> {
    if lines == [] then [] else [DropCR(lines[0])] + WithoutCRs(lines[1..])
  }

  lemma JoinStep(lines: seq<string>, rest: string)
    requires lines != []
    ensures Join(lines) + rest == lines[0] + "\n" + (Join(lines[1..]) + rest)
  {
  }

  lemma {:induction false} JoinedLines(lines: seq<string>, rest: string)
    requires forall line | line in lines :: SingleLine(line)
    ensures Lines(Join(lines) + rest) == WithoutCRs(lines) + Lines(rest)
  {
    if lines == [] {
      assert "" + rest == rest;
    } else {
      assert forall line | line in lines[1..] :: line in lines;
      var tail := Join(lines[1..]) + rest;
      JoinStep(lines, rest);
      calc {
        Lines(lines[0] + "\n" + tail);
        { LineThenRest(lines[0], tail); }
        [DropCR(lines[0])] + Lines(tail);
        { JoinedLines(lines[1..], rest); }
        [DropCR(lines[0])] + (WithoutCRs(lines[1..]) + Lines(rest));
        WithoutCRs(lines) + Lines(rest);
      }
    }
  }

  lemma {:induction false} DigitsAreDigits(n: nat)
    ensures Digits(n) != "" && forall i | 0 <= i < |Digits(n)| :: '0' <= Digits(n)[i] <= '9'
  {
    if n >= 10 { DigitsAreDigits(n / 10); }
  }

  lemma {:induction false} DigitsAreShort(n: nat, k: nat)
    requires k > 0 && n < Pow10(k)
    ensures |Digits(n)| <= k
  {
    if n >= 10 { DigitsAreShort(n / 10, k - 1); }
  }

  function Pow10(k: nat): nat {
    if k == 0 then 1 else 10 * Pow10(k - 1)
  }

  lemma IdLineIsClean(id: int)
    requires -0x8000_0000_0000_0000 <= id < 0x8000_0000_0000_0000
    ensures SingleLine("id: " + Decimal(id)) && DropCR("id: " + Decimal(id)) == "id: " + Decimal(id)
    ensures Text.Trimmed(Decimal(id)) && Decimal(id) != ""
  {
    var n := if id < 0 then -id else id;
    DigitsAreDigits(n);
    assert Pow10(9) == 1_000_000_000;
    assert Pow10(11) == 100_000_000_000 && Pow10(13) == 10_000_000_000_000 && Pow10(15) == 1_000_000_000_000_000;
    assert Pow10(17) == 100_000_000_000_000_000 && Pow10(19) == 10_000_000_000_000_000_000;
    DigitsAreShort(n, 19);
    Text.BytesAtMost("id: " + Decimal(id));
  }

  lemma FrameLinesAreClean(f: Frame)
    requires Printable(f)
    ensures forall line | line in FrameLines(f) :: SingleLine(line) && line != "" && line[0] != '\r'
  {
    if f.id.Some? { IdLineIsClean(f.id.value); }
  }

  /** The parser between events, after it has dispatched frame f. */
  function After(p: Parser, f: Frame): Parser {
    Parser("", "", "", if f.id.Some? then Decimal(f.id.value) else p.lastEventID, p.dispatched + [Expected(f)])
  }

  ghost predicate BetweenEvents(p: Parser) {
    p.id == p.event == p.data == ""
  }

  lemma IdLine(p: Parser, id: int)
    requires -0x8000_0000_0000_0000 <= id < 0x8000_0000_0000_0000
    ensures Step(p, DropCR("id: " + Decimal(id))) == p.(id := Decimal(id))
  {
    IdLineIsClean(id);
    TrimmedIffUnchanged(Decimal(id));
    var line := "id: " + Decimal(id);
    assert line[..3] == "id:" && line[3..] == " " + Decimal(id) && line[0] == 'i';
    assert Text.HasPrefix(line, "id:") && !Text.HasPrefix(line, ":");
    TrimIgnoresPadding(Decimal(id));
    assert DropCR(" " + Decimal(id)) == " " + Decimal(id);
  }

  lemma EventLine(p: Parser, kind: string)
    ensures Step(p, DropCR("event: " + kind)) == p.(event := Text.TrimSpace(kind))
  {
    var line := DropCR("event: " + kind);
    assert line == "event:" + DropCR(" " + kind);
    assert line[..6] == "event:" && line[6..] == DropCR(" " + kind) && line[0] == 'e';
    assert Text.HasPrefix(line, "event:") && !Text.HasPrefix(line, ":") && !Text.HasPrefix(line, "id:");
    TrimIgnoresPadding(kind);
  }

  lemma DataLine(p: Parser, data: string)
    requires p.data == ""
    ensures Step(p, DropCR("data: " + data)) == p.(data := DropCR(data))
  {
    var line := DropCR("data: " + data);
    assert line == "data: " + DropCR(data);
    assert line[..5] == "data:" && line[5..] == " " + DropCR(data) && line[6..] == DropCR(data) && line[0] == 'd';
    assert Text.HasPrefix(line, "data:") && Text.HasPrefix(line[5..], " ");
    assert !Text.HasPrefix(line, ":") && !Text.HasPrefix(line, "id:") && !Text.HasPrefix(line, "event:");
  }

  /** The lines of one frame dispatch exactly that event. */
  lemma FrameFeeds(f: Frame, p: Parser)
    requires Printable(f) && BetweenEvents(p)
    ensures Feed(p, WithoutCRs(FrameLines(f)) + [""]) == After(p, f)
  {
    var q := p.(id := Expected(f).id);
    var kind, data := DropCR("event: " + f.kind), DropCR("data: " + f.data);
    var q1 := q.(event := Text.TrimSpace(f.kind));
    var q2 := q1.(data := DropCR(f.data));
    EventLine(q, f.kind);
    DataLine(q1, f.data);
    assert Feed(q2, [""]) == Step(q2, "") == After(p, f);
    assert Feed(q1, [data, ""]) == Feed(q2, [""]) by { assert [data, ""][1..] == [""]; }
    assert Feed(q, [kind, data, ""]) == After(p, f) by { assert [kind, data, ""][1..] == [data, ""]; }
    var tail := ["event: " + f.kind, "data: " + f.data];
    assert WithoutCRs(tail[1..]) == [data] by { assert tail[1..] == ["data: " + f.data] && tail[1..][1..] == []; }
    assert WithoutCRs(tail) == [kind, data];
    if f.id.Some? {
      var line := "id: " + Decimal(f.id.value);
      IdLine(p, f.id.value);
      var id := DropCR(line);
      assert Feed(p, [id, kind, data, ""]) == After(p, f) by { assert [id, kind, data, ""][1..] == [kind, data, ""]; }
      assert FrameLines(f)[1..] == tail && FrameLines(f)[0] == line;
      assert WithoutCRs(FrameLines(f)) + [""] == [id, kind, data, ""];
    } else {
      assert FrameLines(f) == tail;
      assert WithoutCRs(FrameLines(f)) + [""] == [kind, data, ""];
    }
  }

  lemma {:induction false} FeedConcat(p: Parser, a: seq<string>, b: seq<string>)
    ensures Feed(p, a + b) == Feed(Feed(p, a), b)
    decreases |a|
  {
    if a == [] {
      assert a + b == b;
    } else {
      FeedConcat(Step(p, a[0]), a[1..], b);
      assert (a + b)[1..] == a[1..] + b;
    }
  }

  /** Parsing a printed frame and then the rest. */
  lemma FrameThenRest(f: Frame, p: Parser, rest: string)
    requires Printable(f) && BetweenEvents(p)
    ensures Feed(p, Lines(Print(f) + rest)) == Feed(After(p, f), Lines(rest))
  {
    var lines := WithoutCRs(FrameLines(f));
    LinesOfFrame(f, rest);
    FeedConcat(p, lines + [""], Lines(rest));
    FrameFeeds(f, p);
  }

  lemma BlankLineThenRest(rest: string)
    ensures Lines("\n" + rest) == [""] + Lines(rest)
  {
    LineThenRest("", rest);
    assert "" + "\n" + rest == "\n" + rest;
  }

  lemma FrameIsLinesAndBlank(f: Frame, rest: string)
    requires Printable(f)
    ensures Lines(Print(f) + rest) == WithoutCRs(FrameLines(f)) + Lines("\n" + rest)
  {
    FrameLinesAreClean(f);
    JoinedLines(FrameLines(f), "\n" + rest);
    assert Print(f) + rest == Join(FrameLines(f)) + ("\n" + rest);
  }

  lemma LinesOfFrame(f: Frame, rest: string)
    requires Printable(f)
    ensures Lines(Print(f) + rest) == WithoutCRs(FrameLines(f)) + [""] + Lines(rest)
  {
    FrameIsLinesAndBlank(f, rest);
    BlankLineThenRest(rest);
    Regroup(WithoutCRs(FrameLines(f)), [""], Lines(rest));
  }

  lemma Regroup(a: seq<string>, b: seq<string>, c: seq<string>)
    ensures a + (b + c) == a + b + c
  {
  }

  /** No blank line comes out of text that stops before the end of a frame. */
  lemma {:induction false} PartialFrameHasNoBlankLine(lines: seq<string>, t: string)
    requires forall line | line in lines :: SingleLine(line) && line != "" && line[0] != '\r'
    requires t <= Join(lines)
    ensures "" !in Lines(t)
  {
    if t == "" {
    } else if |t| <= |lines[0]| {
      assert t <= lines[0] by { assert Join(lines)[..|lines[0]|] == lines[0]; }
      assert lines[0] in lines && forall j | 0 <= j < |t| :: t[j] == lines[0][j];
      LineEndIs(t, |t|);
      Text.BytesOfPrefix(lines[0], |t|);
      assert t[..|t|] == t && lines[0][..|t|] == t;
      assert Lines(t) == [DropCR(t)];
    } else {
      var rest := t[|lines[0]| + 1..];
      assert t == lines[0] + "\n" + rest && rest <= Join(lines[1..]);
      LineThenRest(lines[0], rest);
      assert forall line | line in lines[1..] :: line in lines;
      PartialFrameHasNoBlankLine(lines[1..], rest);
    }
  }

  lemma {:induction false} NoBlankLineNoDispatch(p: Parser, lines: seq<string>)
    requires "" !in lines
    ensures Feed(p, lines).dispatched == p.dispatched
    decreases |lines|
  {
    if lines != [] { NoBlankLineNoDispatch(Step(p, lines[0]), lines[1..]); }
  }

  lemma CutFrameDispatchesNothing(f: Frame, p: Parser, t: string)
    requires Printable(f) && t < Print(f)
    ensures Feed(p, Lines(t)).dispatched == p.dispatched
  {
    FrameLinesAreClean(f);
    assert Print(f)[..|t|] == Join(FrameLines(f))[..|t|];
    PartialFrameHasNoBlankLine(FrameLines(f), t);
    NoBlankLineNoDispatch(p, Lines(t));
  }

  /** `m` frames are in the text to their end, and the next one is not. */
  ghost predicate WholeFrames(frames: seq<Frame>, t: string, m: nat) {
    m <= |frames| && PrintAll(frames[..m]) <= t && (m < |frames| ==> !(PrintAll(frames[..m + 1]) <= t))
  }

  lemma WholeFramesShift(frames: seq<Frame>, rest: string, m: nat)
    requires frames != [] && WholeFrames(frames[1..], rest, m)
    ensures WholeFrames(frames, Print(frames[0]) + rest, m + 1)
  {
    var first := Print(frames[0]);
    PrefixPrints(frames, m);
    PrefixCancels(first, PrintAll(frames[1..][..m]), rest);
    if m + 1 < |frames| {
      PrefixPrints(frames, m + 1);
      PrefixCancels(first, PrintAll(frames[1..][..m + 1]), rest);
    }
  }

  lemma PrefixPrints(frames: seq<Frame>, k: nat)
    requires k < |frames|
    ensures PrintAll(frames[..k + 1]) == Print(frames[0]) + PrintAll(frames[1..][..k])
  {
    assert frames[..k + 1][1..] == frames[1..][..k];
  }

  lemma PrefixCancels(first: string, more: string, rest: string)
    ensures first + more <= first + rest <==> more <= rest
  {
    assert (first + rest)[|first|..] == rest && (first + more)[|first|..] == more;
    if first + more <= first + rest {
      assert rest[..|more|] == (first + rest)[|first|..|first| + |more|];
    }
  }

  lemma NoWholeFrame(frames: seq<Frame>, t: string)
    requires frames == [] || !(Print(frames[0]) <= t)
    ensures WholeFrames(frames, t, 0) && ExpectedAll(frames[..0]) == []
  {
    if frames != [] {
      PrefixPrints(frames, 0);
      assert Print(frames[0]) + "" == Print(frames[0]);
    }
  }

  lemma ExpectedShift(frames: seq<Frame>, k: nat)
    requires k < |frames|
    ensures ExpectedAll(frames[..k + 1]) == [Expected(frames[0])] + ExpectedAll(frames[1..][..k])
  {
    assert forall i | 0 <= i < k :: frames[1..][..k][i] == frames[..k + 1][i + 1];
  }

  /** From a parser between events, any truncation of the printed frames dispatches exactly the frames that
      are in it to their end. */
  lemma {:induction false} TruncationDispatchesPrefix(frames: seq<Frame>, p: Parser, t: string) returns (m: nat)
    requires (forall f | f in frames :: Printable(f)) && BetweenEvents(p) && t <= PrintAll(frames)
    ensures WholeFrames(frames, t, m) && Feed(p, Lines(t)).dispatched == p.dispatched + ExpectedAll(frames[..m])
    decreases |frames|
  {
    if frames == [] || !(Print(frames[0]) <= t) {
      m := 0;
      NothingDispatched(frames, p, t);
    } else {
      var rest := t[|Print(frames[0])|..];
      FirstFrameOff(frames, p, t);
      assert forall f | f in frames[1..] :: f in frames;
      var k := TruncationDispatchesPrefix(frames[1..], After(p, frames[0]), rest);
      m := k + 1;
      WholeFramesShift(frames, rest, k);
      OneMoreDispatched(frames, p, k);
    }
  }

  lemma NothingDispatched(frames: seq<Frame>, p: Parser, t: string)
    requires (forall f | f in frames :: Printable(f)) && t <= PrintAll(frames)
    requires frames == [] || !(Print(frames[0]) <= t)
    ensures WholeFrames(frames, t, 0) && Feed(p, Lines(t)).dispatched == p.dispatched + ExpectedAll(frames[..0])
  {
    NoWholeFrame(frames, t);
    if frames != [] {
      assert t < Print(frames[0]) by { PrefixesNest(t, Print(frames[0]), PrintAll(frames)); }
      CutFrameDispatchesNothing(frames[0], p, t);
    }
  }

  lemma OneMoreDispatched(frames: seq<Frame>, p: Parser, k: nat)
    requires k < |frames|
    ensures After(p, frames[0]).dispatched + ExpectedAll(frames[1..][..k]) == p.dispatched + ExpectedAll(frames[..k + 1])
  {
    ExpectedShift(frames, k);
    assert p.dispatched + [Expected(frames[0])] + ExpectedAll(frames[1..][..k])
        == p.dispatched + ([Expected(frames[0])] + ExpectedAll(frames[1..][..k]));
  }

  lemma FirstFrameOff(frames: seq<Frame>, p: Parser, t: string)
    requires frames != [] && Printable(frames[0]) && BetweenEvents(p) && Print(frames[0]) <= t <= PrintAll(frames)
    ensures var rest := t[|Print(frames[0])|..];
      && t == Print(frames[0]) + rest && rest <= PrintAll(frames[1..])
      && Feed(p, Lines(t)) == Feed(After(p, frames[0]), Lines(rest))
  {
    var rest := t[|Print(frames[0])|..];
    assert t == Print(frames[0]) + rest;
    PrefixCancels(Print(frames[0]), rest, PrintAll(frames[1..]));
    FrameThenRest(frames[0], p, rest);
  }

  lemma PrefixesNest(a: string, b: string, whole: string)
    requires a <= whole && b <= whole && !(b <= a)
    ensures a < b
  {
    assert a == whole[..|a|] && b == whole[..|b|];
  }

  /** The main result: the SDK's parser recovers exactly the frames written, in order, with their ids, types
      and data as ExpectedIsExactIff describes; and of a stream cut anywhere, exactly those written in full. */
  lemma StreamRoundTrip(frames: seq<Frame>, lastID: string)
    requires forall f | f in frames :: Printable(f)
    ensures Feed(Start(lastID), Lines(PrintAll(frames))).dispatched == ExpectedAll(frames)
    ensures forall t | t <= PrintAll(frames) :: exists m: nat ::
      WholeFrames(frames, t, m) && Feed(Start(lastID), Lines(t)).dispatched == ExpectedAll(frames[..m])
  {
    forall t | t <= PrintAll(frames)
      ensures exists m: nat :: WholeFrames(frames, t, m) && Feed(Start(lastID), Lines(t)).dispatched == ExpectedAll(frames[..m])
    {
      var m := TruncationDispatchesPrefix(frames, Start(lastID), t);
      assert [] + ExpectedAll(frames[..m]) == ExpectedAll(frames[..m]);
    }
    var m: nat :| WholeFrames(frames, PrintAll(frames), m)
          && Feed(Start(lastID), Lines(PrintAll(frames))).dispatched == ExpectedAll(frames[..m]);
    if m < |frames| { PrintAllGrows(frames, m + 1); }
    assert frames[..|frames|] == frames;
  }

  lemma {:induction false} PrintAllGrows(frames: seq<Frame>, k: nat)
    requires k <= |frames|
    ensures PrintAll(frames[..k]) <= PrintAll(frames)
  {
    if k > 0 {
      PrintAllGrows(frames[1..], k - 1);
      PrefixPrints(frames, k - 1);
      PrefixCancels(Print(frames[0]), PrintAll(frames[1..][..k - 1]), PrintAll(frames[1..]));
    }
  }
}
