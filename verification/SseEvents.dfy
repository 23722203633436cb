/**
  The parsing half of the event-stream reader: one block of lines becomes at most one event.
  Together with `SseFraming` this gives the reader, its printer, and their round trip.
 */
module SseEvents {
  import opened Base
  import opened SseFraming

  datatype SseEvent = SseEvent(event: string, data: string)

  // ----- Lines -----------------------------------------------------------------------------

  /** `s.split("\n")`. */
  function SplitLines(s: string): (lines: seq<string>)
    ensures lines != []
  {
    if s == [] then [[]]
    else
      var rest := SplitLines(s[1..]);
      if s[0] == LF then [[]] + rest else [[s[0]] + rest[0]] + rest[1..]
  }

  /** `lines.join("\n")`. */
  function JoinLines(lines: seq<string>): string {
    if lines == [] then []
    else if |lines| == 1 then lines[0]
    else lines[0] + [LF] + JoinLines(lines[1..])
  }

  /** `s.indexOf(c)`. */
  function IndexOf(s: string, c: char): (r: int)
    ensures r == -1 || (0 <= r < |s| && s[r] == c)
  {
    if s == [] then -1
    else if s[0] == c then 0
    else var r := IndexOf(s[1..], c); if r == -1 then -1 else r + 1
  }

  // ----- One block -------------------------------------------------------------------------

  datatype Fields = Fields(event: string, data: seq<string>)

  const NO_FIELDS := Fields("message", [])

  function StripCr(line: string): string {
    if line != [] && line[|line| - 1] == CR then line[..|line| - 1] else line
  }

  function FieldName(line: string): string {
    var colon := IndexOf(line, ':');
    if colon == -1 then line else line[..colon]
  }

  function FieldValue(line: string): string {
    var colon := IndexOf(line, ':');
    var value := if colon == -1 then "" else line[colon + 1..];
    if value != [] && value[0] == ' ' then value[1..] else value
  }

  /** A blank line, a comment, or a field other than `event` and `data`. */
  predicate Ignored(line: string) {
    line == [] || line[0] == ':' || FieldName(line) !in {"event", "data"}
  }

  function TakeLine(f: Fields, rawLine: string): Fields {
    var line := StripCr(rawLine);
    if Ignored(line) then f
    else if FieldName(line) == "event" then f.(event := FieldValue(line))
    else f.(data := f.data + [FieldValue(line)])
  }

  /** A block without a `data` field yields no event. */
  function Finish(f: Fields): Option<SseEvent> {
    if f.data == [] then None else Some(SseEvent(f.event, JoinLines(f.data)))
  }

  function ParseBlock(block: string): Option<SseEvent> {
    Finish(Fold(TakeLine, NO_FIELDS, SplitLines(block)))
  }

  /** One line of a block: what the body of the line loop does to its two variables. */
  method ReadLine(event: string, data: seq<string>, rawLine: string) returns (newEvent: string, newData: seq<string>)
    ensures Fields(newEvent, newData) == TakeLine(Fields(event, data), rawLine)
  {
    newEvent, newData := event, data;
    var line := if rawLine != [] && rawLine[|rawLine| - 1] == CR then rawLine[..|rawLine| - 1] else rawLine;
    if line == [] || line[0] == ':' {
      return;
    }
    var colon := IndexOf(line, ':');
    var field := if colon == -1 then line else line[..colon];
    var value := if colon == -1 then "" else line[colon + 1..];
    if value != [] && value[0] == ' ' {
      value := value[1..];
    }
    assert line == StripCr(rawLine) && field == FieldName(line) && value == FieldValue(line);
    hide StripCr, FieldName, FieldValue;
    if field == "event" {
      newEvent := value;
    } else if field == "data" {
      newData := data + [value];
    }
  }

  /** The loop over a block's lines. */
  method ParseSseBlock(block: string) returns (r: Option<SseEvent>)
    ensures r == ParseBlock(block)
  {
    var event, data := "message", [];
    var lines := SplitLines(block);
    var i := 0;
    while i < |lines|
      invariant 0 <= i <= |lines|
      invariant Fields(event, data) == Fold(TakeLine, NO_FIELDS, lines[..i])
    {
      FoldNext(TakeLine, NO_FIELDS, lines, i);
      event, data := ReadLine(event, data, lines[i]);
      i := i + 1;
    }
    assert lines[..i] == lines;
    return if data == [] then None else Some(SseEvent(event, JoinLines(data)));
  }

  // ----- The reader --------------------------------------------------------------------------

  function Emit(blocks: seq<string>): seq<SseEvent> {
    MapSome(ParseBlock, blocks)
  }

  /** Every block is parsed, and so is the unterminated tail. */
  function EventsOf(f: Frames): seq<SseEvent> {
    Emit(f.blocks) + Emit([f.tail])
  }

  lemma NothingToDrain(buffer: string)
    requires FindBlank(buffer) == -1
    ensures CutBlocks(buffer) == Frames([], buffer) && Emit([]) == []
  {
  }

  lemma DrainOne(buffer: string)
    requires FindBlank(buffer) != -1
    ensures var i := FindBlank(buffer);
            && CutBlocks(buffer).tail == CutBlocks(buffer[i + 2..]).tail
            && Emit(CutBlocks(buffer).blocks)
            == Optional(ParseBlock(buffer[..i])) + Emit(CutBlocks(buffer[i + 2..]).blocks)
  {
    hide ParseBlock;
    var i := FindBlank(buffer);
    var rest := CutBlocks(buffer[i + 2..]);
    assert CutBlocks(buffer) == Then(Frames([buffer[..i]], ""), rest);
    hide CutBlocks, FindBlank;
    MapSomeConcat(ParseBlock, [buffer[..i]], rest.blocks);
    MapSomeOne(ParseBlock, buffer[..i]);
  }

  function Push(events: seq<SseEvent>, e: Option<SseEvent>): seq<SseEvent> {
    if e.Some? then events + [e.value] else events
  }

  lemma PushThen(events: seq<SseEvent>, e: Option<SseEvent>, later: seq<SseEvent>)
    ensures Push(events, e) + later == events + (Optional(e) + later)
  {
  }

  class SseReader {
    var buffer: string

    constructor ()
      ensures buffer == ""
    {
      buffer := "";
    }

    /** Emits every complete block of the buffer and leaves the remainder in it. */
    method Drain() returns (events: seq<SseEvent>)
      modifies this
      ensures events == Emit(CutBlocks(old(buffer)).blocks)
      ensures buffer == CutBlocks(old(buffer)).tail
    {
      hide ParseBlock, CutBlocks, Emit, Push, Optional;
      events := [];
      ghost var whole := CutBlocks(buffer);
      var boundary := FindBlank(buffer);
      while boundary != -1
        invariant boundary == FindBlank(buffer)
        invariant events + Emit(CutBlocks(buffer).blocks) == Emit(whole.blocks)
        invariant CutBlocks(buffer).tail == whole.tail
        decreases |buffer|
      {
        DrainOne(buffer);
        var block := buffer[..boundary];
        buffer := buffer[boundary + 2..];
        var parsed := ParseSseBlock(block);
        PushThen(events, parsed, Emit(CutBlocks(buffer).blocks));
        events := Push(events, parsed);
        boundary := FindBlank(buffer);
      }
      NothingToDrain(buffer);
      assert events + [] == events;
    }

    /** Replaces CR LF by LF over the whole buffer. */
    method NormaliseBuffer(decoded: string)
      modifies this
      ensures buffer == Normalise(old(buffer) + decoded)
    {
      buffer := Normalise(buffer + decoded);
    }

    /** The read loop over decoded chunks, the final flush, and the tail. */
    method ReadSseEvents(chunks: seq<string>) returns (events: seq<SseEvent>)
      modifies this
      ensures events == EventsOf(Feed(old(buffer), chunks))
    {
      hide ParseBlock, CutBlocks, Normalise;
      events := [];
      var i := 0;
      ghost var whole := Feed(buffer, chunks);
      assert chunks[0..] == chunks;
      while i < |chunks|
        invariant 0 <= i <= |chunks|
        invariant events + Emit(Feed(buffer, chunks[i..]).blocks) == Emit(whole.blocks)
        invariant Feed(buffer, chunks[i..]).tail == whole.tail
      {
        ghost var now := CutBlocks(Normalise(buffer + chunks[i]));
        assert chunks[i..][0] == chunks[i] && chunks[i..][1..] == chunks[i + 1..];
        MapSomeConcat(ParseBlock, now.blocks, Feed(now.tail, chunks[i + 1..]).blocks);
        NormaliseBuffer(chunks[i]);
        var drained := Drain();
        events := events + drained;
        i := i + 1;
      }
      assert chunks[i..] == [] && buffer + "" == buffer;
      NormaliseBuffer("");
      var drained := Drain();
      events := events + drained;
      var tail := ParseSseBlock(buffer);
      MapSomeOne(ParseBlock, buffer);
      events := Push(events, tail);
    }
  }

  // ----- Chunking never changes the events ---------------------------------------------------

  /** However a text without CR CR LF is cut, the events are those of one normalised cut of it. */
  lemma EventsIgnoreChunking(chunks: seq<string>)
    requires NoCrCrLf(Concat(chunks))
    ensures EventsOf(Feed("", chunks)) == EventsOf(CutBlocks(Normalise(Concat(chunks))))
    ensures EventsOf(Feed("", chunks)) == EventsOf(Feed("", [Concat(chunks)]))
  {
    FeedRefinesOneCut(chunks);
    ConcatOne(Concat(chunks));
    FeedRefinesOneCut([Concat(chunks)]);
  }

  // ----- Printing and reading back -----------------------------------------------------------

  predicate Plain(line: string) {
    line != [] && CR !in line && LF !in line
  }

  predicate PlainLines(lines: seq<string>) {
    lines != [] && forall line :: line in lines ==> Plain(line)
  }

  function DataLine(value: string): string {
    "data: " + value
  }

  function DataLines(values: seq<string>): seq<string> {
    MapAll(DataLine, values)
  }

  /** An event as its `event:` line followed by one `data:` line for each line of data. */
  function FieldLines(e: SseEvent): seq<string> {
    ["event: " + e.event] + DataLines(SplitLines(e.data))
  }

  function WireLines(lines: seq<string>, eol: string): string {
    if lines == [] then [] else lines[0] + eol + WireLines(lines[1..], eol)
  }

  /** Each block's lines, each ended by `eol`, and a blank line after each block. */
  function Wire(blocks: seq<seq<string>>, eol: string): string {
    if blocks == [] then [] else WireLines(blocks[0], eol) + eol + Wire(blocks[1..], eol)
  }

  /** The lines the parser reacts to. */
  function Audible(lines: seq<string>): seq<string> {
    Filter(line => !Ignored(line), lines)
  }

  ghost predicate CrsPaired(s: string) {
    forall i: int :: 0 <= i < |s| && s[i] == CR ==> CrlfAt(s, i)
  }

  lemma CrsPairedConcat(a: string, b: string)
    requires CrsPaired(a) && CrsPaired(b)
    ensures CrsPaired(a + b)
  {
    var s := a + b;
    forall i: int | 0 <= i < |s| && s[i] == CR ensures CrlfAt(s, i) {
      if i < |a| {
        assert CrlfAt(a, i);
      } else {
        assert CrlfAt(b, i - |a|);
      }
    }
  }

  lemma CrsPairedTail(a: string, k: nat)
    requires k <= |a| && CrsPaired(a)
    ensures CrsPaired(a[k..])
  {
    forall i: int | 0 <= i < |a[k..]| && a[k..][i] == CR ensures CrlfAt(a[k..], i) {
      assert CrlfAt(a, i + k);
    }
  }

  lemma {:induction false} NormaliseDistributes(a: string, b: string)
    requires CrsPaired(a)
    ensures Normalise(a + b) == Normalise(a) + Normalise(b)
    decreases |a|
  {
    if a == [] {
      assert a + b == b;
    } else {
      var k := if CrlfAt(a, 0) then 2 else 1;
      assert (a + b)[k..] == a[k..] + b;
      CrsPairedTail(a, k);
      NormaliseDistributes(a[k..], b);
      assert CrlfAt(a + b, 0) == CrlfAt(a, 0);
    }
  }

  predicate LineEnd(eol: string) {
    eol == [LF] || eol == [CR, LF]
  }

  lemma LineNormalises(line: string, eol: string)
    requires CR !in line && LineEnd(eol)
    ensures CrsPaired(line + eol) && Normalise(line + eol) == line + [LF]
  {
    CrsPairedConcat(line, eol);
    NormaliseDistributes(line, eol);
    NormaliseIsIdentity(line);
    if eol == [CR, LF] {
      NormalisePair([]);
      assert [CR, LF] + [] == eol;
    }
  }

  lemma {:induction false} WireLinesNormalise(lines: seq<string>, eol: string)
    requires LineEnd(eol) && forall line :: line in lines ==> Plain(line)
    ensures CrsPaired(WireLines(lines, eol))
    ensures Normalise(WireLines(lines, eol)) == WireLines(lines, [LF])
  {
    if lines != [] {
      assert Plain(lines[0]) by { assert lines[0] in lines; }
      WireLinesNormalise(lines[1..], eol);
      LineNormalises(lines[0], eol);
      CrsPairedConcat(lines[0] + eol, WireLines(lines[1..], eol));
      NormaliseDistributes(lines[0] + eol, WireLines(lines[1..], eol));
    }
  }

  lemma {:induction false} WireNormalises(blocks: seq<seq<string>>, eol: string)
    requires LineEnd(eol) && forall b :: b in blocks ==> PlainLines(b)
    ensures CrsPaired(Wire(blocks, eol))
    ensures Normalise(Wire(blocks, eol)) == Wire(blocks, [LF])
  {
    if blocks != [] {
      assert PlainLines(blocks[0]) by { assert blocks[0] in blocks; }
      WireNormalises(blocks[1..], eol);
      WireLinesNormalise(blocks[0], eol);
      LineNormalises([], eol);
      assert [] + eol == eol && [] + [LF] == [LF];
      var a, c := WireLines(blocks[0], eol), Wire(blocks[1..], eol);
      CrsPairedConcat(a, eol);
      CrsPairedConcat(a + eol, c);
      NormaliseDistributes(a, eol);
      NormaliseDistributes(a + eol, c);
    }
  }

  lemma CrsPairedHasNoCrCrLf(s: string)
    requires CrsPaired(s)
    ensures NoCrCrLf(s)
  {
    forall i: int ensures !CrCrLfAt(s, i) {
      assert CrCrLfAt(s, i) ==> CrlfAt(s, i);
    }
  }

  lemma {:induction false} WireLinesAsJoin(lines: seq<string>)
    requires lines != []
    ensures WireLines(lines, [LF]) == JoinLines(lines) + [LF]
  {
    if |lines| == 1 {
      assert WireLines(lines[1..], [LF]) == [];
    } else {
      WireLinesAsJoin(lines[1..]);
    }
  }

  /** No blank line inside a block of plain lines: the first one is the one that ends it. */
  lemma {:induction false} BlockEndsAtBlank(lines: seq<string>)
    requires PlainLines(lines)
    ensures JoinLines(lines) != [] && JoinLines(lines)[0] != LF
    ensures FindBlank(JoinLines(lines) + [LF, LF]) == |JoinLines(lines)|
  {
    assert Plain(lines[0]) by { assert lines[0] in lines; }
    if |lines| == 1 {
      BlankAfterLine(lines[0], [LF]);
      assert lines[0] + [LF] + [LF] == lines[0] + [LF, LF];
    } else {
      BlockEndsAtBlank(lines[1..]);
      var rest := JoinLines(lines[1..]) + [LF, LF];
      BlankAfterLine(lines[0], rest);
      assert lines[0] + [LF] + JoinLines(lines[1..]) + [LF, LF] == lines[0] + [LF] + rest;
    }
  }

  lemma {:induction false} BlankAfterLine(line: string, rest: string)
    requires LF !in line && rest != []
    ensures FindBlank(line + [LF] + rest) ==
            if rest[0] == LF then |line|
            else if FindBlank(rest) == -1 then -1 else |line| + 1 + FindBlank(rest)
  {
    var s := line + [LF] + rest;
    if line == [] {
      assert s == [LF] + rest && s[1..] == rest;
    } else {
      assert s[1..] == line[1..] + [LF] + rest;
      BlankAfterLine(line[1..], rest);
    }
  }

  function Joined(blocks: seq<seq<string>>): seq<string> {
    if blocks == [] then [] else [JoinLines(blocks[0])] + Joined(blocks[1..])
  }

  lemma BlockCuts(lines: seq<string>, rest: string)
    requires PlainLines(lines)
    ensures CutBlocks(WireLines(lines, [LF]) + [LF] + rest) == Then(Frames([JoinLines(lines)], ""), CutBlocks(rest))
  {
    var b := JoinLines(lines);
    var s := b + [LF, LF];
    WireLinesAsJoin(lines);
    BlockEndsAtBlank(lines);
    CutAtBlank(s, rest);
    assert s[..|b| + 2] == s && s[..|b|] == b;
    assert b + [LF] + [LF] == s;
  }

  lemma {:induction false} WireCuts(blocks: seq<seq<string>>)
    requires forall b :: b in blocks ==> PlainLines(b)
    ensures CutBlocks(Wire(blocks, [LF])) == Frames(Joined(blocks), "")
  {
    if blocks != [] {
      assert PlainLines(blocks[0]) by { assert blocks[0] in blocks; }
      WireCuts(blocks[1..]);
      BlockCuts(blocks[0], Wire(blocks[1..], [LF]));
    }
  }

  lemma {:induction false} SplitOfJoin(lines: seq<string>)
    requires lines != [] && forall line :: line in lines ==> LF !in line
    ensures SplitLines(JoinLines(lines)) == lines
  {
    assert lines[0] in lines;
    if |lines| == 1 {
      SplitOfLine(lines[0]);
    } else {
      SplitOfJoin(lines[1..]);
      SplitAtLineEnd(lines[0], JoinLines(lines[1..]));
    }
  }

  lemma {:induction false} SplitOfLine(line: string)
    requires LF !in line
    ensures SplitLines(line) == [line]
  {
    if line != [] {
      SplitOfLine(line[1..]);
      assert [line[0]] + line[1..] == line;
      assert [line[1..]][1..] == [];
    }
  }

  lemma {:induction false} SplitAtLineEnd(line: string, rest: string)
    requires LF !in line
    ensures SplitLines(line + [LF] + rest) == [line] + SplitLines(rest)
  {
    var s := line + [LF] + rest;
    if line == [] {
      assert s[1..] == rest;
    } else {
      assert s[1..] == line[1..] + [LF] + rest;
      SplitAtLineEnd(line[1..], rest);
      assert ([line[1..]] + SplitLines(rest))[1..] == SplitLines(rest);
      assert [line[0]] + line[1..] == line;
    }
  }

  lemma {:induction false} JoinOfSplit(s: string)
    ensures JoinLines(SplitLines(s)) == s
  {
    if s != [] {
      JoinOfSplit(s[1..]);
      var rest := SplitLines(s[1..]);
      if s[0] == LF {
        assert ([[]] + rest)[1..] == rest;
      } else {
        JoinWithFirst(s[0], rest);
        assert [s[0]] + s[1..] == s;
      }
    }
  }

  lemma JoinWithFirst(c: char, lines: seq<string>)
    requires lines != []
    ensures JoinLines([[c] + lines[0]] + lines[1..]) == [c] + JoinLines(lines)
  {
    var longer := [[c] + lines[0]] + lines[1..];
    assert longer[1..] == lines[1..];
    if |lines| > 1 {
      assert longer[0] + [LF] + JoinLines(lines[1..]) == [c] + (lines[0] + [LF] + JoinLines(lines[1..]));
    }
  }

  lemma {:induction false} SplitKeepsChars(s: string)
    ensures forall line :: line in SplitLines(s) ==> LF !in line && (CR !in s ==> CR !in line)
  {
    if s != [] {
      SplitKeepsChars(s[1..]);
      var rest := SplitLines(s[1..]);
      assert rest[0] in rest;
    }
  }

  /** Ignored lines contribute nothing, wherever in the block they stand. */
  lemma OnlyAudibleLinesCount(f: Fields, lines: seq<string>)
    requires forall line :: line in lines ==> CR !in line
    ensures Fold(TakeLine, f, lines) == Fold(TakeLine, f, Audible(lines))
  {
    forall g: Fields, line | line in lines && Ignored(line) ensures TakeLine(g, line) == g {
      NoCrToStrip([], line);
      assert [] + line == line;
    }
    FoldFilter(TakeLine, line => !Ignored(line), f, lines);
  }

  lemma {:induction false} IndexAfterPrefix(p: string, c: char, rest: string)
    requires c !in p
    ensures IndexOf(p + [c] + rest, c) == |p|
  {
    if p != [] {
      assert (p + [c] + rest)[1..] == p[1..] + [c] + rest;
      IndexAfterPrefix(p[1..], c, rest);
    }
  }

  lemma FieldLineReads(name: string, value: string)
    requires ':' !in name && name != []
    ensures FieldName(name + ": " + value) == name && FieldValue(name + ": " + value) == value
  {
    var line := name + ": " + value;
    assert line == name + [':'] + (" " + value);
    IndexAfterPrefix(name, ':', " " + value);
    assert line[..|name|] == name && line[|name| + 1..] == " " + value;
    assert (" " + value)[1..] == value;
  }

  lemma DataLineTaken(f: Fields, value: string)
    requires CR !in value
    ensures TakeLine(f, DataLine(value)) == f.(data := f.data + [value])
    ensures !Ignored(DataLine(value))
  {
    var line := "data: " + value;
    assert "data" + ": " + value == line;
    FieldLineReads("data", value);
    NoCrToStrip("data: ", value);
  }

  lemma NoCrToStrip(prefix: string, value: string)
    requires CR !in prefix && CR !in value
    ensures CR !in prefix + value && StripCr(prefix + value) == prefix + value
  {
  }

  lemma {:induction false} DataLinesRead(f: Fields, values: seq<string>)
    requires forall v :: v in values ==> CR !in v
    ensures Fold(TakeLine, f, DataLines(values)) == f.(data := f.data + values)
    decreases |values|
  {
    hide TakeLine, DataLine;
    if values == [] {
      assert f.data + values == f.data;
    } else {
      var v, rest := values[0], values[1..];
      assert values == [v] + rest && v in values;
      DataLineTaken(f, v);
      var g := f.(data := f.data + [v]);
      DataLinesRead(g, rest);
      MapAllCons(DataLine, v, rest);
      FoldCons(TakeLine, f, DataLine(v), DataLines(rest));
      assert g.data + rest == f.data + values;
    }
  }

  lemma EventLineTaken(name: string)
    requires CR !in name
    ensures TakeLine(NO_FIELDS, "event: " + name) == Fields(name, [])
    ensures !Ignored("event: " + name)
  {
    assert "event" + ": " + name == "event: " + name;
    FieldLineReads("event", name);
    NoCrToStrip("event: ", name);
  }

  lemma FieldLinesRead(e: SseEvent)
    requires CR !in e.event && CR !in e.data
    ensures Fold(TakeLine, NO_FIELDS, FieldLines(e)) == Fields(e.event, SplitLines(e.data))
  {
    EventLineTaken(e.event);
    SplitKeepsChars(e.data);
    DataLinesRead(Fields(e.event, []), SplitLines(e.data));
    assert FieldLines(e)[1..] == DataLines(SplitLines(e.data));
    assert [] + SplitLines(e.data) == SplitLines(e.data);
  }

  /** A printed block, comments and unknown fields and all, parses to its event. */
  lemma PrintedBlockParses(e: SseEvent, lines: seq<string>)
    requires PlainLines(lines) && Audible(lines) == FieldLines(e)
    requires CR !in e.event && CR !in e.data
    ensures ParseBlock(JoinLines(lines)) == Some(e)
  {
    hide TakeLine, Ignored;
    PlainBlockParses(lines);
    FieldLinesRead(e);
    JoinOfSplit(e.data);
  }

  ghost predicate Prints(blocks: seq<seq<string>>, es: seq<SseEvent>) {
    && |blocks| == |es|
    && forall i :: 0 <= i < |es| ==>
      PlainLines(blocks[i]) && Audible(blocks[i]) == FieldLines(es[i]) && CR !in es[i].event && CR !in es[i].data
  }

  lemma {:induction false} PrintedBlocksEmit(blocks: seq<seq<string>>, es: seq<SseEvent>)
    requires Prints(blocks, es)
    ensures Emit(Joined(blocks)) == es
  {
    if blocks != [] {
      PrintedBlockParses(es[0], blocks[0]);
      PrintedBlocksEmit(blocks[1..], es[1..]);
      assert Joined(blocks)[1..] == Joined(blocks[1..]);
    }
  }

  /**
    Whatever is printed is read back: any line ending, any chunking, and with any ignored lines
    inserted anywhere inside the blocks.
   */
  lemma PrintedStreamReadsBack(blocks: seq<seq<string>>, es: seq<SseEvent>, eol: string, chunks: seq<string>)
    requires Prints(blocks, es) && LineEnd(eol)
    requires Concat(chunks) == Wire(blocks, eol)
    ensures EventsOf(Feed("", chunks)) == es
  {
    forall b | b in blocks ensures PlainLines(b) {
      var i :| 0 <= i < |blocks| && blocks[i] == b;
    }
    WireNormalises(blocks, eol);
    CrsPairedHasNoCrCrLf(Wire(blocks, eol));
    EventsIgnoreChunking(chunks);
    WireCuts(blocks);
    PrintedBlocksEmit(blocks, es);
    EmptyBlockIsSilent();
  }

  function Printed(es: seq<SseEvent>): seq<seq<string>> {
    if es == [] then [] else [FieldLines(es[0])] + Printed(es[1..])
  }

  predicate Printable(e: SseEvent) {
    CR !in e.event && LF !in e.event && CR !in e.data
  }

  lemma {:induction false} AllKept(keep: string -> bool, line: string -> string, values: seq<string>)
    requires forall v :: v in values ==> keep(line(v))
    ensures Filter(keep, MapAll(line, values)) == MapAll(line, values)
    ensures forall l :: l in MapAll(line, values) ==> keep(l)
  {
    if values != [] {
      assert values[0] in values;
      AllKept(keep, line, values[1..]);
      var lines := MapAll(line, values);
      assert lines[0] == line(values[0]) && lines[1..] == MapAll(line, values[1..]);
    }
  }

  lemma DataLinesAreAudible(values: seq<string>)
    requires forall v :: v in values ==> CR !in v && LF !in v
    ensures Audible(DataLines(values)) == DataLines(values)
    ensures forall line :: line in DataLines(values) ==> Plain(line)
  {
    forall v | v in values ensures !Ignored(DataLine(v)) {
      DataLineTaken(NO_FIELDS, v);
    }
    AllKept(line => !Ignored(line), DataLine, values);
    AllKept(line => Plain(line), DataLine, values);
  }

  lemma EventLineIsPlain(name: string)
    requires CR !in name && LF !in name
    ensures Plain("event: " + name)
  {
    assert CR !in "event: " && LF !in "event: ";
  }

  lemma FieldLinesAreAudible(e: SseEvent)
    requires Printable(e)
    ensures PlainLines(FieldLines(e)) && Audible(FieldLines(e)) == FieldLines(e)
  {
    EventLineTaken(e.event);
    SplitKeepsChars(e.data);
    DataLinesAreAudible(SplitLines(e.data));
    var lines := FieldLines(e);
    EventLineIsPlain(e.event);
    hide Plain, Ignored, DataLines, SplitLines;
    assert lines[0] == "event: " + e.event && lines[1..] == DataLines(SplitLines(e.data));
  }

  lemma {:induction false} PrintedPrints(es: seq<SseEvent>)
    requires forall e :: e in es ==> Printable(e)
    ensures Prints(Printed(es), es)
  {
    if es != [] {
      FieldLinesAreAudible(es[0]);
      PrintedPrints(es[1..]);
      var blocks := Printed(es);
      forall i | 0 <= i < |es|
        ensures |blocks| == |es| && PlainLines(blocks[i]) && Audible(blocks[i]) == FieldLines(es[i])
        ensures CR !in es[i].event && CR !in es[i].data
      {
        if i > 0 {
          assert blocks[i] == Printed(es[1..])[i - 1] && es[i] == es[1..][i - 1];
        }
      }
    }
  }

  /** The plain round trip: print a list of events, cut the text anywhere, read the list back. */
  lemma RoundTrip(es: seq<SseEvent>, eol: string, chunks: seq<string>)
    requires forall e :: e in es ==> Printable(e)
    requires LineEnd(eol) && Concat(chunks) == Wire(Printed(es), eol)
    ensures EventsOf(Feed("", chunks)) == es
  {
    PrintedPrints(es);
    PrintedStreamReadsBack(Printed(es), es, eol, chunks);
  }

  /** Inserting an ignored line anywhere in a block leaves its event as it was. */
  lemma IgnoredLineChangesNothing(lines: seq<string>, i: nat, line: string)
    requires PlainLines(lines) && i <= |lines| && Plain(line) && Ignored(line)
    ensures ParseBlock(JoinLines(lines[..i] + [line] + lines[i..])) == ParseBlock(JoinLines(lines))
  {
    var longer := lines[..i] + [line] + lines[i..];
    StillPlain(lines, i, line);
    NotAudible(lines, i, line);
    hide ParseBlock, JoinLines, PlainLines, Audible, TakeLine, Finish;
    PlainBlockParses(lines);
    PlainBlockParses(longer);
  }

  lemma StillPlain(lines: seq<string>, i: nat, line: string)
    requires PlainLines(lines) && i <= |lines| && Plain(line)
    ensures PlainLines(lines[..i] + [line] + lines[i..])
  {
    hide Plain;
    forall l | l in lines[..i] + [line] + lines[i..] ensures Plain(l) {
      assert l in lines || l == line;
    }
  }

  lemma NotAudible(lines: seq<string>, i: nat, line: string)
    requires i <= |lines| && Ignored(line)
    ensures Audible(lines[..i] + [line] + lines[i..]) == Audible(lines)
  {
    hide Ignored;
    FilterInsert(l => !Ignored(l), lines[..i], line, lines[i..]);
    assert lines[..i] + lines[i..] == lines;
  }

  /** Only the lines the parser reacts to decide the event of a block. */
  lemma PlainBlockParses(lines: seq<string>)
    requires PlainLines(lines)
    ensures ParseBlock(JoinLines(lines)) == Finish(Fold(TakeLine, NO_FIELDS, Audible(lines)))
  {
    hide TakeLine, Ignored, Finish;
    forall line | line in lines ensures LF !in line && CR !in line {
      assert Plain(line);
    }
    SplitOfJoin(lines);
    OnlyAudibleLinesCount(NO_FIELDS, lines);
  }

  // ----- The field rules, line by line -----------------------------------------------------------------

  /** The value of a field: everything after the colon, without one leading space. */
  lemma ValueAfterColon(name: string, value: string)
    requires name != [] && ':' !in name
    ensures FieldName(name + ":" + value) == name
    ensures FieldValue(name + ":" + value) == if value != [] && value[0] == ' ' then value[1..] else value
  {
    var line := name + ":" + value;
    assert line == name + [':'] + value;
    IndexAfterPrefix(name, ':', value);
    assert line[..|name|] == name && line[|name| + 1..] == value;
  }

  lemma StripPlain(line: string)
    requires CR !in line
    ensures StripCr(line) == line
  {
    NoCrToStrip([], line);
    assert [] + line == line;
  }

  /** A `data` field adds its value, an `event` field replaces the name, and any other field does nothing. */
  lemma FieldLineIs(f: Fields, name: string, value: string)
    requires name != [] && ':' !in name && CR !in name + ":" + value
    ensures var v := if value != [] && value[0] == ' ' then value[1..] else value;
            TakeLine(f, name + ":" + value) ==
              if name == "data" then f.(data := f.data + [v])
              else if name == "event" then f.(event := v)
              else f
  {
    ValueAfterColon(name, value);
    StripPlain(name + ":" + value);
    assert (name + ":" + value)[0] == name[0];
    assert "data"[0] != "event"[0];
  }

  /** Without a colon the whole line is the name, and its value is empty; a comment and a blank line do nothing. */
  lemma BareLineIs(f: Fields, line: string)
    requires ':' !in line && CR !in line
    ensures TakeLine(f, line) ==
      if line == "data" then f.(data := f.data + [""]) else if line == "event" then f.(event := "") else f
    ensures CR !in ":" + line ==> TakeLine(f, ":" + line) == f
  {
    StripPlain(line);
    NoColon(line);
    assert "data"[0] != "event"[0];
    StripPlain(":" + line);
    assert (":" + line)[0] == ':';
  }

  lemma {:induction false} NoColon(s: string)
    requires ':' !in s
    ensures IndexOf(s, ':') == -1
  {
    if s != [] {
      NoColon(s[1..]);
    }
  }

  /** One carriage return at the end of a line is not part of it. */
  lemma CrIsDropped(f: Fields, line: string)
    requires CR !in line
    ensures TakeLine(f, line + [CR]) == TakeLine(f, line)
  {
    assert (line + [CR])[..|line|] == line;
    StripPlain(line);
    assert StripCr(line + [CR]) == line;
  }

  /** The line names the event. */
  predicate NamesEvent(line: string) {
    var l := StripCr(line);
    !Ignored(l) && FieldName(l) == "event"
  }

  lemma {:induction false} UnnamedFold(f: Fields, lines: seq<string>)
    requires forall line :: line in lines ==> !NamesEvent(line)
    ensures Fold(TakeLine, f, lines).event == f.event
    decreases |lines|
  {
    if lines != [] {
      assert lines[0] in lines;
      UnnamedFold(TakeLine(f, lines[0]), lines[1..]);
    }
  }

  lemma EventLineIs(f: Fields, name: string)
    requires CR !in name
    ensures TakeLine(f, "event: " + name).event == name
  {
    FieldLineIs(f, "event", " " + name);
    assert "event" + ":" + (" " + name) == "event: " + name && (" " + name)[1..] == name;
    assert "event"[0] != "data"[0];
  }

  /** Of several event names in a block the last one counts; without any the event is a message. */
  lemma LastNameCounts(before: seq<string>, name: string, after: seq<string>)
    requires CR !in name && forall line :: line in after ==> !NamesEvent(line)
    ensures Fold(TakeLine, NO_FIELDS, before + (["event: " + name] + after)).event == name
    ensures Fold(TakeLine, NO_FIELDS, after).event == "message"
  {
    hide TakeLine, NamesEvent;
    var g := Fold(TakeLine, NO_FIELDS, before);
    FoldConcat(TakeLine, NO_FIELDS, before, ["event: " + name] + after);
    FoldCons(TakeLine, g, "event: " + name, after);
    EventLineIs(g, name);
    UnnamedFold(TakeLine(g, "event: " + name), after);
    UnnamedFold(NO_FIELDS, after);
  }

  // ----- Why CR CR LF is excluded --------------------------------------------------------------

  function FieldsOf(lines: seq<string>): Fields {
    Fold(TakeLine, NO_FIELDS, lines)
  }

  /** Whether reading the lines of two blocks as one block gives other events than reading the two blocks. */
  ghost predicate SplitMatters(first: seq<string>, second: seq<string>) {
    var f, g, both := FieldsOf(first), FieldsOf(second), FieldsOf(first + second);
    || (f.data != [] && g.data != [])
    || (f.data != [] && g.data == [] && both.event != f.event)
    || (f.data == [] && g.data != [] && both.event != g.event)
  }

  /** Data lines add up, wherever the reading starts. */
  lemma {:induction false} DataAddsUp(f: Fields, lines: seq<string>)
    ensures Fold(TakeLine, f, lines).data == f.data + FieldsOf(lines).data
    decreases |lines|
  {
    if lines != [] {
      var g := TakeLine(f, lines[0]);
      DataAddsUp(g, lines[1..]);
      DataAddsUp(TakeLine(NO_FIELDS, lines[0]), lines[1..]);
      assert g.data == f.data + TakeLine(NO_FIELDS, lines[0]).data;
    }
  }

  lemma SplitMattersIff(first: seq<string>, second: seq<string>)
    ensures SplitMatters(first, second) <==>
      Optional(Finish(FieldsOf(first))) + Optional(Finish(FieldsOf(second)))
      != Optional(Finish(FieldsOf(first + second)))
  {
    FoldConcat(TakeLine, NO_FIELDS, first, second);
    DataAddsUp(FieldsOf(first), second);
    assert FieldsOf(first + second).data == FieldsOf(first).data + FieldsOf(second).data;
    hide FieldsOf, JoinLines;
    FinishedApart(FieldsOf(first), FieldsOf(second), FieldsOf(first + second));
  }

  lemma FinishedApart(f: Fields, g: Fields, both: Fields)
    requires both.data == f.data + g.data
    ensures Optional(Finish(f)) + Optional(Finish(g)) != Optional(Finish(both)) <==>
      || (f.data != [] && g.data != [])
      || (f.data != [] && g.data == [] && both.event != f.event)
      || (f.data == [] && g.data != [] && both.event != g.event)
  {
    hide JoinLines;
    var one := [SseEvent(both.event, JoinLines(both.data))];
    if f.data == [] && g.data == [] {
      assert both.data == [];
    } else if f.data == [] {
      assert both.data == g.data && Optional(Finish(both)) == one;
      assert Optional(Finish(f)) + Optional(Finish(g)) == [SseEvent(g.event, JoinLines(g.data))];
    } else if g.data == [] {
      assert both.data == f.data && Optional(Finish(both)) == one;
      assert Optional(Finish(f)) + Optional(Finish(g)) == [SseEvent(f.event, JoinLines(f.data))];
    } else {
      assert |Optional(Finish(f)) + Optional(Finish(g))| == 2 && |Optional(Finish(both))| == 1;
    }
  }

  /** The text of two blocks with a line of two carriage returns between them, cut after that line. */
  function HalfBlank(first: seq<string>): string {
    JoinLines(first) + [LF, CR, CR, LF]
  }

  function Ended(second: seq<string>): string {
    JoinLines(second) + [LF, LF]
  }

  /**
    A line of two carriage returns ends a block only if a second pass reaches it. Cut right after it,
    the text is read as two blocks, and uncut as one: the events depend on the cut exactly when
    splitting the block matters.
   */
  lemma CrCrLfChangesEventsIff(first: seq<string>, second: seq<string>)
    requires PlainLines(first) && PlainLines(second)
    ensures EventsOf(Feed("", [HalfBlank(first), Ended(second)])) != EventsOf(Feed("", [HalfBlank(first) + Ended(second)]))
       <==> SplitMatters(first, second)
  {
    hide ParseBlock, JoinLines, Feed, SplitMatters, FieldsOf, Finish;
    var b, c := JoinLines(first), JoinLines(second);
    EmptyBlockIsSilent();
    CutInTwo(first, second);
    MapSomeConcat(ParseBlock, [b], [c]);
    assert [b] + [c] == [b, c];
    MapSomeOne(ParseBlock, b);
    MapSomeOne(ParseBlock, c);
    MapSomeOne(ParseBlock, "");
    CutInOne(first, second);
    MapSomeOne(ParseBlock, b + [LF, CR, LF] + c);
    BlockParses(first);
    BlockParses(second);
    BridgedBlockParses(first, second);
    SplitMattersIff(first, second);
  }

  lemma BlockParses(lines: seq<string>)
    requires PlainLines(lines)
    ensures ParseBlock(JoinLines(lines)) == Finish(FieldsOf(lines))
  {
    forall line | line in lines ensures LF !in line {
      assert Plain(line);
    }
    SplitOfJoin(lines);
  }

  /** The parser does not react to the line between the blocks. */
  lemma BridgedBlockParses(first: seq<string>, second: seq<string>)
    requires PlainLines(first) && PlainLines(second)
    ensures ParseBlock(JoinLines(first) + [LF, CR, LF] + JoinLines(second)) == Finish(FieldsOf(first + second))
  {
    var bridged := first + ([[CR]] + second);
    forall line | line in bridged ensures LF !in line {
      assert line in first || line in second || line == [CR];
      assert line in first || line in second ==> Plain(line);
    }
    SplitOfJoin(bridged);
    BridgeIsIgnored(first, second);
    hide FieldsOf, Finish;
    JoinConcat([[CR]], second);
    JoinConcat(first, [[CR]] + second);
    BridgeText(JoinLines(first), JoinLines(second));
    assert JoinLines([[CR]]) == [CR];
  }

  lemma BridgeText(b: string, c: string)
    ensures b + [LF] + ([CR] + [LF] + c) == b + [LF, CR, LF] + c
  {
  }

  lemma BridgeIsIgnored(first: seq<string>, second: seq<string>)
    ensures FieldsOf(first + ([[CR]] + second)) == FieldsOf(first + second)
  {
    FoldConcat(TakeLine, NO_FIELDS, first, [[CR]] + second);
    FoldConcat(TakeLine, NO_FIELDS, first, second);
    FoldCons(TakeLine, FieldsOf(first), [CR], second);
    assert StripCr([CR]) == [];
  }

  lemma {:induction false} JoinConcat(a: seq<string>, b: seq<string>)
    requires a != [] && b != []
    ensures JoinLines(a + b) == JoinLines(a) + [LF] + JoinLines(b)
  {
    if |a| == 1 {
      assert (a + b)[1..] == b;
    } else {
      JoinConcat(a[1..], b);
      assert (a + b)[1..] == a[1..] + b;
    }
  }

  /** Such blocks exist: two blocks with one bare `data` line each. */
  lemma CrCrLfCanChangeEvents()
    ensures exists a: string, z: string :: EventsOf(Feed("", [a, z])) != EventsOf(Feed("", [a + z]))
  {
    BareDataParses();
    FoldOne(TakeLine, NO_FIELDS, "data");
    assert SplitMatters(["data"], ["data"]);
    CrCrLfChangesEventsIff(["data"], ["data"]);
  }

  lemma EmptyBlockIsSilent()
    ensures ParseBlock("") == None
  {
    SplitOfLine("");
    FoldCons(TakeLine, NO_FIELDS, "", []);
    assert [""] + [] == [""];
  }

  lemma {:induction false} JoinHasNoCr(lines: seq<string>)
    requires PlainLines(lines)
    ensures CR !in JoinLines(lines)
  {
    assert Plain(lines[0]) by { assert lines[0] in lines; }
    if |lines| > 1 {
      JoinHasNoCr(lines[1..]);
    }
  }

  /** Where the first blank line is after a block of plain lines. */
  lemma {:induction false} BlankAfterBlock(lines: seq<string>, rest: string)
    requires PlainLines(lines) && rest != []
    ensures FindBlank(JoinLines(lines) + [LF] + rest) ==
            if rest[0] == LF then |JoinLines(lines)|
            else if FindBlank(rest) == -1 then -1 else |JoinLines(lines)| + 1 + FindBlank(rest)
  {
    assert Plain(lines[0]) by { assert lines[0] in lines; }
    if |lines| == 1 {
      BlankAfterLine(lines[0], rest);
    } else {
      BlankAfterBlock(lines[1..], rest);
      BlockEndsAtBlank(lines[1..]);
      var tail := JoinLines(lines[1..]) + [LF] + rest;
      BlankAfterLine(lines[0], tail);
      assert JoinLines(lines) + [LF] + rest == lines[0] + [LF] + tail;
    }
  }

  lemma NormaliseAfterLine(d: string, rest: string)
    requires CR !in d
    ensures Normalise(d + [LF] + rest) == d + [LF] + Normalise(rest)
  {
    NormaliseSkipsPrefix(d + [LF], rest);
  }

  lemma CutInTwo(first: seq<string>, second: seq<string>)
    requires PlainLines(first) && PlainLines(second)
    ensures Feed("", [HalfBlank(first), Ended(second)]) == Frames([JoinLines(first), JoinLines(second)], "")
  {
    hide Normalise, CutBlocks, JoinLines;
    var b, c := JoinLines(first), JoinLines(second);
    var a, z := HalfBlank(first), Ended(second);
    var n := b + [LF] + [CR, LF];
    JoinHasNoCr(first);
    JoinHasNoCr(second);
    FirstChunkNormalises(b);
    FirstChunkDoesNotCut(first);
    FeedTwo(a, z);
    SecondChunkNormalises(b, c);
    TwoBlocksCut(first, second);
    FeedOne(n, z, Frames([b, c], ""));
    assert [] + [b, c] == [b, c];
  }

  lemma FirstChunkNormalises(b: string)
    requires CR !in b
    ensures Normalise(b + [LF, CR, CR, LF]) == b + [LF] + [CR, LF]
  {
    assert b + [LF, CR, CR, LF] == b + [LF] + [CR, CR, LF];
    NormaliseAfterLine(b, [CR, CR, LF]);
    NormalisePair([]);
    NormaliseCons(CR, [CR, LF]);
    assert [CR, LF] + [] == [CR, LF] && [CR] + [CR, LF] == [CR, CR, LF];
  }

  lemma FirstChunkDoesNotCut(first: seq<string>)
    requires PlainLines(first)
    ensures var n := JoinLines(first) + [LF] + [CR, LF]; CutBlocks(n) == Frames([], n)
  {
    BlankAfterBlock(first, [CR, LF]);
    assert FindBlank([CR, LF]) == -1;
  }

  lemma SecondChunkNormalises(b: string, c: string)
    requires CR !in b && CR !in c
    ensures Normalise(b + [LF] + [CR, LF] + (c + [LF, LF])) == b + [LF, LF] + (c + [LF, LF])
  {
    var z := c + [LF, LF];
    assert b + [LF] + [CR, LF] + z == b + [LF] + ([CR, LF] + z);
    NormaliseAfterLine(b, [CR, LF] + z);
    NormalisePair(z);
    assert z == c + [LF] + [LF];
    NormaliseAfterLine(c, [LF]);
    assert b + [LF] + ([LF] + z) == b + [LF, LF] + z;
  }

  lemma TwoBlocksCut(first: seq<string>, second: seq<string>)
    requires PlainLines(first) && PlainLines(second)
    ensures CutBlocks(JoinLines(first) + [LF, LF] + (JoinLines(second) + [LF, LF]))
         == Frames([JoinLines(first), JoinLines(second)], "")
  {
    var b, c := JoinLines(first), JoinLines(second);
    WireLinesAsJoin(first);
    WireLinesAsJoin(second);
    BlockCuts(second, "");
    BlockCuts(first, c + [LF, LF]);
    hide JoinLines, WireLines;
    assert WireLines(first, [LF]) + [LF] == b + [LF, LF];
    assert WireLines(second, [LF]) + [LF] + "" == c + [LF, LF];
    assert CutBlocks("") == Frames([], "");
  }

  lemma FeedOne(buffer: string, chunk: string, f: Frames)
    requires CutBlocks(Normalise(buffer + chunk)) == f && f.tail == ""
    ensures Feed(buffer, [chunk]) == f
  {
    assert [chunk][1..] == [];
    assert Feed("", []) == Frames([], "");
    assert f.blocks + [] == f.blocks;
  }

  lemma CutInOne(first: seq<string>, second: seq<string>)
    requires PlainLines(first) && PlainLines(second)
    ensures Feed("", [HalfBlank(first) + Ended(second)])
         == Frames([JoinLines(first) + [LF, CR, LF] + JoinLines(second)], "")
  {
    hide Normalise, CutBlocks, JoinLines;
    var b, c := JoinLines(first), JoinLines(second);
    var t := HalfBlank(first) + Ended(second);
    JoinHasNoCr(first);
    JoinHasNoCr(second);
    WholeTextNormalises(b, c);
    WholeTextCutsOnce(first, second);
    assert "" + t == t;
    FeedOne("", t, Frames([b + [LF, CR, LF] + c], ""));
  }

  lemma WholeTextNormalises(b: string, c: string)
    requires CR !in b && CR !in c
    ensures Normalise(b + [LF, CR, CR, LF] + (c + [LF, LF])) == b + [LF] + ([CR] + [LF] + (c + [LF] + [LF]))
  {
    var z := c + [LF] + [LF];
    assert b + [LF, CR, CR, LF] + (c + [LF, LF]) == b + [LF] + ([CR] + ([CR, LF] + z));
    NormaliseAfterLine(b, [CR] + ([CR, LF] + z));
    NormaliseCons(CR, [CR, LF] + z);
    NormalisePair(z);
    NormaliseAfterLine(c, [LF]);
    assert [CR] + ([LF] + z) == [CR] + [LF] + z;
  }

  lemma WholeTextCutsOnce(first: seq<string>, second: seq<string>)
    requires PlainLines(first) && PlainLines(second)
    ensures var b, c := JoinLines(first), JoinLines(second);
            CutBlocks(b + [LF] + ([CR] + [LF] + (c + [LF] + [LF]))) == Frames([b + [LF, CR, LF] + c], "")
  {
    var b, c := JoinLines(first), JoinLines(second);
    var block := b + [LF, CR, LF] + c;
    var n := b + [LF] + ([CR] + [LF] + (c + [LF] + [LF]));
    BlockEndsAtBlank(second);
    BlankAfterBlock(second, [LF]);
    BlankAfterLine([CR], c + [LF] + [LF]);
    BlankAfterBlock(first, [CR] + [LF] + (c + [LF] + [LF]));
    hide JoinLines, PlainLines, FindBlank;
    BridgedText(b, c);
    CutsAtEnd(block);
  }

  lemma BridgedText(b: string, c: string)
    ensures b + [LF] + ([CR] + [LF] + (c + [LF] + [LF])) == (b + [LF, CR, LF] + c) + [LF, LF]
  {
  }

  lemma CutsAtEnd(block: string)
    requires FindBlank(block + [LF, LF]) == |block|
    ensures CutBlocks(block + [LF, LF]) == Frames([block], "")
  {
    var n := block + [LF, LF];
    CutAtBlank(n, []);
    assert n[..|block| + 2] + [] == n && n[..|block|] == block;
    assert CutBlocks("") == Frames([], "");
  }

  lemma BareDataParses()
    ensures Plain("data") && TakeLine(NO_FIELDS, "data").data == [""]
  {
    assert IndexOf("data", ':') == -1;
    assert "data" in {"event", "data"};
  }
}
