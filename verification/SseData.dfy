/**
  How the data of the events depend on the chunking, for every text. Between the two extreme readings
  carriage returns disappear one by one, and all they can do to the data is grow it.
 */
module SseData {
  import opened Base
  import opened SseFraming
  import opened SseEvents
  import opened SseTolerance
  import opened SseReadings

  // ----- Lines -------------------------------------------------------------------------------------

  /** `b` is `a` without some of its final carriage returns. */
  predicate DropsCrs(a: string, b: string) {
    |b| <= |a| && a[..|b|] == b && forall c :: c in a[|b|..] ==> c == CR
  }

  /** Only lines that are ended by a line feed lose carriage returns. */
  ghost predicate ThinnerLines(x: seq<string>, y: seq<string>) {
    && |x| == |y| > 0 && x[|x| - 1] == y[|x| - 1]
    && forall i :: 0 <= i < |x| ==> DropsCrs(x[i], y[i])
  }

  lemma ThinnerLinesCons(c: char, x: seq<string>, y: seq<string>)
    requires ThinnerLines(x, y)
    ensures ThinnerLines(if c == LF then [[]] + x else [[c] + x[0]] + x[1..],
                         if c == LF then [[]] + y else [[c] + y[0]] + y[1..])
  {
    assert DropsCrs(x[0], y[0]);
    DropsCrsCons(c, x[0], y[0]);
  }

  lemma DropsCrsCons(c: char, a: string, b: string)
    requires DropsCrs(a, b)
    ensures DropsCrs([c] + a, [c] + b)
  {
    assert ([c] + a)[|[c] + b|..] == a[|b|..];
    assert ([c] + a)[..|[c] + b|] == [c] + a[..|b|];
  }

  lemma {:induction false} ThinnerByLine(x: string, y: string)
    requires Thinner(x, y)
    ensures ThinnerLines(SplitLines(x), SplitLines(y))
    decreases |x|
  {
    if x != [] {
      var c := x[0];
      assert x == [c] + x[1..];
      SplitCons(c, x[1..]);
      if y != [] && c == y[0] && Thinner(x[1..], y[1..]) {
        ThinnerByLine(x[1..], y[1..]);
        assert y == [c] + y[1..];
        SplitCons(c, y[1..]);
        ThinnerLinesCons(c, SplitLines(x[1..]), SplitLines(y[1..]));
      } else {
        ThinnerByLine(x[1..], y);
        FirstLineDrops(SplitLines(x[1..]), SplitLines(y));
      }
    }
  }

  lemma FirstLineDrops(x: seq<string>, y: seq<string>)
    requires ThinnerLines(x, y) && |y| > 1 && y[0] == []
    ensures ThinnerLines([[CR] + x[0]] + x[1..], y)
  {
    assert DropsCrs(x[0], y[0]);
    assert x[0][0..] == x[0];
    assert DropsCrs([CR] + x[0], []);
  }

  // ----- The data of the events, line by line --------------------------------------------------------

  /** The data of a list of events as one list: the lines of each, and a mark after each. */
  datatype Mark = Line(text: string) | End

  function DataOf(es: seq<SseEvent>): seq<string> {
    MapAll((e: SseEvent) => e.data, es)
  }

  function Marks(data: seq<string>): seq<Mark> {
    if data == [] then [] else LineMarks(SplitLines(data[0])) + [End] + Marks(data[1..])
  }

  function LineMarks(lines: seq<string>): seq<Mark> {
    MapAll((l: string) => Line(l), lines)
  }

  /** The value of a data line, if it is one. */
  function DataValue(line: string): Option<string> {
    var f := TakeLine(NO_FIELDS, line);
    if f.data == [] then None else Some(f.data[0])
  }

  function ValueMarks(line: string): seq<Mark> {
    var v := DataValue(line);
    if v.Some? then [Line(v.value)] else []
  }

  /** The reader line by line: `some` says that the block has data, `first` that it has no line yet. */
  function Scan(some: bool, first: bool, lines: seq<string>): seq<Mark>
    requires lines != []
    decreases |lines|
  {
    var now := some || DataValue(lines[0]).Some?;
    if |lines| == 1 then ValueMarks(lines[0]) + EndMark(now)
    else if lines[0] == [] && !first then EndMark(some) + Scan(false, true, lines[1..])
    else ValueMarks(lines[0]) + Scan(now, false, lines[1..])
  }

  function EndMark(some: bool): seq<Mark> {
    if some then [End] else []
  }

  // ----- Dropping carriage returns grows the data ----------------------------------------------------

  predicate Fits(a: Mark, b: Mark) {
    match a
    case End => b == End
    case Line(text) => b.Line? && DropsCrs(text, b.text)
  }

  /** `b` has every mark of `a`, its lines perhaps without final carriage returns, and perhaps more marks. */
  predicate Grows(a: seq<Mark>, b: seq<Mark>)
    decreases |b|
  {
    if a == [] then true
    else b != [] && ((Fits(a[0], b[0]) && Grows(a[1..], b[1..])) || Grows(a, b[1..]))
  }

  lemma {:induction false} GrowsLonger(a: seq<Mark>, b: seq<Mark>)
    requires Grows(a, b)
    ensures |a| <= |b|
    decreases |b|
  {
    if a != [] {
      if Fits(a[0], b[0]) && Grows(a[1..], b[1..]) {
        GrowsLonger(a[1..], b[1..]);
      } else {
        GrowsLonger(a, b[1..]);
      }
    }
  }

  lemma FitsBothWays(a: Mark, b: Mark)
    requires Fits(a, b) && Fits(b, a)
    ensures a == b
  {
    if a.Line? {
      assert a.text[..|a.text|] == a.text;
    }
  }

  /** Nothing lies strictly between a list and itself. */
  lemma {:induction false} GrowsBothWays(a: seq<Mark>, b: seq<Mark>)
    requires Grows(a, b) && Grows(b, a)
    ensures a == b
    decreases |b|
  {
    GrowsLonger(a, b);
    GrowsLonger(b, a);
    if a != [] {
      if Grows(a, b[1..]) {
        GrowsLonger(a, b[1..]);
        assert false;
      } else if Grows(b, a[1..]) {
        GrowsLonger(b, a[1..]);
        assert false;
      } else {
        FitsBothWays(a[0], b[0]);
        GrowsBothWays(a[1..], b[1..]);
        assert a == [a[0]] + a[1..] && b == [b[0]] + b[1..];
      }
    }
  }

  lemma {:induction false} GrowsUnder(more: seq<Mark>, x: seq<Mark>, y: seq<Mark>)
    requires Grows(x, y)
    ensures Grows(x, more + y)
  {
    if more == [] {
      assert more + y == y;
    } else {
      GrowsUnder(more[1..], x, y);
      assert (more + y)[1..] == more[1..] + y;
    }
  }

  lemma GrowsFitting(a: Mark, b: Mark, x: seq<Mark>, y: seq<Mark>)
    requires Fits(a, b) && Grows(x, y)
    ensures Grows([a] + x, [b] + y)
  {
    assert ([a] + x)[1..] == x && ([b] + y)[1..] == y;
  }

  lemma DropsAppended(b: string, rest: string)
    requires forall c :: c in rest ==> c == CR
    ensures DropsCrs(b + rest, b)
  {
    assert (b + rest)[|b|..] == rest && (b + rest)[..|b|] == b;
  }

  lemma StripDrops(a: string, b: string)
    requires DropsCrs(a, b)
    ensures DropsCrs(StripCr(a), StripCr(b))
  {
    var rest := a[|b|..];
    assert a == b + rest;
    if rest == [] {
      DropsAppended(StripCr(b), []);
      assert StripCr(b) + [] == StripCr(b);
    } else {
      var cr, front := if StripCr(b) == b then [] else [CR], rest[..|rest| - 1];
      assert rest[|rest| - 1] in rest;
      assert StripCr(a) == StripCr(b) + (cr + front);
      forall c | c in cr + front ensures c == CR {
        assert c in cr || c in front;
        assert c in front ==> c in rest;
      }
      DropsAppended(StripCr(b), cr + front);
    }
  }

  lemma {:induction false} IndexOfBefore(b: string, more: string, c: char)
    requires c !in more
    ensures IndexOf(b + more, c) == IndexOf(b, c)
  {
    if b == [] {
      assert b + more == more;
      NoIndex(more, c);
    } else {
      assert (b + more)[1..] == b[1..] + more;
      IndexOfBefore(b[1..], more, c);
    }
  }

  lemma {:induction false} NoIndex(s: string, c: char)
    requires c !in s
    ensures IndexOf(s, c) == -1
  {
    if s != [] {
      NoIndex(s[1..], c);
    }
  }

  lemma DataValueIs(line: string)
    ensures var l := StripCr(line);
            DataValue(line) == if !Ignored(l) && FieldName(l) == "data" then Some(FieldValue(l)) else None
  {
    var l := StripCr(line);
    assert "data"[0] != "event"[0];
    hide StripCr, FieldName, FieldValue, Ignored;
    assert !Ignored(l) && FieldName(l) == "data" ==> TakeLine(NO_FIELDS, line).data == [FieldValue(l)];
  }

  lemma BareFieldKeepsAll(b: string, rest: string)
    requires (forall c :: c in rest ==> c == CR) && CR !in b + rest
    ensures rest == []
  {
    if rest != [] {
      LastOfJoined(b, rest);
    }
  }

  lemma LastOfJoined(b: string, rest: string)
    requires rest != []
    ensures rest[|rest| - 1] in rest && (b + rest)[|b + rest| - 1] == rest[|rest| - 1]
  {
  }

  lemma TailOfJoined(v: string, rest: string)
    requires v != []
    ensures (v + rest)[0] == v[0] && (v + rest)[1..] == v[1..] + rest
  {
  }

  lemma ValueDrops(v: string, rest: string)
    requires forall c :: c in rest ==> c == CR
    ensures DropsCrs(if v + rest != [] && (v + rest)[0] == ' ' then (v + rest)[1..] else v + rest,
                     if v != [] && v[0] == ' ' then v[1..] else v)
  {
    if v != [] && v[0] == ' ' {
      TailOfJoined(v, rest);
      DropsAppended(v[1..], rest);
    } else {
      assert v == [] && rest != [] ==> rest[0] in rest;
      DropsAppended(v, rest);
    }
  }

  /** With final carriage returns gone a field line stays one, and its value loses no more than they. */
  lemma FieldDrops(b: string, rest: string, name: string)
    requires (forall c :: c in rest ==> c == CR) && !Ignored(b + rest) && FieldName(b + rest) == name
    requires CR !in name
    ensures !Ignored(b) && FieldName(b) == name && DropsCrs(FieldValue(b + rest), FieldValue(b))
  {
    IndexOfBefore(b, rest, ':');
    var colon := IndexOf(b, ':');
    if colon == -1 {
      BareFieldKeepsAll(b, rest);
      assert b + rest == b;
      DropsAppended(FieldValue(b), []);
      assert FieldValue(b) + [] == FieldValue(b);
    } else {
      assert (b + rest)[..colon] == b[..colon] && (b + rest)[colon + 1..] == b[colon + 1..] + rest;
      assert (b + rest)[0] == b[0];
      ValueDrops(b[colon + 1..], rest);
    }
  }

  lemma DroppedPart(a: string, b: string)
    requires DropsCrs(a, b)
    ensures |b| <= |a| && a == b + a[|b|..] && forall c :: c in a[|b|..] ==> c == CR
  {
  }

  lemma NoLineNoValue()
    ensures DataValue([]).None?
  {
  }

  lemma ValueGrows(a: string, b: string)
    requires DropsCrs(a, b)
    ensures DataValue(a).Some? ==> DataValue(b).Some? && DropsCrs(DataValue(a).value, DataValue(b).value)
    ensures b == [] ==> DataValue(a).None?
  {
    hide StripCr, DataValue, Ignored, FieldName, FieldValue, DropsCrs;
    DataValueIs(a);
    DataValueIs(b);
    NoLineNoValue();
    StripDrops(a, b);
    DroppedPart(StripCr(a), StripCr(b));
    if DataValue(a).Some? {
      FieldDrops(StripCr(b), StripCr(a)[|StripCr(b)|..], "data");
    }
  }

  /** At most one line's mark. */
  predicate LineMark(v: seq<Mark>) {
    v == [] || (|v| == 1 && v[0].Line?)
  }

  lemma LastLineGrows(some: bool, other: bool, v: seq<Mark>)
    requires LineMark(v)
    ensures Grows(v + EndMark(some || v != []), EndMark(some && !other) + (v + EndMark(other || v != [])))
  {
    var x, y := v + EndMark(some || v != []), v + EndMark(other || v != []);
    GrowsItself(x);
    if some || v != [] {
      if some && v == [] && !other {
        assert EndMark(some && !other) + y == x;
      } else {
        assert x == y;
        GrowsUnder(EndMark(some && !other), x, y);
      }
    }
  }

  lemma {:induction false} GrowsItself(x: seq<Mark>)
    ensures Grows(x, x)
  {
    if x != [] {
      GrowsItself(x[1..]);
      assert x[0].Line? ==> x[0].text[..|x[0].text|] == x[0].text;
    }
  }

  /** One line of both texts: each ends its block there, or reads the line's mark. */
  lemma StepGrows(some: bool, other: bool, cut: bool, otherCut: bool, v: seq<Mark>, u: seq<Mark>, x: seq<Mark>, y: seq<Mark>)
    requires LineMark(v) && LineMark(u) && (v != [] ==> u != [] && Fits(v[0], u[0]))
    requires (cut ==> v == [] && u == []) && (otherCut ==> v == [] && u == []) && (cut && !otherCut ==> !other)
    requires Grows(x, EndMark(!cut && (some || v != []) && (otherCut || !(other || u != []))) + y)
    ensures Grows((if cut then EndMark(some) else v) + x,
                  EndMark(some && !other) + ((if otherCut then EndMark(other) else u) + y))
  {
    var owed := EndMark(some && !other);
    if v != [] {
      assert [] + y == y && v == [v[0]] && u == [u[0]];
      GrowsFitting(v[0], u[0], x, y);
      GrowsUnder(owed, v + x, u + y);
    } else if u != [] {
      assert [] + y == y && v + x == x;
      GrowsUnder(u, x, y);
      GrowsUnder(owed, x, u + y);
    } else if cut {
      assert [] + y == y;
      var marks := if otherCut then EndMark(other) else [];
      ConcatAssociates(owed, marks, y);
      if some {
        assert owed + marks == [End];
        GrowsFitting(End, End, x, y);
      } else {
        assert EndMark(some) + x == x;
        GrowsUnder(owed + marks, x, y);
      }
    } else {
      assert v + x == x;
      var marks := if otherCut then EndMark(other) else [];
      ConcatAssociates(owed, marks, y);
      if !some && otherCut {
        assert [] + y == y;
        GrowsUnder(owed + marks, x, y);
      } else {
        assert owed + marks == EndMark(some && (otherCut || !other));
      }
    }
  }

  lemma LastLine(some: bool, first: bool, x: seq<string>)
    requires |x| == 1
    ensures var v := ValueMarks(x[0]); LineMark(v) && Scan(some, first, x) == v + EndMark(some || v != [])
  {
  }

  lemma NextLine(some: bool, first: bool, x: seq<string>)
    requires |x| > 1
    ensures var v, cut := ValueMarks(x[0]), x[0] == [] && !first;
            && LineMark(v)
            && Scan(some, first, x)
            == (if cut then EndMark(some) else v) + Scan(if cut then false else some || v != [], cut, x[1..])
  {
  }

  lemma EmptyLineHasNoValue()
    ensures ValueMarks([]) == []
  {
    DataValueIs([]);
  }

  lemma TailIsThinner(x: seq<string>, y: seq<string>)
    requires ThinnerLines(x, y) && |x| > 1
    ensures ThinnerLines(x[1..], y[1..])
  {
    forall i | 0 <= i < |x[1..]| ensures DropsCrs(x[1..][i], y[1..][i]) {
      assert DropsCrs(x[i + 1], y[i + 1]);
    }
  }

  /**
    Line by line the thinner text has all the data of the other. `some` and `other` say whether the
    two blocks in progress have data; a mark the thinner text has set early is still owed by the other.
   */
  lemma {:induction false} ScanGrows(
      some: bool, first: bool, x: seq<string>, other: bool, otherFirst: bool, y: seq<string>)
    requires ThinnerLines(x, y) && (first ==> !some) && (otherFirst ==> !other)
    ensures Grows(Scan(some, first, x), EndMark(some && !other) + Scan(other, otherFirst, y))
    decreases |x|
  {
    assert DropsCrs(x[0], y[0]);
    ValueGrows(x[0], y[0]);
    assert x[0] == [] ==> y[0] == [];
    EmptyLineHasNoValue();
    var v, u := ValueMarks(x[0]), ValueMarks(y[0]);
    var now, otherNow := some || v != [], other || u != [];
    hide DataValue, DropsCrs, Grows, ThinnerLines;
    if |x| == 1 {
      LastLine(some, first, x);
      LastLine(other, otherFirst, y);
      LastLineGrows(some, other, v);
    } else {
      TailIsThinner(x, y);
      var xs, ys := x[1..], y[1..];
      var cut, otherCut := x[0] == [] && !first, y[0] == [] && !otherFirst;
      NextLine(some, first, x);
      NextLine(other, otherFirst, y);
      ScanGrows(
        if cut then false else now, cut, xs, if otherCut then false else otherNow, otherCut, ys);
      StepGrows(some, other, cut, otherCut, v, u,
        Scan(if cut then false else now, cut, xs), Scan(if otherCut then false else otherNow, otherCut, ys));
    }
  }

  // ----- The marks are those of the events -----------------------------------------------------------

  ghost predicate NoneBlankInside(lines: seq<string>) {
    forall i :: 1 <= i < |lines| - 1 ==> lines[i] != []
  }

  lemma NoneBlankCons(c: char, lines: seq<string>)
    requires lines != [] && NoneBlankInside(lines) && (c == LF && |lines| > 1 ==> lines[0] != [])
    ensures NoneBlankInside(if c == LF then [[]] + lines else [[c] + lines[0]] + lines[1..])
  {
    var longer := [[]] + lines;
    assert forall i :: 1 <= i < |longer| ==> longer[i] == lines[i - 1];
  }

  lemma {:induction false} NoBlankLines(s: string)
    requires FindBlank(s) == -1
    ensures NoneBlankInside(SplitLines(s))
  {
    if s != [] {
      var rest := s[1..];
      assert s == [s[0]] + rest;
      FindBlankCons(s[0], rest);
      NoBlankLines(rest);
      SplitCons(s[0], rest);
      if |SplitLines(rest)| > 1 {
        FirstLineBlank(rest);
      }
      hide SplitLines, FindBlank;
      NoneBlankCons(s[0], SplitLines(rest));
    }
  }

  lemma FirstLineBlank(s: string)
    requires |SplitLines(s)| > 1
    ensures SplitLines(s)[0] == [] ==> s[0] == LF
  {
  }

  /** No line but perhaps the first is blank. */
  ghost predicate Unbroken(first: bool, lines: seq<string>) {
    forall i :: 0 <= i < |lines| && !(first && i == 0) ==> lines[i] != []
  }

  function ValuesOf(lines: seq<string>): seq<Mark> {
    if lines == [] then [] else ValueMarks(lines[0]) + ValuesOf(lines[1..])
  }

  /** Up to a blank line the scan reads the data of one block. */
  lemma {:induction false} ScanBlock(some: bool, first: bool, lines: seq<string>, rest: seq<string>)
    requires lines != [] && rest != [] && Unbroken(first, lines)
    ensures Scan(some, first, lines + [[]] + rest)
         == ValuesOf(lines) + EndMark(some || ValuesOf(lines) != []) + Scan(false, true, rest)
    decreases |lines|
  {
    var all := lines + [[]] + rest;
    var v, now := ValueMarks(lines[0]), some || ValueMarks(lines[0]) != [];
    assert all[1..] == lines[1..] + [[]] + rest;
    hide ValueMarks, DataValue;
    NextLine(some, first, all);
    if |lines| == 1 {
      assert all[1..] == [[]] + rest && all[1..][1..] == rest;
      NextLine(now, false, all[1..]);
      assert ValuesOf(lines[1..]) == [] && v + [] == v;
      ConcatAssociates(v, EndMark(now), Scan(false, true, rest));
    } else {
      ScanBlock(now, false, lines[1..], rest);
      var vs, e := ValuesOf(lines[1..]), EndMark(now || ValuesOf(lines[1..]) != []);
      ConcatAssociates(v, vs + e, Scan(false, true, rest));
      ConcatAssociates(v, vs, e);
    }
  }

  /** The lines that no blank line follows. */
  lemma {:induction false} ScanTail(some: bool, first: bool, lines: seq<string>)
    requires lines != [] && Unbroken(first, lines[..|lines| - 1])
    ensures Scan(some, first, lines) == ValuesOf(lines) + EndMark(some || ValuesOf(lines) != [])
    decreases |lines|
  {
    var v, now := ValueMarks(lines[0]), some || ValueMarks(lines[0]) != [];
    hide ValueMarks, DataValue;
    if |lines| == 1 {
      LastLine(some, first, lines);
      assert v + [] == v;
    } else {
      NextLine(some, first, lines);
      forall i | 0 <= i < |lines[1..]| - 1 ensures lines[1..][i] != [] {
        assert lines[1..][i] == lines[..|lines| - 1][i + 1];
      }
      assert lines[..|lines| - 1][0] == lines[0];
      ScanTail(now, false, lines[1..]);
      ConcatAssociates(v, ValuesOf(lines[1..]), EndMark(now || ValuesOf(lines[1..]) != []));
    }
  }

  lemma {:induction false} FoldReadsData(f: Fields, lines: seq<string>)
    ensures Fold(TakeLine, f, lines).data == f.data + MapSome(DataValue, lines)
    decreases |lines|
  {
    if lines == [] {
      assert f.data + [] == f.data;
    } else {
      var line, rest := lines[0], lines[1..];
      FoldReadsData(TakeLine(f, line), rest);
      assert TakeLine(f, line).data == f.data + Optional(DataValue(line));
      hide DataValue, TakeLine;
      ConcatAssociates(f.data, Optional(DataValue(line)), MapSome(DataValue, rest));
    }
  }

  lemma {:induction false} ValuesAreMarks(lines: seq<string>)
    ensures ValuesOf(lines) == LineMarks(MapSome(DataValue, lines))
  {
    hide DataValue;
    if lines != [] {
      var v, vs := DataValue(lines[0]), MapSome(DataValue, lines[1..]);
      ValuesAreMarks(lines[1..]);
      if v.Some? {
        MapAllCons((l: string) => Line(l), v.value, vs);
        assert ValuesOf(lines) == [Line(v.value)] + LineMarks(vs);
      } else {
        assert [] + vs == vs && [] + ValuesOf(lines[1..]) == ValuesOf(lines[1..]);
      }
    }
  }

  lemma {:induction false} ValuesHaveNoLf(lines: seq<string>)
    requires forall line :: line in lines ==> LF !in line
    ensures forall v :: v in MapSome(DataValue, lines) ==> LF !in v
  {
    if lines != [] {
      assert lines[0] in lines;
      DataValueIs(lines[0]);
      ValuesHaveNoLf(lines[1..]);
      hide DataValue;
    }
  }

  function BlockMarks(block: string): seq<Mark> {
    Marks(DataOf(Optional(ParseBlock(block))))
  }

  /** The marks of a block are those of its data lines. */
  lemma BlockMarksAre(block: string)
    ensures var v := ValuesOf(SplitLines(block)); BlockMarks(block) == v + EndMark(v != [])
  {
    var lines := SplitLines(block);
    var f := Fold(TakeLine, NO_FIELDS, lines);
    FoldReadsData(NO_FIELDS, lines);
    SplitKeepsChars(block);
    ValuesHaveNoLf(lines);
    ValuesAreMarks(lines);
    assert [] + MapSome(DataValue, lines) == MapSome(DataValue, lines);
    MapAllMembers((l: string) => Line(l), f.data);
    hide TakeLine, DataValue, ValuesOf;
    if f.data == [] {
      assert ParseBlock(block) == None;
    } else {
      var e := SseEvent(f.event, JoinLines(f.data));
      assert ParseBlock(block) == Some(e);
      OneEventMarks(e);
      SplitOfJoin(f.data);
    }
  }

  lemma OneEventMarks(e: SseEvent)
    ensures Marks(DataOf([e])) == LineMarks(SplitLines(e.data)) + [End]
  {
    MapAllCons((x: SseEvent) => x.data, e, []);
    assert [e] + [] == [e] && DataOf([e]) == [e.data] && [e.data][1..] == [];
  }

  lemma {:induction false} MarksJoined(a: seq<string>, b: seq<string>)
    ensures Marks(a + b) == Marks(a) + Marks(b)
  {
    if a == [] {
      assert a + b == b;
    } else {
      assert (a + b)[1..] == a[1..] + b;
      MarksJoined(a[1..], b);
      ConcatAssociates(LineMarks(SplitLines(a[0])) + [End], Marks(a[1..]), Marks(b));
    }
  }

  lemma {:induction false} DataJoined(a: seq<SseEvent>, b: seq<SseEvent>)
    ensures DataOf(a + b) == DataOf(a) + DataOf(b)
  {
    if a == [] {
      assert a + b == b;
    } else {
      assert (a + b)[1..] == a[1..] + b;
      DataJoined(a[1..], b);
    }
  }

  lemma SplitAroundBlank(block: string, rest: string)
    ensures SplitLines(block + [LF, LF] + rest) == SplitLines(block) + [[]] + SplitLines(rest)
  {
    SplitAtLf(block, [LF] + rest);
    SplitCons(LF, rest);
    hide SplitLines;
    assert block + [LF, LF] + rest == block + [LF] + ([LF] + rest);
    ConcatAssociates(SplitLines(block), [[]], SplitLines(rest));
  }

  lemma ConsJoined(c: char, x: seq<string>, y: seq<string>)
    requires x != []
    ensures (if c == LF then [[]] + (x + y) else [[c] + (x + y)[0]] + (x + y)[1..])
         == (if c == LF then [[]] + x else [[c] + x[0]] + x[1..]) + y
  {
  }

  lemma {:induction false} SplitAtLf(a: string, rest: string)
    ensures SplitLines(a + [LF] + rest) == SplitLines(a) + SplitLines(rest)
  {
    if a == [] {
      assert a + [LF] + rest == [LF] + rest;
      SplitCons(LF, rest);
    } else {
      SplitAtLf(a[1..], rest);
      assert a + [LF] + rest == [a[0]] + (a[1..] + [LF] + rest) && a == [a[0]] + a[1..];
      SplitCons(a[0], a[1..] + [LF] + rest);
      SplitCons(a[0], a[1..]);
      var x, y := SplitLines(a[1..]), SplitLines(rest);
      hide SplitLines;
      ConsJoined(a[0], x, y);
    }
  }

  /** The scan of a text, line by line, is its events' data. */
  lemma {:induction false} ScanIsRead(w: string)
    ensures Scan(false, true, SplitLines(w)) == Marks(DataOf(EventsOf(CutBlocks(w))))
    decreases |w|
  {
    hide ParseBlock, Scan, SplitLines, ValuesOf, Marks, DataOf;
    var i := FindBlank(w);
    if i == -1 {
      NoBlankLines(w);
      UnbrokenTail(SplitLines(w));
      ScanTail(false, true, SplitLines(w));
      BlockMarksAre(w);
      NothingToDrain(w);
      MapSomeOne(ParseBlock, w);
      assert EventsOf(CutBlocks(w)) == Optional(ParseBlock(w));
    } else {
      var block, rest := w[..i], w[i + 2..];
      FirstCut(w);
      UnbrokenBefore(w);
      SplitEnded(block);
      NoBlankLines(block + [LF]);
      UnbrokenTail(SplitLines(block + [LF]));
      assert SplitLines(block + [LF])[..|SplitLines(block)|] == SplitLines(block);
      SplitAroundBlank(block, rest);
      ScanBlock(false, true, SplitLines(block), SplitLines(rest));
      BlockMarksAre(block);
      ScanIsRead(rest);
      EmitFirst(block, CutBlocks(rest));
      var e, es := Optional(ParseBlock(block)), EventsOf(CutBlocks(rest));
      DataJoined(e, es);
      MarksJoined(DataOf(e), DataOf(es));
    }
  }

  lemma UnbrokenTail(lines: seq<string>)
    requires lines != [] && NoneBlankInside(lines)
    ensures Unbroken(true, lines[..|lines| - 1])
  {
  }

  // ----- When the data depend on the chunking ----------------------------------------------------------

  function DataRead(chunks: seq<string>): seq<string> {
    DataOf(EventsOf(Feed("", chunks)))
  }

  lemma LineMarksTellLines(a: seq<string>, b: seq<string>, x: seq<Mark>, y: seq<Mark>)
    requires LineMarks(a) + [End] + x == LineMarks(b) + [End] + y
    ensures a == b && x == y
  {
    MapAllMembers((l: string) => Line(l), a);
    MapAllMembers((l: string) => Line(l), b);
    var all := LineMarks(a) + [End] + x;
    assert all[|a|] == End && all[|b|] == End;
    assert forall i :: 0 <= i < |a| ==> all[i] == Line(a[i]);
    assert forall i :: 0 <= i < |b| ==> all[i] == Line(b[i]);
    assert |a| == |b|;
    assert x == all[|a| + 1..] == y;
  }

  /** The marks decide the data. */
  lemma {:induction false} MarksTellData(a: seq<string>, b: seq<string>)
    requires Marks(a) == Marks(b)
    ensures a == b
    decreases |a|
  {
    hide SplitLines, LineMarks;
    if a == [] || b == [] {
      NoMarks(a);
      NoMarks(b);
    } else {
      LineMarksTellLines(SplitLines(a[0]), SplitLines(b[0]), Marks(a[1..]), Marks(b[1..]));
      JoinOfSplit(a[0]);
      JoinOfSplit(b[0]);
      MarksTellData(a[1..], b[1..]);
      assert a == [a[0]] + a[1..] && b == [b[0]] + b[1..];
    }
  }

  lemma NoMarks(a: seq<string>)
    ensures Marks(a) == [] <==> a == []
  {
  }

  lemma ThinnerGrows(x: string, y: string)
    requires Thinner(x, y)
    ensures Grows(Marks(DataOf(EventsOf(CutBlocks(x)))), Marks(DataOf(EventsOf(CutBlocks(y)))))
  {
    ThinnerByLine(x, y);
    ScanIsRead(x);
    ScanIsRead(y);
    hide Scan, Marks, DataOf;
    ScanGrows(false, true, SplitLines(x), false, true, SplitLines(y));
    var m := Scan(false, true, SplitLines(y));
    assert [] + m == m;
  }

  /** Every reading's data lie between those of the uncut reading and those of the thinned text. */
  lemma DataBetween(chunks: seq<string>)
    requires chunks != []
    ensures var t := Concat(chunks);
            && Grows(Marks(DataRead([t])), Marks(DataRead(chunks)))
            && Grows(Marks(DataRead(chunks)), Marks(DataOf(ThinEvents(t))))
  {
    hide Marks, DataOf, Grows, CutBlocks, Thin, Feed, Uncut;
    var t := Concat(chunks);
    var w := ReadingIsThinner("", chunks);
    assert "" + t == t;
    UncutIsRead("", t);
    ThinnerGrows(Uncut(t), w);
    ThinIsThinner(w);
    ThinnerGrows(w, Thin(w));
  }

  /**
    For every text: the data of the events never depend on the chunking exactly when reading the text
    uncut and cutting its thinned form give the same data.
   */
  lemma DataIgnoreChunkingIff(t: string)
    ensures (forall chunks: seq<string> :: Concat(chunks) == t ==> DataRead(chunks) == DataRead([t]))
       <==> DataRead([t]) == DataOf(ThinEvents(t))
  {
    hide DataOf, EventsOf, Feed, Thin, Marks, Grows;
    var slow := ThinIsReached(t);
    assert DataRead(slow) == DataOf(ThinEvents(t));
    if DataRead([t]) == DataOf(ThinEvents(t)) {
      forall chunks: seq<string> | Concat(chunks) == t ensures DataRead(chunks) == DataRead([t]) {
        if chunks == [] {
          NoChunks(chunks);
        } else {
          DataBetween(chunks);
          GrowsBothWays(Marks(DataRead([t])), Marks(DataRead(chunks)));
          MarksTellData(DataRead([t]), DataRead(chunks));
        }
      }
    }
  }

  // ----- Texts without event names -----------------------------------------------------------------------

  /** No line of the text, its carriage returns dropped, names an event. */
  ghost predicate Unnamed(t: string) {
    forall line :: line in SplitLines(Thin(t)) ==> !NamesEvent(line)
  }

  /** Dropping final carriage returns never takes an event name away. */
  lemma NameDrops(a: string, b: string)
    requires DropsCrs(a, b) && NamesEvent(a)
    ensures NamesEvent(b)
  {
    StripDrops(a, b);
    DroppedPart(StripCr(a), StripCr(b));
    FieldDrops(StripCr(b), StripCr(a)[|StripCr(b)|..], "event");
  }

  lemma ReadingIsUnnamed(t: string, w: string)
    requires Unnamed(t) && Thin(w) == Thin(t)
    ensures forall line :: line in SplitLines(w) ==> !NamesEvent(line)
  {
    ThinIsThinner(w);
    ThinnerByLine(w, Thin(w));
    var x, y := SplitLines(w), SplitLines(Thin(w));
    hide NamesEvent, DropsCrs;
    forall line | line in x ensures !NamesEvent(line) {
      var i :| 0 <= i < |x| && x[i] == line;
      assert DropsCrs(x[i], y[i]) && y[i] in y;
      if NamesEvent(line) {
        NameDrops(x[i], y[i]);
      }
    }
  }

  function Message(data: string): SseEvent {
    SseEvent("message", data)
  }

  lemma UnnamedBlock(block: string)
    requires forall line :: line in SplitLines(block) ==> !NamesEvent(line)
    ensures var e := Optional(ParseBlock(block)); e == MapAll(Message, DataOf(e))
  {
    UnnamedFold(NO_FIELDS, SplitLines(block));
    if ParseBlock(block).Some? {
      var e := ParseBlock(block).value;
      MapAllCons((x: SseEvent) => x.data, e, []);
      MapAllCons(Message, e.data, []);
      assert [e] + [] == [e] && [e.data] + [] == [e.data];
    }
  }

  /** Without event names the data decide the events. */
  lemma {:induction false} UnnamedEvents(w: string)
    requires forall line :: line in SplitLines(w) ==> !NamesEvent(line)
    ensures var es := EventsOf(CutBlocks(w)); es == MapAll(Message, DataOf(es))
    decreases |w|
  {
    hide ParseBlock, SplitLines, NamesEvent, DataOf;
    var i := FindBlank(w);
    if i == -1 {
      UnnamedBlock(w);
      NothingToDrain(w);
      MapSomeOne(ParseBlock, w);
      assert EventsOf(CutBlocks(w)) == Optional(ParseBlock(w));
    } else {
      var block, rest := w[..i], w[i + 2..];
      FirstCut(w);
      SplitAroundBlank(block, rest);
      UnnamedBlock(block);
      UnnamedEvents(rest);
      EmitFirst(block, CutBlocks(rest));
      var e, es := Optional(ParseBlock(block)), EventsOf(CutBlocks(rest));
      DataJoined(e, es);
      MessagesJoined(DataOf(e), DataOf(es));
    }
  }

  lemma {:induction false} MessagesJoined(a: seq<string>, b: seq<string>)
    ensures MapAll(Message, a + b) == MapAll(Message, a) + MapAll(Message, b)
  {
    if a == [] {
      assert a + b == b;
    } else {
      assert (a + b)[1..] == a[1..] + b;
      MessagesJoined(a[1..], b);
    }
  }

  lemma UnnamedReading(chunks: seq<string>)
    requires Unnamed(Concat(chunks))
    ensures EventsOf(Feed("", chunks)) == MapAll(Message, DataRead(chunks))
  {
    hide DataOf, EventsOf, CutBlocks, Thin, SplitLines, NamesEvent;
    var w := "";
    if chunks == [] {
      NoChunks(chunks);
      EmptyCut();
    } else {
      w := ReadingIsThinner("", chunks);
      assert "" + Concat(chunks) == Concat(chunks);
    }
    ReadingIsUnnamed(Concat(chunks), w);
    UnnamedEvents(w);
  }

  /** For a text without event names the events themselves never depend on the chunking under the same condition. */
  lemma UnnamedEventsIgnoreChunkingIff(t: string)
    requires Unnamed(t)
    ensures (forall chunks: seq<string> :: Concat(chunks) == t
              ==> EventsOf(Feed("", chunks)) == EventsOf(Feed("", [t])))
       <==> EventsOf(Feed("", [t])) == ThinEvents(t)
  {
    hide DataOf, EventsOf, Feed, Thin, SplitLines, NamesEvent;
    ConcatOne(t);
    UnnamedReading([t]);
    var slow := ThinIsReached(t);
    UnnamedReading(slow);
    DataIgnoreChunkingIff(t);
    if EventsOf(Feed("", [t])) == ThinEvents(t) {
      forall chunks: seq<string> | Concat(chunks) == t ensures EventsOf(Feed("", chunks)) == EventsOf(Feed("", [t])) {
        UnnamedReading(chunks);
        assert DataRead(chunks) == DataRead([t]);
      }
    }
  }
}
