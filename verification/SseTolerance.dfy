/**
  How much of a CR CR LF the reader tolerates. A second pass over the buffer may take another
  carriage return, and with it move the blocks; the events stay the same as long as no
  CR CR LF follows a CR or an LF, because the line loop drops one carriage return itself.
  Every chunking is compared with `Thin`, which drops all carriage returns before a line feed.
 */
module SseTolerance {
  import opened Base
  import opened SseFraming
  import opened SseEvents

  predicate LineChar(c: char) {
    c == CR || c == LF
  }

  /** No CR CR LF follows a CR or an LF. */
  ghost predicate CrCrLfOnlyAfterText(t: string) {
    forall i: int :: CrCrLfAt(t, i) && i > 0 ==> !LineChar(t[i - 1])
  }

  /** Stands for the character before the first one. */
  const START: char := ' '

  /** After `p`, every CR LF (every CR CR LF, when `doubled`) follows a character of text. */
  predicate Spaced(doubled: bool, p: char, s: string)
    decreases |s|
  {
    s == [] ||
    (!(LineChar(p) && (if doubled then CrCrLfAt(s, 0) else CrlfAt(s, 0))) && Spaced(doubled, s[0], s[1..]))
  }

  lemma {:induction false} SpacedWithin(p: char, s: string)
    requires forall i: int :: CrCrLfAt(s, i) ==> !LineChar(if i == 0 then p else s[i - 1])
    ensures Spaced(true, p, s)
    decreases |s|
  {
    if s != [] {
      forall i: int | CrCrLfAt(s[1..], i) ensures !LineChar(if i == 0 then s[0] else s[1..][i - 1]) {
        assert CrCrLfAt(s, i + 1);
      }
      SpacedWithin(s[0], s[1..]);
    }
  }

  lemma OnlyAfterTextIsSpaced(t: string)
    requires CrCrLfOnlyAfterText(t)
    ensures Spaced(true, START, t)
  {
    SpacedWithin(START, t);
  }

  lemma SpacedCons(p: char, c: char, s: string)
    requires Spaced(true, c, s)
    requires LineChar(p) ==> !CrCrLfAt([c] + s, 0)
    ensures Spaced(true, p, [c] + s)
  {
    assert ([c] + s)[1..] == s;
  }

  lemma {:induction false} SpacedAfter(doubled: bool, p: char, a: string, s: string)
    requires Spaced(doubled, p, a + [LF] + s)
    ensures Spaced(doubled, LF, s) && Spaced(doubled, START, s)
    decreases |a|
  {
    if a == [] {
      assert (a + [LF] + s)[1..] == s;
    } else {
      assert (a + [LF] + s)[1..] == a[1..] + [LF] + s;
      SpacedAfter(doubled, a[0], a[1..], s);
    }
  }

  lemma {:induction false} SpacedBefore(doubled: bool, p: char, a: string, s: string)
    requires Spaced(doubled, p, a + s)
    ensures Spaced(doubled, p, a)
    decreases |a|
  {
    if a != [] {
      assert (a + s)[1..] == a[1..] + s;
      SpacedBefore(doubled, a[0], a[1..], s);
      assert CrlfAt(a, 0) ==> CrlfAt(a + s, 0);
      assert CrCrLfAt(a, 0) ==> CrCrLfAt(a + s, 0);
    }
  }

  // ----- Normalising -------------------------------------------------------------------------

  /** A pass makes no CR LF at the front where a second carriage return could not stand. */
  lemma PassMakesNoPair(u: string, v: string)
    requires Spaced(true, CR, u + v)
    ensures CrlfAt(Normalise(u) + v, 0) ==> CrlfAt(u + v, 0)
  {
    if u != [] && u[0] == CR && !CrlfAt(u, 0) {
      assert !CrCrLfAt(u + v, 0);
      NormaliseHead(u[1..]);
      assert u == [CR] + u[1..];
      NormaliseCons(CR, u[1..]);
      if |u| >= 2 {
        assert (u + v)[1] == u[1] && !CrlfAt(u[1..], 0);
      }
    }
  }

  lemma PassMakesNoDouble(p: char, u: string, v: string)
    requires u != [] && !CrlfAt(u, 0) && LineChar(p) && Spaced(true, p, u + v)
    ensures !CrCrLfAt([u[0]] + Normalise(u[1..]) + v, 0)
  {
    hide Normalise;
    var n := [u[0]] + Normalise(u[1..]) + v;
    assert (u + v)[1..] == u[1..] + v && n[1..] == Normalise(u[1..]) + v;
    assert !CrCrLfAt(u + v, 0);
    if u[0] == CR {
      PassMakesNoPair(u[1..], v);
      assert CrlfAt(u[1..] + v, 0) ==> CrCrLfAt(u + v, 0);
    }
  }

  lemma SpacedStep(p: char, u: string, v: string)
    requires u != [] && Spaced(true, p, u + v)
    ensures Spaced(true, u[0], u[1..] + v)
  {
    assert (u + v)[1..] == u[1..] + v;
  }

  lemma PassOverPair(p: char, u: string, v: string)
    requires CrlfAt(u, 0) && Spaced(true, LF, Normalise(u[2..]) + v)
    ensures Spaced(true, p, Normalise(u) + v)
  {
    var m := Normalise(u[2..]);
    assert Normalise(u) == [LF] + m;
    ConcatAssociates([LF], m, v);
    SpacedCons(p, LF, m + v);
  }

  lemma PassOverOther(p: char, u: string, v: string)
    requires u != [] && !CrlfAt(u, 0) && Spaced(true, p, u + v)
    requires Spaced(true, u[0], Normalise(u[1..]) + v)
    ensures Spaced(true, p, Normalise(u) + v)
  {
    var m := Normalise(u[1..]);
    assert Normalise(u) == [u[0]] + m;
    hide Normalise, Spaced;
    if LineChar(p) {
      PassMakesNoDouble(p, u, v);
    }
    ConcatAssociates([u[0]], m, v);
    SpacedCons(p, u[0], m + v);
  }

  /** A pass over a prefix keeps the text spaced. */
  lemma {:induction false} PassKeepsSpaced(p: char, u: string, v: string)
    requires Spaced(true, p, u + v)
    ensures Spaced(true, p, Normalise(u) + v)
    decreases |u|
  {
    hide Spaced;
    if u == [] {
      assert Normalise(u) == u;
    } else {
      SpacedStep(p, u, v);
      if CrlfAt(u, 0) {
        SpacedStep(u[0], u[1..], v);
        assert u[1..][1..] == u[2..];
        PassKeepsSpaced(LF, u[2..], v);
        PassOverPair(p, u, v);
      } else {
        PassKeepsSpaced(u[0], u[1..], v);
        PassOverOther(p, u, v);
      }
    }
  }

  /** A pass over the whole text leaves a CR LF only after text. */
  lemma {:induction false} PassSpaces(p: char, s: string)
    requires Spaced(true, p, s)
    ensures Spaced(false, p, Normalise(s))
    decreases |s|
  {
    if CrlfAt(s, 0) {
      assert s[1..][1..] == s[2..];
      PassSpaces(LF, s[2..]);
      assert Normalise(s)[1..] == Normalise(s[2..]);
    } else if s != [] {
      PassSpaces(s[0], s[1..]);
      NormaliseHead(s[1..]);
      assert Normalise(s)[1..] == Normalise(s[1..]);
    }
  }

  // ----- Thinning ----------------------------------------------------------------------------

  function Put(c: char, r: string): string {
    if c == CR && r != [] && r[0] == LF then r else [c] + r
  }

  /** `s` put before `r` from right to left, without the carriage returns that meet a line feed. */
  function ThinOnto(s: string, r: string): string {
    if s == [] then r else Put(s[0], ThinOnto(s[1..], r))
  }

  function Thin(s: string): string {
    ThinOnto(s, [])
  }

  lemma {:induction false} ThinConcat(a: string, b: string, r: string)
    ensures ThinOnto(a + b, r) == ThinOnto(a, ThinOnto(b, r))
  {
    if a == [] {
      assert a + b == b;
    } else {
      assert (a + b)[1..] == a[1..] + b;
      ThinConcat(a[1..], b, r);
    }
  }

  /** A pass before thinning changes nothing. */
  lemma {:induction false} ThinAfterPass(u: string, r: string)
    ensures ThinOnto(Normalise(u), r) == ThinOnto(u, r)
    decreases |u|
  {
    if CrlfAt(u, 0) {
      ThinAfterPass(u[2..], r);
      assert u[1..][1..] == u[2..];
      assert Normalise(u)[1..] == Normalise(u[2..]);
    } else if u != [] {
      ThinAfterPass(u[1..], r);
      assert Normalise(u)[1..] == Normalise(u[1..]);
    }
  }

  lemma ThinPassThen(u: string, v: string)
    ensures Thin(Normalise(u) + v) == Thin(u + v)
  {
    ThinConcat(Normalise(u), v, []);
    ThinConcat(u, v, []);
    ThinAfterPass(u, ThinOnto(v, []));
  }

  /** Thinning treats what comes before a line feed on its own. */
  lemma {:induction false} ThinSplits(a: string, r: string)
    ensures ThinOnto(a + [LF], r) == Thin(a + [LF]) + r
    ensures Thin(a + [LF]) != [] && Thin(a + [LF])[|Thin(a + [LF])| - 1] == LF
  {
    var s := a + [LF];
    if a == [] {
      assert s == [LF] && s[1..] == [] && ThinOnto(s, r) == [LF] + r && ThinOnto(s, []) == [LF];
    } else {
      assert s[1..] == a[1..] + [LF];
      ThinSplits(a[1..], r);
      var t := Thin(a[1..] + [LF]);
      assert [s[0]] + (t + r) == ([s[0]] + t) + r;
    }
  }

  lemma ThinHead(p: char, s: string)
    requires LineChar(p) && Spaced(false, p, s)
    ensures Thin(s) != [] && Thin(s)[0] == LF <==> s != [] && s[0] == LF
    decreases |s|
  {
    if s != [] && s[0] == CR {
      ThinHead(CR, s[1..]);
    }
  }

  /** Thinning a spaced text makes no new blank line. */
  lemma {:induction false} ThinKeepsUnbroken(p: char, s: string)
    requires Spaced(false, p, s) && FindBlank(s) == -1
    ensures FindBlank(Thin(s)) == -1
    decreases |s|
  {
    if s != [] {
      var rest := s[1..];
      ThinKeepsUnbroken(s[0], rest);
      if LineChar(s[0]) {
        ThinHead(s[0], rest);
      }
      var t := Thin(s);
      if t != Thin(rest) {
        assert t == [s[0]] + Thin(rest) && t[1..] == Thin(rest);
      }
    }
  }

  // ----- Lines -------------------------------------------------------------------------------

  /** Equal, or equal but for a final CR that does not follow another. */
  predicate SameLine(a: string, b: string) {
    a == b || (a == b + [CR] && (b == [] || b[|b| - 1] != CR))
  }

  ghost predicate SameLines(a: seq<string>, b: seq<string>) {
    |a| == |b| && forall i :: 0 <= i < |a| ==> SameLine(a[i], b[i])
  }

  lemma SameLinePrefixed(c: char, a: string, b: string)
    requires SameLine(a, b) && (a == b || b != [] || c != CR)
    ensures SameLine([c] + a, [c] + b)
  {
    if a != b {
      assert [c] + a == ([c] + b) + [CR];
    }
  }

  lemma SameLinesPrefixed(c: char, x: seq<string>, y: seq<string>)
    requires x != [] && SameLines(x, y) && (x[0] == [CR] && y[0] == [] ==> c != CR)
    ensures SameLines(if c == LF then [[]] + x else [[c] + x[0]] + x[1..],
                      if c == LF then [[]] + y else [[c] + y[0]] + y[1..])
  {
    assert SameLine(x[0], y[0]);
    SameLinePrefixed(c, x[0], y[0]);
  }

  lemma SameLineTaken(f: Fields, a: string, b: string)
    requires SameLine(a, b)
    ensures TakeLine(f, a) == TakeLine(f, b)
  {
    assert StripCr(a) == StripCr(b);
  }

  lemma {:induction false} SameLinesRead(f: Fields, a: seq<string>, b: seq<string>)
    requires SameLines(a, b)
    ensures Fold(TakeLine, f, a) == Fold(TakeLine, f, b)
    decreases |a|
  {
    if a != [] {
      SameLineTaken(f, a[0], b[0]);
      forall i | 0 <= i < |a[1..]| ensures SameLine(a[1..][i], b[1..][i]) {
        assert SameLine(a[i + 1], b[i + 1]);
      }
      SameLinesRead(TakeLine(f, a[0]), a[1..], b[1..]);
    }
  }

  lemma SplitCons(c: char, s: string)
    ensures var r := SplitLines(s);
            SplitLines([c] + s) == if c == LF then [[]] + r else [[c] + r[0]] + r[1..]
  {
    assert ([c] + s)[1..] == s;
  }

  /** A line of one CR that thinning empties is a CR LF. */
  lemma LoneCr(s: string)
    requires SplitLines(s)[0] == [CR] && SplitLines(Thin(s))[0] == []
    ensures CrlfAt(s, 0)
  {
    assert s[0] == CR && SplitLines(s[1..])[0] == [];
    assert [CR][1..] == [] && SplitLines([CR]) == [[CR]];
    assert Put(CR, []) == [CR] && Thin([CR]) == Put(CR, ThinOnto([], []));
    assert s != [CR];
    assert s[1..] != [];
  }

  /** Line by line, a spaced text and its thinned form differ by final carriage returns only. */
  lemma {:induction false} ThinKeepsLines(p: char, s: string)
    requires Spaced(false, p, s)
    ensures SameLines(SplitLines(s), SplitLines(Thin(s)))
    decreases |s|
  {
    if s != [] {
      var c, rest := s[0], s[1..];
      var x, y := SplitLines(rest), SplitLines(Thin(rest));
      ThinKeepsLines(c, rest);
      assert s == [c] + rest;
      if Thin(s) == [c] + Thin(rest) {
        if x[0] == [CR] && y[0] == [] {
          LoneCr(rest);
        }
        hide Thin, ThinOnto, Spaced;
        SplitCons(c, rest);
        SplitCons(c, Thin(rest));
        SameLinesPrefixed(c, x, y);
      } else {
        ThinHead(CR, rest);
        SplitCons(CR, rest);
        assert x[0] == [] && y[0] == [];
      }
    }
  }

  lemma {:induction false} SplitEnded(s: string)
    ensures SplitLines(s + [LF]) == SplitLines(s) + [[]]
  {
    if s == [] {
      assert s + [LF] == [LF] && [LF][1..] == [];
    } else {
      assert (s + [LF])[1..] == s[1..] + [LF];
      SplitEnded(s[1..]);
    }
  }

  /** A block and its thinned form give the same event. */
  lemma ThinBlockParses(block: string, thinned: string)
    requires Spaced(false, START, block + [LF]) && Thin(block + [LF]) == thinned + [LF]
    ensures ParseBlock(block) == ParseBlock(thinned)
  {
    ThinKeepsLines(START, block + [LF]);
    SplitEnded(block);
    SplitEnded(thinned);
    var a, b := SplitLines(block), SplitLines(thinned);
    forall i | 0 <= i < |a| ensures SameLine(a[i], b[i]) {
      assert SameLine((a + [[]])[i], (b + [[]])[i]);
    }
    SameLinesRead(NO_FIELDS, a, b);
  }

  lemma ThinTailParses(tail: string)
    requires Spaced(false, START, tail)
    ensures ParseBlock(tail) == ParseBlock(Thin(tail))
  {
    ThinKeepsLines(START, tail);
    SameLinesRead(NO_FIELDS, SplitLines(tail), SplitLines(Thin(tail)));
  }

  // ----- The reader ----------------------------------------------------------------------------

  /** The events of a text whose every carriage return before a line feed is dropped at once. */
  function ThinEvents(s: string): seq<SseEvent> {
    EventsOf(CutBlocks(Thin(s)))
  }

  /** Up to its end, a text without a blank line has none before the one that ends it. */
  lemma UnbrokenEnds(s: string)
    requires s != [] && s[|s| - 1] == LF && FindBlank(s) == -1
    ensures FindBlank(s + [LF]) == |s| - 1
  {
    var t := s + [LF];
    assert BlankAt(t, |s| - 1);
    FindBlankIsLeast(t, |s| - 1);
    var i := FindBlank(t);
    if i < |s| - 1 {
      FindBlankIsLeast(s, i);
      assert false;
    }
  }

  /** The text up to the first blank line has no blank line. */
  lemma UnbrokenBefore(n: string)
    requires FindBlank(n) != -1
    ensures var i := FindBlank(n); n[..i + 1] == n[..i] + [LF] && FindBlank(n[..i + 1]) == -1
  {
    var i := FindBlank(n);
    var j := FindBlank(n[..i + 1]);
    if j != -1 {
      FindBlankIsLeast(n, j);
      assert false;
    }
  }

  lemma ThinOverBlank(block: string, rest: string)
    ensures Thin(block + [LF] + ([LF] + rest)) == Thin(block + [LF]) + [LF] + Thin(rest)
  {
    var end := [LF] + rest;
    assert end[1..] == rest && Thin(end) == Put(LF, Thin(rest));
    hide Thin, ThinOnto;
    ThinThen(block + [LF], end);
    ThinSplits(block, [LF] + Thin(rest));
    ConcatAssociates(Thin(block + [LF]), [LF], Thin(rest));
  }

  lemma ThinThen(a: string, b: string)
    ensures Thin(a + b) == ThinOnto(a, Thin(b))
  {
    ThinConcat(a, b, []);
  }

  /** Thinned, a block without a blank line still ends at the blank line that follows it. */
  lemma ThinBlockCuts(block: string, r: string)
    requires Spaced(false, START, block + [LF]) && FindBlank(block + [LF]) == -1
    ensures var t := Thin(block + [LF]);
            t != [] && t[|t| - 1] == LF && CutBlocks(t + [LF] + r) == Then(Frames([t[..|t| - 1]], ""), CutBlocks(r))
  {
    hide Spaced, CutBlocks, FindBlank, Thin;
    var t := Thin(block + [LF]);
    ThinSplits(block, []);
    ThinKeepsUnbroken(START, block + [LF]);
    UnbrokenEnds(t);
    CutAtBlank(t + [LF], r);
    assert (t + [LF])[..|t| + 1] == t + [LF] && (t + [LF])[..|t| - 1] == t[..|t| - 1];
  }

  /** The first block of a text is the thinned block of the thinned text. */
  lemma ThinCutsFirst(n: string, w: string)
    requires FindBlank(n) != -1 && Spaced(false, START, n)
    ensures var i := FindBlank(n);
            exists thinned ::
              && CutBlocks(Thin(n + w)) == Then(Frames([thinned], ""), CutBlocks(Thin(n[i + 2..] + w)))
              && ParseBlock(n[..i]) == ParseBlock(thinned)
  {
    hide ParseBlock, Spaced, CutBlocks, Thin;
    var i := FindBlank(n);
    var block, rest := n[..i], n[i + 2..] + w;
    assert n == n[..i + 1] + n[i + 1..];
    SpacedBefore(false, START, n[..i + 1], n[i + 1..]);
    UnbrokenBefore(n);
    hide FindBlank;
    assert n + w == block + [LF] + ([LF] + rest);
    ThinOverBlank(block, rest);
    ThinBlockCuts(block, Thin(rest));
    var t := Thin(block + [LF]);
    assert t == t[..|t| - 1] + [LF];
    ThinBlockParses(block, t[..|t| - 1]);
  }

  /** What the reader has already cut is what the thinned text begins with. */
  lemma {:induction false} ThinResumes(n: string, w: string)
    requires Spaced(false, START, n)
    ensures var c := CutBlocks(n);
            ThinEvents(n + w) == Emit(c.blocks) + ThinEvents(c.tail + w)
    decreases |n|
  {
    hide ParseBlock, Spaced, Thin;
    var i := FindBlank(n);
    var c := CutBlocks(n);
    if i == -1 {
      assert Emit(c.blocks) + ThinEvents(c.tail + w) == ThinEvents(n + w);
    } else {
      var rest := n[i + 2..];
      assert n == n[..i + 1] + [LF] + rest;
      SpacedAfter(false, START, n[..i + 1], rest);
      ThinResumes(rest, w);
      ThinCutsFirst(n, w);
      var thinned :| CutBlocks(Thin(n + w)) == Then(Frames([thinned], ""), CutBlocks(Thin(rest + w)))
        && ParseBlock(n[..i]) == ParseBlock(thinned);
      EmitFirst(thinned, CutBlocks(Thin(rest + w)));
      EmitFirst(n[..i], CutBlocks(rest));
      var e := Optional(ParseBlock(thinned));
      ConcatAssociates(e, Emit(CutBlocks(rest).blocks), ThinEvents(CutBlocks(rest).tail + w));
    }
  }

  lemma EmitFirst(block: string, f: Frames)
    ensures Emit(Then(Frames([block], ""), f).blocks) == Optional(ParseBlock(block)) + Emit(f.blocks)
    ensures EventsOf(Then(Frames([block], ""), f)) == Optional(ParseBlock(block)) + EventsOf(f)
  {
    hide ParseBlock;
    MapSomeConcat(ParseBlock, [block], f.blocks);
    MapSomeOne(ParseBlock, block);
    ConcatAssociates(Optional(ParseBlock(block)), Emit(f.blocks), Emit([f.tail]));
  }

  lemma {:induction false} TailStaysSpaced(doubled: bool, n: string, w: string)
    requires Spaced(doubled, START, n + w)
    ensures Spaced(doubled, START, CutBlocks(n).tail + w)
    decreases |n|
  {
    hide Spaced;
    var i := FindBlank(n);
    if i != -1 {
      var rest := n[i + 2..];
      assert n + w == n[..i + 1] + [LF] + (rest + w);
      SpacedAfter(doubled, START, n[..i + 1], rest + w);
      TailStaysSpaced(doubled, rest, w);
    }
  }

  /** After the last chunk nothing is left to thin. */
  lemma ThinEnds(b: string)
    requires Spaced(true, START, b)
    ensures EventsOf(Feed(b, [])) == ThinEvents(b)
  {
    hide ParseBlock, Spaced, Thin, Normalise;
    var n := Normalise(b);
    var c := CutBlocks(n);
    PassSpaces(START, b);
    ThinPassThen(b, []);
    assert n + [] == n && b + [] == b && c.tail + [] == c.tail;
    ThinResumes(n, []);
    TailStaysSpaced(false, n, []);
    CutTailHasNoBlank(n);
    ThinKeepsUnbroken(START, c.tail);
    NothingToDrain(Thin(c.tail));
    ThinTailParses(c.tail);
    MapSomeOne(ParseBlock, c.tail);
    MapSomeOne(ParseBlock, Thin(c.tail));
  }

  /** The invariant of the read loop: what is buffered and to come decides the events still to come. */
  lemma {:induction false} FeedThins(b: string, chunks: seq<string>)
    requires Spaced(true, START, b + Concat(chunks))
    ensures EventsOf(Feed(b, chunks)) == ThinEvents(b + Concat(chunks))
    decreases |chunks|
  {
    hide ParseBlock, Spaced, Thin, Normalise, CutBlocks, ThinEvents;
    if chunks == [] {
      assert b + Concat(chunks) == b;
      ThinEnds(b);
    } else {
      var n, w := Normalise(b + chunks[0]), Concat(chunks[1..]);
      assert b + Concat(chunks) == (b + chunks[0]) + w;
      PassKeepsSpaced(START, b + chunks[0], w);
      SpacedBefore(true, START, b + chunks[0], w);
      PassSpaces(START, b + chunks[0]);
      TailStaysSpaced(true, n, w);
      FeedThins(CutBlocks(n).tail, chunks[1..]);
      ThinResumes(n, w);
      ThinPassThenEvents(b + chunks[0], w);
      EventsThen(CutBlocks(n), Feed(CutBlocks(n).tail, chunks[1..]));
    }
  }

  lemma ThinPassThenEvents(u: string, v: string)
    ensures ThinEvents(Normalise(u) + v) == ThinEvents(u + v)
  {
    ThinPassThen(u, v);
  }

  lemma EventsThen(a: Frames, b: Frames)
    ensures EventsOf(Then(a, b)) == Emit(a.blocks) + EventsOf(b)
  {
    hide ParseBlock;
    MapSomeConcat(ParseBlock, a.blocks, b.blocks);
    ConcatAssociates(Emit(a.blocks), Emit(b.blocks), Emit([b.tail]));
  }

  /**
    However a text is cut, its events are the same as long as no CR CR LF follows a CR or an LF: no
    CR CR CR LF, and no line but the first is exactly two carriage returns.
   */
  lemma EventsTolerateCrCrLf(chunks: seq<string>)
    requires CrCrLfOnlyAfterText(Concat(chunks))
    ensures EventsOf(Feed("", chunks)) == ThinEvents(Concat(chunks))
    ensures EventsOf(Feed("", chunks)) == EventsOf(Feed("", [Concat(chunks)]))
  {
    hide ParseBlock, Spaced, ThinEvents, Feed;
    var t := Concat(chunks);
    OnlyAfterTextIsSpaced(t);
    assert "" + t == t;
    FeedThins("", chunks);
    ConcatOne(t);
    FeedThins("", [t]);
  }

  // ----- Where the tolerance ends --------------------------------------------------------------

  function Crs(k: nat): string {
    if k == 0 then [] else Crs(k - 1) + [CR]
  }

  lemma {:induction false} CrsAre(k: nat)
    ensures |Crs(k)| == k && forall c :: c in Crs(k) ==> c == CR
  {
    if k > 0 {
      CrsAre(k - 1);
    }
  }

  /** One data line that ends in `k` carriage returns, and the blank line. */
  function CrEnded(value: string, k: nat): string {
    DataLine(value) + Crs(k) + [LF, LF]
  }

  lemma {:induction false} NormaliseLineEnd(line: string, rest: string)
    requires LF !in line
    ensures Normalise(line + [CR, LF] + rest) == line + [LF] + Normalise(rest)
  {
    var s := line + [CR, LF] + rest;
    if line == [] {
      assert s[2..] == rest;
    } else {
      NormaliseLineEnd(line[1..], rest);
      assert s[1..] == line[1..] + [CR, LF] + rest;
      assert !CrlfAt(s, 0);
    }
  }

  lemma LineIsOneBlock(line: string)
    requires LF !in line
    ensures CutBlocks(line + [LF]) == Frames([], line + [LF])
    ensures CutBlocks(line + [LF] + [LF]) == Frames([line], "")
  {
    assert forall i: int :: !BlankAt(line + [LF], i);
    assert line + [LF] + [LF] == line + [LF, LF];
    BlankAfterLine(line, [LF]);
    CutsAtEnd(line);
  }

  lemma CrEndedParses(value: string)
    requires LF !in value
    ensures ParseBlock(DataLine(value) + [CR]) == Some(SseEvent("message", value))
  {
    var line := DataLine(value) + [CR];
    SplitOfLine(line);
    FoldOne(TakeLine, NO_FIELDS, line);
    assert "data" + ": " + value == DataLine(value);
    FieldLineReads("data", value);
    assert StripCr(line) == DataLine(value) && "data" in {"event", "data"};
    assert TakeLine(NO_FIELDS, line).data == [value];
  }

  /** Uncut, one carriage return is lost to the pass and one to the line loop. */
  lemma UncutLoses(line: string)
    requires LF !in line
    ensures Feed("", [line + [CR, LF] + [LF]]) == Frames([line], "")
  {
    var t := line + [CR, LF] + [LF];
    NormaliseLineEnd(line, [LF]);
    assert Normalise([LF]) == [LF] by { NormaliseCons(LF, []); }
    LineIsOneBlock(line);
    assert "" + t == t;
    FeedOne("", t, Frames([line], ""));
  }

  /** Cut before the blank line, a second pass takes one more. */
  lemma CutLosesMore(line: string)
    requires LF !in line
    ensures Feed("", [line + [CR] + [CR, LF], [LF]]) == Frames([line], "")
  {
    var a, n := line + [CR] + [CR, LF], line + [CR] + [LF];
    NormaliseLineEnd(line + [CR], []);
    assert a + [] == a && n + [] == n;
    LineIsOneBlock(line + [CR]);
    FeedTwo(a, [LF]);
    assert n + [LF] == line + [CR, LF] + [LF];
    NormaliseLineEnd(line, [LF]);
    assert Normalise([LF]) == [LF] by { NormaliseCons(LF, []); }
    LineIsOneBlock(line);
    FeedOne(n, [LF], Frames([line], ""));
    assert [] + [line] == [line];
  }

  /** Three carriage returns before a line feed leave a different value behind when the text is cut there. */
  lemma CutChangesValue(value: string)
    requires LF !in value
    ensures var line := DataLine(value) + [CR];
            EventsOf(Feed("", [line + [CR] + [CR, LF], [LF]])) != EventsOf(Feed("", [line + [CR] + [CR, LF] + [LF]]))
  {
    var line := DataLine(value) + [CR];
    CutLosesMore(line);
    UncutLoses(line + [CR]);
    CrEndedParses(value);
    CrEndedParses(value + [CR]);
    assert DataLine(value + [CR]) + [CR] == line + [CR];
    hide ParseBlock, Feed, DataLine;
    MapSomeOne(ParseBlock, line);
    MapSomeOne(ParseBlock, line + [CR]);
    EmptyBlockIsSilent();
    MapSomeOne(ParseBlock, "");
    assert value != value + [CR];
  }

  lemma FewCrsAreTolerated(value: string, k: nat)
    requires CR !in value && LF !in value && k <= 2
    ensures CrCrLfOnlyAfterText(CrEnded(value, k))
  {
    CrsAre(k);
    var t := CrEnded(value, k);
    var n := |DataLine(value)|;
    assert CR !in DataLine(value) && t[..n] == DataLine(value);
    forall i: int | CrCrLfAt(t, i) && i > 0 ensures !LineChar(t[i - 1]) {
      assert t[i] !in t[..n];
      assert t[n..] == Crs(k) + [LF, LF] && i == n;
      assert t[i - 1] == DataLine(value)[n - 1];
    }
  }

  /** For a data line the limit is exact: cutting never matters as long as it ends in at most two. */
  lemma FinalCrsToleratedIff(value: string, k: nat)
    requires CR !in value && LF !in value
    ensures (forall chunks: seq<string> :: Concat(chunks) == CrEnded(value, k)
              ==> EventsOf(Feed("", chunks)) == EventsOf(Feed("", [CrEnded(value, k)])))
       <==> k <= 2
  {
    hide DataLine, ParseBlock, Feed, EventsOf;
    var t := CrEnded(value, k);
    if k <= 2 {
      FewCrsAreTolerated(value, k);
      forall chunks: seq<string> | Concat(chunks) == t
        ensures EventsOf(Feed("", chunks)) == EventsOf(Feed("", [t]))
      {
        EventsTolerateCrCrLf(chunks);
      }
    } else {
      var longer := value + Crs(k - 3);
      CrsAre(k - 3);
      var a := DataLine(longer) + [CR] + [CR] + [CR, LF];
      CutChangesValue(longer);
      CrEndedText(value, k);
      ConcatTwo(a, [LF]);
    }
  }

  lemma CrEndedText(value: string, k: nat)
    requires k >= 3
    ensures CrEnded(value, k) == DataLine(value + Crs(k - 3)) + [CR] + [CR] + [CR, LF] + [LF]
  {
    var c := Crs(k - 3);
    assert Crs(k) == Crs(k - 1) + [CR] && Crs(k - 1) == Crs(k - 2) + [CR] && Crs(k - 2) == c + [CR];
  }

  lemma ConcatTwo(a: string, z: string)
    ensures Concat([a, z]) == a + z
  {
    ConcatOne(z);
    assert [a, z][1..] == [z];
  }
}
