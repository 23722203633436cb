/**
  Every way of cutting a text into chunks reads some text between two extremes: what a single chunk
  leaves of it, and its thinned form. Both are reached.
 */
module SseReadings {
  import opened Base
  import opened SseFraming
  import opened SseEvents
  import opened SseTolerance

  // ----- Dropping carriage returns -------------------------------------------------------------

  /** `y` is `x` without some of the carriage returns that stand before a line feed. */
  predicate Thinner(x: string, y: string)
    decreases |x|
  {
    if x == [] then y == []
    else
      || (y != [] && x[0] == y[0] && Thinner(x[1..], y[1..]))
      || (x[0] == CR && y != [] && y[0] == LF && Thinner(x[1..], y))
  }

  lemma {:induction false} ThinnerThanItself(x: string)
    ensures Thinner(x, x)
  {
    if x != [] {
      ThinnerThanItself(x[1..]);
    }
  }

  lemma {:induction false} ThinnerTwice(x: string, y: string, z: string)
    requires Thinner(x, y) && Thinner(y, z)
    ensures Thinner(x, z)
    decreases |x|, |y|
  {
    if x != [] {
      if x[0] == y[0] && Thinner(x[1..], y[1..]) {
        if y[0] == z[0] && Thinner(y[1..], z[1..]) {
          ThinnerTwice(x[1..], y[1..], z[1..]);
        } else {
          ThinnerTwice(x[1..], y[1..], z);
        }
      } else {
        ThinnerTwice(x[1..], y, z);
      }
    }
  }

  lemma {:induction false} ThinnerJoined(a: string, b: string, c: string, d: string)
    requires Thinner(a, b) && Thinner(c, d)
    ensures Thinner(a + c, b + d)
    decreases |a|
  {
    if a == [] {
      assert a + c == c && b + d == d;
    } else if b != [] && a[0] == b[0] && Thinner(a[1..], b[1..]) {
      ThinnerJoined(a[1..], b[1..], c, d);
      assert (a + c)[1..] == a[1..] + c && (b + d)[1..] == b[1..] + d;
    } else {
      ThinnerJoined(a[1..], b, c, d);
      assert (a + c)[1..] == a[1..] + c;
    }
  }

  lemma ThinnerAfter(p: string, a: string, b: string)
    requires Thinner(a, b)
    ensures Thinner(p + a, p + b)
  {
    ThinnerThanItself(p);
    ThinnerJoined(p, p, a, b);
  }

  lemma {:induction false} PassIsThinner(x: string)
    ensures Thinner(x, Normalise(x))
    decreases |x|
  {
    if CrlfAt(x, 0) {
      PassIsThinner(x[2..]);
      assert x[1..][1..] == x[2..] && Normalise(x)[1..] == Normalise(x[2..]);
      assert Thinner(x[1..], Normalise(x));
    } else if x != [] {
      PassIsThinner(x[1..]);
      assert Normalise(x)[1..] == Normalise(x[1..]);
    }
  }

  lemma {:induction false} ThinIsThinner(x: string)
    ensures Thinner(x, Thin(x))
  {
    if x != [] {
      ThinIsThinner(x[1..]);
      var r := Thin(x[1..]);
      if Thin(x) != r {
        assert Thin(x) == [x[0]] + r && Thin(x)[1..] == r;
      }
    }
  }

  lemma {:induction false} ThinnerThinsAlike(x: string, y: string)
    requires Thinner(x, y)
    ensures Thin(x) == Thin(y)
    decreases |x|
  {
    if x != [] {
      if x[0] == y[0] && Thinner(x[1..], y[1..]) {
        ThinnerThinsAlike(x[1..], y[1..]);
      } else {
        ThinnerThinsAlike(x[1..], y);
      }
    }
  }

  // ----- One more pass over the tail -------------------------------------------------------------

  /** `z` with one more pass over what follows its last blank line. */
  function PassTail(z: string): string {
    if FindBlank(z) == -1 then Normalise(z) else [z[0]] + PassTail(z[1..])
  }

  lemma {:induction false} PassTailIsThinner(z: string)
    ensures Thinner(z, PassTail(z))
  {
    if FindBlank(z) == -1 {
      PassIsThinner(z);
    } else {
      PassTailIsThinner(z[1..]);
    }
  }

  lemma FindBlankCons(c: char, s: string)
    ensures FindBlank([c] + s) == -1 <==> FindBlank(s) == -1 && !(c == LF && s != [] && s[0] == LF)
  {
    assert ([c] + s)[1..] == s;
  }

  lemma PassTailOfLf(r: string)
    ensures PassTail([LF] + r) == [LF] + PassTail(r)
  {
    assert ([LF] + r)[1..] == r;
    if FindBlank([LF] + r) == -1 {
      FindBlankCons(LF, r);
      NormaliseCons(LF, r);
    }
  }

  /** Nothing before a blank line is passed again. */
  lemma {:induction false} PassTailAfterBlank(a: string, r: string)
    ensures PassTail(a + [LF, LF] + r) == a + [LF, LF] + PassTail(r)
  {
    var z := a + [LF, LF] + r;
    assert BlankAt(z, |a|);
    FindBlankIsLeast(z, |a|);
    if a == [] {
      assert z[1..] == [LF] + r && z == [LF, LF] + r;
      PassTailOfLf(r);
      assert [LF] + ([LF] + PassTail(r)) == a + [LF, LF] + PassTail(r);
    } else {
      assert z[1..] == a[1..] + [LF, LF] + r;
      PassTailAfterBlank(a[1..], r);
      assert [a[0]] + (a[1..] + [LF, LF] + PassTail(r)) == a + [LF, LF] + PassTail(r);
    }
  }

  /** The text of the blocks already cut, blank lines included. */
  function Drained(n: string): string
    decreases |n|
  {
    var i := FindBlank(n);
    if i == -1 then "" else n[..i] + [LF, LF] + Drained(n[i + 2..])
  }

  lemma FirstCut(n: string)
    requires FindBlank(n) != -1
    ensures var i := FindBlank(n);
            && n[..i + 2] == n[..i] + [LF, LF] && n == n[..i] + [LF, LF] + n[i + 2..]
            && CutBlocks(n) == Then(Frames([n[..i]], ""), CutBlocks(n[i + 2..]))
            && Drained(n) == n[..i] + [LF, LF] + Drained(n[i + 2..])
  {
    AtBlank(n, FindBlank(n));
    hide FindBlank;
  }

  lemma AtBlank(n: string, i: int)
    requires BlankAt(n, i)
    ensures n[..i + 2] == n[..i] + [LF, LF] && n == n[..i] + [LF, LF] + n[i + 2..]
  {
    assert n == n[..i + 2] + n[i + 2..];
  }

  lemma {:induction false} DrainedThenTail(n: string)
    ensures n == Drained(n) + CutBlocks(n).tail
    decreases |n|
  {
    var i := FindBlank(n);
    if i != -1 {
      var rest := n[i + 2..];
      FirstCut(n);
      DrainedThenTail(rest);
      hide CutBlocks, Drained, FindBlank;
      ConcatAssociates(n[..i] + [LF, LF], Drained(rest), CutBlocks(rest).tail);
    }
  }

  /** Whatever follows, the blocks already cut stay as they are. */
  lemma {:induction false} DrainedCuts(n: string, z: string)
    ensures CutBlocks(Drained(n) + z) == Then(Frames(CutBlocks(n).blocks, ""), CutBlocks(z))
    decreases |n|
  {
    var i := FindBlank(n);
    if i == -1 {
      assert Drained(n) + z == z && [] + CutBlocks(z).blocks == CutBlocks(z).blocks;
    } else {
      var rest := n[i + 2..];
      FirstCut(n);
      DrainedCuts(rest, z);
      CutAtBlank(n, Drained(rest) + z);
      hide CutBlocks, Drained, FindBlank;
      ConcatAssociates(n[..i] + [LF, LF], Drained(rest), z);
      ThenAssociates(Frames([n[..i]], ""), Frames(CutBlocks(rest).blocks, ""), CutBlocks(z));
    }
  }

  lemma {:induction false} PassTailOfDrained(n: string, z: string)
    ensures PassTail(Drained(n) + z) == Drained(n) + PassTail(z)
    decreases |n|
  {
    var i := FindBlank(n);
    if i == -1 {
      assert Drained(n) + z == z;
    } else {
      var rest := n[i + 2..];
      FirstCut(n);
      PassTailOfDrained(rest, z);
      hide CutBlocks, Drained, FindBlank;
      PassTailAfterBlank(n[..i], Drained(rest) + z);
      ConcatAssociates(n[..i] + [LF, LF], Drained(rest), z);
      ConcatAssociates(n[..i] + [LF, LF], Drained(rest), PassTail(z));
    }
  }

  /** What the reader reads of a text in one chunk: one pass, and one more over the tail. */
  function Uncut(t: string): string {
    PassTail(Normalise(t))
  }

  lemma UncutIsRead(b: string, c: string)
    ensures Feed(b, [c]) == CutBlocks(Uncut(b + c))
  {
    var n := Normalise(b + c);
    var f := CutBlocks(n);
    assert [c][1..] == [];
    DrainedThenTail(n);
    PassTailOfDrained(n, f.tail);
    CutTailHasNoBlank(n);
    DrainedCuts(n, Normalise(f.tail));
  }

  // ----- Two chunks against one --------------------------------------------------------------------

  /** The cut between two texts separates a CR from its LF. */
  predicate SplitsCrlf(u: string, v: string) {
    u != [] && u[|u| - 1] == CR && v != [] && v[0] == LF
  }

  lemma {:induction false} PassOfBoth(u: string, v: string)
    requires !SplitsCrlf(u, v)
    ensures Normalise(u + v) == Normalise(u) + Normalise(v)
    decreases |u|
  {
    if u == [] {
      assert u + v == v;
    } else {
      var k := if CrlfAt(u, 0) then 2 else 1;
      assert (u + v)[k..] == u[k..] + v && CrlfAt(u + v, 0) == CrlfAt(u, 0);
      PassOfBoth(u[k..], v);
    }
  }

  lemma PassOverSplit(u: string, v: string)
    ensures Normalise(u + [CR] + ([LF] + v)) == Normalise(u) + ([LF] + Normalise(v))
  {
    assert u + [CR] + ([LF] + v) == u + ([CR, LF] + v);
    PassOfBoth(u, [CR, LF] + v);
    NormalisePair(v);
  }

  lemma PassOfFinalCr(u: string)
    ensures Normalise(u + [CR]) == Normalise(u) + [CR]
  {
    PassOfBoth(u, [CR]);
    NormaliseCons(CR, []);
    assert [CR] + [] == [CR];
  }

  lemma {:induction false} PassKeepsFinalLf(u: string)
    requires u != []
    ensures Normalise(u) != [] && (Normalise(u)[|Normalise(u)| - 1] == LF <==> u[|u| - 1] == LF)
    ensures Normalise(u)[|Normalise(u)| - 1] == CR <==> u[|u| - 1] == CR
    decreases |u|
  {
    var k := if CrlfAt(u, 0) then 2 else 1;
    if |u| > k {
      PassKeepsFinalLf(u[k..]);
    }
  }

  /** Passing a prefix first, all but what of it is already cut, only drops more. */
  lemma PassAfterPass(p: string, z: string, a: string, q: string)
    requires Normalise(p) == a + q && (a == [] || a[|a| - 1] == LF)
    ensures Thinner(Normalise(p + z), a + Normalise(q + z))
  {
    hide Normalise, Thinner;
    if SplitsCrlf(p, z) {
      var p0, z1 := p[..|p| - 1], z[1..];
      assert p == p0 + [CR] && z == [LF] + z1;
      PassOverSplit(p0, z1);
      PassOfFinalCr(p0);
      var n := Normalise(p);
      assert n == Normalise(p0) + [CR];
      assert q != [] by {
        assert q == [] ==> n == a;
      }
      var q0 := q[..|q| - 1];
      assert q[|q| - 1] == n[|n| - 1] == CR;
      assert q == q0 + [CR];
      assert Normalise(p0) == n[..|n| - 1] == a + q0;
      PassOverSplit(q0, z1);
      ThinnerTail(a, q0, [LF] + Normalise(z1));
    } else {
      PassOfBoth(p, z);
      if p != [] {
        PassKeepsFinalLf(p);
      } else {
        assert Normalise(p) == [] by { EmptyPass(); }
      }
      assert !SplitsCrlf(q, z) by {
        assert q != [] ==> q[|q| - 1] == (a + q)[|a + q| - 1];
      }
      PassOfBoth(q, z);
      ThinnerTail(a, q, Normalise(z));
    }
  }

  lemma EmptyPass()
    ensures Normalise("") == ""
  {
  }

  lemma ThinnerTail(a: string, q: string, z: string)
    ensures Thinner((a + q) + z, a + (Normalise(q) + z))
  {
    PassIsThinner(q);
    ThinnerThanItself(z);
    ThinnerJoined(q, Normalise(q), z, z);
    ThinnerAfter(a, q + z, Normalise(q) + z);
    ConcatAssociates(a, q, z);
  }

  lemma BlankInEither(p: string, z: string, i: int)
    requires BlankAt(p + z, i)
    ensures BlankAt(p, i) || BlankAt(z, i - |p|) || (i == |p| - 1 && p[i] == LF && z[0] == LF)
  {
    var s := p + z;
    assert forall j :: 0 <= j < |s| ==> s[j] == if j < |p| then p[j] else z[j - |p|];
  }

  lemma FindBlankJoined(p: string, z: string)
    requires FindBlank(p) == -1 && FindBlank(z) == -1 && FindBlank(p + z) != -1
    ensures p != [] && p[|p| - 1] == LF && z != [] && z[0] == LF
  {
    var i := FindBlank(p + z);
    BlankInEither(p, z, i);
    hide FindBlank;
    if BlankAt(p, i) {
      FindBlankIsLeast(p, i);
    }
    if BlankAt(z, i - |p|) {
      FindBlankIsLeast(z, i - |p|);
    }
  }

  lemma {:induction false} PassTailSkips(p: string, z: string)
    requires FindBlank(z) != -1
    ensures PassTail(p + z) == p + PassTail(z)
  {
    if p == [] {
      assert p + z == z;
    } else {
      PassTailSkips(p[1..], z);
      assert (p + z)[1..] == p[1..] + z;
      assert BlankAt(p + z, |p| + FindBlank(z));
      FindBlankIsLeast(p + z, |p| + FindBlank(z));
    }
  }

  /** Without a blank line in `z` or before it, the last blank line of `p` decides what is passed. */
  lemma {:induction false} PassTailSplits(p: string, z: string) returns (a: string, q: string)
    requires FindBlank(z) == -1 && !(p != [] && p[|p| - 1] == LF && z != [] && z[0] == LF)
    ensures p == a + q && (a == [] || a[|a| - 1] == LF) && PassTail(p + z) == a + Normalise(q + z)
    ensures a == [] ==> FindBlank(p + z) == -1
  {
    if FindBlank(p + z) == -1 {
      a, q := [], p;
    } else {
      assert p == [] ==> p + z == z;
      var c, rest := p[0], p[1..];
      ConcatAssociates([c], rest, z);
      assert p == [c] + rest;
      FindBlankCons(c, rest + z);
      PassTailCons(c, rest + z);
      hide FindBlank, PassTail;
      var b;
      b, q := PassTailSplits(rest, z);
      a := [c] + b;
      ConcatAssociates([c], b, q);
      ConcatAssociates([c], b, Normalise(q + z));
    }
  }

  lemma PassTailCons(c: char, s: string)
    requires FindBlank([c] + s) != -1
    ensures PassTail([c] + s) == [c] + PassTail(s)
  {
    assert ([c] + s)[1..] == s;
  }

  /** A pass over what the buffer held before the next chunk only drops more. */
  lemma PassTailAfterPass(p: string, z: string)
    requires FindBlank(p) == -1
    ensures Thinner(PassTail(p + z), PassTail(Normalise(p) + z))
  {
    if FindBlank(z) != -1 {
      PassTailSkips(p, z);
      PassTailSkips(Normalise(p), z);
      PassIsThinner(p);
      ThinnerThanItself(PassTail(z));
      ThinnerJoined(p, Normalise(p), PassTail(z), PassTail(z));
    } else if p != [] && p[|p| - 1] == LF && z != [] && z[0] == LF {
      PassKeepsFinalLf(p);
      PassIsThinner(p);
      PassTailAtSeam(p, z);
      PassTailAtSeam(Normalise(p), z);
      ThinnerThanItself(Normalise(z));
      ThinnerJoined(p, Normalise(p), Normalise(z), Normalise(z));
    } else {
      if FindBlank(p + z) != -1 {
        FindBlankJoined(p, z);
      }
      if p != [] {
        PassKeepsFinalLf(p);
      }
      var a, q := PassTailSplits(Normalise(p), z);
      PassAfterPass(p, z, a, q);
    }
  }

  lemma TwoLineEnds(a: string, r: string)
    ensures a + [LF, LF] + r == (a + [LF]) + ([LF] + r)
  {
  }

  lemma PassTailAtSeam(p: string, z: string)
    requires p != [] && p[|p| - 1] == LF && z != [] && z[0] == LF && FindBlank(z) == -1
    ensures PassTail(p + z) == p + Normalise(z)
  {
    var a, r := p[..|p| - 1], z[1..];
    assert p == a + [LF] && z == [LF] + r;
    FindBlankCons(LF, r);
    NormaliseCons(LF, r);
    assert PassTail(r) == Normalise(r);
    hide Normalise, PassTail, FindBlank;
    PassTailAfterBlank(a, r);
    TwoLineEnds(a, r);
    TwoLineEnds(a, Normalise(r));
  }

  lemma LastOfTail(d: string, tail: string)
    requires (d == [] || d[|d| - 1] == LF) && d + tail != []
    ensures (d + tail)[|d + tail| - 1] == CR ==> tail != [] && tail == tail[..|tail| - 1] + [CR]
    ensures tail != [] ==> tail[|tail| - 1] == (d + tail)[|d + tail| - 1]
  {
    assert tail == [] ==> d + tail == d;
  }

  lemma TwoChunksAtCrlf(y: string, r: string)
    ensures var n := Normalise(y + [CR]);
            Thinner(Uncut(y + [CR] + ([LF] + r)), Drained(n) + Uncut(CutBlocks(n).tail + ([LF] + r)))
  {
    var n := Normalise(y + [CR]);
    var d, tail, z := Drained(n), CutBlocks(n).tail, [LF] + Normalise(r);
    DrainedThenTail(n);
    CutTailHasNoBlank(n);
    DrainedEndsInLf(n);
    hide Normalise, CutBlocks, Drained, PassTail, Thinner, FindBlank;
    PassOverSplit(y, r);
    PassOfFinalCr(y);
    LastOfTail(d, tail);
    var t := tail[..|tail| - 1];
    assert Normalise(y) == n[..|n| - 1] == d + t;
    ConcatAssociates(d, t, z);
    PassTailOfDrained(n, t + z);
    PassOverSplit(t, r);
    UnbrokenPrefix(t, [CR]);
    PassTailAfterPass(t, z);
    ThinnerAfter(d, PassTail(t + z), PassTail(Normalise(t) + z));
  }

  lemma TwoChunksElsewhere(y: string, r: string)
    requires !SplitsCrlf(y, r)
    ensures var n := Normalise(y); Thinner(Uncut(y + r), Drained(n) + Uncut(CutBlocks(n).tail + r))
  {
    var n := Normalise(y);
    var d, tail, z := Drained(n), CutBlocks(n).tail, Normalise(r);
    DrainedThenTail(n);
    CutTailHasNoBlank(n);
    DrainedEndsInLf(n);
    EmptyPass();
    hide Normalise, CutBlocks, Drained, PassTail, Thinner, FindBlank;
    PassOfBoth(y, r);
    ConcatAssociates(d, tail, z);
    PassTailOfDrained(n, tail + z);
    if tail != [] {
      LastOfTail(d, tail);
      PassKeepsFinalLf(y);
    }
    PassOfBoth(tail, r);
    PassTailAfterPass(tail, z);
    ThinnerAfter(d, PassTail(tail + z), PassTail(Normalise(tail) + z));
  }

  /** Read as two chunks, a text loses no fewer carriage returns than read as one. */
  lemma TwoChunksDropMore(y: string, r: string)
    ensures var n := Normalise(y); Thinner(Uncut(y + r), Drained(n) + Uncut(CutBlocks(n).tail + r))
  {
    hide Normalise, CutBlocks, Drained, Uncut, Thinner;
    if SplitsCrlf(y, r) {
      var y0, r1 := y[..|y| - 1], r[1..];
      assert y == y0 + [CR] && r == [LF] + r1;
      TwoChunksAtCrlf(y0, r1);
    } else {
      TwoChunksElsewhere(y, r);
    }
  }

  lemma {:induction false} DrainedEndsInLf(n: string)
    ensures Drained(n) == [] || Drained(n)[|Drained(n)| - 1] == LF
    decreases |n|
  {
    if FindBlank(n) != -1 {
      DrainedEndsInLf(n[FindBlank(n) + 2..]);
    }
  }

  lemma UnbrokenPrefix(p: string, z: string)
    requires FindBlank(p + z) == -1
    ensures FindBlank(p) == -1
  {
    if FindBlank(p) != -1 {
      assert BlankAt(p + z, FindBlank(p));
      FindBlankIsLeast(p + z, FindBlank(p));
      assert false;
    }
  }

  /** Every reading is the cut of a text between the uncut reading and the thinned text. */
  lemma {:induction false} ReadingIsThinner(b: string, chunks: seq<string>) returns (w: string)
    requires chunks != []
    ensures Feed(b, chunks) == CutBlocks(w)
    ensures Thinner(Uncut(b + Concat(chunks)), w) && Thin(w) == Thin(b + Concat(chunks))
    decreases |chunks|
  {
    hide CutBlocks, Normalise, Drained, PassTail, Thinner, Thin, Uncut;
    var y, rest := b + chunks[0], chunks[1..];
    var n := Normalise(y);
    var tail := CutBlocks(n).tail;
    if rest == [] {
      assert chunks == [chunks[0]];
      ConcatOne(chunks[0]);
      w := Uncut(y);
      UncutIsRead(b, chunks[0]);
      ThinnerThanItself(w);
      UncutThinsAlike(y);
    } else {
      var v := ReadingIsThinner(tail, rest);
      w := Drained(n) + v;
      DrainedCuts(n, v);
      TwoChunksDropMore(y, Concat(rest));
      ThinnerAfter(Drained(n), Uncut(tail + Concat(rest)), v);
      ThinnerTwice(Uncut(y + Concat(rest)), Drained(n) + Uncut(tail + Concat(rest)), w);
      assert b + Concat(chunks) == y + Concat(rest);
      ThinnerThinsAlike(Uncut(y + Concat(rest)), w);
      UncutThinsAlike(y + Concat(rest));
    }
  }

  lemma UncutThinsAlike(t: string)
    ensures Thinner(t, Uncut(t)) && Thin(Uncut(t)) == Thin(t)
  {
    PassIsThinner(t);
    PassTailIsThinner(Normalise(t));
    ThinnerTwice(t, Normalise(t), Uncut(t));
    ThinnerThinsAlike(t, Uncut(t));
  }

  // ----- Reading slowly --------------------------------------------------------------------------------

  function Idle(m: nat): seq<string> {
    if m == 0 then [] else [""] + Idle(m - 1)
  }

  /** One character at a time, with `m` empty chunks after each. */
  function Slowly(v: string, m: nat): seq<string> {
    if v == [] then [] else [[v[0]]] + Idle(m) + Slowly(v[1..], m)
  }

  lemma {:induction false} ConcatJoined(a: seq<string>, b: seq<string>)
    ensures Concat(a + b) == Concat(a) + Concat(b)
  {
    if a == [] {
      assert a + b == b;
    } else {
      assert (a + b)[1..] == a[1..] + b;
      ConcatJoined(a[1..], b);
    }
  }

  lemma {:induction false} SlowlyIsTheText(v: string, m: nat)
    ensures Concat(Slowly(v, m)) == v
  {
    if v != [] {
      SlowlyIsTheText(v[1..], m);
      IdleIsEmpty(m);
      ConcatJoined([[v[0]]], Idle(m));
      ConcatJoined([[v[0]]] + Idle(m), Slowly(v[1..], m));
      ConcatOne([v[0]]);
      assert [v[0]] + [] + v[1..] == v;
    }
  }

  lemma {:induction false} IdleIsEmpty(m: nat)
    ensures Concat(Idle(m)) == ""
  {
    if m > 0 {
      IdleIsEmpty(m - 1);
    }
  }

  /** The buffer as it stands, passed and drained, and then `m` more times before the rest comes. */
  function Passed(b: string, m: nat, rest: seq<string>): Frames {
    Feed("", [b] + Idle(m) + rest)
  }

  lemma FeedStarts(b: string, c: string, rest: seq<string>)
    ensures Feed(b, [c] + rest) == Feed("", [b + c] + rest)
  {
    var one, two := [c] + rest, [b + c] + rest;
    assert one[1..] == rest && two[1..] == rest && "" + (b + c) == b + c;
  }

  lemma PassedOnce(b: string, m: nat, rest: seq<string>)
    ensures var f := CutBlocks(Normalise(b));
            Passed(b, m, rest) == Then(f, if m == 0 then Feed(f.tail, rest) else Passed(f.tail, m - 1, rest))
  {
    hide CutBlocks, Normalise;
    var chunks, f := [b] + Idle(m) + rest, CutBlocks(Normalise(b));
    assert chunks[1..] == Idle(m) + rest && "" + b == b;
    if m == 0 {
      assert Idle(m) + rest == rest;
    } else {
      FeedStarts(f.tail, "", Idle(m - 1) + rest);
      assert f.tail + "" == f.tail;
      ConcatAssociates([""], Idle(m - 1), rest);
      ConcatAssociates([f.tail], Idle(m - 1), rest);
    }
  }

  /** A buffer without CR LF changes no more. */
  lemma {:induction false} SettledBuffer(b: string, m: nat, rest: seq<string>)
    requires CrlfFree(b)
    ensures var f := CutBlocks(b); Passed(b, m, rest) == Then(f, Feed(f.tail, rest)) && CrlfFree(f.tail)
    decreases m
  {
    hide CutBlocks, Normalise, FindBlank, Passed, Feed, CrlfFree;
    var f := CutBlocks(b);
    NormaliseIsIdentity(b);
    CutTailHasNoBlank(b);
    PassedOnce(b, m, rest);
    if m > 0 {
      SettledBuffer(f.tail, m - 1, rest);
      NothingToDrain(f.tail);
      ThenNothing(f, f.tail, Feed(f.tail, rest));
    }
  }

  lemma ThenNothing(f: Frames, tail: string, g: Frames)
    ensures Then(f, Then(Frames([], tail), g)) == Then(f, g)
  {
    assert [] + g.blocks == g.blocks;
  }

  /** With enough passes the carriage returns before a line feed are all gone when the next character comes. */
  lemma {:induction false} LfSettles(b: string, m: nat, rest: seq<string>)
    requires CrlfFree(b) && FindBlank(b) == -1 && m >= |b|
    ensures var f := CutBlocks(Thin(b + [LF]));
            Passed(b + [LF], m, rest) == Then(f, Feed(f.tail, rest)) && CrlfFree(f.tail)
    decreases |b|
  {
    if b != [] && b[|b| - 1] == CR {
      var a := b[..|b| - 1];
      assert b == a + [CR];
      CrlfFreePart(b, 0, |b| - 1);
      UnbrokenPrefix(a, [CR]);
      assert b + [LF] == a + [CR, LF];
      PassOfCrlf(a);
      ThinOfCrlf(a);
      hide Thin, CutBlocks, Normalise, Passed, Feed, CrlfFree, FindBlank;
      PassedOnce(b + [LF], m, rest);
      if FindBlank(a + [LF]) == -1 {
        NothingToDrain(a + [LF]);
        LfSettles(a, m - 1, rest);
        var f := CutBlocks(Thin(a + [LF]));
        NothingThen(a + [LF], Then(f, Feed(f.tail, rest)));
      } else {
        LfAfterBlank(a);
        LfAfterText(a);
        EmptyCut();
        EmptyIsFree();
        SettledBuffer("", m - 1, rest);
        ThenNothing(CutBlocks(a + [LF]), "", Feed("", rest));
      }
    } else {
      LfAfterText(b);
      SettledBuffer(b + [LF], m, rest);
    }
  }

  lemma NothingThen(tail: string, g: Frames)
    ensures Then(Frames([], tail), g) == g
  {
    assert [] + g.blocks == g.blocks;
  }

  lemma EmptyIsFree()
    ensures CrlfFree("")
  {
  }

  lemma EmptyCut()
    ensures CutBlocks("") == Frames([], "")
  {
  }

  lemma PassOfCrlf(a: string)
    requires CrlfFree(a)
    ensures Normalise(a + [CR, LF]) == a + [LF]
  {
    PassOverSplit(a, []);
    NormaliseIsIdentity(a);
    assert a + [CR] + ([LF] + []) == a + [CR, LF] && Normalise([]) == [] && [LF] + [] == [LF];
  }

  lemma ThinOfCrlf(a: string)
    ensures Thin(a + [CR, LF]) == Thin(a + [LF])
  {
    PassIsThinner([CR, LF]);
    NormalisePair([]);
    assert [CR, LF] + [] == [CR, LF] && Normalise([]) == [] && [LF] + [] == [LF];
    ThinnerAfter(a, [CR, LF], [LF]);
    ThinnerThinsAlike(a + [CR, LF], a + [LF]);
  }

  lemma LfAfterText(b: string)
    requires CrlfFree(b) && (b == [] || b[|b| - 1] != CR)
    ensures CrlfFree(b + [LF]) && Thin(b + [LF]) == b + [LF]
  {
    forall i: int ensures !CrlfAt(b + [LF], i) {
      assert !CrlfAt(b, i);
    }
    CrlfFreeIsThin(b + [LF]);
  }

  lemma {:induction false} CrlfFreeIsThin(s: string)
    requires CrlfFree(s)
    ensures Thin(s) == s
  {
    if s != [] {
      CrlfFreePart(s, 1, |s|);
      assert s[1..|s|] == s[1..] && !CrlfAt(s, 0);
      CrlfFreeIsThin(s[1..]);
    }
  }

  lemma LfAfterBlank(a: string)
    requires FindBlank(a) == -1 && FindBlank(a + [LF]) != -1
    ensures a != [] && a[|a| - 1] == LF && CutBlocks(a + [LF]).tail == ""
  {
    FindBlankJoined(a, [LF]);
    UnbrokenEnds(a);
    FirstCut(a + [LF]);
    EmptyCut();
  }

  lemma AfterLineEnd(b: string, v: string)
    requires CrlfFree(CutBlocks(Thin(b + [LF])).tail)
    ensures var f := CutBlocks(Thin(b + [LF]));
            CutBlocks(Thin(b + [LF] + v)) == Then(f, CutBlocks(Thin(f.tail + v)))
  {
    hide CutBlocks, Thin, Drained, FindBlank, CrlfFree;
    var n, later := Thin(b + [LF]), Thin(v);
    var d, tail := Drained(n), CutBlocks(n).tail;
    ThinThen(b + [LF], v);
    ThinSplits(b, later);
    DrainedThenTail(n);
    DrainedCuts(n, tail + later);
    ConcatAssociates(d, tail, later);
    CrlfFreeIsThin(tail);
    ThinThen(tail, v);
    if tail == [] {
      assert tail + v == v && tail + later == later;
    } else {
      assert tail[|tail| - 1] == (d + tail)[|d + tail| - 1] == LF;
      assert tail == tail[..|tail| - 1] + [LF];
      ThinSplits(tail[..|tail| - 1], later);
    }
    CutTailHasNoBlank(n);
    assert CutBlocks(n) == Frames(CutBlocks(n).blocks, tail);
  }

  /** Read slowly enough, a text is read as its thinned form. */
  lemma {:induction false} SlowlyReadsThin(b: string, v: string, m: nat)
    requires CrlfFree(b) && FindBlank(b) == -1 && m >= |b| + |v|
    ensures Feed(b, Slowly(v, m)) == CutBlocks(Thin(b + v))
    decreases |v|
  {
    hide CutBlocks, Thin, Normalise, FindBlank;
    if v == [] {
      NormaliseIsIdentity(b);
      CrlfFreeIsThin(b);
      assert b + v == b;
    } else {
      var c, rest := v[0], Slowly(v[1..], m);
      assert b + v == b + [c] + v[1..];
      PassedStarts(b, c, m, rest);
      if c == LF {
        LfSettles(b, m, rest);
        var f := CutBlocks(Thin(b + [LF]));
        TailIsNoLonger(b);
        SlowlyReadsThin(f.tail, v[1..], m);
        AfterLineEnd(b, v[1..]);
      } else {
        TextSettles(b, c);
        SettledBuffer(b + [c], m, rest);
        NothingToDrain(b + [c]);
        SlowlyReadsThin(b + [c], v[1..], m);
        assert [] + Feed(b + [c], rest).blocks == Feed(b + [c], rest).blocks;
      }
    }
  }

  lemma PassedStarts(b: string, c: char, m: nat, rest: seq<string>)
    ensures Feed(b, [[c]] + Idle(m) + rest) == Passed(b + [c], m, rest)
  {
    FeedStarts(b, [c], Idle(m) + rest);
    ConcatAssociates([[c]], Idle(m), rest);
    ConcatAssociates([b + [c]], Idle(m), rest);
  }

  lemma TextSettles(b: string, c: char)
    requires CrlfFree(b) && FindBlank(b) == -1 && c != LF
    ensures CrlfFree(b + [c]) && FindBlank(b + [c]) == -1
  {
    forall i: int ensures !CrlfAt(b + [c], i) {
      assert !CrlfAt(b, i);
    }
    if FindBlank(b + [c]) != -1 {
      FindBlankJoined(b, [c]);
    }
  }

  lemma TailIsNoLonger(b: string)
    ensures var f := CutBlocks(Thin(b + [LF])); |f.tail| <= |b| + 1 && FindBlank(f.tail) == -1
  {
    ThinIsThinner(b + [LF]);
    ThinnerIsShorter(b + [LF], Thin(b + [LF]));
    DrainedThenTail(Thin(b + [LF]));
    CutTailHasNoBlank(Thin(b + [LF]));
  }

  lemma {:induction false} ThinnerIsShorter(x: string, y: string)
    requires Thinner(x, y)
    ensures |y| <= |x|
    decreases |x|
  {
    if x != [] {
      if x[0] == y[0] && Thinner(x[1..], y[1..]) {
        ThinnerIsShorter(x[1..], y[1..]);
      } else {
        ThinnerIsShorter(x[1..], y);
      }
    }
  }

  /** Some way of cutting a text reads exactly its thinned form. */
  lemma ThinIsReached(t: string) returns (chunks: seq<string>)
    ensures Concat(chunks) == t && Feed("", chunks) == CutBlocks(Thin(t))
  {
    chunks := Slowly(t, |t|);
    SlowlyIsTheText(t, |t|);
    SlowlyReadsThin("", t, |t|);
    assert "" + t == t;
  }

  lemma NoChunks(chunks: seq<string>)
    requires chunks == []
    ensures Feed("", chunks) == Feed("", [""]) == Frames([], "")
  {
    FeedStarts("", "", []);
    EmptyCut();
    EmptyPass();
    assert [""] + [] == [""] && [""][1..] == [];
  }
}
