/**
  The framing half of the event-stream reader: carriage-return normalisation, the
  leftmost-blank-line cut, and the buffer that is re-normalised on every chunk.
 */
module SseFraming {

  const CR: char := '\r'
  const LF: char := '\n'

  /** One left-to-right pass replacing every CR LF pair by LF. A lone CR is kept. */
  function Normalise(s: string): (r: string)
    ensures |r| <= |s|
  {
    if s == [] then []
    else if |s| >= 2 && s[0] == CR && s[1] == LF then [LF] + Normalise(s[2..])
    else [s[0]] + Normalise(s[1..])
  }

  predicate CrlfAt(s: string, i: int) {
    0 <= i < |s| - 1 && s[i] == CR && s[i + 1] == LF
  }

  predicate BlankAt(s: string, i: int) {
    0 <= i < |s| - 1 && s[i] == LF && s[i + 1] == LF
  }

  predicate CrCrLfAt(s: string, i: int) {
    0 <= i < |s| - 2 && s[i] == CR && s[i + 1] == CR && s[i + 2] == LF
  }

  ghost predicate CrlfFree(s: string) {
    forall i: int :: !CrlfAt(s, i)
  }

  ghost predicate NoCrCrLf(s: string) {
    forall i: int :: !CrCrLfAt(s, i)
  }

  /** `s.indexOf("\n\n")`: the leftmost blank line, or -1. */
  function FindBlank(s: string): (r: int)
    ensures r == -1 || BlankAt(s, r)
  {
    if |s| < 2 then -1
    else if s[0] == LF && s[1] == LF then 0
    else
      var rest := FindBlank(s[1..]);
      if rest == -1 then -1 else rest + 1
  }

  lemma {:induction false} FindBlankIsLeast(s: string, i: int)
    requires BlankAt(s, i)
    ensures 0 <= FindBlank(s) <= i
  {
    if !BlankAt(s, 0) {
      FindBlankIsLeast(s[1..], i - 1);
    }
  }

  /** The complete blocks of a text and the unterminated remainder. */
  datatype Frames = Frames(blocks: seq<string>, tail: string)

  function Then(a: Frames, b: Frames): Frames {
    Frames(a.blocks + b.blocks, b.tail)
  }

  /** Cuts at the leftmost blank line, again and again. */
  function CutBlocks(s: string): Frames
    decreases |s|
  {
    var i := FindBlank(s);
    if i == -1 then Frames([], s)
    else Then(Frames([s[..i]], ""), CutBlocks(s[i + 2..]))
  }

  /**
    The reader as a function of its buffer and the chunks still to come: append, normalise the
    whole buffer, drain; after the last chunk normalise and drain once more and keep the tail.
   */
  function Feed(buffer: string, chunks: seq<string>): Frames
    decreases |chunks|
  {
    if chunks == [] then CutBlocks(Normalise(buffer))
    else
      var now := CutBlocks(Normalise(buffer + chunks[0]));
      Then(now, Feed(now.tail, chunks[1..]))
  }

  function Concat(chunks: seq<string>): string {
    if chunks == [] then [] else chunks[0] + Concat(chunks[1..])
  }

  // ----- Normalisation ---------------------------------------------------------------------

  lemma {:induction false} NormaliseIsIdentity(s: string)
    requires CrlfFree(s)
    ensures Normalise(s) == s
  {
    if s != [] {
      assert !CrlfAt(s, 0);
      CrlfFreePart(s, 1, |s|);
      assert s[1..|s|] == s[1..];
      NormaliseIsIdentity(s[1..]);
    }
  }

  lemma NoCrCrLfSuffix(s: string, k: nat)
    requires k <= |s| && NoCrCrLf(s)
    ensures NoCrCrLf(s[k..])
  {
    forall i: int ensures !CrCrLfAt(s[k..], i) {
      assert !CrCrLfAt(s, i + k);
    }
  }

  lemma CrlfFreePart(s: string, i: nat, j: nat)
    requires i <= j <= |s| && CrlfFree(s)
    ensures CrlfFree(s[i..j])
  {
    var part := s[i..j];
    forall k: int ensures !CrlfAt(part, k) {
      assert !CrlfAt(s, k + i);
    }
  }

  /** Without a CR CR LF, one pass leaves no CR LF behind. */
  lemma {:induction false} NormaliseRemovesCrlf(s: string)
    requires NoCrCrLf(s)
    ensures CrlfFree(Normalise(s))
  {
    if s != [] {
      var k := if |s| >= 2 && s[0] == CR && s[1] == LF then 2 else 1;
      NoCrCrLfSuffix(s, k);
      NormaliseRemovesCrlf(s[k..]);
      var n := Normalise(s);
      assert n[1..] == Normalise(s[k..]);
      assert !CrCrLfAt(s, 0);
      forall i: int ensures !CrlfAt(n, i) {
        if i > 0 {
          assert !CrlfAt(n[1..], i - 1);
        }
      }
    }
  }

  /** Normalising a prefix first changes nothing, when no CR CR LF arises. */
  lemma {:induction false} NormaliseInTwoSteps(a: string, b: string)
    requires NoCrCrLf(a + b)
    ensures Normalise(Normalise(a) + b) == Normalise(a + b)
    decreases |a|
  {
    if a != [] {
      var k := if CrlfAt(a, 0) then 2 else 1;
      var rest := a[k..];
      NoCrCrLfSuffix(a + b, k);
      assert (a + b)[k..] == rest + b;
      NormaliseInTwoSteps(rest, b);
      assert !CrCrLfAt(a + b, 0);
      assert a == (if k == 2 then [CR, LF] else [a[0]]) + rest;
      if k == 2 {
        NormaliseKeepsPair(rest, b);
        assert a + b == [CR, LF] + (rest + b);
      } else {
        NormaliseKeepsFirst(a[0], rest, b);
        assert a + b == [a[0]] + (rest + b);
      }
    }
  }

  lemma NormaliseKeepsPair(rest: string, b: string)
    requires Normalise(Normalise(rest) + b) == Normalise(rest + b)
    ensures Normalise(Normalise([CR, LF] + rest) + b) == Normalise([CR, LF] + (rest + b))
  {
    NormalisePair(rest);
    NormalisePair(rest + b);
    assert ([LF] + Normalise(rest)) + b == [LF] + (Normalise(rest) + b);
    NormaliseCons(LF, Normalise(rest) + b);
  }

  lemma NormaliseKeepsFirst(c: char, rest: string, b: string)
    requires c != CR || rest == [] || (rest[0] != LF && !CrlfAt(rest, 0))
    requires Normalise(Normalise(rest) + b) == Normalise(rest + b)
    ensures Normalise(Normalise([c] + rest) + b) == Normalise([c] + (rest + b))
  {
    hide Normalise;
    NormaliseCons(c, rest);
    NormaliseHead(rest);
    assert ([c] + Normalise(rest)) + b == [c] + (Normalise(rest) + b);
    if rest == [] {
      assert Normalise(rest) + b == rest + b;
    } else {
      NormaliseCons(c, Normalise(rest) + b);
      NormaliseCons(c, rest + b);
    }
  }

  lemma NormalisePair(s: string)
    ensures Normalise([CR, LF] + s) == [LF] + Normalise(s)
  {
    assert ([CR, LF] + s)[2..] == s;
  }

  lemma NormaliseCons(c: char, s: string)
    requires c != CR || s == [] || s[0] != LF
    ensures Normalise([c] + s) == [c] + Normalise(s)
  {
    assert ([c] + s)[1..] == s;
  }

  lemma NormaliseHead(s: string)
    ensures (s == []) == (Normalise(s) == [])
    ensures s != [] ==> Normalise(s)[0] == if CrlfAt(s, 0) then LF else s[0]
  {
  }

  /** A prefix without CR LF that does not end in CR passes through unchanged. */
  lemma {:induction false} NormaliseSkipsPrefix(p: string, z: string)
    requires CrlfFree(p) && (p == [] || p[|p| - 1] != CR)
    ensures Normalise(p + z) == p + Normalise(z)
  {
    if p == [] {
      assert p + z == z;
    } else {
      assert !CrlfAt(p, 0);
      CrlfFreePart(p, 1, |p|);
      assert p[1..|p|] == p[1..];
      NormaliseSkipsPrefix(p[1..], z);
      assert (p + z)[1..] == p[1..] + z;
    }
  }

  // ----- Cutting ---------------------------------------------------------------------------

  /** A leftmost blank line stays leftmost whatever follows it. */
  lemma FindBlankIsStable(s: string, z: string)
    requires FindBlank(s) != -1
    ensures FindBlank(s[..FindBlank(s) + 2] + z) == FindBlank(s)
  {
    var i := FindBlank(s);
    var t := s[..i + 2] + z;
    FindBlankIsLeast(t, i);
    FindBlankIsLeast(s, FindBlank(t));
  }

  lemma {:induction false} CutTailHasNoBlank(s: string)
    ensures FindBlank(CutBlocks(s).tail) == -1
    ensures CrlfFree(s) ==> CrlfFree(CutBlocks(s).tail)
    decreases |s|
  {
    var i := FindBlank(s);
    if i != -1 {
      CutTailHasNoBlank(s[i + 2..]);
      if CrlfFree(s) {
        CrlfFreePart(s, i + 2, |s|);
        assert s[i + 2..|s|] == s[i + 2..];
      }
    }
  }

  lemma ThenAssociates(a: Frames, b: Frames, c: Frames)
    ensures Then(Then(a, b), c) == Then(a, Then(b, c))
  {
    assert (a.blocks + b.blocks) + c.blocks == a.blocks + (b.blocks + c.blocks);
  }

  lemma CutAtBlank(s: string, z: string)
    requires FindBlank(s) != -1
    ensures var i := FindBlank(s);
            CutBlocks(s[..i + 2] + z) == Then(Frames([s[..i]], ""), CutBlocks(z))
  {
    var i := FindBlank(s);
    FindBlankIsStable(s, z);
    var t := s[..i + 2] + z;
    assert t[..i] == s[..i] && t[i + 2..] == z;
  }

  /** Cutting may resume from the tail: everything before it is already decided. */
  lemma {:induction false} CutResumes(n: string, z: string)
    requires CrlfFree(n)
    ensures var c := CutBlocks(n);
            var d := CutBlocks(Normalise(c.tail + z));
            CutBlocks(Normalise(n + z)) == Then(c, d)
    decreases |n|
  {
    var i := FindBlank(n);
    if i == -1 {
      assert [] + CutBlocks(Normalise(n + z)).blocks == CutBlocks(Normalise(n + z)).blocks;
    } else {
      var head, rest := n[..i + 2], n[i + 2..];
      assert n[0..i + 2] == head && n[i + 2..|n|] == rest;
      CrlfFreePart(n, 0, i + 2);
      CrlfFreePart(n, i + 2, |n|);
      assert n + z == head + (rest + z);
      NormaliseSkipsPrefix(head, rest + z);
      CutAtBlank(n, Normalise(rest + z));
      CutResumes(rest, z);
      var c := CutBlocks(rest);
      ThenAssociates(Frames([n[..i]], ""), c, CutBlocks(Normalise(c.tail + z)));
    }
  }

  // ----- Refinement: the buffer against one normalisation and one cut ------------------------

  lemma NoCrCrLfPrefix(a: string, b: string)
    requires NoCrCrLf(a + b)
    ensures NoCrCrLf(a)
  {
    var s := a + b;
    forall i: int ensures !CrCrLfAt(a, i) {
      assert !CrCrLfAt(s, i);
    }
  }

  /** One turn of the read loop: the cut of a longer text resumes from the buffered tail. */
  lemma FeedOneChunk(seen: string, chunk: string)
    requires NoCrCrLf(seen + chunk)
    ensures var c := CutBlocks(Normalise(seen));
            var d := CutBlocks(Normalise(c.tail + chunk));
            CutBlocks(Normalise(seen + chunk)) == Then(c, d)
  {
    NoCrCrLfPrefix(seen, chunk);
    NormaliseRemovesCrlf(seen);
    NormaliseInTwoSteps(seen, chunk);
    CutResumes(Normalise(seen), chunk);
  }

  /** After the last chunk the extra pass finds nothing to do. */
  lemma FeedEnds(seen: string)
    requires NoCrCrLf(seen)
    ensures var c := CutBlocks(Normalise(seen)); Feed(c.tail, []) == Frames([], c.tail)
  {
    var c := CutBlocks(Normalise(seen));
    NormaliseRemovesCrlf(seen);
    CutTailHasNoBlank(Normalise(seen));
    NormaliseIsIdentity(c.tail);
  }

  /** The invariant of the read loop, for any text already seen. */
  lemma {:induction false} FeedContinues(seen: string, chunks: seq<string>)
    requires NoCrCrLf(seen + Concat(chunks))
    ensures var c := CutBlocks(Normalise(seen));
            CutBlocks(Normalise(seen + Concat(chunks))) == Then(c, Feed(c.tail, chunks))
    decreases |chunks|
  {
    var c := CutBlocks(Normalise(seen));
    if chunks == [] {
      assert seen + Concat(chunks) == seen;
      FeedEnds(seen);
      assert c.blocks + [] == c.blocks;
    } else {
      var next := seen + chunks[0];
      assert next + Concat(chunks[1..]) == seen + Concat(chunks);
      NoCrCrLfPrefix(next, Concat(chunks[1..]));
      FeedOneChunk(seen, chunks[0]);
      FeedContinues(next, chunks[1..]);
      var d := CutBlocks(Normalise(c.tail + chunks[0]));
      ThenAssociates(c, d, Feed(d.tail, chunks[1..]));
    }
  }

  /** Every chunking of a text without CR CR LF gives the blocks and tail of the whole text. */
  lemma FeedRefinesOneCut(chunks: seq<string>)
    requires NoCrCrLf(Concat(chunks))
    ensures Feed("", chunks) == CutBlocks(Normalise(Concat(chunks)))
  {
    assert "" + Concat(chunks) == Concat(chunks);
    FeedContinues("", chunks);
    assert CutBlocks(Normalise("")) == Frames([], "");
    assert [] + Feed("", chunks).blocks == Feed("", chunks).blocks;
  }

  // ----- The exact condition -----------------------------------------------------------------

  /** Number of CR LF pairs, which is how many characters a pass removes. */
  function CrlfCount(s: string): nat {
    if s == [] then 0 else (if CrlfAt(s, 0) then 1 else 0) + CrlfCount(s[1..])
  }

  lemma {:induction false} NormaliseLength(s: string)
    ensures |Normalise(s)| + CrlfCount(s) == |s|
  {
    if s != [] {
      if CrlfAt(s, 0) {
        assert s[1..][1..] == s[2..];
        NormaliseLength(s[2..]);
        assert !CrlfAt(s[1..], 0);
      } else {
        NormaliseLength(s[1..]);
      }
    }
  }

  lemma {:induction false} CrlfCountOfConcat(a: string, b: string)
    ensures CrlfCount(a + b) >= CrlfCount(a) + CrlfCount(b)
    ensures a != [] && a[|a| - 1] != CR ==> CrlfCount(a + b) == CrlfCount(a) + CrlfCount(b)
  {
    if a == [] {
      assert a + b == b;
    } else {
      assert (a + b)[1..] == a[1..] + b;
      CrlfCountOfConcat(a[1..], b);
      if |a| >= 2 {
        assert CrlfAt(a + b, 0) == CrlfAt(a, 0);
      } else {
        assert a[1..] == [] && a[1..] + b == b;
      }
    }
  }

  /** Total characters in a cut, blank lines included; cutting loses none. */
  function Size(f: Frames): nat
    decreases |f.blocks|
  {
    if f.blocks == [] then |f.tail| else |f.blocks[0]| + 2 + Size(f.(blocks := f.blocks[1..]))
  }

  lemma {:induction false} CutKeepsSize(s: string)
    ensures Size(CutBlocks(s)) == |s|
    decreases |s|
  {
    var i := FindBlank(s);
    if i != -1 {
      CutKeepsSize(s[i + 2..]);
      var c := CutBlocks(s);
      assert c.blocks[1..] == CutBlocks(s[i + 2..]).blocks;
      assert c.(blocks := c.blocks[1..]) == CutBlocks(s[i + 2..]);
    }
  }

  lemma {:induction false} SizeOfJoin(a: Frames, b: Frames)
    ensures Size(Then(a, b)) == Size(a) - |a.tail| + Size(b)
    decreases |a.blocks|
  {
    var j := Then(a, b);
    if a.blocks == [] {
      assert a.blocks + b.blocks == b.blocks;
    } else {
      SizeOfJoin(a.(blocks := a.blocks[1..]), b);
      assert j.blocks[1..] == a.blocks[1..] + b.blocks;
    }
  }

  lemma {:induction false} FeedNeverGrows(buffer: string, chunks: seq<string>)
    ensures Size(Feed(buffer, chunks)) <= |Normalise(buffer + Concat(chunks))|
    decreases |chunks|
  {
    if chunks == [] {
      assert buffer + Concat(chunks) == buffer;
      CutKeepsSize(Normalise(buffer));
    } else {
      var b := buffer + chunks[0];
      var c := CutBlocks(Normalise(b));
      var rest := Concat(chunks[1..]);
      FeedNeverGrows(c.tail, chunks[1..]);
      SizeOfJoin(c, Feed(c.tail, chunks[1..]));
      CutKeepsSize(Normalise(b));
      assert buffer + Concat(chunks) == b + rest;
      TailKeepsPairs(b, rest);
    }
  }

  /** What a pass over `Normalise(b)`'s tail and `rest` leaves is no more than one pass over all. */
  lemma TailKeepsPairs(b: string, rest: string)
    ensures |Normalise(b)| - |CutBlocks(Normalise(b)).tail| + |Normalise(CutBlocks(Normalise(b)).tail + rest)|
         <= |Normalise(b + rest)|
  {
    var tail := CutBlocks(Normalise(b)).tail;
    NormaliseLength(b);
    NormaliseLength(b + rest);
    NormaliseLength(tail + rest);
    if b == [] || b[|b| - 1] != CR || rest == [] || rest[0] != LF {
      CrlfCountAcross(b, rest);
      CrlfCountOfConcat(tail, rest);
    } else {
      CrlfCountAcrossCut(b, rest);
      TailEndsAlike(b);
      CrlfCountAcrossCut(tail, rest);
    }
  }

  lemma {:induction false} CrlfCountAcross(a: string, b: string)
    requires a == [] || a[|a| - 1] != CR || b == [] || b[0] != LF
    ensures CrlfCount(a + b) == CrlfCount(a) + CrlfCount(b)
  {
    if a == [] {
      assert a + b == b;
    } else {
      assert (a + b)[1..] == a[1..] + b;
      CrlfCountAcross(a[1..], b);
      assert CrlfAt(a + b, 0) == CrlfAt(a, 0);
    }
  }

  lemma {:induction false} CrlfCountAcrossCut(a: string, b: string)
    requires a != [] && a[|a| - 1] == CR && b != [] && b[0] == LF
    ensures CrlfCount(a + b) == CrlfCount(a) + CrlfCount(b) + 1
  {
    assert (a + b)[1..] == a[1..] + b;
    if |a| == 1 {
      assert a[1..] + b == b;
      assert CrlfAt(a + b, 0);
    } else {
      CrlfCountAcrossCut(a[1..], b);
      assert CrlfAt(a + b, 0) == CrlfAt(a, 0);
    }
  }

  lemma {:induction false} NormaliseKeepsFinalCr(s: string)
    requires s != [] && s[|s| - 1] == CR
    ensures Normalise(s) != [] && Normalise(s)[|Normalise(s)| - 1] == CR
  {
    if |s| > 1 {
      var k := if CrlfAt(s, 0) then 2 else 1;
      NormaliseKeepsFinalCr(s[k..]);
    }
  }

  lemma {:induction false} CutKeepsFinal(s: string)
    requires s != [] && s[|s| - 1] != LF
    ensures var t := CutBlocks(s).tail; t != [] && t[|t| - 1] == s[|s| - 1]
    decreases |s|
  {
    var i := FindBlank(s);
    if i != -1 {
      CutKeepsFinal(s[i + 2..]);
    }
  }

  lemma {:induction false} CutKeepsFinalPair(s: string)
    requires CrlfAt(s, |s| - 2)
    ensures var t := CutBlocks(s).tail; CrlfAt(t, |t| - 2)
    decreases |s|
  {
    var i := FindBlank(s);
    if i != -1 {
      CutKeepsFinalPair(s[i + 2..]);
    }
  }

  lemma TailEndsAlike(b: string)
    requires b != [] && b[|b| - 1] == CR
    ensures var t := CutBlocks(Normalise(b)).tail; t != [] && t[|t| - 1] == CR
  {
    NormaliseKeepsFinalCr(b);
    CutKeepsFinal(Normalise(b));
  }

  lemma {:induction false} NormaliseOfCrCrLf(a: string)
    ensures var s := a + [CR, CR, LF];
            var n := Normalise(s);
            CrlfAt(n, |n| - 2)
  {
    var s := a + [CR, CR, LF];
    if a == [] {
      assert s[1..] == [CR, LF] && s[1..][2..] == [];
      assert Normalise(s[1..]) == [LF];
      assert Normalise(s) == [CR, LF];
    } else {
      var k := if CrlfAt(s, 0) then 2 else 1;
      assert s[k..] == (if |a| >= k then a[k..] else []) + [CR, CR, LF];
      NormaliseOfCrCrLf(a[k..]);
    }
  }

  lemma FeedTwoSize(a: string, z: string)
    ensures var tail := CutBlocks(Normalise(a)).tail;
            Size(Feed("", [a, z])) <= |Normalise(a)| - |tail| + |Normalise(tail + z)|
  {
    var c := CutBlocks(Normalise(a));
    FeedTwo(a, z);
    FeedNeverGrows(c.tail, [z]);
    ConcatOne(z);
    SizeOfJoin(c, Feed(c.tail, [z]));
    CutKeepsSize(Normalise(a));
  }

  /** A pair left in the tail by the first pass is one more character lost in the second. */
  lemma SecondPassShrinks(a: string, tail: string, z: string)
    requires a != [] && a[|a| - 1] != CR && CrlfAt(tail, |tail| - 2)
    ensures |Normalise(a)| - |tail| + |Normalise(tail + z)| < |Normalise(a + z)|
  {
    CrlfCountPositive(tail, |tail| - 2);
    NormaliseLength(a);
    NormaliseLength(a + z);
    NormaliseLength(tail + z);
    CrlfCountAcross(a, z);
    CrlfCountAcross(tail, z);
  }

  /** Cutting the text right after a CR CR LF makes the reader lose one more carriage return. */
  lemma CrCrLfBreaksFraming(p: string, z: string)
    ensures var a := p + [CR, CR, LF];
            Feed("", [a, z]) != CutBlocks(Normalise(a + z))
  {
    var a := p + [CR, CR, LF];
    NormaliseOfCrCrLf(p);
    CutKeepsFinalPair(Normalise(a));
    FeedTwoSize(a, z);
    SecondPassShrinks(a, CutBlocks(Normalise(a)).tail, z);
    CutKeepsSize(Normalise(a + z));
  }

  lemma FeedTwo(a: string, z: string)
    ensures var c := CutBlocks(Normalise(a));
            Feed("", [a, z]) == Then(c, Feed(c.tail, [z]))
  {
    assert "" + a == a && [a, z][1..] == [z];
  }

  lemma ConcatOne(z: string)
    ensures Concat([z]) == z
  {
    assert [z][1..] == [] && z + [] == z;
  }

  lemma {:induction false} CrlfCountPositive(s: string, i: int)
    requires CrlfAt(s, i)
    ensures CrlfCount(s) > 0
  {
    if i > 0 {
      CrlfCountPositive(s[1..], i - 1);
    }
  }

  /** Chunking never matters exactly when the text holds no CR CR LF. */
  lemma ChunkingIrrelevantIff(t: string)
    ensures (forall chunks: seq<string> :: Concat(chunks) == t ==> Feed("", chunks) == CutBlocks(Normalise(t)))
       <==> NoCrCrLf(t)
  {
    if NoCrCrLf(t) {
      forall chunks: seq<string> | Concat(chunks) == t
        ensures Feed("", chunks) == CutBlocks(Normalise(t))
      {
        FeedRefinesOneCut(chunks);
      }
    } else {
      var i :| CrCrLfAt(t, i);
      var a, z := t[..i] + [CR, CR, LF], t[i + 3..];
      CrCrLfBreaksFraming(t[..i], z);
      ConcatOne(z);
      assert [a, z][1..] == [z];
      assert Concat([a, z]) == a + z == t;
    }
  }
}
