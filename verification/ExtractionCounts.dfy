/**
  The books of the first phase, entry by entry: which gate a proposal is rejected by, what every counter
  counts, in which order the keys stand, and what the status says.
 */
module ExtractionCounts {
  import opened Base
  import opened CycleFilter
  import opened Confidence
  import opened ExtractionGates
  import opened ExtractionEvidence
  import ExtractionLimits
  import ExtractionRun

  // ----- The gate a proposal is rejected by -----------------------------------------------------------

  /** A relation is named by exactly one of six words. */
  lemma RelationIs(raw: Option<string>, r: Relation)
    ensures RelationOf(raw) == Some(r) <==> raw == Some(ExtractionLimits.NameOf(r))
  {
    if raw == Some(ExtractionLimits.NameOf(r)) {
      match r case Requires => case Contains => case RelatedTo => case PartOf => case Assesses => case TaughtBy =>
    }
  }

  ghost predicate Named(a: Assertion) {
    exists r: Relation :: a.relation == Some(ExtractionLimits.NameOf(r))
  }

  lemma NamedIff(a: Assertion)
    ensures Named(a) <==> RelationOf(a.relation).Some?
    ensures RelationOf(a.relation) == Some(Requires) <==> a.relation == Some("requires")
  {
    RelationIs(a.relation, Requires);
    if RelationOf(a.relation).Some? {
      RelationIs(a.relation, RelationOf(a.relation).value);
    }
    if r: Relation :| a.relation == Some(ExtractionLimits.NameOf(r)) {
      RelationIs(a.relation, r);
    }
  }

  ghost predicate AlikeNames(a: Assertion, ops: TextOps) {
    ops.fold(ops.strip(a.sourceName)) == ops.fold(ops.strip(a.targetName)) || ops.slug(a.sourceName) == ops.slug(a.targetName)
  }

  ghost predicate Unsourced(a: Assertion, ops: TextOps) {
    a.chunkId.None? || a.quote.None? || ops.strip(a.quote.value) == ""
  }

  ghost predicate ThinQuote(a: Assertion, ops: TextOps)
    requires a.quote.Some?
  {
    |ops.strip(a.quote.value)| < 10 || ops.boilerplate(ops.strip(a.quote.value))
  }

  ghost predicate InText(needle: string, text: string) {
    exists before: string, after: string :: text == before + needle + after
  }

  lemma InTextIff(needle: string, text: string)
    ensures InText(needle, text) <==> Occurs(needle, text)
  {
    if before: string, after: string :| text == before + needle + after {
      assert text[|before|..|before| + |needle|] == needle;
      assert OccursAt(needle, text, |before|);
    }
    if i :| 0 <= i <= |text| && OccursAt(needle, text, i) {
      assert text == text[..i] + needle + text[i + |needle|..];
    }
  }

  ghost predicate Quoted(a: Assertion, text: string, ops: TextOps)
    requires a.quote.Some?
  {
    InText(ops.normalise(ops.strip(a.quote.value)), ops.normalise(text))
  }

  ghost predicate OtherCourse(a: Assertion)
    requires a.source.Some? && a.target.Some?
  {
    a.source.value.course.Some? && a.target.value.course.Some? && a.source.value.course != a.target.value.course
  }

  /** The gates of a proposal in order: each is named exactly when the proposal fails it and none before. */
  lemma GateNamed(a: Assertion, text: string, cfg: Config)
    ensures var g, ops := Rejection(a, text, cfg), cfg.text;
            var inferred := a.relation == Some("requires") && a.cue == Inferred;
            var first := !Named(a) || AlikeNames(a, ops) || inferred;
            && (g == Some(RelationEnum) <==> !Named(a))
            && (g == Some(SelfRelation) <==> Named(a) && AlikeNames(a, ops))
            && (g == Some(InferredRequires) <==> !AlikeNames(a, ops) && inferred)
            && (g == Some(MissingProvenance) <==> !first && Unsourced(a, ops))
            && (g == Some(QuoteBoilerplate) <==> !first && !Unsourced(a, ops) && ThinQuote(a, ops))
            && (g == Some(VerbatimProvenance) <==>
                  !first && !Unsourced(a, ops) && !ThinQuote(a, ops) && !Quoted(a, text, ops))
            && (g == Some(UnresolvedEntity) <==>
                  && !first && !Unsourced(a, ops) && !ThinQuote(a, ops) && Quoted(a, text, ops)
                  && (a.source.None? || a.target.None?))
            && (g == Some(CrossCourse) <==>
                  && !first && !Unsourced(a, ops) && !ThinQuote(a, ops) && Quoted(a, text, ops)
                  && a.source.Some? && a.target.Some? && !cfg.allowCrossCourse && OtherCourse(a))
            && (g.None? <==>
                  && !first && !Unsourced(a, ops) && !ThinQuote(a, ops) && Quoted(a, text, ops)
                  && a.source.Some? && a.target.Some? && (cfg.allowCrossCourse || !OtherCourse(a)))
  {
    NamedIff(a);
    assert a.relation == Some("requires") ==> Named(a);
    if a.quote.Some? {
      InTextIff(cfg.text.normalise(cfg.text.strip(a.quote.value)), cfg.text.normalise(text));
    }
    hide Named, RelationOf, InText, Occurs;
  }

  // ----- What every counter counts ----------------------------------------------------------------------

  function ConceptGateName(g: ConceptGate): Gate {
    match g case NoName => EmptyName case NoEntity => UnresolvedEntity case Collision => AliasCollision
  }

  /** A chunk of another document or tenant, or without a reply that parses. */
  predicate Unusable(c: Chunk, doc: Document) {
    c.tenant != doc.tenant || c.document != doc.id || !c.reply.Parsed?
  }

  function Lesser(m: nat, n: nat): nat {
    if m < n then m else n
  }

  /** The proposals of a reply that are looked at: the first ones, up to the cap. */
  function LookedAt(c: Chunk, cfg: Config): seq<Assertion>
    requires c.reply.Parsed?
  {
    c.reply.relations[..Lesser(cfg.chunkCap, |c.reply.relations|)]
  }

  function RejectedBy(c: Chunk, cfg: Config, g: Gate, relations: seq<Assertion>): nat {
    |Filter((a: Assertion) => Rejection(a, c.text, cfg) == Some(g), relations)|
  }

  /** How often a chunk is counted under a gate. */
  function CountedIn(c: Chunk, doc: Document, cfg: Config, g: Gate): nat {
    if c.tenant != doc.tenant || c.document != doc.id then if g == DocumentScope then 1 else 0
    else if !c.reply.Parsed? then if g == Schema then 1 else 0
    else
      |Filter((x: ConceptGate) => ConceptGateName(x) == g, c.reply.conceptGates)|
      + RejectedBy(c, cfg, g, LookedAt(c, cfg))
      + if g == ChunkEdgeCap then |c.reply.relations| - |LookedAt(c, cfg)| else 0
  }

  function CountedOver(chunks: seq<Chunk>, doc: Document, cfg: Config, g: Gate): nat {
    if chunks == [] then 0 else CountedIn(chunks[0], doc, cfg, g) + CountedOver(chunks[1..], doc, cfg, g)
  }

  lemma CapsAgree(cap: nat, c: Chunk, cfg: Config)
    requires c.reply.Parsed? && cap == cfg.chunkCap
    ensures Within(cap, c.reply.relations) == LookedAt(c, cfg)
    ensures |Beyond(cap, c.reply.relations)| == |c.reply.relations| - |LookedAt(c, cfg)|
  {
  }

  lemma FilterFront<A>(keep: A -> bool, xs: seq<A>)
    requires xs != []
    ensures |Filter(keep, xs)| == (if keep(xs[0]) then 1 else 0) + |Filter(keep, xs[1..])|
  {
  }

  lemma {:induction false} ConceptCounts(t: Tally, gates: seq<ConceptGate>, g: Gate)
    ensures Fold(CountConcept, t, gates).counts[g]
         == t.counts[g] + |Filter((x: ConceptGate) => ConceptGateName(x) == g, gates)|
    ensures Fold(CountConcept, t, gates).failures == t.failures
    decreases |gates|
  {
    if gates != [] {
      FilterFront((x: ConceptGate) => ConceptGateName(x) == g, gates);
      assert GateOf(gates[0]) == ConceptGateName(gates[0]);
      ConceptCounts(CountConcept(t, gates[0]), gates[1..], g);
    }
  }

  lemma {:induction false} ExcessCounts(t: Tally, excess: seq<Assertion>, g: Gate)
    ensures Fold(CountExcess, t, excess).counts[g] == t.counts[g] + if g == ChunkEdgeCap then |excess| else 0
    ensures Fold(CountExcess, t, excess).failures == t.failures
    decreases |excess|
  {
    if excess != [] {
      ExcessCounts(CountExcess(t, excess[0]), excess[1..], g);
    }
  }

  lemma RelationCount(c: Chunk, cfg: Config, t: Tally, a: Assertion, g: Gate)
    requires g != DuplicateEdge
    ensures var u := ExamineRelation(c, cfg, t, a);
            && u.counts[g] == t.counts[g] + (if Rejection(a, c.text, cfg) == Some(g) then 1 else 0)
            && u.failures == t.failures
  {
    hide Rejection, KeyOf, Absorbed;
  }

  lemma {:induction false} RelationCounts(c: Chunk, cfg: Config, t: Tally, relations: seq<Assertion>, g: Gate)
    requires g != DuplicateEdge
    ensures var u := Fold((t: Tally, a) => ExamineRelation(c, cfg, t, a), t, relations);
            u.counts[g] == t.counts[g] + RejectedBy(c, cfg, g, relations) && u.failures == t.failures
    decreases |relations|
  {
    hide ExamineRelation, Rejection;
    if relations != [] {
      FilterFront((a: Assertion) => Rejection(a, c.text, cfg) == Some(g), relations);
      RelationCount(c, cfg, t, relations[0], g);
      RelationCounts(c, cfg, ExamineRelation(c, cfg, t, relations[0]), relations[1..], g);
    }
  }

  lemma ChunkCounts(doc: Document, cfg: Config, t: Tally, c: Chunk, g: Gate)
    requires g != DuplicateEdge
    ensures ExamineChunk(doc, cfg, t, c).counts[g] == t.counts[g] + CountedIn(c, doc, cfg, g)
    ensures ExamineChunk(doc, cfg, t, c).failures == t.failures + if Unusable(c, doc) then 1 else 0
  {
    hide ExamineRelation, RejectedBy;
    if InScope(c, doc) && c.reply.Parsed? {
      var gates, relations := c.reply.conceptGates, c.reply.relations;
      CapsAgree(cfg.chunkCap, c, cfg);
      ConceptCounts(t, gates, g);
      var t1 := Fold(CountConcept, t, gates);
      ExcessCounts(t1, Beyond(cfg.chunkCap, relations), g);
      var t2 := Fold(CountExcess, t1, Beyond(cfg.chunkCap, relations));
      RelationCounts(c, cfg, t2, Within(cfg.chunkCap, relations), g);
    }
  }

  lemma {:induction false} ChunksCounts(doc: Document, cfg: Config, t: Tally, chunks: seq<Chunk>, g: Gate)
    requires g != DuplicateEdge
    ensures var u := Fold((t: Tally, c) => ExamineChunk(doc, cfg, t, c), t, chunks);
            && u.counts[g] == t.counts[g] + CountedOver(chunks, doc, cfg, g)
            && u.failures == t.failures + |Filter((c: Chunk) => Unusable(c, doc), chunks)|
    decreases |chunks|
  {
    hide ExamineChunk, CountedIn, Unusable;
    if chunks != [] {
      FilterFront((c: Chunk) => Unusable(c, doc), chunks);
      ChunkCounts(doc, cfg, t, chunks[0], g);
      ChunksCounts(doc, cfg, ExamineChunk(doc, cfg, t, chunks[0]), chunks[1..], g);
    }
  }

  /**
    Every counter of the first phase is exact: the rejections by its gate among the proposals looked at,
    the concepts it stands for, the proposals beyond the cap, the chunks out of scope or without a reply.
    Duplicates are the accepted proposals that opened no dossier.
   */
  lemma EveryCounterIsExact(doc: Document, cfg: Config, chunks: seq<Chunk>, g: Gate)
    ensures var t := PhaseOne(doc, cfg, chunks);
            && (g != DuplicateEdge ==> t.counts[g] == CountedOver(chunks, doc, cfg, g))
            && t.counts[DuplicateEdge] == |Accepted(doc, cfg, chunks)| - |t.order|
            && t.failures == |Filter((c: Chunk) => Unusable(c, doc), chunks)|
  {
    PhaseOneGroups(doc, cfg, chunks);
    hide ExamineChunk, CountedOver, Accepted, Filter, Unusable, Gather, Mentions;
    ChunksCounts(doc, cfg, EMPTY_TALLY, chunks, if g == DuplicateEdge then Schema else g);
  }

  // ----- No gate of the second phase counts in the first -------------------------------------------------

  predicate Late(g: Gate) {
    g in {ContradictoryCycle, DocumentEdgeCap, Cycle, ConfidenceFloor, VerifiedConflict}
  }

  lemma {:induction false} NothingFiltered<A>(keep: A -> bool, xs: seq<A>)
    requires forall x :: x in xs ==> !keep(x)
    ensures Filter(keep, xs) == []
  {
    if xs != [] {
      assert xs[0] in xs;
      NothingFiltered(keep, xs[1..]);
    }
  }

  lemma {:induction false} LateGatesWait(doc: Document, cfg: Config, chunks: seq<Chunk>, g: Gate)
    requires Late(g)
    ensures CountedOver(chunks, doc, cfg, g) == 0
  {
    if chunks != [] {
      LateGatesWait(doc, cfg, chunks[1..], g);
      var c := chunks[0];
      if !Unusable(c, doc) {
        NothingFiltered((x: ConceptGate) => ConceptGateName(x) == g, c.reply.conceptGates);
        forall a | a in LookedAt(c, cfg) ensures Rejection(a, c.text, cfg) != Some(g) {
          NoLateRejection(a, c.text, cfg);
        }
        hide Rejection;
        NothingFiltered((a: Assertion) => Rejection(a, c.text, cfg) == Some(g), LookedAt(c, cfg));
      }
    }
  }

  lemma NoLateRejection(a: Assertion, text: string, cfg: Config)
    ensures Rejection(a, text, cfg).Some? ==> !Late(Rejection(a, text, cfg).value)
  {
  }

  // ----- The order of the keys ---------------------------------------------------------------------------

  /** Whenever a piece has a key, an earlier piece had every key that stands before it. */
  ghost predicate InFirstSeenOrder(order: seq<Key>, pieces: seq<Piece>) {
    forall i, j, n :: 0 <= i < j < |order| && 0 <= n < |pieces| && HasKey(pieces[n], order[j]) ==>
      SeenBefore(order[i], pieces, n)
  }

  ghost predicate SeenBefore(key: Key, pieces: seq<Piece>, n: nat) {
    exists m :: 0 <= m < n && m < |pieces| && HasKey(pieces[m], key)
  }

  lemma SeenBeforeMore(key: Key, pieces: seq<Piece>, more: seq<Piece>, n: nat)
    requires n <= |pieces|
    ensures SeenBefore(key, pieces, n) <==> SeenBefore(key, pieces + more, n)
  {
    assert forall m :: 0 <= m < n ==> (pieces + more)[m] == pieces[m];
    if SeenBefore(key, pieces, n) {
      var m :| 0 <= m < n && HasKey(pieces[m], key);
      assert HasKey((pieces + more)[m], key);
    }
    if SeenBefore(key, pieces + more, n) {
      var m :| 0 <= m < n && HasKey((pieces + more)[m], key);
      assert HasKey(pieces[m], key);
    }
  }

  lemma PieceKeepsOrder(t: Tally, a: Assertion, chunk: Chunk, pieces: seq<Piece>)
    requires Grouped(t, pieces) && InFirstSeenOrder(t.order, pieces) && OrderMatches(t)
    requires RelationOf(a.relation).Some? && a.source.Some? && a.target.Some?
    ensures InFirstSeenOrder(Record(t, KeyOf(a), a, chunk).order, pieces + [Piece(a, chunk)])
  {
    var key, p := KeyOf(a), Piece(a, chunk);
    var order, more := Record(t, key, a, chunk).order, pieces + [p];
    assert forall k :: HasKey(p, k) <==> k == key;
    if key !in t.dossiers {
      forall n | 0 <= n < |pieces| ensures !HasKey(pieces[n], key) {
        assert pieces[n] in pieces;
        assert !Mentions(pieces, key);
      }
    }
    forall i, j, n | 0 <= i < j < |order| && 0 <= n < |more| && HasKey(more[n], order[j])
      ensures SeenBefore(order[i], more, n) {
      assert i < |t.order| && order[i] == t.order[i] && t.order[i] in t.order;
      KeyHasPiece(t, order[i], pieces);
      SeenBeforeMore(order[i], pieces, [p], |pieces|);
      if n < |pieces| {
        SeenBeforeMore(order[i], pieces, [p], n);
        assert more[n] == pieces[n];
        assert j < |t.order|;
      }
    }
  }

  lemma KeyHasPiece(t: Tally, key: Key, pieces: seq<Piece>)
    requires Grouped(t, pieces) && key in t.dossiers
    ensures SeenBefore(key, pieces, |pieces|)
  {
    var p :| p in pieces && HasKey(p, key);
    var m :| 0 <= m < |pieces| && pieces[m] == p;
  }

  lemma RecordMatches(t: Tally, key: Key, a: Assertion, chunk: Chunk)
    requires OrderMatches(t)
    ensures OrderMatches(Record(t, key, a, chunk))
  {
    hide Absorbed;
  }

  ghost predicate Ordered(t: Tally, pieces: seq<Piece>) {
    Grouped(t, pieces) && OrderMatches(t) && InFirstSeenOrder(t.order, pieces)
  }

  lemma RelationKeepsOrder(chunk: Chunk, cfg: Config, t: Tally, a: Assertion, pieces: seq<Piece>)
    requires Ordered(t, pieces)
    ensures Ordered(ExamineRelation(chunk, cfg, t, a),
                    pieces + if Rejection(a, chunk.text, cfg).None? then [Piece(a, chunk)] else [])
  {
    RelationGrouped(chunk, cfg, t, a, pieces);
    if Rejection(a, chunk.text, cfg).Some? {
      assert pieces + [] == pieces;
      hide Rejection, Grouped, InFirstSeenOrder;
    } else {
      PieceKeepsOrder(t, a, chunk, pieces);
      RecordMatches(t, KeyOf(a), a, chunk);
      hide Rejection, Grouped, InFirstSeenOrder, KeyOf, Record, OrderMatches;
    }
  }

  lemma {:induction false} RelationsKeepOrder(
      chunk: Chunk, cfg: Config, t: Tally, relations: seq<Assertion>, pieces: seq<Piece>)
    requires Ordered(t, pieces)
    ensures Ordered(Fold((t: Tally, a) => ExamineRelation(chunk, cfg, t, a), t, relations),
                    pieces + AcceptedIn(chunk, cfg, relations))
    decreases |relations|
  {
    hide ExamineRelation, Ordered, Rejection;
    var step := (t: Tally, a) => ExamineRelation(chunk, cfg, t, a);
    if relations == [] {
      assert pieces + AcceptedIn(chunk, cfg, relations) == pieces;
    } else {
      var n := |relations| - 1;
      RelationsKeepOrder(chunk, cfg, t, relations[..n], pieces);
      FoldNext(step, t, relations, n);
      assert relations[..n + 1] == relations;
      var before := pieces + AcceptedIn(chunk, cfg, relations[..n]);
      RelationKeepsOrder(chunk, cfg, Fold(step, t, relations[..n]), relations[n], before);
      var more := if Rejection(relations[n], chunk.text, cfg).None? then [Piece(relations[n], chunk)] else [];
      ConcatAssociates(pieces, AcceptedIn(chunk, cfg, relations[..n]), more);
    }
  }

  lemma SameOrder(t: Tally, u: Tally, pieces: seq<Piece>)
    requires Ordered(t, pieces) && u.order == t.order && u.dossiers == t.dossiers
    requires u.counts[DuplicateEdge] == t.counts[DuplicateEdge]
    ensures Ordered(u, pieces)
  {
  }

  lemma ChunkKeepsOrder(doc: Document, cfg: Config, t: Tally, chunk: Chunk, pieces: seq<Piece>)
    requires Ordered(t, pieces)
    ensures Ordered(ExamineChunk(doc, cfg, t, chunk),
                    pieces + if InScope(chunk, doc) && chunk.reply.Parsed? then
                      AcceptedIn(chunk, cfg, Within(cfg.chunkCap, chunk.reply.relations)) else [])
  {
    hide Ordered, AcceptedIn, ExamineRelation;
    if InScope(chunk, doc) && chunk.reply.Parsed? {
      var gates, relations := chunk.reply.conceptGates, chunk.reply.relations;
      ConceptsCounted(t, gates);
      var t1 := Fold(CountConcept, t, gates);
      ExcessCounted(t1, Beyond(cfg.chunkCap, relations));
      var t2 := Fold(CountExcess, t1, Beyond(cfg.chunkCap, relations));
      SameOrder(t, t2, pieces);
      RelationsKeepOrder(chunk, cfg, t2, Within(cfg.chunkCap, relations), pieces);
    } else {
      assert pieces + [] == pieces;
      SameOrder(t, ExamineChunk(doc, cfg, t, chunk), pieces);
    }
  }

  /** The keys stand in the order in which the accepted proposals first name them. */
  lemma {:induction false} OrderIsFirstSeen(doc: Document, cfg: Config, chunks: seq<Chunk>)
    ensures Ordered(PhaseOne(doc, cfg, chunks), Accepted(doc, cfg, chunks))
    decreases |chunks|
  {
    if chunks != [] {
      hide ExamineChunk, Ordered, AcceptedIn;
      var n := |chunks| - 1;
      OrderIsFirstSeen(doc, cfg, chunks[..n]);
      FoldNext((t: Tally, c) => ExamineChunk(doc, cfg, t, c), EMPTY_TALLY, chunks, n);
      assert chunks[..n + 1] == chunks;
      ChunkKeepsOrder(doc, cfg, PhaseOne(doc, cfg, chunks[..n]), chunks[n], Accepted(doc, cfg, chunks[..n]));
    }
  }

  // ----- Which proposals are looked at --------------------------------------------------------------------

  /** The accepted proposals are those of usable chunks, within the cap, that no gate rejects. */
  lemma {:induction false} AcceptedAre(doc: Document, cfg: Config, chunks: seq<Chunk>, p: Piece)
    ensures p in Accepted(doc, cfg, chunks) <==>
      && p.chunk in chunks && !Unusable(p.chunk, doc) && p.assertion in LookedAt(p.chunk, cfg)
      && Rejection(p.assertion, p.chunk.text, cfg).None?
    decreases |chunks|
  {
    hide Rejection;
    if chunks != [] {
      var n := |chunks| - 1;
      AcceptedAre(doc, cfg, chunks[..n], p);
      assert chunks == chunks[..n] + [chunks[n]];
      if !Unusable(chunks[n], doc) {
        CapsAgree(cfg.chunkCap, chunks[n], cfg);
        AcceptedInAre(chunks[n], cfg, LookedAt(chunks[n], cfg), p);
      }
      hide AcceptedIn, LookedAt;
    }
  }

  lemma {:induction false} AcceptedInAre(chunk: Chunk, cfg: Config, relations: seq<Assertion>, p: Piece)
    ensures p in AcceptedIn(chunk, cfg, relations) <==>
      p.chunk == chunk && p.assertion in relations && Rejection(p.assertion, chunk.text, cfg).None?
    decreases |relations|
  {
    hide Rejection;
    if relations != [] {
      var n := |relations| - 1;
      AcceptedInAre(chunk, cfg, relations[..n], p);
      assert relations == relations[..n] + [relations[n]];
    }
  }

  // ----- The status ---------------------------------------------------------------------------------------

  lemma {:induction false} FilterSize<A>(keep: A -> bool, xs: seq<A>)
    ensures |Filter(keep, xs)| <= |xs|
    ensures |Filter(keep, xs)| == 0 <==> forall x :: x in xs ==> !keep(x)
    ensures |Filter(keep, xs)| == |xs| <==> forall x :: x in xs ==> keep(x)
  {
    if xs != [] {
      FilterSize(keep, xs[1..]);
      assert xs == [xs[0]] + xs[1..];
    }
  }

  /** A run fails when it has chunks and none is usable, is partial when some but not all are, and else succeeds. */
  lemma StatusIs(doc: Document, cfg: Config, chunks: seq<Chunk>)
    ensures var status := ExtractionRun.StatusOf(|chunks|, PhaseOne(doc, cfg, chunks).failures);
            && (status == ExtractionRun.Failed <==> chunks != [] && forall c :: c in chunks ==> Unusable(c, doc))
            && (status == ExtractionRun.Succeeded <==> forall c :: c in chunks ==> !Unusable(c, doc))
            && (status == ExtractionRun.Partial <==>
                  (exists c :: c in chunks && Unusable(c, doc)) && exists c :: c in chunks && !Unusable(c, doc))
  {
    EveryCounterIsExact(doc, cfg, chunks, Schema);
    FilterSize((c: Chunk) => Unusable(c, doc), chunks);
    hide PhaseOne, Unusable, Filter, CountedOver, Accepted;
    if chunks != [] {
      assert chunks[0] in chunks;
    }
  }
}
