/** What the evidence of phase one is, told from the accepted proposals alone. */
module ExtractionEvidence {
  import opened Base
  import CycleFilter
  import Confidence
  import opened ExtractionGates

  /** An accepted proposal with the chunk it was made on. */
  datatype Piece = Piece(assertion: Assertion, chunk: Chunk)

  predicate HasKey(p: Piece, key: CycleFilter.Key) {
    var a := p.assertion;
    RelationOf(a.relation).Some? && a.source.Some? && a.target.Some? && KeyOf(a) == key
  }

  /** The accepted proposals of one reply, in order. */
  function AcceptedIn(chunk: Chunk, cfg: Config, relations: seq<Assertion>): seq<Piece> {
    if relations == [] then []
    else
      var last := relations[|relations| - 1];
      AcceptedIn(chunk, cfg, relations[..|relations| - 1])
      + if Rejection(last, chunk.text, cfg).None? then [Piece(last, chunk)] else []
  }

  /** The accepted proposals of a run, chunk by chunk. */
  function Accepted(doc: Document, cfg: Config, chunks: seq<Chunk>): seq<Piece> {
    if chunks == [] then []
    else
      var last := chunks[|chunks| - 1];
      Accepted(doc, cfg, chunks[..|chunks| - 1])
      + if InScope(last, doc) && last.reply.Parsed? then
          AcceptedIn(last, cfg, Within(cfg.chunkCap, last.reply.relations))
        else []
  }

  /** Everything absorbed for one key. */
  function Gather(key: CycleFilter.Key, pieces: seq<Piece>): Dossier {
    if pieces == [] then EMPTY_DOSSIER
    else
      var front, last := Gather(key, pieces[..|pieces| - 1]), pieces[|pieces| - 1];
      if HasKey(last, key) then Absorbed(front, last.assertion, last.chunk) else front
  }

  ghost predicate Mentions(pieces: seq<Piece>, key: CycleFilter.Key) {
    exists p :: p in pieces && HasKey(p, key)
  }

  /** The dossiers are the pieces grouped by key, and the counters say what became of the rest. */
  ghost predicate Grouped(t: Tally, pieces: seq<Piece>) {
    && (forall k :: k in t.dossiers <==> Mentions(pieces, k))
    && (forall k :: k in t.dossiers ==> t.dossiers[k] == Gather(k, pieces))
    && |pieces| == |t.order| + t.counts[DuplicateEdge]
  }

  lemma {:induction false} GatherNothing(key: CycleFilter.Key, pieces: seq<Piece>)
    requires !Mentions(pieces, key)
    ensures Gather(key, pieces) == EMPTY_DOSSIER
    decreases |pieces|
  {
    if pieces != [] {
      assert pieces[|pieces| - 1] in pieces;
      forall p | p in pieces[..|pieces| - 1] ensures !HasKey(p, key) {
        assert p in pieces;
      }
      GatherNothing(key, pieces[..|pieces| - 1]);
    }
  }

  lemma GatherNext(key: CycleFilter.Key, pieces: seq<Piece>, p: Piece)
    ensures Gather(key, pieces + [p]) ==
      if HasKey(p, key) then Absorbed(Gather(key, pieces), p.assertion, p.chunk) else Gather(key, pieces)
    ensures Mentions(pieces + [p], key) <==> Mentions(pieces, key) || HasKey(p, key)
  {
    assert (pieces + [p])[..|pieces + [p]| - 1] == pieces;
    assert p in pieces + [p];
    forall q | q in pieces ensures q in pieces + [p] {
    }
  }

  lemma RelationGrouped(chunk: Chunk, cfg: Config, t: Tally, a: Assertion, pieces: seq<Piece>)
    requires Grouped(t, pieces)
    ensures Grouped(ExamineRelation(chunk, cfg, t, a),
                    pieces + if Rejection(a, chunk.text, cfg).None? then [Piece(a, chunk)] else [])
  {
    GateIsNotAConflict(a, chunk.text, cfg);
    if Rejection(a, chunk.text, cfg).Some? {
      assert pieces + [] == pieces;
      hide Rejection, Gather, Mentions;
    } else {
      RecordGrouped(t, a, chunk, pieces);
      hide Rejection, Grouped, Record;
    }
  }

  lemma RecordGrouped(t: Tally, a: Assertion, chunk: Chunk, pieces: seq<Piece>)
    requires Grouped(t, pieces) && RelationOf(a.relation).Some? && a.source.Some? && a.target.Some?
    ensures Grouped(Record(t, KeyOf(a), a, chunk), pieces + [Piece(a, chunk)])
  {
    var key, p := KeyOf(a), Piece(a, chunk);
    forall k
      ensures Gather(k, pieces + [p]) == if HasKey(p, k) then Absorbed(Gather(k, pieces), a, chunk) else Gather(k, pieces)
      ensures Mentions(pieces + [p], k) <==> Mentions(pieces, k) || HasKey(p, k)
    {
      GatherNext(k, pieces, p);
    }
    if key !in t.dossiers {
      GatherNothing(key, pieces);
    }
    assert HasKey(p, key) && forall k :: HasKey(p, k) ==> k == key;
    hide Gather, Mentions, HasKey, Absorbed, RelationOf;
  }

  lemma {:induction false} RelationsGrouped(
      chunk: Chunk, cfg: Config, t: Tally, relations: seq<Assertion>, pieces: seq<Piece>)
    requires Grouped(t, pieces)
    ensures Grouped(Fold((t: Tally, a) => ExamineRelation(chunk, cfg, t, a), t, relations),
                    pieces + AcceptedIn(chunk, cfg, relations))
    decreases |relations|
  {
    hide ExamineRelation, Grouped, Rejection;
    var step := (t: Tally, a) => ExamineRelation(chunk, cfg, t, a);
    if relations == [] {
      assert pieces + AcceptedIn(chunk, cfg, relations) == pieces;
    } else {
      var n := |relations| - 1;
      RelationsGrouped(chunk, cfg, t, relations[..n], pieces);
      FoldNext(step, t, relations, n);
      assert relations[..n + 1] == relations;
      var before := pieces + AcceptedIn(chunk, cfg, relations[..n]);
      RelationGrouped(chunk, cfg, Fold(step, t, relations[..n]), relations[n], before);
      var more := if Rejection(relations[n], chunk.text, cfg).None? then [Piece(relations[n], chunk)] else [];
      assert before + more == pieces + (AcceptedIn(chunk, cfg, relations[..n]) + more);
    }
  }

  lemma ChunkGrouped(doc: Document, cfg: Config, t: Tally, chunk: Chunk, pieces: seq<Piece>)
    requires Grouped(t, pieces)
    ensures Grouped(ExamineChunk(doc, cfg, t, chunk),
                    pieces + if InScope(chunk, doc) && chunk.reply.Parsed? then
                      AcceptedIn(chunk, cfg, Within(cfg.chunkCap, chunk.reply.relations)) else [])
  {
    hide Gather, Mentions, AcceptedIn;
    if InScope(chunk, doc) && chunk.reply.Parsed? {
      var gates, relations := chunk.reply.conceptGates, chunk.reply.relations;
      ConceptsCounted(t, gates);
      var t1 := Fold(CountConcept, t, gates);
      ExcessCounted(t1, Beyond(cfg.chunkCap, relations));
      RelationsGrouped(chunk, cfg, Fold(CountExcess, t1, Beyond(cfg.chunkCap, relations)),
        Within(cfg.chunkCap, relations), pieces);
    } else {
      assert pieces + [] == pieces;
    }
  }

  /** Phase one is: keep the accepted proposals, group them by key. */
  lemma {:induction false} PhaseOneGroups(doc: Document, cfg: Config, chunks: seq<Chunk>)
    ensures Grouped(PhaseOne(doc, cfg, chunks), Accepted(doc, cfg, chunks))
    decreases |chunks|
  {
    if chunks != [] {
      hide ExamineChunk, Grouped, AcceptedIn;
      var n := |chunks| - 1;
      PhaseOneGroups(doc, cfg, chunks[..n]);
      FoldNext((t: Tally, c) => ExamineChunk(doc, cfg, t, c), EMPTY_TALLY, chunks, n);
      assert chunks[..n + 1] == chunks;
      ChunkGrouped(doc, cfg, PhaseOne(doc, cfg, chunks[..n]), chunks[n], Accepted(doc, cfg, chunks[..n]));
    }
  }

  // ----- What a dossier says -----------------------------------------------------------------------

  /** A dossier holds what its pieces say: nothing more, nothing twice, nothing lost. */
  ghost predicate Summarises(d: Dossier, key: CycleFilter.Key, pieces: seq<Piece>) {
    && (forall p :: p in pieces && HasKey(p, key) ==>
          && p.assertion.confidence <= d.maxConfidence && (p.assertion.cue == Confidence.Explicit ==> d.explicitCue)
          && p.chunk.document in d.documents && p.chunk.id in d.chunks && SourceOf(p.assertion, p.chunk) in d.sources)
    && (d.maxConfidence == 0.0 || exists p :: p in pieces && HasKey(p, key) && p.assertion.confidence == d.maxConfidence)
    && (d.explicitCue ==> exists p :: p in pieces && HasKey(p, key) && p.assertion.cue == Confidence.Explicit)
    && (forall s :: s in d.sources ==> exists p :: p in pieces && HasKey(p, key) && SourceOf(p.assertion, p.chunk) == s)
    && (forall i, j :: 0 <= i < j < |d.sources| ==> d.sources[i] != d.sources[j])
    && d.first == if d.sources == [] then None else Some(d.sources[0])
  }

  lemma {:induction false} GatherSummarises(key: CycleFilter.Key, pieces: seq<Piece>)
    ensures Summarises(Gather(key, pieces), key, pieces)
    decreases |pieces|
  {
    if pieces != [] {
      var n := |pieces| - 1;
      GatherSummarises(key, pieces[..n]);
      SummaryGrows(Gather(key, pieces[..n]), key, pieces[..n], pieces[n]);
      assert pieces == pieces[..n] + [pieces[n]];
    }
  }

  lemma SummaryGrows(d: Dossier, key: CycleFilter.Key, pieces: seq<Piece>, p: Piece)
    requires Summarises(d, key, pieces)
    ensures Summarises(if HasKey(p, key) then Absorbed(d, p.assertion, p.chunk) else d, key, pieces + [p])
  {
    hide HasKey;
    assert p in pieces + [p];
    forall q | q in pieces ensures q in pieces + [p] {
    }
    forall q | q in pieces + [p] ensures q in pieces || q == p {
    }
  }

  /** Every dossier of a run summarises exactly the accepted proposals for its key. */
  lemma EvidenceIsExact(doc: Document, cfg: Config, chunks: seq<Chunk>)
    ensures var t, pieces := PhaseOne(doc, cfg, chunks), Accepted(doc, cfg, chunks);
            && (forall k :: k in t.dossiers <==> Mentions(pieces, k))
            && (forall k :: k in t.dossiers ==> Summarises(t.dossiers[k], k, pieces))
            && |pieces| == |t.order| + t.counts[DuplicateEdge]
  {
    var t, pieces := PhaseOne(doc, cfg, chunks), Accepted(doc, cfg, chunks);
    PhaseOneGroups(doc, cfg, chunks);
    hide PhaseOne, Accepted, Summarises, Mentions, Gather;
    forall k | k in t.dossiers ensures Summarises(t.dossiers[k], k, pieces) {
      GatherSummarises(k, pieces);
    }
  }
}
