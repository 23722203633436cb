/** A whole extraction run as it updates its counters, its evidence and the stored graph; and runs in sequence. */
module ExtractionRun {
  import opened Base
  import opened CycleFilter
  import opened Confidence
  import opened ExtractionGates
  import opened ExtractionWrite

  /** The stored edges of one tenant. */
  class ConceptGraph {
    var rows: Rows

    constructor (rows: Rows)
      ensures this.rows == rows
    {
      this.rows := rows;
    }

    /** The verified flag of every stored edge between two concepts, in either direction. */
    method ExistingEdgeStates(key: Key) returns (states: map<Key, bool>)
      ensures forall k :: k in states <==> k in rows && SamePair(k, key)
      ensures forall k :: k in states ==> states[k] == rows[k].verified
    {
      states := map k | k in rows && SamePair(k, key) :: rows[k].verified;
    }

    /** Inserts or merges one edge unless the stored row is verified; false when nothing was written. */
    method UpsertEdge(key: Key, score: real, d: Dossier) returns (outcome: UpsertOutcome)
      modifies this
      ensures outcome == UpsertOutcomeOf(old(rows), key)
      ensures rows == Upserted(old(rows), key, score, d)
    {
      if key.source == key.target {
        return IntegrityError;
      }
      if key in rows {
        var row := rows[key];
        if row.verified {
          return Untouched;
        }
        rows := rows[key := Row(false, Max(row.confidence, score), Max(row.weight, EDGE_WEIGHT),
                                row.explicitCue || d.explicitCue, row.corroborations + 1, row.sources + d.sources,
                                row.first)];
      } else {
        rows := rows[key := Row(false, score, EDGE_WEIGHT, d.explicitCue, 1, d.sources, d.first)];
      }
      return Written;
    }
  }

  datatype Status = Failed | Partial | Succeeded

  function StatusOf(selected: nat, failures: nat): Status {
    if selected > 0 && failures == selected then Failed
    else if failures > 0 then Partial
    else Succeeded
  }

  class ExtractionRun {
    var rejectionCounts: Counts
    var edgesRejected: nat
    var chunkFailures: nat
    var order: seq<Key>
    var accumulators: map<Key, EdgeEvidence>
    var edgesWritten: nat
    var edgesQueued: nat
    var edgesOut: seq<Summary>

    ghost function Objects(): set<EdgeEvidence>
      reads this
    {
      set k | k in accumulators :: accumulators[k]
    }

    /** Each key has its own evidence object. */
    ghost predicate Valid()
      reads this
    {
      forall k, j :: k in accumulators && j in accumulators && k != j ==> accumulators[k] != accumulators[j]
    }

    /** The accumulated evidence and counters as a value. */
    ghost function View(): Tally
      reads this, Objects()
    {
      Tally(rejectionCounts, edgesRejected, chunkFailures, order, map k | k in accumulators :: accumulators[k].View())
    }

    constructor ()
      ensures Valid() && View() == EMPTY_TALLY && Objects() == {}
      ensures edgesWritten == 0 && edgesQueued == 0 && edgesOut == []
    {
      rejectionCounts, edgesRejected, chunkFailures, order, accumulators := multiset{}, 0, 0, [], map[];
      edgesWritten, edgesQueued, edgesOut := 0, 0, [];
    }

    /** One proposed relation: the gates, then the accumulator of its key. */
    method ExamineProposal(a: Assertion, chunk: Chunk, cfg: Config)
      requires Valid()
      modifies this`rejectionCounts, this`edgesRejected, this`order, this`accumulators, Objects()
      ensures Valid() && fresh(Objects() - old(Objects()))
      ensures View() == ExamineRelation(chunk, cfg, old(View()), a)
    {
      hide Rejection, KeyOf, Absorbed;
      var gate := Rejection(a, chunk.text, cfg);
      if gate.Some? {
        rejectionCounts := Count(rejectionCounts, gate.value);
        edgesRejected := edgesRejected + 1;
      } else {
        AcceptedHasKey(a, chunk, cfg);
        AbsorbProposal(KeyOf(a), a, chunk);
      }
    }

    method AbsorbProposal(key: Key, a: Assertion, chunk: Chunk)
      requires Valid()
      modifies this`rejectionCounts, this`order, this`accumulators, Objects()
      ensures Valid() && fresh(Objects() - old(Objects()))
      ensures View() == Record(old(View()), key, a, chunk)
    {
      hide Absorbed;
      ghost var before := View();
      if key in accumulators {
        rejectionCounts := Count(rejectionCounts, DuplicateEdge);
        accumulators[key].Absorb(a, chunk);
        assert View().dossiers == before.dossiers[key := Absorbed(before.dossiers[key], a, chunk)];
      } else {
        var entry := new EdgeEvidence();
        entry.Absorb(a, chunk);
        accumulators := accumulators[key := entry];
        order := order + [key];
        assert View().dossiers == before.dossiers[key := Absorbed(EMPTY_DOSSIER, a, chunk)];
      }
    }

    method CountConceptGates(gates: seq<ConceptGate>)
      modifies this`rejectionCounts
      ensures View() == Fold(CountConcept, old(View()), gates)
    {
      for i := 0 to |gates|
        invariant View() == Fold(CountConcept, old(View()), gates[..i])
      {
        FoldNext(CountConcept, old(View()), gates, i);
        rejectionCounts := Count(rejectionCounts, GateOf(gates[i]));
      }
      assert gates[..|gates|] == gates;
    }

    method CountExcessRelations(excess: seq<Assertion>)
      modifies this`rejectionCounts
      ensures View() == Fold(CountExcess, old(View()), excess)
    {
      for i := 0 to |excess|
        invariant View() == Fold(CountExcess, old(View()), excess[..i])
      {
        FoldNext(CountExcess, old(View()), excess, i);
        rejectionCounts := Count(rejectionCounts, ChunkEdgeCap);
      }
      assert excess[..|excess|] == excess;
    }

    method ExamineProposals(relations: seq<Assertion>, chunk: Chunk, cfg: Config)
      requires Valid()
      modifies this`rejectionCounts, this`edgesRejected, this`order, this`accumulators, Objects()
      ensures Valid() && fresh(Objects() - old(Objects()))
      ensures View() == Fold((t: Tally, a) => ExamineRelation(chunk, cfg, t, a), old(View()), relations)
    {
      hide ExamineRelation;
      ghost var step := (t: Tally, a) => ExamineRelation(chunk, cfg, t, a);
      for i := 0 to |relations|
        invariant Valid() && fresh(Objects() - old(Objects()))
        invariant View() == Fold(step, old(View()), relations[..i])
      {
        FoldNext(step, old(View()), relations, i);
        ExamineProposal(relations[i], chunk, cfg);
      }
      assert relations[..|relations|] == relations;
    }

    /** One selected chunk: its scope, its reply, the concept gates, the excess, the relations. */
    method ReadChunk(chunk: Chunk, doc: Document, cfg: Config)
      requires Valid()
      modifies this`rejectionCounts, this`edgesRejected, this`chunkFailures, this`order, this`accumulators, Objects()
      ensures Valid() && fresh(Objects() - old(Objects()))
      ensures View() == ExamineChunk(doc, cfg, old(View()), chunk)
    {
      hide ExamineRelation;
      if !InScope(chunk, doc) {
        rejectionCounts := Count(rejectionCounts, DocumentScope);
        chunkFailures := chunkFailures + 1;
      } else if !chunk.reply.Parsed? {
        rejectionCounts := Count(rejectionCounts, Schema);
        chunkFailures := chunkFailures + 1;
      } else {
        CountConceptGates(chunk.reply.conceptGates);
        CountExcessRelations(Beyond(cfg.chunkCap, chunk.reply.relations));
        ExamineProposals(Within(cfg.chunkCap, chunk.reply.relations), chunk, cfg);
      }
    }

    /** The first loop. */
    method ReadChunks(chunks: seq<Chunk>, doc: Document, cfg: Config)
      requires Valid() && View() == EMPTY_TALLY
      modifies this`rejectionCounts, this`edgesRejected, this`chunkFailures, this`order, this`accumulators, Objects()
      ensures Valid() && fresh(Objects() - old(Objects()))
      ensures View() == PhaseOne(doc, cfg, chunks)
    {
      hide ExamineChunk;
      ghost var step := (t: Tally, c) => ExamineChunk(doc, cfg, t, c);
      for i := 0 to |chunks|
        invariant Valid() && fresh(Objects() - old(Objects()))
        invariant View() == Fold(step, EMPTY_TALLY, chunks[..i])
      {
        FoldNext(step, EMPTY_TALLY, chunks, i);
        ReadChunk(chunks[i], doc, cfg);
      }
      assert chunks[..|chunks|] == chunks;
    }

    /** The state of the second loop as a value. */
    ghost function LedgerView(rows: Rows, aborted: bool): Ledger
      reads this
    {
      Ledger(rows, rejectionCounts, edgesRejected, edgesWritten, edgesQueued, edgesOut, aborted)
    }

    method RejectEdge(gate: Gate)
      modifies this`rejectionCounts, this`edgesRejected
      ensures rejectionCounts == Count(old(rejectionCounts), gate) && edgesRejected == old(edgesRejected) + 1
    {
      rejectionCounts := Count(rejectionCounts, gate);
      edgesRejected := edgesRejected + 1;
    }

    /** The verified row is left as it is; the new evidence is queued. */
    method QueueConflict()
      modifies this`rejectionCounts, this`edgesQueued
      ensures rejectionCounts == Count(old(rejectionCounts), VerifiedConflict) && edgesQueued == old(edgesQueued) + 1
    {
      rejectionCounts := Count(rejectionCounts, VerifiedConflict);
      edgesQueued := edgesQueued + 1;
    }

    /** The upsert and the three things it can come back with. */
    method WriteEdge(graph: ConceptGraph, key: Key, d: Dossier, score: EdgeScore) returns (raised: bool)
      modifies this`rejectionCounts, this`edgesWritten, this`edgesQueued, this`edgesOut, graph
      ensures LedgerView(graph.rows, raised) == Write(old(LedgerView(graph.rows, false)), key, d, score)
    {
      hide Merged;
      raised := false;
      var outcome := graph.UpsertEdge(key, score.score, d);
      match outcome {
        case IntegrityError =>
          raised := true;
        case Untouched =>
          QueueConflict();
        case Written =>
          edgesWritten := edgesWritten + 1;
          if score.disposition == Review {
            edgesQueued := edgesQueued + 1;
          }
          edgesOut := edgesOut + [Summary(key, score.score, d.explicitCue, score.disposition)];
      }
    }

    /** Scores the evidence against the stored graph. */
    method ScoreStored(
        graph: ConceptGraph, key: Key, d: Dossier, cfg: Config) returns (score: EdgeScore, conflict: bool)
      ensures score == ScoreEdge(EvidenceFor(graph.rows, key, d), cfg.decay, cfg.weights)
      ensures conflict == (VerifiedSame(graph.rows, key) || VerifiedOther(graph.rows, key))
    {
      hide ClosesCycle, ScoreEdge;
      var states := graph.ExistingEdgeStates(key);
      var same := key in states && states[key];
      var other := exists k | k in states :: k != key && states[k];
      assert other == VerifiedOther(graph.rows, key);
      var path := !same && ClosesCycle(graph.rows, Key(key.target, key.source, key.relation));
      score := ScoreEdge(
        Evidence(d.maxConfidence, |d.documents|, if d.explicitCue then Explicit else Inferred, false, same, path, other),
        cfg.decay, cfg.weights);
      conflict := same || other;
    }

    /** One turn of the second loop. */
    method SettleOne(
        graph: ConceptGraph, key: Key, d: Dossier, contradictory: set<Key>, cfg: Config)
      returns (raised: bool)
      modifies this`rejectionCounts, this`edgesRejected, this`edgesWritten, this`edgesQueued, this`edgesOut, graph
      ensures LedgerView(graph.rows, raised)
           == SettleKey(contradictory, cfg, old(LedgerView(graph.rows, false)), key, d)
    {
      hide ClosesCycle, ScoreEdge, Write, VerifiedOther, EvidenceFor;
      raised := false;
      if key in contradictory {
        RejectEdge(ContradictoryCycle);
      } else if edgesWritten >= cfg.documentCap {
        RejectEdge(DocumentEdgeCap);
      } else if ClosesCycle(graph.rows, key) {
        RejectEdge(Cycle);
      } else {
        var score, conflict := ScoreStored(graph, key, d, cfg);
        if conflict {
          QueueConflict();
        } else if score.score < cfg.weights.reviewFloor {
          RejectEdge(ConfidenceFloor);
        } else {
          raised := WriteEdge(graph, key, d, score);
        }
      }
    }

    /** The second loop, in insertion order. */
    method WriteEvidence(graph: ConceptGraph, contradictory: set<Key>, cfg: Config) returns (raised: bool)
      requires Valid() && forall k :: k in order ==> k in accumulators
      modifies this`rejectionCounts, this`edgesRejected, this`edgesWritten, this`edgesQueued, this`edgesOut, graph
      ensures LedgerView(graph.rows, raised)
           == Fold((l: Ledger, key) => Settle(contradictory, cfg, old(View()).dossiers, l, key),
                   old(LedgerView(graph.rows, false)), order)
    {
      hide SettleKey;
      ghost var dossiers := View().dossiers;
      ghost var turn := (l: Ledger, key) => Settle(contradictory, cfg, dossiers, l, key);
      ghost var start := LedgerView(graph.rows, false);
      raised := false;
      for i := 0 to |order|
        invariant !raised && LedgerView(graph.rows, raised) == Fold(turn, start, order[..i])
      {
        FoldNext(turn, start, order, i);
        var key := order[i];
        assert key in order;
        var d := accumulators[key].View();
        assert d == dossiers[key];
        raised := SettleOne(graph, key, d, contradictory, cfg);
        if raised {
          AbortedSoFar(contradictory, cfg, dossiers, start, order, i + 1);
          return;
        }
      }
      assert order[..|order|] == order;
    }

    /** The whole run over the selected chunks; `raised` is the integrity error reaching the caller. */
    method ExtractFromChunks(graph: ConceptGraph, doc: Document, chunks: seq<Chunk>, cfg: Config)
      returns (raised: bool, status: Status)
      requires Valid() && View() == EMPTY_TALLY && edgesWritten == 0 && edgesQueued == 0 && edgesOut == []
      modifies this, Objects(), graph
      ensures LedgerView(graph.rows, raised) == PhaseTwo(PhaseOne(doc, cfg, chunks), cfg, old(graph.rows))
      ensures status == StatusOf(|chunks|, PhaseOne(doc, cfg, chunks).failures)
    {
      hide PhaseOne, Settle, Balanced, SoundDossier;
      ReadChunks(chunks, doc, cfg);
      ghost var t := View();
      status := StatusOf(|chunks|, chunkFailures);
      PhaseOneSound(doc, cfg, chunks, set c | c in chunks);
      assert KeySet(order) == t.dossiers.Keys;
      var contradictory := ContradictoryRequiresEdges(order);
      raised := WriteEvidence(graph, contradictory, cfg);
    }
  }

  lemma AcceptedHasKey(a: Assertion, chunk: Chunk, cfg: Config)
    requires Rejection(a, chunk.text, cfg).None?
    ensures RelationOf(a.relation).Some? && a.source.Some? && a.target.Some?
  {
  }

  lemma AbortedSoFar(
      contradictory: set<Key>, cfg: Config, dossiers: map<Key, Dossier>, l: Ledger, keys: seq<Key>, i: nat)
    requires i <= |keys|
    requires Fold((l: Ledger, key) => Settle(contradictory, cfg, dossiers, l, key), l, keys[..i]).aborted
    ensures Fold((l: Ledger, key) => Settle(contradictory, cfg, dossiers, l, key), l, keys)
         == Fold((l: Ledger, key) => Settle(contradictory, cfg, dossiers, l, key), l, keys[..i])
  {
    var turn := (l: Ledger, key) => Settle(contradictory, cfg, dossiers, l, key);
    FoldConcat(turn, l, keys[..i], keys[i..]);
    assert keys[..i] + keys[i..] == keys;
    var s := Setting(Document(0, 0), {}, cfg, dossiers, map[]);
    AbortSticks(s, contradictory, Fold(turn, l, keys[..i]), keys[i..]);
  }
}
