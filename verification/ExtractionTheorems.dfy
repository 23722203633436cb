/** What holds of a whole extraction run, and of any number of runs one after another. */
module ExtractionTheorems {
  import opened Base
  import opened Walks
  import opened CycleFilter
  import CycleCheck
  import Confidence
  import opened ExtractionGates
  import opened ExtractionWrite

  datatype RunInput = RunInput(doc: Document, cfg: Config, chunks: seq<Chunk>)

  ghost function TallyOf(run: RunInput): Tally {
    PhaseOne(run.doc, run.cfg, run.chunks)
  }

  ghost function LedgerOf(run: RunInput, rows: Rows): Ledger {
    PhaseTwo(TallyOf(run), run.cfg, rows)
  }

  function ChunkSet(run: RunInput): set<Chunk> {
    set c | c in run.chunks
  }

  ghost function SettingOf(run: RunInput, rows: Rows): Setting {
    Setting(run.doc, ChunkSet(run), run.cfg, TallyOf(run).dossiers, rows)
  }

  ghost function StartOf(run: RunInput, rows: Rows): Ledger {
    Ledger(rows, TallyOf(run).counts, TallyOf(run).rejected, 0, 0, [], false)
  }

  lemma PhasesCompose(run: RunInput, rows: Rows)
    ensures var s, l, t := SettingOf(run, rows), LedgerOf(run, rows), TallyOf(run);
            && SoundSetting(s) && SoundLedger(s, l)
            && Balanced(t, SeenIn(run.doc, run.cfg, run.chunks))
            && (!l.aborted ==> LedgerBalanced(s, l, StartOf(run, rows), |t.order|))
  {
    hide PhaseOne, Settle, SoundDossier, Balanced;
    var s, t := SettingOf(run, rows), TallyOf(run);
    PhaseOneSound(run.doc, run.cfg, run.chunks, ChunkSet(run));
    assert t.counts[VerifiedConflict] == 0 by { NoConflictYet(t, SeenIn(run.doc, run.cfg, run.chunks)); }
    var start := StartOf(run, rows);
    hide Contradictory;
    SettleAll(s, Contradictory(t.dossiers.Keys), start, t.order, start, 0);
  }

  lemma NoConflictYet(t: Tally, seen: Seen)
    requires Balanced(t, seen)
    ensures t.counts[VerifiedConflict] == 0
  {
  }

  /**
    Conservation. Of the relations examined within the per-chunk cap each was rejected, collapsed
    as a duplicate, written, or met a verified edge; of the evidence keys each was rejected in the
    second phase, met a verified edge, or was written; and the per-gate counters add up to the
    aggregates.
   */
  lemma RunConserves(run: RunInput, rows: Rows)
    requires !LedgerOf(run, rows).aborted
    ensures var t, l, seen := TallyOf(run), LedgerOf(run, rows), SeenIn(run.doc, run.cfg, run.chunks);
            var conflicts, duplicates := l.counts[VerifiedConflict], l.counts[DuplicateEdge];
            && seen.examined == l.rejected + duplicates + l.written + conflicts
            && |t.order| == (l.rejected - t.rejected) + conflicts + l.written
            && l.queued == l.written + conflicts
            && l.written == |l.out| && (l.written > 0 ==> l.written <= run.cfg.documentCap)
            && |l.counts| == l.rejected + duplicates + conflicts + seen.excess + seen.concepts + t.failures
  {
    hide PhaseOne, PhaseTwo, SeenIn;
    PhasesCompose(run, rows);
    hide SoundSetting, SoundLedger;
  }

  /**
    No run auto-accepts. Every edge written is for review with a score in [review floor, 1], joins
    two different concepts between which no edge was verified, and is explicit when it is a
    `requires` edge; the stored row is the old one merged with the run's evidence.
   */
  lemma RunNeverAutoAccepts(run: RunInput, rows: Rows)
    ensures forall e :: e in LedgerOf(run, rows).out ==>
      && e.disposition == Confidence.Review && run.cfg.weights.reviewFloor <= e.score <= 1.0
      && (e.key.relation == Requires ==> e.explicitCue)
      && e.key.source != e.key.target && !VerifiedSame(rows, e.key) && !VerifiedOther(rows, e.key)
      && e.key in LedgerOf(run, rows).rows && e.key in TallyOf(run).dossiers
      && LedgerOf(run, rows).rows[e.key] == Merged(rows, e.key, e.score, TallyOf(run).dossiers[e.key])
  {
    PhasesCompose(run, rows);
    hide PhaseOne, PhaseTwo, Merged, VerifiedOther;
  }

  /** Outside the written keys nothing changes, and no verified row changes at all. */
  lemma RunFrame(run: RunInput, rows: Rows)
    ensures forall k :: k in rows && (rows[k].verified || k !in WrittenKeys(LedgerOf(run, rows).out)) ==>
      k in LedgerOf(run, rows).rows && LedgerOf(run, rows).rows[k] == rows[k]
    ensures forall k :: k in LedgerOf(run, rows).rows ==> k in rows || k in WrittenKeys(LedgerOf(run, rows).out)
  {
    PhasesCompose(run, rows);
    hide PhaseOne, PhaseTwo, Verbatim;
  }

  /** Every quote stored by the run, in the list or in the row itself, occurs, once normalised, in the in-scope chunk it names. */
  lemma StoredQuotesAreVerbatim(run: RunInput, rows: Rows)
    ensures forall k, q :: k in LedgerOf(run, rows).rows && q in LedgerOf(run, rows).rows[k].sources ==>
      (k in rows && q in rows[k].sources) || Verbatim(q, run.doc, ChunkSet(run), run.cfg.text)
    ensures forall k :: k in LedgerOf(run, rows).rows && LedgerOf(run, rows).rows[k].first.Some? ==>
      || (k in rows && rows[k].first == LedgerOf(run, rows).rows[k].first)
      || Verbatim(LedgerOf(run, rows).rows[k].first.value, run.doc, ChunkSet(run), run.cfg.text)
  {
    PhasesCompose(run, rows);
    hide PhaseOne, PhaseTwo, Verbatim;
  }

  /** The caller's transaction: a raised run is rolled back as a unit. */
  ghost function RunRows(run: RunInput, rows: Rows): Rows {
    if LedgerOf(run, rows).aborted then rows else LedgerOf(run, rows).rows
  }

  ghost predicate WritesBlind(run: RunInput, rows: Rows, r: Relation) {
    var t := TallyOf(run);
    AnyBlindWrite(Contradictory(t.dossiers.Keys), run.cfg, t.dossiers, StartOf(run, rows), t.order, r)
  }

  /** One run keeps a closure relation acyclic exactly when it raised or wrote nothing blind. */
  lemma RunAcyclicIff(run: RunInput, rows: Rows, r: Relation)
    requires InClosure(r) && Acyclic(EdgesOf(rows, r))
    ensures Acyclic(EdgesOf(RunRows(run, rows), r)) <==> LedgerOf(run, rows).aborted || !WritesBlind(run, rows, r)
  {
    hide PhaseOne, Settle, AnyBlindWrite, Acyclic, EdgesOf;
    var t := TallyOf(run);
    var contradictory := Contradictory(t.dossiers.Keys);
    hide Contradictory;
    LoopAcyclicIff(contradictory, run.cfg, t.dossiers, StartOf(run, rows), t.order, r);
  }

  // ----- Any number of runs -----------------------------------------------------------------------

  ghost predicate AssertionOver(a: Assertion, nodes: set<Node>) {
    (a.source.Some? ==> a.source.value.id in nodes) && (a.target.Some? ==> a.target.value.id in nodes)
  }

  ghost predicate RelationsOver(relations: seq<Assertion>, nodes: set<Node>) {
    forall a :: a in relations ==> AssertionOver(a, nodes)
  }

  /** Every name of the run resolves into `nodes`, if at all. */
  ghost predicate RunOver(run: RunInput, nodes: set<Node>) {
    forall c :: c in run.chunks && c.reply.Parsed? ==> RelationsOver(c.reply.relations, nodes)
  }

  lemma {:induction false} RelationsKeepKeysOver(
      chunk: Chunk, cfg: Config, t: Tally, relations: seq<Assertion>, nodes: set<Node>)
    requires KeysOver(t.dossiers.Keys, nodes) && RelationsOver(relations, nodes)
    ensures KeysOver(Fold((t: Tally, a) => ExamineRelation(chunk, cfg, t, a), t, relations).dossiers.Keys, nodes)
    decreases |relations|
  {
    hide Rejection, Absorbed;
    if relations != [] {
      var a := relations[0];
      assert AssertionOver(a, nodes) by { assert a in relations; }
      if Rejection(a, chunk.text, cfg).None? {
        AcceptedEndpoints(a, chunk, cfg);
      }
      RelationsKeepKeysOver(chunk, cfg, ExamineRelation(chunk, cfg, t, a), relations[1..], nodes);
    }
  }

  lemma AcceptedEndpoints(a: Assertion, chunk: Chunk, cfg: Config)
    requires Rejection(a, chunk.text, cfg).None?
    ensures RelationOf(a.relation).Some? && a.source.Some? && a.target.Some?
    ensures KeyOf(a).source == a.source.value.id && KeyOf(a).target == a.target.value.id
  {
  }

  lemma ChunkKeepsKeysOver(doc: Document, cfg: Config, t: Tally, chunk: Chunk, nodes: set<Node>)
    requires KeysOver(t.dossiers.Keys, nodes)
    requires chunk.reply.Parsed? ==> RelationsOver(chunk.reply.relations, nodes)
    ensures KeysOver(ExamineChunk(doc, cfg, t, chunk).dossiers.Keys, nodes)
  {
    hide ExamineRelation, KeysOver;
    if InScope(chunk, doc) && chunk.reply.Parsed? {
      var gates, relations := chunk.reply.conceptGates, chunk.reply.relations;
      ConceptsCounted(t, gates);
      var t1 := Fold(CountConcept, t, gates);
      ExcessCounted(t1, Beyond(cfg.chunkCap, relations));
      var t2 := Fold(CountExcess, t1, Beyond(cfg.chunkCap, relations));
      RelationsKeepKeysOver(chunk, cfg, t2, Within(cfg.chunkCap, relations), nodes);
    }
  }

  lemma {:induction false} ChunksKeepKeysOver(
      doc: Document, cfg: Config, t: Tally, chunks: seq<Chunk>, nodes: set<Node>)
    requires KeysOver(t.dossiers.Keys, nodes)
    requires forall c :: c in chunks && c.reply.Parsed? ==> RelationsOver(c.reply.relations, nodes)
    ensures KeysOver(Fold((t: Tally, c) => ExamineChunk(doc, cfg, t, c), t, chunks).dossiers.Keys, nodes)
    decreases |chunks|
  {
    hide ExamineChunk, KeysOver, RelationsOver;
    if chunks != [] {
      assert chunks[0] in chunks;
      ChunkKeepsKeysOver(doc, cfg, t, chunks[0], nodes);
      ChunksKeepKeysOver(doc, cfg, ExamineChunk(doc, cfg, t, chunks[0]), chunks[1..], nodes);
    }
  }

  /** Over at most cap + 1 concepts one run keeps every closure relation acyclic. */
  lemma SmallRunKeepsAcyclic(run: RunInput, rows: Rows, r: Relation, nodes: set<Node>)
    requires InClosure(r) && Acyclic(EdgesOf(rows, r))
    requires |nodes| <= CycleCheck.MAX_PATH_LEN + 1 && KeysOver(rows.Keys, nodes) && RunOver(run, nodes)
    ensures Acyclic(EdgesOf(RunRows(run, rows), r)) && KeysOver(RunRows(run, rows).Keys, nodes)
  {
    var t := TallyOf(run);
    ChunksKeepKeysOver(run.doc, run.cfg, EMPTY_TALLY, run.chunks, nodes);
    PhaseOneSound(run.doc, run.cfg, run.chunks, ChunkSet(run));
    hide PhaseOne, Settle, AnyBlindWrite, Acyclic, EdgesOf, SoundDossier, Balanced;
    var contradictory := Contradictory(t.dossiers.Keys);
    hide Contradictory;
    FewConceptsNoBlindWrite(contradictory, run.cfg, t.dossiers, StartOf(run, rows), t.order, r, nodes);
    RunAcyclicIff(run, rows, r);
  }

  ghost function AllRuns(runs: seq<RunInput>, rows: Rows): Rows
    decreases |runs|
  {
    if runs == [] then rows else AllRuns(runs[1..], RunRows(runs[0], rows))
  }

  /** Any number of runs, on any model outputs, keep every closure relation acyclic on at most 21 concepts. */
  lemma {:induction false} RunsKeepAcyclic(runs: seq<RunInput>, rows: Rows, r: Relation, nodes: set<Node>)
    requires InClosure(r) && Acyclic(EdgesOf(rows, r))
    requires |nodes| <= CycleCheck.MAX_PATH_LEN + 1 && KeysOver(rows.Keys, nodes)
    requires forall run :: run in runs ==> RunOver(run, nodes)
    ensures Acyclic(EdgesOf(AllRuns(runs, rows), r))
    decreases |runs|
  {
    hide RunRows, Acyclic, EdgesOf, KeysOver, RunOver;
    if runs != [] {
      assert runs[0] in runs;
      SmallRunKeepsAcyclic(runs[0], rows, r, nodes);
      RunsKeepAcyclic(runs[1..], RunRows(runs[0], rows), r, nodes);
    }
  }

  /** No run of the sequence writes an edge of the relation blind. */
  ghost predicate NoneBlind(runs: seq<RunInput>, rows: Rows, r: Relation)
    decreases |runs|
  {
    runs == [] ||
    ((LedgerOf(runs[0], rows).aborted || !WritesBlind(runs[0], rows, r)) && NoneBlind(runs[1..], RunRows(runs[0], rows), r))
  }

  lemma RunEdgesGrow(run: RunInput, rows: Rows, r: Relation)
    ensures EdgesOf(rows, r) <= EdgesOf(RunRows(run, rows), r)
  {
    hide PhaseOne, Settle, EdgesOf, Contradictory;
    var t := TallyOf(run);
    EdgesOnlyGrow(Contradictory(t.dossiers.Keys), run.cfg, t.dossiers, StartOf(run, rows), t.order, r);
  }

  lemma {:induction false} AllRunsEdgesGrow(runs: seq<RunInput>, rows: Rows, r: Relation)
    ensures EdgesOf(rows, r) <= EdgesOf(AllRuns(runs, rows), r)
    decreases |runs|
  {
    hide RunRows, EdgesOf;
    if runs != [] {
      RunEdgesGrow(runs[0], rows, r);
      AllRunsEdgesGrow(runs[1..], RunRows(runs[0], rows), r);
    }
  }

  /** Any number of runs: the relation is acyclic at the end exactly when no run wrote blind. */
  lemma {:induction false} RunsAcyclicIff(runs: seq<RunInput>, rows: Rows, r: Relation)
    requires InClosure(r) && Acyclic(EdgesOf(rows, r))
    ensures Acyclic(EdgesOf(AllRuns(runs, rows), r)) <==> NoneBlind(runs, rows, r)
    decreases |runs|
  {
    hide RunRows, Acyclic, EdgesOf, LedgerOf, WritesBlind;
    if runs != [] {
      var next := RunRows(runs[0], rows);
      RunAcyclicIff(runs[0], rows, r);
      if Acyclic(EdgesOf(next, r)) {
        RunsAcyclicIff(runs[1..], next, r);
      } else {
        AllRunsEdgesGrow(runs[1..], next, r);
        if Acyclic(EdgesOf(AllRuns(runs[1..], next), r)) {
          AcyclicSubset(EdgesOf(next, r), EdgesOf(AllRuns(runs[1..], next), r));
        }
      }
    }
  }

  /** A verified row survives any number of runs untouched, and no run verifies a row. */
  lemma {:induction false} RunsKeepVerified(runs: seq<RunInput>, rows: Rows)
    ensures forall k :: k in rows && rows[k].verified ==>
      k in AllRuns(runs, rows) && AllRuns(runs, rows)[k] == rows[k]
    ensures forall k :: k in AllRuns(runs, rows) && AllRuns(runs, rows)[k].verified ==> k in rows && rows[k].verified
    decreases |runs|
  {
    if runs != [] {
      var next := RunRows(runs[0], rows);
      RunKeepsVerified(runs[0], rows);
      hide RunRows;
      RunsKeepVerified(runs[1..], next);
    }
  }

  lemma RunKeepsVerified(run: RunInput, rows: Rows)
    ensures forall k :: k in rows && rows[k].verified ==> k in RunRows(run, rows) && RunRows(run, rows)[k] == rows[k]
    ensures forall k :: k in RunRows(run, rows) && RunRows(run, rows)[k].verified ==> k in rows && rows[k].verified
  {
    PhasesCompose(run, rows);
    hide PhaseOne, PhaseTwo, Verbatim;
  }

  // ----- Human decisions ---------------------------------------------------------------------------

  /** The ledger when the i-th key is settled. */
  ghost function LedgerBefore(run: RunInput, rows: Rows, i: nat): Ledger
    requires i < |TallyOf(run).order|
  {
    var t := TallyOf(run);
    var contradictory := Contradictory(t.dossiers.Keys);
    Fold((l: Ledger, key) => Settle(contradictory, run.cfg, t.dossiers, l, key), StartOf(run, rows), t.order[..i])
  }

  /** Whether settling the i-th key gets as far as an upsert. */
  ghost predicate IssuesUpsert(run: RunInput, rows: Rows, i: nat)
    requires i < |TallyOf(run).order|
  {
    var t := TallyOf(run);
    PassesGuards(Contradictory(t.dossiers.Keys), run.cfg, t.dossiers, LedgerBefore(run, rows, i), t.order[i])
  }

  /**
    No upsert of a run is issued for a pair with a verified edge, whether at the start or by then; so
    an upsert is never answered by an untouched row.
   */
  lemma NoUpsertMeetsVerified(run: RunInput, rows: Rows, i: nat)
    requires i < |TallyOf(run).order| && IssuesUpsert(run, rows, i)
    ensures var key, now := TallyOf(run).order[i], LedgerBefore(run, rows, i).rows;
            && !VerifiedSame(rows, key) && !VerifiedOther(rows, key)
            && !VerifiedSame(now, key) && !VerifiedOther(now, key)
            && UpsertOutcomeOf(now, key) != Untouched
  {
    hide PhaseOne, Settle, SoundDossier, Balanced;
    var s, t := SettingOf(run, rows), TallyOf(run);
    PhaseOneSound(run.doc, run.cfg, run.chunks, ChunkSet(run));
    assert t.counts[VerifiedConflict] == 0 by { NoConflictYet(t, SeenIn(run.doc, run.cfg, run.chunks)); }
    var contradictory, start, front := Contradictory(t.dossiers.Keys), StartOf(run, rows), t.order[..i];
    hide Contradictory;
    forall k | k in front ensures k in s.dossiers {
      assert k in t.order;
    }
    assert Distinct(front);
    SettleAll(s, contradictory, start, front, start, 0);
    VerifiedAsBefore(s, LedgerBefore(run, rows, i).rows, t.order[i]);
  }
}
