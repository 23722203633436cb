/**
  What becomes of each key in the second phase, told from the stored rows, the batch and the evidence
  alone: which keys are written, with what row and score, and which gate turns the others away.
 */
module ExtractionFates {
  import opened Base
  import opened RealMath
  import opened Walks
  import opened CycleFilter
  import opened CycleCheck
  import opened Confidence
  import opened ExtractionGates
  import opened ExtractionWrite
  import opened ExtractionTheorems
  import ExtractionCounts
  import ExtractionLimits

  /** The proposed `requires` edges that lie on a cycle of the batch or lead into one. */
  ghost function BatchCycles(run: RunInput): set<Key> {
    Contradictory(TallyOf(run).dossiers.Keys)
  }

  // ----- The batch filter is obeyed ------------------------------------------------------------------

  /** The keys settled so far that lie in `batch` are counted, unwritten and as they were. */
  ghost predicate Obeys(s: Setting, batch: set<Key>, l: Ledger, start: Ledger, settled: set<Key>) {
    && l.counts[ContradictoryCycle] == start.counts[ContradictoryCycle] + |settled * batch|
    && WrittenKeys(l.out) !! batch
  }

  lemma TurnObeys(s: Setting, batch: set<Key>, l: Ledger, key: Key, start: Ledger, settled: set<Key>)
    requires Obeys(s, batch, l, start, settled) && key !in settled && key in s.dossiers && !l.aborted
    ensures var m := Settle(batch, s.cfg, s.dossiers, l, key);
            && WrittenKeys(m.out) !! batch
            && (!m.aborted ==> Obeys(s, batch, m, start, settled + {key}))
  {
    TurnCounts(s, batch, l, key);
    hide Settle;
    var m := Settle(batch, s.cfg, s.dossiers, l, key);
    if m.out != l.out {
      WrittenKeysGrow(l.out, m.out[|l.out|]);
      assert m.out == l.out + [m.out[|l.out|]];
    }
    hide WrittenKeys;
    assert (settled + {key}) * batch == settled * batch + if key in batch then {key} else {};
  }

  lemma TurnCounts(s: Setting, batch: set<Key>, l: Ledger, key: Key)
    requires key in s.dossiers && !l.aborted
    ensures var m := Settle(batch, s.cfg, s.dossiers, l, key);
            && m.counts[ContradictoryCycle] == l.counts[ContradictoryCycle] + (if key in batch then 1 else 0)
            && (m.out == l.out
                || (key !in batch && |m.out| == |l.out| + 1 && m.out[..|l.out|] == l.out && m.out[|l.out|].key == key))
  {
    hide ClosesCycle, EvidenceFor, ScoreEdge, VerifiedOther, Upserted;
  }

  lemma {:induction false} LoopObeys(s: Setting, batch: set<Key>, l: Ledger, keys: seq<Key>, start: Ledger, settled: set<Key>)
    requires Obeys(s, batch, l, start, settled) && !l.aborted
    requires Distinct(keys) && forall k :: k in keys ==> k !in settled && k in s.dossiers
    ensures var m := Fold((l: Ledger, key) => Settle(batch, s.cfg, s.dossiers, l, key), l, keys);
            && WrittenKeys(m.out) !! batch
            && (!m.aborted ==> Obeys(s, batch, m, start, settled + set k | k in keys))
    decreases |keys|
  {
    hide Settle, WrittenKeys, Obeys;
    if keys == [] {
      assert settled + (set k | k in keys) == settled;
      assert WrittenKeys(l.out) !! batch by { ObeysKeepsOut(s, batch, l, start, settled); }
    } else {
      TailDistinct(keys);
      var next := Settle(batch, s.cfg, s.dossiers, l, keys[0]);
      TurnObeys(s, batch, l, keys[0], start, settled);
      if next.aborted {
        AbortSticks(s, batch, next, keys[1..]);
      } else {
        LoopObeys(s, batch, next, keys[1..], start, settled + {keys[0]});
        assert settled + {keys[0]} + (set k | k in keys[1..]) == settled + set k | k in keys;
      }
    }
  }

  lemma ObeysKeepsOut(s: Setting, batch: set<Key>, l: Ledger, start: Ledger, settled: set<Key>)
    requires Obeys(s, batch, l, start, settled)
    ensures WrittenKeys(l.out) !! batch
  {
  }

  /**
    No run writes an edge that the batch filter removes: it is not among the edges written, its row is as
    before, and a run that does not raise counts each of them once under the filter's gate.
   */
  lemma BatchCyclesAreRejected(run: RunInput, rows: Rows)
    ensures forall e :: e in LedgerOf(run, rows).out ==> e.key !in BatchCycles(run)
    ensures forall k :: k in BatchCycles(run) ==>
      (k in LedgerOf(run, rows).rows <==> k in rows) && (k in rows ==> LedgerOf(run, rows).rows[k] == rows[k])
    ensures !LedgerOf(run, rows).aborted ==> LedgerOf(run, rows).counts[ContradictoryCycle] == |BatchCycles(run)|
  {
    var s, t, l := SettingOf(run, rows), TallyOf(run), LedgerOf(run, rows);
    var batch, start := BatchCycles(run), StartOf(run, rows);
    PhasesCompose(run, rows);
    NothingRejectedYet(run);
    BatchIsWithin(run);
    hide TallyOf, Settle, BatchCycles, SoundSetting, Balanced, LedgerBalanced, SoundSummary, RowsSound;
    assert LedgerOf(run, rows) == Fold((l: Ledger, key) => Settle(batch, s.cfg, s.dossiers, l, key), start, t.order) by {
      LedgerIsFold(run, rows);
    }
    assert {} * batch == {};
    LoopObeys(s, batch, start, t.order, start, {});
    assert {} + (set k | k in t.order) == t.dossiers.Keys;
    assert t.dossiers.Keys * batch == batch;
    forall e | e in l.out ensures e.key !in batch {
      assert e.key in WrittenKeys(l.out);
    }
  }

  lemma LedgerIsFold(run: RunInput, rows: Rows)
    ensures LedgerOf(run, rows) == Fold(
      (l: Ledger, key) => Settle(BatchCycles(run), run.cfg, TallyOf(run).dossiers, l, key),
      StartOf(run, rows), TallyOf(run).order)
  {
    hide PhaseOne, Settle, Contradictory;
  }

  lemma NothingRejectedYet(run: RunInput)
    ensures TallyOf(run).counts[ContradictoryCycle] == 0 && OrderMatches(TallyOf(run))
  {
    PhaseOneSound(run.doc, run.cfg, run.chunks, ChunkSet(run));
    ExtractionCounts.EveryCounterIsExact(run.doc, run.cfg, run.chunks, ContradictoryCycle);
    ExtractionCounts.LateGatesWait(run.doc, run.cfg, run.chunks, ContradictoryCycle);
    hide PhaseOne, Balanced, SoundDossier;
  }

  lemma BatchIsWithin(run: RunInput)
    ensures BatchCycles(run) <= TallyOf(run).dossiers.Keys
  {
    hide PhaseOne, Stranded, RequiresEdges;
  }

  // ----- The turn of each key --------------------------------------------------------------------------

  /** The relations along which cycles are looked for. */
  predicate Followed(r: Relation) {
    r == Requires || r == Contains || r == PartOf
  }

  /** Stored edges of the relation lead from the key's target back to its source, in at most 20 steps. */
  ghost predicate LeadsBack(rows: Rows, key: Key) {
    Followed(key.relation) && key.source != key.target
    && ReachesWithin(EdgesOf(rows, key.relation), key.target, key.source, 20)
  }

  /** Stored edges of the relation already lead from the key's source to its target. */
  ghost predicate AlreadyJoined(rows: Rows, key: Key) {
    Followed(key.relation) && key.source != key.target
    && ReachesWithin(EdgesOf(rows, key.relation), key.source, key.target, 20)
  }

  /** A person has verified some edge between the two concepts, in either direction and of any relation. */
  ghost predicate Decided(rows: Rows, key: Key) {
    exists k :: k in rows && {k.source, k.target} == {key.source, key.target} && rows[k].verified
  }

  /** The evidence of one document, none of it verified. */
  ghost function OneDocument(d: Dossier, joined: bool): Evidence {
    Evidence(d.maxConfidence, 1, if d.explicitCue then Explicit else Inferred, false, false, joined, false)
  }

  ghost predicate ScoreOfEvidence(x: real, cfg: Config, d: Dossier, joined: bool) {
    var sum := SumOfShares(OneDocument(d, joined), cfg.decay, cfg.weights);
    x == if sum < 0.0 then 0.0 else if sum > 1.0 then 1.0 else sum
  }

  /** The row of a written key: a new one, or the old one with the evidence merged in. */
  ghost predicate RowAfter(row: Row, rows: Rows, key: Key, score: real, d: Dossier) {
    if key in rows then
      && !row.verified && row.corroborations == rows[key].corroborations + 1
      && row.confidence >= rows[key].confidence && row.confidence >= score
      && (row.confidence == rows[key].confidence || row.confidence == score)
      && row.weight >= rows[key].weight && row.weight >= 1.0 && (row.weight == rows[key].weight || row.weight == 1.0)
      && (row.explicitCue <==> rows[key].explicitCue || d.explicitCue)
      && row.sources == rows[key].sources + d.sources && row.first == rows[key].first
    else
      row == Row(false, score, 1.0, d.explicitCue, 1, d.sources, d.first)
  }

  ghost predicate TurnedAway(l: Ledger, m: Ledger, g: Gate) {
    m == l.(counts := l.counts + multiset{g}, rejected := l.rejected + 1)
  }

  /** What settling a key makes of the ledger: the first thing that stands in its way decides. */
  ghost predicate Turn(batch: set<Key>, cfg: Config, d: Dossier, l: Ledger, key: Key, m: Ledger) {
    if key in batch then TurnedAway(l, m, ContradictoryCycle)
    else if l.written >= cfg.documentCap then TurnedAway(l, m, DocumentEdgeCap)
    else if LeadsBack(l.rows, key) then TurnedAway(l, m, Cycle)
    else if Decided(l.rows, key) then
      m == l.(counts := l.counts + multiset{VerifiedConflict}, queued := l.queued + 1)
    else
      exists score :: ScoreOfEvidence(score, cfg, d, AlreadyJoined(l.rows, key)) &&
        if score < cfg.weights.reviewFloor then TurnedAway(l, m, ConfidenceFloor)
        else if key.source == key.target then m == l.(aborted := true)
        else
          && key in m.rows && RowAfter(m.rows[key], l.rows, key, score, d)
          && m == l.(rows := l.rows[key := m.rows[key]], written := l.written + 1, queued := l.queued + 1,
                     out := l.out + [Summary(key, score, d.explicitCue, Review)])
  }

  lemma DecidedIff(rows: Rows, key: Key)
    ensures Decided(rows, key) <==> VerifiedSame(rows, key) || VerifiedOther(rows, key)
  {
    forall k: Key ensures SamePair(k, key) <==> {k.source, k.target} == {key.source, key.target} {
      PairIff(k.source, k.target, key.source, key.target);
    }
    if Decided(rows, key) {
      var k :| k in rows && {k.source, k.target} == {key.source, key.target} && rows[k].verified;
      assert SamePair(k, key);
    }
  }

  lemma PairIff(a: Node, b: Node, c: Node, d: Node)
    ensures {a, b} == {c, d} <==> (a == c && b == d) || (a == d && b == c)
  {
    if {a, b} == {c, d} {
      assert a in {c, d} && b in {c, d} && c in {a, b} && d in {a, b};
    }
  }

  lemma ClosesIff(rows: Rows, key: Key)
    requires ExtractionLimits.NoSelfLoops(rows)
    ensures ClosesCycle(rows, key) <==> LeadsBack(rows, key)
  {
    var edges := EdgesOf(rows, key.relation);
    if key.source == key.target {
      CheckOfSelfLoop(edges, key.source, MAX_PATH_LEN);
      assert (key.source, key.target) !in edges;
    } else {
      CheckIsBoundedReachability(edges, key.source, key.target, MAX_PATH_LEN);
    }
    hide WouldCreateCycle, ReachesWithin, EdgesOf;
  }

  lemma ScoredAs(rows: Rows, key: Key, d: Dossier, cfg: Config)
    requires ExtractionLimits.NoSelfLoops(rows) && !Decided(rows, key) && |d.documents| == 1 && IsDecay(cfg.decay)
    ensures var r := ScoreEdge(EvidenceFor(rows, key, d), cfg.decay, cfg.weights);
            && ScoreOfEvidence(r.score, cfg, d, AlreadyJoined(rows, key))
            && (r.score >= cfg.weights.reviewFloor ==> r.disposition == Review)
  {
    DecidedIff(rows, key);
    var back := Key(key.target, key.source, key.relation);
    ClosesIff(rows, back);
    assert LeadsBack(rows, back) <==> AlreadyJoined(rows, key);
    hide ClosesCycle, LeadsBack, AlreadyJoined, VerifiedOther, Decided;
    var joined := AlreadyJoined(rows, key);
    assert EvidenceFor(rows, key, d) == OneDocument(d, joined);
    ScoreIs(OneDocument(d, joined), cfg.decay, cfg.weights);
    hide SumOfShares, ScoreEdge;
  }

  lemma TurnIs(batch: set<Key>, cfg: Config, dossiers: map<Key, Dossier>, l: Ledger, key: Key)
    requires !l.aborted && key in dossiers && |dossiers[key].documents| == 1
    requires ExtractionLimits.NoSelfLoops(l.rows) && IsDecay(cfg.decay)
    ensures Turn(batch, cfg, dossiers[key], l, key, Settle(batch, cfg, dossiers, l, key))
  {
    var d := dossiers[key];
    DecidedIff(l.rows, key);
    ClosesIff(l.rows, key);
    if !Decided(l.rows, key) {
      TurnScored(cfg, l, key, d);
    }
    hide ClosesCycle, LeadsBack, AlreadyJoined, VerifiedOther, VerifiedSame, Decided, ScoreEdge, EvidenceFor;
    hide ScoreOfEvidence, RowAfter, Write, ExtractionLimits.NoSelfLoops;
  }

  lemma TurnScored(cfg: Config, l: Ledger, key: Key, d: Dossier)
    requires !Decided(l.rows, key) && |d.documents| == 1
    requires ExtractionLimits.NoSelfLoops(l.rows) && IsDecay(cfg.decay)
    ensures var m := SettleScored(cfg, l, key, d);
            exists score :: ScoreOfEvidence(score, cfg, d, AlreadyJoined(l.rows, key)) &&
              if score < cfg.weights.reviewFloor then TurnedAway(l, m, ConfidenceFloor)
              else if key.source == key.target then m == l.(aborted := true)
              else
                && key in m.rows && RowAfter(m.rows[key], l.rows, key, score, d)
                && m == l.(rows := l.rows[key := m.rows[key]], written := l.written + 1, queued := l.queued + 1,
                           out := l.out + [Summary(key, score, d.explicitCue, Review)])
  {
    DecidedIff(l.rows, key);
    ScoredAs(l.rows, key, d, cfg);
    var score := ScoreEdge(EvidenceFor(l.rows, key, d), cfg.decay, cfg.weights);
    WriteIs(l, key, d, score);
    hide AlreadyJoined, VerifiedOther, VerifiedSame, Decided, ScoreEdge, EvidenceFor;
    hide ScoreOfEvidence, RowAfter, Write, ExtractionLimits.NoSelfLoops;
  }

  lemma WriteIs(l: Ledger, key: Key, d: Dossier, score: EdgeScore)
    requires !VerifiedSame(l.rows, key)
    ensures var m := Write(l, key, d, score);
            if key.source == key.target then m == l.(aborted := true)
            else
              && key in m.rows && RowAfter(m.rows[key], l.rows, key, score.score, d)
              && m == l.(rows := l.rows[key := m.rows[key]], written := l.written + 1,
                         queued := l.queued + if score.disposition == Review then 1 else 0,
                         out := l.out + [Summary(key, score.score, d.explicitCue, score.disposition)])
  {
  }

  /** The ledger after the first `i` keys. */
  ghost function LedgerUpTo(run: RunInput, rows: Rows, i: nat): Ledger
    requires i <= |TallyOf(run).order|
  {
    var batch, dossiers := BatchCycles(run), TallyOf(run).dossiers;
    Fold((l: Ledger, key) => Settle(batch, run.cfg, dossiers, l, key), StartOf(run, rows), TallyOf(run).order[..i])
  }

  lemma UpToNext(run: RunInput, rows: Rows, i: nat)
    requires i < |TallyOf(run).order|
    ensures LedgerUpTo(run, rows, i + 1)
         == Settle(BatchCycles(run), run.cfg, TallyOf(run).dossiers, LedgerUpTo(run, rows, i), TallyOf(run).order[i])
  {
    hide TallyOf, BatchCycles, Settle;
    var batch, dossiers := BatchCycles(run), TallyOf(run).dossiers;
    FoldNext((l: Ledger, key) => Settle(batch, run.cfg, dossiers, l, key), StartOf(run, rows), TallyOf(run).order, i);
  }

  lemma {:induction false} NoLoopsUpTo(run: RunInput, rows: Rows, i: nat)
    requires i <= |TallyOf(run).order| && ExtractionLimits.NoSelfLoops(rows)
    ensures ExtractionLimits.NoSelfLoops(LedgerUpTo(run, rows, i).rows)
  {
    hide TallyOf, BatchCycles, Settle;
    if i > 0 {
      NoLoopsUpTo(run, rows, i - 1);
      UpToNext(run, rows, i - 1);
      SettleRows(BatchCycles(run), run.cfg, TallyOf(run).dossiers, LedgerUpTo(run, rows, i - 1), TallyOf(run).order[i - 1]);
      hide LedgerUpTo;
    }
  }

  /**
    In every run each key has its turn, in order, against the rows as they then are. In its way stand, in
    this order: a cycle of the batch, the document cap, a stored way back, an edge a person has verified,
    a score below the floor, and a single concept at both ends, which raises. Otherwise it is written.
   */
  lemma EveryKeyHasItsTurn(run: RunInput, rows: Rows, i: nat)
    requires i < |TallyOf(run).order| && !LedgerUpTo(run, rows, i).aborted
    requires ExtractionLimits.NoSelfLoops(rows) && IsDecay(run.cfg.decay)
    ensures var key := TallyOf(run).order[i];
            && key in TallyOf(run).dossiers
            && Turn(BatchCycles(run), run.cfg, TallyOf(run).dossiers[key], LedgerUpTo(run, rows, i), key,
                    LedgerUpTo(run, rows, i + 1))
    ensures LedgerUpTo(run, rows, 0) == StartOf(run, rows)
    ensures LedgerUpTo(run, rows, |TallyOf(run).order|) == LedgerOf(run, rows)
  {
    var t, s := TallyOf(run), SettingOf(run, rows);
    var key := t.order[i];
    PhasesCompose(run, rows);
    NothingRejectedYet(run);
    LedgerIsFold(run, rows);
    assert t.order[..|t.order|] == t.order && key in t.order;
    hide TallyOf, Settle, SoundSetting, SoundLedger, Balanced, LedgerBalanced, Turn, BatchCycles;
    assert key in t.dossiers;
    DocumentsOf(s, key);
    UpToNext(run, rows, i);
    NoLoopsUpTo(run, rows, i);
    hide LedgerUpTo;
    TurnIs(BatchCycles(run), run.cfg, t.dossiers, LedgerUpTo(run, rows, i), key);
  }
}
