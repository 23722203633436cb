/** What a further run over the same document does to an edge it has written before. */
module ExtractionRerun {
  import Base
  import RealMath
  import Walks
  import opened CycleFilter
  import CycleCheck
  import opened Confidence
  import ExtractionGates
  import opened ExtractionWrite
  import opened ExtractionTheorems
  import ExtractionLimits

  /** The run gathers evidence for this one key. */
  ghost predicate GathersOnly(run: RunInput, key: Key) {
    TallyOf(run).order == [key] && key in TallyOf(run).dossiers
  }

  ghost function DossierOf(run: RunInput, key: Key): ExtractionGates.Dossier
    requires GathersOnly(run, key)
  {
    TallyOf(run).dossiers[key]
  }

  /** The score of the run's evidence against these rows. */
  ghost function ScoreOn(run: RunInput, key: Key, rows: Rows): real
    requires GathersOnly(run, key)
  {
    ScoreEdge(EvidenceFor(rows, key, DossierOf(run, key)), run.cfg.decay, run.cfg.weights).score
  }

  /** Nothing stored stands in the way of the edge. */
  ghost predicate Open(rows: Rows, key: Key) {
    && key.source != key.target && !ClosesCycle(rows, key)
    && !VerifiedSame(rows, key) && !VerifiedOther(rows, key)
  }

  lemma OneKeyLedger(run: RunInput, key: Key, rows: Rows)
    requires GathersOnly(run, key)
    ensures LedgerOf(run, rows) == Settle({}, run.cfg, TallyOf(run).dossiers, StartOf(run, rows), key)
  {
    var t := TallyOf(run);
    ExtractionGates.PhaseOneSound(run.doc, run.cfg, run.chunks, ChunkSet(run));
    assert ExtractionGates.OrderMatches(t);
    assert t.dossiers.Keys == {key};
    ExtractionLimits.OneKeyIsNoContradiction(key);
    hide TallyOf, ExtractionGates.PhaseOne, Settle, Contradictory;
    Base.FoldOne((l: Ledger, key) => Settle({}, run.cfg, t.dossiers, l, key), StartOf(run, rows), key);
  }

  /** A run for an open key with enough evidence merges it into its row and changes nothing else. */
  lemma OneKeyWrites(run: RunInput, key: Key, rows: Rows)
    requires GathersOnly(run, key) && Open(rows, key) && run.cfg.documentCap >= 1
    requires ScoreOn(run, key, rows) >= run.cfg.weights.reviewFloor
    ensures RunRows(run, rows) == rows[key := Merged(rows, key, ScoreOn(run, key, rows), DossierOf(run, key))]
  {
    OneKeyLedger(run, key, rows);
    hide TallyOf, LedgerOf, Merged, EvidenceFor, ScoreEdge, ClosesCycle, VerifiedOther;
  }

  /** Storing the edge itself, unverified, leaves it open to be written again. */
  lemma StaysOpen(rows: Rows, key: Key, row: Row)
    requires Open(rows, key) && !row.verified
    ensures Open(rows[key := row], key)
  {
    var more := rows[key := row];
    if InClosure(key.relation) {
      var edges, s, t := EdgesOf(rows, key.relation), key.source, key.target;
      EdgesOfInsert(rows, more, key, key.relation);
      CycleCheck.CheckIsBoundedReachability(edges, s, t, CycleCheck.MAX_PATH_LEN);
      CycleCheck.CheckIsBoundedReachability(edges + {(s, t)}, s, t, CycleCheck.MAX_PATH_LEN);
      hide CycleCheck.WouldCreateCycle, EdgesOf;
      if Walks.ReachesWithin(edges + {(s, t)}, t, s, CycleCheck.MAX_PATH_LEN) {
        var p :| Walks.WalkTo(edges + {(s, t)}, t, s, p, CycleCheck.MAX_PATH_LEN);
        Walks.FirstVisitWithin(edges, s, t, p);
        WithinMore(edges, t, s, |p| - 1, CycleCheck.MAX_PATH_LEN);
      }
    }
  }

  lemma WithinMore(edges: set<Walks.Edge>, a: Walks.Node, b: Walks.Node, few: nat, more: nat)
    requires few <= more && Walks.ReachesWithin(edges, a, b, few)
    ensures Walks.ReachesWithin(edges, a, b, more)
  {
    var p :| Walks.WalkTo(edges, a, b, p, few);
    assert Walks.WalkTo(edges, a, b, p, more);
  }

  function Back(key: Key): Key {
    Key(key.target, key.source, key.relation)
  }

  /** A stored closure edge is itself a path between its ends. */
  lemma OwnEdgeIsAPath(rows: Rows, key: Key)
    requires key in rows && InClosure(key.relation)
    ensures ClosesCycle(rows, Back(key))
  {
    var edges, p := EdgesOf(rows, key.relation), [key.source, key.target];
    var e := (key.source, key.target);
    assert e in edges;
    assert p == [key.source, e.1] && p in CycleCheck.Level(edges, key.source, 1);
    assert p[1] == key.target;
  }

  /** What the stored edge adds to the score of the same evidence: agreement with itself. */
  function OwnAgreement(rows: Rows, key: Key, w: Weights): real {
    if InClosure(key.relation) && !ClosesCycle(rows, Back(key)) then RealMath.Times(w.agreement, 0.70) else 0.0
  }

  /**
    The same evidence scores higher once its own edge is stored, by 0.70 of the agreement weight,
    exactly when the relation is followed and no other path joined the two concepts before.
   */
  lemma RerunGain(run: RunInput, key: Key, rows: Rows, row: Row)
    requires GathersOnly(run, key) && Open(rows, key) && !row.verified
    requires NonNegative(run.cfg.weights) && Total(run.cfg.weights) <= 1.0
    ensures ScoreOn(run, key, rows[key := row]) == ScoreOn(run, key, rows) + OwnAgreement(rows, key, run.cfg.weights)
  {
    var more, d, w, q := rows[key := row], DossierOf(run, key), run.cfg.weights, run.cfg.decay;
    StaysOpen(rows, key, row);
    var path := ClosesCycle(rows, Back(key));
    if InClosure(key.relation) {
      OwnEdgeIsAPath(more, key);
    }
    var e := EvidenceFor(rows, key, d);
    assert e.pathExists == path && !e.verifiedSame && !e.verifiedOpposite;
    assert EvidenceFor(more, key, d) == e.(pathExists := InClosure(key.relation));
    hide GathersOnly, TallyOf, ClosesCycle, VerifiedOther, EvidenceFor;
    var f := e.(pathExists := InClosure(key.relation));
    FinalClipIdle(SignalsOf(e, q), w);
    FinalClipIdle(SignalsOf(f, q), w);
    AgreementTerm(w.agreement);
    assert SignalsOf(f, q) == SignalsOf(e, q).(agreement := if InClosure(key.relation) then 0.70 else 0.0);
    hide Weighted, CorroborationScore;
  }

  lemma AgreementTerm(weight: real)
    ensures Weighted(weight, 0.70, 1.0) == RealMath.Times(weight, 0.70) && Weighted(weight, 0.0, 1.0) == 0.0
  {
  }

  /** The row of an edge after its first run and after an identical second one. */
  lemma SecondRun(run: RunInput, key: Key, rows: Rows)
    requires GathersOnly(run, key) && Open(rows, key) && key !in rows && run.cfg.documentCap >= 1
    requires NonNegative(run.cfg.weights) && Total(run.cfg.weights) <= 1.0
    requires ScoreOn(run, key, rows) >= run.cfg.weights.reviewFloor
    ensures var d, score := DossierOf(run, key), ScoreOn(run, key, rows);
            var first := Row(false, score, EDGE_WEIGHT, d.explicitCue, 1, d.sources, d.first);
            && RunRows(run, rows) == rows[key := first]
            && RunRows(run, RunRows(run, rows)) == rows[key := first.(
                 confidence := score + OwnAgreement(rows, key, run.cfg.weights),
                 corroborations := 2,
                 sources := d.sources + d.sources)]
  {
    var d, score, w := DossierOf(run, key), ScoreOn(run, key, rows), run.cfg.weights;
    var first := Row(false, score, EDGE_WEIGHT, d.explicitCue, 1, d.sources, d.first);
    OneKeyWrites(run, key, rows);
    assert Merged(rows, key, score, d) == first;
    var once := rows[key := first];
    StaysOpen(rows, key, first);
    RerunGain(run, key, rows, first);
    OwnAgreementAdds(rows, key, w);
    hide ScoreOn, DossierOf, GathersOnly, RunRows, OwnAgreement, Open;
    OneKeyWrites(run, key, once);
    assert once[key := Merged(once, key, ScoreOn(run, key, once), d)] == rows[key := Merged(once, key, ScoreOn(run, key, once), d)];
  }

  lemma OwnAgreementAdds(rows: Rows, key: Key, w: Weights)
    requires NonNegative(w)
    ensures OwnAgreement(rows, key, w) >= 0.0
  {
    hide ClosesCycle;
    RealMath.TimesMonotone(w.agreement, 0.0, 0.70);
    RealMath.TimesUnits(w.agreement);
  }

  /** Any further identical run counts one more corroboration and repeats the same sources; the score stays. */
  lemma FurtherRun(run: RunInput, key: Key, rows: Rows)
    requires GathersOnly(run, key) && Open(rows, key) && key in rows && run.cfg.documentCap >= 1
    requires NonNegative(run.cfg.weights) && Total(run.cfg.weights) <= 1.0 && rows[key].weight <= EDGE_WEIGHT
    requires rows[key].confidence == ScoreOn(run, key, rows) >= run.cfg.weights.reviewFloor
    requires DossierOf(run, key).explicitCue ==> rows[key].explicitCue
    ensures var d, row := DossierOf(run, key), rows[key];
            var next := RunRows(run, rows);
            && next == rows[key := row.(
                 weight := EDGE_WEIGHT, corroborations := row.corroborations + 1, sources := row.sources + d.sources)]
            && ScoreOn(run, key, next) == ScoreOn(run, key, rows)
  {
    OneKeyWrites(run, key, rows);
    if InClosure(key.relation) {
      OwnEdgeIsAPath(rows, key);
    }
    var row := Merged(rows, key, ScoreOn(run, key, rows), DossierOf(run, key));
    assert !rows[key].verified;
    RerunGain(run, key, rows, row);
    hide ScoreOn, DossierOf, GathersOnly, ClosesCycle, RunRows;
  }

  function Repeated(run: RunInput, n: nat): seq<RunInput> {
    if n == 0 then [] else [run] + Repeated(run, n - 1)
  }

  function Copies<T>(s: seq<T>, n: nat): seq<T> {
    if n == 0 then [] else s + Copies(s, n - 1)
  }

  lemma OneRunMore(run: RunInput, n: nat, rows: Rows)
    requires n > 0
    ensures AllRuns(Repeated(run, n), rows) == AllRuns(Repeated(run, n - 1), RunRows(run, rows))
  {
    assert Repeated(run, n)[1..] == Repeated(run, n - 1);
  }

  /** What FurtherRun needs of the stored rows. */
  ghost predicate Settled(run: RunInput, key: Key, rows: Rows)
    requires GathersOnly(run, key)
  {
    && Open(rows, key) && key in rows && rows[key].weight == EDGE_WEIGHT
    && rows[key].confidence == ScoreOn(run, key, rows) >= run.cfg.weights.reviewFloor
    && (DossierOf(run, key).explicitCue ==> rows[key].explicitCue)
  }

  lemma {:induction false} SettledRuns(run: RunInput, key: Key, rows: Rows, n: nat)
    requires GathersOnly(run, key) && Settled(run, key, rows) && run.cfg.documentCap >= 1
    requires NonNegative(run.cfg.weights) && Total(run.cfg.weights) <= 1.0
    ensures var row := rows[key];
            AllRuns(Repeated(run, n), rows) == rows[key := row.(
              corroborations := row.corroborations + n, sources := row.sources + Copies(DossierOf(run, key).sources, n))]
  {
    hide GathersOnly, ScoreOn, DossierOf, Open, RunRows;
    var row, d := rows[key], DossierOf(run, key);
    if n == 0 {
      assert rows[key := row] == rows && row.sources + [] == row.sources;
    } else {
      FurtherRun(run, key, rows);
      var more := row.(corroborations := row.corroborations + 1, sources := row.sources + d.sources);
      var next := rows[key := more];
      assert RunRows(run, rows) == next;
      assert !row.verified by { OpenIsUnverified(rows, key); }
      StaysOpen(rows, key, more);
      SettledRuns(run, key, next, n - 1);
      OneRunMore(run, n, rows);
      assert (row.sources + d.sources) + Copies(d.sources, n - 1) == row.sources + Copies(d.sources, n);
    }
  }

  lemma OpenIsUnverified(rows: Rows, key: Key)
    requires Open(rows, key) && key in rows
    ensures !rows[key].verified
  {
  }

  /** The row of the edge after n identical runs, at least two. */
  ghost function RowAfter(run: RunInput, key: Key, rows: Rows, n: nat): Row
    requires GathersOnly(run, key)
  {
    var d := DossierOf(run, key);
    Row(false, ScoreOn(run, key, rows) + OwnAgreement(rows, key, run.cfg.weights), EDGE_WEIGHT, d.explicitCue,
        n, Copies(d.sources, n), d.first)
  }

  lemma SecondRunSettles(run: RunInput, key: Key, rows: Rows)
    requires GathersOnly(run, key) && Open(rows, key) && key !in rows && run.cfg.documentCap >= 1
    requires NonNegative(run.cfg.weights) && Total(run.cfg.weights) <= 1.0
    requires ScoreOn(run, key, rows) >= run.cfg.weights.reviewFloor
    ensures var twice := rows[key := RowAfter(run, key, rows, 2)];
            RunRows(run, RunRows(run, rows)) == twice && Settled(run, key, twice)
  {
    var d, row := DossierOf(run, key), RowAfter(run, key, rows, 2);
    SecondRun(run, key, rows);
    assert Copies(d.sources, 2) == d.sources + Copies(d.sources, 1);
    assert Copies(d.sources, 1) == d.sources + Copies(d.sources, 0) == d.sources;
    StaysOpen(rows, key, row);
    RerunGain(run, key, rows, row);
    OwnAgreementAdds(rows, key, run.cfg.weights);
    hide GathersOnly, ScoreOn, DossierOf, Open, RunRows, OwnAgreement, Copies;
  }

  lemma JoinTwice<T>(s: seq<T>, rest: seq<T>)
    ensures s + (s + rest) == s + s + rest
  {
  }

  lemma CopiesMore<T>(s: seq<T>, n: nat)
    ensures Copies(s, n + 2) == Copies(s, 2) + Copies(s, n)
  {
    assert Copies(s, n + 1) == s + Copies(s, n) && Copies(s, n + 2) == s + Copies(s, n + 1);
    assert Copies(s, 0) == [] && Copies(s, 1) == s + Copies(s, 0) && Copies(s, 2) == s + Copies(s, 1);
    hide Copies;
    assert s + [] == s;
    JoinTwice(s, Copies(s, n));
  }

  lemma RowAfterMore(run: RunInput, key: Key, rows: Rows, n: nat)
    requires GathersOnly(run, key) && n >= 2
    ensures var second, sources := RowAfter(run, key, rows, 2), DossierOf(run, key).sources;
            RowAfter(run, key, rows, n) == second.(
              corroborations := second.corroborations + (n - 2), sources := second.sources + Copies(sources, n - 2))
  {
    CopiesMore(DossierOf(run, key).sources, n - 2);
    hide Copies, GathersOnly, DossierOf, ScoreOn, OwnAgreement;
  }

  lemma UpdateTwice(rows: Rows, key: Key, a: Row, b: Row)
    ensures rows[key := a][key := b] == rows[key := b] && rows[key := a][key] == a
  {
  }

  lemma TwoRunsMore(run: RunInput, n: nat, rows: Rows)
    requires n >= 2
    ensures AllRuns(Repeated(run, n), rows) == AllRuns(Repeated(run, n - 2), RunRows(run, RunRows(run, rows)))
  {
    OneRunMore(run, n, rows);
    OneRunMore(run, n - 1, RunRows(run, rows));
  }

  /** What n identical runs leave: n corroborations, every source n times, and the score of the second. */
  lemma ManyRuns(run: RunInput, key: Key, rows: Rows, n: nat)
    requires GathersOnly(run, key) && Open(rows, key) && key !in rows && run.cfg.documentCap >= 1
    requires NonNegative(run.cfg.weights) && Total(run.cfg.weights) <= 1.0
    requires ScoreOn(run, key, rows) >= run.cfg.weights.reviewFloor && n >= 2
    ensures AllRuns(Repeated(run, n), rows) == rows[key := RowAfter(run, key, rows, n)]
  {
    hide *;
    var second := RowAfter(run, key, rows, 2);
    SecondRunSettles(run, key, rows);
    SettledRuns(run, key, rows[key := second], n - 2);
    RowAfterMore(run, key, rows, n);
    TwoRunsMore(run, n, rows);
    UpdateTwice(rows, key, second, RowAfter(run, key, rows, n));
  }

  /**
    One document with one well-supported sentence, read twice: under the default weights its edge gains
    0.07, a second corroboration and a second copy of its source.
   */
  lemma SecondPlainRun(cfg: ExtractionGates.Config, key: Key)
    requires ExtractionLimits.DefaultScoring(cfg)
    requires InClosure(key.relation) && key.source != key.target
    ensures var run := ExtractionLimits.PlainRun(cfg, key);
            var once := RunRows(run, map[]);
            var twice := RunRows(run, once);
            && once.Keys == twice.Keys == {key}
            && twice[key].confidence == once[key].confidence + 0.07
            && once[key].corroborations == 1 && twice[key].corroborations == 2
            && twice[key].sources == once[key].sources + once[key].sources
  {
    var run := ExtractionLimits.PlainRun(cfg, key);
    ExtractionLimits.PlainTally(cfg, key);
    NothingStored(key);
    NothingStored(Back(key));
    ExtractionLimits.PlainEvidenceClearsTheFloor(map[], key, cfg.decay);
    DefaultWeightsAreSound();
    hide ExtractionGates.PhaseOne, ClosesCycle, ScoreEdge, EvidenceFor, RunRows;
    SecondRun(run, key, map[]);
    assert RealMath.Times(DEFAULT_WEIGHTS.agreement, 0.70) == 0.07;
  }

  lemma NothingStored(key: Key)
    requires key.source != key.target
    ensures Open(map[], key)
  {
    var none := EdgesOf(map[], key.relation);
    assert none == {};
    CycleCheck.CheckIsBoundedReachability(none, key.source, key.target, CycleCheck.MAX_PATH_LEN);
  }
}
