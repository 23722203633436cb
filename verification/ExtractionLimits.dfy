/**
  Where the guarantees of an extraction run end: when a run raises, how many concepts the cycle check
  can keep acyclic, and what it does not say about several relations together.
 */
module ExtractionLimits {
  import opened Base
  import opened Walks
  import opened CycleFilter
  import opened CycleCheck
  import opened Confidence
  import opened ExtractionGates
  import opened ExtractionWrite
  import opened ExtractionTheorems

  // ----- A run with one proposal --------------------------------------------------------------------

  function Same(s: string): string {
    s
  }

  predicate NotBoilerplate(s: string) {
    false
  }

  /** String helpers that change nothing. */
  const PLAIN_TEXT := TextOps(Same, Same, Same, NotBoilerplate, Same)

  const QUOTE := "one depends on the other"

  function NameOf(r: Relation): string {
    match r
    case Requires => "requires"
    case Contains => "contains"
    case RelatedTo => "related_to"
    case PartOf => "part_of"
    case Assesses => "assesses"
    case TaughtBy => "taught_by"
  }

  /** One explicit, fully confident, quoted proposal whose two names resolve to the ends of `key`. */
  function PlainAssertion(key: Key): Assertion {
    Assertion(
      Some(NameOf(key.relation)), "one", "other", Explicit, 1.0, Some(0), Some(QUOTE),
      Some(Concept(key.source, None)), Some(Concept(key.target, None)))
  }

  function PlainChunk(key: Key): Chunk {
    Chunk(0, 0, 0, None, QUOTE, Parsed([], [PlainAssertion(key)]))
  }

  /** A run over one chunk on which the model proposes one relation. */
  function PlainRun(cfg: Config, key: Key): RunInput {
    RunInput(Document(0, 0), cfg.(text := PLAIN_TEXT), [PlainChunk(key)])
  }

  function PlainSource(): Source {
    Source(0, 0, None, Some(QUOTE))
  }

  function PlainDossier(): Dossier {
    Dossier(1.0, true, {0}, {0}, [PlainSource()], Some(PlainSource()))
  }

  lemma PlainIsAccepted(cfg: Config, key: Key)
    ensures Rejection(PlainAssertion(key), QUOTE, cfg.(text := PLAIN_TEXT)).None?
    ensures RelationOf(PlainAssertion(key).relation) == Some(key.relation) && KeyOf(PlainAssertion(key)) == key
  {
    assert OccursAt(QUOTE, QUOTE, 0);
    assert "one"[0] == 'o' && |"one"| != |"other"|;
    AcceptedIff(PlainAssertion(key), QUOTE, cfg.(text := PLAIN_TEXT));
    hide Rejection;
  }

  lemma PlainTally(cfg: Config, key: Key)
    requires cfg.chunkCap >= 1
    ensures TallyOf(PlainRun(cfg, key)) == Tally(multiset{}, 0, 0, [key], map[key := PlainDossier()])
  {
    var run, chunk, a := PlainRun(cfg, key), PlainChunk(key), PlainAssertion(key);
    PlainIsAccepted(cfg, key);
    hide Rejection, KeyOf;
    assert Within(cfg.chunkCap, [a]) == [a] && Beyond(cfg.chunkCap, [a]) == [];
    assert ExamineRelation(chunk, run.cfg, EMPTY_TALLY, a) == Record(EMPTY_TALLY, key, a, chunk);
    assert Absorbed(EMPTY_DOSSIER, a, chunk) == PlainDossier();
    FoldOne((t: Tally, a) => ExamineRelation(chunk, run.cfg, t, a), EMPTY_TALLY, a);
    FoldOne((t: Tally, c) => ExamineChunk(run.doc, run.cfg, t, c), EMPTY_TALLY, chunk);
    hide ExamineRelation;
  }

  lemma OneKeyIsNoContradiction(key: Key)
    ensures Contradictory({key}) == {}
  {
    var edges := RequiresEdges({key});
    if key.relation == Requires && key.source != key.target {
      assert edges == {(key.source, key.target)};
      SingleEdgeIsAcyclic(key.source, key.target);
    } else {
      assert edges == {};
      NoEdgesIsAcyclic();
    }
    FilterIdleIffAcyclic({key});
  }

  lemma NoEdgesIsAcyclic()
    ensures Acyclic({})
  {
    forall c ensures !Reaches({}, c, c) {
      if Reaches({}, c, c) {
        var _, _ := WalkEnds({}, c, c);
      }
    }
  }

  lemma SingleEdgeIsAcyclic(a: Node, b: Node)
    requires a != b
    ensures Acyclic({(a, b)})
  {
    forall c ensures !Reaches({(a, b)}, c, c) {
      if Reaches({(a, b)}, c, c) {
        var _, _ := WalkEnds({(a, b)}, c, c);
      }
    }
  }

  function Opening(rows: Rows): Ledger {
    Ledger(rows, multiset{}, 0, 0, 0, [], false)
  }

  /** The run settles its one key against the stored rows. */
  lemma PlainLedger(cfg: Config, key: Key, rows: Rows)
    requires cfg.chunkCap >= 1
    ensures LedgerOf(PlainRun(cfg, key), rows)
         == Settle({}, cfg.(text := PLAIN_TEXT), map[key := PlainDossier()], Opening(rows), key)
  {
    PlainTally(cfg, key);
    OneKeyIsNoContradiction(key);
    hide TallyOf, Settle, Contradictory;
    var settings, dossiers := cfg.(text := PLAIN_TEXT), map[key := PlainDossier()];
    assert dossiers.Keys == {key};
    FoldOne((l: Ledger, key) => Settle({}, settings, dossiers, l, key), Opening(rows), key);
  }

  predicate DefaultScoring(cfg: Config) {
    cfg.weights == DEFAULT_WEIGHTS && IsDecay(cfg.decay) && cfg.chunkCap >= 1 && cfg.documentCap >= 1
  }

  lemma PlainEvidenceClearsTheFloor(rows: Rows, key: Key, q: real)
    requires IsDecay(q)
    ensures ScoreEdge(EvidenceFor(rows, key, PlainDossier()), q, DEFAULT_WEIGHTS).score >= DEFAULT_WEIGHTS.reviewFloor
  {
    var e := EvidenceFor(rows, key, PlainDossier());
    hide ClosesCycle, VerifiedOther;
    CorroborationMonotone(q, 0, 1);
    var s, w := SignalsOf(e, q), DEFAULT_WEIGHTS;
    assert s.llm == 1.0 && s.cue == 1.0 && 0.0 <= s.corroboration;
    var least := Signals(1.0, 0.0, 1.0, 0.0);
    ConfidenceMonotone(least, s, w);
    assert RawConfidence(least, w) == 0.55;
  }

  /** Such a proposal is written whenever nothing stands between its two concepts. */
  lemma PlainEdgeIsWritten(cfg: Config, key: Key, rows: Rows)
    requires DefaultScoring(cfg) && key.source != key.target
    requires !VerifiedSame(rows, key) && !VerifiedOther(rows, key) && !ClosesCycle(rows, key)
    ensures RunRows(PlainRun(cfg, key), rows).Keys == rows.Keys + {key}
  {
    var settings, dossiers, l := cfg.(text := PLAIN_TEXT), map[key := PlainDossier()], Opening(rows);
    PlainLedger(cfg, key, rows);
    PlainEvidenceClearsTheFloor(rows, key, cfg.decay);
    SettleRows({}, settings, dossiers, l, key);
    SettleRaises({}, settings, dossiers, l, key);
    hide LedgerOf, ClosesCycle, VerifiedOther, EvidenceFor, ScoreEdge, Settle;
  }

  // ----- When a run raises -------------------------------------------------------------------------

  /** The table never holds an edge from a concept to itself. */
  ghost predicate NoSelfLoops(rows: Rows) {
    forall k :: k in rows ==> k.source != k.target
  }

  /** What a turn needs to raise: its key is a self-loop that passes every guard. */
  lemma SettleRaises(contradictory: set<Key>, cfg: Config, dossiers: map<Key, Dossier>, l: Ledger, key: Key)
    ensures Settle(contradictory, cfg, dossiers, l, key).aborted
       <==> l.aborted || (PassesGuards(contradictory, cfg, dossiers, l, key) && key.source == key.target)
  {
    hide ClosesCycle, VerifiedOther, EvidenceFor, ScoreEdge, Upserted;
  }

  /** The evidence of a proposal about which the stored graph says nothing. */
  function Unsupported(d: Dossier): Evidence {
    Evidence(d.maxConfidence, |d.documents|, if d.explicitCue then Explicit else Inferred, false, false, false, false)
  }

  /** A self-loop that the batch filter keeps and whose own evidence reaches the review floor. */
  predicate Raising(contradictory: set<Key>, cfg: Config, dossiers: map<Key, Dossier>, key: Key) {
    && key.source == key.target && key in dossiers && key !in contradictory
    && ScoreEdge(Unsupported(dossiers[key]), cfg.decay, cfg.weights).score >= cfg.weights.reviewFloor
  }

  /** No stored edge bears on a self-loop: no cycle is found, no verified edge, no agreement. */
  lemma NothingBearsOnSelfLoop(rows: Rows, key: Key, d: Dossier)
    requires NoSelfLoops(rows) && key.source == key.target
    ensures !ClosesCycle(rows, key) && !VerifiedSame(rows, key) && !VerifiedOther(rows, key)
    ensures EvidenceFor(rows, key, d) == Unsupported(d)
  {
    CheckOfSelfLoop(EdgesOf(rows, key.relation), key.source, MAX_PATH_LEN);
    assert Key(key.target, key.source, key.relation) == key;
  }

  /** Which stored edges there are does not matter: one turn raises exactly on a raising key below the cap. */
  lemma SettleRaisesIff(contradictory: set<Key>, cfg: Config, dossiers: map<Key, Dossier>, l: Ledger, key: Key)
    requires NoSelfLoops(l.rows) && !l.aborted
    ensures Settle(contradictory, cfg, dossiers, l, key).aborted
       <==> Raising(contradictory, cfg, dossiers, key) && l.written < cfg.documentCap
  {
    SettleRaises(contradictory, cfg, dossiers, l, key);
    if key.source == key.target && key in dossiers {
      NothingBearsOnSelfLoop(l.rows, key, dossiers[key]);
    }
    hide Settle, ClosesCycle, VerifiedOther, EvidenceFor, ScoreEdge;
  }

  lemma SettleKeepsNoSelfLoops(contradictory: set<Key>, cfg: Config, dossiers: map<Key, Dossier>, l: Ledger, key: Key)
    requires NoSelfLoops(l.rows)
    ensures NoSelfLoops(Settle(contradictory, cfg, dossiers, l, key).rows)
  {
    SettleRows(contradictory, cfg, dossiers, l, key);
    hide Settle;
  }

  ghost function Loop(contradictory: set<Key>, cfg: Config, dossiers: map<Key, Dossier>, l: Ledger, keys: seq<Key>): Ledger {
    Fold((l: Ledger, key) => Settle(contradictory, cfg, dossiers, l, key), l, keys)
  }

  /** The i-th key raises, and fewer edges than the cap were written before it. */
  ghost predicate RaisesAt(
      contradictory: set<Key>, cfg: Config, dossiers: map<Key, Dossier>, l: Ledger, keys: seq<Key>, i: nat)
    requires i < |keys|
  {
    && Raising(contradictory, cfg, dossiers, keys[i])
    && Loop(contradictory, cfg, dossiers, l, keys[..i]).written < cfg.documentCap
  }

  /** The loop raises exactly when some key raises with room left under the cap. */
  lemma {:induction false} LoopRaisesIff(
      contradictory: set<Key>, cfg: Config, dossiers: map<Key, Dossier>, l: Ledger, keys: seq<Key>)
    requires NoSelfLoops(l.rows) && !l.aborted
    ensures Loop(contradictory, cfg, dossiers, l, keys).aborted
       <==> exists i :: 0 <= i < |keys| && RaisesAt(contradictory, cfg, dossiers, l, keys, i)
    ensures NoSelfLoops(Loop(contradictory, cfg, dossiers, l, keys).rows)
    decreases |keys|
  {
    hide Settle, Raising, NoSelfLoops;
    if keys != [] {
      var n := |keys| - 1;
      var front := keys[..n];
      var before := Loop(contradictory, cfg, dossiers, l, front);
      LoopRaisesIff(contradictory, cfg, dossiers, l, front);
      FoldNext((l: Ledger, key) => Settle(contradictory, cfg, dossiers, l, key), l, keys, n);
      assert keys[..n + 1] == keys;
      assert Loop(contradictory, cfg, dossiers, l, keys) == Settle(contradictory, cfg, dossiers, before, keys[n]);
      forall i | 0 <= i < n
        ensures RaisesAt(contradictory, cfg, dossiers, l, front, i) <==> RaisesAt(contradictory, cfg, dossiers, l, keys, i) {
        assert front[..i] == keys[..i];
      }
      SettleKeepsNoSelfLoops(contradictory, cfg, dossiers, before, keys[n]);
      if before.aborted {
        SettleRaises(contradictory, cfg, dossiers, before, keys[n]);
        var i :| 0 <= i < n && RaisesAt(contradictory, cfg, dossiers, l, front, i);
        assert RaisesAt(contradictory, cfg, dossiers, l, keys, i);
      } else {
        SettleRaisesIff(contradictory, cfg, dossiers, before, keys[n]);
        assert RaisesAt(contradictory, cfg, dossiers, l, keys, n)
          <==> Settle(contradictory, cfg, dossiers, before, keys[n]).aborted;
      }
    }
  }

  ghost predicate RunRaisesAt(run: RunInput, rows: Rows, i: nat)
    requires i < |TallyOf(run).order|
  {
    var t := TallyOf(run);
    RaisesAt(Contradictory(t.dossiers.Keys), run.cfg, t.dossiers, StartOf(run, rows), t.order, i)
  }

  /** A run raises exactly when some key is a kept self-loop with enough evidence, reached below the cap. */
  lemma RunRaisesIff(run: RunInput, rows: Rows)
    requires NoSelfLoops(rows)
    ensures LedgerOf(run, rows).aborted <==> exists i :: 0 <= i < |TallyOf(run).order| && RunRaisesAt(run, rows, i)
    ensures NoSelfLoops(RunRows(run, rows))
  {
    hide PhaseOne, Settle, Contradictory, RaisesAt;
    var t := TallyOf(run);
    assert forall i :: 0 <= i < |t.order| ==> (RunRaisesAt(run, rows, i)
      <==> RaisesAt(Contradictory(t.dossiers.Keys), run.cfg, t.dossiers, StartOf(run, rows), t.order, i));
    LoopRaisesIff(Contradictory(t.dossiers.Keys), run.cfg, t.dossiers, StartOf(run, rows), t.order);
  }

  ghost predicate HasRaisingKey(run: RunInput) {
    var t := TallyOf(run);
    exists k :: k in t.dossiers && Raising(Contradictory(t.dossiers.Keys), run.cfg, t.dossiers, k)
  }

  lemma {:induction false} LoopWritesAtMost(
      contradictory: set<Key>, cfg: Config, dossiers: map<Key, Dossier>, l: Ledger, keys: seq<Key>)
    ensures Loop(contradictory, cfg, dossiers, l, keys).written <= l.written + |keys|
    decreases |keys|
  {
    hide Settle;
    if keys != [] {
      var next := Settle(contradictory, cfg, dossiers, l, keys[0]);
      SettleRows(contradictory, cfg, dossiers, l, keys[0]);
      LoopWritesAtMost(contradictory, cfg, dossiers, next, keys[1..]);
    }
  }

  /** With no more keys than the cap the stored graph has no say: the replies alone decide. */
  lemma RunRaisesWithinCapIff(run: RunInput, rows: Rows)
    requires NoSelfLoops(rows) && |TallyOf(run).order| <= run.cfg.documentCap
    ensures LedgerOf(run, rows).aborted <==> HasRaisingKey(run)
  {
    var t := TallyOf(run);
    var contradictory, start := Contradictory(t.dossiers.Keys), StartOf(run, rows);
    RunRaisesIff(run, rows);
    PhaseOneSound(run.doc, run.cfg, run.chunks, ChunkSet(run));
    assert OrderMatches(t);
    hide PhaseOne, Loop, Contradictory, Raising, LedgerOf;
    forall i | 0 <= i < |t.order|
      ensures RunRaisesAt(run, rows, i)
         <==> Raising(contradictory, run.cfg, t.dossiers, t.order[i]) {
      LoopWritesAtMost(contradictory, run.cfg, t.dossiers, start, t.order[..i]);
    }
    if HasRaisingKey(run) {
      var k :| k in t.dossiers && Raising(contradictory, run.cfg, t.dossiers, k);
      var i :| 0 <= i < |t.order| && t.order[i] == k;
      assert RunRaisesAt(run, rows, i);
    }
  }

  /**
    Two names that resolve to one concept pass the name gate, the batch filter and the cycle query,
    and reach the table's no-self-loop constraint: a run with one such proposal raises.
   */
  lemma SelfLoopRaises(cfg: Config, rows: Rows, c: Node, r: Relation)
    requires DefaultScoring(cfg) && NoSelfLoops(rows)
    ensures LedgerOf(PlainRun(cfg, Key(c, c, r)), rows).aborted
  {
    var key := Key(c, c, r);
    PlainLedger(cfg, key, rows);
    NothingBearsOnSelfLoop(rows, key, PlainDossier());
    PlainEvidenceClearsTheFloor(rows, key, cfg.decay);
    hide Settle, EvidenceFor, ScoreEdge, LedgerOf;
    SettleRaisesIff({}, cfg.(text := PLAIN_TEXT), map[key := PlainDossier()], Opening(rows), key);
  }

  // ----- How many concepts are safe ------------------------------------------------------------------

  /** The run has these settings, whatever its string helpers. */
  ghost predicate WithSettings(run: RunInput, cfg: Config) {
    run.cfg == cfg.(text := run.cfg.text)
  }

  /** Runs with these settings that only ever resolve names to the concepts below `n`. */
  ghost predicate RunsBelow(runs: seq<RunInput>, cfg: Config, n: nat) {
    forall run :: run in runs ==> WithSettings(run, cfg) && RunOver(run, Below(n))
  }

  /** Any runs, from any acyclic relation over the concepts below `n`, leave it acyclic. */
  ghost predicate RunsStayAcyclic(cfg: Config, n: nat, r: Relation) {
    forall runs: seq<RunInput>, rows: Rows ::
      Acyclic(EdgesOf(rows, r)) && KeysOver(rows.Keys, Below(n)) && RunsBelow(runs, cfg, n) ==>
        Acyclic(EdgesOf(AllRuns(runs, rows), r))
  }

  function ChainKeys(n: nat, r: Relation): set<Key> {
    set e | e in Chain(n) :: Key(e.0, e.1, r)
  }

  function StoredRow(): Row {
    Row(false, 0.5, 1.0, true, 1, [], None)
  }

  function ChainRows(n: nat, r: Relation): Rows {
    map k | k in ChainKeys(n, r) :: StoredRow()
  }

  lemma ChainRowsEdges(n: nat, r: Relation)
    ensures EdgesOf(ChainRows(n, r), r) == Chain(n)
    ensures KeysOver(ChainRows(n, r).Keys, Below(n + 1))
  {
    forall e | e in Chain(n) ensures e in EdgesOf(ChainRows(n, r), r) {
      assert Key(e.0, e.1, r) in ChainRows(n, r);
    }
  }

  lemma OneRunOnly(run: RunInput, rows: Rows)
    ensures AllRuns([run], rows) == RunRows(run, rows)
  {
    assert [run][1..] == [];
  }

  lemma PlainRunIsOver(cfg: Config, key: Key, n: nat)
    requires key.source < n && key.target < n
    ensures RunsBelow([PlainRun(cfg, key)], cfg, n)
  {
    assert AssertionOver(PlainAssertion(key), Below(n));
  }

  /** One run with one proposal closes a stored chain of 21 edges into a cycle, on 22 concepts. */
  lemma BlindWriteExists(cfg: Config, r: Relation)
    requires DefaultScoring(cfg) && InClosure(r)
    ensures var rows, key := ChainRows(MAX_PATH_LEN + 1, r), Key(MAX_PATH_LEN + 1, 0, r);
            Acyclic(EdgesOf(rows, r)) && !Acyclic(EdgesOf(RunRows(PlainRun(cfg, key), rows), r))
  {
    var rows, key := ChainRows(MAX_PATH_LEN + 1, r), Key(MAX_PATH_LEN + 1, 0, r);
    ChainRowsEdges(MAX_PATH_LEN + 1, r);
    LongChainDefeatsCheck(MAX_PATH_LEN);
    assert !VerifiedSame(rows, key) && !VerifiedOther(rows, key);
    hide ChainRows, Chain, VerifiedOther, RunRows;
    PlainEdgeIsWritten(cfg, key, rows);
    EdgesOfInsert(rows, RunRows(PlainRun(cfg, key), rows), key, r);
  }

  /**
    Any number of runs with the default weights keep a closure relation over n concepts acyclic
    exactly when n is at most 21.
   */
  lemma RunsStayAcyclicIff(cfg: Config, n: nat, r: Relation)
    requires DefaultScoring(cfg) && InClosure(r)
    ensures RunsStayAcyclic(cfg, n, r) <==> n <= 21
  {
    hide Acyclic, EdgesOf, AllRuns, KeysOver, RunOver, RunRows, ChainRows;
    if n <= MAX_PATH_LEN + 1 {
      forall runs: seq<RunInput>, rows: Rows
        | Acyclic(EdgesOf(rows, r)) && KeysOver(rows.Keys, Below(n)) && RunsBelow(runs, cfg, n)
        ensures Acyclic(EdgesOf(AllRuns(runs, rows), r))
      {
        RunsKeepAcyclic(runs, rows, r, Below(n));
      }
    } else {
      var rows, key := ChainRows(MAX_PATH_LEN + 1, r), Key(MAX_PATH_LEN + 1, 0, r);
      BlindWriteExists(cfg, r);
      ChainRowsEdges(MAX_PATH_LEN + 1, r);
      KeysOverMore(rows.Keys, Below(MAX_PATH_LEN + 2), Below(n));
      PlainRunIsOver(cfg, key, n);
      OneRunOnly(PlainRun(cfg, key), rows);
      assert !Acyclic(EdgesOf(AllRuns([PlainRun(cfg, key)], rows), r));
    }
  }

  lemma TwoWaysIsCycle(rows: Rows, r: Relation)
    requires Key(0, 1, r) in rows && Key(1, 0, r) in rows
    ensures !Acyclic(EdgesOf(rows, r))
  {
    var edges := EdgesOf(rows, r);
    assert (Key(0, 1, r).source, Key(0, 1, r).target) in edges && (Key(1, 0, r).source, Key(1, 0, r).target) in edges;
    WalkReaches(edges, [0, 1, 0]);
  }

  /** One run proposes an edge of the relation, and the next one its reverse. */
  lemma BothWaysAreWritten(cfg: Config, r: Relation)
    requires DefaultScoring(cfg) && !InClosure(r)
    ensures var runs := [PlainRun(cfg, Key(0, 1, r)), PlainRun(cfg, Key(1, 0, r))];
            !Acyclic(EdgesOf(AllRuns(runs, map[]), r)) && RunsBelow(runs, cfg, 2)
  {
    var there, back := Key(0, 1, r), Key(1, 0, r);
    var first, second := PlainRun(cfg, there), PlainRun(cfg, back);
    PlainRunIsOver(cfg, there, 2);
    PlainRunIsOver(cfg, back, 2);
    assert first in [first] && second in [second];
    PlainEdgeIsWritten(cfg, there, map[]);
    RunKeepsVerified(first, map[]);
    var rows := RunRows(first, map[]);
    hide RunRows, PlainRun, RunOver, Acyclic;
    PlainEdgeIsWritten(cfg, back, rows);
    TwoWaysIsCycle(RunRows(second, rows), r);
    OneRunOnly(second, rows);
    assert [first, second][1..] == [second];
  }

  /** Exactly three relations are kept acyclic at all, even over two concepts. */
  lemma CheckedRelationsIff(cfg: Config, r: Relation)
    requires DefaultScoring(cfg)
    ensures RunsStayAcyclic(cfg, 2, r) <==> r in {Requires, Contains, PartOf}
  {
    if r in {Requires, Contains, PartOf} {
      RunsStayAcyclicIff(cfg, 2, r);
    } else {
      BothWaysAreWritten(cfg, r);
      var rows: Rows := map[];
      assert EdgesOf(rows, r) == {};
      NoEdgesIsAcyclic();
      hide Acyclic, AllRuns;
      assert KeysOver(rows.Keys, Below(2));
    }
  }

  lemma KeysOverMore(keys: set<Key>, few: set<Node>, more: set<Node>)
    requires KeysOver(keys, few) && few <= more
    ensures KeysOver(keys, more)
  {
  }

  // ----- Several relations together --------------------------------------------------------------------

  /** The stored edges of all relations whose closure is followed, together. */
  function ClosureEdges(rows: Rows): set<Edge> {
    set k | k in rows && InClosure(k.relation) :: (k.source, k.target)
  }

  lemma ClosureEdgesInsert(rows: Rows, more: Rows, key: Key)
    requires more.Keys == rows.Keys + {key}
    ensures ClosureEdges(more) == ClosureEdges(rows) + if InClosure(key.relation) then {(key.source, key.target)} else {}
  {
    forall k | k in rows && InClosure(k.relation) ensures (k.source, k.target) in ClosureEdges(more) {
      assert k in more;
    }
    forall e | e in ClosureEdges(more)
      ensures e in ClosureEdges(rows) || (InClosure(key.relation) && e == (key.source, key.target))
    {
      var k :| k in more && InClosure(k.relation) && (k.source, k.target) == e;
    }
    if InClosure(key.relation) {
      assert key in more;
    }
  }

  /** The guards let a closure edge through although other closure relations lead back from its target. */
  ghost predicate MixedWrite(
      contradictory: set<Key>, cfg: Config, dossiers: map<Key, Dossier>, l: Ledger, key: Key) {
    && InClosure(key.relation) && key.source != key.target
    && PassesGuards(contradictory, cfg, dossiers, l, key)
    && Reaches(ClosureEdges(l.rows), key.target, key.source)
  }

  /** One turn keeps the closure relations acyclic together exactly when no way leads back across them. */
  lemma SettleUnionIff(contradictory: set<Key>, cfg: Config, dossiers: map<Key, Dossier>, l: Ledger, key: Key)
    requires Acyclic(ClosureEdges(l.rows))
    ensures Acyclic(ClosureEdges(Settle(contradictory, cfg, dossiers, l, key).rows))
       <==> !MixedWrite(contradictory, cfg, dossiers, l, key)
  {
    SettleRows(contradictory, cfg, dossiers, l, key);
    hide Settle, ClosureEdges, Acyclic, PassesGuards;
    var m := Settle(contradictory, cfg, dossiers, l, key);
    if m.written != l.written {
      ClosureEdgesInsert(l.rows, m.rows, key);
      if InClosure(key.relation) {
        InsertAcyclicIff(ClosureEdges(l.rows), key.source, key.target);
      } else {
        assert ClosureEdges(l.rows) + {} == ClosureEdges(l.rows);
      }
    }
  }

  /** Any runs leave the closure relations over the concepts below `n` acyclic together. */
  ghost predicate RunsStayAcyclicTogether(cfg: Config, n: nat) {
    forall runs: seq<RunInput>, rows: Rows ::
      Acyclic(ClosureEdges(rows)) && KeysOver(rows.Keys, Below(n)) && RunsBelow(runs, cfg, n) ==>
        Acyclic(ClosureEdges(AllRuns(runs, rows)))
  }

  function OneRow(key: Key): Rows {
    map[key := StoredRow()]
  }

  lemma NoPathWithoutEdges(a: Node, b: Node)
    ensures !WouldCreateCycle({}, a, b, MAX_PATH_LEN)
  {
    if a == b {
      CheckOfSelfLoop({}, a, MAX_PATH_LEN);
    } else {
      CheckIsBoundedReachability({}, a, b, MAX_PATH_LEN);
      if ReachesWithin({}, b, a, MAX_PATH_LEN) {
        assert Reaches({}, b, a);
        var _, _ := WalkEnds({}, b, a);
      }
    }
  }

  /** The check looks at one relation at a time: a run can join two acyclic relations into a cycle. */
  lemma RelationsTogetherCanCycle(cfg: Config, a: Node, b: Node)
    requires DefaultScoring(cfg) && a != b
    ensures var rows := RunRows(PlainRun(cfg, Key(b, a, PartOf)), OneRow(Key(a, b, Requires)));
            && Acyclic(EdgesOf(rows, Requires)) && Acyclic(EdgesOf(rows, PartOf))
            && Acyclic(ClosureEdges(OneRow(Key(a, b, Requires)))) && !Acyclic(ClosureEdges(rows))
  {
    var stored, key := Key(a, b, Requires), Key(b, a, PartOf);
    var start := OneRow(stored);
    assert EdgesOf(start, PartOf) == {};
    NoPathWithoutEdges(b, a);
    assert !VerifiedSame(start, key) && !VerifiedOther(start, key);
    hide WouldCreateCycle, VerifiedOther;
    PlainEdgeIsWritten(cfg, key, start);
    hide RunRows;
    var rows := RunRows(PlainRun(cfg, key), start);
    assert stored in rows && key in rows && stored in start;
    assert EdgesOf(rows, Requires) == {(a, b)} && EdgesOf(rows, PartOf) == {(b, a)};
    assert ClosureEdges(start) == {(a, b)};
    SingleEdgeIsAcyclic(a, b);
    SingleEdgeIsAcyclic(b, a);
    ClosureEdgesInsert(start, rows, key);
    InsertAcyclicIff({(a, b)}, b, a);
    assert IsWalk({(a, b)}, [a, b]);
    WalkReaches({(a, b)}, [a, b]);
  }

  /** Over one concept a run writes nothing. */
  lemma RunOverOneConcept(run: RunInput, rows: Rows)
    requires RunOver(run, Below(1))
    ensures RunRows(run, rows).Keys == rows.Keys
  {
    var t, l := TallyOf(run), LedgerOf(run, rows);
    ChunksKeepKeysOver(run.doc, run.cfg, EMPTY_TALLY, run.chunks, Below(1));
    RunFrame(run, rows);
    RunNeverAutoAccepts(run, rows);
    PhasesCompose(run, rows);
    hide PhaseOne, PhaseTwo, Merged, VerifiedOther, Verbatim;
    assert KeysOver(t.dossiers.Keys, Below(1));
    assert WrittenKeys(l.out) == {};
  }

  lemma {:induction false} RunsOverOneConcept(runs: seq<RunInput>, rows: Rows)
    requires forall run :: run in runs ==> RunOver(run, Below(1))
    ensures AllRuns(runs, rows).Keys == rows.Keys
    decreases |runs|
  {
    hide RunRows, RunOver;
    if runs != [] {
      assert runs[0] in runs;
      RunOverOneConcept(runs[0], rows);
      RunsOverOneConcept(runs[1..], RunRows(runs[0], rows));
    }
  }

  lemma RunOverMore(run: RunInput, n: nat)
    requires RunOver(run, Below(n)) && n <= 1
    ensures RunOver(run, Below(1))
  {
    forall c | c in run.chunks && c.reply.Parsed? ensures RelationsOver(c.reply.relations, Below(1)) {
      assert RelationsOver(c.reply.relations, Below(n));
      forall a | a in c.reply.relations ensures AssertionOver(a, Below(1)) {
        assert AssertionOver(a, Below(n));
      }
    }
  }

  /** Together the closure relations are safe exactly on a single concept. */
  lemma RunsStayAcyclicTogetherIff(cfg: Config, n: nat)
    requires DefaultScoring(cfg)
    ensures RunsStayAcyclicTogether(cfg, n) <==> n <= 1
  {
    hide Acyclic, RunOver, RunRows;
    if n <= 1 {
      forall runs: seq<RunInput>, rows: Rows
        | Acyclic(ClosureEdges(rows)) && KeysOver(rows.Keys, Below(n)) && RunsBelow(runs, cfg, n)
        ensures Acyclic(ClosureEdges(AllRuns(runs, rows)))
      {
        forall run | run in runs ensures RunOver(run, Below(1)) {
          RunOverMore(run, n);
        }
        RunsOverOneConcept(runs, rows);
        assert ClosureEdges(AllRuns(runs, rows)) == ClosureEdges(rows);
      }
    } else {
      var rows, run := OneRow(Key(0, 1, Requires)), PlainRun(cfg, Key(1, 0, PartOf));
      RelationsTogetherCanCycle(cfg, 0, 1);
      PlainRunIsOver(cfg, Key(1, 0, PartOf), n);
      OneRunOnly(run, rows);
      assert KeysOver(rows.Keys, Below(n));
      assert !Acyclic(ClosureEdges(AllRuns([run], rows)));
    }
  }
}
