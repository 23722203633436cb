/**
  Phase two of an extraction run: each dossier is filtered, checked against the stored graph,
  scored, and written or counted.
 */
module ExtractionWrite {
  import opened Base
  import opened Walks
  import opened CycleFilter
  import opened CycleCheck
  import opened Confidence
  import opened ExtractionGates

  /** A stored edge row; `first` is what its own provenance columns hold. */
  datatype Row = Row(
    verified: bool, confidence: real, weight: real, explicitCue: bool, corroborations: nat,
    sources: seq<Source>, first: Option<Source>)

  /** The weight every extracted edge is written with. */
  const EDGE_WEIGHT := 1.0

  type Rows = map<Key, Row>

  predicate InClosure(r: Relation) {
    r == Requires || r == Contains || r == PartOf
  }

  /** The stored edges of one relation. */
  function EdgesOf(rows: Rows, r: Relation): set<Edge> {
    set k | k in rows && k.relation == r :: (k.source, k.target)
  }

  /** The query behind the phase-two cycle gate. */
  predicate ClosesCycle(rows: Rows, key: Key) {
    InClosure(key.relation) && WouldCreateCycle(EdgesOf(rows, key.relation), key.source, key.target, MAX_PATH_LEN)
  }

  predicate SamePair(a: Key, b: Key) {
    (a.source == b.source && a.target == b.target) || (a.source == b.target && a.target == b.source)
  }

  predicate VerifiedSame(rows: Rows, key: Key) {
    key in rows && rows[key].verified
  }

  /** A verified edge between the two concepts, in either direction, other than this one. */
  predicate VerifiedOther(rows: Rows, key: Key) {
    exists k | k in rows :: k != key && SamePair(k, key) && rows[k].verified
  }

  /** What the score is computed from; the path question swaps the endpoints. */
  function EvidenceFor(rows: Rows, key: Key, d: Dossier): Evidence {
    var same := VerifiedSame(rows, key);
    Evidence(
      d.maxConfidence, |d.documents|, if d.explicitCue then Explicit else Inferred, false, same,
      !same && ClosesCycle(rows, Key(key.target, key.source, key.relation)), VerifiedOther(rows, key))
  }

  function Max(x: real, y: real): real {
    if x >= y then x else y
  }

  datatype UpsertOutcome = Written | Untouched | IntegrityError

  /** The conflict clause of the upsert, under the table's no-self-loop constraint. */
  function UpsertOutcomeOf(rows: Rows, key: Key): UpsertOutcome {
    if key.source == key.target then IntegrityError
    else if VerifiedSame(rows, key) then Untouched
    else Written
  }

  function Merged(rows: Rows, key: Key, score: real, d: Dossier): Row {
    if key in rows then
      var row := rows[key];
      Row(row.verified, Max(row.confidence, score), Max(row.weight, EDGE_WEIGHT), row.explicitCue || d.explicitCue,
          row.corroborations + 1, row.sources + d.sources, row.first)
    else Row(false, score, EDGE_WEIGHT, d.explicitCue, 1, d.sources, d.first)
  }

  /** Inserts or merges one edge; a verified row and every other key stay as they are. */
  function Upserted(rows: Rows, key: Key, score: real, d: Dossier): Rows {
    if UpsertOutcomeOf(rows, key) == Written then rows[key := Merged(rows, key, score, d)] else rows
  }

  datatype Summary = Summary(key: Key, score: real, explicitCue: bool, disposition: Disposition)

  /** The running state of phase two; `aborted` is the raised integrity error. */
  datatype Ledger = Ledger(
    rows: Rows, counts: Counts, rejected: nat, written: nat, queued: nat, out: seq<Summary>, aborted: bool)

  function Reject(l: Ledger, g: Gate): Ledger {
    l.(counts := Count(l.counts, g), rejected := l.rejected + 1)
  }

  function Queue(l: Ledger): Ledger {
    l.(counts := Count(l.counts, VerifiedConflict), queued := l.queued + 1)
  }

  function Write(l: Ledger, key: Key, d: Dossier, score: EdgeScore): Ledger {
    match UpsertOutcomeOf(l.rows, key)
    case IntegrityError => l.(aborted := true)
    case Untouched => Queue(l)
    case Written =>
      l.(rows := Upserted(l.rows, key, score.score, d),
         written := l.written + 1,
         queued := l.queued + if score.disposition == Review then 1 else 0,
         out := l.out + [Summary(key, score.score, d.explicitCue, score.disposition)])
  }

  /** The gates of phase two before the write, in order. */
  function LateRejection(l: Ledger, key: Key, contradictory: set<Key>, cfg: Config): Option<Gate> {
    if key in contradictory then Some(ContradictoryCycle)
    else if l.written >= cfg.documentCap then Some(DocumentEdgeCap)
    else if ClosesCycle(l.rows, key) then Some(Cycle)
    else None
  }

  /** The scoring, the verified-edge gate, the floor and the write. */
  function SettleScored(cfg: Config, l: Ledger, key: Key, d: Dossier): Ledger {
    var score := ScoreEdge(EvidenceFor(l.rows, key, d), cfg.decay, cfg.weights);
    if VerifiedSame(l.rows, key) || VerifiedOther(l.rows, key) then Queue(l)
    else if score.score < cfg.weights.reviewFloor then Reject(l, ConfidenceFloor)
    else Write(l, key, d, score)
  }

  function SettleKey(contradictory: set<Key>, cfg: Config, l: Ledger, key: Key, d: Dossier): Ledger {
    var gate := LateRejection(l, key, contradictory, cfg);
    if gate.Some? then Reject(l, gate.value) else SettleScored(cfg, l, key, d)
  }

  /** One turn of the second loop. */
  function Settle(contradictory: set<Key>, cfg: Config, dossiers: map<Key, Dossier>, l: Ledger, key: Key): Ledger {
    if l.aborted || key !in dossiers then l else SettleKey(contradictory, cfg, l, key, dossiers[key])
  }

  ghost function PhaseTwo(t: Tally, cfg: Config, rows: Rows): Ledger {
    var contradictory := Contradictory(t.dossiers.Keys);
    Fold((l: Ledger, key) => Settle(contradictory, cfg, t.dossiers, l, key),
         Ledger(rows, t.counts, t.rejected, 0, 0, [], false), t.order)
  }

  // ----- What every turn keeps -----------------------------------------------------------------

  /** The context of a run: the document, its chunks, the dossiers, and the rows it started from. */
  datatype Setting = Setting(doc: Document, chunks: set<Chunk>, cfg: Config, dossiers: map<Key, Dossier>, rows: Rows)

  ghost predicate SoundSetting(s: Setting) {
    forall k :: k in s.dossiers ==> SoundDossier(k, s.dossiers[k], s.doc, s.chunks, s.cfg.text)
  }

  /** Verified rows are as they were; no row is lost or becomes verified; quotes were checked. */
  ghost predicate RowsSound(s: Setting, rows: Rows) {
    && (forall k :: k in s.rows ==> k in rows && rows[k].verified == s.rows[k].verified)
    && (forall k :: k in s.rows && s.rows[k].verified ==> rows[k] == s.rows[k])
    && (forall k :: k in rows && k !in s.rows ==> !rows[k].verified)
    && (forall k, q :: k in rows && q in rows[k].sources ==>
          (k in s.rows && q in s.rows[k].sources) || Verbatim(q, s.doc, s.chunks, s.cfg.text))
    && (forall k :: k in rows && rows[k].first.Some? ==>
          || (k in s.rows && s.rows[k].first == rows[k].first)
          || Verbatim(rows[k].first.value, s.doc, s.chunks, s.cfg.text))
  }

  /** No written edge was auto-accepted, fell below the floor, or met a verified edge. */
  ghost predicate SoundSummary(s: Setting, rows: Rows, e: Summary) {
    && e.disposition == Review
    && s.cfg.weights.reviewFloor <= e.score <= 1.0
    && (e.key.relation == Requires ==> e.explicitCue)
    && !VerifiedSame(s.rows, e.key) && !VerifiedOther(s.rows, e.key)
    && e.key.source != e.key.target
    && e.key in s.dossiers && e.explicitCue == s.dossiers[e.key].explicitCue
    && e.key in rows && rows[e.key] == Merged(s.rows, e.key, e.score, s.dossiers[e.key])
  }

  function WrittenKeys(out: seq<Summary>): set<Key> {
    set e | e in out :: e.key
  }

  /** Outside the written keys the stored rows are exactly those of the start. */
  ghost predicate OthersUnchanged(s: Setting, rows: Rows, written: set<Key>) {
    forall k :: k !in written ==> (k in rows <==> k in s.rows) && (k in rows ==> rows[k] == s.rows[k])
  }

  /** Since `start`, every settled key was rejected, met a verified edge, or was written; and counted. */
  ghost predicate LedgerBalanced(s: Setting, l: Ledger, start: Ledger, settled: nat) {
    && l.rejected + l.counts[VerifiedConflict] + l.written == start.rejected + settled
    && |l.counts| + l.written == |start.counts| + settled
    && l.counts[DuplicateEdge] == start.counts[DuplicateEdge]
    && l.queued == l.written + l.counts[VerifiedConflict]
    && l.written == |l.out|
    && (l.written > 0 ==> l.written <= s.cfg.documentCap)
  }

  ghost predicate SoundLedger(s: Setting, l: Ledger) {
    && RowsSound(s, l.rows)
    && OthersUnchanged(s, l.rows, WrittenKeys(l.out))
    && (forall e :: e in l.out ==> SoundSummary(s, l.rows, e))
  }

  lemma VerifiedAsBefore(s: Setting, rows: Rows, key: Key)
    requires RowsSound(s, rows)
    ensures VerifiedSame(rows, key) == VerifiedSame(s.rows, key)
    ensures VerifiedOther(rows, key) == VerifiedOther(s.rows, key)
  {
  }

  /** One document can never reach the two documents auto-acceptance asks for. */
  lemma OneDocumentIsReviewed(s: Setting, rows: Rows, key: Key)
    requires SoundSetting(s) && key in s.dossiers
    ensures var score := ScoreEdge(EvidenceFor(rows, key, s.dossiers[key]), s.cfg.decay, s.cfg.weights);
            && score.score <= 1.0
            && (score.score >= s.cfg.weights.reviewFloor ==> score.disposition == Review)
  {
    assert SoundDossier(key, s.dossiers[key], s.doc, s.chunks, s.cfg.text);
    hide SoundDossier, ClosesCycle, VerifiedOther, EdgeConfidence;
    assert s.dossiers[key].documents == {s.doc.id} by { DocumentsOf(s, key); }
  }

  lemma DocumentsOf(s: Setting, key: Key)
    requires SoundSetting(s) && key in s.dossiers
    ensures s.dossiers[key].documents == {s.doc.id}
    ensures key.relation == Requires ==> s.dossiers[key].explicitCue
    ensures forall q :: q in s.dossiers[key].sources ==> Verbatim(q, s.doc, s.chunks, s.cfg.text)
    ensures s.dossiers[key].first.Some? && s.dossiers[key].first.value in s.dossiers[key].sources
  {
    assert SoundDossier(key, s.dossiers[key], s.doc, s.chunks, s.cfg.text);
    hide Verbatim;
  }

  lemma UpsertKeepsRows(s: Setting, rows: Rows, key: Key, score: real)
    requires SoundSetting(s) && RowsSound(s, rows) && key in s.dossiers
    ensures RowsSound(s, Upserted(rows, key, score, s.dossiers[key]))
  {
    DocumentsOf(s, key);
    hide Verbatim;
  }

  lemma WrittenKeysGrow(out: seq<Summary>, e: Summary)
    ensures WrittenKeys(out + [e]) == WrittenKeys(out) + {e.key}
  {
    assert e in out + [e];
    forall k | k in WrittenKeys(out) ensures k in WrittenKeys(out + [e]) {
      var f :| f in out && f.key == k;
      assert f in out + [e];
    }
  }

  lemma WriteKeepsSummaries(s: Setting, l: Ledger, key: Key, score: EdgeScore)
    requires SoundSetting(s) && SoundLedger(s, l) && key in s.dossiers && key !in WrittenKeys(l.out)
    requires UpsertOutcomeOf(l.rows, key) == Written
    requires score.disposition == Review && s.cfg.weights.reviewFloor <= score.score <= 1.0
    requires !VerifiedSame(s.rows, key) && !VerifiedOther(s.rows, key)
    ensures SoundLedger(s, Write(l, key, s.dossiers[key], score))
  {
    DocumentsOf(s, key);
    UpsertKeepsRows(s, l.rows, key, score.score);
    hide VerifiedOther, VerifiedSame, RowsSound, SoundSetting;
    var m := Write(l, key, s.dossiers[key], score);
    assert Merged(l.rows, key, score.score, s.dossiers[key]) == Merged(s.rows, key, score.score, s.dossiers[key]);
    hide Merged;
    assert WrittenKeys(m.out) == WrittenKeys(l.out) + {key} by { WrittenKeysGrow(l.out, m.out[|l.out|]); }
    forall e | e in m.out ensures SoundSummary(s, m.rows, e) {
      if e in l.out {
        assert SoundSummary(s, l.rows, e);
        assert e.key in WrittenKeys(l.out);
      } else {
        assert e == Summary(key, score.score, s.dossiers[key].explicitCue, score.disposition);
      }
    }
  }

  lemma SettleKeepsSound(s: Setting, contradictory: set<Key>, l: Ledger, key: Key)
    requires SoundSetting(s) && SoundLedger(s, l) && key !in WrittenKeys(l.out)
    ensures SoundLedger(s, Settle(contradictory, s.cfg, s.dossiers, l, key))
    ensures WrittenKeys(Settle(contradictory, s.cfg, s.dossiers, l, key).out) <= WrittenKeys(l.out) + {key}
  {
    hide SoundSetting, SoundSummary, Merged, OthersUnchanged, VerifiedOther, ClosesCycle, EvidenceFor, ScoreEdge;
    if !l.aborted && key in s.dossiers && LateRejection(l, key, contradictory, s.cfg).None? {
      VerifiedAsBefore(s, l.rows, key);
      OneDocumentIsReviewed(s, l.rows, key);
      var score := ScoreEdge(EvidenceFor(l.rows, key, s.dossiers[key]), s.cfg.decay, s.cfg.weights);
      hide RowsSound;
      if UpsertOutcomeOf(l.rows, key) == Written && score.score >= s.cfg.weights.reviewFloor
          && !VerifiedSame(l.rows, key) && !VerifiedOther(l.rows, key) {
        WriteKeepsSummaries(s, l, key, score);
        WrittenKeysGrow(l.out, Summary(key, score.score, s.dossiers[key].explicitCue, score.disposition));
      }
    }
  }

  lemma LateGateIsPlain(l: Ledger, key: Key, contradictory: set<Key>, cfg: Config)
    ensures var g := LateRejection(l, key, contradictory, cfg);
            g.Some? ==> g.value != VerifiedConflict && g.value != DuplicateEdge
    ensures LateRejection(l, key, contradictory, cfg).None? ==> l.written < cfg.documentCap
  {
  }

  lemma RejectKeepsBalance(s: Setting, l: Ledger, g: Gate, start: Ledger, settled: nat)
    requires LedgerBalanced(s, l, start, settled) && g != VerifiedConflict && g != DuplicateEdge
    ensures LedgerBalanced(s, Reject(l, g), start, settled + 1) && Reject(l, g).aborted == l.aborted
  {
  }

  lemma QueueKeepsBalance(s: Setting, l: Ledger, start: Ledger, settled: nat)
    requires LedgerBalanced(s, l, start, settled)
    ensures LedgerBalanced(s, Queue(l), start, settled + 1) && Queue(l).aborted == l.aborted
  {
  }

  lemma WriteKeepsBalance(s: Setting, l: Ledger, key: Key, score: EdgeScore, start: Ledger, settled: nat)
    requires LedgerBalanced(s, l, start, settled) && key in s.dossiers && l.written < s.cfg.documentCap
    requires score.disposition == Review && UpsertOutcomeOf(l.rows, key) == Written
    ensures LedgerBalanced(s, Write(l, key, s.dossiers[key], score), start, settled + 1)
  {
    hide Upserted;
  }

  lemma SettleKeepsBalance(s: Setting, contradictory: set<Key>, l: Ledger, key: Key, start: Ledger, settled: nat)
    requires SoundSetting(s) && key in s.dossiers
    requires LedgerBalanced(s, l, start, settled)
    ensures var m := Settle(contradictory, s.cfg, s.dossiers, l, key);
            !m.aborted ==> LedgerBalanced(s, m, start, settled + 1)
  {
    OneDocumentIsReviewed(s, l.rows, key);
    hide SoundSetting, VerifiedOther, ClosesCycle, EvidenceFor, ScoreEdge, Upserted, LedgerBalanced, Reject, Queue;
    LateGateIsPlain(l, key, contradictory, s.cfg);
    forall g: Gate | g != VerifiedConflict && g != DuplicateEdge
      ensures LedgerBalanced(s, Reject(l, g), start, settled + 1) {
      RejectKeepsBalance(s, l, g, start, settled);
    }
    QueueKeepsBalance(s, l, start, settled);
    if !l.aborted && LateRejection(l, key, contradictory, s.cfg).None? {
      var score := ScoreEdge(EvidenceFor(l.rows, key, s.dossiers[key]), s.cfg.decay, s.cfg.weights);
      if score.score >= s.cfg.weights.reviewFloor && UpsertOutcomeOf(l.rows, key) == Written {
        WriteKeepsBalance(s, l, key, score, start, settled);
      }
    }
  }

  lemma {:induction false} SettleAll(
      s: Setting, contradictory: set<Key>, l: Ledger, keys: seq<Key>, start: Ledger, settled: nat)
    requires SoundSetting(s) && SoundLedger(s, l) && (forall k :: k in keys ==> k in s.dossiers)
    requires Distinct(keys) && forall k :: k in keys ==> k !in WrittenKeys(l.out)
    requires LedgerBalanced(s, l, start, settled)
    ensures var m := Fold((l: Ledger, key) => Settle(contradictory, s.cfg, s.dossiers, l, key), l, keys);
            && SoundLedger(s, m)
            && (!m.aborted ==> LedgerBalanced(s, m, start, settled + |keys|))
    decreases |keys|
  {
    hide SoundSetting, SoundLedger, LedgerBalanced, Settle, WrittenKeys;
    if keys != [] {
      assert keys[0] in keys;
      assert keys[0] !in keys[1..];
      var step := (l: Ledger, key) => Settle(contradictory, s.cfg, s.dossiers, l, key);
      var next := Settle(contradictory, s.cfg, s.dossiers, l, keys[0]);
      SettleKeepsSound(s, contradictory, l, keys[0]);
      if next.aborted {
        AbortSticks(s, contradictory, next, keys[1..]);
      } else {
        SettleKeepsBalance(s, contradictory, l, keys[0], start, settled);
        SettleAll(s, contradictory, next, keys[1..], start, settled + 1);
      }
    }
  }

  /** After the integrity error nothing more happens. */
  lemma {:induction false} AbortSticks(s: Setting, contradictory: set<Key>, l: Ledger, keys: seq<Key>)
    requires l.aborted
    ensures Fold((l: Ledger, key) => Settle(contradictory, s.cfg, s.dossiers, l, key), l, keys) == l
    decreases |keys|
  {
    if keys != [] {
      AbortSticks(s, contradictory, l, keys[1..]);
    }
  }

  // ----- The cycle gate over a run ---------------------------------------------------------------

  /** Every guard on the way to the write lets the key through. */
  ghost predicate PassesGuards(
      contradictory: set<Key>, cfg: Config, dossiers: map<Key, Dossier>, l: Ledger, key: Key) {
    && !l.aborted && key in dossiers
    && LateRejection(l, key, contradictory, cfg).None?
    && !VerifiedSame(l.rows, key) && !VerifiedOther(l.rows, key)
    && ScoreEdge(EvidenceFor(l.rows, key, dossiers[key]), cfg.decay, cfg.weights).score >= cfg.weights.reviewFloor
  }

  /** The guards let the key through, and its target reaches its source by more edges than the query follows. */
  ghost predicate BlindWrite(
      contradictory: set<Key>, cfg: Config, dossiers: map<Key, Dossier>, l: Ledger, key: Key, r: Relation) {
    && key.relation == r && key.source != key.target
    && PassesGuards(contradictory, cfg, dossiers, l, key)
    && BeyondCap(EdgesOf(l.rows, r), key.source, key.target, MAX_PATH_LEN)
  }

  lemma WriteRows(l: Ledger, key: Key, d: Dossier, score: EdgeScore)
    ensures var m := Write(l, key, d, score);
            if m.written == l.written then m.rows == l.rows
            else m.rows.Keys == l.rows.Keys + {key} && key.source != key.target
    ensures l.written <= Write(l, key, d, score).written <= l.written + 1
    ensures Write(l, key, d, score).written == l.written + 1 <==> key.source != key.target && !VerifiedSame(l.rows, key)
  {
    hide Merged;
  }

  /** A turn leaves the rows alone, or writes a key that passed every gate. */
  lemma SettleRows(contradictory: set<Key>, cfg: Config, dossiers: map<Key, Dossier>, l: Ledger, key: Key)
    ensures var m := Settle(contradictory, cfg, dossiers, l, key);
            if m.written == l.written then m.rows == l.rows
            else
              && m.rows.Keys == l.rows.Keys + {key}
              && key.source != key.target && !ClosesCycle(l.rows, key)
    ensures l.written <= Settle(contradictory, cfg, dossiers, l, key).written <= l.written + 1
    ensures Settle(contradictory, cfg, dossiers, l, key).written == l.written + 1
       <==> PassesGuards(contradictory, cfg, dossiers, l, key) && key.source != key.target
  {
    hide ClosesCycle, VerifiedOther, EvidenceFor, ScoreEdge, Write;
    if key in dossiers {
      WriteRows(l, key, dossiers[key], ScoreEdge(EvidenceFor(l.rows, key, dossiers[key]), cfg.decay, cfg.weights));
    }
  }

  lemma EdgesOfInsert(rows: Rows, more: Rows, key: Key, r: Relation)
    requires more.Keys == rows.Keys + {key}
    ensures EdgesOf(more, r) == EdgesOf(rows, r) + if key.relation == r then {(key.source, key.target)} else {}
  {
    forall k | k in rows && k.relation == r ensures (k.source, k.target) in EdgesOf(more, r) {
      assert k in more;
    }
    forall e | e in EdgesOf(more, r)
      ensures e in EdgesOf(rows, r) || (key.relation == r && e == (key.source, key.target))
    {
      var k :| k in more && k.relation == r && (k.source, k.target) == e;
    }
    if key.relation == r {
      assert key in more;
    }
  }

  /** One turn keeps a relation acyclic exactly when it is not a blind write. */
  lemma SettleAcyclicIff(
      contradictory: set<Key>, cfg: Config, dossiers: map<Key, Dossier>, l: Ledger, key: Key, r: Relation)
    requires InClosure(r) && Acyclic(EdgesOf(l.rows, r))
    ensures var m := Settle(contradictory, cfg, dossiers, l, key);
            Acyclic(EdgesOf(m.rows, r)) <==> !BlindWrite(contradictory, cfg, dossiers, l, key, r)
  {
    SettleRows(contradictory, cfg, dossiers, l, key);
    hide Settle, EdgesOf, Acyclic;
    var m := Settle(contradictory, cfg, dossiers, l, key);
    if m.written != l.written {
      EdgesOfInsert(l.rows, m.rows, key, r);
      var edges := EdgesOf(l.rows, r);
      if key.relation == r {
        CheckedInsertIff(edges, key.source, key.target, MAX_PATH_LEN);
      } else {
        assert edges + {} == edges;
      }
    }
  }

  /** Somewhere in the second loop an edge of the relation is written blind. */
  ghost predicate AnyBlindWrite(
      contradictory: set<Key>, cfg: Config, dossiers: map<Key, Dossier>, l: Ledger, keys: seq<Key>, r: Relation)
    decreases |keys|
  {
    keys != [] &&
    (BlindWrite(contradictory, cfg, dossiers, l, keys[0], r)
     || AnyBlindWrite(contradictory, cfg, dossiers, Settle(contradictory, cfg, dossiers, l, keys[0]), keys[1..], r))
  }

  lemma {:induction false} EdgesOnlyGrow(
      contradictory: set<Key>, cfg: Config, dossiers: map<Key, Dossier>, l: Ledger, keys: seq<Key>, r: Relation)
    ensures EdgesOf(l.rows, r)
         <= EdgesOf(Fold((l: Ledger, key) => Settle(contradictory, cfg, dossiers, l, key), l, keys).rows, r)
    decreases |keys|
  {
    hide Settle, EdgesOf;
    if keys != [] {
      var next := Settle(contradictory, cfg, dossiers, l, keys[0]);
      SettleRows(contradictory, cfg, dossiers, l, keys[0]);
      if next.written != l.written {
        EdgesOfInsert(l.rows, next.rows, keys[0], r);
      }
      EdgesOnlyGrow(contradictory, cfg, dossiers, next, keys[1..], r);
    }
  }

  /** Over a whole second loop: an acyclic relation stays acyclic exactly when no write was blind. */
  lemma {:induction false} LoopAcyclicIff(
      contradictory: set<Key>, cfg: Config, dossiers: map<Key, Dossier>, l: Ledger, keys: seq<Key>, r: Relation)
    requires InClosure(r) && Acyclic(EdgesOf(l.rows, r))
    ensures Acyclic(EdgesOf(Fold((l: Ledger, key) => Settle(contradictory, cfg, dossiers, l, key), l, keys).rows, r))
       <==> !AnyBlindWrite(contradictory, cfg, dossiers, l, keys, r)
    decreases |keys|
  {
    hide Settle, EdgesOf, Acyclic, BlindWrite;
    if keys != [] {
      var next := Settle(contradictory, cfg, dossiers, l, keys[0]);
      SettleAcyclicIff(contradictory, cfg, dossiers, l, keys[0], r);
      if BlindWrite(contradictory, cfg, dossiers, l, keys[0], r) {
        EdgesOnlyGrow(contradictory, cfg, dossiers, next, keys[1..], r);
        var last := Fold((l: Ledger, key) => Settle(contradictory, cfg, dossiers, l, key), next, keys[1..]);
        if Acyclic(EdgesOf(last.rows, r)) {
          AcyclicSubset(EdgesOf(next.rows, r), EdgesOf(last.rows, r));
        }
      } else {
        LoopAcyclicIff(contradictory, cfg, dossiers, next, keys[1..], r);
      }
    }
  }

  ghost predicate KeysOver(keys: set<Key>, nodes: set<Node>) {
    forall k :: k in keys ==> k.source in nodes && k.target in nodes
  }

  /** With at most cap + 1 concepts in play no write is blind. */
  lemma {:induction false} FewConceptsNoBlindWrite(
      contradictory: set<Key>, cfg: Config, dossiers: map<Key, Dossier>, l: Ledger, keys: seq<Key>, r: Relation, nodes: set<Node>)
    requires |nodes| <= MAX_PATH_LEN + 1 && KeysOver(l.rows.Keys, nodes)
    requires forall k :: k in keys ==> k.source in nodes && k.target in nodes
    ensures !AnyBlindWrite(contradictory, cfg, dossiers, l, keys, r)
    ensures KeysOver(Fold((l: Ledger, key) => Settle(contradictory, cfg, dossiers, l, key), l, keys).rows.Keys, nodes)
    decreases |keys|
  {
    hide Settle, EdgesOf, BeyondCap;
    if keys != [] {
      var next := Settle(contradictory, cfg, dossiers, l, keys[0]);
      SettleRows(contradictory, cfg, dossiers, l, keys[0]);
      assert keys[0] in keys;
      if next.written != l.written {
        EdgesStayOver(l.rows, nodes, r);
        SmallGraphsAreSeenWhole(EdgesOf(l.rows, r), nodes, keys[0].source, keys[0].target, MAX_PATH_LEN);
      }
      FewConceptsNoBlindWrite(contradictory, cfg, dossiers, next, keys[1..], r, nodes);
    }
  }

  lemma EdgesStayOver(rows: Rows, nodes: set<Node>, r: Relation)
    requires KeysOver(rows.Keys, nodes)
    ensures Over(EdgesOf(rows, r), nodes)
  {
  }
}
