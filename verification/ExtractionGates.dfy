/**
  Phase one of an extraction run: every model-proposed relation passes a chain of gates, and the
  survivors are folded into one dossier of evidence per (source, target, relation).
 */
module ExtractionGates {
  import opened Base
  import Walks
  import opened CycleFilter
  import opened Confidence

  datatype Gate =
    | Schema | EmptyName | UnresolvedEntity | RelationEnum | SelfRelation | InferredRequires
    | MissingProvenance | QuoteBoilerplate | VerbatimProvenance | ConfidenceFloor | Cycle
    | CrossCourse | VerifiedConflict | DocumentScope | AliasCollision | DuplicateEdge
    | ContradictoryCycle | ChunkEdgeCap | DocumentEdgeCap

  /** The string helpers, uninterpreted: trimming, case folding, slugs, boilerplate, quote normalisation. */
  datatype TextOps = TextOps(
    strip: string -> string, fold: string -> string, slug: string -> string,
    boilerplate: string -> bool, normalise: string -> string)

  datatype Config = Config(
    chunkCap: nat, documentCap: int, allowCrossCourse: bool, weights: Weights, decay: real, text: TextOps)

  const MIN_QUOTE_CHARS := 10

  datatype Concept = Concept(id: Walks.Node, course: Option<nat>)

  /** One proposed relation, with what its two names resolve to. */
  datatype Assertion = Assertion(
    relation: Option<string>, sourceName: string, targetName: string, cue: Cue, confidence: real,
    chunkId: Option<nat>, quote: Option<string>, source: Option<Concept>, target: Option<Concept>)

  /** What the concept loop can count. */
  datatype ConceptGate = NoName | NoEntity | Collision

  datatype Reply = CallFailed | Unparsed | Parsed(conceptGates: seq<ConceptGate>, relations: seq<Assertion>)

  datatype Chunk = Chunk(id: nat, tenant: nat, document: nat, page: Option<int>, text: string, reply: Reply)

  datatype Document = Document(id: nat, tenant: nat)

  // ----- Gates -------------------------------------------------------------------------------

  function RelationNamed(name: string): Option<Relation> {
    match name
    case "requires" => Some(Requires)
    case "contains" => Some(Contains)
    case "related_to" => Some(RelatedTo)
    case "part_of" => Some(PartOf)
    case "assesses" => Some(Assesses)
    case "taught_by" => Some(TaughtBy)
    case _ => None
  }

  function RelationOf(raw: Option<string>): Option<Relation> {
    if raw.None? then None else RelationNamed(raw.value)
  }

  predicate OccursAt(needle: string, text: string, i: int) {
    0 <= i <= |text| - |needle| && text[i..i + |needle|] == needle
  }

  predicate Occurs(needle: string, text: string) {
    exists i | 0 <= i <= |text| :: OccursAt(needle, text, i)
  }

  function GateQuote(quote: Option<string>, text: string, ops: TextOps): Option<Gate> {
    if quote.None? || ops.strip(quote.value) == "" then Some(MissingProvenance)
    else
      var stripped := ops.strip(quote.value);
      if |stripped| < MIN_QUOTE_CHARS || ops.boilerplate(stripped) then Some(QuoteBoilerplate)
      else if !Occurs(ops.normalise(stripped), ops.normalise(text)) then Some(VerbatimProvenance)
      else None
  }

  predicate SameName(a: string, b: string, ops: TextOps) {
    ops.fold(ops.strip(a)) == ops.fold(ops.strip(b)) || ops.slug(a) == ops.slug(b)
  }

  /** The chain of gates before the endpoints are resolved; the first that fires wins. */
  function FirstGate(a: Assertion, text: string, ops: TextOps): Option<Gate> {
    if RelationOf(a.relation).None? then Some(RelationEnum)
    else if SameName(a.sourceName, a.targetName, ops) then Some(SelfRelation)
    else if RelationOf(a.relation) == Some(Requires) && a.cue == Inferred then Some(InferredRequires)
    else if a.chunkId.None? then Some(MissingProvenance)
    else GateQuote(a.quote, text, ops)
  }

  predicate CrossesCourses(source: Concept, target: Concept, allow: bool) {
    !allow && source.course.Some? && target.course.Some? && source.course != target.course
  }

  /** Every gate of phase one in order. */
  function Rejection(a: Assertion, text: string, cfg: Config): Option<Gate> {
    var gate := FirstGate(a, text, cfg.text);
    if gate.Some? then gate
    else if a.source.None? || a.target.None? then Some(UnresolvedEntity)
    else if CrossesCourses(a.source.value, a.target.value, cfg.allowCrossCourse) then Some(CrossCourse)
    else None
  }

  /** What a proposal must bring to count as evidence, and nothing less or more. */
  lemma AcceptedIff(a: Assertion, text: string, cfg: Config)
    ensures Rejection(a, text, cfg).None? <==>
      && RelationOf(a.relation).Some? && !SameName(a.sourceName, a.targetName, cfg.text)
      && (RelationOf(a.relation) == Some(Requires) ==> a.cue == Explicit)
      && a.chunkId.Some? && a.quote.Some? && |cfg.text.strip(a.quote.value)| >= MIN_QUOTE_CHARS
      && !cfg.text.boilerplate(cfg.text.strip(a.quote.value))
      && Occurs(cfg.text.normalise(cfg.text.strip(a.quote.value)), cfg.text.normalise(text))
      && a.source.Some? && a.target.Some?
      && !CrossesCourses(a.source.value, a.target.value, cfg.allowCrossCourse)
  {
    hide Occurs;
  }

  function KeyOf(a: Assertion): Key
    requires RelationOf(a.relation).Some? && a.source.Some? && a.target.Some?
  {
    Key(a.source.value.id, a.target.value.id, RelationOf(a.relation).value)
  }

  // ----- Evidence ----------------------------------------------------------------------------

  datatype Source = Source(document: nat, chunk: nat, page: Option<int>, quote: Option<string>)

  /** The accumulated evidence of one key. */
  datatype Dossier = Dossier(
    maxConfidence: real, explicitCue: bool, documents: set<nat>, chunks: set<nat>,
    sources: seq<Source>, first: Option<Source>)

  const EMPTY_DOSSIER := Dossier(0.0, false, {}, {}, [], None)

  function SourceOf(a: Assertion, chunk: Chunk): Source {
    Source(chunk.document, chunk.id, chunk.page, a.quote)
  }

  function Absorbed(d: Dossier, a: Assertion, chunk: Chunk): Dossier {
    var source := SourceOf(a, chunk);
    Dossier(
      if a.confidence > d.maxConfidence then a.confidence else d.maxConfidence,
      d.explicitCue || a.cue == Explicit,
      d.documents + {chunk.document},
      d.chunks + {chunk.id},
      if source in d.sources then d.sources else d.sources + [source],
      if d.first.None? then Some(source) else d.first)
  }

  class EdgeEvidence {
    var maxLlmConfidence: real
    var hasExplicitCue: bool
    var documents: set<nat>
    var chunks: set<nat>
    var provenanceSources: seq<Source>
    var firstSource: Option<Source>

    function View(): Dossier
      reads this
    {
      Dossier(maxLlmConfidence, hasExplicitCue, documents, chunks, provenanceSources, firstSource)
    }

    constructor ()
      ensures View() == EMPTY_DOSSIER
    {
      maxLlmConfidence, hasExplicitCue := 0.0, false;
      documents, chunks, provenanceSources, firstSource := {}, {}, [], None;
    }

    /** Merges one assertion into the evidence. */
    method Absorb(a: Assertion, chunk: Chunk)
      modifies this
      ensures View() == Absorbed(old(View()), a, chunk)
    {
      if a.confidence > maxLlmConfidence {
        maxLlmConfidence := a.confidence;
      }
      if a.cue == Explicit {
        hasExplicitCue := true;
      }
      if chunk.document !in documents {
        documents := documents + {chunk.document};
      }
      chunks := chunks + {chunk.id};
      var source := SourceOf(a, chunk);
      if source !in provenanceSources {
        provenanceSources := provenanceSources + [source];
      }
      if firstSource.None? {
        firstSource := Some(source);
      }
    }
  }

  // ----- Counting ----------------------------------------------------------------------------

  /** The per-gate counters of a run, as the multiset of everything counted. */
  type Counts = multiset<Gate>

  function Count(c: Counts, g: Gate): Counts {
    c + multiset{g}
  }

  // ----- Phase one ---------------------------------------------------------------------------

  /** The run's accumulators; `order` is the insertion order of the dossier map. */
  datatype Tally = Tally(counts: Counts, rejected: nat, failures: nat, order: seq<Key>, dossiers: map<Key, Dossier>)

  const EMPTY_TALLY := Tally(multiset{}, 0, 0, [], map[])

  function Record(t: Tally, key: Key, a: Assertion, chunk: Chunk): Tally {
    if key in t.dossiers then
      t.(counts := Count(t.counts, DuplicateEdge), dossiers := t.dossiers[key := Absorbed(t.dossiers[key], a, chunk)])
    else
      t.(order := t.order + [key], dossiers := t.dossiers[key := Absorbed(EMPTY_DOSSIER, a, chunk)])
  }

  function ExamineRelation(chunk: Chunk, cfg: Config, t: Tally, a: Assertion): Tally {
    var gate := Rejection(a, chunk.text, cfg);
    if gate.Some? then t.(counts := Count(t.counts, gate.value), rejected := t.rejected + 1)
    else Record(t, KeyOf(a), a, chunk)
  }

  function GateOf(g: ConceptGate): Gate {
    match g case NoName => EmptyName case NoEntity => UnresolvedEntity case Collision => AliasCollision
  }

  function CountConcept(t: Tally, g: ConceptGate): Tally {
    t.(counts := Count(t.counts, GateOf(g)))
  }

  function CountExcess(t: Tally, a: Assertion): Tally {
    t.(counts := Count(t.counts, ChunkEdgeCap))
  }

  /** The relations of one reply that are examined, and those beyond the per-chunk cap. */
  function Within(cap: nat, relations: seq<Assertion>): seq<Assertion> {
    if |relations| <= cap then relations else relations[..cap]
  }

  function Beyond(cap: nat, relations: seq<Assertion>): seq<Assertion> {
    if |relations| <= cap then [] else relations[cap..]
  }

  predicate InScope(chunk: Chunk, doc: Document) {
    chunk.tenant == doc.tenant && chunk.document == doc.id
  }

  function ExamineChunk(doc: Document, cfg: Config, t: Tally, chunk: Chunk): Tally {
    if !InScope(chunk, doc) then
      t.(counts := Count(t.counts, DocumentScope), failures := t.failures + 1)
    else if !chunk.reply.Parsed? then
      t.(counts := Count(t.counts, Schema), failures := t.failures + 1)
    else
      var t1 := Fold(CountConcept, t, chunk.reply.conceptGates);
      var t2 := Fold(CountExcess, t1, Beyond(cfg.chunkCap, chunk.reply.relations));
      Fold((t: Tally, a) => ExamineRelation(chunk, cfg, t, a), t2, Within(cfg.chunkCap, chunk.reply.relations))
  }

  function PhaseOne(doc: Document, cfg: Config, chunks: seq<Chunk>): Tally {
    Fold((t: Tally, c) => ExamineChunk(doc, cfg, t, c), EMPTY_TALLY, chunks)
  }

  // ----- What phase one keeps ----------------------------------------------------------------

  /** How much of the input has been looked at. */
  datatype Seen = Seen(examined: nat, excess: nat, concepts: nat)

  function SeenIn(doc: Document, cfg: Config, chunks: seq<Chunk>): Seen {
    if chunks == [] then Seen(0, 0, 0)
    else
      var rest := SeenIn(doc, cfg, chunks[..|chunks| - 1]);
      var c := chunks[|chunks| - 1];
      if InScope(c, doc) && c.reply.Parsed? then
        Seen(rest.examined + |Within(cfg.chunkCap, c.reply.relations)|,
             rest.excess + |Beyond(cfg.chunkCap, c.reply.relations)|,
             rest.concepts + |c.reply.conceptGates|)
      else rest
  }

  /** Every relation examined was rejected, collapsed as a duplicate, or opened a dossier. */
  ghost predicate Balanced(t: Tally, seen: Seen) {
    && seen.examined == t.rejected + t.counts[DuplicateEdge] + |t.order|
    && |t.counts| == t.rejected + t.counts[DuplicateEdge] + seen.excess + seen.concepts + t.failures
    && t.counts[VerifiedConflict] == 0
  }

  ghost predicate OrderMatches(t: Tally) {
    && (forall k :: k in t.order <==> k in t.dossiers)
    && Distinct(t.order)
  }

  /** A stored source quotes a chunk of the run verbatim, up to normalisation. */
  ghost predicate Verbatim(s: Source, doc: Document, chunks: set<Chunk>, ops: TextOps) {
    exists c :: c in chunks && InScope(c, doc) && s.chunk == c.id && s.document == c.document && s.page == c.page
      && s.quote.Some? && Occurs(ops.normalise(ops.strip(s.quote.value)), ops.normalise(c.text))
  }

  ghost predicate SoundDossier(key: Key, d: Dossier, doc: Document, chunks: set<Chunk>, ops: TextOps) {
    && d.documents == {doc.id}
    && (key.relation == Requires ==> d.explicitCue)
    && d.sources != [] && d.first == Some(d.sources[0])
    && (forall s :: s in d.sources ==> Verbatim(s, doc, chunks, ops))
  }

  ghost predicate SoundTally(t: Tally, doc: Document, chunks: set<Chunk>, ops: TextOps) {
    OrderMatches(t) && forall k :: k in t.dossiers ==> SoundDossier(k, t.dossiers[k], doc, chunks, ops)
  }

  lemma AcceptedFacts(a: Assertion, chunk: Chunk, cfg: Config, doc: Document, chunks: set<Chunk>)
    requires Rejection(a, chunk.text, cfg).None? && InScope(chunk, doc) && chunk in chunks
    ensures KeyOf(a).relation == Requires ==> a.cue == Explicit
    ensures Verbatim(SourceOf(a, chunk), doc, chunks, cfg.text)
  {
  }

  lemma AbsorbKeepsSound(
      key: Key, d: Dossier, a: Assertion, chunk: Chunk, cfg: Config, doc: Document, chunks: set<Chunk>)
    requires Rejection(a, chunk.text, cfg).None? && key == KeyOf(a) && InScope(chunk, doc) && chunk in chunks
    requires d == EMPTY_DOSSIER || SoundDossier(key, d, doc, chunks, cfg.text)
    ensures SoundDossier(key, Absorbed(d, a, chunk), doc, chunks, cfg.text)
  {
    AcceptedFacts(a, chunk, cfg, doc, chunks);
    hide Rejection, Verbatim;
  }

  lemma RecordKeepsSound(t: Tally, a: Assertion, chunk: Chunk, cfg: Config, doc: Document, chunks: set<Chunk>)
    requires SoundTally(t, doc, chunks, cfg.text)
    requires Rejection(a, chunk.text, cfg).None? && InScope(chunk, doc) && chunk in chunks
    ensures SoundTally(Record(t, KeyOf(a), a, chunk), doc, chunks, cfg.text)
  {
    var key := KeyOf(a);
    AbsorbKeepsSound(key, if key in t.dossiers then t.dossiers[key] else EMPTY_DOSSIER, a, chunk, cfg, doc, chunks);
    hide Rejection, KeyOf, SoundDossier, Absorbed;
  }

  lemma {:induction false} ConceptsCounted(t: Tally, gates: seq<ConceptGate>)
    ensures var u := Fold(CountConcept, t, gates);
            && u == t.(counts := u.counts)
            && |u.counts| == |t.counts| + |gates|
            && u.counts[DuplicateEdge] == t.counts[DuplicateEdge]
            && u.counts[VerifiedConflict] == t.counts[VerifiedConflict]
    decreases |gates|
  {
    if gates != [] {
      ConceptsCounted(CountConcept(t, gates[0]), gates[1..]);
    }
  }

  lemma {:induction false} ExcessCounted(t: Tally, excess: seq<Assertion>)
    ensures var u := Fold(CountExcess, t, excess);
            && u == t.(counts := u.counts)
            && |u.counts| == |t.counts| + |excess|
            && u.counts[DuplicateEdge] == t.counts[DuplicateEdge]
            && u.counts[VerifiedConflict] == t.counts[VerifiedConflict]
    decreases |excess|
  {
    if excess != [] {
      ExcessCounted(CountExcess(t, excess[0]), excess[1..]);
    }
  }

  lemma GateIsNotAConflict(a: Assertion, text: string, cfg: Config)
    ensures Rejection(a, text, cfg).Some? ==> Rejection(a, text, cfg).value !in {DuplicateEdge, VerifiedConflict}
  {
  }

  lemma {:induction false} RelationsExamined(
      chunk: Chunk, cfg: Config, doc: Document, chunks: set<Chunk>, t: Tally, relations: seq<Assertion>, seen: Seen)
    requires Balanced(t, seen) && SoundTally(t, doc, chunks, cfg.text)
    requires InScope(chunk, doc) && chunk in chunks
    ensures var u := Fold((t: Tally, a) => ExamineRelation(chunk, cfg, t, a), t, relations);
            && Balanced(u, seen.(examined := seen.examined + |relations|))
            && SoundTally(u, doc, chunks, cfg.text)
            && u.failures == t.failures
    decreases |relations|
  {
    if relations != [] {
      RelationExamined(chunk, cfg, doc, chunks, t, relations[0], seen);
      hide ExamineRelation, Balanced, SoundTally;
      RelationsExamined(chunk, cfg, doc, chunks, ExamineRelation(chunk, cfg, t, relations[0]), relations[1..],
        seen.(examined := seen.examined + 1));
    }
  }

  lemma RelationExamined(
      chunk: Chunk, cfg: Config, doc: Document, chunks: set<Chunk>, t: Tally, a: Assertion, seen: Seen)
    requires Balanced(t, seen) && SoundTally(t, doc, chunks, cfg.text)
    requires InScope(chunk, doc) && chunk in chunks
    ensures var u := ExamineRelation(chunk, cfg, t, a);
            && Balanced(u, seen.(examined := seen.examined + 1))
            && SoundTally(u, doc, chunks, cfg.text)
            && u.failures == t.failures
  {
    var gate := Rejection(a, chunk.text, cfg);
    GateIsNotAConflict(a, chunk.text, cfg);
    if gate.Some? {
    } else {
      RecordKeepsSound(t, a, chunk, cfg, doc, chunks);
    }
    hide Rejection, SoundDossier, Absorbed, KeyOf;
  }

  lemma ChunkExamined(doc: Document, cfg: Config, chunks: set<Chunk>, t: Tally, chunk: Chunk, seen: Seen)
    requires Balanced(t, seen) && SoundTally(t, doc, chunks, cfg.text) && chunk in chunks
    ensures var u := ExamineChunk(doc, cfg, t, chunk);
            && SoundTally(u, doc, chunks, cfg.text)
            && Balanced(u,
                 if InScope(chunk, doc) && chunk.reply.Parsed? then
                   Seen(seen.examined + |Within(cfg.chunkCap, chunk.reply.relations)|,
                        seen.excess + |Beyond(cfg.chunkCap, chunk.reply.relations)|,
                        seen.concepts + |chunk.reply.conceptGates|)
                 else seen)
  {
    if !InScope(chunk, doc) {
    } else if !chunk.reply.Parsed? {
    } else {
      hide Count, SoundDossier;
      var gates, relations := chunk.reply.conceptGates, chunk.reply.relations;
      ConceptsCounted(t, gates);
      var t1 := Fold(CountConcept, t, gates);
      ExcessCounted(t1, Beyond(cfg.chunkCap, relations));
      var t2 := Fold(CountExcess, t1, Beyond(cfg.chunkCap, relations));
      var now := Seen(seen.examined, seen.excess + |Beyond(cfg.chunkCap, relations)|, seen.concepts + |gates|);
      RelationsExamined(chunk, cfg, doc, chunks, t2, Within(cfg.chunkCap, relations), now);
    }
  }

  /** Phase one, over any chunks and replies: the books balance and every dossier is sound. */
  lemma {:induction false} PhaseOneSound(doc: Document, cfg: Config, chunks: seq<Chunk>, all: set<Chunk>)
    requires forall c :: c in chunks ==> c in all
    ensures Balanced(PhaseOne(doc, cfg, chunks), SeenIn(doc, cfg, chunks))
    ensures SoundTally(PhaseOne(doc, cfg, chunks), doc, all, cfg.text)
    decreases |chunks|
  {
    if chunks == [] {
      hide SoundDossier;
    } else {
      var n := |chunks| - 1;
      hide ExamineChunk, SoundTally, Balanced;
      PhaseOneSound(doc, cfg, chunks[..n], all);
      assert chunks[n] in chunks;
      var step := (t: Tally, c) => ExamineChunk(doc, cfg, t, c);
      FoldNext(step, EMPTY_TALLY, chunks, n);
      assert chunks[..n + 1] == chunks;
      var t := PhaseOne(doc, cfg, chunks[..n]);
      ChunkExamined(doc, cfg, all, t, chunks[n], SeenIn(doc, cfg, chunks[..n]));
    }
  }
}
