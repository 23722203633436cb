# CourseLLM, modelled

CourseLLM answers and tests students over course material. This project models the six parts of it
with the most state and arithmetic, and proves what they promise.

**Knowledge-graph extraction** (`Walks`, `CycleFilter`, `CycleCheck`, `Confidence`,
`ExtractionGates`, `ExtractionEvidence`, `ExtractionWrite`, `ExtractionRun`, `ExtractionTheorems`,
`ExtractionLimits`, `ExtractionRerun`, `ExtractionCounts`, `ExtractionFates`). A run gates every relation a language model proposes, folds the
survivors into evidence per (source, target, relation), filters contradictory `requires` batches, checks each edge against the stored graph,
scores it and writes it. The two loops are methods of a class over mutable evidence objects and a
mutable edge table; they refine two pure phases, and the theorems are about any number of runs.

**Event-stream reader and session** (`SseFraming`, `SseEvents`, `SseTolerance`,
`SseReadings`, `SseData`, `Session`). The reader's buffer is normalised and drained on every chunk; the
theorems say when chunking does not matter. The session is a state machine over the segments between
awaits of any number of concurrent calls. Its invariants and its bounds on refreshes hold for every
interleaving; `BackToBackShareOneRefresh` alone follows one given schedule.

**Agent graph** (`AgentGraph`). The edge tables, the conditional routes, the limits, and every run
of them with nodes that do anything their contracts allow.

**Ranking metrics and percentiles** (`RankingMetrics`, `Percentiles`). nDCG for any positive
strictly decreasing discount, context precision, MRR, recall, precision, nearest-rank percentiles.

**Assessment** (`QuizItems`, `QuizProposals`, `Grading`, `MultipleChoice`, `AttemptStore`, `AttemptRecords`). Grounded quiz generation, rubric grading,
and the attempt rows with their append-only event log.

**Regression gate** (`RegressionGate`). The classification of every baseline metric and the verdict.

`Base` and `RealMath` hold list functions and real arithmetic that several parts share.

## How the source is read

Real numbers stand for floats; `round(x, 6)` is written out with halves to even. `1 - exp(-n/2)` is
`1 - q^n` for any q strictly between 0 and 1. What the language model, the network or the database
answers is an arbitrary value of the right type, or a failure. The string helpers (trimming, case
folding, slugs, boilerplate) are arbitrary functions. Identifiers are numbers that were never issued
before. Where the nodes of the agent graph matter, two contracts are used: a weak one for the general
bound, and what the node modules do to the counters for the exact one.

## What the code does that its description does not say

- The cycle check of the stored graph stops at 20 edges. Any runs over n concepts keep a closure
  relation acyclic exactly when n is at most 21 (`RunsStayAcyclicIff`); turn by turn, exactly when no
  edge passes the guards whose reverse path is longer than 20 (`RunsAcyclicIff`).
- The check looks at one relation at a time: together the closure relations are safe on one concept
  only (`RunsStayAcyclicTogetherIff`).
- The batch filter's docstring says that every removed edge is part of a cycle. An edge is removed
  exactly when its target leads to a cycle (`RemovedIff`), so that holds exactly when each such edge
  can be followed back to its source (`OnlyCyclesRemovedIff`); `FilterAlsoTakesEdgesIntoACycle` is a
  batch where it cannot.
- The corroboration term is said to keep one document from manufacturing agreement. An identical
  second run finds its own edge as the path that agrees and gains 0.70 of the agreement weight, and
  the row then counts two corroborations and each source twice (`SecondRun`, `SecondPlainRun`); n runs
  leave n of each (`ManyRuns`).
- Two different names that resolve to one concept pass every gate, and the write then raises
  (`SelfLoopRaises`). A run raises exactly when such a key survives the batch filter, reaches the
  review floor on its own evidence and is met below the document cap (`RunRaisesIff`).
- The constructor of the confidence weights checks their sum but not their signs. The confidence rises
  with every signal exactly when no signal weighs negatively or the clip hides every sum
  (`EdgeMonotoneIff`); `NegativeWeightBreaksMonotonicity` is an accepted set of weights where it falls.
- The stream reader's framing depends on the chunking exactly for texts with a CR CR LF
  (`ChunkingIrrelevantIff`). The events tolerate more: they do not depend on it while no CR CR LF
  follows a CR or an LF (`EventsTolerateCrCrLf`). Beyond that they do, for a line of three or more
  carriage returns after data always (`FinalCrsToleratedIff`), and for a line of two between two blocks
  exactly when splitting the block matters (`CrCrLfChangesEventsIff`). For every text the data of the
  events are decided by the two extreme readings, and so are whole events without names
  (`DataIgnoreChunkingIff`, `UnnamedEventsIgnoreChunkingIff`).
  It follows sections 9.2.5 and 9.2.6 of the WHATWG HTML Living Standard only in part: a lone CR is
  not a line end, the unterminated tail is emitted, and only `event` and `data` are read.
- Concurrent 401s are said to share one round trip, so that five queries cannot cause five refreshes.
  They share it while its flight is in the air (`ConcurrentUnauthorizedShareOneRefresh`). The access
  token that a 401 answers is not compared with the one held, so a 401 that arrives after the flight was
  cleared starts another: n queries can present n tokens, and no more (`PageRefreshesIff`).
- A refresh that is outstanding when the tokens are dropped brings tokens back when it succeeds
  (`SignOutLastsIff`), and one that is outstanding at a sign-in can drop or overwrite the new tokens
  (`SignInLastsIff`).
- A breached limit is said to cost nothing further, but the routes never test tokens or cost: a turn can
  enter retrieval or tools with its budget used up exactly when it may take two steps
  (`OverspentTurnIff`). At most that one visit follows, and no more is spent (`SpendingStops`).
- The derived recursion limit 2S + 8 is enough for the default settings but not for all valid ones
  (`RecursionLimitIff`).
- The retrieval limit is not among the exit reasons: a turn can end ungrounded on it with no reason
  recorded, exactly when the passes are the limit that is reached first
  (`RetrievalLimitGoesUnreportedIff`).
- nDCG is at most 1 under every discount exactly when the window holds no more relevant positions than
  there are relevant ids (`NdcgAtMostOneIff`); a ranking without duplicates never holds more, and one
  relevant id listed twice exceeds 1 (`DuplicatesExceedOne`).
- The exact text of the correct option of a multiple-choice item is graded as wrong when it reads as
  the index or letter of another option (`ExactTextScoresIff`, `NumericTextIsMisread`).
- A typo is said to be a wrong answer rather than a failed request, but an answer of digits from which
  no integer is read, such as a superscript two, makes the request fail (`RequestFailsIff`).
- A recorded grade is recognised by its rubric, so the rule that it is never edited holds exactly for
  items with criteria (`GradeIsSafeIff`); every generated item has some.
- Re-evaluation takes an item id of its own, so an event can name another item than its row,
  in exactly the runs with such a graded re-evaluation (`EventsNameRowsItemsIff`,
  `MisdirectedRunIsNotAligned`).

## Model

| member | source | states |
|---|---|---|
| CycleFilter.ContradictoryRequiresEdges | apps/api/src/coursellm/graph/extraction.py:365-393 | terminates for every batch and returns exactly the `requires` keys with both endpoints stranded, whatever the order of the keys and of the deletions |
| CycleFilter.PendingSuccessors | apps/api/src/coursellm/graph/extraction.py:375-382 | the first loops build, for each node of a `requires` key, exactly its successors other than itself |
| CycleFilter.StrandedIsGreatestStuck | apps/api/src/coursellm/graph/extraction.py:383-392 | the stranded nodes all have a non-self successor among themselves, and every set with that property lies inside them |
| CycleFilter.StrandedIffLeadsToCycle | apps/api/src/coursellm/graph/extraction.py:383-392 | a node is stranded exactly when it lies on a cycle or leads into one |
| CycleFilter.LeftoverHasRank | apps/api/src/coursellm/graph/extraction.py:365-393 | the `requires` keys left over, self-loops aside, admit a topological rank |
| CycleFilter.LeftoverIsAcyclic | apps/api/src/coursellm/graph/extraction.py:365-393 | no cycle survives the filter, self-loops aside |
| CycleFilter.FilterIdleIffAcyclic | apps/api/src/coursellm/graph/extraction.py:365-393 | nothing is removed exactly when the batch, self-loops aside, has no cycle |
| CycleFilter.RemovedIff | apps/api/src/coursellm/graph/extraction.py:365-393 | a `requires` key is removed exactly when its target lies on a cycle or leads into one |
| CycleFilter.OnlyCyclesRemovedIff | apps/api/src/coursellm/graph/extraction.py:368-374 | what the docstring says, that every removed edge is part of a cycle, holds (self-loops aside) exactly when every proposed edge whose target leads to a cycle also has its source reachable from that target |
| CycleFilter.FilterAlsoTakesEdgesIntoACycle | apps/api/src/coursellm/graph/extraction.py:368-374 | a batch that fails it: an edge that only leads into a cycle is removed too |
| CycleCheck.LevelIsGuardedWalks | apps/api/src/coursellm/graph/repository.py:550-570 | the rows of one recursion depth are exactly the walks of that length whose nodes after the start do not repeat |
| CycleCheck.CheckIsBoundedReachability | apps/api/src/coursellm/graph/repository.py:1003-1023 | between different concepts the query answers whether the source is reachable from the target within the depth cap: the path guard loses nothing |
| CycleCheck.CheckOfSelfLoop | apps/api/src/coursellm/graph/repository.py:1003-1023 | from a concept to itself the query only sees a stored self-loop |
| CycleCheck.CheckedInsertIff | apps/api/src/coursellm/graph/repository.py:1003-1023 | an insert that passed the check keeps the graph acyclic exactly when the reverse reachability did not lie beyond the cap |
| CycleCheck.SmallGraphsAreSeenWhole | apps/api/src/coursellm/graph/repository.py:1003-1023 | over at most cap + 1 concepts nothing lies beyond the cap |
| CycleCheck.LongChainDefeatsCheck | apps/api/src/coursellm/graph/repository.py:1003-1023 | closing a chain one edge longer than the cap passes the check and makes a cycle, for every cap |
| CycleCheck.CheckSufficesIff | apps/api/src/coursellm/graph/repository.py:1003-1023 | the check keeps every graph on n concepts acyclic exactly when n is at most cap + 1 |
| Confidence.CorroborationSaturates | apps/api/src/coursellm/graph/confidence.py:127-135 | each further document raises the corroboration, strictly less than the one before, and never to one |
| Confidence.CorroborationMonotone | apps/api/src/coursellm/graph/confidence.py:127-135 | corroboration stays in [0, 1] and is monotone in the number of documents, non-positive ones included |
| Confidence.RawBounds | apps/api/src/coursellm/graph/confidence.py:170-186 | the weighted sum lies between the base and the largest value the cap allows |
| Confidence.FinalClipIdleIff | apps/api/src/coursellm/graph/confidence.py:170-186 | the final clip changes no score exactly when the capped weights sum to at most one |
| Confidence.FinalClipIdle | apps/api/src/coursellm/graph/confidence.py:170-186 | in particular for weights that sum to at most one |
| Confidence.ConfidenceMonotone | apps/api/src/coursellm/graph/confidence.py:170-186 | no signal lowers the confidence by rising, for non-negative weights |
| Confidence.DispositionMonotone | apps/api/src/coursellm/graph/confidence.py:189-245 | stronger evidence never lowers the score nor worsens the disposition |
| Confidence.DefaultAutoAcceptIff | apps/api/src/coursellm/graph/confidence.py:189-206 | what auto-acceptance takes under the default weights: explicit cue, two documents, and a decay small enough for the capped model confidence and the agreement |
| Confidence.DefaultWeightsAreSound | apps/api/src/coursellm/graph/confidence.py:61-103 | the default weights are accepted, non-negative, and sum to one |
| Confidence.CorroborationDecays | apps/api/src/coursellm/graph/confidence.py:127-135 | each further document closes the same share of what is missing to full corroboration |
| Confidence.ScoreIs | apps/api/src/coursellm/graph/confidence.py:138-245 | the score is the base and four shares, each under its own weight, clipped; what the cue and the agreement are worth; and which scores are discarded, reviewed and accepted |
| Confidence.DefaultScoreIs | apps/api/src/coursellm/graph/confidence.py:61-103 | the same under the default weights, in numbers |
| Confidence.RawMonotoneIff | apps/api/src/coursellm/graph/confidence.py:170-186 | the weighted sum rises with every signal exactly when no signal weighs negatively (a signal capped at zero has no weight) |
| Confidence.EdgeMonotoneIff | apps/api/src/coursellm/graph/confidence.py:79-95 | the clipped confidence rises with every signal exactly when no signal weighs negatively, or every sum lies on one side of [0, 1]: the constructor checks neither |
| ExtractionGates.EdgeEvidence.Absorb | apps/api/src/coursellm/graph/extraction.py:503-522 | one assertion merged in place: greatest confidence, explicit cue if ever seen, each source once, the first source kept |
| ExtractionGates.PhaseOneSound | apps/api/src/coursellm/graph/extraction.py:738-866 | over any chunks and replies: every examined relation was rejected, was a duplicate or opened a dossier; every dossier rests on this one document, has an explicit cue if it is a `requires`, and holds only verbatim quotes |
| ExtractionEvidence.PhaseOneGroups | apps/api/src/coursellm/graph/extraction.py:738-866 | phase one is: keep the accepted proposals, group them by key; every accepted proposal opens a dossier or counts as a duplicate |
| ExtractionEvidence.EvidenceIsExact | apps/api/src/coursellm/graph/extraction.py:503-522 | a dossier exists for exactly the keys of accepted proposals, holds their greatest confidence, an explicit cue exactly when one had it, and each of their sources once, the first first |
| ExtractionEvidence.GatherSummarises | apps/api/src/coursellm/graph/extraction.py:503-522 | the same for any list of proposals: nothing more, nothing twice, nothing lost |
| ExtractionCounts.GateNamed | apps/api/src/coursellm/graph/extraction.py:738-866 | each gate of phase one is named exactly when the proposal fails it and none before it, from the proposal and the text alone |
| ExtractionCounts.EveryCounterIsExact | apps/api/src/coursellm/graph/extraction.py:738-866 | every counter of phase one: the proposals looked at that its gate rejects, the concepts it stands for, the proposals beyond the cap, the chunks out of scope or without a reply; duplicates are the accepted proposals that opened no dossier |
| ExtractionCounts.AcceptedAre | apps/api/src/coursellm/graph/extraction.py:738-866 | the accepted proposals are those of usable chunks, among the first up to the cap, that no gate rejects |
| ExtractionCounts.OrderIsFirstSeen | apps/api/src/coursellm/graph/extraction.py:738-866 | the keys stand in the order in which accepted proposals first name them |
| ExtractionCounts.StatusIs | apps/api/src/coursellm/graph/extraction.py:936-957 | a run fails when it has chunks and none is usable, is partial when some but not all are, and succeeds when all are |
| ExtractionWrite.UpsertKeepsRows | apps/api/src/coursellm/graph/repository.py:1150-1214 | an upsert touches only its own key, never a verified row, and stores only checked quotes |
| ExtractionWrite.OneDocumentIsReviewed | apps/api/src/coursellm/graph/extraction.py:886-935 | evidence from one document never scores into auto-acceptance |
| ExtractionWrite.SettleKeepsSound | apps/api/src/coursellm/graph/extraction.py:868-935 | one turn of the second loop keeps verified rows, checked quotes and the promises about written edges |
| ExtractionWrite.SettleKeepsBalance | apps/api/src/coursellm/graph/extraction.py:868-935 | one turn settles one key as exactly one of rejection, verified conflict or write, and counts it |
| ExtractionWrite.SettleAll | apps/api/src/coursellm/graph/extraction.py:868-935 | the same over the whole loop |
| ExtractionWrite.SettleAcyclicIff | apps/api/src/coursellm/graph/extraction.py:868-915 | one turn keeps a closure relation acyclic exactly when it does not write an edge whose reverse path lies beyond the depth cap |
| ExtractionWrite.LoopAcyclicIff | apps/api/src/coursellm/graph/extraction.py:868-915 | the same over the whole loop: acyclic at the end exactly when no write was blind |
| ExtractionWrite.FewConceptsNoBlindWrite | apps/api/src/coursellm/graph/extraction.py:868-915 | with at most 21 concepts in play no write is blind |
| ExtractionRun.ConceptGraph.UpsertEdge | apps/api/src/coursellm/graph/repository.py:1150-1214 | in place: confidence, weight, cue, corroboration and sources merge into an unverified row whose own provenance stays, or the rows stay when the row is verified or the constraint raises, and the caller is told which |
| ExtractionRun.ConceptGraph.ExistingEdgeStates | apps/api/src/coursellm/graph/repository.py:1217-1252 | every stored edge between the pair, in either direction, with its verified flag, and no other |
| ExtractionRun.ExtractionRun.ExamineProposal | apps/api/src/coursellm/graph/extraction.py:833-866 | one proposed relation in place: the counters and the dossier map change as the specification of phase one says |
| ExtractionRun.ExtractionRun.ReadChunk | apps/api/src/coursellm/graph/extraction.py:754-866 | one chunk in place, its scope and reply checks included |
| ExtractionRun.ExtractionRun.ReadChunks | apps/api/src/coursellm/graph/extraction.py:754-866 | the first loop refines phase one |
| ExtractionRun.ExtractionRun.ScoreStored | apps/api/src/coursellm/graph/extraction.py:632-679 | the score against the stored graph, and whether a verified edge stands in the way |
| ExtractionRun.ExtractionRun.SettleOne | apps/api/src/coursellm/graph/extraction.py:874-935 | one turn of the second loop in place, with its early exits in order: the turn that EveryKeyHasItsTurn tells |
| ExtractionRun.ExtractionRun.WriteEvidence | apps/api/src/coursellm/graph/extraction.py:874-935 | the second loop refines phase two and stops at the raised integrity error |
| ExtractionRun.ExtractionRun.ExtractFromChunks | apps/api/src/coursellm/graph/extraction.py:738-957 | the whole run: the final ledger is that of the two phases composed, and the status follows the chunk failures |
| ExtractionTheorems.PhasesCompose | apps/api/src/coursellm/graph/extraction.py:738-935 | phase two starts from a sound phase one on every input, so both invariants hold at the end of every run |
| ExtractionTheorems.RunConserves | apps/api/src/coursellm/graph/extraction.py:808-935 | relations examined = rejections + duplicates + writes + verified conflicts; keys = late rejections + conflicts + writes; queued = writes + conflicts; writes never exceed the document cap; the per-gate counts add up |
| ExtractionTheorems.RunNeverAutoAccepts | apps/api/src/coursellm/graph/extraction.py:886-935 | every edge a run writes is queued for review, scores in [review floor, 1], has an explicit cue if it is a `requires`, joins different concepts with no verified edge between them, and is stored as the merge of its old row and its dossier |
| ExtractionTheorems.RunFrame | apps/api/src/coursellm/graph/extraction.py:868-935 | rows that are verified or were not written are exactly as before; nothing else appears |
| ExtractionTheorems.StoredQuotesAreVerbatim | apps/api/src/coursellm/graph/extraction.py:280-290 | every quote a run stores, in the list or in the row itself, occurs, once normalised, in the in-scope chunk it names |
| ExtractionTheorems.RunAcyclicIff | apps/api/src/coursellm/graph/extraction.py:868-915 | one run keeps a closure relation acyclic exactly when it raised or wrote nothing blind |
| ExtractionTheorems.SmallRunKeepsAcyclic | apps/api/src/coursellm/graph/extraction.py:868-915 | over at most 21 concepts one run keeps every closure relation acyclic, whatever the model answers |
| ExtractionTheorems.RunsKeepAcyclic | apps/api/src/coursellm/graph/extraction.py:868-915 | so does any number of runs |
| ExtractionTheorems.RunsAcyclicIff | apps/api/src/coursellm/graph/extraction.py:868-915 | over any number of runs and concepts: acyclic at the end exactly when no run wrote blind |
| ExtractionTheorems.RunsKeepVerified | apps/api/src/coursellm/graph/repository.py:1150-1214 | a verified row survives any number of runs untouched, and no run verifies a row |
| ExtractionTheorems.NoUpsertMeetsVerified | apps/api/src/coursellm/graph/extraction.py:886-915 | no upsert is issued for a pair with a verified edge of the key or of a contradicting relation, so in no run is an upsert answered by an untouched row |
| ExtractionFates.BatchCyclesAreRejected | apps/api/src/coursellm/graph/extraction.py:864-880 | no run writes a key that the batch filter removes: its row stays as it was, and a run that does not raise counts each such key once |
| ExtractionFates.EveryKeyHasItsTurn | apps/api/src/coursellm/graph/extraction.py:868-935 | in every run each key meets, in this order, the batch cycles, the document cap, a stored way back of at most 20 edges, an edge a person has verified, the floor on its score, and the self-loop constraint; what each does to rows, counters and summaries is told without the functions of the model |
| ExtractionRerun.RerunGain | apps/api/src/coursellm/graph/extraction.py:632-679 | the same evidence scores higher once its own unverified edge is stored, by 0.70 of the agreement weight, exactly when the relation is followed and no other path joined the pair; otherwise it scores the same |
| ExtractionRerun.SecondRun | apps/api/src/coursellm/graph/repository.py:1150-1214 | a run with evidence for one new key, repeated, rewrites its edge with that gain in the score, two corroborations and every source twice |
| ExtractionRerun.FurtherRun | apps/api/src/coursellm/graph/repository.py:1150-1214 | each further such run adds one corroboration and the sources again, and the score stays |
| ExtractionRerun.ManyRuns | apps/api/src/coursellm/graph/repository.py:1150-1214 | after n such runs, two or more, the row has n corroborations, every source n times, and the score of the second run |
| ExtractionRerun.SecondPlainRun | apps/api/src/coursellm/graph/confidence.py:127-135 | under the default weights one document with one sentence, read twice, gains 0.07, a second corroboration and a second copy of its source |
| ExtractionLimits.SettleRaisesIff | apps/api/src/coursellm/graph/extraction.py:868-915 | one turn raises exactly on a self-loop the batch filter keeps, whose own evidence reaches the review floor, with room under the cap: no stored edge matters |
| ExtractionLimits.RunRaisesIff | apps/api/src/coursellm/graph/extraction.py:868-915 | a run raises exactly when some key is such a self-loop and fewer edges than the cap were written before it |
| ExtractionLimits.RunRaisesWithinCapIff | apps/api/src/coursellm/graph/extraction.py:868-915 | with no more keys than the cap the replies alone decide whether a run raises, whatever is stored |
| ExtractionLimits.SelfLoopRaises | apps/api/src/coursellm/db/models/graph.py:205-215 | a run with one proposal whose two names are one concept passes every gate and raises on the no-self-loop constraint |
| ExtractionLimits.BlindWriteExists | apps/api/src/coursellm/graph/extraction.py:868-915 | for each closure relation, a run with one proposal under the default weights closes a stored chain of 21 edges into a cycle |
| ExtractionLimits.RunsStayAcyclicIff | apps/api/src/coursellm/graph/extraction.py:868-915 | any runs over n concepts keep a closure relation acyclic exactly when n is at most 21 |
| ExtractionLimits.CheckedRelationsIff | apps/api/src/coursellm/graph/extraction.py:877-884 | runs over two concepts keep a relation acyclic exactly when it is `requires`, `contains` or `part_of` |
| ExtractionLimits.SettleUnionIff | apps/api/src/coursellm/graph/extraction.py:877-884 | one turn keeps the closure relations acyclic together exactly when no way across them leads back from the target of a written edge |
| ExtractionLimits.RelationsTogetherCanCycle | apps/api/src/coursellm/graph/extraction.py:877-884 | the check looks at one relation at a time: a run with one proposal joins two acyclic relations into a cycle |
| ExtractionLimits.RunsStayAcyclicTogetherIff | apps/api/src/coursellm/graph/extraction.py:877-884 | any runs over n concepts keep the closure relations acyclic together exactly when n is at most 1 |
| SseFraming.FindBlankIsLeast | apps/web/src/api/client.ts:393-394 | the search finds the leftmost blank line |
| SseFraming.FeedContinues | apps/web/src/api/client.ts:390-413 | the invariant of the read loop: the buffered tail stands for everything already decided |
| SseFraming.FeedRefinesOneCut | apps/web/src/api/client.ts:390-416 | any chunking of a text without CR CR LF gives the blocks and the tail of normalising once and cutting at leftmost blank lines |
| SseFraming.CrCrLfBreaksFraming | apps/web/src/api/client.ts:402-413 | a cut right after a CR CR LF changes the framing of every text that holds one |
| SseFraming.ChunkingIrrelevantIff | apps/web/src/api/client.ts:390-416 | the chunking of a text never matters exactly when the text holds no CR CR LF |
| SseEvents.ReadLine | apps/web/src/api/client.ts:350-359 | one line of a block updates the event name and the data as the field rules say |
| SseEvents.ParseSseBlock | apps/web/src/api/client.ts:347-362 | the line loop computes the event of a block, or none without data |
| SseEvents.SseReader.Drain | apps/web/src/api/client.ts:390-401 | emits the events of every complete block of the buffer and leaves exactly the unterminated remainder |
| SseEvents.SseReader.ReadSseEvents | apps/web/src/api/client.ts:368-416 | the reader over any chunks emits the events of the framed text, the unterminated tail included |
| SseEvents.EventsIgnoreChunking | apps/web/src/api/client.ts:390-416 | however a text without CR CR LF is cut, the events are those of the text in one chunk, in order |
| SseEvents.PrintedStreamReadsBack | apps/web/src/api/client.ts:347-416 | blocks that print events, with comments and unknown fields among their lines, read back through any chunking, for LF and CR LF |
| SseEvents.RoundTrip | apps/web/src/api/client.ts:347-416 | printing a list of events and reading it back through any chunking returns the list |
| SseEvents.IgnoredLineChangesNothing | apps/web/src/api/client.ts:350-359 | inserting a comment or an unknown field anywhere in a block changes nothing |
| SseEvents.FieldLineIs | apps/web/src/api/client.ts:350-359 | a `data` field adds its value, an `event` field replaces the name, any other field does nothing; one leading space is not part of the value |
| SseEvents.BareLineIs | apps/web/src/api/client.ts:350-359 | a line without a colon is a name with an empty value; a comment does nothing |
| SseEvents.CrIsDropped | apps/web/src/api/client.ts:350-359 | one carriage return at the end of a line is not part of it |
| SseEvents.LastNameCounts | apps/web/src/api/client.ts:347-362 | of several event names in a block the last one counts, and without any the event is a message |
| SseEvents.CrCrLfChangesEventsIff | apps/web/src/api/client.ts:402-413 | two blocks of plain lines with a line of two carriage returns between them: cutting after that line changes the events exactly when both blocks have data, or the block without data names the event of the other |
| SseEvents.CrCrLfCanChangeEvents | apps/web/src/api/client.ts:402-413 | so there is a text whose events depend on where it is cut |
| SseTolerance.EventsTolerateCrCrLf | apps/web/src/api/client.ts:350-416 | the events do not depend on the chunking as long as no CR CR LF follows a CR or an LF; they are those of the text with all carriage returns before a line feed dropped |
| SseTolerance.FeedThins | apps/web/src/api/client.ts:390-413 | the invariant of the read loop for such texts: what is buffered and still to come decides the events still to come |
| SseTolerance.ThinResumes | apps/web/src/api/client.ts:390-401 | blocks already cut are the first blocks of the thinned text, block by block with the same event |
| SseTolerance.ThinBlockParses | apps/web/src/api/client.ts:350-359 | dropping the carriage return before each line feed of a block leaves its event as it was |
| SseTolerance.FinalCrsToleratedIff | apps/web/src/api/client.ts:350-416 | for a data line that ends in k carriage returns, no chunking changes the events exactly when k is at most 2 |
| SseReadings.UncutIsRead | apps/web/src/api/client.ts:390-413 | a text in one chunk is read as one pass over it and a second one over what follows its last blank line |
| SseReadings.TwoChunksDropMore | apps/web/src/api/client.ts:390-413 | read as two chunks, a text loses at least the carriage returns it loses in one |
| SseReadings.ReadingIsThinner | apps/web/src/api/client.ts:390-413 | every chunking of every text reads some text between the uncut reading and the thinned text, carriage returns before line feeds being all that differs |
| SseReadings.ThinIsReached | apps/web/src/api/client.ts:390-413 | some chunking of every text reads exactly the thinned text |
| SseData.ScanIsRead | apps/web/src/api/client.ts:347-416 | reading line by line, with a mark after each block that has data, gives the data of the events |
| SseData.ThinnerGrows | apps/web/src/api/client.ts:347-416 | with carriage returns gone the data only grow: every data line and every event is still there, in order |
| SseData.DataIgnoreChunkingIff | apps/web/src/api/client.ts:347-416 | for every text: the data of the events never depend on the chunking exactly when the text uncut and the thinned text give the same data |
| SseData.UnnamedEventsIgnoreChunkingIff | apps/web/src/api/client.ts:347-416 | for every text without event names the same holds of the events themselves |
| Session.Client.SetTokens | apps/web/src/api/client.ts:108-112 | both tokens replaced |
| Session.Client.ClearTokens | apps/web/src/api/client.ts:126-130 | both tokens dropped, the refresh in flight left alone |
| Session.Client.RefreshSession | apps/web/src/api/client.ts:266-271 | joins the refresh in flight, or starts one by presenting the token held |
| Session.Client.PerformRefreshEnds | apps/web/src/api/client.ts:230-260 | a stored answer replaces the tokens, a refusal drops them, a lost one changes neither |
| Session.Client.OnSettled | apps/web/src/api/client.ts:267-269 | the settled flight is cleared and its result handed to those who wait |
| Session.Client.BeginFetch | apps/web/src/api/client.ts:312-316 | a call starts with its first request sent |
| Session.Client.OnFirstResponse | apps/web/src/api/client.ts:312-318 | a 401 of an authenticated call with a refresh token asks for one refresh; anything else ends the call |
| Session.Client.OnRefreshed | apps/web/src/api/client.ts:317-318 | the call is sent once more after a stored refresh and ends otherwise |
| Session.Client.OnSecondResponse | apps/web/src/api/client.ts:319-325 | a second 401 drops the session and does not refresh again |
| Session.StepKeepsInv | apps/web/src/api/client.ts:228-326 | every step of every call keeps: one open round trip, no forgotten waiter, no spent token in hand |
| Session.RunKeepsInv | apps/web/src/api/client.ts:228-326 | the same over any run of interleaved steps |
| Session.EveryInterleaving | apps/web/src/api/client.ts:228-326 | in every interleaving at most one refresh is outstanding, each call is sent at most twice and asks for at most one refresh, and a token whose refresh was stored or refused is never presented again |
| Session.RetriedIffStored | apps/web/src/api/client.ts:312-326 | in every interleaving a call that has stopped waiting was sent a second time exactly when the server stored the presentation of the flight it waited for |
| Session.StoryEnds | apps/web/src/api/client.ts:230-326 | a 401, its settlement, the cleared flight and the resumption: sent again with the new tokens after a stored refresh, over without tokens after a refused one, over with the old tokens after a lost one |
| Session.AsksIff | apps/web/src/api/client.ts:316-318 | a first answer presents a token exactly when it is a 401 to an authenticated call and a token is held |
| Session.SecondAnswerEnds | apps/web/src/api/client.ts:319-324 | a second 401 drops both tokens, any other second answer keeps them, and the call is over |
| Session.PlainCallNeverAsks | apps/web/src/api/client.ts:312-326 | a call without authentication never presents a token |
| Session.SignedInCallAsks | apps/web/src/api/client.ts:312-318 | an authenticated call that is refused presents the token held |
| Session.DirectRefreshPresentsIff | apps/web/src/api/client.ts:266-271 | a direct refresh presents the token held exactly when nothing is in the air |
| Session.LostRequestEnds | apps/web/src/api/client.ts:295-301 | a request without an answer ends its call and moves nothing else |
| Session.RefreshesBounded | apps/web/src/api/client.ts:262-271 | in every run the flights started exceed those cleared by at most one, and no flight presents more than one token |
| Session.ConcurrentUnauthorizedShareOneRefresh | apps/web/src/api/client.ts:262-271 | in every run in which no flight is cleared, whatever else happens, at most one token is presented, none if one was in the air, and every call that asks waits for that flight |
| Session.PageRefreshesIff | apps/web/src/api/client.ts:262-271 | calls that await their first answers present at most k tokens, in every order of 401s, settlements and cleared flights, exactly when there are at most k of them |
| Session.BackToBackShareOneRefresh | apps/web/src/api/client.ts:262-271 | if their 401s come back to back, all of them wait for the one refresh this presents |
| Session.SignOutLastsIff | apps/web/src/api/client.ts:126-130 | dropping the tokens lasts until the next sign-in exactly when no refresh was outstanding |
| Session.SignInLastsIff | apps/web/src/api/client.ts:230-260 | the tokens of a sign-in are held as long as the session is left alone and presents nothing exactly when no earlier refresh was outstanding |
| Session.OutstandingRefreshUndoesSignIn | apps/web/src/api/client.ts:230-260 | an outstanding refresh drops the new tokens when it is refused and overwrites them when it is stored |
| AgentGraph.ExitReasons | apps/api/src/coursellm/agents/budgets.py:94-111 | exactly the limits hit, in the fixed order, the reason a model call was refused for among them |
| AgentGraph.BuildGraph | apps/api/src/coursellm/agents/graph.py:245-268 | the edge tables give every node exactly one way out, the one the runs below follow |
| AgentGraph.NodeContractIsWeak | apps/api/src/coursellm/agents/nodes/tools.py:43-128 | what the nodes do to the counters implies the contract the bound rests on |
| AgentGraph.EveryTurnIsBounded | apps/api/src/coursellm/agents/routing.py:88-135 | any run of the graph under the weak contract visits at most 4 + 5R + T nodes |
| AgentGraph.NothingSpentPastALimit | apps/api/src/coursellm/agents/routing.py:88-112 | retrieval is never entered with the steps, tool calls, passes or time used up, nor tools with the steps, tool calls or time; tokens and cost are not promised, because the routes do not test them |
| AgentGraph.SpendingStops | apps/api/src/coursellm/agents/budgets.py:74-86 | once tokens or cost are used up, neither ever moves again, and retrieval and tools are not entered after the visit that is then due |
| AgentGraph.OverspentTurnIff | apps/api/src/coursellm/agents/routing.py:88-112 | some whole turn that starts with nothing spent enters retrieval or tools with tokens or cost used up exactly when two steps or more are allowed |
| AgentGraph.EndsComposedAndGuarded | apps/api/src/coursellm/agents/graph.py:267-268 | a complete run ends with the composer and then the guardrail, and visits each only there |
| AgentGraph.OnlyTheRoutedAgent | apps/api/src/coursellm/agents/routing.py:76-85 | while the intent stays as routed only its own agent is visited |
| AgentGraph.OneAgentPerTurn | apps/api/src/coursellm/agents/routing.py:76-85 | with the nodes as they are a whole turn visits no agent but the one of the intent the router left |
| AgentGraph.IntentRunsItsAgent | apps/api/src/coursellm/agents/routing.py:76-85 | for each of the five intents, a turn whose router leaves its name runs its agent, and no other |
| AgentGraph.UnknownIntentRunsTutor | apps/api/src/coursellm/agents/routing.py:76-85 | an intent that is absent or none of the five runs the tutor |
| AgentGraph.EveryMove | apps/api/src/coursellm/agents/routing.py:88-135 | where every run goes from every visit, told from the counters, the limits, the clock and the tool names |
| AgentGraph.BreachIs | apps/api/src/coursellm/agents/budgets.py:74-86 | why a model call is refused: time before spend, spend before steps |
| AgentGraph.NoTurnIsLonger | apps/api/src/coursellm/agents/routing.py:88-135 | with the nodes as they are no turn exceeds an exact length in steps, passes and tool calls |
| AgentGraph.LongestTurnIsReached | apps/api/src/coursellm/agents/routing.py:88-135 | and some complete turn has exactly that length, for all settings |
| AgentGraph.RecursionLimitIff | apps/api/src/coursellm/core/config.py:398-411 | a recursion limit fits every turn exactly when it is at least the longest one |
| AgentGraph.DerivedLimitFitsDefaults | apps/api/src/coursellm/core/config.py:226-231 | the derived limit 2S + 8 fits every turn of the default settings, the coarse bound too, but not with five passes |
| AgentGraph.DefaultTurnsAreShort | apps/api/src/coursellm/core/config.py:226-231 | under the default settings no turn visits more than 14 nodes, none more than 20 whatever the nodes do, and 24 are allowed |
| AgentGraph.CutShortAfterAgentHasReason | apps/api/src/coursellm/agents/budgets.py:94-111 | a turn cut short with calls pending has an exit reason, then and at the composer |
| AgentGraph.CutShortAfterEvidence | apps/api/src/coursellm/agents/routing.py:115-135 | an exit after the evidence without any reason is one with sufficient evidence or with its passes used up |
| AgentGraph.RetrievalLimitGoesUnreportedIff | apps/api/src/coursellm/agents/budgets.py:94-111 | some whole turn reaches the composer ungrounded with no exit reason exactly when the passes are fewer than the steps and the tool calls |
| AgentGraph.DefaultsEndSilently | apps/api/src/coursellm/agents/budgets.py:94-111 | the default settings have such a turn |
| RankingMetrics.ComputeMrr | evals/metrics/retrieval.py:60-71 | the loop finds the reciprocal position of the first relevant id |
| RankingMetrics.ComputeContextPrecision | evals/metrics/retrieval.py:97-124 | the running totals are the precision sum and the number of hits |
| RankingMetrics.GainAtMostIdeal | evals/metrics/retrieval.py:74-94 | for any decreasing discount no arrangement of the hits gains more than putting them first, and only that one gains as much |
| RankingMetrics.NdcgInUnit | evals/metrics/retrieval.py:74-94 | for distinct ids nDCG is in [0, 1], and 1 exactly when k > 0, the relevant set is non-empty and the first min(size of the relevant set, k) positions exist and are relevant |
| RankingMetrics.NdcgWithFewHits | evals/metrics/retrieval.py:74-94 | the same for any ranking whose window holds no more hits than there are relevant ids |
| RankingMetrics.NdcgAtMostOneIff | evals/metrics/retrieval.py:74-94 | nDCG is at most 1 under every discount exactly when the window holds no more hits than there are relevant ids |
| RankingMetrics.DuplicatesFirstExceedOne | evals/metrics/retrieval.py:74-94 | with more hits than relevant ids, all of them first, nDCG exceeds 1 under every discount |
| RankingMetrics.ContextPrecisionInUnit | evals/metrics/retrieval.py:97-124 | context precision is in [0, 1], and 1 exactly when the window holds a relevant id and its relevant ids form a prefix |
| RankingMetrics.RelevantMovesUp | evals/metrics/retrieval.py:26-124 | swapping a relevant id one place earlier past an irrelevant one strictly raises nDCG and context precision, never lowers MRR, and leaves recall and precision unchanged |
| RankingMetrics.SharesFound | evals/metrics/retrieval.py:26-57 | recall is the share of the relevant ids that the window holds, precision their share of the window; for distinct ids both count its hits |
| RankingMetrics.WindowIs | evals/metrics/retrieval.py:26-57 | the window is the first k ids, none for a k that is not positive |
| RankingMetrics.CountIsPositions | evals/metrics/retrieval.py:97-124 | the hits counted are the positions of the window that hold a relevant id |
| RankingMetrics.MrrIs | evals/metrics/retrieval.py:60-71 | MRR is the reciprocal of the first relevant position, zero without one |
| RankingMetrics.NdcgIs | evals/metrics/retrieval.py:74-94 | nDCG is the discounts at the hits over the first discounts, the first position being 1 |
| RankingMetrics.NdcgOfOneHit | evals/metrics/retrieval.py:74-94 | a single relevant id at position p scores the discount of p over that of 1 |
| RankingMetrics.ContextPrecisionIs | evals/metrics/retrieval.py:97-124 | context precision is the mean, over the hits, of the precision at each |
| Percentiles.PercentileIsLeast | evals/metrics/system.py:34-48 | the percentile is the least value with at least the required number of values at or below it |
| Percentiles.RankIsCeiling | evals/metrics/system.py:34-48 | the required number is max(1, ceil(p n / 100)): the clamp to n never lowers it |
| Percentiles.PercentileIsNearestRank | evals/metrics/system.py:34-48 | the least value with p hundredths of the values at or below it, p taken between 0 and 100; zero without values |
| Percentiles.PercentileIgnoresOrder | evals/metrics/system.py:34-48 | the order of the values does not matter |
| Percentiles.PercentileMonotone | evals/metrics/system.py:34-48 | a larger percentile is never smaller |
| Percentiles.LatencyPercentiles | evals/metrics/system.py:51-67 | each stage with samples reports each rounded percentile, stages without samples none |
| Percentiles.ReportedInOrder | evals/metrics/system.py:51-67 | in every report a stage has no smaller value at a larger percentile, rounding included |
| Percentiles.DefaultReportInOrder | evals/metrics/system.py:30-67 | with the default percentiles every stage with samples reports p50 <= p95 <= p99 |
| Grading.GradeBetweenScores | apps/api/src/coursellm/assessment/evaluator.py:270-282 | a total lies between the least and the greatest clipped score, give or take half a millionth |
| Grading.GradeMonotone | apps/api/src/coursellm/assessment/evaluator.py:270-282 | raising any criterion's score never lowers the total |
| Grading.TotalBalances | apps/api/src/coursellm/assessment/evaluator.py:270-282 | the total is the weighted mean by its own property: the value at which the weighed clipped scores balance, rounded |
| Grading.FullScoresTotal | apps/api/src/coursellm/assessment/evaluator.py:270-282 | with every score full or nothing the total is the full scores' share of the weight |
| Grading.TotalIgnoresOrder | apps/api/src/coursellm/assessment/evaluator.py:270-282 | permuting the criteria changes nothing |
| Grading.NoWeightNoTotal | apps/api/src/coursellm/assessment/evaluator.py:270-282 | without a positive weight the total is zero |
| RealMath.RoundHalfEvenIs | apps/api/src/coursellm/assessment/evaluator.py:282-282 | the rounded value is the integer within a half, and of two such the even one |
| Grading.ValidateRubric | apps/api/src/coursellm/assessment/evaluator.py:285-313 | a response is graded exactly when its criteria are in bijection with the item's, and then with one clipped score per criterion |
| Grading.OrderOfAnswersIsIrrelevant | apps/api/src/coursellm/assessment/evaluator.py:285-313 | the order in which the model answers decides neither whether nor how a response is graded |
| Grading.ScoresFollowAnswers | apps/api/src/coursellm/assessment/evaluator.py:305-313 | each recorded score is the clipped answer of its criterion under the criterion's own weight, in rubric order, none missing |
| Grading.RecordIs | apps/api/src/coursellm/assessment/evaluator.py:285-313 | for a rubric of distinct criteria the record is the rubric in its order, each criterion under its own weight with the answer it got, clipped |
| Grading.LastWeightCounts | apps/api/src/coursellm/assessment/evaluator.py:285-313 | a repeated criterion counts with the weight given last |
| Grading.RecordedGradeBetween | apps/api/src/coursellm/assessment/evaluator.py:252-313 | a recorded free-text grade lies between the extreme clipped answers, give or take half a millionth |
| Grading.GroundMisconceptions | apps/api/src/coursellm/assessment/evaluator.py:316-344 | keeps, in order, the well-formed misconceptions with some resolvable citation, and reports whether any was dropped |
| Grading.KeptAreEvidenced | apps/api/src/coursellm/assessment/evaluator.py:316-344 | every kept misconception cites only evidence the item carried, and some |
| Grading.KeptExactly | apps/api/src/coursellm/assessment/evaluator.py:316-344 | a well-formed misconception with some available citation is kept, with exactly those, and no other is |
| QuizItems.ResolvableCitations | apps/api/src/coursellm/assessment/generator.py:380-388 | exactly the cited ids that were offered, each once |
| QuizItems.UniqueKeepsMembers | apps/api/src/coursellm/assessment/generator.py:521-529 | removing repeats loses no member |
| QuizItems.UniqueKeepsOrder | apps/api/src/coursellm/assessment/generator.py:521-529 | what is seen first stays first: a longer list only adds at the end |
| QuizItems.LinkedConcept | apps/api/src/coursellm/assessment/generator.py:405-423 | a concept is attached only when it is a candidate that some cited passage is linked to |
| QuizItems.BuildQuizItem | apps/api/src/coursellm/assessment/generator.py:281-320 | the guards in the code's order keep exactly the acceptable items, give each other one its first fault, and what they build passes the structural check |
| QuizItems.BuildQuizItems | apps/api/src/coursellm/assessment/generator.py:257-321 | the loop equals: keep the acceptable items, take the first n, number them; its reasons are those of the proposals looked at, each once |
| QuizItems.QuizIsGrounded | apps/api/src/coursellm/assessment/generator.py:257-321 | every item passes the structural check, cites a non-empty repeat-free list of offered passages, attaches only a linked candidate, has a weighted rubric summing to one, and has its own id item-1, item-2, ... |
| QuizItems.RubricIsSound | apps/api/src/coursellm/assessment/generator.py:399-402 | every rubric a generated item gets has distinct criteria with positive weights summing to one |
| QuizItems.DraftFromItems | apps/api/src/coursellm/assessment/generator.py:222-250 | a parsed answer: items and shortfall make up the request, and the reasons say exactly what went wrong |
| QuizItems.DraftFromContext | apps/api/src/coursellm/assessment/generator.py:156-254 | for every outcome of retrieval and model: items + shortfall = requested, a short draft names its reason, and there is no degradation exactly when the draft is complete and nothing was dropped |
| QuizProposals.QuizFollowsProposals | apps/api/src/coursellm/assessment/generator.py:257-321 | the quiz is made of the first n fit proposals in order; of each it keeps kind, choices, answers, answer key and justification, and the rubric of its kind |
| QuizProposals.FaultNames | apps/api/src/coursellm/assessment/generator.py:281-320 | each reason is given exactly when the proposal lacks that and nothing before it |
| QuizProposals.LooksUntilEnough | apps/api/src/coursellm/assessment/generator.py:257-321 | proposals are looked at until n are accepted, the last among them, or to the end |
| QuizProposals.CitationsKeepOrder | apps/api/src/coursellm/assessment/generator.py:380-388 | citations stand in the order in which the proposal first names them |
| QuizProposals.ItemIdReads | apps/api/src/coursellm/assessment/generator.py:302-303 | the item ids carry the number of the item in decimal digits |
| QuizProposals.FreeTextGrade | apps/api/src/coursellm/assessment/schemas.py:37-41 | a complete answer to the default rubric is graded 0.5, 0.3 and 0.2 of its three clipped scores, rounded |
| QuizProposals.ScoresIff | apps/api/src/coursellm/assessment/evaluator.py:347-366 | every readable answer to a multiple-choice item scores 1 if it names the correct option by index, letter or text, and 0 if not |
| QuizProposals.AnswerKeyIsTheProposals | apps/api/src/coursellm/assessment/generator.py:391-396 | end to end: an answer to a generated item is right exactly when it names the option the proposal marked |
| MultipleChoice.FindText | apps/api/src/coursellm/assessment/evaluator.py:362-365 | finds the first option whose folded text is the answer, if any |
| MultipleChoice.FirstWithTextIsFirst | apps/api/src/coursellm/assessment/evaluator.py:362-365 | the first such option, and none exactly when no option reads so |
| MultipleChoice.ScoreMultipleChoice | apps/api/src/coursellm/assessment/evaluator.py:347-366 | a number is read as an index, then a letter, then the text of an option; anything else scores zero, but digits no integer is read from give no score at all |
| MultipleChoice.ExactTextScoresIff | apps/api/src/coursellm/assessment/evaluator.py:347-366 | submitting the text of the correct option scores 1 exactly when that text is not read as another index or letter and no earlier option reads the same |
| MultipleChoice.NumericTextIsMisread | apps/api/src/coursellm/assessment/evaluator.py:357-358 | an item whose correct answer, submitted as text, scores 0 |
| AttemptStore.ScoreItem | apps/api/src/coursellm/assessment/evaluator.py:202-267 | the outcome of one answer: deterministic or raised for multiple choice, else graded or one of three failures |
| AttemptStore.ScoreInUnit | apps/api/src/coursellm/db/models/learning.py:183-186 | every recorded score meets the table's own bound |
| AttemptStore.TotalIsIgnored | apps/api/src/coursellm/assessment/evaluator.py:213-263 | a total the model adds to its answer changes nothing that a submission does to the tables |
| AttemptStore.AssessmentStore.EvaluateAnswer | apps/api/src/coursellm/assessment/evaluator.py:82-199 | in place: the tables afterwards and the result with its event kind, for every not-found, regrade, failed, graded and raised case |
| AttemptStore.AssessmentStore.SubmitAnswer | apps/api/src/coursellm/assessment/service.py:128-170 | the placeholder and its evaluation, as one change of the tables, none when the request fails |
| AttemptStore.AssessmentStore.Generate | apps/api/src/coursellm/assessment/service.py:80-122 | a draft is stored with its items and the citations it offered |
| AttemptStore.GradesNeverChange | apps/api/src/coursellm/assessment/evaluator.py:118-124 | over any sequence of operations a row that holds a grade is never altered or deleted, and the log only grows |
| AttemptStore.StepKeepsInv | apps/api/src/coursellm/assessment/evaluator.py:82-199 | every operation keeps events and graded rows in bijection, each event carrying its row's score, user and course |
| AttemptStore.EveryRowHasItsEvent | apps/api/src/coursellm/assessment/service.py:128-170 | from an empty store, after any generations, submissions and re-evaluations with any outcomes: every row is graded and exactly one event reports it |
| AttemptStore.FailedScoringLeavesNothing | apps/api/src/coursellm/assessment/evaluator.py:142-159 | a failed evaluation adds no event and no row and removes only an ungraded placeholder |
| AttemptStore.FailedSubmissionLeavesNothing | apps/api/src/coursellm/assessment/service.py:128-170 | a failed submission leaves rows and log as they were |
| AttemptStore.GradingAddsOneEvent | apps/api/src/coursellm/assessment/evaluator.py:161-188 | a grade goes into one row and one event; a row already graded is answered by a new one; no other row changes |
| AttemptStore.OnlyOwnRowsChange | apps/api/src/coursellm/assessment/evaluator.py:439-455 | nobody's request changes another user's rows |
| AttemptStore.GradeIsSafeIff | apps/api/src/coursellm/assessment/evaluator.py:118-124 | a freshly recorded grade is safe against every later run exactly when the item has criteria |
| AttemptStore.RequestFailsIff | apps/api/src/coursellm/assessment/evaluator.py:347-366 | an answer makes the request fail exactly when a multiple-choice item is answered with digits from which no integer is read; the tables are then as before |
| AttemptStore.EventsNameRowsItemsIff | apps/api/src/coursellm/assessment/evaluator.py:163-186 | over any run from an empty store, every event names the item of its row exactly when no graded re-evaluation named another item than its attempt |
| AttemptStore.RunAlignedIff | apps/api/src/coursellm/assessment/evaluator.py:163-186 | the same from any reachable store |
| AttemptStore.MisdirectedRunIsNotAligned | apps/api/src/coursellm/assessment/evaluator.py:163-186 | a run of a quiz, an answer and a re-evaluation whose event names another item than its row |
| AttemptRecords.SubmitNotFoundIff | apps/api/src/coursellm/assessment/service.py:128-170 | a submission is answered "not found", and changes nothing, exactly without a quiz of the user's own with that item |
| AttemptRecords.EvaluateNotFoundIff | apps/api/src/coursellm/assessment/evaluator.py:82-116 | an evaluation, exactly without an attempt of the user's own on a stored quiz with that item |
| AttemptRecords.GeneratedIsAnswerable | apps/api/src/coursellm/assessment/service.py:80-122 | a generated quiz can be answered by its owner, item by item, and by nobody else |
| AttemptRecords.FailedGenerationIsEmpty | apps/api/src/coursellm/assessment/service.py:80-122 | a generation that brought nothing stores a quiz nobody can answer |
| AttemptRecords.OptionScoresEachCriterion | apps/api/src/coursellm/assessment/evaluator.py:397-406 | the score of a multiple-choice answer goes to every criterion of its item, under its own weight |
| AttemptRecords.UngradedIff | apps/api/src/coursellm/assessment/evaluator.py:234-256 | why a free-text answer is not graded |
| AttemptRecords.DroppedIff | apps/api/src/coursellm/assessment/evaluator.py:316-344 | a graded answer reports a dropped misconception exactly when one is malformed or cites nothing available |
| AttemptRecords.FreeTextOutcome | apps/api/src/coursellm/assessment/evaluator.py:252-267 | a graded free-text answer records the model's answer to each criterion, and its grade is the rounded value at which they balance |
| AttemptRecords.SubmissionRecords | apps/api/src/coursellm/assessment/service.py:128-170 | a graded submission adds one row and one event, told field by field, and nothing else |
| AttemptRecords.RegradeRecords | apps/api/src/coursellm/assessment/evaluator.py:493-507 | a regrade leaves the old row and adds one that repeats it with the new answer and grade |
| AttemptRecords.ResultReports | apps/api/src/coursellm/assessment/evaluator.py:142-199 | a reported grade is the stored one with its event's kind; without a grade no row is left and the reason is noted |
| RegressionGate.SortedListsOnce | evals/runners/check_regression.py:285-285 | the metrics are visited once each, in name order |
| RegressionGate.TypedMetrics | evals/runners/check_regression.py:211-220 | reading a report succeeds exactly when every metric is a number, and keeps every value |
| RegressionGate.RegressionResult.Examine | evals/runners/check_regression.py:285-320 | one turn files one metric under exactly one heading and keeps ok equal to "nothing found" |
| RegressionGate.CompareReports | evals/runners/check_regression.py:243-321 | a refusal exactly for a differing configuration or dataset without the override, else the findings over the baseline, with ok exactly when nothing is missing, unknown or breached |
| RegressionGate.EveryMetricOnce | evals/runners/check_regression.py:285-320 | each baseline metric is in exactly one of skipped, missing, unknown, compared, and the counts add up |
| RegressionGate.PassesIff | evals/runners/check_regression.py:243-321 | the gate passes exactly when every baseline metric was not measured, or is present, tabled and within its slack |
| RegressionGate.VerdictIff | evals/runners/check_regression.py:231-321 | the verdict on two whole reports: comparable, readable, and every metric of the baseline not measured now, or present, tabled and within absolute plus relative slack |
| RegressionGate.RefusalIff | evals/runners/check_regression.py:243-276 | a comparison is refused for a differing configuration first, then for a differing dataset, unless overridden |
| RegressionGate.HeadingsAre | evals/runners/check_regression.py:285-320 | each heading lists exactly its metrics, and each breach says what was found and allowed |
| RegressionGate.NameLeqIs | evals/runners/check_regression.py:285-285 | the order of the names is that of their first difference, a start before the whole |
| RegressionGate.ImprovementNeverFails | evals/runners/check_regression.py:231-240 | improving current values in their directions never turns a pass into a failure, whatever the signs in the table |
| RegressionGate.WideningNeverFails | evals/runners/check_regression.py:231-240 | neither does widening tolerances or tabling more metrics |
| RegressionGate.SelfComparisonPassesIff | evals/runners/check_regression.py:243-321 | a report passes against itself exactly when each metric it measured is tabled with non-negative slack |

## Left out

- SQLAlchemy sessions, migrations, row-level security and pooling: rows are maps and sequences, and a transaction is rolled back as a whole when a run raises.
- Two extraction runs, or two submissions, interleaved inside the database: runs and requests happen one after the other.
- The language-model gateway, prompts, tracing, logging, costs and audit records: foreign calls and text.
- `chunk_cue_score` and `select_chunks`: a run starts from the selected chunks, in their order.
- Creating concepts and aliases, and resolving names: a proposal carries what its two names resolve to; the concept loop appears by what it counts.
- ExtractionRun.ConceptGraph.UpsertEdge: does not keep the run id, prompt version and model columns, which only label a row, nor round the confidence column to three decimals.
- ExtractionRun.ExtractionRun.ReadChunk: does not create concepts or look names up; what a name resolves to is part of the proposal.
- AttemptStore.AssessmentStore.EvaluateAnswer: does not return the mastery delta, because `learning/progress.py` is not part of this model.
- SseEvents.CrCrLfChangesEventsIff: decides two blocks of plain lines with a line of two carriage returns between them, not every text.
- SseTolerance.EventsTolerateCrCrLf: one direction for whole events. The converse is proved of their data for every text, of the events for texts without event names, and for the families of SseTolerance.FinalCrsToleratedIff and SseEvents.CrCrLfChangesEventsIff; which event names a text with several of them in one block can lose to an unlucky cut is not decided.
- Exact values of `exp` and `log2`: any decay factor and any positive strictly decreasing discount instead.
- Floating-point rounding other than `round(x, 6)`.
- UTF-8 decoding, fetch, abort signals, uploads and authentication listeners in the web client: the reader starts from decoded chunks, and a refresh ends as stored, refused or lost.
- `grounding_for` and `token_summary`: one counting loop each, which would add only easy members; the verdict of the former is an arbitrary field of the agent state.
- Error retries, timeouts and audit rows inside the agent nodes: nodes are any step their contracts allow.
- Trimming, case folding and number reading of a multiple-choice answer are arbitrary functions, the last with three outcomes: no digits, an index, or digits no integer is read from.
- `citation_concept_links` and candidate lookup: the links and candidates are arbitrary inputs of the quiz builder.
- The 120-character limit on item ids, which no quiz of at most 20 items reaches, and the length limits on misconception fields, which appear as one well-formedness flag.
- Mastery projection.
- Rereading stored quizzes: stored items and citations are taken to be as they were written.
- The entries of the tolerance table, report loading, formatting and exit codes: the gate is proved for every table.
