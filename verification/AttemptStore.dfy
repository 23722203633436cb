/**
  The attempt rows and the append-only event log: submitting an answer creates a placeholder row and
  evaluates it; a graded row is never edited, a regrade is a new row.
 */
module AttemptStore {
  import opened Base
  import opened Grading
  import opened QuizItems
  import opened MultipleChoice

  type Id = nat

  datatype Quiz = Quiz(owner: Id, course: Id, items: seq<QuizItem>, citations: set<string>)

  datatype Attempt = Attempt(
    user: Id, course: Id, quiz: Option<Id>, itemId: string, concept: Option<ConceptId>, answer: string,
    score: real, rubric: seq<RubricScore>, misconceptions: seq<Reported>)

  datatype Kind = AttemptMade | ConceptStruggled

  datatype Event = Event(
    user: Id, course: Id, concept: Option<ConceptId>, kind: Kind, mastery: real, quiz: Option<Id>,
    itemId: string, attempt: Id)

  /** The tables; `next` is an id that was never issued. */
  datatype Store = Store(quizzes: map<Id, Quiz>, attempts: map<Id, Attempt>, events: seq<Event>, next: Id)

  /** What the model answers when it is asked to score. */
  datatype Reply =
    | Unavailable
    | Malformed
    | Answers(criteria: seq<Answered>, misconceptions: seq<Reported>, total: Option<real>)

  /** An answer to one item, how its text is read, and what the model says to it. */
  datatype Submission = Submission(user: Id, itemId: string, answer: string, reading: Reading, reply: Reply)

  datatype Note = Regrade | ModelUnavailable | ModelMalformed | IncompleteRubric | MisconceptionDropped

  /** `Raised` is an error that reaches the caller, whose transaction is rolled back. */
  datatype Outcome =
    | Raised
    | Ungraded(reason: Note)
    | Graded(score: real, rubric: seq<RubricScore>, misconceptions: seq<Reported>, dropped: bool)

  datatype Result =
    | NotFound
    | RequestFailed
    | Assessed(attempt: Id, score: Option<real>, rubric: seq<RubricScore>, misconceptions: seq<Reported>,
               kind: Option<Kind>, notes: seq<Note>)

  const STRUGGLE_THRESHOLD := 0.5

  const DETERMINISTIC := "Graded deterministically against the correct option."

  // ----- Scoring ----------------------------------------------------------------------------------

  /** The same score for every criterion: an option is right or wrong. */
  function UniformRubric(rubric: seq<Criterion>, score: real): seq<RubricScore> {
    MapAll((c: Criterion) => RubricScore(c.name, c.weight, score, DETERMINISTIC), rubric)
  }

  ghost function Scored(item: QuizItem, sub: Submission, available: set<string>): Outcome {
    if item.kind.MultipleChoice? then
      var score := OptionScore(item, sub.reading, sub.answer);
      if score.None? then Raised else Graded(score.value, UniformRubric(item.rubric, score.value), [], false)
    else match sub.reply
      case Unavailable => Ungraded(ModelUnavailable)
      case Malformed => Ungraded(ModelMalformed)
      case Answers(criteria, misconceptions, _) =>
        if AnswersRubric(item.rubric, criteria) then
          Graded(GradeOf(item.rubric, criteria), ScoresOf(item.rubric, criteria),
                 MapSome(Grounded(available), misconceptions),
                 exists m :: m in misconceptions && IsDropped(m, available))
        else Ungraded(IncompleteRubric)
  }

  method ScoreItem(item: QuizItem, sub: Submission, available: set<string>) returns (outcome: Outcome)
    ensures outcome == Scored(item, sub, available)
  {
    if item.kind.MultipleChoice? {
      var score := ScoreMultipleChoice(item, sub.reading, sub.answer);
      if score.None? {
        return Raised;
      }
      return Graded(score.value, UniformRubric(item.rubric, score.value), [], false);
    }
    match sub.reply
    case Unavailable => return Ungraded(ModelUnavailable);
    case Malformed => return Ungraded(ModelMalformed);
    case Answers(criteria, misconceptions, _) =>
      var rubric := ValidateRubric(item.rubric, criteria);
      if rubric.None? {
        return Ungraded(IncompleteRubric);
      }
      var kept, dropped := GroundMisconceptions(misconceptions, available);
      return Graded(ComputeTotal(MapAll(MarkOf, rubric.value)), rubric.value, kept, dropped);
  }

  /** Every recorded score meets the table's own bound. */
  lemma ScoreInUnit(item: QuizItem, sub: Submission, available: set<string>)
    ensures var o := Scored(item, sub, available); o.Graded? ==> 0.0 <= o.score <= 1.0
  {
    if sub.reply.Answers? {
      TotalInUnit(MapAll(MarkOf, ScoresOf(item.rubric, sub.reply.criteria)));
    }
  }

  /** A grade leaves a trace in its row exactly when the item has criteria. */
  lemma GradedRubricIff(item: QuizItem, sub: Submission, available: set<string>)
    requires Scored(item, sub, available).Graded?
    ensures Scored(item, sub, available).rubric != [] <==> item.rubric != []
  {
    if item.kind.MultipleChoice? {
      var score := OptionScore(item, sub.reading, sub.answer).value;
      MapAllMembers((c: Criterion) => RubricScore(c.name, c.weight, score, DETERMINISTIC), item.rubric);
    } else {
      MapAllMembers(name => ScoreOf(item.rubric, sub.reply.criteria, name), NameOrder(item.rubric));
      NamesOrNone(item.rubric);
    }
  }

  lemma {:induction false} NamesOrNone(rubric: seq<Criterion>)
    ensures NameOrder(rubric) != [] <==> rubric != []
  {
  }

  // ----- The specification --------------------------------------------------------------------------

  function Find(items: seq<QuizItem>, id: string): Option<QuizItem> {
    if items == [] then None else if items[0].id == id then Some(items[0]) else Find(items[1..], id)
  }

  function QuizOfAttempt(s: Store, a: Attempt): Option<Quiz> {
    if a.quiz.Some? && a.quiz.value in s.quizzes then Some(s.quizzes[a.quiz.value]) else None
  }

  function ItemFor(s: Store, a: Attempt, itemId: string): Option<QuizItem> {
    var quiz := QuizOfAttempt(s, a);
    if quiz.None? then None else Find(quiz.value.items, itemId)
  }

  /** The request names an attempt of its own user, and an item of that attempt's quiz. */
  predicate CanEvaluate(s: Store, id: Id, sub: Submission) {
    id in s.attempts && s.attempts[id].user == sub.user && ItemFor(s, s.attempts[id], sub.itemId).Some?
  }

  predicate CanSubmit(s: Store, quizId: Id, sub: Submission) {
    && quizId in s.quizzes && s.quizzes[quizId].owner == sub.user
    && Find(s.quizzes[quizId].items, sub.itemId).Some?
  }

  function Placeholder(
      user: Id, course: Id, quiz: Option<Id>, itemId: string, concept: Option<ConceptId>, answer: string): Attempt {
    Attempt(user, course, quiz, itemId, concept, answer, 0.0, [], [])
  }

  function Cleared(a: Attempt): Attempt {
    Placeholder(a.user, a.course, a.quiz, a.itemId, a.concept, a.answer)
  }

  function CitationSet(item: QuizItem): set<string> {
    set c | c in item.citations
  }

  /** What the attempt's item makes of the submission. */
  ghost function OutcomeOf(s: Store, id: Id, sub: Submission): Outcome
    requires CanEvaluate(s, id, sub)
  {
    var a := s.attempts[id];
    var item := ItemFor(s, a, sub.itemId).value;
    Scored(item, sub, CitationSet(item) * QuizOfAttempt(s, a).value.citations)
  }

  /** The row that a submission is graded in: its own, or a new one when it already holds a grade. */
  function TargetId(s: Store, id: Id): Id
    requires id in s.attempts
  {
    if s.attempts[id].rubric != [] then s.next else id
  }

  function TargetRow(s: Store, id: Id, answer: string): Attempt
    requires id in s.attempts
  {
    var a := s.attempts[id];
    (if a.rubric != [] then Cleared(a) else a).(answer := answer)
  }

  function NextAfter(s: Store, id: Id): Id
    requires id in s.attempts
  {
    if s.attempts[id].rubric != [] then s.next + 1 else s.next
  }

  function Record(row: Attempt, o: Outcome): Attempt
    requires o.Graded?
  {
    row.(score := o.score, rubric := o.rubric, misconceptions := o.misconceptions)
  }

  function KindOf(score: real): Kind {
    if score < STRUGGLE_THRESHOLD then ConceptStruggled else AttemptMade
  }

  function EventOf(row: Attempt, target: Id, item: QuizItem, sub: Submission, score: real): Event {
    Event(sub.user, row.course, item.concept, KindOf(score), score, row.quiz, sub.itemId, target)
  }

  ghost function Evaluated(s: Store, id: Id, sub: Submission): Store {
    if !CanEvaluate(s, id, sub) || OutcomeOf(s, id, sub).Raised? then s
    else
      var target, row, o := TargetId(s, id), TargetRow(s, id, sub.answer), OutcomeOf(s, id, sub);
      var item := ItemFor(s, s.attempts[id], sub.itemId).value;
      if o.Ungraded? then s.(attempts := s.attempts - {target}, next := NextAfter(s, id))
      else s.(
        attempts := s.attempts[target := Record(row, o)],
        events := s.events + [EventOf(row, target, item, sub, o.score)],
        next := NextAfter(s, id))
  }

  function WithPlaceholder(s: Store, quizId: Id, sub: Submission): Store
    requires CanSubmit(s, quizId, sub)
  {
    var quiz := s.quizzes[quizId];
    var item := Find(quiz.items, sub.itemId).value;
    s.(attempts := s.attempts[
         s.next := Placeholder(sub.user, quiz.course, Some(quizId), sub.itemId, item.concept, sub.answer)],
       next := s.next + 1)
  }

  ghost predicate Fails(s: Store, id: Id, sub: Submission) {
    CanEvaluate(s, id, sub) && OutcomeOf(s, id, sub).Raised?
  }

  ghost function Submitted(s: Store, quizId: Id, sub: Submission): Store {
    if !CanSubmit(s, quizId, sub) || Fails(WithPlaceholder(s, quizId, sub), s.next, sub) then s
    else Evaluated(WithPlaceholder(s, quizId, sub), s.next, sub)
  }

  function WithTotal(sub: Submission, total: Option<real>): Submission
    requires sub.reply.Answers?
  {
    sub.(reply := sub.reply.(total := total))
  }

  lemma ScoredIgnoresTotal(item: QuizItem, sub: Submission, available: set<string>, total: Option<real>)
    requires sub.reply.Answers?
    ensures Scored(item, WithTotal(sub, total), available) == Scored(item, sub, available)
  {
    hide AnswersRubric, OptionScore, GradeOf, ScoresOf;
  }

  lemma EvaluatedIgnoresTotal(s: Store, id: Id, sub: Submission, total: Option<real>)
    requires sub.reply.Answers?
    ensures Evaluated(s, id, WithTotal(sub, total)) == Evaluated(s, id, sub)
    ensures Fails(s, id, WithTotal(sub, total)) == Fails(s, id, sub)
  {
    if CanEvaluate(s, id, sub) {
      var item := ItemFor(s, s.attempts[id], sub.itemId).value;
      ScoredIgnoresTotal(item, sub, CitationSet(item) * QuizOfAttempt(s, s.attempts[id]).value.citations, total);
      hide Scored, ItemFor, QuizOfAttempt;
    }
  }

  /** A total that the model adds to its answer changes nothing, whatever it is. */
  lemma TotalIsIgnored(s: Store, quizId: Id, sub: Submission, total: Option<real>)
    requires sub.reply.Answers?
    ensures Submitted(s, quizId, WithTotal(sub, total)) == Submitted(s, quizId, sub)
  {
    if CanSubmit(s, quizId, sub) {
      EvaluatedIgnoresTotal(WithPlaceholder(s, quizId, sub), s.next, sub, total);
      hide Evaluated, Fails;
    }
  }

  function Generated(s: Store, user: Id, course: Id, source: Source, brief: Brief, requested: nat): Store {
    var quiz := Quiz(user, course, DraftItems(source, brief, requested), if source.Parsed? then brief.offered else {});
    s.(quizzes := s.quizzes[s.next := quiz], next := s.next + 1)
  }

  // ----- The store in place ---------------------------------------------------------------------------

  class AssessmentStore {
    var quizzes: map<Id, Quiz>
    var attempts: map<Id, Attempt>
    var events: seq<Event>
    var next: Id

    ghost function Contents(): Store
      reads this
    {
      Store(quizzes, attempts, events, next)
    }

    constructor ()
      ensures Contents() == Store(map[], map[], [], 0)
    {
      quizzes, attempts, events, next := map[], map[], [], 0;
    }

    method Generate(user: Id, course: Id, source: Source, brief: Brief, requested: nat) returns (draft: Draft)
      requires requested > 0
      modifies this
      ensures Contents() == Generated(old(Contents()), user, course, source, brief, requested)
      ensures draft.items == DraftItems(source, brief, requested)
    {
      draft := DraftFromContext(source, brief, requested);
      hide DraftItems, Honest;
      var citations := if source.Parsed? then brief.offered else {};
      quizzes := quizzes[next := Quiz(user, course, draft.items, citations)];
      next := next + 1;
    }

    static method FindItem(items: seq<QuizItem>, id: string) returns (item: Option<QuizItem>)
      ensures item == Find(items, id)
    {
      for i := 0 to |items|
        invariant Find(items, id) == Find(items[i..], id)
      {
        assert items[i..][1..] == items[i + 1..];
        if items[i].id == id {
          return Some(items[i]);
        }
      }
      return None;
    }

    /** Stores a new row under a new id. */
    method Insert(row: Attempt) returns (id: Id)
      modifies `attempts, `next
      ensures id == old(next) && next == old(next) + 1 && attempts == old(attempts)[id := row]
    {
      id := next;
      attempts := attempts[id := row];
      next := next + 1;
    }

    method EvaluateAnswer(attemptId: Id, sub: Submission) returns (result: Result)
      requires forall id :: id in attempts ==> id < next
      modifies `attempts, `events, `next
      ensures Contents() == Evaluated(old(Contents()), attemptId, sub)
      ensures result == ResultOf(old(Contents()), attemptId, sub)
    {
      hide Scored;
      if attemptId !in attempts || attempts[attemptId].user != sub.user {
        return NotFound;
      }
      var attempt := attempts[attemptId];
      if attempt.quiz.None? || attempt.quiz.value !in quizzes {
        return NotFound;
      }
      var quiz := quizzes[attempt.quiz.value];
      var item := FindItem(quiz.items, sub.itemId);
      if item.None? {
        return NotFound;
      }
      ghost var before := Contents();
      var savedRows, savedNext := attempts, next;
      assert CanEvaluate(before, attemptId, sub);
      var target, notes := attemptId, [];
      if attempt.rubric != [] {
        attempt := Cleared(attempt);
        target := Insert(attempt);
        notes := [Regrade];
      }
      attempt := attempt.(answer := sub.answer);
      attempts := attempts[target := attempt];
      var available := (set c | c in item.value.citations) * quiz.citations;
      var outcome := ScoreItem(item.value, sub, available);
      assert target == TargetId(before, attemptId) && attempt == TargetRow(before, attemptId, sub.answer);
      assert outcome == OutcomeOf(before, attemptId, sub) && next == NextAfter(before, attemptId);
      assert attempts == before.attempts[target := attempt];
      if outcome.Raised? {
        attempts, next := savedRows, savedNext;
        return RequestFailed;
      }
      if outcome.Ungraded? {
        attempts := attempts - {target};
        assert attempts == before.attempts - {target};
        return Assessed(target, None, [], [], None, notes + [outcome.reason]);
      }
      attempt := Record(attempt, outcome);
      attempts := attempts[target := attempt];
      events := events + [EventOf(attempt, target, item.value, sub, outcome.score)];
      assert attempts == before.attempts[target := attempt];
      return Assessed(
        target, Some(outcome.score), outcome.rubric, outcome.misconceptions, Some(KindOf(outcome.score)),
        notes + (if outcome.dropped then [MisconceptionDropped] else []));
    }

    method SubmitAnswer(quizId: Id, sub: Submission) returns (result: Result)
      requires forall id :: id in attempts ==> id < next
      modifies `attempts, `events, `next
      ensures Contents() == Submitted(old(Contents()), quizId, sub)
      ensures result == SubmitResult(old(Contents()), quizId, sub)
    {
      hide Evaluated, ResultOf, OutcomeOf, CanEvaluate;
      if quizId !in quizzes || quizzes[quizId].owner != sub.user {
        return NotFound;
      }
      var quiz := quizzes[quizId];
      var item := FindItem(quiz.items, sub.itemId);
      if item.None? {
        return NotFound;
      }
      var savedRows, savedNext := attempts, next;
      var id := Insert(Placeholder(sub.user, quiz.course, Some(quizId), sub.itemId, item.value.concept, sub.answer));
      assert Contents() == WithPlaceholder(old(Contents()), quizId, sub);
      result := EvaluateAnswer(id, sub);
      FailsIff(WithPlaceholder(old(Contents()), quizId, sub), id, sub);
      if result.RequestFailed? {
        attempts, next := savedRows, savedNext;
      }
    }
  }

  lemma FailsIff(s: Store, id: Id, sub: Submission)
    ensures ResultOf(s, id, sub).RequestFailed? <==> Fails(s, id, sub)
    ensures Fails(s, id, sub) ==> Evaluated(s, id, sub) == s
  {
    hide Scored;
  }

  /** What the caller is told: the row that was graded and its grade, or why there is none. */
  ghost function ResultOf(s: Store, id: Id, sub: Submission): Result {
    if !CanEvaluate(s, id, sub) then NotFound
    else
      var o := OutcomeOf(s, id, sub);
      var notes := if s.attempts[id].rubric != [] then [Regrade] else [];
      if o.Raised? then RequestFailed
      else if o.Ungraded? then Assessed(TargetId(s, id), None, [], [], None, notes + [o.reason])
      else Assessed(TargetId(s, id), Some(o.score), o.rubric, o.misconceptions, Some(KindOf(o.score)),
                    notes + (if o.dropped then [MisconceptionDropped] else []))
  }

  ghost function SubmitResult(s: Store, quizId: Id, sub: Submission): Result {
    if CanSubmit(s, quizId, sub) then ResultOf(WithPlaceholder(s, quizId, sub), s.next, sub) else NotFound
  }

  // ----- Runs ------------------------------------------------------------------------------------------

  datatype Op =
    | Generate(user: Id, course: Id, source: Source, brief: Brief, requested: nat)
    | Submit(quiz: Id, sub: Submission)
    | Evaluate(attempt: Id, sub: Submission)

  ghost function Step(s: Store, op: Op): Store {
    match op
    case Generate(user, course, source, brief, requested) => Generated(s, user, course, source, brief, requested)
    case Submit(quiz, sub) => Submitted(s, quiz, sub)
    case Evaluate(attempt, sub) => Evaluated(s, attempt, sub)
  }

  ghost function Run(s: Store, ops: seq<Op>): Store
    decreases |ops|
  {
    if ops == [] then s else Run(Step(s, ops[0]), ops[1..])
  }

  /** Row ids are never reused. */
  ghost predicate FreshIds(s: Store) {
    forall id :: id in s.attempts ==> id < s.next
  }

  predicate HoldsGrade(s: Store, id: Id) {
    id in s.attempts && s.attempts[id].rubric != []
  }

  /** Graded rows and the log survive unchanged. */
  ghost predicate Preserves(s: Store, t: Store) {
    && (forall id :: HoldsGrade(s, id) ==> HoldsGrade(t, id) && t.attempts[id] == s.attempts[id])
    && s.events <= t.events && s.next <= t.next
  }

  lemma EvaluatePreserves(s: Store, id: Id, sub: Submission)
    requires FreshIds(s)
    ensures Preserves(s, Evaluated(s, id, sub)) && FreshIds(Evaluated(s, id, sub))
  {
    hide Scored;
  }

  lemma PlaceholderPreserves(s: Store, quiz: Id, sub: Submission)
    requires FreshIds(s) && CanSubmit(s, quiz, sub)
    ensures Preserves(s, WithPlaceholder(s, quiz, sub)) && FreshIds(WithPlaceholder(s, quiz, sub))
    ensures CanEvaluate(WithPlaceholder(s, quiz, sub), s.next, sub)
  {
  }

  lemma StepPreserves(s: Store, op: Op)
    requires FreshIds(s)
    ensures Preserves(s, Step(s, op)) && FreshIds(Step(s, op))
  {
    hide Evaluated;
    match op
    case Generate(_, _, _, _, _) =>
    case Submit(quiz, sub) =>
      if CanSubmit(s, quiz, sub) {
        PlaceholderPreserves(s, quiz, sub);
        EvaluatePreserves(WithPlaceholder(s, quiz, sub), s.next, sub);
      }
    case Evaluate(attempt, sub) => EvaluatePreserves(s, attempt, sub);
  }

  /** A recorded grade is never edited or deleted, and the log only grows. */
  lemma {:induction false} GradesNeverChange(s: Store, ops: seq<Op>)
    requires FreshIds(s)
    ensures Preserves(s, Run(s, ops)) && FreshIds(Run(s, ops))
    decreases |ops|
  {
    if ops != [] {
      StepPreserves(s, ops[0]);
      GradesNeverChange(Step(s, ops[0]), ops[1..]);
      hide Step, Run;
    }
  }

  // ----- One event per grade ------------------------------------------------------------------------

  ghost predicate ItemsHaveCriteria(s: Store) {
    forall q, item :: q in s.quizzes && item in s.quizzes[q].items ==> item.rubric != []
  }

  /** The event's row holds the very grade the event reports. */
  ghost predicate Carries(s: Store, e: Event) {
    && HoldsGrade(s, e.attempt)
    && s.attempts[e.attempt].score == e.mastery && 0.0 <= e.mastery <= 1.0
    && s.attempts[e.attempt].user == e.user && s.attempts[e.attempt].course == e.course
    && (e.kind == ConceptStruggled <==> e.mastery < STRUGGLE_THRESHOLD)
  }

  ghost predicate Logged(s: Store, id: Id) {
    exists i :: 0 <= i < |s.events| && s.events[i].attempt == id
  }

  /** Events and graded rows are in bijection, and each event carries its row's grade. */
  ghost predicate Tallied(s: Store) {
    && (forall i, j :: 0 <= i < j < |s.events| ==> s.events[i].attempt != s.events[j].attempt)
    && (forall i :: 0 <= i < |s.events| ==> Carries(s, s.events[i]))
    && (forall id :: HoldsGrade(s, id) ==> Logged(s, id))
  }

  ghost predicate Inv(s: Store) {
    FreshIds(s) && ItemsHaveCriteria(s) && Tallied(s)
  }

  lemma {:induction false} FoundIsMember(items: seq<QuizItem>, id: string)
    requires Find(items, id).Some?
    ensures Find(items, id).value in items && Find(items, id).value.id == id
  {
    if items[0].id != id {
      FoundIsMember(items[1..], id);
    }
  }

  /** The same rows elsewhere, the same log. */
  lemma TallyFollowsRows(s: Store, t: Store)
    requires Tallied(s) && t.events == s.events
    requires forall id :: HoldsGrade(t, id) ==> HoldsGrade(s, id)
    requires forall id :: HoldsGrade(s, id) ==> HoldsGrade(t, id) && t.attempts[id] == s.attempts[id]
    ensures Tallied(t)
  {
    forall id | HoldsGrade(t, id) ensures Logged(t, id) {
      assert Logged(s, id);
    }
  }

  lemma TallyGrows(s: Store, t: Store, e: Event)
    requires Tallied(s) && !HoldsGrade(s, e.attempt) && t.events == s.events + [e]
    requires Carries(t, e)
    requires forall id :: id != e.attempt && HoldsGrade(t, id) ==> HoldsGrade(s, id)
    requires forall id :: id != e.attempt && HoldsGrade(s, id) ==> HoldsGrade(t, id) && t.attempts[id] == s.attempts[id]
    ensures Tallied(t)
  {
    forall i | 0 <= i < |s.events| ensures Carries(t, t.events[i]) && t.events[i].attempt != e.attempt {
      assert Carries(s, s.events[i]);
    }
    forall id | HoldsGrade(t, id) ensures Logged(t, id) {
      if id == e.attempt {
        assert t.events[|s.events|].attempt == id;
      } else {
        var i :| 0 <= i < |s.events| && s.events[i].attempt == id;
        assert t.events[i].attempt == id;
      }
    }
  }

  lemma EvaluateKeepsInv(s: Store, id: Id, sub: Submission)
    requires Inv(s)
    ensures Inv(Evaluated(s, id, sub))
  {
    EvaluatePreserves(s, id, sub);
    if CanEvaluate(s, id, sub) {
      var t, o, target := Evaluated(s, id, sub), OutcomeOf(s, id, sub), TargetId(s, id);
      var item, quiz := ItemFor(s, s.attempts[id], sub.itemId).value, QuizOfAttempt(s, s.attempts[id]).value;
      FoundIsMember(quiz.items, sub.itemId);
      hide Scored, Tallied;
      if !o.Graded? {
        TallyFollowsRows(s, t);
      } else {
        GradedRubricIff(item, sub, CitationSet(item) * quiz.citations);
        ScoreInUnit(item, sub, CitationSet(item) * quiz.citations);
        TallyGrows(s, t, EventOf(TargetRow(s, id, sub.answer), target, item, sub, o.score));
      }
    }
  }

  lemma PlaceholderKeepsInv(s: Store, quiz: Id, sub: Submission)
    requires Inv(s) && CanSubmit(s, quiz, sub)
    ensures Inv(WithPlaceholder(s, quiz, sub))
  {
    hide Tallied;
    TallyFollowsRows(s, WithPlaceholder(s, quiz, sub));
  }

  lemma GenerateKeepsInv(s: Store, user: Id, course: Id, source: Source, brief: Brief, requested: nat)
    requires Inv(s)
    ensures Inv(Generated(s, user, course, source, brief, requested))
  {
    var t := Generated(s, user, course, source, brief, requested);
    var items := DraftItems(source, brief, requested);
    if source.Parsed? {
      QuizIsGrounded(source.raws, brief, requested);
    }
    assert forall item :: item in items ==> item.rubric != [];
    hide Tallied, DraftItems;
    TallyFollowsRows(s, t);
  }

  lemma StepKeepsInv(s: Store, op: Op)
    requires Inv(s)
    ensures Inv(Step(s, op))
  {
    hide Evaluated, Generated, Inv;
    match op
    case Generate(user, course, source, brief, requested) =>
      GenerateKeepsInv(s, user, course, source, brief, requested);
    case Submit(quiz, sub) =>
      if CanSubmit(s, quiz, sub) {
        PlaceholderKeepsInv(s, quiz, sub);
        EvaluateKeepsInv(WithPlaceholder(s, quiz, sub), s.next, sub);
      }
    case Evaluate(attempt, sub) => EvaluateKeepsInv(s, attempt, sub);
  }

  lemma {:induction false} RunKeepsInv(s: Store, ops: seq<Op>)
    requires Inv(s)
    ensures Inv(Run(s, ops))
    decreases |ops|
  {
    hide Inv, Step;
    if ops != [] {
      StepKeepsInv(s, ops[0]);
      RunKeepsInv(Step(s, ops[0]), ops[1..]);
    }
  }

  const EMPTY := Store(map[], map[], [], 0)

  ghost predicate NoPlaceholders(s: Store) {
    forall id :: id in s.attempts ==> HoldsGrade(s, id)
  }

  lemma StepLeavesNoPlaceholder(s: Store, op: Op)
    requires Inv(s) && NoPlaceholders(s)
    ensures NoPlaceholders(Step(s, op))
  {
    match op
    case Generate(_, _, _, _, _) =>
    case Submit(quiz, sub) =>
      if CanSubmit(s, quiz, sub) && !Fails(WithPlaceholder(s, quiz, sub), s.next, sub) {
        PlaceholderKeepsInv(s, quiz, sub);
        hide Inv, Scored;
        EvaluationSettles(WithPlaceholder(s, quiz, sub), s.next, sub);
      }
    case Evaluate(attempt, sub) =>
      hide Inv, Scored;
      EvaluationSettles(s, attempt, sub);
  }

  /** Evaluating the only row without a grade leaves none. */
  lemma EvaluationSettles(s: Store, id: Id, sub: Submission)
    requires Inv(s) && forall other :: other in s.attempts && other != id ==> HoldsGrade(s, other)
    requires (CanEvaluate(s, id, sub) && !Fails(s, id, sub)) || NoPlaceholders(s)
    ensures NoPlaceholders(Evaluated(s, id, sub))
  {
    hide Scored, Tallied;
    if CanEvaluate(s, id, sub) && OutcomeOf(s, id, sub).Graded? {
      var item, quiz := ItemFor(s, s.attempts[id], sub.itemId).value, QuizOfAttempt(s, s.attempts[id]).value;
      FoundIsMember(quiz.items, sub.itemId);
      GradedRubricIff(item, sub, CitationSet(item) * quiz.citations);
    }
  }

  lemma {:induction false} RunLeavesNoPlaceholder(s: Store, ops: seq<Op>)
    requires Inv(s) && NoPlaceholders(s)
    ensures Inv(Run(s, ops)) && NoPlaceholders(Run(s, ops))
    decreases |ops|
  {
    hide Inv, NoPlaceholders, Step;
    if ops != [] {
      StepKeepsInv(s, ops[0]);
      StepLeavesNoPlaceholder(s, ops[0]);
      RunLeavesNoPlaceholder(Step(s, ops[0]), ops[1..]);
    }
  }

  /**
    Whatever is generated, submitted and re-evaluated, with whatever scoring outcomes: every row holds
    a grade, and exactly one event reports it, with the row's own score, user and course.
   */
  lemma EveryRowHasItsEvent(ops: seq<Op>)
    ensures var s := Run(EMPTY, ops);
            && (forall id :: id in s.attempts ==> HoldsGrade(s, id) && Logged(s, id))
            && (forall i :: 0 <= i < |s.events| ==> Carries(s, s.events[i]))
            && (forall i, j :: 0 <= i < j < |s.events| ==> s.events[i].attempt != s.events[j].attempt)
  {
    RunLeavesNoPlaceholder(EMPTY, ops);
    hide Run;
  }

  // ----- One request ---------------------------------------------------------------------------------

  /** A failed scoring leaves neither a row nor an event. */
  lemma FailedScoringLeavesNothing(s: Store, id: Id, sub: Submission)
    requires FreshIds(s) && CanEvaluate(s, id, sub) && OutcomeOf(s, id, sub).Ungraded?
    ensures Evaluated(s, id, sub).events == s.events
    ensures Evaluated(s, id, sub).attempts == if HoldsGrade(s, id) then s.attempts else s.attempts - {id}
  {
    hide Scored;
    assert s.next !in s.attempts;
  }

  lemma FailedSubmissionLeavesNothing(s: Store, quiz: Id, sub: Submission)
    requires FreshIds(s) && CanSubmit(s, quiz, sub)
    requires OutcomeOf(WithPlaceholder(s, quiz, sub), s.next, sub).Ungraded?
    ensures Submitted(s, quiz, sub) == s.(next := s.next + 1)
  {
    hide Scored;
    PlaceholderPreserves(s, quiz, sub);
    FailedScoringLeavesNothing(WithPlaceholder(s, quiz, sub), s.next, sub);
    assert WithPlaceholder(s, quiz, sub).attempts - {s.next} == s.attempts;
  }

  /** A grade goes into one row and one event; a row already graded is answered by a new one. */
  lemma GradingAddsOneEvent(s: Store, id: Id, sub: Submission)
    requires FreshIds(s) && CanEvaluate(s, id, sub) && OutcomeOf(s, id, sub).Graded?
    ensures var t, o := Evaluated(s, id, sub), OutcomeOf(s, id, sub);
            && |t.events| == |s.events| + 1 && t.events[..|s.events|] == s.events
            && var e := t.events[|s.events|];
            && (e.attempt == id <==> !HoldsGrade(s, id)) && e.mastery == o.score && e.user == sub.user
            && t.attempts.Keys == s.attempts.Keys + {e.attempt}
            && (forall other :: other in s.attempts && other != e.attempt ==> t.attempts[other] == s.attempts[other])
            && t.attempts[e.attempt].score == o.score && t.attempts[e.attempt].rubric == o.rubric
            && t.attempts[e.attempt].answer == sub.answer && t.attempts[e.attempt].itemId == s.attempts[id].itemId
  {
    hide Scored;
    assert s.next !in s.attempts;
  }

  predicate Acts(op: Op, user: Id) {
    match op
    case Generate(u, _, _, _, _) => u == user
    case Submit(_, sub) => sub.user == user
    case Evaluate(_, sub) => sub.user == user
  }

  /** Nobody's request changes another user's rows. */
  lemma OnlyOwnRowsChange(s: Store, op: Op, id: Id)
    requires FreshIds(s) && id in s.attempts && !Acts(op, s.attempts[id].user)
    ensures id in Step(s, op).attempts && Step(s, op).attempts[id] == s.attempts[id]
  {
    hide Scored;
  }

  /**
    The guard against editing a recorded grade looks at the rubric, so it protects a freshly recorded
    grade against every later run exactly when the item has criteria.
   */
  lemma GradeIsSafeIff(s: Store, id: Id, sub: Submission)
    requires FreshIds(s) && CanEvaluate(s, id, sub) && !HoldsGrade(s, id) && OutcomeOf(s, id, sub).Graded?
    ensures ItemFor(s, s.attempts[id], sub.itemId).value.rubric != []
       <==> forall ops :: RowSurvives(Evaluated(s, id, sub), id, ops)
  {
    var item, quiz := ItemFor(s, s.attempts[id], sub.itemId).value, QuizOfAttempt(s, s.attempts[id]).value;
    var t := Evaluated(s, id, sub);
    EvaluatePreserves(s, id, sub);
    GradedRubricIff(item, sub, CitationSet(item) * quiz.citations);
    if item.rubric != [] {
      forall ops ensures RowSurvives(t, id, ops) {
        GradesNeverChange(t, ops);
      }
    } else {
      var again := Submission(sub.user, sub.itemId, if sub.answer == "" then " " else "", sub.reading, Unavailable);
      assert CanEvaluate(t, id, again);
      assert Run(t, [Evaluate(id, again)]) == Evaluated(t, id, again) by {
        assert [Evaluate(id, again)][1..] == [];
      }
      assert !Raises(again.reading, again.answer);
      assert again.answer != sub.answer;
      assert !RowSurvives(t, id, [Evaluate(id, again)]);
    }
  }

  ghost predicate RowSurvives(s: Store, id: Id, ops: seq<Op>)
    requires id in s.attempts
  {
    id in Run(s, ops).attempts && Run(s, ops).attempts[id] == s.attempts[id]
  }

  /** An event names the item of its own row exactly when the request named that item. */
  lemma EventNamesRowsItemIff(s: Store, id: Id, sub: Submission)
    requires FreshIds(s) && CanEvaluate(s, id, sub) && OutcomeOf(s, id, sub).Graded?
    ensures var t := Evaluated(s, id, sub);
            var e := t.events[|s.events|];
            t.attempts[e.attempt].itemId == e.itemId <==> s.attempts[id].itemId == sub.itemId
  {
    hide Scored;
  }

  /**
    An answer makes the request fail exactly when a multiple-choice item is answered with digits from
    which no integer is read; then neither a row nor an event is left, nor an id used.
   */
  lemma RequestFailsIff(s: Store, quiz: Id, sub: Submission)
    requires CanSubmit(s, quiz, sub)
    ensures var item := Find(s.quizzes[quiz].items, sub.itemId).value;
            Fails(WithPlaceholder(s, quiz, sub), s.next, sub)
            <==> item.kind.MultipleChoice? && item.correctIndex.Some? && Raises(sub.reading, sub.answer)
    ensures Fails(WithPlaceholder(s, quiz, sub), s.next, sub) ==> Submitted(s, quiz, sub) == s
  {
    hide NamedOption, AnswersRubric;
  }

  // ----- Which item an event names -----------------------------------------------------------------

  /** Every event names the item of the row it grades. */
  ghost predicate Aligned(s: Store) {
    forall i :: 0 <= i < |s.events| ==> AlignedEvent(s, s.events[i])
  }

  ghost predicate AlignedEvent(s: Store, e: Event) {
    e.attempt in s.attempts && s.attempts[e.attempt].itemId == e.itemId
  }

  /** A re-evaluation that is graded against another item than the one its attempt was made for. */
  ghost predicate Misdirected(s: Store, op: Op) {
    && op.Evaluate? && CanEvaluate(s, op.attempt, op.sub) && OutcomeOf(s, op.attempt, op.sub).Graded?
    && s.attempts[op.attempt].itemId != op.sub.itemId
  }

  ghost predicate AnyMisdirected(s: Store, ops: seq<Op>)
    decreases |ops|
  {
    ops != [] && (Misdirected(s, ops[0]) || AnyMisdirected(Step(s, ops[0]), ops[1..]))
  }

  /** Events already logged stay as aligned as they are: their rows never change. */
  lemma LoggedStaysAligned(s: Store, t: Store)
    requires Tallied(s) && Preserves(s, t)
    ensures forall i :: 0 <= i < |s.events| ==>
      t.events[i] == s.events[i] && (AlignedEvent(t, s.events[i]) <==> AlignedEvent(s, s.events[i]))
  {
    forall i | 0 <= i < |s.events|
      ensures t.events[i] == s.events[i] && (AlignedEvent(t, s.events[i]) <==> AlignedEvent(s, s.events[i])) {
      assert Carries(s, s.events[i]);
    }
  }

  lemma EvaluateAlignedIff(s: Store, id: Id, sub: Submission)
    requires Inv(s) && Aligned(s)
    ensures Aligned(Evaluated(s, id, sub)) <==> !Misdirected(s, Evaluate(id, sub))
  {
    var t := Evaluated(s, id, sub);
    EvaluatePreserves(s, id, sub);
    LoggedStaysAligned(s, t);
    if CanEvaluate(s, id, sub) && OutcomeOf(s, id, sub).Graded? {
      EventNamesRowsItemIff(s, id, sub);
      hide Scored, Inv;
      assert t.events == s.events + [t.events[|s.events|]];
      assert AlignedEvent(t, t.events[|s.events|]) <==> s.attempts[id].itemId == sub.itemId;
    } else {
      hide Scored, Inv;
      assert t.events == s.events;
    }
  }

  lemma StepAlignedIff(s: Store, op: Op)
    requires Inv(s) && Aligned(s)
    ensures Aligned(Step(s, op)) <==> !Misdirected(s, op)
  {
    match op
    case Generate(_, _, _, _, _) =>
      StepPreserves(s, op);
      LoggedStaysAligned(s, Step(s, op));
    case Submit(quiz, sub) =>
      if CanSubmit(s, quiz, sub) && !Fails(WithPlaceholder(s, quiz, sub), s.next, sub) {
        var placed := WithPlaceholder(s, quiz, sub);
        PlaceholderPreserves(s, quiz, sub);
        PlaceholderKeepsInv(s, quiz, sub);
        LoggedStaysAligned(s, placed);
        hide Evaluated, Inv, OutcomeOf;
        EvaluateAlignedIff(placed, s.next, sub);
      }
    case Evaluate(attempt, sub) =>
      hide Evaluated, Inv, OutcomeOf;
      EvaluateAlignedIff(s, attempt, sub);
  }

  /** Over any run, every event names its row's item exactly when no re-evaluation was misdirected. */
  lemma {:induction false} RunAlignedIff(s: Store, ops: seq<Op>)
    requires Inv(s) && Aligned(s)
    ensures Aligned(Run(s, ops)) <==> !AnyMisdirected(s, ops)
    decreases |ops|
  {
    if ops != [] {
      var next := Step(s, ops[0]);
      StepAlignedIff(s, ops[0]);
      StepKeepsInv(s, ops[0]);
      if Aligned(next) {
        RunAlignedIff(next, ops[1..]);
      } else {
        GradesNeverChange(next, ops[1..]);
        LoggedStaysAligned(next, Run(next, ops[1..]));
      }
    }
  }

  /** From nothing: which runs keep every event on its row's item. */
  lemma EventsNameRowsItemsIff(ops: seq<Op>)
    ensures Aligned(Run(EMPTY, ops)) <==> !AnyMisdirected(EMPTY, ops)
  {
    RunAlignedIff(EMPTY, ops);
  }

  // ----- A misdirected run -----------------------------------------------------------------------------

  const PLAIN_ITEM := RawItem(
    ItemType.MultipleChoice, "Which?", ["a", "b", "c", "d"], [0], None, None, ["c1"], None, None)

  const PLAIN_BRIEF := Brief({ItemType.MultipleChoice}, {"c1"}, {}, map[], (s: string) => s)

  /** A quiz of two items, an answer to the first, and its re-evaluation against the second. */
  function MisdirectedRun(): seq<Op> {
    [ Generate(7, 1, Parsed([PLAIN_ITEM, PLAIN_ITEM]), PLAIN_BRIEF, 2),
      Submit(0, Submission(7, ItemId(1), "", PLAIN_READER, Unavailable)),
      Evaluate(1, Submission(7, ItemId(2), "", PLAIN_READER, Unavailable)) ]
  }

  lemma PlainQuiz()
    ensures var items := QuizOf([PLAIN_ITEM, PLAIN_ITEM], PLAIN_BRIEF, 2);
            && |items| == 2 && items[0].id == ItemId(1) && items[1].id == ItemId(2) && ItemId(1) != ItemId(2)
            && (forall item :: item in items ==> item.kind.MultipleChoice?)
  {
    var raws := [PLAIN_ITEM, PLAIN_ITEM];
    assert "c1" in PLAIN_ITEM.citations;
    assert Acceptable(PLAIN_ITEM, PLAIN_BRIEF);
    var content := Content(PLAIN_ITEM, PLAIN_BRIEF);
    assert raws == [PLAIN_ITEM] + [PLAIN_ITEM];
    hide Acceptable, Content;
    MapSomeConcat(Kept(PLAIN_BRIEF), [PLAIN_ITEM], [PLAIN_ITEM]);
    MapSomeOne(Kept(PLAIN_BRIEF), PLAIN_ITEM);
    QuizIsGrounded(raws, PLAIN_BRIEF, 2);
    assert MapSome(Kept(PLAIN_BRIEF), raws) == [content, content];
    assert content.kind == PLAIN_ITEM.kind by { assert Content(PLAIN_ITEM, PLAIN_BRIEF).kind == PLAIN_ITEM.kind; }
  }

  lemma BlankIsGraded(item: QuizItem, sub: Submission, available: set<string>)
    requires item.kind.MultipleChoice? && sub.answer == "" && sub.reading == PLAIN_READER
    ensures Scored(item, sub, available).Graded?
  {
  }

  /** Its second event names the second item, and its row the first. */
  lemma MisdirectedRunIsNotAligned()
    ensures !Aligned(Run(EMPTY, MisdirectedRun()))
  {
    var ops := MisdirectedRun();
    var items := QuizOf([PLAIN_ITEM, PLAIN_ITEM], PLAIN_BRIEF, 2);
    PlainQuiz();
    hide QuizOf, ItemId, Scored;
    var s := Step(EMPTY, ops[0]);
    assert s.quizzes[0].items == items && s.next == 1 && s.attempts == map[];
    assert Find(items, ItemId(1)) == Some(items[0]) && Find(items, ItemId(2)) == Some(items[1]) by {
      assert items[1..][0] == items[1];
    }
    var first, second := ops[1].sub, ops[2].sub;
    var placed := WithPlaceholder(s, 0, first);
    BlankIsGraded(items[0], first, CitationSet(items[0]) * s.quizzes[0].citations);
    assert OutcomeOf(placed, 1, first).Graded?;
    var t := Step(s, ops[1]);
    assert t == Evaluated(placed, 1, first);
    assert t.attempts[1].itemId == ItemId(1) && t.attempts[1].user == 7 && t.attempts[1].quiz == Some(0);
    assert t.quizzes == s.quizzes;
    BlankIsGraded(items[1], second, CitationSet(items[1]) * s.quizzes[0].citations);
    assert Misdirected(t, ops[2]);
    assert ops[1..][0] == ops[1] && ops[1..][1..][0] == ops[2];
    hide Evaluated, OutcomeOf, CanEvaluate, Misdirected;
    assert AnyMisdirected(t, ops[1..][1..]);
    assert AnyMisdirected(s, ops[1..]);
    EventsNameRowsItemsIff(ops);
  }
}
