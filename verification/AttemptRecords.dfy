/**
  What one request leaves in the tables and tells its caller, field by field: the row, the event, the
  per-criterion scores and the notes.
 */
module AttemptRecords {
  import opened Base
  import opened RealMath
  import opened Grading
  import opened QuizItems
  import opened MultipleChoice
  import opened AttemptStore

  // ----- Which requests are answered ------------------------------------------------------------

  ghost predicate HasItem(items: seq<QuizItem>, id: string) {
    exists i :: 0 <= i < |items| && items[i].id == id
  }

  /** The first item of that id. */
  lemma {:induction false} FindIs(items: seq<QuizItem>, id: string)
    ensures Find(items, id).Some? <==> HasItem(items, id)
    ensures Find(items, id).Some? ==> exists i :: 0 <= i < |items| && items[i] == Find(items, id).value && items[i].id == id
  {
    if items != [] {
      FindIs(items[1..], id);
      assert forall i :: 1 <= i < |items| ==> items[i] == items[1..][i - 1];
      if items[0].id == id {
        assert HasItem(items, id);
      } else if HasItem(items, id) {
        var i :| 0 <= i < |items| && items[i].id == id;
        assert items[1..][i - 1].id == id;
      }
    }
  }

  /** The caller of a submission is told "not found" exactly without a quiz of their own with that item. */
  lemma SubmitNotFoundIff(s: Store, quiz: Id, sub: Submission)
    ensures SubmitResult(s, quiz, sub).NotFound? <==>
      !(quiz in s.quizzes && s.quizzes[quiz].owner == sub.user && HasItem(s.quizzes[quiz].items, sub.itemId))
    ensures SubmitResult(s, quiz, sub).NotFound? ==> Submitted(s, quiz, sub) == s
  {
    if quiz in s.quizzes {
      FindIs(s.quizzes[quiz].items, sub.itemId);
    }
    if CanSubmit(s, quiz, sub) {
      hide Scored, Find;
      assert CanEvaluate(WithPlaceholder(s, quiz, sub), s.next, sub);
    }
  }

  /** The caller of an evaluation, exactly without an attempt of their own on a quiz with that item. */
  lemma EvaluateNotFoundIff(s: Store, id: Id, sub: Submission)
    ensures ResultOf(s, id, sub).NotFound? <==>
      !(&& id in s.attempts && s.attempts[id].user == sub.user && s.attempts[id].quiz.Some?
        && s.attempts[id].quiz.value in s.quizzes && HasItem(s.quizzes[s.attempts[id].quiz.value].items, sub.itemId))
    ensures ResultOf(s, id, sub).NotFound? ==> Evaluated(s, id, sub) == s
  {
    if id in s.attempts && s.attempts[id].quiz.Some? && s.attempts[id].quiz.value in s.quizzes {
      FindIs(s.quizzes[s.attempts[id].quiz.value].items, sub.itemId);
    }
    hide Scored;
  }

  /** A generated quiz can be answered by its owner, item by item, and by nobody else. */
  lemma GeneratedIsAnswerable(s: Store, user: Id, course: Id, raws: seq<RawItem>, brief: Brief, n: nat, sub: Submission)
    ensures var t := Step(s, Generate(user, course, Parsed(raws), brief, n));
            && (SubmitResult(t, s.next, sub).NotFound? <==>
                  !(sub.user == user && HasItem(QuizOf(raws, brief, n), sub.itemId)))
            && s.next in t.quizzes && t.quizzes[s.next].course == course && t.quizzes[s.next].citations == brief.offered
            && (forall q :: q in s.quizzes && q != s.next ==> q in t.quizzes && t.quizzes[q] == s.quizzes[q])
            && t.attempts == s.attempts && t.events == s.events && t.next == s.next + 1
  {
    var t := Step(s, Generate(user, course, Parsed(raws), brief, n));
    SubmitNotFoundIff(t, s.next, sub);
    hide QuizOf, SubmitResult;
  }

  /** A generation that brought nothing is stored as a quiz that nobody can answer. */
  lemma FailedGenerationIsEmpty(s: Store, user: Id, course: Id, source: Source, brief: Brief, n: nat, sub: Submission)
    requires !source.Parsed?
    ensures var t := Step(s, Generate(user, course, source, brief, n));
            && t.quizzes == s.quizzes[s.next := Quiz(user, course, [], {})]
            && t.attempts == s.attempts && t.events == s.events && t.next == s.next + 1
            && SubmitResult(t, s.next, sub).NotFound?
  {
    SubmitNotFoundIff(Step(s, Generate(user, course, source, brief, n)), s.next, sub);
    hide SubmitResult;
  }

  // ----- What a scoring outcome says ---------------------------------------------------------------

  /** The score of a multiple-choice answer goes to every criterion of its item, under its own weight. */
  lemma OptionScoresEachCriterion(item: QuizItem, sub: Submission, available: set<string>)
    requires item.kind.MultipleChoice? && Scored(item, sub, available).Graded?
    ensures var o := Scored(item, sub, available);
            && Some(o.score) == OptionScore(item, sub.reading, sub.answer) && o.misconceptions == [] && !o.dropped
            && |o.rubric| == |item.rubric|
            && forall i :: 0 <= i < |item.rubric| ==>
                 o.rubric[i] == RubricScore(item.rubric[i].name, item.rubric[i].weight, o.score, DETERMINISTIC)
  {
    var score := OptionScore(item, sub.reading, sub.answer).value;
    MapAllMembers((c: Criterion) => RubricScore(c.name, c.weight, score, DETERMINISTIC), item.rubric);
  }

  /** Why a free-text answer is not graded: no model, no parse, or answers that do not match the rubric. */
  lemma UngradedIff(item: QuizItem, sub: Submission, available: set<string>)
    requires !item.kind.MultipleChoice?
    ensures var o := Scored(item, sub, available);
            && (o == Ungraded(ModelUnavailable) <==> sub.reply.Unavailable?)
            && (o == Ungraded(ModelMalformed) <==> sub.reply.Malformed?)
            && (o == Ungraded(IncompleteRubric) <==>
                  sub.reply.Answers? && !AnswersRubric(item.rubric, sub.reply.criteria))
            && (o.Graded? <==> sub.reply.Answers? && AnswersRubric(item.rubric, sub.reply.criteria))
  {
    hide AnswersRubric;
  }

  /** A graded free-text answer drops a misconception exactly when one is malformed or cites nothing available. */
  lemma DroppedIff(item: QuizItem, sub: Submission, available: set<string>)
    requires !item.kind.MultipleChoice? && Scored(item, sub, available).Graded?
    ensures Scored(item, sub, available).dropped <==>
      exists m :: m in sub.reply.misconceptions && (!m.wellFormed || forall c :: c in m.citations ==> c !in available)
  {
    hide AnswersRubric;
    forall m: Reported ensures IsDropped(m, available) <==> !m.wellFormed || forall c :: c in m.citations ==> c !in available {
      FilterIs(c => c in available, m.citations);
      if Grounding(m, available) != [] {
        assert Grounding(m, available)[0] in Grounding(m, available);
      }
    }
  }

  /**
    A graded free-text answer: each criterion of the item has the model's answer to it on record, and the
    grade is the rounded value at which those scores balance under the item's weights.
   */
  lemma FreeTextOutcome(item: QuizItem, sub: Submission, available: set<string>, m: real)
    requires !item.kind.MultipleChoice? && Scored(item, sub, available).Graded?
    requires SoundRubric(item.rubric) && DistinctCriteria(item.rubric)
    ensures var o := Scored(item, sub, available);
            && |o.rubric| == |item.rubric|
            && (forall i :: 0 <= i < |item.rubric| ==>
                  exists c :: c in sub.reply.criteria && RecordsAnswer(o.rubric[i], item.rubric[i], c))
            && (Balance(MapAll(MarkOf, o.rubric), m) == 0.0 ==> o.score == Round6(m))
            && o.misconceptions == MapSome(Grounded(available), sub.reply.misconceptions)
  {
    var rubric, criteria := item.rubric, sub.reply.criteria;
    assert AnswersRubric(rubric, criteria) && Scored(item, sub, available).score == GradeOf(rubric, criteria);
    assert Scored(item, sub, available).rubric == ScoresOf(rubric, criteria);
    hide Scored, ScoresOf, AnswersRubric, ComputeTotal, Balance, RecordsAnswer;
    EachRecorded(rubric, criteria);
    ScoresAreWeighed(rubric, criteria);
    if Balance(MapAll(MarkOf, ScoresOf(rubric, criteria)), m) == 0.0 {
      TotalBalances(MapAll(MarkOf, ScoresOf(rubric, criteria)), m);
    }
  }

  lemma EachRecorded(rubric: seq<Criterion>, criteria: seq<Answered>)
    requires SoundRubric(rubric) && DistinctCriteria(rubric) && AnswersRubric(rubric, criteria)
    ensures var scores := ScoresOf(rubric, criteria);
            && |scores| == |rubric|
            && forall i :: 0 <= i < |rubric| ==> exists c :: c in criteria && RecordsAnswer(scores[i], rubric[i], c)
  {
    var scores := ScoresOf(rubric, criteria);
    ScoresFollowAnswers(rubric, criteria);
    OrderOfDistinct(rubric);
    hide ScoresOf, AnswersRubric, NameOrder, Expected;
    forall i | 0 <= i < |rubric| ensures exists c :: c in criteria && RecordsAnswer(scores[i], rubric[i], c) {
      assert scores[i] in scores;
      var c :| c in criteria && c.name == scores[i].name;
      var j :| 0 <= j < |criteria| && criteria[j] == c;
      RecordIs(rubric, criteria, i, j);
    }
  }

  lemma ScoresAreWeighed(rubric: seq<Criterion>, criteria: seq<Answered>)
    requires SoundRubric(rubric) && AnswersRubric(rubric, criteria)
    ensures Weighed(MapAll(MarkOf, ScoresOf(rubric, criteria)))
  {
    var scores := ScoresOf(rubric, criteria);
    ScoresFollowAnswers(rubric, criteria);
    MapAllMembers(MarkOf, scores);
    hide ScoresOf, AnswersRubric;
    forall mark | mark in MapAll(MarkOf, scores) ensures mark.weight > 0.0 {
      var i :| 0 <= i < |scores| && MarkOf(scores[i]) == mark;
      assert scores[i] in scores;
    }
  }

  // ----- What a graded request leaves ----------------------------------------------------------------

  /** The evidence a misconception may cite: the item's citations that its quiz offered. */
  ghost function Available(item: QuizItem, quiz: Quiz): set<string> {
    set c | c in item.citations && c in quiz.citations
  }

  /** Row and event of a graded answer, field by field. */
  ghost predicate Recorded(t: Store, e: Event, row: Attempt, item: QuizItem, sub: Submission, o: Outcome)
    requires o.Graded?
  {
    && row.user == sub.user && row.answer == sub.answer
    && row.score == o.score && row.rubric == o.rubric && row.misconceptions == o.misconceptions
    && e.user == sub.user && e.course == row.course && e.quiz == row.quiz
    && e.itemId == sub.itemId && e.concept == item.concept && e.mastery == o.score
    && (e.kind == if o.score < 0.5 then ConceptStruggled else AttemptMade)
  }

  ghost function ItemOf(s: Store, quiz: Id, sub: Submission): QuizItem
    requires CanSubmit(s, quiz, sub)
  {
    Find(s.quizzes[quiz].items, sub.itemId).value
  }

  lemma PlaceholderOutcome(s: Store, quiz: Id, sub: Submission)
    requires CanSubmit(s, quiz, sub)
    ensures CanEvaluate(WithPlaceholder(s, quiz, sub), s.next, sub)
    ensures OutcomeOf(WithPlaceholder(s, quiz, sub), s.next, sub)
         == Scored(ItemOf(s, quiz, sub), sub, Available(ItemOf(s, quiz, sub), s.quizzes[quiz]))
  {
    var item := ItemOf(s, quiz, sub);
    assert CitationSet(item) * s.quizzes[quiz].citations == Available(item, s.quizzes[quiz]);
    hide Scored, Find;
  }

  /** A graded submission: one new row on the quiz's own course and item, one new event, nothing else. */
  lemma SubmissionRecords(s: Store, quiz: Id, sub: Submission)
    requires FreshIds(s) && CanSubmit(s, quiz, sub)
    requires Scored(ItemOf(s, quiz, sub), sub, Available(ItemOf(s, quiz, sub), s.quizzes[quiz])).Graded?
    ensures var item := ItemOf(s, quiz, sub);
            var o := Scored(item, sub, Available(item, s.quizzes[quiz]));
            var t := Submitted(s, quiz, sub);
            && t.quizzes == s.quizzes && t.next == s.next + 1
            && s.next in t.attempts && t.attempts == s.attempts[s.next := t.attempts[s.next]]
            && |t.events| == |s.events| + 1 && t.events[..|s.events|] == s.events
            && var e, row := t.events[|s.events|], t.attempts[s.next];
            && Recorded(t, e, row, item, sub, o) && e.attempt == s.next
            && row.course == s.quizzes[quiz].course && row.quiz == Some(quiz)
            && row.itemId == sub.itemId && row.concept == item.concept
  {
    PlaceholderOutcome(s, quiz, sub);
    hide Scored, Find;
  }

  /** A graded re-evaluation of an answer that already holds a grade: the old row stays, and a new one repeats it with the new answer. */
  lemma RegradeRecords(s: Store, id: Id, sub: Submission)
    requires FreshIds(s) && CanEvaluate(s, id, sub) && OutcomeOf(s, id, sub).Graded? && HoldsGrade(s, id)
    ensures var t, o, was := Evaluated(s, id, sub), OutcomeOf(s, id, sub), s.attempts[id];
            var item := ItemFor(s, was, sub.itemId).value;
            && t.quizzes == s.quizzes && t.next == s.next + 1
            && s.next in t.attempts && t.attempts == s.attempts[s.next := t.attempts[s.next]]
            && |t.events| == |s.events| + 1 && t.events[..|s.events|] == s.events
            && var e, row := t.events[|s.events|], t.attempts[s.next];
            && Recorded(t, e, row, item, sub, o) && e.attempt == s.next
            && row.course == was.course && row.quiz == was.quiz && row.itemId == was.itemId && row.concept == was.concept
  {
    hide Scored, Find;
    assert s.next !in s.attempts;
  }

  // ----- What the caller is told ------------------------------------------------------------------------

  /** A grade that is reported is the one that was stored; without one no row is left. */
  lemma ResultReports(s: Store, id: Id, sub: Submission)
    requires FreshIds(s) && CanEvaluate(s, id, sub) && !OutcomeOf(s, id, sub).Raised?
    ensures var r, t, o := ResultOf(s, id, sub), Evaluated(s, id, sub), OutcomeOf(s, id, sub);
            && r.Assessed? && r.attempt == (if HoldsGrade(s, id) then s.next else id)
            && (Regrade in r.notes <==> HoldsGrade(s, id))
            && (r.score.Some? <==> o.Graded?) && (r.kind.Some? <==> o.Graded?)
            && (o.Graded? ==>
                  && r.attempt in t.attempts && t.attempts[r.attempt].score == r.score.value
                  && t.attempts[r.attempt].rubric == r.rubric && t.attempts[r.attempt].misconceptions == r.misconceptions
                  && t.events != [] && t.events[|t.events| - 1].kind == r.kind.value
                  && t.events[|t.events| - 1].attempt == r.attempt
                  && (MisconceptionDropped in r.notes <==> o.dropped))
            && (o.Ungraded? ==> r.attempt !in t.attempts && o.reason in r.notes && r.rubric == [] && r.misconceptions == [])
  {
    var item := ItemFor(s, s.attempts[id], sub.itemId).value;
    var available := CitationSet(item) * QuizOfAttempt(s, s.attempts[id]).value.citations;
    NoReasonIsRegrade(item, sub, available);
    hide Scored, Find;
    assert s.next !in s.attempts;
    var o, r := OutcomeOf(s, id, sub), ResultOf(s, id, sub);
    assert o == Scored(item, sub, available);
    if o.Ungraded? {
      assert r.notes[|r.notes| - 1] == o.reason;
    }
    if HoldsGrade(s, id) {
      assert r.notes[0] == Regrade;
    }
  }

  lemma NoReasonIsRegrade(item: QuizItem, sub: Submission, available: set<string>)
    ensures var o := Scored(item, sub, available);
            o.Ungraded? ==> o.reason != Regrade && o.reason != MisconceptionDropped
  {
    hide AnswersRubric, OptionScore;
  }
}
