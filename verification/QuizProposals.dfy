/**
  What a quiz keeps of the proposals it is made from: which of them, what of each, and that the answer
  key and the rubric reach the grade.
 */
module QuizProposals {
  import opened Base
  import opened RealMath
  import opened Grading
  import opened QuizItems
  import opened MultipleChoice

  // ----- Which proposals become which items ------------------------------------------------------

  /** A proposal that can become an item, told from its own fields. */
  ghost predicate Fit(raw: RawItem, brief: Brief) {
    && raw.kind in brief.allowed
    && (exists c :: c in raw.citations && c in brief.offered)
    && |brief.strip(raw.prompt)| <= 4000
    && match raw.kind
       case MultipleChoice => |raw.choices| == 4 && exists k :: 0 <= k < 4 && raw.correctIndices == [k]
       case ShortAnswer => raw.modelAnswer.Some? && raw.modelAnswer.value != ""
       case ConceptCheck => raw.correctBoolean.Some?
  }

  /** The item says what the proposal said, and its answer key is the proposal's. */
  ghost predicate MadeFrom(item: QuizItem, raw: RawItem, brief: Brief) {
    && item.kind == raw.kind && item.choices == raw.choices && item.modelAnswer == raw.modelAnswer
    && item.correctBoolean == raw.correctBoolean && item.justification == raw.justification
    && item.prompt == (if brief.strip(raw.prompt) == "" then "Untitled item" else brief.strip(raw.prompt))
    && (raw.kind.MultipleChoice? ==> item.correctIndex.Some? && raw.correctIndices == [item.correctIndex.value])
    && (forall c :: c in item.citations <==> c in raw.citations && c in brief.offered)
    && (item.concept.Some? <==>
          && raw.concept.Some? && raw.concept.value in brief.candidates
          && exists c :: c in item.citations && c in brief.linked && raw.concept.value in brief.linked[c])
    && (item.concept.Some? ==> item.concept == raw.concept)
    && item.rubric == (if raw.kind.MultipleChoice? then [Criterion("correct_option", 1.0)]
                       else [Criterion("correctness", 0.5), Criterion("reasoning", 0.3), Criterion("grounding", 0.2)])
  }

  lemma FitIff(raw: RawItem, brief: Brief)
    ensures Fit(raw, brief) <==> Acceptable(raw, brief)
  {
    assert |"Untitled item"| <= 4000;
    if raw.kind.MultipleChoice? && CorrectIndex(raw).Some? {
      assert raw.correctIndices == [raw.correctIndices[0]];
    }
  }

  lemma ContentIsMadeFrom(raw: RawItem, brief: Brief, id: string)
    requires Acceptable(raw, brief)
    ensures MadeFrom(Content(raw, brief).(id := id), raw, brief)
  {
    var citations := Citations(raw.citations, brief.offered);
    CitationsResolve(raw.citations, brief.offered);
    LinkedIff(raw.concept, citations, brief);
    hide Citations, Attached;
    if raw.kind.MultipleChoice? {
      assert raw.correctIndices == [raw.correctIndices[0]];
    }
  }

  lemma LinkedIff(concept: Option<ConceptId>, citations: seq<string>, brief: Brief)
    ensures Attached(concept, citations, brief) ==
      if concept.Some? && concept.value in brief.candidates
         && exists c :: c in citations && c in brief.linked && concept.value in brief.linked[c]
      then concept else None
  {
    if concept.Some? {
      var x := concept.value;
      if c :| c in citations && c in brief.linked && x in brief.linked[c] {
        var i :| 0 <= i < |citations| && citations[i] == c;
        assert x in LinkedTo(citations, brief.linked);
      }
      if x in LinkedTo(citations, brief.linked) {
        var i :| 0 <= i < |citations| && citations[i] in brief.linked && x in brief.linked[citations[i]];
        assert citations[i] in citations;
      }
    }
  }

  ghost predicate Picks(js: seq<nat>, raws: seq<RawItem>, brief: Brief) {
    && (forall a, b :: 0 <= a < b < |js| ==> js[a] < js[b])
    && (forall j: nat :: j in js <==> j < |raws| && Acceptable(raws[j], brief))
  }

  /** The kept items are the contents of the acceptable proposals, in order. */
  lemma {:induction false} KeptOnes(raws: seq<RawItem>, brief: Brief) returns (js: seq<nat>)
    ensures Picks(js, raws, brief) && |js| == |MapSome(Kept(brief), raws)|
    ensures forall i :: 0 <= i < |js| ==>
      js[i] < |raws| && MapSome(Kept(brief), raws)[i] == Content(raws[js[i]], brief)
    decreases |raws|
  {
    hide Acceptable, Content;
    if raws == [] {
      js := [];
    } else {
      var n := |raws| - 1;
      var front := KeptOnes(raws[..n], brief);
      OneMore(Kept(brief), raws, n);
      assert raws[..n + 1] == raws;
      js := if Acceptable(raws[n], brief) then front + [n] else front;
      PicksMore(front, raws, brief);
      hide Picks;
      forall i | 0 <= i < |front| ensures front[i] < n && raws[..n][front[i]] == raws[front[i]] {
        PicksAreBelow(front, raws[..n], brief, i);
      }
    }
  }

  lemma PicksAreBelow(js: seq<nat>, raws: seq<RawItem>, brief: Brief, i: nat)
    requires Picks(js, raws, brief) && i < |js|
    ensures js[i] < |raws|
  {
    assert js[i] in js;
  }

  lemma PicksMore(front: seq<nat>, raws: seq<RawItem>, brief: Brief)
    requires raws != [] && Picks(front, raws[..|raws| - 1], brief)
    ensures Picks(if Acceptable(raws[|raws| - 1], brief) then front + [|raws| - 1] else front, raws, brief)
  {
    hide Acceptable;
    var n := |raws| - 1;
    forall i | 0 <= i < |front| ensures front[i] < n {
      PicksAreBelow(front, raws[..n], brief, i);
    }
    forall j: nat ensures j in front <==> j < n && Acceptable(raws[j], brief) {
      assert j < n ==> raws[..n][j] == raws[j];
    }
    forall j: nat ensures j in front + [n] <==> j in front || j == n {
    }
  }

  /**
    The quiz is made of the first `n` fit proposals, in their order, each item from its own proposal;
    none before the last one taken is left out.
   */
  lemma QuizFollowsProposals(raws: seq<RawItem>, brief: Brief, n: nat) returns (js: seq<nat>)
    ensures var items := QuizOf(raws, brief, n);
            && |js| == |items| <= n
            && (forall a, b :: 0 <= a < b < |js| ==> js[a] < js[b])
            && (forall i :: 0 <= i < |js| ==>
                  js[i] < |raws| && Fit(raws[js[i]], brief) && MadeFrom(items[i], raws[js[i]], brief))
            && (forall j: nat :: j < |raws| && Fit(raws[j], brief) && j !in js ==>
                  |js| == n && forall i :: 0 <= i < n ==> js[i] < j)
  {
    var all := KeptOnes(raws, brief);
    var items := QuizOf(raws, brief, n);
    js := First(n, all);
    hide Acceptable, Fit, MadeFrom, Content;
    forall i | 0 <= i < |js| ensures js[i] < |raws| && Fit(raws[js[i]], brief) && MadeFrom(items[i], raws[js[i]], brief) {
      assert js[i] == all[i] && all[i] in all;
      FitIff(raws[js[i]], brief);
      ContentIsMadeFrom(raws[js[i]], brief, ItemId(i + 1));
    }
    assert forall b :: 0 <= b < |js| ==> js[b] in js && js[b] == all[b];
    forall j: nat | j < |raws| && Fit(raws[j], brief) && j !in js
      ensures |js| == n && forall i :: 0 <= i < n ==> js[i] < j {
      FitIff(raws[j], brief);
      assert j in all;
      var a :| 0 <= a < |all| && all[a] == j;
      assert a >= |js|;
    }
  }

  /** Proposals are looked at until `n` are accepted, the last one looked at among them, or to the end. */
  lemma {:induction false} LooksUntilEnough(raws: seq<RawItem>, brief: Brief, n: nat)
    ensures var seen := Examined(raws, brief, n);
            && seen <= |raws|
            && (seen < |raws| ==> |MapSome(Kept(brief), raws[..seen])| == n && (n > 0 ==> Fit(raws[seen - 1], brief)))
            && (seen == |raws| ==> |MapSome(Kept(brief), raws)| <= n)
            && (seen > 0 ==> |MapSome(Kept(brief), raws[..seen - 1])| < n)
  {
    hide Acceptable, Content, Fit;
    var kept, seen := Kept(brief), Examined(raws, brief, n);
    if raws == [] || n == 0 {
      assert raws[..0] == [];
    } else {
      var rest, left := raws[1..], if Acceptable(raws[0], brief) then n - 1 else n;
      FitIff(raws[0], brief);
      LooksUntilEnough(rest, brief, left);
      assert raws[..seen] == [raws[0]] + rest[..seen - 1] && raws == [raws[0]] + rest;
      MapSomeConcat(kept, [raws[0]], rest[..seen - 1]);
      MapSomeConcat(kept, [raws[0]], rest);
      MapSomeOne(kept, raws[0]);
      if seen > 1 {
        assert raws[..seen - 1] == [raws[0]] + rest[..seen - 2];
        MapSomeConcat(kept, [raws[0]], rest[..seen - 2]);
      } else {
        assert raws[..seen - 1] == [];
      }
    }
  }

  /** Citations stand in the order in which the proposal first names them: more of them only add at the end. */
  lemma CitationsKeepOrder(raw: seq<string>, more: seq<string>, offered: set<string>)
    ensures Citations(raw, offered) <= Citations(raw + more, offered)
    ensures Distinct(raw) && (forall c :: c in raw ==> c in offered) ==> Citations(raw, offered) == raw
  {
    var keep := c => c in offered;
    FilterConcat(keep, raw, more);
    UniqueKeepsOrder(Filter(keep, raw), Filter(keep, more));
    if Distinct(raw) && forall c :: c in raw ==> c in offered {
      AllStay(keep, raw);
      UniqueOfDistinct(raw);
    }
  }

  lemma {:induction false} AllStay(keep: string -> bool, xs: seq<string>)
    requires forall x :: x in xs ==> keep(x)
    ensures Filter(keep, xs) == xs
  {
    if xs != [] {
      assert xs[0] in xs;
      AllStay(keep, xs[1..]);
    }
  }

  lemma {:induction false} UniqueOfDistinct(xs: seq<string>)
    requires Distinct(xs)
    ensures Unique(xs) == xs
    decreases |xs|
  {
    if xs != [] {
      var n := |xs| - 1;
      UniqueOfDistinct(xs[..n]);
      assert xs == xs[..n] + [xs[n]];
      assert xs[n] !in xs[..n];
    }
  }

  /** The number a string of decimal digits stands for. */
  function NumberOf(digits: string): int {
    if digits == [] then 0 else 10 * NumberOf(digits[..|digits| - 1]) + (digits[|digits| - 1] as int - '0' as int)
  }

  /** Item ids carry the number of the item, written in decimal digits. */
  lemma {:induction false} ItemIdReads(n: nat)
    ensures ItemId(n) == "item-" + Decimal(n) && NumberOf(Decimal(n)) == n
    ensures forall c :: c in Decimal(n) ==> '0' <= c <= '9'
  {
    if n >= 10 {
      ItemIdReads(n / 10);
      var d := Decimal(n);
      assert d[..|d| - 1] == Decimal(n / 10) && d[|d| - 1] == Digit(n % 10);
    } else {
      assert Decimal(n)[..0] == [];
    }
  }

  /** Why a proposal is dropped: the first thing it lacks. */
  lemma FaultNames(raw: RawItem, brief: Brief)
    ensures var f := Fault(brief)(raw);
            var cited := exists c :: c in raw.citations && c in brief.offered;
            && (f.None? <==> Fit(raw, brief))
            && (f == Some(UnsupportedItemType) <==> raw.kind !in brief.allowed)
            && (f == Some(UngroundedItem) <==> raw.kind in brief.allowed && !cited)
            && (f == Some(InvalidMultipleChoice) <==>
                  && raw.kind in brief.allowed && cited && raw.kind.MultipleChoice?
                  && !(|raw.choices| == 4 && exists k :: 0 <= k < 4 && raw.correctIndices == [k]))
            && (f == Some(MissingModelAnswer) <==>
                  && raw.kind in brief.allowed && cited && raw.kind.ShortAnswer?
                  && (raw.modelAnswer.None? || raw.modelAnswer.value == ""))
            && (f == Some(MissingCorrectBoolean) <==>
                  raw.kind in brief.allowed && cited && raw.kind.ConceptCheck? && raw.correctBoolean.None?)
  {
    FitIff(raw, brief);
    OneIndexIff(raw);
    assert |"Untitled item"| <= 4000;
    hide CorrectIndex;
  }

  lemma OneIndexIff(raw: RawItem)
    ensures CorrectIndex(raw).Some? <==> |raw.choices| == 4 && exists k :: 0 <= k < 4 && raw.correctIndices == [k]
  {
    if CorrectIndex(raw).Some? {
      assert raw.correctIndices == [raw.correctIndices[0]];
    }
  }

  /** A complete answer to the default rubric is graded half, three tenths and two tenths. */
  lemma FreeTextGrade(kind: ItemType, criteria: seq<Answered>, a: Answered, b: Answered, c: Answered)
    requires !kind.MultipleChoice? && AnswersRubric(RubricFor(kind), criteria)
    requires a in criteria && b in criteria && c in criteria
    requires a.name == "correctness" && b.name == "reasoning" && c.name == "grounding"
    ensures var x, y, z := Clip01(a.score), Clip01(b.score), Clip01(c.score);
            GradeOf(RubricFor(kind), criteria) == Round6(0.5 * x + 0.3 * y + 0.2 * z)
  {
    var rubric := RubricFor(kind);
    ThreeCriteria(kind);
    hide RubricFor, AnswersRubric, ScoresOf, DistinctCriteria, Clip01, Round6, ComputeTotal, RecordsAnswer, Times;
    var s0 := Recorded(rubric, criteria, 0, a);
    var s1 := Recorded(rubric, criteria, 1, b);
    var s2 := Recorded(rubric, criteria, 2, c);
    assert ScoresOf(rubric, criteria) == [s0, s1, s2];
    MarksOfThree(s0, s1, s2);
    ThreeMarksTotal(MarkOf(s0), MarkOf(s1), MarkOf(s2));
  }

  lemma Recorded(rubric: seq<Criterion>, criteria: seq<Answered>, i: nat, a: Answered) returns (s: RubricScore)
    requires DistinctCriteria(rubric) && AnswersRubric(rubric, criteria) && i < |rubric|
    requires a in criteria && a.name == rubric[i].name
    ensures |ScoresOf(rubric, criteria)| == |rubric| && s == ScoresOf(rubric, criteria)[i]
    ensures s.weight == rubric[i].weight && Clip01(s.score) == Clip01(a.score)
  {
    var j :| 0 <= j < |criteria| && criteria[j] == a;
    hide AnswersRubric, ScoresOf, DistinctCriteria;
    RecordIs(rubric, criteria, i, j);
    s := ScoresOf(rubric, criteria)[i];
    ClipTwice(a.score);
  }

  lemma ThreeCriteria(kind: ItemType)
    requires !kind.MultipleChoice?
    ensures var r := RubricFor(kind);
            && |r| == 3 && DistinctCriteria(r)
            && r[0] == Criterion("correctness", 0.5) && r[1] == Criterion("reasoning", 0.3)
            && r[2] == Criterion("grounding", 0.2)
  {
    assert "correctness"[0] != "reasoning"[0] && "correctness"[0] != "grounding"[0] && "reasoning"[0] != "grounding"[0];
  }

  lemma ClipTwice(x: real)
    ensures Clip01(Clip01(x)) == Clip01(x) && Clip01(x) == Clip(x, 0.0, 1.0)
    ensures (x <= 0.0 ==> Clip01(x) == 0.0) && (0.0 <= x <= 1.0 ==> Clip01(x) == x) && (1.0 <= x ==> Clip01(x) == 1.0)
  {
  }

  lemma MarksOfThree(a: RubricScore, b: RubricScore, c: RubricScore)
    ensures MapAll(MarkOf, [a, b, c]) == [MarkOf(a), MarkOf(b), MarkOf(c)]
  {
    MapAllMembers(MarkOf, [a, b, c]);
  }

  lemma ThreeMarksTotal(a: Mark, b: Mark, c: Mark)
    requires a.weight == 0.5 && b.weight == 0.3 && c.weight == 0.2
    ensures ComputeTotal([a, b, c])
         == Round6(0.5 * Clip01(a.score) + 0.3 * Clip01(b.score) + 0.2 * Clip01(c.score))
  {
    var x, y, z := Clip01(a.score), Clip01(b.score), Clip01(c.score);
    var m := 0.5 * x + 0.3 * y + 0.2 * z;
    hide Round6, Clip01;
    var marks := [a, b, c];
    assert marks[1..] == [b, c] && [b, c][1..] == [c] && [c][1..] == [];
    assert Balance([c], m) == Times(0.2, z - m);
    assert Balance([b, c], m) == Times(0.3, y - m) + Times(0.2, z - m);
    assert Balance(marks, m) == Times(0.5, x - m) + (Times(0.3, y - m) + Times(0.2, z - m));
    TotalBalances(marks, m);
  }

  // ----- From the answer key to the grade -----------------------------------------------------------

  /** What a text names among four options: an index, a letter, or the first option that reads like it. */
  ghost predicate Names(reading: Reading, choices: seq<string>, answer: string, i: int) {
    var text := reading.strip(answer);
    match reading.number(text)
    case Index(n) => n == i
    case Unreadable => false
    case NotDigits =>
      if text in ["A", "B", "C", "D", "a", "b", "c", "d"] then
        0 <= i < 4 && (text == ["A", "B", "C", "D"][i] || text == ["a", "b", "c", "d"][i])
      else
        && 0 <= i < |choices| && reading.fold(reading.strip(choices[i])) == reading.fold(text)
        && forall j :: 0 <= j < i ==> reading.fold(reading.strip(choices[j])) != reading.fold(text)
  }

  lemma LetterIs(text: string)
    ensures LetterIndex(text).Some? <==> text in ["A", "B", "C", "D", "a", "b", "c", "d"]
    ensures LetterIndex(text).Some? ==>
      var i := LetterIndex(text).value;
      i < 4 && (text == ["A", "B", "C", "D"][i] || text == ["a", "b", "c", "d"][i])
  {
    if LetterIndex(text).Some? {
      var i := LetterIndex(text).value;
      assert text == [text[0]];
      assert i == 0 || i == 1 || i == 2 || i == 3;
      var upper, lower := ["A", "B", "C", "D"], ["a", "b", "c", "d"];
      assert text == upper[i] || text == lower[i];
      assert text in upper + lower && upper + lower == ["A", "B", "C", "D", "a", "b", "c", "d"];
    }
  }

  lemma LettersDiffer(text: string, i: nat, j: nat)
    requires i < 4 && j < 4
    requires text == ["A", "B", "C", "D"][i] || text == ["a", "b", "c", "d"][i]
    requires text == ["A", "B", "C", "D"][j] || text == ["a", "b", "c", "d"][j]
    ensures i == j
  {
    assert text[0] == ['A', 'B', 'C', 'D'][i] || text[0] == ['a', 'b', 'c', 'd'][i];
    assert text[0] == ['A', 'B', 'C', 'D'][j] || text[0] == ['a', 'b', 'c', 'd'][j];
  }

  /** Every answer to a multiple-choice item scores one if it names the correct option, and zero if not. */
  lemma ScoresIff(item: QuizItem, reading: Reading, answer: string)
    requires item.correctIndex.Some? && !Raises(reading, answer)
    ensures OptionScore(item, reading, answer) ==
            Some(if Names(reading, item.choices, answer, item.correctIndex.value) then 1.0 else 0.0)
  {
    var i, text := item.correctIndex.value, reading.strip(answer);
    FirstWithTextIsFirst(reading, item.choices, reading.fold(text));
    LetterIs(text);
    hide LetterIndex, FirstWithText;
    if reading.number(text).NotDigits? && LetterIndex(text).Some? {
      if 0 <= i < 4 && (text == ["A", "B", "C", "D"][i] || text == ["a", "b", "c", "d"][i]) {
        LettersDiffer(text, i, LetterIndex(text).value);
      }
    }
  }

  /** End to end: an answer is right exactly when it names the option that the proposal itself marked. */
  lemma AnswerKeyIsTheProposals(raws: seq<RawItem>, brief: Brief, n: nat, i: nat, reading: Reading, answer: string)
    returns (j: nat)
    requires i < |QuizOf(raws, brief, n)| && QuizOf(raws, brief, n)[i].kind.MultipleChoice?
    requires !Raises(reading, answer)
    ensures j < |raws| && MadeFrom(QuizOf(raws, brief, n)[i], raws[j], brief) && |raws[j].correctIndices| == 1
    ensures OptionScore(QuizOf(raws, brief, n)[i], reading, answer) == Some(1.0)
       <==> Names(reading, raws[j].choices, answer, raws[j].correctIndices[0])
  {
    var js := QuizFollowsProposals(raws, brief, n);
    j := js[i];
    hide QuizOf, OptionScore, Names;
    ScoresIff(QuizOf(raws, brief, n)[i], reading, answer);
  }
}
