/** Rubric scoring: which model responses are graded at all, and what the grade is. */
module Grading {
  import opened Base
  import opened RealMath

  /** A named, weighted criterion of an item; the weight is positive. */
  datatype Criterion = Criterion(name: string, weight: real)

  /** One criterion as the model answered it. */
  datatype Answered = Answered(name: string, score: real, justification: string)

  datatype RubricScore = RubricScore(name: string, weight: real, score: real, justification: string)

  function Clip01(x: real): real {
    Clip(x, 0.0, 1.0)
  }

  // ----- The total -----------------------------------------------------------------------------

  /** A weight with a score. */
  datatype Mark = Mark(weight: real, score: real)

  function TotalWeight(marks: seq<Mark>): real {
    if marks == [] then 0.0 else marks[0].weight + TotalWeight(marks[1..])
  }

  function WeightedSum(marks: seq<Mark>): real {
    if marks == [] then 0.0 else Times(marks[0].weight, Clip01(marks[0].score)) + WeightedSum(marks[1..])
  }

  /** Weighted mean of the clipped scores, rounded; zero without weight. */
  function ComputeTotal(marks: seq<Mark>): real {
    if TotalWeight(marks) <= 0.0 then 0.0
    else Round6(Clip01(WeightedSum(marks) / TotalWeight(marks)))
  }

  ghost predicate Weighed(marks: seq<Mark>) {
    marks != [] && forall m :: m in marks ==> m.weight > 0.0
  }

  lemma {:induction false} WeightPositive(marks: seq<Mark>)
    requires forall m :: m in marks ==> m.weight > 0.0
    ensures TotalWeight(marks) >= 0.0 && (marks != [] ==> TotalWeight(marks) > 0.0)
  {
    if marks != [] {
      assert marks[0] in marks;
      WeightPositive(marks[1..]);
    }
  }

  /** The sum lies between the extreme scores times the total weight. */
  lemma {:induction false} WeightedSumBetween(marks: seq<Mark>, low: real, high: real)
    requires forall m :: m in marks ==> m.weight > 0.0 && low <= Clip01(m.score) <= high
    ensures Times(TotalWeight(marks), low) <= WeightedSum(marks) <= Times(TotalWeight(marks), high)
  {
    hide Times, Clip01;
    if marks == [] {
      TimesUnits(low);
      TimesUnits(high);
    } else {
      var m := marks[0];
      assert m in marks;
      WeightedSumBetween(marks[1..], low, high);
      TimesMonotone(m.weight, low, Clip01(m.score));
      TimesMonotone(m.weight, Clip01(m.score), high);
      TimesDistributes(low, m.weight, TotalWeight(marks[1..]));
      TimesDistributes(high, m.weight, TotalWeight(marks[1..]));
    }
  }

  lemma QuotientBetween(x: real, w: real, low: real, high: real)
    requires w > 0.0 && Times(w, low) <= x <= Times(w, high)
    ensures low <= x / w <= high
  {
    var q := x / w;
    assert Times(w, q) == x;
    if q < low {
      TimesStrict(w, q, low);
    }
    if high < q {
      TimesStrict(w, high, q);
    }
  }

  /** Whatever the weights, a total is a share. */
  lemma TotalInUnit(marks: seq<Mark>)
    ensures 0.0 <= ComputeTotal(marks) <= 1.0
  {
    hide Round6;
    Round6KeepsUnits();
    if TotalWeight(marks) > 0.0 {
      var mean := Clip01(WeightedSum(marks) / TotalWeight(marks));
      Round6Monotone(0.0, mean);
      Round6Monotone(mean, 1.0);
    }
  }

  /** A grade lies between the least and the greatest clipped score, give or take half a millionth. */
  lemma GradeBetweenScores(marks: seq<Mark>, low: real, high: real)
    requires Weighed(marks) && forall m :: m in marks ==> low <= Clip01(m.score) <= high
    ensures Round6(low) <= ComputeTotal(marks) <= Round6(high)
    ensures low - 0.0000005 <= ComputeTotal(marks) <= high + 0.0000005
    ensures 0.0 <= ComputeTotal(marks) <= 1.0
  {
    TotalInUnit(marks);
    Round6IsClose(low);
    Round6IsClose(high);
    WeightPositive(marks);
    WeightedSumBetween(marks, low, high);
    hide Times, Round6;
    var q := WeightedSum(marks) / TotalWeight(marks);
    QuotientBetween(WeightedSum(marks), TotalWeight(marks), low, high);
    Round6Monotone(low, q);
    Round6Monotone(q, high);
  }

  ghost predicate ScoresBelow(a: seq<Mark>, b: seq<Mark>) {
    |a| == |b| && forall i :: 0 <= i < |a| ==> a[i].weight == b[i].weight && a[i].score <= b[i].score
  }

  lemma {:induction false} SumsMonotone(a: seq<Mark>, b: seq<Mark>)
    requires ScoresBelow(a, b) && forall m :: m in a ==> m.weight > 0.0
    ensures TotalWeight(a) == TotalWeight(b) && WeightedSum(a) <= WeightedSum(b)
  {
    hide Times, Clip01;
    if a != [] {
      assert a[0] in a;
      SumsMonotone(a[1..], b[1..]);
      ClipMonotone(a[0].score, b[0].score);
      TimesMonotone(a[0].weight, Clip01(a[0].score), Clip01(b[0].score));
    }
  }

  lemma ClipMonotone(x: real, y: real)
    requires x <= y
    ensures Clip01(x) <= Clip01(y)
  {
  }

  lemma QuotientMonotone(x: real, y: real, w: real)
    requires x <= y && w > 0.0
    ensures x / w <= y / w
  {
  }

  /** Raising any criterion's score never lowers the grade. */
  lemma GradeMonotone(a: seq<Mark>, b: seq<Mark>)
    requires Weighed(a) && ScoresBelow(a, b)
    ensures ComputeTotal(a) <= ComputeTotal(b)
  {
    WeightPositive(a);
    SumsMonotone(a, b);
    hide Round6, Clip01;
    QuotientMonotone(WeightedSum(a), WeightedSum(b), TotalWeight(a));
    ClipMonotone(WeightedSum(a) / TotalWeight(a), WeightedSum(b) / TotalWeight(a));
    Round6Monotone(Clip01(WeightedSum(a) / TotalWeight(a)), Clip01(WeightedSum(b) / TotalWeight(a)));
  }

  /** How much the clipped scores outweigh `m` on one side of it. */
  function Balance(marks: seq<Mark>, m: real): real {
    if marks == [] then 0.0 else Times(marks[0].weight, Clip01(marks[0].score) - m) + Balance(marks[1..], m)
  }

  lemma {:induction false} BalanceIs(marks: seq<Mark>, m: real)
    ensures Balance(marks, m) == WeightedSum(marks) - Times(TotalWeight(marks), m)
  {
    hide Times, Clip01;
    if marks == [] {
      TimesUnits(m);
    } else {
      BalanceIs(marks[1..], m);
      TimesDistributes(marks[0].weight, Clip01(marks[0].score), m);
      TimesDistributes(m, marks[0].weight, TotalWeight(marks[1..]));
    }
  }

  lemma QuotientIs(x: real, w: real, m: real)
    requires w > 0.0 && x == Times(w, m)
    ensures x / w == m
  {
    var q := x / w;
    assert Times(w, q) == x;
    if q < m {
      TimesStrict(w, q, m);
    }
    if m < q {
      TimesStrict(w, m, q);
    }
  }

  /** The total is the weighted mean: the value at which the weighed scores balance, rounded. */
  lemma TotalBalances(marks: seq<Mark>, m: real)
    requires Weighed(marks) && Balance(marks, m) == 0.0
    ensures ComputeTotal(marks) == Round6(m) && 0.0 <= m <= 1.0
  {
    WeightPositive(marks);
    BalanceIs(marks, m);
    forall mark | mark in marks ensures mark.weight > 0.0 && 0.0 <= Clip01(mark.score) <= 1.0 {
      ClipIs(mark.score);
    }
    WeightedSumBetween(marks, 0.0, 1.0);
    hide Times, Round6;
    QuotientBetween(WeightedSum(marks), TotalWeight(marks), 0.0, 1.0);
    QuotientIs(WeightedSum(marks), TotalWeight(marks), m);
    ClipIs(m);
  }

  /** Such a value always exists, so the total is decided. */
  lemma BalanceExists(marks: seq<Mark>) returns (m: real)
    requires Weighed(marks)
    ensures Balance(marks, m) == 0.0
  {
    WeightPositive(marks);
    m := WeightedSum(marks) / TotalWeight(marks);
    assert Times(TotalWeight(marks), m) == WeightedSum(marks);
    BalanceIs(marks, m);
  }

  /** Without a positive weight there is nothing to average. */
  lemma {:induction false} NoWeightNoTotal(marks: seq<Mark>)
    requires forall m :: m in marks ==> m.weight <= 0.0
    ensures TotalWeight(marks) <= 0.0 && ComputeTotal(marks) == 0.0
  {
    if marks != [] {
      assert marks[0] in marks;
      NoWeightNoTotal(marks[1..]);
    }
    hide Round6;
  }

  /** The weight of the marks whose score is full. */
  function FullWeight(marks: seq<Mark>): real {
    if marks == [] then 0.0 else (if marks[0].score >= 1.0 then marks[0].weight else 0.0) + FullWeight(marks[1..])
  }

  lemma {:induction false} FullIsWeighted(marks: seq<Mark>)
    requires forall m :: m in marks ==> m.score >= 1.0 || m.score <= 0.0
    ensures WeightedSum(marks) == FullWeight(marks)
  {
    hide Times, Clip01;
    if marks != [] {
      assert marks[0] in marks;
      FullIsWeighted(marks[1..]);
      ClipIs(marks[0].score);
      assert Clip01(marks[0].score) == Clip(marks[0].score, 0.0, 1.0) by { ClipName(marks[0].score); }
      TimesUnits(marks[0].weight);
    }
  }

  lemma ClipName(x: real)
    ensures Clip01(x) == Clip(x, 0.0, 1.0)
  {
  }

  /** With every score full or nothing the total is the full scores' share of the weight. */
  lemma FullScoresTotal(marks: seq<Mark>)
    requires Weighed(marks) && forall m :: m in marks ==> m.score >= 1.0 || m.score <= 0.0
    ensures TotalWeight(marks) > 0.0 && ComputeTotal(marks) == Round6(FullWeight(marks) / TotalWeight(marks))
  {
    FullIsWeighted(marks);
    WeightPositive(marks);
    var m := BalanceExists(marks);
    TotalBalances(marks, m);
    BalanceIs(marks, m);
    hide Round6, Times;
    QuotientIs(WeightedSum(marks), TotalWeight(marks), m);
  }

  lemma {:induction false} BalanceJoined(a: seq<Mark>, b: seq<Mark>, m: real)
    ensures Balance(a + b, m) == Balance(a, m) + Balance(b, m)
  {
    hide Times, Clip01;
    if a == [] {
      assert a + b == b;
    } else {
      assert (a + b)[1..] == a[1..] + b;
      BalanceJoined(a[1..], b, m);
    }
  }

  lemma TakenFrom(a: seq<Mark>, b: seq<Mark>) returns (i: nat)
    requires a != [] && multiset(a) == multiset(b)
    ensures i < |b| && b == b[..i] + ([a[0]] + b[i + 1..])
    ensures multiset(a[1..]) == multiset(b[..i] + b[i + 1..])
  {
    assert a[0] in multiset(b);
    i :| 0 <= i < |b| && b[i] == a[0];
    assert b == b[..i] + ([a[0]] + b[i + 1..]) && a == [] + ([a[0]] + a[1..]);
    MultisetOfParts(b[..i], a[0], b[i + 1..]);
    MultisetOfParts([], a[0], a[1..]);
    assert [] + a[1..] == a[1..];
    OneLess(multiset(a[1..]), multiset(b[..i] + b[i + 1..]), a[0]);
  }

  lemma OneLess(x: multiset<Mark>, y: multiset<Mark>, mark: Mark)
    requires x + multiset{mark} == y + multiset{mark}
    ensures x == y
  {
    forall e ensures x[e] == y[e] {
      assert (x + multiset{mark})[e] == (y + multiset{mark})[e];
    }
  }

  lemma MultisetOfParts(front: seq<Mark>, x: Mark, back: seq<Mark>)
    ensures multiset(front + ([x] + back)) == multiset(front + back) + multiset{x}
  {
  }

  /** The order of the criteria does not matter. */
  lemma {:induction false} BalanceIgnoresOrder(a: seq<Mark>, b: seq<Mark>, m: real)
    requires multiset(a) == multiset(b)
    ensures Balance(a, m) == Balance(b, m)
    decreases |a|
  {
    hide Balance;
    assert |a| == |multiset(a)| == |b|;
    if a == [] {
      assert b == [];
    } else {
      var i := TakenFrom(a, b);
      var front, back := b[..i], b[i + 1..];
      BalanceIgnoresOrder(a[1..], front + back, m);
      BalanceJoined(front, back, m);
      BalanceJoined(front, [a[0]] + back, m);
      BalanceJoined([a[0]], back, m);
      BalanceJoined([a[0]], a[1..], m);
      assert a == [a[0]] + a[1..];
    }
  }

  lemma TotalIgnoresOrder(a: seq<Mark>, b: seq<Mark>)
    requires Weighed(a) && multiset(a) == multiset(b)
    ensures ComputeTotal(a) == ComputeTotal(b)
  {
    forall m | m in b ensures m.weight > 0.0 {
      assert m in multiset(b);
      assert m in a;
    }
    assert |a| == |multiset(a)| == |b|;
    var m := BalanceExists(a);
    BalanceIgnoresOrder(a, b, m);
    TotalBalances(a, m);
    TotalBalances(b, m);
  }

  // ----- Which responses are graded ---------------------------------------------------------------

  /** The expected weight of each criterion name; a repeated name keeps its last weight. */
  function Expected(rubric: seq<Criterion>): map<string, real> {
    if rubric == [] then map[]
    else Expected(rubric[..|rubric| - 1])[rubric[|rubric| - 1].name := rubric[|rubric| - 1].weight]
  }

  /** The names of a rubric in order of first appearance. */
  function NameOrder(rubric: seq<Criterion>): seq<string> {
    if rubric == [] then []
    else
      var front, last := NameOrder(rubric[..|rubric| - 1]), rubric[|rubric| - 1].name;
      if last in front then front else front + [last]
  }

  ghost predicate DistinctNames(criteria: seq<Answered>) {
    forall i, j :: 0 <= i < j < |criteria| ==> criteria[i].name != criteria[j].name
  }

  function NamesOf(criteria: seq<Answered>): set<string> {
    set c | c in criteria :: c.name
  }

  /** The answered criteria by name. */
  function Provided(criteria: seq<Answered>): map<string, Answered> {
    if criteria == [] then map[]
    else Provided(criteria[..|criteria| - 1])[criteria[|criteria| - 1].name := criteria[|criteria| - 1]]
  }

  lemma NamesNext(front: seq<Answered>, last: Answered)
    ensures NamesOf(front + [last]) == NamesOf(front) + {last.name}
    ensures forall c :: c in front + [last] <==> c in front || c == last
  {
    assert last in front + [last];
    forall n | n in NamesOf(front) ensures n in NamesOf(front + [last]) {
      var c :| c in front && c.name == n;
      assert c in front + [last];
    }
  }

  lemma LastNameIsNew(front: seq<Answered>, last: Answered)
    requires DistinctNames(front + [last])
    ensures DistinctNames(front) && forall c :: c in front ==> c.name != last.name
  {
    var all := front + [last];
    assert all[|front|] == last && forall i :: 0 <= i < |front| ==> all[i] == front[i];
  }

  ghost predicate HoldsEach(provided: map<string, Answered>, criteria: seq<Answered>) {
    forall c :: c in criteria ==> c.name in provided && provided[c.name] == c
  }

  lemma {:induction false} ProvidedHoldsAll(criteria: seq<Answered>)
    ensures Provided(criteria).Keys == NamesOf(criteria)
    ensures DistinctNames(criteria) ==> HoldsEach(Provided(criteria), criteria)
    decreases |criteria|
  {
    if criteria != [] {
      var front, last := criteria[..|criteria| - 1], criteria[|criteria| - 1];
      assert criteria == front + [last];
      ProvidedHoldsAll(front);
      NamesNext(front, last);
      hide NamesOf;
      if DistinctNames(criteria) {
        LastNameIsNew(front, last);
      }
      hide DistinctNames;
    }
  }

  lemma {:induction false} NameOrderCovers(rubric: seq<Criterion>)
    ensures forall n :: n in NameOrder(rubric) <==> n in Expected(rubric)
    ensures forall i, j :: 0 <= i < j < |NameOrder(rubric)| ==> NameOrder(rubric)[i] != NameOrder(rubric)[j]
    decreases |rubric|
  {
    if rubric != [] {
      NameOrderCovers(rubric[..|rubric| - 1]);
    }
  }

  function ScoreOf(rubric: seq<Criterion>, criteria: seq<Answered>, name: string): RubricScore {
    if name in Expected(rubric) && name in Provided(criteria) then
      var c := Provided(criteria)[name];
      RubricScore(name, Expected(rubric)[name], Clip01(c.score), c.justification)
    else RubricScore(name, 0.0, 0.0, "")
  }

  /** One score per rubric criterion, in rubric order. */
  function ScoresOf(rubric: seq<Criterion>, criteria: seq<Answered>): seq<RubricScore> {
    MapAll(name => ScoreOf(rubric, criteria, name), NameOrder(rubric))
  }

  /** The answered criteria are exactly the item's distinct criteria, each once. */
  ghost predicate AnswersRubric(rubric: seq<Criterion>, criteria: seq<Answered>) {
    DistinctNames(criteria) && NamesOf(criteria) == Expected(rubric).Keys
  }

  lemma RepeatedName(criteria: seq<Answered>, i: nat)
    requires i < |criteria| && criteria[i].name in NamesOf(criteria[..i])
    ensures !DistinctNames(criteria)
  {
    var c :| c in criteria[..i] && c.name == criteria[i].name;
    var j :| 0 <= j < i && criteria[j] == c;
  }

  lemma NewName(criteria: seq<Answered>, i: nat)
    requires i < |criteria| && DistinctNames(criteria[..i]) && criteria[i].name !in NamesOf(criteria[..i])
    ensures DistinctNames(criteria[..i + 1])
    ensures Provided(criteria[..i + 1]) == Provided(criteria[..i])[criteria[i].name := criteria[i]]
  {
    assert criteria[..i + 1][..i] == criteria[..i];
    forall j | 0 <= j < i ensures criteria[j].name != criteria[i].name {
      assert criteria[j] in criteria[..i];
    }
  }

  /**
    Maps the model's scores onto the rubric or rejects the response: a grade exists exactly when the
    answered criteria are in bijection with the rubric's.
   */
  method ValidateRubric(rubric: seq<Criterion>, criteria: seq<Answered>) returns (r: Option<seq<RubricScore>>)
    ensures r.Some? <==> AnswersRubric(rubric, criteria)
    ensures r.Some? ==> r.value == ScoresOf(rubric, criteria)
  {
    hide Expected, ScoresOf;
    var provided: map<string, Answered> := map[];
    for i := 0 to |criteria|
      invariant provided == Provided(criteria[..i]) && DistinctNames(criteria[..i])
    {
      ProvidedHoldsAll(criteria[..i]);
      if criteria[i].name in provided {
        RepeatedName(criteria, i);
        return None;
      }
      NewName(criteria, i);
      provided := provided[criteria[i].name := criteria[i]];
    }
    assert criteria[..|criteria|] == criteria;
    ProvidedHoldsAll(criteria);
    if provided.Keys != Expected(rubric).Keys {
      return None;
    }
    return Some(ScoresOf(rubric, criteria));
  }

  /** The order in which the model answers does not matter. */
  lemma OrderOfAnswersIsIrrelevant(rubric: seq<Criterion>, a: seq<Answered>, b: seq<Answered>)
    requires DistinctNames(a) && DistinctNames(b) && forall c :: c in a <==> c in b
    ensures AnswersRubric(rubric, a) <==> AnswersRubric(rubric, b)
    ensures ScoresOf(rubric, a) == ScoresOf(rubric, b)
  {
    ProvidedHoldsAll(a);
    ProvidedHoldsAll(b);
    assert NamesOf(a) == NamesOf(b) by {
      forall n ensures n in NamesOf(a) <==> n in NamesOf(b) {
        if n in NamesOf(a) {
          var c :| c in a && c.name == n;
          assert c in b;
        }
        if n in NamesOf(b) {
          var c :| c in b && c.name == n;
          assert c in a;
        }
      }
    }
    forall n | n in Provided(a) ensures Provided(a)[n] == Provided(b)[n] {
      var c :| c in a && c.name == n;
      assert c in b;
    }
    assert Provided(a) == Provided(b);
    MapAllMembers(name => ScoreOf(rubric, a, name), NameOrder(rubric));
    MapAllMembers(name => ScoreOf(rubric, b, name), NameOrder(rubric));
  }

  function MarkOf(s: RubricScore): Mark {
    Mark(s.weight, s.score)
  }

  /** The grade of a complete response. */
  function GradeOf(rubric: seq<Criterion>, criteria: seq<Answered>): real {
    ComputeTotal(MapAll(MarkOf, ScoresOf(rubric, criteria)))
  }

  ghost predicate SoundRubric(rubric: seq<Criterion>) {
    rubric != [] && forall c :: c in rubric ==> c.weight > 0.0
  }

  lemma {:induction false} ExpectedWeights(rubric: seq<Criterion>)
    requires forall c :: c in rubric ==> c.weight > 0.0
    ensures forall n :: n in Expected(rubric) ==> Expected(rubric)[n] > 0.0
    ensures rubric != [] ==> NameOrder(rubric) != []
    decreases |rubric|
  {
    if rubric != [] {
      assert rubric[|rubric| - 1] in rubric;
      ExpectedWeights(rubric[..|rubric| - 1]);
    }
  }

  /** A recorded score is the clipped answer of its criterion, under the criterion's weight. */
  ghost predicate FollowsAnswer(s: RubricScore, rubric: seq<Criterion>, criteria: seq<Answered>) {
    && s.name in Expected(rubric) && s.weight == Expected(rubric)[s.name] && s.weight > 0.0
    && exists c :: c in criteria && c.name == s.name && s.score == Clip01(c.score) && s.justification == c.justification
  }

  /** The recorded scores of a complete response: one per criterion, each the clipped answer. */
  lemma ScoresFollowAnswers(rubric: seq<Criterion>, criteria: seq<Answered>)
    requires SoundRubric(rubric) && AnswersRubric(rubric, criteria)
    ensures var scores := ScoresOf(rubric, criteria);
            && scores != [] && |scores| == |NameOrder(rubric)|
            && (forall i :: 0 <= i < |scores| ==> scores[i].name == NameOrder(rubric)[i])
            && (forall s :: s in scores ==> FollowsAnswer(s, rubric, criteria))
            && (forall c :: c in criteria ==> exists s :: s in scores && s.name == c.name)
  {
    var names, scores := NameOrder(rubric), ScoresOf(rubric, criteria);
    ProvidedHoldsAll(criteria);
    NameOrderCovers(rubric);
    ExpectedWeights(rubric);
    MapAllMembers(name => ScoreOf(rubric, criteria, name), names);
    forall i | 0 <= i < |scores| ensures scores[i].name == names[i] && FollowsAnswer(scores[i], rubric, criteria) {
      assert names[i] in names;
      var c :| c in criteria && c.name == names[i];
      assert Provided(criteria)[names[i]] == c;
    }
    forall c | c in criteria ensures exists s :: s in scores && s.name == c.name {
      assert c.name in NamesOf(criteria);
      var i :| 0 <= i < |names| && names[i] == c.name;
      assert scores[i] in scores;
    }
  }

  ghost predicate DistinctCriteria(rubric: seq<Criterion>) {
    forall i, j :: 0 <= i < j < |rubric| ==> rubric[i].name != rubric[j].name
  }

  /** The recorded score of one criterion: its own name and weight, and the model's answer to it. */
  ghost predicate RecordsAnswer(s: RubricScore, criterion: Criterion, c: Answered) {
    && s.name == criterion.name == c.name && s.weight == criterion.weight && s.justification == c.justification
    && (c.score <= 0.0 ==> s.score == 0.0) && (0.0 <= c.score <= 1.0 ==> s.score == c.score)
    && (1.0 <= c.score ==> s.score == 1.0)
  }

  lemma {:induction false} OrderOfDistinct(rubric: seq<Criterion>)
    requires DistinctCriteria(rubric)
    ensures |NameOrder(rubric)| == |rubric|
    ensures forall i :: 0 <= i < |rubric| ==>
      NameOrder(rubric)[i] == rubric[i].name && rubric[i].name in Expected(rubric)
      && Expected(rubric)[rubric[i].name] == rubric[i].weight
    decreases |rubric|
  {
    if rubric != [] {
      var n := |rubric| - 1;
      OrderOfDistinct(rubric[..n]);
      assert rubric[n].name !in NameOrder(rubric[..n]);
    }
  }

  /** For a rubric of distinct criteria the record is the rubric, in its order, each with the answer it got. */
  lemma RecordIs(rubric: seq<Criterion>, criteria: seq<Answered>, i: nat, j: nat)
    requires DistinctCriteria(rubric) && AnswersRubric(rubric, criteria)
    requires i < |rubric| && j < |criteria| && criteria[j].name == rubric[i].name
    ensures |ScoresOf(rubric, criteria)| == |rubric|
    ensures RecordsAnswer(ScoresOf(rubric, criteria)[i], rubric[i], criteria[j])
  {
    OrderOfDistinct(rubric);
    ProvidedHoldsAll(criteria);
    MapAllMembers(name => ScoreOf(rubric, criteria, name), NameOrder(rubric));
    ClipIs(criteria[j].score);
    ClipName(criteria[j].score);
    assert criteria[j] in criteria;
  }

  /** A repeated name counts once, with the weight given last. */
  lemma {:induction false} LastWeightCounts(rubric: seq<Criterion>, i: nat)
    requires i < |rubric| && forall j :: i < j < |rubric| ==> rubric[j].name != rubric[i].name
    ensures rubric[i].name in Expected(rubric) && Expected(rubric)[rubric[i].name] == rubric[i].weight
    decreases |rubric|
  {
    if i < |rubric| - 1 {
      LastWeightCounts(rubric[..|rubric| - 1], i);
    }
  }

  /** A recorded free-text grade lies between the extreme clipped answers, give or take half a millionth. */
  lemma RecordedGradeBetween(rubric: seq<Criterion>, criteria: seq<Answered>, low: real, high: real)
    requires SoundRubric(rubric) && AnswersRubric(rubric, criteria)
    requires forall c :: c in criteria ==> low <= Clip01(c.score) <= high
    ensures Round6(low) <= GradeOf(rubric, criteria) <= Round6(high)
    ensures low - 0.0000005 <= GradeOf(rubric, criteria) <= high + 0.0000005
    ensures 0.0 <= GradeOf(rubric, criteria) <= 1.0
  {
    var scores := ScoresOf(rubric, criteria);
    var marks := MapAll(MarkOf, scores);
    ScoresFollowAnswers(rubric, criteria);
    MapAllMembers(MarkOf, scores);
    hide ScoresOf, Round6, ComputeTotal, AnswersRubric;
    forall m | m in marks ensures m.weight > 0.0 && low <= Clip01(m.score) <= high {
      var i :| 0 <= i < |marks| && marks[i] == m;
      assert scores[i] in scores;
      assert FollowsAnswer(scores[i], rubric, criteria);
      var c :| c in criteria && c.name == scores[i].name && scores[i].score == Clip01(c.score);
      assert Clip01(Clip01(c.score)) == Clip01(c.score);
    }
    GradeBetweenScores(marks, low, high);
  }

  // ----- Misconceptions ------------------------------------------------------------------------

  /** A reported misconception; `wellFormed` is what the typed record's own validation says of it. */
  datatype Reported = Reported(description: string, wellFormed: bool, citations: seq<string>)

  function Grounding(m: Reported, available: set<string>): seq<string> {
    Filter(c => c in available, m.citations)
  }

  function Grounded(available: set<string>): Reported -> Option<Reported> {
    (m: Reported) =>
      if Grounding(m, available) != [] && m.wellFormed then Some(m.(citations := Grounding(m, available))) else None
  }

  predicate IsDropped(m: Reported, available: set<string>) {
    Grounding(m, available) == [] || !m.wellFormed
  }

  /** Keeps the evidenced misconceptions, each with only the citations that resolve. */
  method GroundMisconceptions(generated: seq<Reported>, available: set<string>)
    returns (kept: seq<Reported>, dropped: bool)
    ensures kept == MapSome(Grounded(available), generated)
    ensures dropped <==> exists m :: m in generated && IsDropped(m, available)
  {
    hide Grounding;
    kept, dropped := [], false;
    for i := 0 to |generated|
      invariant kept == MapSome(Grounded(available), generated[..i])
      invariant dropped <==> exists m :: m in generated[..i] && IsDropped(m, available)
    {
      var raw := generated[i];
      assert generated[..i + 1] == generated[..i] + [raw];
      MapSomeConcat(Grounded(available), generated[..i], [raw]);
      MapSomeOne(Grounded(available), raw);
      var grounding := Grounding(raw, available);
      if grounding == [] || !raw.wellFormed {
        assert IsDropped(raw, available) && raw in generated[..i + 1];
        dropped := true;
      } else {
        kept := kept + [raw.(citations := grounding)];
      }
    }
    assert generated[..|generated|] == generated;
  }

  lemma {:induction false} KeptAreEvidenced(generated: seq<Reported>, available: set<string>)
    ensures forall m :: m in MapSome(Grounded(available), generated) ==>
      m.citations != [] && forall c :: c in m.citations ==> c in available
  {
    if generated != [] {
      KeptAreEvidenced(generated[1..], available);
      FilterIs(c => c in available, generated[0].citations);
    }
  }

  /** What a kept misconception says, and with which evidence. */
  ghost predicate KeptFrom(k: Reported, m: Reported, available: set<string>) {
    && m.wellFormed && k.wellFormed && k.description == m.description && k.citations != []
    && forall c :: c in k.citations <==> c in m.citations && c in available
  }

  /** A well-formed misconception with some available citation is kept, with just those; no other is. */
  lemma {:induction false} KeptExactly(generated: seq<Reported>, available: set<string>)
    ensures forall k :: k in MapSome(Grounded(available), generated) ==>
      exists m :: m in generated && KeptFrom(k, m, available)
    ensures forall m, c :: m in generated && m.wellFormed && c in m.citations && c in available ==>
      exists k :: k in MapSome(Grounded(available), generated) && KeptFrom(k, m, available)
  {
    if generated != [] {
      var m, rest := generated[0], generated[1..];
      KeptExactly(rest, available);
      FilterIs(c => c in available, m.citations);
      assert Grounded(available)(m).Some? ==> KeptFrom(Grounded(available)(m).value, m, available);
      assert generated == [m] + rest;
      var kept := MapSome(Grounded(available), rest);
      assert MapSome(Grounded(available), generated) == Optional(Grounded(available)(m)) + kept;
      forall c | m.wellFormed && c in m.citations && c in available ensures Grounded(available)(m).Some? {
        assert c in Grounding(m, available);
      }
    }
  }
}
