/** Nearest-rank percentiles, the one definition every report uses. */
module Percentiles {
  import opened RealMath

  // ----- Sorting -------------------------------------------------------------------------------

  ghost predicate Ascending(s: seq<real>) {
    forall i, j :: 0 <= i < j < |s| ==> s[i] <= s[j]
  }

  function Insert(x: real, s: seq<real>): seq<real> {
    if s == [] || x <= s[0] then [x] + s else [s[0]] + Insert(x, s[1..])
  }

  /** `sorted(values)`. */
  function Sorted(values: seq<real>): seq<real> {
    if values == [] then [] else Insert(values[0], Sorted(values[1..]))
  }

  lemma AscendingCons(x: real, s: seq<real>)
    requires Ascending(s) && forall y :: y in s ==> x <= y
    ensures Ascending([x] + s)
  {
    var r := [x] + s;
    forall i, j | 0 <= i < j < |r| ensures r[i] <= r[j] {
      assert r[j] == s[j - 1] && s[j - 1] in s;
      assert i > 0 ==> r[i] == s[i - 1];
    }
  }

  lemma {:induction false} InsertKeeps(x: real, s: seq<real>)
    ensures multiset(Insert(x, s)) == multiset(s) + multiset{x}
  {
    if s != [] && x > s[0] {
      InsertKeeps(x, s[1..]);
      assert s == [s[0]] + s[1..];
    }
  }

  lemma {:induction false} InsertSorts(x: real, s: seq<real>)
    requires Ascending(s)
    ensures Ascending(Insert(x, s)) && multiset(Insert(x, s)) == multiset(s) + multiset{x}
  {
    InsertKeeps(x, s);
    if s == [] || x <= s[0] {
      AscendingCons(x, s);
    } else {
      var tail := s[1..];
      InsertSorts(x, tail);
      var rest := Insert(x, tail);
      forall y | y in rest ensures s[0] <= y {
        assert y in multiset(rest);
        assert y == x || y in tail;
      }
      AscendingCons(s[0], rest);
    }
  }

  lemma {:induction false} SortedSorts(values: seq<real>)
    ensures Ascending(Sorted(values)) && multiset(Sorted(values)) == multiset(values)
  {
    if values != [] {
      SortedSorts(values[1..]);
      InsertSorts(values[0], Sorted(values[1..]));
      assert values == [values[0]] + values[1..];
    }
  }

  lemma SortedLength(values: seq<real>)
    ensures |Sorted(values)| == |values|
  {
    SortedSorts(values);
    assert |multiset(Sorted(values))| == |multiset(values)|;
  }

  /** An ascending list is determined by its multiset. */
  lemma {:induction false} AscendingUnique(a: seq<real>, b: seq<real>)
    requires Ascending(a) && Ascending(b) && multiset(a) == multiset(b)
    ensures a == b
    decreases |a|
  {
    assert |a| == |multiset(a)| == |b|;
    if a != [] {
      assert a[0] in multiset(b) && b[0] in multiset(a);
      assert a[0] == b[0];
      assert a == [a[0]] + a[1..] && b == [b[0]] + b[1..];
      assert multiset(a[1..]) == multiset(a) - multiset{a[0]};
      assert multiset(b[1..]) == multiset(b) - multiset{b[0]};
      AscendingUnique(a[1..], b[1..]);
    }
  }

  // ----- The percentile --------------------------------------------------------------------------

  function Ceil(x: real): int {
    -((-x).Floor)
  }

  /** One-based rank of the p-th percentile of n values, clamped to [1, n]. */
  function RankOf(p: real, n: nat): nat
    requires n > 0
  {
    var position := Ceil(Clip(p, 0.0, 100.0) / 100.0 * n as real);
    if position < 1 then 1 else if position > n then n else position
  }

  function Percentile(values: seq<real>, p: real): real {
    SortedLength(values);
    if values == [] then 0.0 else Sorted(values)[RankOf(p, |values|) - 1]
  }

  /** How many of the values are at most v. */
  function CountAtMost(values: seq<real>, v: real): nat {
    if values == [] then 0 else (if values[0] <= v then 1 else 0) + CountAtMost(values[1..], v)
  }

  lemma {:induction false} CountOfInsert(x: real, s: seq<real>, v: real)
    ensures CountAtMost(Insert(x, s), v) == CountAtMost(s, v) + if x <= v then 1 else 0
  {
    if s == [] || x <= s[0] {
      assert ([x] + s)[1..] == s;
    } else {
      CountOfInsert(x, s[1..], v);
      assert ([s[0]] + Insert(x, s[1..]))[1..] == Insert(x, s[1..]);
    }
  }

  lemma {:induction false} CountOfSorted(values: seq<real>, v: real)
    ensures CountAtMost(Sorted(values), v) == CountAtMost(values, v)
  {
    if values != [] {
      CountOfSorted(values[1..], v);
      CountOfInsert(values[0], Sorted(values[1..]), v);
    }
  }

  /** In an ascending list the k-th value has at least k values at or below it, and anything less has fewer. */
  lemma {:induction false} CountInAscending(s: seq<real>, k: nat, v: real)
    requires Ascending(s) && k < |s|
    ensures s[k] <= v ==> CountAtMost(s, v) >= k + 1
    ensures v < s[k] ==> CountAtMost(s, v) <= k
  {
    if k > 0 {
      CountInAscending(s[1..], k - 1, v);
    } else if v < s[0] {
      NoneAtMost(s, v);
    }
  }

  lemma {:induction false} NoneAtMost(s: seq<real>, v: real)
    requires forall x :: x in s ==> v < x
    ensures CountAtMost(s, v) == 0
  {
    if s != [] {
      assert s[0] in s;
      forall x | x in s[1..] ensures v < x {
        assert x in s;
      }
      NoneAtMost(s[1..], v);
    }
  }

  /**
    The percentile of a non-empty list is the least of its values with at least the required number
    of values at or below it.
   */
  lemma PercentileIsLeast(values: seq<real>, p: real)
    requires values != []
    ensures Percentile(values, p) in values
    ensures CountAtMost(values, Percentile(values, p)) >= RankOf(p, |values|)
    ensures forall w :: w in values && CountAtMost(values, w) >= RankOf(p, |values|) ==> Percentile(values, p) <= w
  {
    var s, k := Sorted(values), RankOf(p, |values|) - 1;
    SortedSorts(values);
    SortedLength(values);
    assert s[k] in multiset(s);
    CountInAscending(s, k, s[k]);
    CountOfSorted(values, s[k]);
    forall w | w in values && CountAtMost(values, w) >= RankOf(p, |values|) ensures s[k] <= w {
      CountInAscending(s, k, w);
      CountOfSorted(values, w);
    }
  }

  /** The required number is ceil(p * n / 100), at least one: the clamp to n never lowers it. */
  lemma RankIsCeiling(p: real, n: nat)
    requires n > 0
    ensures var position := Ceil(Clip(p, 0.0, 100.0) / 100.0 * n as real);
            RankOf(p, n) == if position < 1 then 1 else position
  {
    var share := Clip(p, 0.0, 100.0) / 100.0;
    assert 0.0 <= share <= 1.0;
    TimesMonotone(n as real, share, 1.0);
    assert Times(n as real, share) == share * n as real;
  }

  lemma {:induction false} CountsItself(values: seq<real>, v: real)
    requires v in values
    ensures CountAtMost(values, v) >= 1
  {
    if values[0] != v {
      CountsItself(values[1..], v);
    }
  }

  lemma CeilIs(x: real, n: int)
    ensures n >= Ceil(x) <==> n as real >= x
  {
    assert (-x).Floor as real <= -x < ((-x).Floor + 1) as real;
    if n < Ceil(x) {
      assert n as real <= (Ceil(x) - 1) as real;
    } else {
      assert n as real >= Ceil(x) as real;
    }
  }

  /** The percentage, taken between 0 and 100. */
  function Share(p: real): real {
    if p < 0.0 then 0.0 else if p > 100.0 then 100.0 else p
  }

  /** That many hundredths of the values, or more, are at or below `v`. */
  predicate Enough(values: seq<real>, p: real, v: real) {
    Hundredfold(CountAtMost(values, v)) >= Times(Share(p), |values| as real)
  }

  function Hundredfold(count: int): real {
    count as real * 100.0
  }

  lemma RankIff(p: real, n: nat, count: nat)
    requires n > 0 && count >= 1
    ensures count >= RankOf(p, n) <==> count as real >= Times(Share(p) / 100.0, n as real)
  {
    RankIsCeiling(p, n);
    assert Share(p) == Clip(p, 0.0, 100.0);
    CeilIs(Clip(p, 0.0, 100.0) / 100.0 * n as real, count);
    hide RankOf, Ceil;
  }

  lemma EnoughIff(values: seq<real>, p: real, v: real)
    requires v in values
    ensures Enough(values, p, v) <==> CountAtMost(values, v) >= RankOf(p, |values|)
  {
    hide CountAtMost, RankOf, Share, Times, Hundredfold;
    CountsItself(values, v);
    RankIff(p, |values|, CountAtMost(values, v));
    HundredthsIff(Share(p), |values| as real, CountAtMost(values, v));
  }

  lemma HundredthsIff(share: real, n: real, count: int)
    ensures count as real >= Times(share / 100.0, n) <==> Hundredfold(count) >= Times(share, n)
  {
    var y := share / 100.0;
    assert Times(share, n) == Times(y, n) * 100.0 by {
      assert share == y * 100.0;
    }
  }

  /** The nearest-rank percentile is the least value with enough values at or below it; zero without values. */
  lemma PercentileIsNearestRank(values: seq<real>, p: real)
    ensures values == [] ==> Percentile(values, p) == 0.0
    ensures values != [] ==>
      var v := Percentile(values, p);
      && v in values && Enough(values, p, v)
      && forall w :: w in values && Enough(values, p, w) ==> v <= w
  {
    if values != [] {
      PercentileIsLeast(values, p);
      hide Percentile, RankOf, CountAtMost, Enough;
      forall w | w in values ensures Enough(values, p, w) <==> CountAtMost(values, w) >= RankOf(p, |values|) {
        EnoughIff(values, p, w);
      }
    }
  }

  /** The order of the values does not matter. */
  lemma PercentileIgnoresOrder(a: seq<real>, b: seq<real>, p: real)
    requires multiset(a) == multiset(b)
    ensures Percentile(a, p) == Percentile(b, p)
  {
    SortedSorts(a);
    SortedSorts(b);
    AscendingUnique(Sorted(a), Sorted(b));
    SortedLength(a);
    SortedLength(b);
  }

  lemma RankMonotone(p: real, q: real, n: nat)
    requires n > 0 && p <= q
    ensures RankOf(p, n) <= RankOf(q, n)
  {
    var x, y := Clip(p, 0.0, 100.0) / 100.0, Clip(q, 0.0, 100.0) / 100.0;
    TimesMonotone(n as real, x, y);
    assert Times(n as real, x) == x * n as real && Times(n as real, y) == y * n as real;
  }

  lemma PercentileMonotone(values: seq<real>, p: real, q: real)
    requires p <= q
    ensures Percentile(values, p) <= Percentile(values, q)
  {
    if values != [] {
      SortedSorts(values);
      SortedLength(values);
      RankMonotone(p, q, |values|);
      assert RankOf(q, |values|) <= |values|;
    }
  }

  // ----- Per-stage metrics -----------------------------------------------------------------------

  const PERCENTILES := [50, 95, 99]

  type Stage = string

  /** Each stage with samples has each of the percentiles, rounded, and nothing else is reported. */
  ghost predicate Reports(
      metrics: map<(Stage, int), real>, stages: seq<Stage>, timings: map<Stage, seq<real>>, percentiles: seq<int>)
    requires forall s :: s in stages ==> s in timings
  {
    && (forall s, p :: (s, p) in metrics <==> s in stages && timings[s] != [] && p in percentiles)
    && forall s, p :: (s, p) in metrics ==> metrics[(s, p)] == Round6(Percentile(timings[s], p as real))
  }

  /** The reported metrics; a stage without samples is left out. */
  method LatencyPercentiles(stages: seq<Stage>, timings: map<Stage, seq<real>>, percentiles: seq<int>)
    returns (metrics: map<(Stage, int), real>)
    requires forall s :: s in stages ==> s in timings
    ensures Reports(metrics, stages, timings, percentiles)
  {
    hide Percentile, Round6;
    metrics := map[];
    for i := 0 to |stages|
      invariant forall s, p :: (s, p) in metrics <==> s in stages[..i] && timings[s] != [] && p in percentiles
      invariant forall s, p :: (s, p) in metrics ==> metrics[(s, p)] == Round6(Percentile(timings[s], p as real))
    {
      var stage := stages[i];
      assert stages[..i + 1] == stages[..i] + [stage];
      if timings[stage] == [] {
        continue;
      }
      for j := 0 to |percentiles|
        invariant forall s, p :: (s, p) in metrics <==>
          (s in stages[..i] || s == stage) && timings[s] != []
          && ((s in stages[..i] && p in percentiles) || (s == stage && p in percentiles[..j]))
        invariant forall s, p :: (s, p) in metrics ==> metrics[(s, p)] == Round6(Percentile(timings[s], p as real))
      {
        assert percentiles[..j + 1] == percentiles[..j] + [percentiles[j]];
        metrics := metrics[(stage, percentiles[j]) := Round6(Percentile(timings[stage], percentiles[j] as real))];
      }
      assert percentiles[..|percentiles|] == percentiles;
    }
    assert stages[..|stages|] == stages;
  }

  /** What is reported for a stage rises with the percentile, rounding included. */
  lemma ReportedInOrder(
      metrics: map<(Stage, int), real>, stages: seq<Stage>, timings: map<Stage, seq<real>>, percentiles: seq<int>,
      stage: Stage, p: int, q: int)
    requires forall s :: s in stages ==> s in timings
    requires Reports(metrics, stages, timings, percentiles)
    requires (stage, p) in metrics && (stage, q) in metrics && p <= q
    ensures metrics[(stage, p)] <= metrics[(stage, q)]
  {
    PercentileMonotone(timings[stage], p as real, q as real);
    Round6Monotone(Percentile(timings[stage], p as real), Percentile(timings[stage], q as real));
    hide Percentile, Round6;
  }

  /** In the report with the default percentiles each stage with samples has p50 <= p95 <= p99. */
  lemma DefaultReportInOrder(
      metrics: map<(Stage, int), real>, stages: seq<Stage>, timings: map<Stage, seq<real>>, stage: Stage)
    requires forall s :: s in stages ==> s in timings
    requires Reports(metrics, stages, timings, PERCENTILES) && stage in stages && timings[stage] != []
    ensures (stage, 50) in metrics && (stage, 95) in metrics && (stage, 99) in metrics
    ensures metrics[(stage, 50)] <= metrics[(stage, 95)] <= metrics[(stage, 99)]
  {
    assert PERCENTILES[0] == 50 && PERCENTILES[1] == 95 && PERCENTILES[2] == 99;
    hide Percentile, Round6;
    assert 50 in PERCENTILES && 95 in PERCENTILES && 99 in PERCENTILES;
    ReportedInOrder(metrics, stages, timings, PERCENTILES, stage, 50, 95);
    ReportedInOrder(metrics, stages, timings, PERCENTILES, stage, 95, 99);
  }
}
