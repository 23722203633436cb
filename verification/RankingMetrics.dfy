/** The native retrieval metrics over opaque ids, for any positive strictly decreasing discount. */
module RankingMetrics {
  import opened Base
  import opened RealMath

  type Id = string

  /** `1 / log2(position + 1)` is one such discount. */
  ghost predicate IsDiscount(d: nat -> real) {
    && (forall i: nat :: i >= 1 ==> d(i) > 0.0)
    && (forall i: nat, j: nat :: 1 <= i < j ==> d(j) < d(i))
  }

  /** `retrieved[:k]`, empty for a non-positive k. */
  function Top<A>(retrieved: seq<A>, k: int): seq<A> {
    if k <= 0 then [] else if k >= |retrieved| then retrieved else retrieved[..k]
  }

  function ToSet(ids: seq<Id>): set<Id> {
    set id | id in ids
  }

  /** Which positions hold a relevant id. */
  function Hits(ids: seq<Id>, relevant: set<Id>): seq<bool> {
    MapAll(id => id in relevant, ids)
  }

  // ----- The metrics -------------------------------------------------------------------------

  function RecallAtK(retrieved: seq<Id>, relevant: set<Id>, k: int): real {
    if relevant == {} then 0.0
    else |ToSet(Top(retrieved, k)) * relevant| as real / |relevant| as real
  }

  function PrecisionAtK(retrieved: seq<Id>, relevant: set<Id>, k: int): real {
    var top := Top(retrieved, k);
    if top == [] then 0.0 else |ToSet(top) * relevant| as real / |top| as real
  }

  /** Discounted gain of the hits, the first one at position `p`. */
  function Gain(d: nat -> real, hits: seq<bool>, p: nat): real {
    if hits == [] then 0.0 else (if hits[0] then d(p) else 0.0) + Gain(d, hits[1..], p + 1)
  }

  /** The gain of `n` hits in the first `n` positions. */
  function IdealGain(d: nat -> real, n: nat): real {
    if n == 0 then 0.0 else IdealGain(d, n - 1) + d(n)
  }

  function NdcgAtK(d: nat -> real, retrieved: seq<Id>, relevant: set<Id>, k: int): real {
    if relevant == {} || k <= 0 then 0.0
    else
      var dcg := Gain(d, Hits(Top(retrieved, k), relevant), 1);
      var ideal := IdealGain(d, Min(|relevant|, k));
      if ideal > 0.0 then dcg / ideal else 0.0
  }

  function Reciprocal(p: int): real
    requires p > 0
  {
    1.0 / p as real
  }

  /** Reciprocal position of the first hit. */
  function FirstHit(hits: seq<bool>, p: nat): real
    requires p > 0
  {
    if hits == [] then 0.0 else if hits[0] then Reciprocal(p) else FirstHit(hits[1..], p + 1)
  }

  function Mrr(retrieved: seq<Id>, relevant: set<Id>, k: Option<int>): real {
    FirstHit(Hits(if k.None? then retrieved else Top(retrieved, k.value), relevant), 1)
  }

  function Ratio(a: nat, b: nat): real
    requires b > 0
  {
    a as real / b as real
  }

  /** Sum, over the hits, of the precision at their position, with `seen` hits before position `p`. */
  function PrecisionSum(hits: seq<bool>, p: nat, seen: nat): real
    requires p > 0
  {
    if hits == [] then 0.0
    else if hits[0] then Ratio(seen + 1, p) + PrecisionSum(hits[1..], p + 1, seen + 1)
    else PrecisionSum(hits[1..], p + 1, seen)
  }

  function CountHits(hits: seq<bool>): nat {
    if hits == [] then 0 else (if hits[0] then 1 else 0) + CountHits(hits[1..])
  }

  function ContextPrecision(retrieved: seq<Id>, relevant: set<Id>, k: int): real {
    var hits := Hits(Top(retrieved, k), relevant);
    if CountHits(hits) == 0 then 0.0 else PrecisionSum(hits, 1, 0) / CountHits(hits) as real
  }

  // ----- The two loops -----------------------------------------------------------------------

  lemma {:induction false} HitsAt(ids: seq<Id>, relevant: set<Id>, i: nat)
    requires i < |ids|
    ensures |Hits(ids, relevant)| == |ids| && Hits(ids, relevant)[i] == (ids[i] in relevant)
  {
    HitsLength(ids, relevant);
    if i > 0 {
      HitsAt(ids[1..], relevant, i - 1);
    }
  }

  lemma {:induction false} HitsLength(ids: seq<Id>, relevant: set<Id>)
    ensures |Hits(ids, relevant)| == |ids|
  {
    if ids != [] {
      HitsLength(ids[1..], relevant);
    }
  }

  method ComputeMrr(retrieved: seq<Id>, relevant: set<Id>, k: Option<int>) returns (r: real)
    ensures r == Mrr(retrieved, relevant, k)
  {
    var window := if k.None? then retrieved else Top(retrieved, k.value);
    ghost var hits := Hits(window, relevant);
    HitsLength(window, relevant);
    assert hits[0..] == hits;
    for i := 0 to |window|
      invariant FirstHit(hits[i..], i + 1) == FirstHit(hits, 1)
    {
      HitsAt(window, relevant, i);
      assert hits[i..][0] == hits[i] && hits[i..][1..] == hits[i + 1..];
      if window[i] in relevant {
        return 1.0 / (i + 1) as real;
      }
    }
    return 0.0;
  }

  method ComputeContextPrecision(retrieved: seq<Id>, relevant: set<Id>, k: int) returns (r: real)
    ensures r == ContextPrecision(retrieved, relevant, k)
  {
    if k <= 0 {
      return 0.0;
    }
    var top := Top(retrieved, k);
    ghost var hits := Hits(top, relevant);
    HitsLength(top, relevant);
    assert hits[0..] == hits;
    var runningRelevant, total, relevantRetrieved := 0, 0.0, 0;
    for i := 0 to |top|
      invariant runningRelevant == relevantRetrieved >= 0
      invariant total + PrecisionSum(hits[i..], i + 1, runningRelevant) == PrecisionSum(hits, 1, 0)
      invariant relevantRetrieved + CountHits(hits[i..]) == CountHits(hits)
    {
      HitsAt(top, relevant, i);
      assert hits[i..][0] == hits[i] && hits[i..][1..] == hits[i + 1..];
      if top[i] in relevant {
        runningRelevant := runningRelevant + 1;
        total := total + Ratio(runningRelevant, i + 1);
        relevantRetrieved := relevantRetrieved + 1;
      }
    }
    if relevantRetrieved == 0 {
      return 0.0;
    }
    return total / relevantRetrieved as real;
  }

  // ----- nDCG --------------------------------------------------------------------------------

  lemma {:induction false} GainConcat(d: nat -> real, a: seq<bool>, b: seq<bool>, p: nat)
    ensures Gain(d, a + b, p) == Gain(d, a, p) + Gain(d, b, p + |a|)
    decreases |a|
  {
    if a == [] {
      assert a + b == b;
    } else {
      assert (a + b)[0] == a[0] && (a + b)[1..] == a[1..] + b;
      GainConcat(d, a[1..], b, p + 1);
    }
  }

  lemma {:induction false} CountConcat(a: seq<bool>, b: seq<bool>)
    ensures CountHits(a + b) == CountHits(a) + CountHits(b)
  {
    if a == [] {
      assert a + b == b;
    } else {
      assert (a + b)[0] == a[0] && (a + b)[1..] == a[1..] + b;
      CountConcat(a[1..], b);
    }
  }

  lemma {:induction false} CountAtMostLength(hits: seq<bool>)
    ensures CountHits(hits) <= |hits|
    ensures CountHits(hits) == |hits| <==> forall i :: 0 <= i < |hits| ==> hits[i]
  {
    if hits != [] {
      CountAtMostLength(hits[1..]);
      assert forall i :: 1 <= i < |hits| ==> hits[i] == hits[1..][i - 1];
    }
  }

  /** The hits come before all the misses. */
  ghost predicate HitsFirst(hits: seq<bool>) {
    forall i :: 0 <= i < CountHits(hits) && i < |hits| ==> hits[i]
  }

  lemma HitsFirstSnoc(front: seq<bool>, last: bool)
    ensures HitsFirst(front + [last]) <==> HitsFirst(front) && (last ==> CountHits(front) == |front|)
  {
    var hits := front + [last];
    CountConcat(front, [last]);
    assert CountHits([last]) == if last then 1 else 0 by { assert [last][1..] == []; }
    CountAtMostLength(front);
    CountAtMostLength(hits);
    assert forall i :: 0 <= i < |front| ==> hits[i] == front[i];
    if HitsFirst(hits) && last && CountHits(front) < |front| {
      assert CountHits(hits) <= |front|;
      PrefixAllHits(front, CountHits(hits));
    }
  }

  lemma {:induction false} PrefixAllHits(hits: seq<bool>, n: nat)
    requires n <= |hits| && forall i :: 0 <= i < n ==> hits[i]
    ensures CountHits(hits) >= n
  {
    if n > 0 {
      PrefixAllHits(hits[1..], n - 1);
    }
  }

  /** No arrangement of the hits gains more than putting them first, and only that one gains as much. */
  lemma {:induction false} GainAtMostIdeal(d: nat -> real, hits: seq<bool>)
    requires IsDiscount(d)
    ensures 0.0 <= Gain(d, hits, 1) <= IdealGain(d, CountHits(hits))
    ensures Gain(d, hits, 1) == IdealGain(d, CountHits(hits)) <==> HitsFirst(hits)
    decreases |hits|
  {
    if hits != [] {
      var front, last := hits[..|hits| - 1], hits[|hits| - 1];
      assert hits == front + [last];
      GainAtMostIdeal(d, front);
      GainConcat(d, front, [last], 1);
      CountConcat(front, [last]);
      assert [last][1..] == [];
      HitsFirstSnoc(front, last);
      CountAtMostLength(front);
      assert last ==> CountHits(front) + 1 <= |hits|;
    }
  }

  lemma {:induction false} IdealGainGrows(d: nat -> real, m: nat, n: nat)
    requires IsDiscount(d) && m <= n
    ensures 0.0 <= IdealGain(d, m) <= IdealGain(d, n)
    ensures m < n ==> IdealGain(d, m) < IdealGain(d, n)
    decreases n - m, m
  {
    if m < n {
      IdealGainGrows(d, m, n - 1);
    } else if m > 0 {
      IdealGainGrows(d, m - 1, m - 1);
    }
  }

  /** Among different ids the hits are as many as the relevant ids retrieved. */
  lemma {:induction false} CountHitsIsOverlap(ids: seq<Id>, relevant: set<Id>)
    requires Distinct(ids)
    ensures CountHits(Hits(ids, relevant)) == |ToSet(ids) * relevant| <= |relevant|
  {
    SubsetSize(ToSet(ids) * relevant, relevant);
    if ids != [] {
      assert ids[0] !in ids[1..];
      OverlapOfCons(ids, relevant);
      hide ToSet, Distinct;
      assert Distinct(ids[1..]) by { TailDistinct(ids); }
      CountHitsIsOverlap(ids[1..], relevant);
    }
  }

  lemma OverlapOfCons(ids: seq<Id>, relevant: set<Id>)
    requires ids != [] && ids[0] !in ids[1..]
    ensures |ToSet(ids) * relevant| == |ToSet(ids[1..]) * relevant| + if ids[0] in relevant then 1 else 0
  {
    assert ToSet(ids) == ToSet(ids[1..]) + {ids[0]};
    var rest := ToSet(ids[1..]) * relevant;
    assert ToSet(ids) * relevant == if ids[0] in relevant then rest + {ids[0]} else rest;
  }

  lemma {:induction false} SubsetSize<A>(small: set<A>, large: set<A>)
    requires small <= large
    ensures |small| <= |large|
    decreases |large|
  {
    if small != {} {
      var x :| x in small;
      SubsetSize(small - {x}, large - {x});
    }
  }

  lemma QuotientInUnit(x: real, y: real)
    requires 0.0 <= x <= y && 0.0 < y
    ensures 0.0 <= x / y <= 1.0 && (x / y == 1.0 <==> x == y)
  {
  }

  lemma QuotientStrict(x: real, z: real, y: real)
    requires x < z && 0.0 < y
    ensures x / y < z / y
  {
  }

  lemma TopDistinct(retrieved: seq<Id>, k: int)
    requires Distinct(retrieved)
    ensures Distinct(Top(retrieved, k))
  {
  }

  /** How many of the first `k` positions hold a relevant id. */
  function HitCount(retrieved: seq<Id>, relevant: set<Id>, k: int): nat {
    CountHits(Hits(Top(retrieved, k), relevant))
  }

  lemma DistinctHitsAreFew(retrieved: seq<Id>, relevant: set<Id>, k: int)
    requires Distinct(retrieved)
    ensures HitCount(retrieved, relevant, k) <= |relevant|
  {
    TopDistinct(retrieved, k);
    CountHitsIsOverlap(Top(retrieved, k), relevant);
  }

  /** With no more hits than relevant ids nDCG lies in [0, 1]; the best value is reached by hits first. */
  lemma NdcgWithFewHits(d: nat -> real, retrieved: seq<Id>, relevant: set<Id>, k: int)
    requires IsDiscount(d) && HitCount(retrieved, relevant, k) <= |relevant|
    ensures 0.0 <= NdcgAtK(d, retrieved, relevant, k) <= 1.0
    ensures NdcgAtK(d, retrieved, relevant, k) == 1.0
       <==> k > 0 && relevant != {} && Min(|relevant|, k) <= |retrieved|
            && forall i :: 0 <= i < Min(|relevant|, k) ==> retrieved[i] in relevant
  {
    if relevant != {} && k > 0 {
      var top, n := Top(retrieved, k), Min(|relevant|, k);
      var hits := Hits(top, relevant);
      HitsLength(top, relevant);
      CountAtMostLength(hits);
      GainAtMostIdeal(d, hits);
      IdealGainGrows(d, CountHits(hits), n);
      IdealGainGrows(d, 0, n);
      QuotientInUnit(Gain(d, hits, 1), IdealGain(d, n));
      forall i | 0 <= i < |top| ensures hits[i] == (retrieved[i] in relevant) {
        HitsAt(top, relevant, i);
      }
      FullPrefixIff(hits, n);
      hide Gain, IdealGain, Hits, CountHits;
    }
  }

  /**
    nDCG of different ids lies in [0, 1], and is 1 exactly when k is positive, something is relevant,
    and the first min(|relevant|, k) positions exist and are all relevant.
   */
  lemma NdcgInUnit(d: nat -> real, retrieved: seq<Id>, relevant: set<Id>, k: int)
    requires IsDiscount(d) && Distinct(retrieved)
    ensures 0.0 <= NdcgAtK(d, retrieved, relevant, k) <= 1.0
    ensures NdcgAtK(d, retrieved, relevant, k) == 1.0
       <==> k > 0 && relevant != {} && Min(|relevant|, k) <= |retrieved|
            && forall i :: 0 <= i < Min(|relevant|, k) ==> retrieved[i] in relevant
  {
    DistinctHitsAreFew(retrieved, relevant, k);
    NdcgWithFewHits(d, retrieved, relevant, k);
  }

  /** At most `n` hits are `n` hits, all first, exactly when the first `n` positions are hits. */
  lemma FullPrefixIff(hits: seq<bool>, n: nat)
    requires CountHits(hits) <= n
    ensures CountHits(hits) == n && HitsFirst(hits) <==> n <= |hits| && forall i :: 0 <= i < n ==> hits[i]
  {
    CountAtMostLength(hits);
    if n <= |hits| && forall i :: 0 <= i < n ==> hits[i] {
      PrefixAllHits(hits, n);
    }
    hide CountHits;
  }

  /** More hits than relevant ids, all first, score more than one under every discount. */
  lemma DuplicatesFirstExceedOne(d: nat -> real, retrieved: seq<Id>, relevant: set<Id>, k: int)
    requires IsDiscount(d) && relevant != {} && HitCount(retrieved, relevant, k) > |relevant|
    requires HitsFirst(Hits(Top(retrieved, k), relevant))
    ensures NdcgAtK(d, retrieved, relevant, k) > 1.0
  {
    var hits, n := Hits(Top(retrieved, k), relevant), |relevant|;
    HitsFitWindow(retrieved, relevant, k);
    GainAtMostIdeal(d, hits);
    IdealGainGrows(d, n, CountHits(hits));
    IdealGainGrows(d, 0, n);
    hide Gain, IdealGain, Hits, CountHits;
    QuotientStrict(IdealGain(d, n), Gain(d, hits, 1), IdealGain(d, n));
    QuotientInUnit(IdealGain(d, n), IdealGain(d, n));
  }

  lemma HitsFitWindow(retrieved: seq<Id>, relevant: set<Id>, k: int)
    ensures k > 0 ==> HitCount(retrieved, relevant, k) <= k
    ensures k <= 0 ==> HitCount(retrieved, relevant, k) == 0
  {
    HitsLength(Top(retrieved, k), relevant);
    CountAtMostLength(Hits(Top(retrieved, k), relevant));
  }

  /** A discount that hardly discounts: between one and one plus 1 / (n + 1). */
  function NearlyFlat(n: nat): nat -> real {
    (i: nat) => 1.0 + Reciprocal((n + 1) * (i + 1))
  }

  lemma NearlyFlatIsDiscount(n: nat)
    ensures IsDiscount(NearlyFlat(n))
    ensures forall i: nat :: 1.0 <= NearlyFlat(n)(i) <= 1.0 + Reciprocal(n + 1)
  {
    forall i: nat ensures 1.0 < NearlyFlat(n)(i) <= 1.0 + Reciprocal(n + 1) {
      assert n + 1 <= (n + 1) * (i + 1);
      ReciprocalFalls(n + 1, (n + 1) * (i + 1));
    }
    forall i: nat, j: nat | 1 <= i < j ensures NearlyFlat(n)(j) < NearlyFlat(n)(i) {
      assert (n + 1) * (i + 1) < (n + 1) * (j + 1);
      ReciprocalFalls((n + 1) * (i + 1), (n + 1) * (j + 1));
    }
  }

  lemma ReciprocalFalls(p: int, q: int)
    requires 0 < p <= q
    ensures 0.0 < Reciprocal(q) <= Reciprocal(p)
    ensures p < q ==> Reciprocal(q) < Reciprocal(p)
  {
    var x, y, a, b := Reciprocal(p), Reciprocal(q), p as real, q as real;
    assert Times(a, x) == 1.0 && Times(x, a) == 1.0 && Times(b, y) == 1.0 && Times(b, x) == Times(x, b);
    hide Times, Reciprocal;
    assert x > 0.0 && y > 0.0 by {
      ReciprocalPositive(p);
      ReciprocalPositive(q);
    }
    TimesMonotone(x, a, b);
    if y > x {
      TimesStrict(b, x, y);
    }
    if p < q {
      TimesStrict(x, a, b);
    }
  }

  lemma ReciprocalPositive(p: int)
    requires p > 0
    ensures Reciprocal(p) > 0.0
  {
  }

  /** n nearly flat gains are less than n + 1 full ones. */
  lemma FlatGainsFallShort(n: nat)
    ensures Times(n as real, 1.0 + Reciprocal(n + 1)) < n as real + 1.0
  {
    var r := Reciprocal(n + 1);
    ReciprocalPositive(n + 1);
    assert Times((n + 1) as real, r) == 1.0;
    hide Reciprocal, Times;
    TimesDistributes(r, n as real, 1.0);
    TimesDistributes(n as real, 1.0, r);
    TimesUnits(r);
    TimesUnits(n as real);
  }

  lemma {:induction false} GainCountsHits(d: nat -> real, hits: seq<bool>, p: nat)
    requires forall i: nat :: d(i) >= 1.0
    ensures Gain(d, hits, p) >= CountHits(hits) as real
    decreases |hits|
  {
    if hits != [] {
      GainCountsHits(d, hits[1..], p + 1);
    }
  }

  lemma {:induction false} IdealGainAtMost(d: nat -> real, n: nat, high: real)
    requires forall i: nat :: d(i) <= high
    ensures IdealGain(d, n) <= Times(n as real, high)
  {
    if n > 0 {
      IdealGainAtMost(d, n - 1, high);
      TimesDistributes(high, (n - 1) as real, 1.0);
      TimesUnits(high);
    }
  }

  /** nDCG is at most 1 under every discount exactly when the window holds no more hits than relevant ids. */
  lemma NdcgAtMostOneIff(retrieved: seq<Id>, relevant: set<Id>, k: int)
    ensures (forall d: nat -> real :: IsDiscount(d) ==> NdcgAtK(d, retrieved, relevant, k) <= 1.0)
       <==> HitCount(retrieved, relevant, k) <= |relevant|
  {
    if HitCount(retrieved, relevant, k) <= |relevant| {
      forall d: nat -> real | IsDiscount(d) ensures NdcgAtK(d, retrieved, relevant, k) <= 1.0 {
        NdcgWithFewHits(d, retrieved, relevant, k);
      }
    } else {
      FlatDiscountExceedsOne(retrieved, relevant, k);
    }
  }

  lemma FlatDiscountExceedsOne(retrieved: seq<Id>, relevant: set<Id>, k: int)
    requires HitCount(retrieved, relevant, k) > |relevant|
    ensures IsDiscount(NearlyFlat(|relevant|)) && NdcgAtK(NearlyFlat(|relevant|), retrieved, relevant, k) > 1.0
  {
    var n, hits := |relevant|, Hits(Top(retrieved, k), relevant);
    var d := NearlyFlat(n);
    NearlyFlatIsDiscount(n);
    HitsFitWindow(retrieved, relevant, k);
    SomethingIsRelevant(Top(retrieved, k), relevant);
    GainCountsHits(d, hits, 1);
    IdealGainAtMost(d, n, 1.0 + Reciprocal(n + 1));
    IdealGainGrows(d, 0, n);
    FlatGainsFallShort(n);
    hide Gain, IdealGain, Hits, CountHits, Times, NearlyFlat;
    QuotientStrict(IdealGain(d, n), Gain(d, hits, 1), IdealGain(d, n));
    QuotientInUnit(IdealGain(d, n), IdealGain(d, n));
  }

  lemma {:induction false} SomethingIsRelevant(ids: seq<Id>, relevant: set<Id>)
    requires CountHits(Hits(ids, relevant)) > 0
    ensures relevant != {}
  {
    if ids[0] !in relevant {
      SomethingIsRelevant(ids[1..], relevant);
    }
  }

  /** One relevant id retrieved twice, with nothing else relevant, is such a ranking. */
  lemma DuplicatesExceedOne(d: nat -> real, id: Id)
    requires IsDiscount(d)
    ensures NdcgAtK(d, [id, id], {id}, 2) > 1.0
  {
    var hits := Hits([id, id], {id});
    HitsAt([id, id], {id}, 0);
    HitsAt([id, id], {id}, 1);
    assert hits == [true, true] && CountHits([true, true][1..]) == 1;
    DuplicatesFirstExceedOne(d, [id, id], {id}, 2);
  }

  // ----- Context precision -----------------------------------------------------------------------

  lemma RatioInUnit(a: nat, b: nat)
    requires a <= b && b > 0
    ensures 0.0 <= Ratio(a, b) <= 1.0 && (Ratio(a, b) == 1.0 <==> a == b)
  {
    QuotientInUnit(a as real, b as real);
  }

  /** Each hit adds at most one, and exactly one when everything so far was a hit. */
  lemma {:induction false} PrecisionSumBounds(hits: seq<bool>, p: nat, seen: nat)
    requires seen < p
    ensures 0.0 <= PrecisionSum(hits, p, seen) <= CountHits(hits) as real
    ensures PrecisionSum(hits, p, seen) == CountHits(hits) as real
       <==> CountHits(hits) == 0 || (seen + 1 == p && HitsFirst(hits))
    decreases |hits|
  {
    hide Ratio;
    if hits != [] {
      RatioInUnit(seen + 1, p);
      PrecisionSumBounds(hits[1..], p + 1, if hits[0] then seen + 1 else seen);
      HitsFirstCons(hits);
    }
  }

  lemma HitsFirstCons(hits: seq<bool>)
    requires hits != []
    ensures hits[0] ==> (HitsFirst(hits) <==> HitsFirst(hits[1..]))
    ensures !hits[0] ==> (HitsFirst(hits) <==> CountHits(hits) == 0)
  {
    assert forall i :: 1 <= i < |hits| ==> hits[i] == hits[1..][i - 1];
    if hits[0] && HitsFirst(hits) {
      forall i | 0 <= i < CountHits(hits[1..]) && i < |hits[1..]| ensures hits[1..][i] {
        assert hits[i + 1];
      }
    }
  }

  /** Context precision lies in [0, 1], and is 1 exactly when the window's relevant ids form a non-empty prefix. */
  lemma ContextPrecisionInUnit(retrieved: seq<Id>, relevant: set<Id>, k: int)
    ensures 0.0 <= ContextPrecision(retrieved, relevant, k) <= 1.0
    ensures var hits := Hits(Top(retrieved, k), relevant);
            ContextPrecision(retrieved, relevant, k) == 1.0 <==> CountHits(hits) > 0 && HitsFirst(hits)
  {
    var hits := Hits(Top(retrieved, k), relevant);
    PrecisionSumBounds(hits, 1, 0);
    if CountHits(hits) > 0 {
      QuotientInUnit(PrecisionSum(hits, 1, 0), CountHits(hits) as real);
    }
  }

  // ----- Moving a relevant id up --------------------------------------------------------------------

  function Swapped<A>(xs: seq<A>, j: nat): seq<A>
    requires j + 1 < |xs|
  {
    xs[j := xs[j + 1]][j + 1 := xs[j]]
  }

  lemma TopOfSwapped(retrieved: seq<Id>, k: int, j: nat)
    requires j + 1 < |Top(retrieved, k)|
    ensures Top(Swapped(retrieved, j), k) == Swapped(Top(retrieved, k), j)
    ensures ToSet(Top(Swapped(retrieved, j), k)) == ToSet(Top(retrieved, k))
  {
    var top := Top(retrieved, k);
    var swapped := Swapped(top, j);
    assert Top(Swapped(retrieved, j), k) == swapped;
    forall id | id in top ensures id in swapped {
      var i :| 0 <= i < |top| && top[i] == id;
      assert swapped[if i == j then j + 1 else if i == j + 1 then j else i] == id;
    }
  }

  lemma HitsOfSwapped(ids: seq<Id>, relevant: set<Id>, j: nat)
    requires j + 1 < |ids|
    ensures |Hits(ids, relevant)| == |ids|
    ensures Hits(Swapped(ids, j), relevant) == Swapped(Hits(ids, relevant), j)
  {
    var a, b := Hits(ids, relevant), Hits(Swapped(ids, j), relevant);
    HitsLength(ids, relevant);
    HitsLength(Swapped(ids, j), relevant);
    forall i | 0 <= i < |ids| ensures b[i] == Swapped(a, j)[i] {
      HitsAt(ids, relevant, i);
      HitsAt(ids, relevant, j);
      HitsAt(ids, relevant, j + 1);
      HitsAt(Swapped(ids, j), relevant, i);
    }
  }

  /** A miss followed by a hit, and the two the other way round. */
  lemma SwapSplits(hits: seq<bool>, j: nat)
    requires j + 1 < |hits| && !hits[j] && hits[j + 1]
    ensures hits == hits[..j] + ([false, true] + hits[j + 2..])
    ensures Swapped(hits, j) == hits[..j] + ([true, false] + hits[j + 2..])
  {
  }

  lemma GainOfPair(d: nat -> real, rest: seq<bool>, p: nat)
    ensures Gain(d, [false, true] + rest, p) == d(p + 1) + Gain(d, rest, p + 2)
    ensures Gain(d, [true, false] + rest, p) == d(p) + Gain(d, rest, p + 2)
  {
    assert ([false, true] + rest)[1..] == [true] + rest && ([true] + rest)[1..] == rest;
    assert ([true, false] + rest)[1..] == [false] + rest && ([false] + rest)[1..] == rest;
  }

  lemma SwapRaisesGain(d: nat -> real, hits: seq<bool>, j: nat)
    requires IsDiscount(d) && j + 1 < |hits| && !hits[j] && hits[j + 1]
    ensures Gain(d, Swapped(hits, j), 1) > Gain(d, hits, 1)
  {
    SwapSplits(hits, j);
    GainConcat(d, hits[..j], [false, true] + hits[j + 2..], 1);
    GainConcat(d, hits[..j], [true, false] + hits[j + 2..], 1);
    GainOfPair(d, hits[j + 2..], j + 1);
  }

  lemma {:induction false} PrecisionSumConcat(a: seq<bool>, b: seq<bool>, p: nat, seen: nat)
    requires p > 0
    ensures PrecisionSum(a + b, p, seen) == PrecisionSum(a, p, seen) + PrecisionSum(b, p + |a|, seen + CountHits(a))
    decreases |a|
  {
    hide Ratio;
    if a == [] {
      assert a + b == b;
    } else {
      assert (a + b)[0] == a[0] && (a + b)[1..] == a[1..] + b;
      PrecisionSumConcat(a[1..], b, p + 1, if a[0] then seen + 1 else seen);
    }
  }

  lemma PrecisionOfPair(rest: seq<bool>, p: nat, seen: nat)
    requires p > 0
    ensures PrecisionSum([false, true] + rest, p, seen) == Ratio(seen + 1, p + 1) + PrecisionSum(rest, p + 2, seen + 1)
    ensures PrecisionSum([true, false] + rest, p, seen) == Ratio(seen + 1, p) + PrecisionSum(rest, p + 2, seen + 1)
  {
    hide Ratio;
    assert ([false, true] + rest)[1..] == [true] + rest && ([true] + rest)[1..] == rest;
    assert ([true, false] + rest)[1..] == [false] + rest && ([false] + rest)[1..] == rest;
  }

  lemma RatioDecreases(a: nat, b: nat)
    requires a > 0 && b > 0
    ensures Ratio(a, b + 1) < Ratio(a, b)
  {
    var x, y, z := a as real, b as real, (b + 1) as real;
    assert x / z * z == x && x / y * y == x;
    if x / z >= x / y {
      assert x / z * z >= x / y * z;
      assert x / y * z > x / y * y;
    }
  }

  lemma SwapRaisesPrecisionSum(hits: seq<bool>, j: nat)
    requires j + 1 < |hits| && !hits[j] && hits[j + 1]
    ensures PrecisionSum(Swapped(hits, j), 1, 0) > PrecisionSum(hits, 1, 0)
    ensures CountHits(Swapped(hits, j)) == CountHits(hits) > 0
  {
    hide Ratio, PrecisionSum, CountHits;
    var front, rest := hits[..j], hits[j + 2..];
    SwapSplits(hits, j);
    PrecisionSumConcat(front, [false, true] + rest, 1, 0);
    PrecisionSumConcat(front, [true, false] + rest, 1, 0);
    PrecisionOfPair(rest, j + 1, CountHits(front));
    RatioDecreases(CountHits(front) + 1, j + 1);
    CountOfPair(front, rest);
  }

  lemma CountOfPair(front: seq<bool>, rest: seq<bool>)
    ensures CountHits(front + ([false, true] + rest)) == CountHits(front) + 1 + CountHits(rest)
    ensures CountHits(front + ([true, false] + rest)) == CountHits(front) + 1 + CountHits(rest)
  {
    CountConcat(front, [false, true] + rest);
    CountConcat(front, [true, false] + rest);
    assert ([false, true] + rest)[1..] == [true] + rest && ([true] + rest)[1..] == rest;
    assert ([true, false] + rest)[1..] == [false] + rest && ([false] + rest)[1..] == rest;
  }

  lemma {:induction false} FirstHitOfSwap(hits: seq<bool>, j: nat, p: nat)
    requires p > 0 && j + 1 < |hits| && !hits[j] && hits[j + 1]
    ensures FirstHit(Swapped(hits, j), p) >= FirstHit(hits, p)
    decreases j
  {
    var swapped := Swapped(hits, j);
    if j == 0 {
      assert hits[1..][0];
      assert FirstHit(hits, p) == Reciprocal(p + 1);
      RatioDecreases(1, p);
    } else if !hits[0] {
      assert swapped[1..] == Swapped(hits[1..], j - 1);
      FirstHitOfSwap(hits[1..], j - 1, p + 1);
    }
  }

  /**
    Moving a relevant id one place up past an irrelevant one, inside the first k positions: nDCG and
    context precision strictly rise, MRR does not fall, recall and precision do not change.
   */
  lemma RelevantMovesUp(d: nat -> real, retrieved: seq<Id>, relevant: set<Id>, k: int, j: nat)
    requires IsDiscount(d) && j + 1 < |Top(retrieved, k)|
    requires retrieved[j] !in relevant && retrieved[j + 1] in relevant
    ensures var better := Swapped(retrieved, j);
            && NdcgAtK(d, better, relevant, k) > NdcgAtK(d, retrieved, relevant, k)
            && ContextPrecision(better, relevant, k) > ContextPrecision(retrieved, relevant, k)
            && Mrr(better, relevant, Some(k)) >= Mrr(retrieved, relevant, Some(k))
            && Mrr(better, relevant, None) >= Mrr(retrieved, relevant, None)
            && RecallAtK(better, relevant, k) == RecallAtK(retrieved, relevant, k)
            && PrecisionAtK(better, relevant, k) == PrecisionAtK(retrieved, relevant, k)
  {
    var top := Top(retrieved, k);
    var hits := Hits(top, relevant);
    TopOfSwapped(retrieved, k, j);
    HitsOfSwapped(top, relevant, j);
    HitsAt(top, relevant, j);
    HitsAt(top, relevant, j + 1);
    SwapRaisesGain(d, hits, j);
    IdealGainGrows(d, 0, Min(|relevant|, k));
    QuotientStrict(Gain(d, hits, 1), Gain(d, Swapped(hits, j), 1), IdealGain(d, Min(|relevant|, k)));
    SwapRaisesPrecisionSum(hits, j);
    QuotientStrict(PrecisionSum(hits, 1, 0), PrecisionSum(Swapped(hits, j), 1, 0), CountHits(hits) as real);
    FirstHitOfSwap(hits, j, 1);
    HitsOfSwapped(retrieved, relevant, j);
    HitsAt(retrieved, relevant, j);
    HitsAt(retrieved, relevant, j + 1);
    FirstHitOfSwap(Hits(retrieved, relevant), j, 1);
  }

  // ----- The metrics told position by position -----------------------------------------------------------

  /** The window: the first k ids, none for a k that is not positive. */
  lemma WindowIs(retrieved: seq<Id>, k: int)
    ensures Top(retrieved, k) == retrieved[..if k <= 0 then 0 else Min(k, |retrieved|)]
  {
  }

  /** The relevant ids of the window. */
  function Found(retrieved: seq<Id>, relevant: set<Id>, k: int): set<Id> {
    set id | id in relevant && id in Top(retrieved, k)
  }

  /** Recall is the found share of the relevant ids, precision the share of the window that they would fill. */
  lemma SharesFound(retrieved: seq<Id>, relevant: set<Id>, k: int)
    ensures var found := |Found(retrieved, relevant, k)| as real;
            && (relevant != {} ==> RecallAtK(retrieved, relevant, k) == found / |relevant| as real)
            && (relevant == {} ==> RecallAtK(retrieved, relevant, k) == 0.0)
            && (Top(retrieved, k) != [] ==> PrecisionAtK(retrieved, relevant, k) == found / |Top(retrieved, k)| as real)
            && (Top(retrieved, k) == [] ==> PrecisionAtK(retrieved, relevant, k) == 0.0)
    ensures Distinct(retrieved) ==> |Found(retrieved, relevant, k)| == HitCount(retrieved, relevant, k)
  {
    assert ToSet(Top(retrieved, k)) * relevant == Found(retrieved, relevant, k);
    if Distinct(retrieved) {
      TopDistinct(retrieved, k);
      CountHitsIsOverlap(Top(retrieved, k), relevant);
    }
  }

  /** The hits counted are the positions that hold a relevant id. */
  lemma {:induction false} CountIsPositions(hits: seq<bool>)
    ensures CountHits(hits) == |set i | 0 <= i < |hits| && hits[i]|
    decreases |hits|
  {
    var all := set i | 0 <= i < |hits| && hits[i];
    if hits == [] {
      assert all == {};
    } else {
      var n := |hits| - 1;
      CountIsPositions(hits[..n]);
      assert hits == hits[..n] + [hits[n]];
      CountConcat(hits[..n], [hits[n]]);
      assert [hits[n]][1..] == [];
      var front := set i | 0 <= i < |hits[..n]| && hits[..n][i];
      assert all == front + if hits[n] then {n} else {};
    }
  }

  /** The reciprocal rank of the first relevant id, and zero when the window holds none. */
  lemma {:induction false} FirstHitIs(hits: seq<bool>, i: nat, p: nat)
    requires p > 0 && i <= |hits| && (forall j :: 0 <= j < i ==> !hits[j]) && (i < |hits| ==> hits[i])
    ensures FirstHit(hits, p) == if i < |hits| then 1.0 / (p + i) as real else 0.0
    decreases i
  {
    if i > 0 {
      FirstHitIs(hits[1..], i - 1, p + 1);
    }
  }

  lemma MrrIs(retrieved: seq<Id>, relevant: set<Id>, k: int, i: nat)
    requires i <= |Top(retrieved, k)| && (forall j :: 0 <= j < i ==> retrieved[j] !in relevant)
    requires i < |Top(retrieved, k)| ==> retrieved[i] in relevant
    ensures Mrr(retrieved, relevant, Some(k)) == if i < |Top(retrieved, k)| then 1.0 / (i + 1) as real else 0.0
  {
    var top := Top(retrieved, k);
    HitsLength(top, relevant);
    forall j | 0 <= j < |top| ensures Hits(top, relevant)[j] == (retrieved[j] in relevant) {
      HitsAt(top, relevant, j);
    }
    hide Hits;
    FirstHitIs(Hits(top, relevant), i, 1);
  }

  /** The discounts of the hits among the first n positions, the first position being 1. */
  function DiscountSum(d: nat -> real, hits: seq<bool>, n: nat): real
    requires n <= |hits|
  {
    if n == 0 then 0.0 else DiscountSum(d, hits, n - 1) + if hits[n - 1] then d(n) else 0.0
  }

  lemma {:induction false} GainIsSum(d: nat -> real, hits: seq<bool>, n: nat)
    requires n <= |hits|
    ensures Gain(d, hits[..n], 1) == DiscountSum(d, hits, n)
  {
    if n > 0 {
      GainIsSum(d, hits, n - 1);
      assert hits[..n] == hits[..n - 1] + [hits[n - 1]];
      GainConcat(d, hits[..n - 1], [hits[n - 1]], 1);
      assert [hits[n - 1]][1..] == [];
    }
  }

  /** The sum of the first n discounts. */
  function FirstDiscounts(d: nat -> real, n: nat): real {
    if n == 0 then 0.0 else d(n) + FirstDiscounts(d, n - 1)
  }

  lemma {:induction false} IdealIsSum(d: nat -> real, n: nat)
    ensures IdealGain(d, n) == FirstDiscounts(d, n)
  {
    if n > 0 {
      IdealIsSum(d, n - 1);
    }
  }

  /** nDCG is the discounts at the hits over the first discounts, as many as there are relevant ids or the window holds. */
  lemma NdcgIs(d: nat -> real, retrieved: seq<Id>, relevant: set<Id>, k: int)
    requires IsDiscount(d)
    ensures relevant == {} || k <= 0 ==> NdcgAtK(d, retrieved, relevant, k) == 0.0
    ensures relevant != {} && k > 0 ==>
      var hits := Hits(Top(retrieved, k), relevant);
      var ideal := FirstDiscounts(d, Min(|relevant|, k));
      ideal > 0.0 && NdcgAtK(d, retrieved, relevant, k) == DiscountSum(d, hits, |hits|) / ideal
  {
    if relevant != {} && k > 0 {
      var hits := Hits(Top(retrieved, k), relevant);
      GainIsSum(d, hits, |hits|);
      assert hits[..|hits|] == hits;
      IdealIsSum(d, Min(|relevant|, k));
      IdealGainGrows(d, 0, Min(|relevant|, k));
    }
  }

  lemma {:induction false} OneDiscount(d: nat -> real, hits: seq<bool>, p: nat, n: nat)
    requires p < |hits| && n <= |hits| && forall i :: 0 <= i < |hits| ==> (hits[i] <==> i == p)
    ensures DiscountSum(d, hits, n) == if p < n then d(p + 1) else 0.0
    decreases n
  {
    if n > 0 {
      OneDiscount(d, hits, p, n - 1);
    }
  }

  /** A single relevant id at position p of the ranking scores the discount of p over that of the top. */
  lemma NdcgOfOneHit(d: nat -> real, retrieved: seq<Id>, id: Id, k: int, p: nat)
    requires IsDiscount(d) && Distinct(retrieved) && p < |Top(retrieved, k)| && retrieved[p] == id
    ensures d(1) > 0.0 && NdcgAtK(d, retrieved, {id}, k) == d(p + 1) / d(1)
  {
    var top := Top(retrieved, k);
    var hits := Hits(top, {id});
    HitsLength(top, {id});
    forall i | 0 <= i < |hits| ensures hits[i] <==> i == p {
      HitsAt(top, {id}, i);
    }
    NdcgIs(d, retrieved, {id}, k);
    OneDiscount(d, hits, p, |hits|);
    assert FirstDiscounts(d, 1) == d(1) + FirstDiscounts(d, 0);
  }

  /** The precisions at the hits among the first n positions. */
  function PrecisionsAtHits(hits: seq<bool>, n: nat): real
    requires n <= |hits|
  {
    if n == 0 then 0.0
    else PrecisionsAtHits(hits, n - 1) + if hits[n - 1] then CountHits(hits[..n]) as real / n as real else 0.0
  }

  lemma {:induction false} PrecisionSumIs(hits: seq<bool>, n: nat)
    requires n <= |hits|
    ensures PrecisionSum(hits[..n], 1, 0) == PrecisionsAtHits(hits, n)
  {
    if n > 0 {
      PrecisionSumIs(hits, n - 1);
      var front, last := hits[..n - 1], hits[n - 1];
      assert hits[..n] == front + [last] && [last][1..] == [];
      CountConcat(front, [last]);
      PrecisionSumConcat(front, [last], 1, 0);
      assert PrecisionSum([last], n, CountHits(front)) == if last then Ratio(CountHits(front) + 1, n) else 0.0;
    }
  }

  /** Context precision is the mean, over the hits of the window, of the precision at each. */
  lemma ContextPrecisionIs(retrieved: seq<Id>, relevant: set<Id>, k: int)
    ensures var hits := Hits(Top(retrieved, k), relevant);
            ContextPrecision(retrieved, relevant, k) ==
            if CountHits(hits) == 0 then 0.0 else PrecisionsAtHits(hits, |hits|) / CountHits(hits) as real
  {
    var hits := Hits(Top(retrieved, k), relevant);
    PrecisionSumIs(hits, |hits|);
    assert hits[..|hits|] == hits;
  }
}
