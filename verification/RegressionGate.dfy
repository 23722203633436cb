/** The regression gate: a current report against the committed baseline, metric by metric. */
module RegressionGate {
  import opened Base
  import RealMath

  datatype Direction = HigherIsBetter | LowerIsBetter

  datatype Tolerance = Tolerance(direction: Direction, absolute: real, relative: real)

  /** A metric value as the report file holds it. */
  datatype Value = Number(value: real) | NotNumeric

  datatype Report = Report(
    config: Option<string>, dataset: Option<string>, metrics: map<string, Value>, notMeasured: map<string, string>)

  datatype Breach = Breach(metric: string, baseline: real, current: real, allowed: real, direction: Direction)

  datatype Refusal = ConfigDiffers | DatasetDiffers

  type Metrics = map<string, real>
  type Table = map<string, Tolerance>

  // ----- One metric ---------------------------------------------------------------------------------

  function Deviation(t: Tolerance, baseline: real): real {
    t.absolute + RealMath.Times(t.relative, RealMath.Abs(baseline))
  }

  predicate Breaches(t: Tolerance, baseline: real, current: real) {
    match t.direction
    case HigherIsBetter => current < baseline - Deviation(t, baseline)
    case LowerIsBetter => current > baseline + Deviation(t, baseline)
  }

  function Allowed(t: Tolerance, baseline: real): real {
    if t.direction.HigherIsBetter? then baseline - Deviation(t, baseline) else baseline + Deviation(t, baseline)
  }

  /** `current` is at least as good as `than`. */
  predicate AtLeastAsGood(d: Direction, current: real, than: real) {
    if d.HigherIsBetter? then current >= than else current <= than
  }

  /** The reported limit is exact: a value breaches exactly when it is worse than the limit. */
  lemma AllowedIsTheLimit(t: Tolerance, baseline: real, current: real)
    ensures Breaches(t, baseline, current) <==> !AtLeastAsGood(t.direction, current, Allowed(t, baseline))
  {
    hide Deviation;
  }

  // ----- Metric names in order ------------------------------------------------------------------------

  /** Code point order, as `sorted` uses it. */
  predicate NameLeq(a: string, b: string) {
    a == [] || (b != [] && (a[0] < b[0] || (a[0] == b[0] && NameLeq(a[1..], b[1..]))))
  }

  lemma {:induction false} NameLeqTotal(a: string, b: string)
    ensures NameLeq(a, b) || NameLeq(b, a)
    ensures NameLeq(a, b) && NameLeq(b, a) ==> a == b
  {
    if a != [] && b != [] && a[0] == b[0] {
      NameLeqTotal(a[1..], b[1..]);
      assert a == [a[0]] + a[1..] && b == [b[0]] + b[1..];
    }
  }

  lemma {:induction false} NameLeqTransitive(a: string, b: string, c: string)
    requires NameLeq(a, b) && NameLeq(b, c)
    ensures NameLeq(a, c)
  {
    if a != [] && b != [] && c != [] && a[0] == b[0] && b[0] == c[0] {
      NameLeqTransitive(a[1..], b[1..], c[1..]);
    }
  }

  /** A name comes first when it is the start of the other, or smaller at the first place where they differ. */
  lemma {:induction false} NameLeqIs(a: string, b: string)
    ensures NameLeq(a, b) <==> a <= b || exists i :: FirstDifference(a, b, i) && a[i] < b[i]
  {
    if a != [] && b != [] {
      NameLeqIs(a[1..], b[1..]);
      assert a == [a[0]] + a[1..] && b == [b[0]] + b[1..];
      if a[0] == b[0] {
        assert a <= b <==> a[1..] <= b[1..];
        if i :| FirstDifference(a[1..], b[1..], i) && a[1..][i] < b[1..][i] {
          assert FirstDifference(a, b, i + 1) && a[i + 1] < b[i + 1];
        }
        if i :| FirstDifference(a, b, i) && a[i] < b[i] {
          assert FirstDifference(a[1..], b[1..], i - 1) && a[1..][i - 1] < b[1..][i - 1];
        }
      } else {
        assert FirstDifference(a, b, 0);
        forall i | FirstDifference(a, b, i) ensures i == 0 {
        }
      }
    }
  }

  ghost predicate FirstDifference(a: string, b: string, i: int) {
    0 <= i < |a| && i < |b| && a[i] != b[i] && forall j :: 0 <= j < i ==> a[j] == b[j]
  }

  predicate IsLeast(name: string, names: set<string>) {
    name in names && forall other :: other in names ==> NameLeq(name, other)
  }

  lemma LeastExists(names: set<string>)
    requires names != {}
    ensures exists name :: IsLeast(name, names)
    decreases |names|
  {
    var one :| one in names;
    NameLeqTotal(one, one);
    if names == {one} {
      assert IsLeast(one, names);
    } else {
      assert names - {one} != {};
      LeastExists(names - {one});
      var least :| IsLeast(least, names - {one});
      NameLeqTotal(one, least);
      if NameLeq(least, one) {
        assert IsLeast(least, names);
      } else {
        forall other | other in names ensures NameLeq(one, other) {
          if other != one {
            NameLeqTransitive(one, least, other);
          }
        }
        assert IsLeast(one, names);
      }
    }
  }

  lemma LeastUnique(names: set<string>, a: string, b: string)
    requires IsLeast(a, names) && IsLeast(b, names)
    ensures a == b
  {
    NameLeqTotal(a, b);
  }

  function Least(names: set<string>): (least: string)
    requires names != {}
    ensures IsLeast(least, names)
  {
    LeastExists(names);
    assert forall a, b :: IsLeast(a, names) && IsLeast(b, names) ==> a == b by {
      forall a, b | IsLeast(a, names) && IsLeast(b, names) ensures a == b {
        LeastUnique(names, a, b);
      }
    }
    var least :| IsLeast(least, names);
    least
  }

  function Sorted(names: set<string>): seq<string> {
    if names == {} then [] else [Least(names)] + Sorted(names - {Least(names)})
  }

  lemma {:induction false} SortedListsOnce(names: set<string>)
    ensures |Sorted(names)| == |names|
    ensures forall name :: name in Sorted(names) <==> name in names
    ensures Distinct(Sorted(names))
    ensures forall i, j :: 0 <= i < j < |Sorted(names)| ==> NameLeq(Sorted(names)[i], Sorted(names)[j])
    decreases |names|
  {
    if names != {} {
      var least := Least(names);
      var rest := Sorted(names - {least});
      SortedListsOnce(names - {least});
      assert Sorted(names) == [least] + rest;
      forall j | 0 <= j < |rest| ensures rest[j] != least && NameLeq(least, rest[j]) {
        assert rest[j] in rest;
      }
    }
  }

  // ----- The verdict --------------------------------------------------------------------------------

  datatype Class = Skipped | Missing | Unknown | Compared

  /** What is looked at, in this order: not measured, absent, untabled, compared. */
  function ClassOf(metric: string, current: Metrics, notMeasured: map<string, string>, table: Table): Class {
    if metric in notMeasured then Skipped
    else if metric !in current then Missing
    else if metric !in table then Unknown
    else Compared
  }

  /** One comparison: both reports' typed metrics, what was not measured, and the tolerances. */
  datatype Pair = Pair(baseline: Metrics, current: Metrics, notMeasured: map<string, string>, table: Table)

  predicate Is(p: Pair, metric: string, c: Class) {
    ClassOf(metric, p.current, p.notMeasured, p.table) == c
  }

  function BreachIn(p: Pair, metric: string): Option<Breach> {
    if metric in p.baseline && Is(p, metric, Compared) then
      var t, b, c := p.table[metric], p.baseline[metric], p.current[metric];
      if Breaches(t, b, c) then Some(Breach(metric, b, c, Allowed(t, b), t.direction)) else None
    else None
  }

  function BreachesIn(p: Pair, names: seq<string>): seq<Breach> {
    MapSome(metric => BreachIn(p, metric), names)
  }

  function Of(p: Pair, c: Class, names: seq<string>): seq<string> {
    Filter(metric => Is(p, metric, c), names)
  }

  function SkippedIn(p: Pair, names: seq<string>): map<string, string> {
    map metric | metric in names && metric in p.notMeasured :: p.notMeasured[metric]
  }

  /** What the gate finds in the metrics `names`, in that order. */
  datatype Findings = Findings(
    breaches: seq<Breach>, skipped: map<string, string>, missing: seq<string>, unknown: seq<string>, compared: nat)

  function FindingsIn(p: Pair, names: seq<string>): Findings {
    Findings(BreachesIn(p, names), SkippedIn(p, names), Of(p, Missing, names), Of(p, Unknown, names),
             |Of(p, Compared, names)|)
  }

  predicate Clean(f: Findings) {
    f.breaches == [] && f.missing == [] && f.unknown == []
  }

  function Gate(p: Pair): Findings {
    FindingsIn(p, Sorted(p.baseline.Keys))
  }

  // ----- The comparison in place ------------------------------------------------------------------------

  class RegressionResult {
    var ok: bool
    var breaches: seq<Breach>
    var skipped: map<string, string>
    var missing: seq<string>
    var unknown: seq<string>
    var refusal: Option<Refusal>
    var compared: nat

    function Found(): Findings
      reads this
    {
      Findings(breaches, skipped, missing, unknown, compared)
    }

    constructor ()
      ensures ok && Found() == Findings([], map[], [], [], 0) && refusal == None
    {
      ok, breaches, skipped, missing, unknown, refusal, compared := true, [], map[], [], [], None, 0;
    }

    /** One turn of the loop: files `names[i]` under exactly one heading. */
    method Examine(p: Pair, names: seq<string>, i: nat)
      requires i < |names| && names[i] in p.baseline
      requires Found() == FindingsIn(p, names[..i])
      requires ok <==> Clean(Found())
      modifies this
      ensures Found() == FindingsIn(p, names[..i + 1]) && (ok <==> Clean(Found()))
      ensures refusal == old(refusal)
    {
      var metric := names[i];
      FindingsNext(p, names, i);
      hide FindingsIn, Deviation;
      if metric in p.notMeasured {
        skipped := skipped[metric := p.notMeasured[metric]];
        return;
      }
      if metric !in p.current {
        missing := missing + [metric];
        ok := false;
        return;
      }
      if metric !in p.table {
        unknown := unknown + [metric];
        ok := false;
        return;
      }
      var tolerance, baseline, current := p.table[metric], p.baseline[metric], p.current[metric];
      compared := compared + 1;
      if Breaches(tolerance, baseline, current) {
        var allowed :=
          if tolerance.direction.HigherIsBetter? then baseline - Deviation(tolerance, baseline)
          else baseline + Deviation(tolerance, baseline);
        breaches := breaches + [Breach(metric, baseline, current, allowed, tolerance.direction)];
        ok := false;
      }
    }
  }

  /** One more metric, filed under its heading. */
  function Filed(p: Pair, f: Findings, metric: string): Findings {
    match ClassOf(metric, p.current, p.notMeasured, p.table)
    case Skipped => f.(skipped := f.skipped[metric := p.notMeasured[metric]])
    case Missing => f.(missing := f.missing + [metric])
    case Unknown => f.(unknown := f.unknown + [metric])
    case Compared => f.(compared := f.compared + 1, breaches := f.breaches + Optional(BreachIn(p, metric)))
  }

  lemma FindingsNext(p: Pair, names: seq<string>, i: nat)
    requires i < |names|
    ensures FindingsIn(p, names[..i + 1]) == Filed(p, FindingsIn(p, names[..i]), names[i])
  {
    var front, name := names[..i], names[i];
    assert names[..i + 1] == front + [name];
    BreachesNext(p, front, name);
    OfNext(p, Missing, front, name);
    OfNext(p, Unknown, front, name);
    OfNext(p, Compared, front, name);
    SkippedNext(p, front, name);
    hide Of, BreachesIn, Breaches, Allowed, SkippedIn;
    assert BreachesIn(p, front) + [] == BreachesIn(p, front);
  }

  lemma SkippedNext(p: Pair, front: seq<string>, name: string)
    ensures SkippedIn(p, front + [name])
         == if name in p.notMeasured then SkippedIn(p, front)[name := p.notMeasured[name]] else SkippedIn(p, front)
  {
  }

  lemma BreachesNext(p: Pair, front: seq<string>, name: string)
    ensures BreachesIn(p, front + [name]) == BreachesIn(p, front) + Optional(BreachIn(p, name))
  {
    var f := (metric: string) => BreachIn(p, metric);
    MapSomeConcat(f, front, [name]);
    MapSomeOne(f, name);
  }

  lemma OfNext(p: Pair, c: Class, front: seq<string>, name: string)
    ensures Of(p, c, front + [name]) == if Is(p, name, c) then Of(p, c, front) + [name] else Of(p, c, front)
  {
    FilterConcat(metric => Is(p, metric, c), front, [name]);
    assert Of(p, c, front) + [] == Of(p, c, front);
  }

  /** The typed metrics of a report; reading them fails when one is not a number. */
  function Typed(raw: map<string, Value>): Option<Metrics> {
    if forall metric :: metric in raw ==> raw[metric].Number? then Some(map metric | metric in raw :: raw[metric].value)
    else None
  }

  method TypedMetrics(raw: map<string, Value>) returns (typed: Option<Metrics>)
    ensures typed == Typed(raw)
  {
    var done: Metrics := map[];
    var todo := raw.Keys;
    while todo != {}
      invariant todo <= raw.Keys && done.Keys == raw.Keys - todo
      invariant forall metric :: metric in done ==> raw[metric] == Number(done[metric])
      decreases |todo|
    {
      var metric :| metric in todo;
      if raw[metric].NotNumeric? {
        return None;
      }
      done := done[metric := raw[metric].value];
      todo := todo - {metric};
    }
    assert forall metric :: metric in raw ==> raw[metric].Number?;
    assert done == map metric | metric in raw :: raw[metric].value;
    return Some(done);
  }

  function RefusalOf(baseline: Report, current: Report, allowConfigChange: bool): Option<Refusal> {
    if allowConfigChange then None
    else if baseline.config != current.config then Some(ConfigDiffers)
    else if baseline.dataset != current.dataset then Some(DatasetDiffers)
    else None
  }

  function PairOf(baseline: Report, current: Report, table: Table): Option<Pair> {
    var b, c := Typed(baseline.metrics), Typed(current.metrics);
    if b.Some? && c.Some? then Some(Pair(b.value, c.value, current.notMeasured, table)) else None
  }

  /** A refusal, an unreadable report, or the findings over the baseline's metrics in name order. */
  method CompareReports(baseline: Report, current: Report, table: Table, allowConfigChange: bool)
    returns (result: Option<RegressionResult>)
    ensures result.None? <==> RefusalOf(baseline, current, allowConfigChange).None? && PairOf(baseline, current, table).None?
    ensures result.Some? ==> fresh(result.value) && result.value.refusal == RefusalOf(baseline, current, allowConfigChange)
    ensures result.Some? && result.value.refusal.Some? ==>
      !result.value.ok && result.value.Found() == Findings([], map[], [], [], 0)
    ensures result.Some? && result.value.refusal.None? ==>
      && PairOf(baseline, current, table).Some?
      && result.value.Found() == Gate(PairOf(baseline, current, table).value)
      && (result.value.ok <==> Clean(result.value.Found()))
  {
    hide Sorted, FindingsIn, Typed;
    var r := new RegressionResult();
    if baseline.config != current.config && !allowConfigChange {
      r.ok, r.refusal := false, Some(ConfigDiffers);
      return Some(r);
    }
    if baseline.dataset != current.dataset && !allowConfigChange {
      r.ok, r.refusal := false, Some(DatasetDiffers);
      return Some(r);
    }
    var baselineMetrics := TypedMetrics(baseline.metrics);
    var currentMetrics := TypedMetrics(current.metrics);
    if baselineMetrics.None? || currentMetrics.None? {
      return None;
    }
    var p := Pair(baselineMetrics.value, currentMetrics.value, current.notMeasured, table);
    var names := Sorted(p.baseline.Keys);
    SortedListsOnce(p.baseline.Keys);
    NothingFound(p, names);
    for i := 0 to |names|
      invariant fresh(r) && r.refusal == None
      invariant r.Found() == FindingsIn(p, names[..i]) && (r.ok <==> Clean(r.Found()))
    {
      r.Examine(p, names, i);
    }
    assert names[..|names|] == names;
    return Some(r);
  }

  lemma NothingFound(p: Pair, names: seq<string>)
    ensures FindingsIn(p, names[..0]) == Findings([], map[], [], [], 0)
  {
    assert names[..0] == [];
  }

  // ----- What the gate decides ----------------------------------------------------------------------

  /** The metric does not stand in the way of a pass. */
  predicate MetricPasses(p: Pair, metric: string)
    requires metric in p.baseline
  {
    || metric in p.notMeasured
    || (&& metric in p.current && metric in p.table
        && !Breaches(p.table[metric], p.baseline[metric], p.current[metric]))
  }

  ghost predicate Passes(p: Pair) {
    Clean(Gate(p))
  }

  lemma OfIs(p: Pair, c: Class, names: seq<string>)
    ensures forall name :: name in Of(p, c, names) <==> name in names && Is(p, name, c)
  {
    FilterIs(metric => Is(p, metric, c), names);
  }

  lemma {:induction false} NoBreachIff(p: Pair, names: seq<string>)
    ensures BreachesIn(p, names) == [] <==> forall name :: name in names ==> BreachIn(p, name).None?
  {
    if names != [] {
      NoBreachIff(p, names[1..]);
      assert names == [names[0]] + names[1..];
    }
  }

  lemma EmptyIff(p: Pair, c: Class, names: seq<string>)
    ensures Of(p, c, names) == [] <==> forall name :: name in names ==> !Is(p, name, c)
  {
    OfIs(p, c, names);
    if Of(p, c, names) != [] {
      assert Of(p, c, names)[0] in Of(p, c, names);
    }
  }

  predicate Unhindered(p: Pair, metric: string) {
    BreachIn(p, metric).None? && !Is(p, metric, Missing) && !Is(p, metric, Unknown)
  }

  lemma UnhinderedPasses(p: Pair, metric: string)
    requires metric in p.baseline
    ensures Unhindered(p, metric) <==> MetricPasses(p, metric)
  {
    hide Breaches, Allowed;
  }

  lemma CleanIff(p: Pair, names: seq<string>)
    ensures Clean(FindingsIn(p, names)) <==> forall name :: name in names ==> Unhindered(p, name)
  {
    NoBreachIff(p, names);
    EmptyIff(p, Missing, names);
    EmptyIff(p, Unknown, names);
    hide Of, BreachesIn, BreachIn, Is;
  }

  /** The gate passes exactly when every baseline metric was not measured, or is tabled and within its slack. */
  lemma PassesIff(p: Pair)
    ensures Passes(p) <==> forall metric :: metric in p.baseline ==> MetricPasses(p, metric)
  {
    hide FindingsIn, Unhindered, MetricPasses, Clean, Sorted;
    var names := Sorted(p.baseline.Keys);
    SortedListsOnce(p.baseline.Keys);
    CleanIff(p, names);
    forall metric | metric in p.baseline ensures Unhindered(p, metric) <==> MetricPasses(p, metric) {
      UnhinderedPasses(p, metric);
    }
  }

  lemma {:induction false} ClassesAddUp(p: Pair, names: seq<string>)
    ensures |Of(p, Skipped, names)| + |Of(p, Missing, names)| + |Of(p, Unknown, names)| + |Of(p, Compared, names)| == |names|
  {
    if names != [] {
      ClassesAddUp(p, names[1..]);
      forall c: Class ensures Of(p, c, names) == (if Is(p, names[0], c) then [names[0]] else []) + Of(p, c, names[1..]) {
      }
    }
  }

  lemma {:induction false} DistinctFilterSize(keep: string -> bool, names: seq<string>)
    requires Distinct(names)
    ensures |Filter(keep, names)| == |set name | name in names && keep(name)|
  {
    var all := set name | name in names && keep(name);
    if names == [] {
      assert all == {};
    } else {
      TailDistinct(names);
      hide Distinct;
      DistinctFilterSize(keep, names[1..]);
      var rest := set name | name in names[1..] && keep(name);
      if keep(names[0]) {
        assert all == {names[0]} + rest;
      } else {
        assert all == rest;
      }
    }
  }

  lemma SkippedCount(p: Pair, names: seq<string>)
    requires Distinct(names)
    ensures |SkippedIn(p, names)| == |Of(p, Skipped, names)|
  {
    var keep := (metric: string) => Is(p, metric, Skipped);
    DistinctFilterSize(keep, names);
    assert SkippedIn(p, names).Keys == set name | name in names && keep(name);
    assert Of(p, Skipped, names) == Filter(keep, names);
    KeysCount(SkippedIn(p, names));
  }

  /** Every baseline metric lands under exactly one heading, and the counts add up. */
  lemma EveryMetricOnce(p: Pair)
    ensures var f := Gate(p);
            && |f.skipped| + |f.missing| + |f.unknown| + f.compared == |p.baseline|
            && (forall metric :: metric in p.baseline ==>
                  (metric in f.skipped <==> Is(p, metric, Skipped))
                  && (metric in f.missing <==> Is(p, metric, Missing))
                  && (metric in f.unknown <==> Is(p, metric, Unknown)))
            && |f.breaches| <= f.compared
  {
    var names := Sorted(p.baseline.Keys);
    SortedListsOnce(p.baseline.Keys);
    OfIs(p, Missing, names);
    OfIs(p, Unknown, names);
    ClassesAddUp(p, names);
    BreachesAreCompared(p, names);
    SkippedCount(p, names);
    KeysCount(p.baseline);
    hide Of, BreachesIn, Sorted;
  }

  lemma KeysCount<V>(m: map<string, V>)
    ensures |m| == |m.Keys|
  {
  }

  lemma {:induction false} BreachesAreCompared(p: Pair, names: seq<string>)
    ensures |BreachesIn(p, names)| <= |Of(p, Compared, names)|
  {
    if names != [] {
      BreachesAreCompared(p, names[1..]);
    }
  }

  /** Every current value is at least as good as before, and nothing disappears from the report. */
  ghost predicate Improves(p: Pair, q: Pair) {
    && q.baseline == p.baseline && q.table == p.table && q.notMeasured == p.notMeasured
    && (forall metric :: metric in p.current ==> metric in q.current)
    && (forall metric :: metric in p.current && metric in p.table ==>
          AtLeastAsGood(p.table[metric].direction, q.current[metric], p.current[metric]))
  }

  /** Improving current values never turns a pass into a failure, whatever the signs in the table. */
  lemma ImprovementNeverFails(p: Pair, q: Pair)
    requires Improves(p, q) && Passes(p)
    ensures Passes(q)
  {
    PassesIff(p);
    PassesIff(q);
    hide Passes, Deviation, Breaches, Allowed;
    forall metric | metric in q.baseline ensures MetricPasses(q, metric) {
      assert MetricPasses(p, metric);
      if metric !in p.notMeasured {
        var t, b := p.table[metric], p.baseline[metric];
        AllowedIsTheLimit(t, b, p.current[metric]);
        AllowedIsTheLimit(t, b, q.current[metric]);
      }
    }
  }

  ghost predicate Widens(t: Tolerance, u: Tolerance) {
    u.direction == t.direction && u.absolute >= t.absolute && u.relative >= t.relative
  }

  lemma WiderDeviation(t: Tolerance, u: Tolerance, baseline: real)
    requires Widens(t, u)
    ensures Deviation(u, baseline) >= Deviation(t, baseline)
  {
    RealMath.TimesMonotone(RealMath.Abs(baseline), t.relative, u.relative);
    TimesCommutes(RealMath.Abs(baseline), t.relative);
    TimesCommutes(RealMath.Abs(baseline), u.relative);
  }

  lemma TimesCommutes(x: real, y: real)
    ensures RealMath.Times(x, y) == RealMath.Times(y, x)
  {
  }

  /** Widening tolerances, or tabling more metrics, never turns a pass into a failure. */
  lemma WideningNeverFails(p: Pair, q: Pair)
    requires q == p.(table := q.table) && Passes(p)
    requires forall metric :: metric in p.table ==> metric in q.table && Widens(p.table[metric], q.table[metric])
    ensures Passes(q)
  {
    PassesIff(p);
    PassesIff(q);
    hide Passes, Deviation;
    forall metric | metric in q.baseline ensures MetricPasses(q, metric) {
      assert MetricPasses(p, metric);
      if metric !in p.notMeasured {
        WiderDeviation(p.table[metric], q.table[metric], p.baseline[metric]);
      }
    }
  }

  ghost predicate SlackKnown(table: Table, metric: string, value: real) {
    metric in table && Deviation(table[metric], value) >= 0.0
  }

  /** A report passes against itself exactly when each metric it measured is tabled with non-negative slack. */
  lemma SelfComparisonPassesIff(r: Report, table: Table)
    requires Typed(r.metrics).Some?
    ensures RefusalOf(r, r, false).None? && PairOf(r, r, table).Some?
    ensures var values := Typed(r.metrics).value;
            Passes(PairOf(r, r, table).value)
            <==> forall metric :: metric in values && metric !in r.notMeasured ==> SlackKnown(table, metric, values[metric])
  {
    var p := PairOf(r, r, table).value;
    PassesIff(p);
    hide Passes, Deviation;
    forall metric | metric in p.baseline
      ensures MetricPasses(p, metric) <==> metric in r.notMeasured || SlackKnown(table, metric, p.baseline[metric]) {
    }
  }

  // ----- The gate in numbers -----------------------------------------------------------------------------

  /** How far a metric may fall behind: an absolute part, and a share of the baseline's size. */
  function Slack(t: Tolerance, baseline: real): real {
    t.absolute + t.relative * (if baseline >= 0.0 then baseline else -baseline)
  }

  /** The current value is no worse than the baseline by more than the slack. */
  predicate WithinSlack(t: Tolerance, baseline: real, current: real) {
    match t.direction
    case HigherIsBetter => current >= baseline - Slack(t, baseline)
    case LowerIsBetter => current <= baseline + Slack(t, baseline)
  }

  lemma BreachesIff(t: Tolerance, baseline: real, current: real)
    ensures Breaches(t, baseline, current) <==> !WithinSlack(t, baseline, current)
    ensures Allowed(t, baseline) == if t.direction.HigherIsBetter? then baseline - Slack(t, baseline) else baseline + Slack(t, baseline)
  {
    assert Deviation(t, baseline) == Slack(t, baseline);
  }

  /** The number a report holds for a metric. */
  ghost predicate Holds(r: Report, metric: string, value: real) {
    metric in r.metrics && r.metrics[metric] == Number(value)
  }

  ghost predicate Readable(r: Report) {
    forall metric :: metric in r.metrics ==> r.metrics[metric].Number?
  }

  /** A metric of the baseline that is not excused must be there, be tabled and be within its slack. */
  ghost predicate HoldsUp(baseline: Report, current: Report, table: Table, metric: string) {
    || metric in current.notMeasured
    || exists b, c :: Holds(baseline, metric, b) && Holds(current, metric, c)
         && metric in table && WithinSlack(table[metric], b, c)
  }

  /** Two reports are comparable when nothing was reconfigured, or that is overridden. */
  predicate Comparable(baseline: Report, current: Report, override: bool) {
    override || (baseline.config == current.config && baseline.dataset == current.dataset)
  }

  /** Why a comparison is refused: a differing configuration first, then a differing dataset. */
  lemma RefusalIff(baseline: Report, current: Report, override: bool)
    ensures var r := RefusalOf(baseline, current, override);
            && (r.None? <==> Comparable(baseline, current, override))
            && (r == Some(ConfigDiffers) <==> !override && baseline.config != current.config)
            && (r == Some(DatasetDiffers) <==>
                  !override && baseline.config == current.config && baseline.dataset != current.dataset)
  {
  }

  /** The verdict on two whole reports: comparable, readable, and every metric of the baseline holds up. */
  lemma VerdictIff(baseline: Report, current: Report, table: Table, override: bool)
    ensures RefusalOf(baseline, current, override).None? <==> Comparable(baseline, current, override)
    ensures PairOf(baseline, current, table).Some? <==> Readable(baseline) && Readable(current)
    ensures PairOf(baseline, current, table).Some? ==>
      (Clean(Gate(PairOf(baseline, current, table).value))
       <==> forall metric :: metric in baseline.metrics ==> HoldsUp(baseline, current, table, metric))
  {
    RefusalIff(baseline, current, override);
    if Readable(baseline) && Readable(current) {
      var p := PairOf(baseline, current, table).value;
      PassesIff(p);
      hide Clean, Gate;
      assert p.baseline.Keys == baseline.metrics.Keys && p.current.Keys == current.metrics.Keys;
      forall metric | metric in p.baseline ensures MetricPasses(p, metric) <==> HoldsUp(baseline, current, table, metric) {
        assert Holds(baseline, metric, p.baseline[metric]);
        if metric in p.current {
          assert Holds(current, metric, p.current[metric]);
        }
        if metric in p.current && metric in table {
          BreachesIff(table[metric], p.baseline[metric], p.current[metric]);
        }
        hide Breaches, WithinSlack;
      }
    }
  }

  lemma {:induction false} BreachListIs(p: Pair, names: seq<string>, breach: Breach)
    ensures breach in BreachesIn(p, names) <==> breach.metric in names && BreachIn(p, breach.metric) == Some(breach)
  {
    if names != [] {
      BreachListIs(p, names[1..], breach);
      assert names == [names[0]] + names[1..];
      hide Breaches, Allowed;
    }
  }

  /** Each heading of the findings lists exactly the metrics it is for, and each breach says what was found. */
  lemma HeadingsAre(p: Pair)
    ensures var f := Gate(p);
            && (forall m :: m in f.skipped <==> m in p.baseline && m in p.notMeasured)
            && (forall m :: m in f.skipped ==> f.skipped[m] == p.notMeasured[m])
            && (forall m :: m in f.missing <==> m in p.baseline && m !in p.notMeasured && m !in p.current)
            && (forall m :: m in f.unknown <==>
                  m in p.baseline && m !in p.notMeasured && m in p.current && m !in p.table)
            && (forall breach :: breach in f.breaches <==>
                  var m := breach.metric;
                  && m in p.baseline && m !in p.notMeasured && m in p.current && m in p.table
                  && !WithinSlack(p.table[m], p.baseline[m], p.current[m])
                  && breach.baseline == p.baseline[m] && breach.current == p.current[m]
                  && breach.direction == p.table[m].direction
                  && breach.allowed == (if p.table[m].direction.HigherIsBetter?
                                        then p.baseline[m] - Slack(p.table[m], p.baseline[m])
                                        else p.baseline[m] + Slack(p.table[m], p.baseline[m])))
  {
    var names := Sorted(p.baseline.Keys);
    SortedListsOnce(p.baseline.Keys);
    OfIs(p, Missing, names);
    OfIs(p, Unknown, names);
    hide Sorted, Of, BreachesIn;
    forall breach: Breach
      ensures breach in BreachesIn(p, names) <==> breach.metric in p.baseline && BreachIn(p, breach.metric) == Some(breach) {
      BreachListIs(p, names, breach);
    }
    forall m | m in p.baseline && m in p.current && m in p.table
      ensures Breaches(p.table[m], p.baseline[m], p.current[m]) <==> !WithinSlack(p.table[m], p.baseline[m], p.current[m])
      ensures Allowed(p.table[m], p.baseline[m]) == if p.table[m].direction.HigherIsBetter?
        then p.baseline[m] - Slack(p.table[m], p.baseline[m]) else p.baseline[m] + Slack(p.table[m], p.baseline[m]) {
      BreachesIff(p.table[m], p.baseline[m], p.current[m]);
    }
    hide Breaches, Allowed, WithinSlack, Slack;
  }
}
