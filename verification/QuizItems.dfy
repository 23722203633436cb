/**
  Grounded quiz generation: every item the model proposes is validated and grounded, or dropped with a
  reason; a short quiz is reported, never padded.
 */
module QuizItems {
  import opened Base
  import opened Grading

  type ConceptId = nat

  datatype ItemType = MultipleChoice | ShortAnswer | ConceptCheck

  /** One item as the model returned it; `concept` is what its concept id parses to. */
  datatype RawItem = RawItem(
    kind: ItemType, prompt: string, choices: seq<string>, correctIndices: seq<int>,
    modelAnswer: Option<string>, correctBoolean: Option<bool>, citations: seq<string>,
    concept: Option<ConceptId>, justification: Option<string>)

  datatype QuizItem = QuizItem(
    id: string, kind: ItemType, prompt: string, choices: seq<string>, correctIndex: Option<int>,
    modelAnswer: Option<string>, correctBoolean: Option<bool>, rubric: seq<Criterion>,
    citations: seq<string>, concept: Option<ConceptId>, justification: Option<string>)

  /** What an item is checked against; `strip` trims a prompt. */
  datatype Brief = Brief(
    allowed: set<ItemType>, offered: set<string>, candidates: set<ConceptId>,
    linked: map<string, set<ConceptId>>, strip: string -> string)

  datatype Reason =
    | UnsupportedItemType | UngroundedItem | InvalidMultipleChoice | MissingModelAnswer
    | MissingCorrectBoolean | InvalidItem
    | NoEvidence | LlmUnavailable | StructuredOutputFailed | NoGroundedItems | InsufficientGroundedItems

  const MAX_PROMPT := 4000

  // ----- First appearances ---------------------------------------------------------------------

  /** The distinct elements in order of first appearance. */
  function Unique<A(==)>(xs: seq<A>): seq<A> {
    if xs == [] then []
    else
      var front, last := Unique(xs[..|xs| - 1]), xs[|xs| - 1];
      if last in front then front else front + [last]
  }

  lemma {:induction false} UniqueKeepsMembers<A(!new)>(xs: seq<A>)
    ensures Distinct(Unique(xs))
    ensures forall x :: x in Unique(xs) <==> x in xs
    decreases |xs|
  {
    if xs != [] {
      UniqueKeepsMembers(xs[..|xs| - 1]);
      assert xs == xs[..|xs| - 1] + [xs[|xs| - 1]];
    }
  }

  /** Whatever is seen first stays first: a longer list only adds at the end. */
  lemma {:induction false} UniqueKeepsOrder<A(!new)>(xs: seq<A>, ys: seq<A>)
    ensures Unique(xs) <= Unique(xs + ys)
    decreases |ys|
  {
    if ys == [] {
      assert xs + ys == xs;
    } else {
      UniqueKeepsOrder(xs, ys[..|ys| - 1]);
      assert (xs + ys)[..|xs + ys| - 1] == xs + ys[..|ys| - 1];
    }
  }

  lemma UniqueNext<A>(xs: seq<A>, x: A)
    ensures Unique(xs + [x]) == if x in Unique(xs) then Unique(xs) else Unique(xs) + [x]
  {
    assert (xs + [x])[..|xs + [x]| - 1] == xs;
  }

  /** `unique`: one loop with a set of what was seen. */
  method DropRepeats(values: seq<Reason>) returns (result: seq<Reason>)
    ensures result == Unique(values)
  {
    var seen: set<Reason> := {};
    result := [];
    for i := 0 to |values|
      invariant result == Unique(values[..i]) && seen == set r | r in result
    {
      assert values[..i + 1] == values[..i] + [values[i]];
      UniqueNext(values[..i], values[i]);
      if values[i] !in seen {
        seen := seen + {values[i]};
        result := result + [values[i]];
      }
    }
    assert values[..|values|] == values;
  }

  // ----- One item ---------------------------------------------------------------------------------

  /** The offered citations of an item, each once, in the order the model named them. */
  function Citations(raw: seq<string>, offered: set<string>): seq<string> {
    Unique(Filter(c => c in offered, raw))
  }

  method ResolvableCitations(rawIds: seq<string>, offered: set<string>) returns (result: seq<string>)
    ensures result == Citations(rawIds, offered)
    ensures Distinct(result) && forall c :: c in result <==> c in rawIds && c in offered
  {
    var seen: set<string> := {};
    result := [];
    for i := 0 to |rawIds|
      invariant result == Citations(rawIds[..i], offered) && seen == set c | c in result
    {
      CitationNext(rawIds, offered, i);
      hide Citations;
      if rawIds[i] in offered && rawIds[i] !in seen {
        seen := seen + {rawIds[i]};
        result := result + [rawIds[i]];
      }
    }
    assert rawIds[..|rawIds|] == rawIds;
    CitationsResolve(rawIds, offered);
  }

  lemma CitationNext(raw: seq<string>, offered: set<string>, i: nat)
    requires i < |raw|
    ensures var front := Citations(raw[..i], offered);
            Citations(raw[..i + 1], offered)
            == if raw[i] in offered && raw[i] !in front then front + [raw[i]] else front
  {
    var keep := c => c in offered;
    var front := Filter(keep, raw[..i]);
    assert raw[..i + 1] == raw[..i] + [raw[i]];
    FilterConcat(keep, raw[..i], [raw[i]]);
    if raw[i] in offered {
      UniqueNext(front, raw[i]);
    } else {
      assert front + [] == front;
    }
  }

  lemma CitationsResolve(raw: seq<string>, offered: set<string>)
    ensures Distinct(Citations(raw, offered))
    ensures forall c :: c in Citations(raw, offered) <==> c in raw && c in offered
  {
    var keep := c => c in offered;
    UniqueKeepsMembers(Filter(keep, raw));
    FilterIs(keep, raw);
    assert Citations(raw, offered) == Unique(Filter(keep, raw));
  }

  /** The one correct option, unless the item is ambiguous. */
  function CorrectIndex(raw: RawItem): Option<int> {
    if |raw.choices| != 4 || |raw.correctIndices| != 1 then None
    else if 0 <= raw.correctIndices[0] < 4 then Some(raw.correctIndices[0])
    else None
  }

  function RubricFor(kind: ItemType): seq<Criterion> {
    if kind.MultipleChoice? then [Criterion("correct_option", 1.0)]
    else [Criterion("correctness", 0.5), Criterion("reasoning", 0.3), Criterion("grounding", 0.2)]
  }

  /** The concepts that the evidence behind some of `citations` is linked to. */
  function LinkedTo(citations: seq<string>, linked: map<string, set<ConceptId>>): set<ConceptId> {
    set i, c | 0 <= i < |citations| && citations[i] in linked && c in linked[citations[i]] :: c
  }

  /** The item's concept, kept only for a candidate that the item's own evidence is linked to. */
  method LinkedConcept(raw: Option<ConceptId>, citations: seq<string>, brief: Brief)
    returns (concept: Option<ConceptId>)
    ensures concept == Attached(raw, citations, brief)
  {
    if raw.None? || raw.value !in brief.candidates {
      return None;
    }
    var linked: set<ConceptId> := {};
    for i := 0 to |citations|
      invariant linked == LinkedTo(citations[..i], brief.linked)
    {
      if citations[i] in brief.linked {
        linked := linked + brief.linked[citations[i]];
      }
    }
    assert citations[..|citations|] == citations;
    return if raw.value in linked then raw else None;
  }

  function Attached(raw: Option<ConceptId>, citations: seq<string>, brief: Brief): Option<ConceptId> {
    if raw.Some? && raw.value in brief.candidates && raw.value in LinkedTo(citations, brief.linked) then raw
    else None
  }

  /** The structural check every quiz item passes when it is built or read back. */
  predicate Shaped(item: QuizItem) {
    && 1 <= |item.prompt| <= MAX_PROMPT
    && (match item.kind
        case MultipleChoice => |item.choices| == 4 && item.correctIndex.Some? && 0 <= item.correctIndex.value < 4
        case ShortAnswer => item.modelAnswer.Some? && item.modelAnswer.value != ""
        case ConceptCheck => item.correctBoolean.Some?)
    && item.citations != []
  }

  function PromptOf(raw: RawItem, brief: Brief): string {
    var stripped := brief.strip(raw.prompt);
    if stripped == "" then "Untitled item" else stripped
  }

  predicate Answerable(raw: RawItem) {
    match raw.kind
    case MultipleChoice => CorrectIndex(raw).Some?
    case ShortAnswer => raw.modelAnswer.Some? && raw.modelAnswer.value != ""
    case ConceptCheck => raw.correctBoolean.Some?
  }

  /** An item is kept when it is of a requested kind, cites offered evidence and can be graded. */
  predicate Acceptable(raw: RawItem, brief: Brief) {
    && raw.kind in brief.allowed
    && (exists c :: c in raw.citations && c in brief.offered)
    && Answerable(raw)
    && |PromptOf(raw, brief)| <= MAX_PROMPT
  }

  /** A kept item before it is numbered. */
  function Content(raw: RawItem, brief: Brief): QuizItem {
    var citations := Citations(raw.citations, brief.offered);
    QuizItem("", raw.kind, PromptOf(raw, brief), raw.choices, CorrectIndex(raw), raw.modelAnswer,
             raw.correctBoolean, RubricFor(raw.kind), citations, Attached(raw.concept, citations, brief),
             raw.justification)
  }

  function Kept(brief: Brief): RawItem -> Option<QuizItem> {
    (raw: RawItem) => if Acceptable(raw, brief) then Some(Content(raw, brief)) else None
  }

  /** Why an item is dropped: the first check it fails. */
  function Fault(brief: Brief): RawItem -> Option<Reason> {
    (raw: RawItem) =>
      if Acceptable(raw, brief) then None
      else if raw.kind !in brief.allowed then Some(UnsupportedItemType)
      else if forall c :: c in raw.citations ==> c !in brief.offered then Some(UngroundedItem)
      else if Answerable(raw) then Some(InvalidItem)
      else match raw.kind
        case MultipleChoice => Some(InvalidMultipleChoice)
        case ShortAnswer => Some(MissingModelAnswer)
        case ConceptCheck => Some(MissingCorrectBoolean)
  }

  /** The guards of the building loop, one after another, in the order it runs them. */
  method BuildQuizItem(raw: RawItem, brief: Brief) returns (item: Option<QuizItem>, reason: Option<Reason>)
    ensures item == Kept(brief)(raw) && reason == Fault(brief)(raw)
    ensures item.Some? ==> Shaped(item.value)
  {
    item, reason := None, None;
    if raw.kind !in brief.allowed {
      return None, Some(UnsupportedItemType);
    }
    var citations := ResolvableCitations(raw.citations, brief.offered);
    if citations == [] {
      Uncited(raw, brief);
      return None, Some(UngroundedItem);
    }
    assert citations[0] in citations;
    var correctIndex := CorrectIndex(raw);
    if raw.kind.MultipleChoice? && correctIndex.None? {
      return None, Some(InvalidMultipleChoice);
    }
    if raw.kind.ShortAnswer? && (raw.modelAnswer.None? || raw.modelAnswer.value == "") {
      return None, Some(MissingModelAnswer);
    }
    if raw.kind.ConceptCheck? && raw.correctBoolean.None? {
      return None, Some(MissingCorrectBoolean);
    }
    var stripped := brief.strip(raw.prompt);
    var prompt := if stripped == "" then "Untitled item" else stripped;
    var concept := LinkedConcept(raw.concept, citations, brief);
    var built := QuizItem(
      "", raw.kind, prompt, raw.choices, correctIndex, raw.modelAnswer, raw.correctBoolean,
      RubricFor(raw.kind), citations, concept, raw.justification);
    if !Shaped(built) {
      return None, Some(InvalidItem);
    }
    return Some(built), None;
  }

  lemma Uncited(raw: RawItem, brief: Brief)
    requires Citations(raw.citations, brief.offered) == []
    ensures forall c :: c in raw.citations ==> c !in brief.offered
  {
    hide Citations;
    CitationsResolve(raw.citations, brief.offered);
  }

  // ----- The list ---------------------------------------------------------------------------------

  function Digit(n: nat): char
    requires n < 10
  {
    ['0', '1', '2', '3', '4', '5', '6', '7', '8', '9'][n]
  }

  function Decimal(n: nat): string {
    if n < 10 then [Digit(n)] else Decimal(n / 10) + [Digit(n % 10)]
  }

  function ItemId(number: nat): string {
    "item-" + Decimal(number)
  }

  lemma {:induction false} DecimalInjective(m: nat, n: nat)
    requires Decimal(m) == Decimal(n)
    ensures m == n
  {
    if m < 10 && n < 10 {
      assert Decimal(m)[0] == Digit(m) && Decimal(n)[0] == Digit(n);
    } else {
      DecimalLast(m);
      DecimalLast(n);
      if m >= 10 && n >= 10 {
        assert Decimal(m)[..|Decimal(m)| - 1] == Decimal(m / 10);
        assert Decimal(n)[..|Decimal(n)| - 1] == Decimal(n / 10);
        DecimalInjective(m / 10, n / 10);
      }
    }
  }

  lemma {:induction false} DecimalLast(n: nat)
    ensures |Decimal(n)| > 0 && Decimal(n)[|Decimal(n)| - 1] == Digit(n % 10)
    ensures |Decimal(n)| == 1 <==> n < 10
  {
    if n >= 10 {
      DecimalLast(n / 10);
    }
  }

  /** The items in order, the first with number 1. */
  function Numbered(items: seq<QuizItem>): seq<QuizItem> {
    seq(|items|, i requires 0 <= i < |items| => items[i].(id := ItemId(i + 1)))
  }

  function First<A>(n: nat, xs: seq<A>): seq<A> {
    if |xs| <= n then xs else xs[..n]
  }

  /** Keep the acceptable items, take the first `n`, number them. */
  function QuizOf(raws: seq<RawItem>, brief: Brief, n: nat): seq<QuizItem> {
    Numbered(First(n, MapSome(Kept(brief), raws)))
  }

  /** How many proposals are looked at before `n` items are accepted. */
  function Examined(raws: seq<RawItem>, brief: Brief, n: nat): nat {
    if raws == [] || n == 0 then 0
    else 1 + Examined(raws[1..], brief, if Acceptable(raws[0], brief) then n - 1 else n)
  }

  lemma {:induction false} ExaminedIs(raws: seq<RawItem>, brief: Brief, n: nat, i: nat)
    requires i <= |raws| && |MapSome(Kept(brief), raws[..i])| <= n
    requires i > 0 ==> |MapSome(Kept(brief), raws[..i - 1])| < n
    requires i == |raws| || |MapSome(Kept(brief), raws[..i])| == n
    ensures Examined(raws, brief, n) == i
    decreases |raws|
  {
    hide Acceptable, Content;
    var kept := Kept(brief);
    if i == 0 || n == 0 {
      assert raws[..0] == [];
    } else {
      var accepted := Acceptable(raws[0], brief);
      assert raws[..i] == [raws[0]] + raws[1..][..i - 1];
      MapSomeConcat(kept, [raws[0]], raws[1..][..i - 1]);
      MapSomeOne(kept, raws[0]);
      if i > 1 {
        assert raws[..i - 1] == [raws[0]] + raws[1..][..i - 2];
        MapSomeConcat(kept, [raws[0]], raws[1..][..i - 2]);
      }
      ExaminedIs(raws[1..], brief, if accepted then n - 1 else n, i - 1);
    }
  }

  /** Once `n` items are in, the remaining proposals cannot change the first `n`. */
  lemma FirstIsSettled(raws: seq<RawItem>, brief: Brief, n: nat, i: nat)
    requires i <= |raws| && |MapSome(Kept(brief), raws[..i])| <= n
    requires i == |raws| || |MapSome(Kept(brief), raws[..i])| == n
    ensures First(n, MapSome(Kept(brief), raws)) == MapSome(Kept(brief), raws[..i])
  {
    assert raws == raws[..i] + raws[i..];
    MapSomeConcat(Kept(brief), raws[..i], raws[i..]);
    if i == |raws| {
      assert raws[..i] == raws;
    }
  }

  /**
    Validates and grounds the proposals in order, stopping once `n` items are accepted; the reasons
    are those of the proposals looked at, each once.
   */
  method BuildQuizItems(raws: seq<RawItem>, brief: Brief, n: nat)
    returns (items: seq<QuizItem>, reasons: seq<Reason>)
    ensures items == QuizOf(raws, brief, n) && |items| <= n
    ensures Examined(raws, brief, n) <= |raws|
    ensures reasons == Unique(MapSome(Fault(brief), raws[..Examined(raws, brief, n)]))
  {
    hide Kept, Fault, Examined, ItemId, Shaped, Unique, Acceptable;
    var dropped: seq<Reason> := [];
    items := [];
    var i := 0;
    ghost var kept: seq<QuizItem> := [];
    assert raws[..0] == [];
    while i < |raws| && |items| < n
      invariant i <= |raws| && kept == MapSome(Kept(brief), raws[..i]) && items == Numbered(kept)
      invariant |items| <= n && (i > 0 ==> |MapSome(Kept(brief), raws[..i - 1])| < n)
      invariant dropped == MapSome(Fault(brief), raws[..i])
    {
      var item, reason := BuildQuizItem(raws[i], brief);
      OneMore(Kept(brief), raws, i);
      OneMore(Fault(brief), raws, i);
      KeptOrFaulty(raws[i], brief);
      if item.Some? {
        NumberedNext(kept, item.value);
        kept := kept + [item.value];
        items := items + [item.value.(id := ItemId(|items| + 1))];
      } else {
        dropped := dropped + [reason.value];
      }
      i := i + 1;
    }
    ExaminedIs(raws, brief, n, i);
    FirstIsSettled(raws, brief, n, i);
    reasons := DropRepeats(dropped);
  }

  lemma OneMore<A, B>(f: A -> Option<B>, xs: seq<A>, i: nat)
    requires i < |xs|
    ensures MapSome(f, xs[..i + 1]) == MapSome(f, xs[..i]) + Optional(f(xs[i]))
  {
    assert xs[..i + 1] == xs[..i] + [xs[i]];
    MapSomeConcat(f, xs[..i], [xs[i]]);
    MapSomeOne(f, xs[i]);
  }

  lemma NumberedNext(items: seq<QuizItem>, item: QuizItem)
    ensures Numbered(items + [item]) == Numbered(items) + [item.(id := ItemId(|items| + 1))]
  {
  }

  lemma KeptOrFaulty(raw: RawItem, brief: Brief)
    ensures Kept(brief)(raw).Some? <==> Fault(brief)(raw).None?
  {
  }

  // ----- What a quiz promises ----------------------------------------------------------------------

  /** A grounded, gradable item that names only concepts its own evidence supports. */
  ghost predicate WellGrounded(item: QuizItem, brief: Brief) {
    && Shaped(item) && item.kind in brief.allowed
    && Distinct(item.citations) && (forall c :: c in item.citations ==> c in brief.offered)
    && (item.concept.Some? ==>
          && item.concept.value in brief.candidates
          && (exists c :: c in item.citations && c in brief.linked && item.concept.value in brief.linked[c]))
    && SoundRubric(item.rubric) && TotalWeight(MapAll(WeightMark, item.rubric)) == 1.0
  }

  function WeightMark(c: Criterion): Mark {
    Mark(c.weight, 0.0)
  }

  lemma RubricIsSound(kind: ItemType)
    ensures SoundRubric(RubricFor(kind)) && TotalWeight(MapAll(WeightMark, RubricFor(kind))) == 1.0
    ensures |NameOrder(RubricFor(kind))| == |RubricFor(kind)|
  {
    var r := RubricFor(kind);
    if kind.MultipleChoice? {
      assert r[1..] == [] && r[..0] == [];
    } else {
      assert r[1..] == [r[1], r[2]] && r[1..][1..] == [r[2]] && r[1..][1..][1..] == [];
      assert r[..2] == [r[0], r[1]] && r[..2][..1] == [r[0]] && r[..2][..1][..0] == [];
      MapAllMembers(WeightMark, r);
      assert MapAll(WeightMark, r) == [WeightMark(r[0]), WeightMark(r[1]), WeightMark(r[2])];
      SumOfThree(WeightMark(r[0]), WeightMark(r[1]), WeightMark(r[2]));
      assert NameOrder(r[..2]) == ["correctness", "reasoning"] by {
        assert NameOrder(r[..2][..1]) == ["correctness"];
        assert "reasoning"[0] != "correctness"[0];
      }
      assert "grounding"[0] != "correctness"[0] && "grounding"[0] != "reasoning"[0];
    }
  }

  lemma SumOfThree(a: Mark, b: Mark, c: Mark)
    ensures TotalWeight([a, b, c]) == a.weight + b.weight + c.weight
  {
    assert [a, b, c][1..] == [b, c] && [b, c][1..] == [c] && [c][1..] == [];
    assert TotalWeight([b, c]) == b.weight + TotalWeight([c]);
  }

  lemma ContentIsGrounded(raw: RawItem, brief: Brief)
    requires Acceptable(raw, brief)
    ensures WellGrounded(Content(raw, brief), brief)
  {
    var item := Content(raw, brief);
    RubricIsSound(raw.kind);
    CitationsResolve(raw.citations, brief.offered);
    var c :| c in raw.citations && c in brief.offered;
    assert c in item.citations;
  }

  lemma {:induction false} KeptAreGrounded(raws: seq<RawItem>, brief: Brief)
    ensures forall item :: item in MapSome(Kept(brief), raws) ==> WellGrounded(item, brief)
  {
    hide WellGrounded;
    if raws != [] {
      KeptAreGrounded(raws[1..], brief);
      if Acceptable(raws[0], brief) {
        ContentIsGrounded(raws[0], brief);
      }
    }
  }

  /** Every item of a quiz is grounded, and its items are numbered from 1 with distinct ids. */
  lemma QuizIsGrounded(raws: seq<RawItem>, brief: Brief, n: nat)
    ensures var items := QuizOf(raws, brief, n);
            && |items| <= n
            && (forall i :: 0 <= i < |items| ==> WellGrounded(items[i], brief) && items[i].id == ItemId(i + 1))
            && (forall i, j :: 0 <= i < j < |items| ==> items[i].id != items[j].id)
  {
    KeptAreGrounded(raws, brief);
    var kept, items := MapSome(Kept(brief), raws), QuizOf(raws, brief, n);
    forall i | 0 <= i < |items| ensures WellGrounded(items[i], brief) && items[i].id == ItemId(i + 1) {
      assert kept[i] in kept && items[i] == kept[i].(id := ItemId(i + 1));
    }
    forall i, j | 0 <= i < j < |items| ensures items[i].id != items[j].id {
      if items[i].id == items[j].id {
        assert ItemId(i + 1)[5..] == Decimal(i + 1) && ItemId(j + 1)[5..] == Decimal(j + 1);
        DecimalInjective(i + 1, j + 1);
      }
    }
  }

  // ----- The draft -------------------------------------------------------------------------------

  /** What retrieval and the model came back with. */
  datatype Source = NoPassages | CallFailed | Unparsed | Parsed(raws: seq<RawItem>)

  datatype Draft = Draft(items: seq<QuizItem>, shortfall: nat, degraded: seq<Reason>)

  /** The items of a draft: those of the quiz when the model's output parses, none otherwise. */
  function DraftItems(source: Source, brief: Brief, requested: nat): seq<QuizItem> {
    if source.Parsed? then QuizOf(source.raws, brief, requested) else []
  }

  /** The first reason a draft without any item reports. */
  function Failure(source: Source): Reason {
    match source
    case NoPassages => NoEvidence
    case CallFailed => LlmUnavailable
    case Unparsed => StructuredOutputFailed
    case Parsed(_) => NoGroundedItems
  }

  ghost predicate SomeDropped(raws: seq<RawItem>, brief: Brief, requested: nat)
    requires Examined(raws, brief, requested) <= |raws|
  {
    exists raw :: raw in raws[..Examined(raws, brief, requested)] && !Acceptable(raw, brief)
  }

  /** A draft's reasons: a short draft says so, and a complete one reports only dropped proposals. */
  ghost predicate Honest(draft: Draft, failure: Reason, dropped: bool, requested: nat) {
    && |draft.items| + draft.shortfall == requested
    && (draft.items == [] <==> failure in draft.degraded)
    && (0 < |draft.items| < requested <==> InsufficientGroundedItems in draft.degraded)
    && (draft.degraded == [] <==> |draft.items| == requested && !dropped)
    && Distinct(draft.degraded)
  }

  method DraftFromItems(raws: seq<RawItem>, brief: Brief, requested: nat) returns (draft: Draft)
    requires requested > 0
    ensures draft.items == QuizOf(raws, brief, requested)
    ensures Examined(raws, brief, requested) <= |raws|
    ensures Honest(draft, NoGroundedItems, SomeDropped(raws, brief, requested), requested)
  {
    var items, reasons := BuildQuizItems(raws, brief, requested);
    hide QuizOf, Examined, Fault, Unique, Acceptable, MapSome;
    var shortfall := if requested - |items| > 0 then requested - |items| else 0;
    var summary: seq<Reason> :=
      if items == [] then [NoGroundedItems] else if shortfall != 0 then [InsufficientGroundedItems] else [];
    SummaryIsReported(raws[..Examined(raws, brief, requested)], brief, summary);
    var degraded := DropRepeats(reasons + summary);
    draft := Draft(items, shortfall, degraded);
  }

  /**
    Turns the model's answer into a draft: delivered items and shortfall make up the request, a short
    draft says so, and it reports no degradation exactly when it is complete and nothing was dropped.
   */
  method DraftFromContext(source: Source, brief: Brief, requested: nat) returns (draft: Draft)
    requires requested > 0
    ensures draft.items == DraftItems(source, brief, requested)
    ensures source.Parsed? ==> Examined(source.raws, brief, requested) <= |source.raws|
    ensures Honest(
              draft, Failure(source), source.Parsed? && SomeDropped(source.raws, brief, requested), requested)
    ensures source.NoPassages? ==> draft == Draft([], requested, [NoEvidence])
    ensures source.CallFailed? ==> draft == Draft([], requested, [LlmUnavailable])
    ensures source.Unparsed? ==> draft == Draft([], requested, [StructuredOutputFailed])
  {
    if !source.Parsed? {
      return Draft([], requested, [Failure(source)]);
    }
    hide QuizOf, Examined, SomeDropped, Honest;
    draft := DraftFromItems(source.raws, brief, requested);
  }

  /** Adding the draft's own reason to those of the dropped items keeps each recognisable. */
  lemma SummaryIsReported(raws: seq<RawItem>, brief: Brief, summary: seq<Reason>)
    requires summary == [] || summary == [NoGroundedItems] || summary == [InsufficientGroundedItems]
    ensures var all := Unique(Unique(MapSome(Fault(brief), raws)) + summary);
            && Distinct(all)
            && (all == [] <==> summary == [] && forall raw :: raw in raws ==> Acceptable(raw, brief))
            && (NoGroundedItems in all <==> summary == [NoGroundedItems])
            && (InsufficientGroundedItems in all <==> summary == [InsufficientGroundedItems])
  {
    hide Fault, Acceptable;
    var faults := MapSome(Fault(brief), raws);
    FaultsOf(raws, brief);
    UniqueKeepsMembers(faults);
    UniqueKeepsMembers(Unique(faults) + summary);
    assert faults != [] ==> faults[0] in Unique(faults);
    assert summary != [] ==> summary[0] in Unique(faults) + summary;
    assert Unique(faults) != [] ==> Unique(faults)[0] in Unique(faults) + summary;
  }

  /** The reasons of a stretch of proposals: none exactly when all are acceptable; never a draft-level one. */
  lemma {:induction false} FaultsOf(raws: seq<RawItem>, brief: Brief)
    ensures MapSome(Fault(brief), raws) == [] <==> forall raw :: raw in raws ==> Acceptable(raw, brief)
    ensures NoGroundedItems !in MapSome(Fault(brief), raws)
    ensures InsufficientGroundedItems !in MapSome(Fault(brief), raws)
  {
    if raws != [] {
      FaultsOf(raws[1..], brief);
      assert raws[0] in raws && raws == [raws[0]] + raws[1..];
    }
  }
}
