/** The multi-signal confidence of an asserted edge, over the reals. */
module Confidence {
  import opened RealMath

  datatype Weights = Weights(
    base: real, llm: real, corroboration: real, cue: real, agreement: real,
    llmCap: real, autoAccept: real, reviewFloor: real, minTraversable: real)

  const DEFAULT_WEIGHTS := Weights(0.15, 0.25, 0.30, 0.20, 0.10, 0.80, 0.75, 0.50, 0.60)

  function Total(w: Weights): real {
    w.base + w.llm + w.corroboration + w.cue + w.agreement
  }

  /** The weight sets the constructor accepts; it does not look at signs or at the cap. */
  predicate Constructible(w: Weights) {
    && Abs(Total(w) - 1.0) <= 0.000000001
    && 0.0 <= w.reviewFloor <= w.autoAccept <= 1.0
    && 0.0 <= w.minTraversable <= 1.0
  }

  predicate NonNegative(w: Weights) {
    && w.base >= 0.0 && w.llm >= 0.0 && w.corroboration >= 0.0 && w.cue >= 0.0 && w.agreement >= 0.0
    && 0.0 <= w.llmCap <= 1.0
  }

  datatype Cue = Explicit | Inferred

  datatype Disposition = Discard | Review | AutoAccept

  function Rank(d: Disposition): nat {
    match d case Discard => 0 case Review => 1 case AutoAccept => 2
  }

  function Pow(q: real, n: nat): real {
    if n == 0 then 1.0 else Times(q, Pow(q, n - 1))
  }

  /** A decay factor strictly between zero and one; the source's is exp(-1/2). */
  predicate IsDecay(q: real) {
    0.0 < q < 1.0
  }

  /** `1 - exp(-n / 2)` for a positive number of documents, else zero. */
  function CorroborationScore(q: real, documents: int): real {
    if documents <= 0 then 0.0 else 1.0 - Pow(q, documents)
  }

  function CueScore(cue: Cue, structural: bool): real {
    match cue
    case Explicit => 1.0
    case Inferred => if structural then 0.40 else 0.0
  }

  function AgreementScore(verifiedSame: bool, pathExists: bool, verifiedOpposite: bool): real {
    if verifiedOpposite && !verifiedSame then 0.0
    else if verifiedSame then 1.0
    else if pathExists then 0.70
    else 0.0
  }

  datatype Signals = Signals(llm: real, corroboration: real, cue: real, agreement: real)

  /** One signal, clipped below at zero and above at its ceiling, times its weight. */
  function Weighted(weight: real, x: real, high: real): real {
    Times(weight, Clip(x, 0.0, high))
  }

  /** The weighted sum before its final clip. */
  function RawConfidence(s: Signals, w: Weights): real {
    w.base * 1.0
    + Weighted(w.llm, s.llm, w.llmCap)
    + Weighted(w.corroboration, s.corroboration, 1.0)
    + Weighted(w.cue, s.cue, 1.0)
    + Weighted(w.agreement, s.agreement, 1.0)
  }

  /** The largest the weighted sum can be under the cap, for non-negative weights. */
  function LargestConfidence(w: Weights): real {
    w.base + Times(w.llm, w.llmCap) + w.corroboration + w.cue + w.agreement
  }

  function EdgeConfidence(s: Signals, w: Weights): (r: real)
    ensures 0.0 <= r <= 1.0
  {
    Clip(RawConfidence(s, w), 0.0, 1.0)
  }

  function DispositionFor(score: real, cue: Cue, documents: int, w: Weights): Disposition {
    if score < w.reviewFloor then Discard
    else if score >= w.autoAccept && cue == Explicit && documents >= 2 then AutoAccept
    else Review
  }

  datatype Evidence = Evidence(
    llm: real, documents: int, cue: Cue, structural: bool,
    verifiedSame: bool, pathExists: bool, verifiedOpposite: bool)

  function SignalsOf(e: Evidence, q: real): Signals {
    Signals(e.llm, CorroborationScore(q, e.documents), CueScore(e.cue, e.structural),
            AgreementScore(e.verifiedSame, e.pathExists, e.verifiedOpposite))
  }

  datatype EdgeScore = EdgeScore(score: real, disposition: Disposition)

  function ScoreEdge(e: Evidence, q: real, w: Weights): EdgeScore {
    var score := EdgeConfidence(SignalsOf(e, q), w);
    EdgeScore(score, DispositionFor(score, e.cue, e.documents, w))
  }

  // ----- Corroboration -------------------------------------------------------------------------

  lemma {:induction false} PowBounds(q: real, n: nat)
    requires IsDecay(q)
    ensures 0.0 < Pow(q, n) <= 1.0
    ensures n > 0 ==> Pow(q, n) < 1.0
  {
    hide Times;
    if n > 0 {
      PowBounds(q, n - 1);
      DecayShrinks(q, Pow(q, n - 1));
    }
  }

  lemma DecayShrinks(q: real, x: real)
    requires IsDecay(q) && 0.0 < x
    ensures 0.0 < Times(q, x) < x
  {
    TimesStrict(x, q, 1.0);
    TimesStrict(q, 0.0, x);
  }

  /** Each further document raises the score, strictly less than the one before it did. */
  lemma CorroborationSaturates(q: real, n: nat)
    requires IsDecay(q)
    ensures 0.0 <= CorroborationScore(q, n) < CorroborationScore(q, n + 1) < 1.0
    ensures CorroborationScore(q, n + 2) - CorroborationScore(q, n + 1)
          < CorroborationScore(q, n + 1) - CorroborationScore(q, n)
  {
    hide Times;
    PowBounds(q, n);
    PowBounds(q, n + 1);
    GeometricStep(q, Pow(q, n));
  }

  lemma GeometricStep(q: real, x: real)
    requires IsDecay(q) && 0.0 < x
    ensures var y := Times(q, x); y < x && y - Times(q, y) < x - y
  {
    hide Times;
    var y := Times(q, x);
    DecayShrinks(q, x);
    DecayShrinks(q, x - y);
    TimesDistributes(q, x, y);
  }

  lemma {:induction false} CorroborationMonotone(q: real, m: int, n: int)
    requires IsDecay(q) && m <= n
    ensures 0.0 <= CorroborationScore(q, m) <= CorroborationScore(q, n) <= 1.0
    decreases n - m
  {
    if n <= 0 {
    } else if m == n {
      PowBounds(q, n);
    } else {
      CorroborationMonotone(q, m, n - 1);
      CorroborationSaturates(q, n - 1);
    }
  }

  // ----- The weighted sum ----------------------------------------------------------------------

  lemma TermBounds(weight: real, x: real, high: real)
    requires weight >= 0.0 && 0.0 <= high
    ensures 0.0 <= Weighted(weight, x, high) <= Times(weight, high)
  {
    hide Times;
    TimesMonotone(weight, 0.0, Clip(x, 0.0, high));
    TimesMonotone(weight, Clip(x, 0.0, high), high);
    TimesUnits(weight);
  }

  lemma TermMonotone(weight: real, x: real, y: real, high: real)
    requires weight >= 0.0 && 0.0 <= high && x <= y
    ensures Weighted(weight, x, high) <= Weighted(weight, y, high)
  {
    TimesMonotone(weight, Clip(x, 0.0, high), Clip(y, 0.0, high));
  }

  /** The sum is at least the base and at most the largest it can be under the cap. */
  lemma RawBounds(s: Signals, w: Weights)
    requires NonNegative(w)
    ensures w.base <= RawConfidence(s, w) <= LargestConfidence(w)
  {
    hide Weighted, Times;
    TimesUnits(w.corroboration);
    TimesUnits(w.cue);
    TimesUnits(w.agreement);
    TermBounds(w.llm, s.llm, w.llmCap);
    TermBounds(w.corroboration, s.corroboration, 1.0);
    TermBounds(w.cue, s.cue, 1.0);
    TermBounds(w.agreement, s.agreement, 1.0);
  }

  /** The final clip is idle on every input exactly when the capped weights sum to at most one. */
  lemma FinalClipIdleIff(w: Weights)
    requires NonNegative(w)
    ensures (forall s: Signals :: EdgeConfidence(s, w) == RawConfidence(s, w)) <==> LargestConfidence(w) <= 1.0
  {
    if LargestConfidence(w) <= 1.0 {
      hide LargestConfidence, RawConfidence;
      forall s: Signals ensures EdgeConfidence(s, w) == RawConfidence(s, w) {
        RawBounds(s, w);
      }
    } else {
      var most := Signals(1.0, 1.0, 1.0, 1.0);
      hide Times;
      TimesUnits(w.corroboration);
      TimesUnits(w.cue);
      TimesUnits(w.agreement);
      assert RawConfidence(most, w) == LargestConfidence(w);
      assert EdgeConfidence(most, w) != RawConfidence(most, w);
    }
  }

  /** Weights that sum to one never reach the final clip. */
  lemma FinalClipIdle(s: Signals, w: Weights)
    requires NonNegative(w) && Total(w) <= 1.0
    ensures EdgeConfidence(s, w) == RawConfidence(s, w)
  {
    hide Times;
    TimesMonotone(w.llm, w.llmCap, 1.0);
    TimesUnits(w.llm);
    RawBounds(s, w);
  }

  predicate SignalsBelow(s: Signals, t: Signals) {
    s.llm <= t.llm && s.corroboration <= t.corroboration && s.cue <= t.cue && s.agreement <= t.agreement
  }

  /** No signal lowers the confidence by rising. */
  lemma ConfidenceMonotone(s: Signals, t: Signals, w: Weights)
    requires NonNegative(w) && SignalsBelow(s, t)
    ensures EdgeConfidence(s, w) <= EdgeConfidence(t, w)
  {
    hide Weighted;
    TermMonotone(w.llm, s.llm, t.llm, w.llmCap);
    TermMonotone(w.corroboration, s.corroboration, t.corroboration, 1.0);
    TermMonotone(w.cue, s.cue, t.cue, 1.0);
    TermMonotone(w.agreement, s.agreement, t.agreement, 1.0);
    assert RawConfidence(s, w) <= RawConfidence(t, w);
  }

  /** Evidence that is at least as strong in the model's confidence, the documents, the cue and the agreement. */
  predicate EvidenceBelow(a: Evidence, b: Evidence) {
    && a.llm <= b.llm
    && a.documents <= b.documents
    && (a.cue == Explicit ==> b.cue == Explicit)
    && (a.structural ==> b.structural)
    && AgreementScore(a.verifiedSame, a.pathExists, a.verifiedOpposite)
       <= AgreementScore(b.verifiedSame, b.pathExists, b.verifiedOpposite)
  }

  /** Stronger evidence never worsens the score or the disposition. */
  lemma DispositionMonotone(a: Evidence, b: Evidence, q: real, w: Weights)
    requires NonNegative(w) && IsDecay(q) && EvidenceBelow(a, b)
    ensures ScoreEdge(a, q, w).score <= ScoreEdge(b, q, w).score
    ensures Rank(ScoreEdge(a, q, w).disposition) <= Rank(ScoreEdge(b, q, w).disposition)
  {
    CorroborationMonotone(q, a.documents, b.documents);
    ConfidenceMonotone(SignalsOf(a, q), SignalsOf(b, q), w);
  }

  /**
    What auto-acceptance takes under the default weights: an explicit cue, two documents, and enough
    corroboration for the capped model confidence and the agreement. Confidence alone never suffices.
   */
  lemma DefaultAutoAcceptIff(e: Evidence, q: real)
    requires IsDecay(q)
    ensures ScoreEdge(e, q, DEFAULT_WEIGHTS).disposition == AutoAccept
       <==> && e.cue == Explicit && e.documents >= 2
            && 3.0 * Pow(q, e.documents)
               <= 2.5 * Clip(e.llm, 0.0, 0.80) + AgreementScore(e.verifiedSame, e.pathExists, e.verifiedOpposite) - 1.0
  {
    if e.documents > 0 {
      PowBounds(q, e.documents);
    }
  }

  /** Each further document closes the same share of what is missing to full corroboration. */
  lemma CorroborationDecays(q: real, n: nat)
    ensures CorroborationScore(q, 0) == 0.0
    ensures 1.0 - CorroborationScore(q, n + 1) == q * (1.0 - CorroborationScore(q, n))
  {
  }

  /** What the explicitness of a cue is worth. */
  function CueShare(cue: Cue, structural: bool): real {
    if cue.Explicit? then 1.0 else if structural then 0.4 else 0.0
  }

  /** What agreement is worth: a verified edge of the key outranks a verified opposite, which outranks a path. */
  function AgreementShare(same: bool, path: bool, opposite: bool): real {
    if same then 1.0 else if opposite || !path then 0.0 else 0.7
  }

  /** The base and four shares, each under its own weight; the model's confidence counts from zero up to its cap. */
  function SumOfShares(e: Evidence, q: real, w: Weights): real {
    var positive := if e.llm < 0.0 then 0.0 else e.llm;
    var llm := if w.llmCap < positive then w.llmCap else positive;
    w.base + w.llm * llm + w.corroboration * CorroborationScore(q, e.documents)
    + w.cue * CueShare(e.cue, e.structural)
    + w.agreement * AgreementShare(e.verifiedSame, e.pathExists, e.verifiedOpposite)
  }

  lemma RawIs(e: Evidence, q: real, w: Weights)
    requires IsDecay(q)
    ensures RawConfidence(SignalsOf(e, q), w) == SumOfShares(e, q, w)
  {
    var positive := if e.llm < 0.0 then 0.0 else e.llm;
    var c, u, a := CorroborationScore(q, e.documents), CueShare(e.cue, e.structural),
      AgreementShare(e.verifiedSame, e.pathExists, e.verifiedOpposite);
    CorroborationInUnit(q, e.documents);
    hide CorroborationScore;
    TermIs(w.llm, e.llm, w.llmCap, if w.llmCap < positive then w.llmCap else positive);
    TermIs(w.corroboration, c, 1.0, c);
    TermIs(w.cue, CueScore(e.cue, e.structural), 1.0, u);
    TermIs(w.agreement, AgreementScore(e.verifiedSame, e.pathExists, e.verifiedOpposite), 1.0, a);
    hide Clip, CueScore, AgreementScore, CueShare, AgreementShare, Weighted;
  }

  /**
    The score is the sum of the shares, clipped to the unit interval. It is discarded below the review
    floor, accepted without review from the threshold on with an explicit cue and two documents, and
    reviewed otherwise.
   */
  lemma ScoreIs(e: Evidence, q: real, w: Weights)
    requires IsDecay(q)
    ensures var r, sum := ScoreEdge(e, q, w), SumOfShares(e, q, w);
            && (sum <= 0.0 ==> r.score == 0.0) && (0.0 <= sum <= 1.0 ==> r.score == sum) && (1.0 <= sum ==> r.score == 1.0)
            && (r.disposition == Discard <==> r.score < w.reviewFloor)
            && (r.disposition == AutoAccept <==>
                  r.score >= w.reviewFloor && r.score >= w.autoAccept && e.cue.Explicit? && e.documents >= 2)
  {
    RawIs(e, q, w);
    ClipIs(SumOfShares(e, q, w));
    hide RawConfidence, SumOfShares, SignalsOf, Clip;
  }

  /** The score under the default weights, in numbers. */
  lemma DefaultScoreIs(e: Evidence, q: real)
    requires IsDecay(q)
    ensures var r := ScoreEdge(e, q, DEFAULT_WEIGHTS);
            var llm := if e.llm < 0.0 then 0.0 else if e.llm > 0.8 then 0.8 else e.llm;
            && r.score == 0.15 + 0.25 * llm + 0.30 * CorroborationScore(q, e.documents)
                          + 0.20 * CueShare(e.cue, e.structural)
                          + 0.10 * AgreementShare(e.verifiedSame, e.pathExists, e.verifiedOpposite)
            && (r.disposition == Discard <==> r.score < 0.5)
            && (r.disposition == AutoAccept <==> r.score >= 0.75 && e.cue.Explicit? && e.documents >= 2)
  {
    ScoreIs(e, q, DEFAULT_WEIGHTS);
    CorroborationInUnit(q, e.documents);
    hide ScoreEdge, CorroborationScore;
  }

  lemma TermIs(weight: real, x: real, high: real, y: real)
    requires Clip(x, 0.0, high) == y
    ensures Weighted(weight, x, high) == weight * y
  {
  }

  lemma CorroborationInUnit(q: real, documents: int)
    requires IsDecay(q)
    ensures 0.0 <= CorroborationScore(q, documents) <= 1.0
  {
    CorroborationMonotone(q, documents, documents);
  }

  lemma DefaultWeightsAreSound()
    ensures Constructible(DEFAULT_WEIGHTS) && NonNegative(DEFAULT_WEIGHTS) && Total(DEFAULT_WEIGHTS) == 1.0
  {
  }

  // ----- Weights of either sign --------------------------------------------------------------------

  ghost predicate RawMonotone(w: Weights) {
    forall s: Signals, t: Signals :: SignalsBelow(s, t) ==> RawConfidence(s, w) <= RawConfidence(t, w)
  }

  ghost predicate EdgeMonotone(w: Weights) {
    forall s: Signals, t: Signals :: SignalsBelow(s, t) ==> EdgeConfidence(s, w) <= EdgeConfidence(t, w)
  }

  /** No signal weighs negatively; the sign of a signal capped at zero or below does not matter. */
  predicate NoNegativeSignal(w: Weights) {
    && (w.llm >= 0.0 || w.llmCap <= 0.0)
    && w.corroboration >= 0.0 && w.cue >= 0.0 && w.agreement >= 0.0
  }

  /** The least and the greatest a weighted signal can be. */
  function Low(weight: real, high: real): real {
    if high <= 0.0 || weight < 0.0 then Times(weight, high) else 0.0
  }

  function High(weight: real, high: real): real {
    if high <= 0.0 || weight >= 0.0 then Times(weight, high) else 0.0
  }

  function Lowest(w: Weights): real {
    w.base + Low(w.llm, w.llmCap) + Low(w.corroboration, 1.0) + Low(w.cue, 1.0) + Low(w.agreement, 1.0)
  }

  function Highest(w: Weights): real {
    w.base + High(w.llm, w.llmCap) + High(w.corroboration, 1.0) + High(w.cue, 1.0) + High(w.agreement, 1.0)
  }

  lemma TermBetween(weight: real, x: real, high: real)
    ensures Low(weight, high) <= Weighted(weight, x, high) <= High(weight, high)
  {
    if high > 0.0 {
      var c := Clip(x, 0.0, high);
      hide Times;
      if weight >= 0.0 {
        TimesMonotone(weight, 0.0, c);
        TimesMonotone(weight, c, high);
      } else {
        TimesReverses(weight, 0.0, c);
        TimesReverses(weight, c, high);
      }
      TimesUnits(weight);
    }
  }

  lemma TimesReverses(w: real, x: real, y: real)
    requires w <= 0.0 && x <= y
    ensures Times(w, y) <= Times(w, x)
  {
  }

  lemma RawBetween(s: Signals, w: Weights)
    ensures Lowest(w) <= RawConfidence(s, w) <= Highest(w)
  {
    hide Weighted, Low, High;
    TermBetween(w.llm, s.llm, w.llmCap);
    TermBetween(w.corroboration, s.corroboration, 1.0);
    TermBetween(w.cue, s.cue, 1.0);
    TermBetween(w.agreement, s.agreement, 1.0);
  }

  /** A signal that weighs negatively takes something away, most of all at its ceiling. */
  lemma NegativeTerm(weight: real, x: real, high: real)
    requires weight < 0.0 && high > 0.0
    ensures Weighted(weight, high, high) <= Weighted(weight, x, high) <= Weighted(weight, 0.0, high)
    ensures Weighted(weight, high, high) < Weighted(weight, 0.0, high)
  {
    TermBetween(weight, x, high);
    assert Weighted(weight, 0.0, high) == 0.0 && Weighted(weight, high, high) == Times(weight, high);
  }

  lemma SignalTermMonotone(weight: real, x: real, y: real, high: real)
    requires weight >= 0.0 || high <= 0.0
    requires x <= y
    ensures Weighted(weight, x, high) <= Weighted(weight, y, high)
  {
    if weight >= 0.0 {
      TimesMonotone(weight, Clip(x, 0.0, high), Clip(y, 0.0, high));
    } else {
      assert Clip(x, 0.0, high) == high == Clip(y, 0.0, high);
    }
  }

  lemma NoNegativeSignalIsMonotone(w: Weights)
    requires NoNegativeSignal(w)
    ensures RawMonotone(w)
  {
    forall s: Signals, t: Signals | SignalsBelow(s, t) ensures RawConfidence(s, w) <= RawConfidence(t, w) {
      SignalTermMonotone(w.llm, s.llm, t.llm, w.llmCap);
      SignalTermMonotone(w.corroboration, s.corroboration, t.corroboration, 1.0);
      SignalTermMonotone(w.cue, s.cue, t.cue, 1.0);
      SignalTermMonotone(w.agreement, s.agreement, t.agreement, 1.0);
      hide Weighted;
    }
  }

  /** From any signals: lowering a negatively weighing signal to zero, and raising it to its ceiling. */
  lemma NegativeSignalReverses(m: Signals, w: Weights) returns (s: Signals, t: Signals)
    requires !NoNegativeSignal(w)
    ensures SignalsBelow(s, t)
    ensures RawConfidence(s, w) >= RawConfidence(m, w) >= RawConfidence(t, w) && RawConfidence(s, w) > RawConfidence(t, w)
  {
    if w.llm < 0.0 && w.llmCap > 0.0 {
      s, t := m.(llm := 0.0), m.(llm := w.llmCap);
      NegativeTerm(w.llm, m.llm, w.llmCap);
    } else if w.corroboration < 0.0 {
      s, t := m.(corroboration := 0.0), m.(corroboration := 1.0);
      NegativeTerm(w.corroboration, m.corroboration, 1.0);
    } else if w.cue < 0.0 {
      s, t := m.(cue := 0.0), m.(cue := 1.0);
      NegativeTerm(w.cue, m.cue, 1.0);
    } else {
      s, t := m.(agreement := 0.0), m.(agreement := 1.0);
      NegativeTerm(w.agreement, m.agreement, 1.0);
    }
    hide Weighted;
  }

  /** The weighted sum rises with every signal exactly when no signal weighs negatively. */
  lemma RawMonotoneIff(w: Weights)
    ensures RawMonotone(w) <==> NoNegativeSignal(w)
  {
    if NoNegativeSignal(w) {
      NoNegativeSignalIsMonotone(w);
    } else {
      var s, t := NegativeSignalReverses(Signals(0.0, 0.0, 0.0, 0.0), w);
      hide RawConfidence;
    }
  }

  /** The signal value a share `x` of the way from the least to the greatest term. */
  function SignalAt(weight: real, high: real, x: real): real {
    if weight >= 0.0 then Times(x, high) else Times(1.0 - x, high)
  }

  lemma TermAt(weight: real, high: real, x: real)
    requires 0.0 <= x <= 1.0
    ensures Weighted(weight, SignalAt(weight, high, x), high)
         == Low(weight, high) + Times(x, High(weight, high) - Low(weight, high))
  {
    if high <= 0.0 {
      assert Clip(SignalAt(weight, high, x), 0.0, high) == high;
      TimesUnits(x);
    } else {
      var y := if weight >= 0.0 then x else 1.0 - x;
      ShareOfCeiling(y, high);
      ShareOfTerm(weight, high, x);
      hide Times;
      assert Clip(Times(y, high), 0.0, high) == Times(y, high);
    }
  }

  lemma ShareOfCeiling(y: real, high: real)
    requires 0.0 <= y <= 1.0 && high > 0.0
    ensures 0.0 <= Times(y, high) <= high
  {
  }

  lemma ShareOfTerm(weight: real, high: real, x: real)
    ensures Times(weight, Times(x, high)) == 0.0 + Times(x, Times(weight, high) - 0.0)
    ensures Times(weight, Times(1.0 - x, high)) == Times(weight, high) + Times(x, 0.0 - Times(weight, high))
  {
  }

  /** Some signals give a sum a share `x` of the way from the least to the greatest. */
  lemma RawAt(w: Weights, x: real) returns (m: Signals)
    requires 0.0 <= x <= 1.0
    ensures RawConfidence(m, w) == Lowest(w) + Times(x, Highest(w) - Lowest(w))
  {
    m := Signals(
      SignalAt(w.llm, w.llmCap, x), SignalAt(w.corroboration, 1.0, x), SignalAt(w.cue, 1.0, x),
      SignalAt(w.agreement, 1.0, x));
    TermAt(w.llm, w.llmCap, x);
    TermAt(w.corroboration, 1.0, x);
    TermAt(w.cue, 1.0, x);
    TermAt(w.agreement, 1.0, x);
    var a := High(w.llm, w.llmCap) - Low(w.llm, w.llmCap);
    var b := High(w.corroboration, 1.0) - Low(w.corroboration, 1.0);
    var c := High(w.cue, 1.0) - Low(w.cue, 1.0);
    var d := High(w.agreement, 1.0) - Low(w.agreement, 1.0);
    hide Weighted, Low, High, Times, SignalAt;
    TimesDistributes(x, a, b);
    TimesDistributes(x, a + b, c);
    TimesDistributes(x, a + b + c, d);
    assert Highest(w) - Lowest(w) == a + b + c + d;
  }

  /** A sum strictly between zero and one, when the range of sums meets that interval. */
  lemma RawInside(w: Weights) returns (m: Signals)
    requires Lowest(w) < Highest(w) && Lowest(w) < 1.0 && 0.0 < Highest(w)
    ensures 0.0 < RawConfidence(m, w) < 1.0
  {
    hide Lowest, Highest, RawConfidence;
    var low, high := Lowest(w), Highest(w);
    var v := ((if low < 0.0 then 0.0 else low) + (if high > 1.0 then 1.0 else high)) / 2.0;
    var x := ShareOf(v, low, high);
    m := RawAt(w, x);
  }

  lemma ShareOf(v: real, low: real, high: real) returns (x: real)
    requires low < high && low <= v <= high
    ensures 0.0 <= x <= 1.0 && low + Times(x, high - low) == v
  {
    x := (v - low) / (high - low);
    var width := high - low;
    assert Times(x, width) == v - low;
    if x < 0.0 {
      TimesStrict(width, x, 0.0);
    }
    if x > 1.0 {
      TimesStrict(width, 1.0, x);
    }
  }

  /** The final clip can hide a negative weight only when every sum lies on one side of it. */
  lemma EdgeMonotoneIff(w: Weights)
    ensures EdgeMonotone(w) <==> NoNegativeSignal(w) || Lowest(w) >= 1.0 || Highest(w) <= 0.0
  {
    if NoNegativeSignal(w) {
      NoNegativeSignalIsMonotone(w);
      hide RawConfidence;
    } else if Lowest(w) >= 1.0 || Highest(w) <= 0.0 {
      forall s: Signals ensures EdgeConfidence(s, w) == if Lowest(w) >= 1.0 then 1.0 else 0.0 {
        RawBetween(s, w);
        hide Lowest, Highest, RawConfidence;
      }
    } else {
      RangeIsProper(w);
      var m := RawInside(w);
      var s, t := NegativeSignalReverses(m, w);
      hide RawConfidence;
      assert EdgeConfidence(s, w) > EdgeConfidence(t, w);
    }
  }

  lemma RangeIsProper(w: Weights)
    requires !NoNegativeSignal(w)
    ensures Lowest(w) < Highest(w)
  {
    var s, t := NegativeSignalReverses(Signals(0.0, 0.0, 0.0, 0.0), w);
    RawBetween(s, w);
    RawBetween(t, w);
  }

  /** The constructor also accepts a negative weight, and then a rising signal can lower the score. */
  lemma NegativeWeightBreaksMonotonicity()
    ensures exists w: Weights, s: Signals, t: Signals ::
      Constructible(w) && SignalsBelow(s, t) && EdgeConfidence(s, w) > EdgeConfidence(t, w)
  {
    var w := DEFAULT_WEIGHTS.(llm := -0.25, base := 0.65);
    var s, t := Signals(0.0, 0.0, 0.0, 0.0), Signals(0.8, 0.0, 0.0, 0.0);
    assert RawConfidence(s, w) == 0.65;
    assert RawConfidence(t, w) == 0.45;
    assert SignalsBelow(s, t) && Constructible(w);
  }
}
