/** Products of reals behind a name, so that proofs above them stay linear. */
module RealMath {

  function Times(x: real, y: real): real {
    x * y
  }

  lemma TimesMonotone(w: real, x: real, y: real)
    requires w >= 0.0 && x <= y
    ensures Times(w, x) <= Times(w, y)
  {
  }

  lemma TimesStrict(w: real, x: real, y: real)
    requires w > 0.0 && x < y
    ensures Times(w, x) < Times(w, y)
  {
  }

  lemma TimesDistributes(w: real, x: real, y: real)
    ensures Times(w, x + y) == Times(w, x) + Times(w, y)
    ensures Times(w, x - y) == Times(w, x) - Times(w, y)
    ensures Times(x + y, w) == Times(x, w) + Times(y, w)
  {
  }

  lemma TimesUnits(w: real)
    ensures Times(w, 0.0) == 0.0 && Times(w, 1.0) == w && Times(0.0, w) == 0.0 && Times(1.0, w) == w
  {
  }

  function Abs(x: real): real {
    if x < 0.0 then -x else x
  }

  function Clip(x: real, low: real, high: real): real {
    var raised := if x < low then low else x;
    if high < raised then high else raised
  }

  /** The nearest integer, halves to the even one. */
  function RoundHalfEven(x: real): int {
    var low := x.Floor;
    var rest := x - low as real;
    if rest < 0.5 then low
    else if rest > 0.5 then low + 1
    else if low % 2 == 0 then low
    else low + 1
  }

  /** `round(x, 6)`. */
  function Round6(x: real): real {
    RoundHalfEven(x * 1000000.0) as real / 1000000.0
  }

  lemma RoundMonotone(x: real, y: real)
    requires x <= y
    ensures RoundHalfEven(x) <= RoundHalfEven(y)
  {
  }

  lemma Round6Monotone(x: real, y: real)
    requires x <= y
    ensures Round6(x) <= Round6(y)
  {
    RoundMonotone(x * 1000000.0, y * 1000000.0);
  }

  lemma Round6KeepsUnits()
    ensures Round6(0.0) == 0.0 && Round6(1.0) == 1.0
  {
  }

  /** Rounding moves a value by at most half a millionth. */
  lemma Round6IsClose(x: real)
    ensures -0.0000005 <= Round6(x) - x <= 0.0000005
  {
    var y := x * 1000000.0;
    assert -0.5 <= RoundHalfEven(y) as real - y <= 0.5;
  }

  /** The rounded value is the integer within a half, and of two such the even one. */
  lemma RoundHalfEvenIs(x: real, n: int)
    ensures RoundHalfEven(x) == n <==>
      || (x - 0.5 < n as real < x + 0.5)
      || ((n as real == x - 0.5 || n as real == x + 0.5) && n % 2 == 0)
  {
    var low := x.Floor;
    assert low as real <= x < (low + 1) as real;
    if n <= low - 1 {
      assert n as real <= low as real - 1.0;
    } else if n >= low + 2 {
      assert n as real >= low as real + 2.0;
    }
  }

  /** Clipping keeps what lies in the unit interval and moves the rest to its nearer end. */
  lemma ClipIs(x: real)
    ensures x <= 0.0 ==> Clip(x, 0.0, 1.0) == 0.0
    ensures 0.0 <= x <= 1.0 ==> Clip(x, 0.0, 1.0) == x
    ensures 1.0 <= x ==> Clip(x, 0.0, 1.0) == 1.0
  {
  }
}
