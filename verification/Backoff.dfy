/** The delay before a reconnect attempt: saturating exponential back-off with jitter, in
    milliseconds.  Floating point is idealised to real arithmetic. */
module Backoff {

  const EXPONENT_CAP: nat := 62

  function Pow2(n: nat): (p: int)
    ensures p >= 1
  {
    if n == 0 then 1 else 2 * Pow2(n - 1)
  }

  function AtLeastZero(x: int): nat {
    if x < 0 then 0 else x
  }

  function Min(a: real, b: real): real {
    if a < b then a else b
  }

  function Clamp(x: real): (r: real)
    ensures 0.0 <= r <= 1.0
  {
    if x < 0.0 then 0.0 else if x > 1.0 then 1.0 else x
  }

  /** `llround`: halves go away from zero. */
  function Round(x: real): int {
    if x >= 0.0 then (x + 0.5).Floor else -((-x + 0.5).Floor)
  }

  function Exponent(attempt: int): nat {
    if attempt <= 1 then 0 else attempt - 1
  }

  function CappedExponent(attempt: int): nat {
    if Exponent(attempt) > EXPONENT_CAP then EXPONENT_CAP else Exponent(attempt)
  }

  function Scale(factor: real, sample: real): real {
    1.0 - Clamp(factor) + 2.0 * Clamp(factor) * Clamp(sample)
  }

  /** The back-off before jitter. */
  function Exponential(initial: int, maximum: int, exponent: nat): int {
    var grown := AtLeastZero(initial) * Pow2(exponent);
    if AtLeastZero(maximum) < grown then AtLeastZero(maximum) else grown
  }

  function Scaled(x: real, scale: real): real {
    x * scale
  }

  function RoundedCut(top: nat, x: real): int {
    Round(Min(top as real, x))
  }

  function Jittered(exponential: int, maximum: int, scale: real): int {
    RoundedCut(AtLeastZero(maximum), Scaled(exponential as real, scale))
  }

  /** The delay for a given exponent. */
  function DelayAt(initial: int, maximum: int, factor: real, exponent: nat, sample: real): int {
    Jittered(Exponential(initial, maximum, exponent), maximum, Scale(factor, sample))
  }

  /** `reconnect_delay_for_attempt`. */
  function Delay(initial: int, maximum: int, factor: real, attempt: int, sample: real): int {
    DelayAt(initial, maximum, factor, CappedExponent(attempt), sample)
  }

  /** The same without the cap on the exponent. */
  function IdealDelay(initial: int, maximum: int, factor: real, attempt: int, sample: real): int {
    DelayAt(initial, maximum, factor, Exponent(attempt), sample)
  }

  // ----- Arithmetic -----

  lemma {:induction false} Pow2Monotone(m: nat, n: nat)
    requires m <= n
    ensures Pow2(m) <= Pow2(n)
  {
    if m < n {
      Pow2Monotone(m, n - 1);
    }
  }

  lemma Pow2Next(n: nat)
    ensures Pow2(n + 1) == 2 * Pow2(n)
  {
  }

  lemma ProductMonotone(a: int, x: int, y: int)
    requires a >= 0 && x <= y
    ensures a * x <= a * y
  {
  }

  lemma RealProductMonotone(a: real, x: real, y: real)
    requires a >= 0.0 && x <= y
    ensures a * x <= a * y && x * a <= y * a
  {
    assert a * (y - x) >= 0.0;
  }

  lemma ScaleMonotone(factor: real, low: real, high: real)
    requires low <= high
    ensures 0.0 <= Scale(factor, low) <= Scale(factor, high) <= 2.0
  {
    var f := Clamp(factor);
    RealProductMonotone(2.0 * f, Clamp(low), Clamp(high));
    RealProductMonotone(2.0 * f, 0.0, Clamp(low));
    RealProductMonotone(2.0 * f, Clamp(high), 1.0);
  }

  lemma RoundMonotone(x: real, y: real)
    requires 0.0 <= x <= y
    ensures 0 <= Round(x) <= Round(y)
  {
  }

  lemma RoundExact(n: nat)
    ensures Round(n as real) == n
  {
  }

  // ----- Properties -----

  lemma ExponentialMonotone(initial: int, maximum: int, low: nat, high: nat)
    requires low <= high
    ensures 0 <= Exponential(initial, maximum, low) <= Exponential(initial, maximum, high) <= AtLeastZero(maximum)
  {
    Pow2Monotone(low, high);
    ProductMonotone(AtLeastZero(initial), Pow2(low), Pow2(high));
    ProductMonotone(AtLeastZero(initial), 0, Pow2(low));
  }

  lemma ProductsOrdered(a: real, b: real, low: real, high: real)
    requires 0.0 <= a <= b && 0.0 <= low <= high
    ensures 0.0 <= Scaled(a, low) <= Scaled(b, high)
  {
    RealProductMonotone(a, 0.0, low);
    RealProductMonotone(a, low, high);
    RealProductMonotone(high, a, b);
  }

  lemma CutMonotone(top: nat, x: real, y: real)
    requires 0.0 <= x <= y
    ensures 0 <= RoundedCut(top, x) <= RoundedCut(top, y) <= top
  {
    RoundMonotone(Min(top as real, x), Min(top as real, y));
    RoundMonotone(Min(top as real, y), top as real);
    RoundExact(top);
  }

  lemma JitteredMonotone(a: int, b: int, maximum: int, low: real, high: real)
    requires 0 <= a <= b && 0.0 <= low <= high
    ensures 0 <= Jittered(a, maximum, low) <= Jittered(b, maximum, high) <= AtLeastZero(maximum)
  {
    hide RoundedCut, Scaled;
    ProductsOrdered(a as real, b as real, low, high);
    CutMonotone(AtLeastZero(maximum), Scaled(a as real, low), Scaled(b as real, high));
  }

  /** A delay grows with the exponent and the sample and stays between zero and the maximum. */
  lemma DelayAtMonotone(initial: int, maximum: int, factor: real, low: nat, high: nat, sample: real, sample': real)
    requires low <= high && sample <= sample'
    ensures 0 <= DelayAt(initial, maximum, factor, low, sample)
    ensures DelayAt(initial, maximum, factor, low, sample) <= DelayAt(initial, maximum, factor, high, sample')
    ensures DelayAt(initial, maximum, factor, high, sample') <= AtLeastZero(maximum)
  {
    hide Exponential, Jittered, Scale;
    ExponentialMonotone(initial, maximum, low, high);
    ScaleMonotone(factor, sample, sample');
    JitteredMonotone(Exponential(initial, maximum, low), Exponential(initial, maximum, high), maximum,
                     Scale(factor, sample), Scale(factor, sample'));
  }

  /** Every delay lies between zero and the maximum, and neither a later attempt nor a larger
      jitter sample shortens it. */
  lemma DelayBoundedAndMonotone(
    initial: int, maximum: int, factor: real, attempt: int, later: int, sample: real, sample': real)
    requires attempt <= later && sample <= sample'
    ensures 0 <= Delay(initial, maximum, factor, attempt, sample)
    ensures Delay(initial, maximum, factor, attempt, sample) <= Delay(initial, maximum, factor, later, sample')
    ensures Delay(initial, maximum, factor, later, sample') <= AtLeastZero(maximum)
  {
    DelayAtMonotone(initial, maximum, factor, CappedExponent(attempt), CappedExponent(later), sample, sample');
  }

  /** The cap cannot be reached before the delay saturates. */
  predicate CapIsSafe(initial: int, maximum: int) {
    initial <= 0 || AtLeastZero(maximum) <= initial * Pow2(EXPONENT_CAP)
  }

  lemma SafeCapIsHarmless(initial: int, maximum: int, factor: real, attempt: int, sample: real)
    requires CapIsSafe(initial, maximum)
    ensures Delay(initial, maximum, factor, attempt, sample) == IdealDelay(initial, maximum, factor, attempt, sample)
  {
    hide Pow2, Scale, Jittered;
    var e := Exponent(attempt);
    if e > EXPONENT_CAP && initial > 0 {
      Pow2Monotone(EXPONENT_CAP, e);
      ProductMonotone(initial, Pow2(EXPONENT_CAP), Pow2(e));
    }
  }

  /** Without jitter the delay is the exponential itself, cut at the maximum. */
  lemma NoJitter(initial: int, maximum: int, exponent: nat, sample: real)
    requires initial >= 0 && maximum >= 0
    ensures
      DelayAt(initial, maximum, 0.0, exponent, sample) ==
      if maximum < initial * Pow2(exponent) then maximum else initial * Pow2(exponent)
  {
    hide Pow2;
    ProductMonotone(initial, 0, Pow2(exponent));
    assert Scale(0.0, sample) == 1.0;
    RoundExact(Exponential(initial, maximum, exponent));
  }

  lemma UnsafeCapBites(initial: int, maximum: int, sample: real)
    requires !CapIsSafe(initial, maximum)
    ensures
      var attempt := EXPONENT_CAP + 2;
      Delay(initial, maximum, 0.0, attempt, sample) < IdealDelay(initial, maximum, 0.0, attempt, sample)
  {
    hide DelayAt;
    Pow2Next(EXPONENT_CAP);
    hide Pow2;
    NoJitter(initial, maximum, EXPONENT_CAP, sample);
    NoJitter(initial, maximum, EXPONENT_CAP + 1, sample);
    ProductMonotone(initial, 1, Pow2(EXPONENT_CAP));
    assert initial * (2 * Pow2(EXPONENT_CAP)) == 2 * (initial * Pow2(EXPONENT_CAP));
  }

  /** The cap on the exponent changes no delay exactly when the initial delay is not positive
      or the maximum is at most 2^62 times it. */
  lemma CapHarmlessIff(initial: int, maximum: int)
    ensures
      CapIsSafe(initial, maximum) <==>
      forall factor, attempt, sample ::
        Delay(initial, maximum, factor, attempt, sample) == IdealDelay(initial, maximum, factor, attempt, sample)
  {
    hide Delay, IdealDelay, CapIsSafe;
    if CapIsSafe(initial, maximum) {
      forall factor, attempt, sample
        ensures
          Delay(initial, maximum, factor, attempt, sample) == IdealDelay(initial, maximum, factor, attempt, sample)
      {
        SafeCapIsHarmless(initial, maximum, factor, attempt, sample);
      }
    } else {
      UnsafeCapBites(initial, maximum, 0.0);
    }
  }

  /** In particular a maximum of at most 2^62 milliseconds is always safe, and the bound is
      tight: one millisecond of initial delay and a maximum one above it is not. */
  lemma CapBoundIsTight(initial: int, maximum: int)
    ensures maximum <= Pow2(EXPONENT_CAP) ==> CapIsSafe(initial, maximum)
    ensures !CapIsSafe(1, Pow2(EXPONENT_CAP) + 1)
  {
    hide Pow2;
    if initial > 0 {
      ProductMonotone(Pow2(EXPONENT_CAP), 1, initial);
      assert initial * Pow2(EXPONENT_CAP) == Pow2(EXPONENT_CAP) * initial;
    }
  }

  lemma IdealDoubles(initial: int, maximum: int, attempt: int, sample: real)
    requires initial >= 0 && maximum >= 0 && attempt >= 1
    ensures
      var d := 2 * IdealDelay(initial, maximum, 0.0, attempt, sample);
      IdealDelay(initial, maximum, 0.0, attempt + 1, sample) == if maximum < d then maximum else d
  {
    hide DelayAt;
    NoJitter(initial, maximum, attempt - 1, sample);
    NoJitter(initial, maximum, attempt, sample);
    Pow2Next(attempt - 1);
    hide Pow2;
    assert initial * (2 * Pow2(attempt - 1)) == 2 * (initial * Pow2(attempt - 1));
    ProductMonotone(initial, 0, Pow2(attempt - 1));
  }

  /** Without jitter, while the cap is safe, each further attempt doubles the delay until it
      saturates. */
  lemma DoublesUntilSaturated(initial: int, maximum: int, attempt: int, sample: real)
    requires initial >= 0 && maximum >= 0 && attempt >= 1 && CapIsSafe(initial, maximum)
    ensures
      var d := 2 * Delay(initial, maximum, 0.0, attempt, sample);
      Delay(initial, maximum, 0.0, attempt + 1, sample) == if maximum < d then maximum else d
  {
    hide Delay, IdealDelay;
    SafeCapIsHarmless(initial, maximum, 0.0, attempt, sample);
    SafeCapIsHarmless(initial, maximum, 0.0, attempt + 1, sample);
    IdealDoubles(initial, maximum, attempt, sample);
  }

  // ----- What the delay is -----

  /** Rounding goes to the nearest integer, halves away from zero. */
  lemma RoundIsNearest(x: real)
    ensures -0.5 <= Round(x) as real - x <= 0.5
    ensures x - x.Floor as real == 0.5 ==> Round(x) == if x >= 0.0 then x.Floor + 1 else x.Floor
  {
  }

  lemma ScaleEnds(factor: real)
    requires 0.0 <= factor <= 1.0
    ensures Scale(factor, 0.0) == 1.0 - factor && Scale(factor, 0.5) == 1.0 && Scale(factor, 1.0) == 1.0 + factor
  {
    assert Clamp(factor) == factor && Clamp(0.0) == 0.0 && Clamp(0.5) == 0.5 && Clamp(1.0) == 1.0;
  }

  /** The jitter spreads the delay evenly around the undisturbed one: the middle sample leaves it
      alone, the ends take away and add the given share of it, up to the maximum. */
  lemma JitterSpreads(initial: int, maximum: int, factor: real, attempt: int)
    requires initial >= 0 && maximum >= 0 && 0.0 <= factor <= 1.0
    ensures
      var e := Delay(initial, maximum, 0.0, attempt, 0.0);
      && 0 <= e <= maximum
      && Delay(initial, maximum, factor, attempt, 0.5) == e
      && Delay(initial, maximum, factor, attempt, 0.0) == Round(Scaled(e as real, 1.0 - factor))
      && Delay(initial, maximum, factor, attempt, 1.0) == Round(Min(maximum as real, Scaled(e as real, 1.0 + factor)))
  {
    hide Exponential, Round, Scaled, Scale;
    var exponent := CappedExponent(attempt);
    var e := Exponential(initial, maximum, exponent);
    ExponentialMonotone(initial, maximum, exponent, exponent);
    ScaleEnds(0.0);
    ScaleEnds(factor);
    RoundExact(e);
    Unscaled(e, maximum);
    Shrunk(e, maximum, factor);
  }

  lemma Unscaled(e: int, maximum: int)
    requires 0 <= e <= maximum
    ensures Jittered(e, maximum, 1.0) == e
  {
    RoundExact(e);
    ScaledIs(e as real, 1.0);
    hide Scaled;
  }

  lemma Shrunk(e: int, maximum: int, factor: real)
    requires 0 <= e <= maximum && 0.0 <= factor <= 1.0
    ensures Jittered(e, maximum, 1.0 - factor) == Round(Scaled(e as real, 1.0 - factor))
  {
    hide Round;
    NotAbove(e as real, 1.0 - factor, maximum as real);
    hide Scaled;
  }

  lemma NotAbove(e: real, share: real, maximum: real)
    requires 0.0 <= e <= maximum && share <= 1.0
    ensures Scaled(e, share) <= maximum
  {
    RealProductMonotone(e, share, 1.0);
  }

  lemma ScaledIs(x: real, scale: real)
    ensures Scaled(x, scale) == x * scale && Scaled(x, 1.0) == x
  {
  }

  /** The first attempt waits for the initial delay, cut at the maximum; delays that are not
      positive count as none; and a factor or sample outside its range counts as the nearest end. */
  lemma DelayBasics(initial: int, maximum: int, factor: real, attempt: int, sample: real)
    ensures attempt <= 1 && initial >= 0 && maximum >= 0 ==>
              Delay(initial, maximum, 0.0, attempt, sample) == if maximum < initial then maximum else initial
    ensures initial <= 0 ==> Delay(initial, maximum, factor, attempt, sample) == 0
    ensures
      var end := if factor < 0.0 then 0.0 else if factor > 1.0 then 1.0 else factor;
      Delay(initial, maximum, factor, attempt, sample) == Delay(initial, maximum, end, attempt, sample)
  {
    hide Jittered, Round;
    if attempt <= 1 && initial >= 0 && maximum >= 0 {
      NoJitter(initial, maximum, 0, sample);
      assert Pow2(0) == 1 && CappedExponent(attempt) == 0;
    }
    hide Pow2;
    if initial <= 0 {
      NothingDelays(maximum, CappedExponent(attempt), Scale(factor, sample));
      assert AtLeastZero(initial) == AtLeastZero(0);
    }
    ClampedScale(factor, sample);
    hide Scale;
  }

  lemma ClampedScale(factor: real, sample: real)
    ensures Scale(factor, sample) == Scale(if factor < 0.0 then 0.0 else if factor > 1.0 then 1.0 else factor, sample)
  {
  }

  lemma NothingDelays(maximum: int, exponent: nat, scale: real)
    ensures Jittered(Exponential(0, maximum, exponent), maximum, scale) == 0
  {
    hide Round, Pow2;
    RoundExact(0);
  }
}
