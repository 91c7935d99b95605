/**
 * The small interpolation utilities the components borrow from the animation
 * library (`gsap.utils.mapRange`, `gsap.utils.clamp`), the linear blend a tween
 * applies between its start and end values, and JavaScript's `%` on numbers.
 * Everything is over exact reals; IEEE rounding is not modelled.
 */
module TweenMath {

  /** Linear map of `value` from the interval [inMin, inMax] onto [outMin, outMax]. */
  function MapRange(inMin: real, inMax: real, outMin: real, outMax: real, value: real): (r: real)
    requires inMin != inMax
    ensures value == inMin ==> r == outMin
    ensures value == inMax ==> r == outMax
  {
    DivSelf(inMax - inMin);
    assert value == inMin ==> (value - inMin) / (inMax - inMin) == 0.0;
    outMin + (value - inMin) / (inMax - inMin) * (outMax - outMin)
  }

  /** MapRange preserves strict order when both ranges run upwards. */
  lemma MapRangeStrictlyIncreasing(inMin: real, inMax: real, outMin: real, outMax: real, v1: real, v2: real)
    requires inMin < inMax && outMin < outMax
    requires v1 < v2
    ensures MapRange(inMin, inMax, outMin, outMax, v1) < MapRange(inMin, inMax, outMin, outMax, v2)
  {
    var t1 := (v1 - inMin) / (inMax - inMin);
    var t2 := (v2 - inMin) / (inMax - inMin);
    DivStrictlyIncreasing(v1 - inMin, v2 - inMin, inMax - inMin);
    assert t2 * (outMax - outMin) - t1 * (outMax - outMin) == (t2 - t1) * (outMax - outMin);
    PositiveProduct(t2 - t1, outMax - outMin);
  }

  /** MapRange reverses strict order when the output range runs downwards. */
  lemma MapRangeStrictlyDecreasing(inMin: real, inMax: real, outMin: real, outMax: real, v1: real, v2: real)
    requires inMin < inMax && outMax < outMin
    requires v1 < v2
    ensures MapRange(inMin, inMax, outMin, outMax, v1) > MapRange(inMin, inMax, outMin, outMax, v2)
  {
    var t1 := (v1 - inMin) / (inMax - inMin);
    var t2 := (v2 - inMin) / (inMax - inMin);
    DivStrictlyIncreasing(v1 - inMin, v2 - inMin, inMax - inMin);
    assert t1 * (outMax - outMin) - t2 * (outMax - outMin) == (t2 - t1) * (outMin - outMax);
    PositiveProduct(t2 - t1, outMin - outMax);
  }

  /** Mapping back through the swapped ranges recovers the original value. */
  lemma MapRangeRoundTrip(inMin: real, inMax: real, outMin: real, outMax: real, v: real)
    requires inMin != inMax && outMin != outMax
    ensures MapRange(outMin, outMax, inMin, inMax, MapRange(inMin, inMax, outMin, outMax, v)) == v
  {
    var t := (v - inMin) / (inMax - inMin);
    var r := MapRange(inMin, inMax, outMin, outMax, v);
    assert r - outMin == t * (outMax - outMin);
    MulDivCancel(t, outMax - outMin);
    DivMulCancel(v - inMin, inMax - inMin);
  }

  lemma DivSelf(d: real)
    requires d != 0.0
    ensures d / d == 1.0
  {
  }

  lemma DivStrictlyIncreasing(x: real, y: real, d: real)
    requires d > 0.0 && x < y
    ensures x / d < y / d
  {
  }

  lemma MulDivCancel(x: real, d: real)
    requires d != 0.0
    ensures (x * d) / d == x
  {
  }

  lemma DivMulCancel(x: real, d: real)
    requires d != 0.0
    ensures (x / d) * d == x
  {
  }

  lemma PositiveProduct(a: real, b: real)
    requires a > 0.0 && b > 0.0
    ensures a * b > 0.0
  {
  }

  /** `gsap.utils.clamp(min, max, value)`: below min gives min, above max gives max. */
  function Clamp(lo: real, hi: real, value: real): (r: real)
    ensures lo <= hi ==> lo <= r <= hi
    ensures lo <= value <= hi ==> r == value
    ensures r == value || r == lo || r == hi
  {
    if value < lo then lo else if value > hi then hi else value
  }

  /** Clamping twice into the same interval is the same as clamping once. */
  lemma ClampIdempotent(lo: real, hi: real, value: real)
    requires lo <= hi
    ensures Clamp(lo, hi, Clamp(lo, hi, value)) == Clamp(lo, hi, value)
  {
  }

  /** Clamping never reverses the order of two values. */
  lemma ClampMonotone(lo: real, hi: real, v1: real, v2: real)
    requires lo <= hi && v1 <= v2
    ensures Clamp(lo, hi, v1) <= Clamp(lo, hi, v2)
  {
  }

  /** The value a tween shows when its eased fraction is `e`: `from` at 0, `to` at 1. */
  function Lerp(from: real, to: real, e: real): (r: real)
    ensures e == 0.0 ==> r == from
    ensures e == 1.0 ==> r == to
  {
    from + (to - from) * e
  }

  /** Blending from the other end with the complementary fraction gives the same value. */
  lemma LerpSymmetric(from: real, to: real, e: real)
    ensures Lerp(from, to, e) == Lerp(to, from, 1.0 - e)
  {
  }

  /** Equal steps of eased fraction move the blended value by equal amounts. */
  lemma LerpLinear(from: real, to: real, e1: real, e2: real)
    ensures Lerp(from, to, e2) - Lerp(from, to, e1) == (to - from) * (e2 - e1)
  {
  }

  /** For an eased fraction in [0, 1] the blended value lies between the two ends. */
  lemma LerpBetween(from: real, to: real, e: real)
    requires 0.0 <= e <= 1.0
    ensures from <= to ==> from <= Lerp(from, to, e) <= to
    ensures to <= from ==> to <= Lerp(from, to, e) <= from
  {
    var moved := (to - from) * e;
    assert Lerp(from, to, e) == from + moved;
    if from <= to {
      ProductBounds(to - from, e);
    } else {
      ProductBounds(from - to, e);
      NegatedProduct(to - from, e);
    }
  }

  lemma NegatedProduct(a: real, e: real)
    ensures a * e == -((-a) * e)
  {
  }

  lemma ProductBounds(a: real, e: real)
    requires a >= 0.0 && 0.0 <= e <= 1.0
    ensures 0.0 <= a * e <= a
  {
    assert a - a * e == a * (1.0 - e);
  }

  /**
   * Local time of a tween placed at `start` on its timeline and lasting `duration`:
   * the fraction of the tween that has elapsed at timeline time `time`.
   */
  function LocalTime(time: real, start: real, duration: real): (t: real)
    requires duration > 0.0
    ensures 0.0 <= t <= 1.0
    ensures time <= start ==> t == 0.0
    ensures time >= start + duration ==> t == 1.0
    ensures start <= time <= start + duration ==> t * duration == time - start
  {
    var raw := (time - start) / duration;
    assert time >= start + duration ==> raw >= 1.0;
    Clamp(0.0, 1.0, raw)
  }

  /** JavaScript's `%` on numbers: the remainder of a division truncated toward zero. */
  function JsRemainder(v: real, m: real): (r: real)
    requires m > 0.0
    ensures v >= 0.0 ==> 0.0 <= r < m
    ensures v <= 0.0 ==> -m < r <= 0.0
    ensures ((v - r) / m).Floor as real == (v - r) / m
  {
    var q := v / m;
    var k := if q >= 0.0 then q.Floor else -((-q).Floor);
    TruncationFraction(q, k);
    var r := v - m * k as real;
    RemainderBounds(v, m, k, r);
    r
  }

  /** Truncation toward zero leaves a fraction in [0, 1) above zero and in (-1, 0] below. */
  lemma TruncationFraction(q: real, k: int)
    requires k == if q >= 0.0 then q.Floor else -((-q).Floor)
    ensures q >= 0.0 ==> 0.0 <= q - k as real < 1.0
    ensures q < 0.0 ==> -1.0 < q - k as real <= 0.0
  {
  }

  lemma RemainderBounds(v: real, m: real, k: int, r: real)
    requires m > 0.0 && r == v - m * k as real
    requires v / m >= 0.0 ==> 0.0 <= v / m - k as real < 1.0
    requires v / m < 0.0 ==> -1.0 < v / m - k as real <= 0.0
    ensures v >= 0.0 ==> 0.0 <= r < m
    ensures v <= 0.0 ==> -m < r <= 0.0
    ensures ((v - r) / m).Floor as real == (v - r) / m
  {
    var f := v / m - k as real;
    RemainderAsFraction(v, m, k, r);
    WholeQuotient(v - r, m, k);
    QuotientSign(v, m);
    if v > 0.0 {
      ScaledFraction(r, m, f);
    } else if v < 0.0 {
      NegateRightFactor(m, f);
      ScaledFraction(-r, m, -f);
    }
  }

  lemma WholeQuotient(d: real, m: real, k: int)
    requires m > 0.0 && d == m * k as real
    ensures (d / m).Floor as real == d / m
  {
    MulDivCancel(k as real, m);
  }

  lemma NegateRightFactor(m: real, f: real)
    ensures m * -f == -(m * f)
  {
  }

  lemma RemainderAsFraction(v: real, m: real, k: int, r: real)
    requires m > 0.0 && r == v - m * k as real
    ensures r == m * (v / m - k as real)
    ensures v - r == m * k as real
  {
    DivMulCancel(v, m);
  }

  lemma QuotientSign(v: real, m: real)
    requires m > 0.0
    ensures v / m > 0.0 <==> v > 0.0
    ensures v / m == 0.0 <==> v == 0.0
  {
  }

  lemma ScaledFraction(r: real, m: real, f: real)
    requires m > 0.0 && 0.0 <= f < 1.0 && r == m * f
    ensures 0.0 <= r < m
  {
    ProductBelow(m, f);
  }

  lemma ProductBelow(m: real, f: real)
    requires m > 0.0 && 0.0 <= f < 1.0
    ensures 0.0 <= m * f < m
  {
    assert m - m * f == m * (1.0 - f);
  }

  /** For non-negative operands JavaScript's `%` agrees with the floored remainder. */
  lemma JsRemainderIsFloorModOnNonNegatives(v: real, m: real)
    requires m > 0.0 && v >= 0.0
    ensures JsRemainder(v, m) == v - m * (v / m).Floor as real
  {
  }
}
