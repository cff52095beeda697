/**
 * Numeric helpers repeated across the sources: clamping a score into a range,
 * JavaScript's `Math.round`, and the three-decimal rounding
 * `Number(x.toFixed(3))` the scores are stored with. Scores are exact reals.
 */
module Numbers {

  /** `Math.min(Math.max(v, lo), hi)`, equivalently `Math.max(lo, Math.min(hi, v))` when `lo <= hi`. */
  function Clamp(v: real, lo: real, hi: real): (r: real)
    requires lo <= hi
    ensures lo <= r <= hi
    ensures lo <= v <= hi ==> r == v
    ensures v < lo ==> r == lo
    ensures v > hi ==> r == hi
  {
    if v < lo then lo else if v > hi then hi else v
  }

  /** Clamping into the unit interval. */
  function Clamp01(v: real): (r: real)
    ensures 0.0 <= r <= 1.0
    ensures 0.0 <= v <= 1.0 ==> r == v
  {
    Clamp(v, 0.0, 1.0)
  }

  /** The product of two non-negative reals is non-negative. */
  lemma MulNonneg(x: real, y: real)
    requires x >= 0.0 && y >= 0.0
    ensures x * y >= 0.0
  {
  }

  /** Clamping never moves two values past each other. */
  lemma ClampMonotone(u: real, v: real, lo: real, hi: real)
    requires lo <= hi && u <= v
    ensures Clamp(u, lo, hi) <= Clamp(v, lo, hi)
  {
  }

  function Min(a: real, b: real): (r: real)
    ensures r <= a && r <= b && (r == a || r == b)
  {
    if a <= b then a else b
  }

  function Max(a: real, b: real): (r: real)
    ensures r >= a && r >= b && (r == a || r == b)
  {
    if a >= b then a else b
  }

  /** JavaScript `Math.round`: the nearest integer, halves rounded up. */
  function Round(x: real): (r: int)
    ensures x - 0.5 < r as real <= x + 0.5
  {
    (x + 0.5).Floor
  }

  /** A rounded value never leaves an integer range the input was in. */
  lemma RoundBetween(x: real, lo: int, hi: int)
    requires lo as real <= x <= hi as real
    ensures lo <= Round(x) <= hi
  {
  }

  /** `Number(x.toFixed(3))`, with halves rounded up as `Math.round` does. */
  function Round3(x: real): (r: real)
    ensures x - 0.0005 < r <= x + 0.0005
  {
    Round(x * 1000.0) as real / 1000.0
  }

  /** Rounding never reverses the order of two values. */
  lemma RoundMonotone(x: real, y: real)
    requires x <= y
    ensures Round(x) <= Round(y)
  {
  }

  /** Rounding to three decimals never reverses the order of two values. */
  lemma Round3Monotone(x: real, y: real)
    requires x <= y
    ensures Round3(x) <= Round3(y)
  {
    RoundMonotone(x * 1000.0, y * 1000.0);
  }

  /** Rounding to three decimals keeps a value of the unit interval inside it. */
  lemma Round3Unit(x: real)
    requires 0.0 <= x <= 1.0
    ensures 0.0 <= Round3(x) <= 1.0
  {
    RoundBetween(x * 1000.0, 0, 1000);
  }
}
