/**
 * `Math.clamp` of common.js.  It only compares numbers, so reals model
 * JavaScript numbers faithfully here (NaN aside); a missing bound is `None`.
 */
module MathClamp {

  datatype Option<T> = None | Some(value: T)

  /** The bound used when the argument is missing. */
  function OrDefault(bound: Option<real>, default: real): (r: real)
  {
    if bound.Some? then bound.value else default
  }

  const DefaultMin: real := 0.0
  const DefaultMax: real := 1.0

  function Clamp(a: real, min: Option<real>, max: Option<real>): (r: real)
    ensures var lo, hi := OrDefault(min, DefaultMin), OrDefault(max, DefaultMax);
      && (lo <= hi ==> lo <= r <= hi)
      && (lo <= a <= hi ==> r == a)
      && (r == a || r == lo || r == hi)
  {
    var lo := OrDefault(min, DefaultMin);
    var hi := OrDefault(max, DefaultMax);
    if a < lo then lo else if a > hi then hi else a
  }

  /** With no bounds given the value is clamped to [0, 1]. */
  lemma ClampDefaults(a: real)
    ensures Clamp(a, None, None) == Clamp(a, Some(0.0), Some(1.0))
    ensures 0.0 <= Clamp(a, None, None) <= 1.0
  {
  }

  /** Values below the range map to its lower end, values above to its upper end. */
  lemma ClampOutside(a: real, lo: real, hi: real)
    requires lo <= hi
    ensures a < lo ==> Clamp(a, Some(lo), Some(hi)) == lo
    ensures a > hi ==> Clamp(a, Some(lo), Some(hi)) == hi
  {
  }

  /**
   * When the bounds are crossed the lower bound wins below it and the upper
   * bound everywhere else.
   */
  lemma ClampCrossedBounds(a: real, lo: real, hi: real)
    requires hi < lo
    ensures Clamp(a, Some(lo), Some(hi)) == if a < lo then lo else hi
  {
  }

  /** Clamping twice is clamping once. */
  lemma ClampIdempotent(a: real, min: Option<real>, max: Option<real>)
    requires OrDefault(min, DefaultMin) <= OrDefault(max, DefaultMax)
    ensures Clamp(Clamp(a, min, max), min, max) == Clamp(a, min, max)
  {
  }

  /** Clamping preserves order. */
  lemma ClampMonotonic(a: real, b: real, min: Option<real>, max: Option<real>)
    requires a <= b
    requires OrDefault(min, DefaultMin) <= OrDefault(max, DefaultMax)
    ensures Clamp(a, min, max) <= Clamp(b, min, max)
  {
  }

  /** The cases the library's own tests check. */
  lemma ClampTestCases()
    ensures Clamp(-0.5, None, None) == 0.0
    ensures Clamp(0.5, None, None) == 0.5
    ensures Clamp(1.5, None, None) == 1.0
    ensures Clamp(0.5, Some(1.0), Some(2.0)) == 1.0
    ensures Clamp(1.5, Some(1.0), Some(2.0)) == 1.5
    ensures Clamp(2.5, Some(1.0), Some(2.0)) == 2.0
  {
  }
}
