/**
 * The few JavaScript number operations the application relies on, over
 * mathematical integers and reals: Math.floor, Math.ceil, Math.trunc,
 * Math.abs, Math.min, Math.max, and the truthiness of an optional number.
 */
module JsMath {
  import opened Wrappers

  /** Math.floor on a real. */
  function Floor(x: real): (f: int)
    ensures f as real <= x < f as real + 1.0
  {
    x.Floor
  }

  /** Math.ceil on a real. */
  function Ceil(x: real): (c: int)
    ensures c as real - 1.0 < x <= c as real
  {
    -Floor(-x)
  }

  /** Math.trunc on a real: rounds towards zero. */
  function Trunc(x: real): (t: int)
    ensures x >= 0.0 ==> t == Floor(x)
    ensures x < 0.0 ==> t == Ceil(x)
  {
    if x >= 0.0 then Floor(x) else -Floor(-x)
  }

  function Abs(x: real): (a: real)
    ensures a >= 0.0 && (a == x || a == -x)
  {
    if x < 0.0 then -x else x
  }

  function MinReal(a: real, b: real): (m: real)
    ensures m <= a && m <= b && (m == a || m == b)
  {
    if a <= b then a else b
  }

  function MaxReal(a: real, b: real): (m: real)
    ensures m >= a && m >= b && (m == a || m == b)
  {
    if a >= b then a else b
  }

  /** An optional number is truthy when it is present and not zero. */
  predicate TruthyInt(o: Option<int>) {
    o.Some? && o.value != 0
  }

  /** The same for an optional real. */
  predicate TruthyReal(o: Option<real>) {
    o.Some? && o.value != 0.0
  }

  /** `o || 0`: the number, or 0 when it is absent. */
  function OrZero(o: Option<int>): (n: int)
    ensures o.None? ==> n == 0
    ensures o.Some? ==> n == o.value
  {
    if TruthyInt(o) then o.value else 0
  }
}
