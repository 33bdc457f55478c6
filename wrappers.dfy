/** Small shared helpers: an optional value and real-number minimum/maximum. */
module Wrappers {

  /** An optional value; `None` also stands for JavaScript's `undefined`/`NaN` where noted. */
  datatype Option<+T> = None | Some(value: T)

  function Min(a: real, b: real): (r: real)
    ensures r <= a && r <= b && (r == a || r == b)
  {
    if a <= b then a else b
  }

  function Max(a: real, b: real): (r: real)
    ensures r >= a && r >= b && (r == a || r == b)
  {
    if a >= b then a else b
  }

  /** `Math.abs`. */
  function Abs(x: real): (r: real)
    ensures r >= 0.0 && (r == x || r == -x)
  {
    if x < 0.0 then -x else x
  }

  /** `Math.max(lo, Math.min(hi, x))`, the clamp idiom used throughout the editor. */
  function Clamp(lo: real, hi: real, x: real): (r: real)
    ensures lo <= hi ==> lo <= r <= hi
    ensures lo <= x <= hi ==> r == x
    ensures hi < lo ==> r == lo
  {
    Max(lo, Min(hi, x))
  }
}
