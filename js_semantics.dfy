/**
 * The JavaScript built-ins whose exact behaviour on integers the routes
 * depend on: `Math.min`, and `Array.prototype.slice` with its clamping of
 * negative and out-of-range bounds.
 */
module JsSemantics {

  /** `Math.min(a, b)` on integers. */
  function Min(a: int, b: int): int {
    if a <= b then a else b
  }

  /** Clamps a slice bound as `slice` does: a negative bound counts back from the end (floor 0), a non-negative one is capped at the length. */
  function ClampBound(len: nat, bound: int): (b: nat)
    ensures b <= len
  {
    if bound < 0 then (if len + bound < 0 then 0 else len + bound) else Min(bound, len)
  }

  /** `s.slice(start)`: always a suffix of `s`. */
  function SliceFrom<T>(s: seq<T>, start: int): (r: seq<T>)
    ensures |r| <= |s| && r == s[|s| - |r|..]
    ensures start >= 0 ==> |r| == |s| - Min(start, |s|)
    ensures start < 0 ==> |r| == Min(-start, |s|)
  {
    s[ClampBound(|s|, start)..]
  }

  /** `s.slice(0, end)`: always a prefix of `s`. */
  function SliceTo<T>(s: seq<T>, end: int): (r: seq<T>)
    ensures |r| <= |s| && r == s[..|r|]
    ensures end >= 0 ==> |r| == Min(end, |s|)
    ensures end < 0 ==> |r| + Min(-end, |s|) == |s|
  {
    s[..ClampBound(|s|, end)]
  }
}
