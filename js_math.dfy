/**
 * The part of JavaScript's `Math` object the geometry kit relies on: `Math.min` and
 * `Math.max`, over exact reals (NaN and the infinities have no counterpart here).
 */
module JsMath {

  /** `Math.min(a, b)`: the smaller argument. */
  function Min(a: real, b: real): (r: real)
    ensures r <= a && r <= b
    ensures r == a || r == b
  {
    if a <= b then a else b
  }

  /** `Math.max(a, b)`: the larger argument. */
  function Max(a: real, b: real): (r: real)
    ensures a <= r && b <= r
    ensures r == a || r == b
  {
    if a <= b then b else a
  }

  /** `Math.min(...s)` for a non-empty argument list: a lower bound that is one of the arguments. */
  function MinOf(s: seq<real>): (m: real)
    requires |s| > 0
    ensures forall i :: 0 <= i < |s| ==> m <= s[i]
    ensures exists i :: 0 <= i < |s| && m == s[i]
  {
    if |s| == 1 then s[0]
    else
      var rest := MinOf(s[1..]);
      assert forall i :: 1 <= i < |s| ==> s[i] == s[1..][i - 1];
      Min(s[0], rest)
  }

  /** `Math.max(...s)` for a non-empty argument list: an upper bound that is one of the arguments. */
  function MaxOf(s: seq<real>): (m: real)
    requires |s| > 0
    ensures forall i :: 0 <= i < |s| ==> s[i] <= m
    ensures exists i :: 0 <= i < |s| && m == s[i]
  {
    if |s| == 1 then s[0]
    else
      var rest := MaxOf(s[1..]);
      assert forall i :: 1 <= i < |s| ==> s[i] == s[1..][i - 1];
      Max(s[0], rest)
  }
}
