/** Magnitudes, products and the largest magnitude of a sequence of reals, shared by the quantizers and the
    adapter merge. */
module Reals {
  function Abs(v: real): (a: real) { if v < 0.0 then -v else v }

  function Times(a: real, b: real): real { a * b }

  /** The largest magnitude among the first n entries. */
  function MaxAbs(x: seq<real>, n: nat): (m: real)
    requires n <= |x|
    ensures m >= 0.0
    ensures forall i :: 0 <= i < n ==> Abs(x[i]) <= m
    ensures n > 0 ==> exists i :: 0 <= i < n && m == Abs(x[i])
  {
    if n == 0 then 0.0
    else
      var m := MaxAbs(x, n - 1);
      if m < Abs(x[n - 1]) then Abs(x[n - 1]) else m
  }
}
