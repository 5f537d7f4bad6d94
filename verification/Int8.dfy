/** Symmetric INT8 quantization of weights. */
module Int8 {
  // The quantizer and the GEMV over its result, in exact arithmetic.

  import opened Reals
  import opened Reduce

  /** One 127th of the largest magnitude; an all-zero tensor uses 1. */
  function ScaleOf(w: seq<real>): (s: real)
    ensures s > 0.0
  {
    var m := MaxAbs(w, |w|);
    (if m == 0.0 then 1.0 else m) / 127.0
  }

  /** std::round: halves go away from zero. */
  function Round(v: real): int {
    if v >= 0.0 then (v + 0.5).Floor else -((-v + 0.5).Floor)
  }

  function Clamp(v: real): real {
    if v > 127.0 then 127.0 else if v < -127.0 then -127.0 else v
  }

  function Quantize(v: real, scale: real): int
    requires scale > 0.0
  {
    Round(Clamp(v / scale))
  }

  function Quantized(w: seq<real>): (q: seq<int>)
    ensures |q| == |w|
  {
    seq(|w|, i requires 0 <= i < |w| => Quantize(w[i], ScaleOf(w)))
  }

  lemma RoundIsNear(v: real)
    ensures -0.5 <= Round(v) as real - v <= 0.5
    ensures -127.0 <= v <= 127.0 ==> -127 <= Round(v) <= 127
  {
  }

  lemma QuotientBounds(v: real, s: real)
    requires s > 0.0 && Abs(v) <= 127.0 * s
    ensures -127.0 <= v / s <= 127.0 && v / s * s == v
  {
    var x := v / s;
    assert x * s == v;
    if x > 127.0 { Bigger(x, 127.0, s); }
    if x < -127.0 { Bigger(-127.0, x, s); }
  }

  lemma Bigger(a: real, b: real, s: real)
    requires a > b && s > 0.0
    ensures a * s > b * s
  {
    assert (a - b) * s > 0.0;
  }

  /** The clamp never acts: the scale puts every weight within -127..127. */
  lemma NothingIsClipped(w: seq<real>, i: nat)
    requires i < |w|
    ensures Clamp(w[i] / ScaleOf(w)) == w[i] / ScaleOf(w) && -127 <= Quantized(w)[i] <= 127
  {
    var s := ScaleOf(w);
    assert 127.0 * s >= MaxAbs(w, |w|);
    QuotientBounds(w[i], s);
    RoundIsNear(w[i] / s);
  }

  ghost predicate Close(a: real, b: real, bound: real) { Abs(a - b) <= bound }

  /** Each dequantized weight is within half a step of the original. */
  lemma WithinHalfStep(w: seq<real>, i: nat)
    requires i < |w|
    ensures Close(Times(Quantized(w)[i] as real, ScaleOf(w)), w[i], ScaleOf(w) / 2.0)
  {
    var s := ScaleOf(w);
    RoundsWithinHalf(w[i], s) by { assert 127.0 * s >= MaxAbs(w, |w|); }
    NothingIsClipped(w, i);
  }

  lemma RoundsWithinHalf(v: real, s: real)
    requires s > 0.0 && Abs(v) <= 127.0 * s
    ensures Close(Times(Round(v / s) as real, s), v, s / 2.0)
  {
    var x := v / s;
    QuotientBounds(v, s);
    RoundIsNear(x);
    var d := Round(x) as real - x;
    hide Round;
    NonNegative(0.5 - d, s);
    NonNegative(d + 0.5, s);
    assert (d + x) * s == d * s + x * s;
  }

  lemma NonNegative(a: real, b: real)
    requires a >= 0.0 && b >= 0.0
    ensures a * b >= 0.0
  {
  }

  /** The scale is no larger than it must be: some weight uses the full range, unless all of them are zero. */
  lemma FullRangeIff(w: seq<real>)
    ensures (exists i :: 0 <= i < |w| && Quantized(w)[i] in {127, -127}) <==> exists i :: 0 <= i < |w| && w[i] != 0.0
  {
    if exists i :: 0 <= i < |w| && w[i] != 0.0 {
      var k :| 0 <= k < |w| && MaxAbs(w, |w|) == Abs(w[k]);
      Largest(w[k], ScaleOf(w));
      assert Quantized(w)[k] in {127, -127};
    } else {
      forall i | 0 <= i < |w| ensures Quantized(w)[i] == 0 { ZeroStays(ScaleOf(w)); }
    }
  }

  lemma Largest(v: real, s: real)
    requires s > 0.0 && Abs(v) == 127.0 * s
    ensures Quantize(v, s) in {127, -127}
  {
    QuotientBounds(v, s);
    var x := v / s;
    if v > 0.0 { Equal(x, 127.0, s); } else { Equal(x, -127.0, s); }
  }

  lemma Equal(a: real, b: real, s: real)
    requires s > 0.0 && a * s == b * s
    ensures a == b
  {
    if a > b { Bigger(a, b, s); }
    if b > a { Bigger(b, a, s); }
  }

  lemma ZeroStays(s: real)
    requires s > 0.0
    ensures Quantize(0.0, s) == 0
  {
  }

  // ----- the GEMV -----

  /** The terms of one output neuron. */
  function Terms(q: seq<int>, x: seq<real>): (t: seq<real>)
    requires |x| == |q|
    ensures |t| == |q|
  {
    seq(|q|, k requires 0 <= k < |q| => Times(q[k] as real, x[k]))
  }

  function Dot(w: seq<real>, x: seq<real>, n: nat): real
    requires n <= |w| && n <= |x|
  {
    if n == 0 then 0.0 else Dot(w, x, n - 1) + Times(w[n - 1], x[n - 1])
  }

  function AbsSum(x: seq<real>, n: nat): real
    requires n <= |x|
  {
    if n == 0 then 0.0 else AbsSum(x, n - 1) + Abs(x[n - 1])
  }

  /** y is within half a step times the sum of the |x_k| of the exact product. */
  ghost predicate Near(w: seq<real>, scale: real, x: seq<real>, y: real)
    requires |w| == |x|
  {
    Close(y, Dot(w, x, |w|), Times(scale / 2.0, AbsSum(x, |x|)))
  }

  lemma TermError(q: real, w: real, s: real, x: real)
    requires Close(Times(q, s), w, s / 2.0)
    ensures Close(Times(Times(q, x), s), Times(w, x), Times(s / 2.0, Abs(x)))
  {
    var e, h := q * s - w, s / 2.0;
    assert q * x * s - w * x == e * x;
    if x >= 0.0 {
      NonNegative(h - e, x);
      NonNegative(h + e, x);
    } else {
      NonNegative(h - e, -x);
      NonNegative(h + e, -x);
    }
  }

  lemma Combine(a: real, d: real, m: real, t: real, e: real, n: real, s: real)
    requires Close(Times(a, s), d, Times(s / 2.0, m)) && Close(Times(t, s), e, Times(s / 2.0, n))
    ensures Close(Times(a + t, s), d + e, Times(s / 2.0, m + n))
  {
    var h := s / 2.0;
    assert (a + t) * s == a * s + t * s;
    assert h * (m + n) == h * m + h * n;
  }

  lemma NoError(s: real)
    ensures Close(Times(0.0, s), 0.0, Times(s / 2.0, 0.0))
  {
  }

  ghost predicate AllClose(q: seq<int>, w: seq<real>, s: real) {
    |q| == |w| && forall i :: 0 <= i < |w| ==> Close(Times(q[i] as real, s), w[i], s / 2.0)
  }

  /** The scaled integer sum stays within half a step times the sum of the |x_k|. */
  lemma {:induction false} SumError(q: seq<int>, w: seq<real>, s: real, x: seq<real>, n: nat)
    requires |q| == |w| == |x| && n <= |w| && AllClose(q, w, s)
    ensures Close(Times(SumTo(Terms(q, x), n), s), Dot(w, x, n), Times(s / 2.0, AbsSum(x, n)))
  {
    hide Times, Close, Abs;
    if n == 0 {
      NoError(s);
    } else {
      var k := n - 1;
      SumError(q, w, s, x, k);
      TermError(q[k] as real, w[k], s, x[k]);
      Combine(SumTo(Terms(q, x), k), Dot(w, x, k), AbsSum(x, k), Times(q[k] as real, x[k]), Times(w[k], x[k]),
              Abs(x[k]), s);
    }
  }

  method QuantizeLoop(w: seq<real>) returns (q: seq<int>, scale: real)
    ensures q == Quantized(w) && scale == ScaleOf(w)
  {
    var maxAbs := 0.0;
    for j := 0 to |w|
      invariant maxAbs == MaxAbs(w, j)
    {
      var v := w[j];
      if v < 0.0 { v := -v; }
      if v > maxAbs { maxAbs := v; }
    }
    if maxAbs == 0.0 { maxAbs := 1.0; }
    scale := maxAbs / 127.0;
    q := [];
    for j := 0 to |w|
      invariant q == Quantized(w)[..j]
    {
      var v := w[j] / scale;
      if v > 127.0 { v := 127.0; }
      if v < -127.0 { v := -127.0; }
      q := q + [Round(v)];
    }
  }

  /** One output of the INT8 kernel: 32 strided lanes, the shuffle tree, one multiplication by the scale. */
  method GemvInt8(q: seq<int>, x: seq<real>, scale: real) returns (y: real)
    requires |q| == |x|
    ensures y == Times(SumTo(Terms(q, x), |q|), scale)
  {
    PowerOf32();
    var sum := WarpSum(Terms(q, x), 32, true);
    y := sum * scale;
  }

  lemma PowerOf32()
    ensures PowerOfTwo(32)
  {
    assert PowerOfTwo(8);
  }

  /** The INT8 product of one column with an activation is within the bound of the unquantized product. The column is
      part of a tensor that is quantized with one scale. */
  lemma Int8ErrorBound(tensor: seq<real>, at: nat, x: seq<real>)
    requires at + |x| <= |tensor|
    ensures var w, q, s := tensor[at..at + |x|], Quantized(tensor)[at..at + |x|], ScaleOf(tensor);
      Near(w, s, x, Times(SumTo(Terms(q, x), |q|), s))
  {
    hide Quantized, ScaleOf, SumTo, Terms, Times, AllClose, Near;
    PartClose(tensor, at, |x|);
    SumNear(Quantized(tensor)[at..at + |x|], tensor[at..at + |x|], ScaleOf(tensor), x);
  }

  lemma SumNear(q: seq<int>, w: seq<real>, s: real, x: seq<real>)
    requires |q| == |w| == |x| && AllClose(q, w, s)
    ensures Near(w, s, x, Times(SumTo(Terms(q, x), |q|), s))
  {
    hide SumTo, Terms, Times, AllClose, Close, Dot, AbsSum;
    SumError(q, w, s, x, |w|);
  }

  lemma PartClose(tensor: seq<real>, at: nat, n: nat)
    requires at + n <= |tensor|
    ensures AllClose(Quantized(tensor)[at..at + n], tensor[at..at + n], ScaleOf(tensor))
  {
    hide Quantized, ScaleOf, Times, Close;
    var q, w, s := Quantized(tensor)[at..at + n], tensor[at..at + n], ScaleOf(tensor);
    forall i | 0 <= i < |w| ensures Close(Times(q[i] as real, s), w[i], s / 2.0) { WithinHalfStep(tensor, at + i); }
  }

  /** Quantize the tensor, then multiply one of its columns: the result is near the exact one. */
  method Int8Product(tensor: seq<real>, at: nat, x: seq<real>) returns (y: real)
    requires at + |x| <= |tensor|
    ensures Near(tensor[at..at + |x|], ScaleOf(tensor), x, y)
  {
    hide Near, Quantized, ScaleOf, SumTo, Terms, Times;
    var q, scale := QuantizeLoop(tensor);
    var part := q[at..at + |x|];
    y := GemvInt8(part, x, scale);
    Int8ErrorBound(tensor, at, x);
    assert |part| == |x| && part == Quantized(tensor)[at..at + |x|];
  }
}
