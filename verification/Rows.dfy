/** Row kernels over exact reals. */
module Rows {
  // The transcendental functions stay parameters (`Fns`), so nothing below depends on their values.

  type Row = seq<real>

  /** A weight matrix in GGUF order: column n holds the K inputs of output neuron n. */
  type Mat = seq<Row>

  /** `cos` and `sin` take the position and the even index 2*ic, as rope_compute_cos does. */
  datatype Fns = Fns(exp: real -> real, invSqrt: real -> real, cos: (int, int) -> real, sin: (int, int) -> real)

  /** The laws of the exponential that softmax relies on. */
  ghost predicate ExpLaw(f: Fns) {
    forall a: real, b: real :: ExpLawAt(f, a, b)
  }

  ghost predicate ExpLawAt(f: Fns, a: real, b: real) {
    f.exp(a + b) == f.exp(a) * f.exp(b) && f.exp(a) > 0.0
  }

  /** exp is increasing. */
  ghost predicate ExpGrows(f: Fns) {
    forall a: real, b: real :: a < b ==> f.exp(a) < f.exp(b)
  }

  /** 1 / sqrt is positive where it is defined. */
  ghost predicate RootLaw(f: Fns) {
    forall v: real :: v > 0.0 ==> f.invSqrt(v) > 0.0
  }

  function At(r: Row, i: int): real {
    if 0 <= i < |r| then r[i] else 0.0
  }

  function Zeros(n: nat): (r: Row)
    ensures |r| == n
  {
    seq(n, i => 0.0)
  }

  function DotAt(x: Row, xo: int, y: Row, yo: int, n: nat): real {
    if n == 0 then 0.0 else DotAt(x, xo, y, yo, n - 1) + At(x, xo + n - 1) * At(y, yo + n - 1)
  }

  function Dot(x: Row, y: Row, n: nat): real {
    DotAt(x, 0, y, 0, n)
  }

  function MatVec(x: Row, w: Mat): (r: Row)
    ensures |r| == |w|
  {
    seq(|w|, n requires 0 <= n < |w| => Dot(x, w[n], |x|))
  }

  function Add(x: Row, y: Row): (r: Row)
    ensures |r| == |x|
  {
    seq(|x|, i => At(x, i) + At(y, i))
  }

  function Mul(x: Row, y: Row): (r: Row)
    ensures |r| == |x|
  {
    seq(|x|, i => At(x, i) * At(y, i))
  }

  function Relu2(x: Row): (r: Row)
    ensures |r| == |x|
  {
    seq(|x|, i => Square(if At(x, i) < 0.0 then 0.0 else At(x, i)))
  }

  function Square(v: real): real { v * v }

  function InvRms(f: Fns, x: Row, eps: real): real {
    if |x| == 0 then 0.0 else f.invSqrt(Dot(x, x, |x|) / |x| as real + eps)
  }

  function RmsNorm(f: Fns, x: Row, w: Row, eps: real): (r: Row)
    ensures |r| == |x|
  {
    var inv := InvRms(f, x, eps);
    seq(|x|, i => At(x, i) * inv * At(w, i))
  }

  // ----- rotary embedding: the sequential in-place loops of tensor_rope -----

  function Put(x: Row, i: int, v: real): (r: Row)
    ensures |r| == |x|
  {
    if 0 <= i < |x| then x[i := v] else x
  }

  /** One NeoX pair, rotated in place. */
  function RopePair(f: Fns, x: Row, base: int, half: int, pos: int, ic: int): (r: Row)
    ensures |r| == |x|
  {
    var x0 := At(x, base + ic);
    var x1 := At(x, base + ic + half);
    var c := f.cos(pos, 2 * ic);
    var s := f.sin(pos, 2 * ic);
    Put(Put(x, base + ic, x0 * c - x1 * s), base + ic + half, x0 * s + x1 * c)
  }

  /** The first n iterations of the inner loop on the head that starts at `base`. */
  function RopeHead(f: Fns, x: Row, base: int, hd: nat, pos: int, n: nat): (r: Row)
    ensures |r| == |x|
  {
    if n == 0 then x else RopePair(f, RopeHead(f, x, base, hd, pos, n - 1), base, hd / 2, pos, n - 1)
  }

  /** The first h heads rotated; the inner loop runs for i = 0, 2, ... below head_dim. */
  function RopeHeads(f: Fns, x: Row, hd: nat, pos: int, h: nat): (r: Row)
    ensures |r| == |x|
  {
    if h == 0 then x
    else RopeHead(f, RopeHeads(f, x, hd, pos, h - 1), (h - 1) * hd, hd, pos, (hd + 1) / 2)
  }

  // ----- softmax -----

  /** The running maximum of the first n entries, starting from m0. */
  function MaxFrom(m0: real, s: Row, n: nat): real {
    if n == 0 then m0
    else
      var m := MaxFrom(m0, s, n - 1);
      if At(s, n - 1) > m then At(s, n - 1) else m
  }

  function ExpSum(f: Fns, s: Row, m: real, n: nat): real {
    if n == 0 then 0.0 else ExpSum(f, s, m, n - 1) + f.exp(At(s, n - 1) - m)
  }

  function Inverse(v: real): real { if v == 0.0 then 0.0 else 1.0 / v }

  /** Softmax computed after subtracting m from every score. */
  function SoftmaxAt(f: Fns, s: Row, m: real): (r: Row)
    ensures |r| == |s|
  {
    var inv := Inverse(ExpSum(f, s, m, |s|));
    seq(|s|, t => f.exp(At(s, t) - m) * inv)
  }

  const FLOOR: real := -1000000000000000000000000000000.0

  /** The softmax of the CPU attention: the maximum search starts at -1e30. */
  function Softmax(f: Fns, s: Row): (r: Row)
    ensures |r| == |s|
  {
    SoftmaxAt(f, s, MaxFrom(FLOOR, s, |s|))
  }

  /** The softmax of the GPU attention kernel and of the sampler: the maximum search starts at the first score. */
  function SoftmaxFromFirst(f: Fns, s: Row): (r: Row)
    ensures |r| == |s|
  {
    SoftmaxAt(f, s, MaxFrom(At(s, 0), s, |s|))
  }

  lemma ExpShift(f: Fns, s: real, m: real, m': real)
    requires ExpLaw(f)
    ensures f.exp(s - m') == f.exp(m - m') * f.exp(s - m)
    ensures f.exp(m - m') > 0.0 && f.exp(s - m) > 0.0
  {
    assert ExpLawAt(f, m - m', s - m);
    assert ExpLawAt(f, s - m, 0.0);
    assert (m - m') + (s - m) == s - m';
  }

  lemma {:induction false} ExpSumShift(f: Fns, s: Row, m: real, m': real, n: nat)
    requires ExpLaw(f)
    ensures ExpSum(f, s, m', n) == f.exp(m - m') * ExpSum(f, s, m, n)
  {
    if n > 0 {
      ExpSumShift(f, s, m, m', n - 1);
      ExpShift(f, At(s, n - 1), m, m');
      Distribute(f.exp(m - m'), ExpSum(f, s, m, n - 1), f.exp(At(s, n - 1) - m));
    }
  }

  lemma {:induction false} ExpSumPositive(f: Fns, s: Row, m: real, n: nat)
    requires ExpLaw(f) && n > 0
    ensures ExpSum(f, s, m, n) > 0.0
  {
    ExpShift(f, At(s, n - 1), m, m);
    if n > 1 { ExpSumPositive(f, s, m, n - 1); }
  }

  lemma Distribute(a: real, x: real, y: real)
    ensures a * (x + y) == a * x + a * y
  {
  }

  lemma CancelScale(c: real, e: real, s: real)
    requires c > 0.0 && s > 0.0
    ensures (c * e) * Inverse(c * s) == e * Inverse(s)
  {
    var u := 1.0 / (c * s);
    var w := 1.0 / s;
    assert (u * c) * s == u * (c * s) == 1.0;
    assert w * s == 1.0;
    assert u * c == w;
    assert (c * e) * u == e * (u * c);
  }

  /** Softmax does not depend on the value subtracted first, so the CPU loop, whose maximum starts at
      -1e30, and the GPU kernel, whose maximum starts at the first score, compute the same weights. */
  lemma {:induction false} SoftmaxShift(f: Fns, s: Row, m: real, m': real)
    requires ExpLaw(f)
    ensures SoftmaxAt(f, s, m) == SoftmaxAt(f, s, m')
  {
    if |s| > 0 {
      ExpSumShift(f, s, m, m', |s|);
      ExpSumPositive(f, s, m, |s|);
      forall t | 0 <= t < |s|
        ensures SoftmaxAt(f, s, m)[t] == SoftmaxAt(f, s, m')[t]
      {
        ExpShift(f, At(s, t), m, m');
        CancelScale(f.exp(m - m'), f.exp(At(s, t) - m), ExpSum(f, s, m, |s|));
      }
    }
  }

  lemma {:induction false} SoftmaxFromFirstIsSoftmax(f: Fns, s: Row)
    requires ExpLaw(f)
    ensures SoftmaxFromFirst(f, s) == Softmax(f, s)
  {
    SoftmaxShift(f, s, MaxFrom(At(s, 0), s, |s|), MaxFrom(FLOOR, s, |s|));
  }
}
