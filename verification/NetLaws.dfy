/** The layer's laws. */
module NetLaws {
  // What the row arithmetic means, without its formulas: softmax is the one distribution with the right ratios,
  // attention an average, the norm a rescaling, the rotary embedding a rotation that leaves only relative positions,
  // and a layer adds to its input.

  import opened Arith
  import opened Rows
  import opened Chain
  import opened Net
  import opened Prelude
  import opened Attention
  import opened GpuKernels
  import opened Reduce

  // ----- softmax -----

  /** Any two weights stand in the ratio of the exponentials of their scores. */
  ghost predicate InRatio(f: Fns, s: Row, w: Row) {
    |w| == |s| && forall i, j :: 0 <= i < |s| && 0 <= j < |s| ==> RatioAt(f, s, w, i, j)
  }

  ghost predicate RatioAt(f: Fns, s: Row, w: Row, i: int, j: int)
    requires |w| == |s| && 0 <= i < |s| && 0 <= j < |s|
  {
    w[i] * f.exp(s[j]) == w[j] * f.exp(s[i])
  }

  ghost predicate AllPositive(w: Row) { forall i :: 0 <= i < |w| ==> w[i] > 0.0 }

  lemma {:induction false} SoftmaxSum(f: Fns, s: Row, m: real, n: nat)
    requires n <= |s|
    ensures SumTo(SoftmaxAt(f, s, m), n) == ExpSum(f, s, m, n) * Inverse(ExpSum(f, s, m, |s|))
  {
    if n > 0 {
      SoftmaxSum(f, s, m, n - 1);
      var inv := Inverse(ExpSum(f, s, m, |s|));
      assert (ExpSum(f, s, m, n - 1) + f.exp(At(s, n - 1) - m)) * inv
          == ExpSum(f, s, m, n - 1) * inv + f.exp(At(s, n - 1) - m) * inv;
    }
  }

  lemma InverseTimes(v: real)
    requires v > 0.0
    ensures Inverse(v) > 0.0 && v * Inverse(v) == 1.0
  {
  }

  lemma Positive(a: real, b: real)
    requires a > 0.0 && b > 0.0
    ensures a * b > 0.0
  {
  }

  lemma SoftmaxAddsUp(f: Fns, s: Row)
    requires ExpLaw(f) && |s| > 0
    ensures SumTo(Softmax(f, s), |s|) == 1.0 && AllPositive(Softmax(f, s))
  {
    hide MaxFrom, ExpSum, ExpLaw, Inverse;
    var m := MaxFrom(FLOOR, s, |s|);
    ExpSumPositive(f, s, m, |s|);
    SoftmaxSum(f, s, m, |s|);
    InverseTimes(ExpSum(f, s, m, |s|));
    forall i | 0 <= i < |s| ensures Softmax(f, s)[i] > 0.0 { WeightPositive(f, s, m, i); }
  }

  lemma WeightPositive(f: Fns, s: Row, m: real, i: nat)
    requires ExpLaw(f) && i < |s|
    ensures SoftmaxAt(f, s, m)[i] > 0.0
  {
    hide ExpSum, ExpLaw, Inverse;
    ExpSumPositive(f, s, m, |s|);
    InverseTimes(ExpSum(f, s, m, |s|));
    ExpShift(f, At(s, i), m, m);
    Positive(f.exp(At(s, i) - m), Inverse(ExpSum(f, s, m, |s|)));
  }

  lemma SoftmaxInRatio(f: Fns, s: Row)
    requires ExpLaw(f)
    ensures InRatio(f, s, Softmax(f, s))
  {
    hide MaxFrom, ExpSum, Inverse;
    var m := MaxFrom(FLOOR, s, |s|);
    var inv := Inverse(ExpSum(f, s, m, |s|));
    forall i, j | 0 <= i < |s| && 0 <= j < |s| ensures RatioAt(f, s, Softmax(f, s), i, j) {
      Shifted(f, s[i], m);
      Shifted(f, s[j], m);
      Swap(f.exp(s[i]), f.exp(s[j]), f.exp(-m), inv);
    }
  }

  lemma Shifted(f: Fns, v: real, m: real)
    requires ExpLaw(f)
    ensures f.exp(v - m) == f.exp(v) * f.exp(-m)
  {
    assert ExpLawAt(f, v, -m);
    assert v + -m == v - m;
  }

  lemma Swap(a: real, b: real, c: real, d: real)
    ensures ((a * c) * d) * b == ((b * c) * d) * a
  {
    var e := c * d;
    assert (a * c) * d == a * e && (b * c) * d == b * e;
    assert (a * e) * b == (b * e) * a;
  }

  /** Against the exponentials themselves. */
  function Exps(f: Fns, s: Row): (e: Row)
    ensures |e| == |s|
  {
    seq(|s|, i requires 0 <= i < |s| => f.exp(s[i]))
  }

  lemma {:induction false} RatioSums(f: Fns, s: Row, w: Row, i: nat, n: nat)
    requires InRatio(f, s, w) && i < |s| && n <= |s|
    ensures w[i] * SumTo(Exps(f, s), n) == f.exp(s[i]) * SumTo(w, n)
  {
    if n > 0 {
      RatioSums(f, s, w, i, n - 1);
      assert RatioAt(f, s, w, i, n - 1);
      var a, b := SumTo(Exps(f, s), n - 1), SumTo(w, n - 1);
      assert w[i] * (a + f.exp(s[n - 1])) == w[i] * a + w[i] * f.exp(s[n - 1]);
      assert f.exp(s[i]) * (b + w[n - 1]) == f.exp(s[i]) * b + f.exp(s[i]) * w[n - 1];
    }
  }

  lemma {:induction false} ExpsPositive(f: Fns, s: Row, n: nat)
    requires ExpLaw(f) && 0 < n <= |s|
    ensures SumTo(Exps(f, s), n) > 0.0
  {
    assert ExpLawAt(f, s[n - 1], 0.0);
    if n > 1 { ExpsPositive(f, s, n - 1); }
  }

  lemma SameQuotient(a: real, b: real, c: real, e: real)
    requires a * c == e && b * c == e && c > 0.0
    ensures a == b
  {
    assert (a - b) * c == 0.0;
  }

  /** Softmax is the only row with these ratios that adds up to one; its entries are then positive. */
  lemma {:induction false} SoftmaxIff(f: Fns, s: Row, w: Row)
    requires ExpLaw(f) && |s| > 0
    ensures w == Softmax(f, s) <==> InRatio(f, s, w) && SumTo(w, |w|) == 1.0
    ensures AllPositive(Softmax(f, s))
  {
    hide Softmax, InRatio;
    SoftmaxAddsUp(f, s);
    SoftmaxInRatio(f, s);
    if InRatio(f, s, w) && SumTo(w, |w|) == 1.0 {
      InRatioSize(f, s, w);
      var v := Softmax(f, s);
      ExpsPositive(f, s, |s|);
      forall i | 0 <= i < |s| ensures w[i] == v[i] {
        RatioSums(f, s, w, i, |s|);
        RatioSums(f, s, v, i, |s|);
        SameQuotient(w[i], v[i], SumTo(Exps(f, s), |s|), f.exp(s[i]));
      }
    }
  }

  lemma InRatioSize(f: Fns, s: Row, w: Row)
    requires InRatio(f, s, w)
    ensures |w| == |s|
  {
  }

  /** The scores seen from entry i. */
  function Leads(f: Fns, s: Row, i: nat): (e: Row)
    requires i < |s|
    ensures |e| == |s|
  {
    seq(|s|, j requires 0 <= j < |s| => f.exp(s[j] - s[i]))
  }

  lemma {:induction false} WeightTimesLeads(f: Fns, s: Row, w: Row, i: nat, n: nat)
    requires ExpLaw(f) && InRatio(f, s, w) && i < |s| && n <= |s|
    ensures w[i] * SumTo(Leads(f, s, i), n) == SumTo(w, n)
  {
    if n > 0 {
      WeightTimesLeads(f, s, w, i, n - 1);
      assert RatioAt(f, s, w, i, n - 1);
      OneLead(f, s[n - 1], s[i], w[i], w[n - 1]);
      Times(w[i], SumTo(Leads(f, s, i), n - 1), f.exp(s[n - 1] - s[i]));
    }
  }

  lemma OneLead(f: Fns, x: real, y: real, wy: real, wx: real)
    requires ExpLaw(f) && wy * f.exp(x) == wx * f.exp(y)
    ensures wx == wy * f.exp(x - y)
  {
    assert ExpLawAt(f, x - y, y) && ExpLawAt(f, y, 0.0) && (x - y) + y == x;
    hide ExpLaw;
    var e, d := f.exp(y), f.exp(x - y);
    assert wy * (d * e) == (wy * d) * e;
    SameQuotient(wx, wy * d, e, wy * (d * e));
  }

  lemma {:induction false} SumGrowsWith(a: Row, b: Row, n: nat)
    requires n <= |a| == |b| && forall j :: 0 <= j < |a| ==> a[j] <= b[j]
    ensures SumTo(a, n) <= SumTo(b, n)
  {
    if n > 0 { SumGrowsWith(a, b, n - 1); }
  }

  lemma LargerShare(a: real, b: real, x: real, y: real)
    requires a * x == 1.0 && b * y == 1.0 && a > 0.0 && b > 0.0 && y <= x
    ensures b >= a
  {
    var c := a * b;
    Positive(a, b);
    assert c * x == b * (a * x) && c * y == a * (b * y);
    assert c * (x - y) >= 0.0;
  }

  lemma Quotient(v: real, a: real, x: real)
    requires a > 0.0 && x * a == v && v >= 0.0
    ensures x >= 0.0
  {
  }

  /** An entry that leads every other one by at least as much weighs at least as much. */
  lemma LargerLeadWeighsMore(f: Fns, s: Row, t: Row, i: nat)
    requires ExpLaw(f) && ExpGrows(f) && |t| == |s| && i < |s|
    requires forall j :: 0 <= j < |s| ==> t[j] - t[i] <= s[j] - s[i]
    ensures Softmax(f, t)[i] >= Softmax(f, s)[i]
  {
    hide Softmax, ExpLaw, InRatio, SumTo;
    SoftmaxAddsUp(f, s);
    SoftmaxAddsUp(f, t);
    SoftmaxInRatio(f, s);
    SoftmaxInRatio(f, t);
    WeightTimesLeads(f, s, Softmax(f, s), i, |s|);
    WeightTimesLeads(f, t, Softmax(f, t), i, |t|);
    SumGrowsWith(Leads(f, t, i), Leads(f, s, i), |s|);
    LargerShare(Softmax(f, s)[i], Softmax(f, t)[i], SumTo(Leads(f, s, i), |s|), SumTo(Leads(f, t, i), |t|));
  }

  // ----- attention -----

  lemma {:induction false} MixBetween(w: Row, kvs: seq<KV>, j: int, lo: real, hi: real, n: nat)
    requires n <= |kvs| == |w| && AllPositive(w)
    requires forall t :: 0 <= t < |kvs| ==> lo <= At(kvs[t].v, j) <= hi
    ensures lo * SumTo(w, n) <= Mix(w, kvs, j, n) <= hi * SumTo(w, n)
  {
    if n > 0 {
      MixBetween(w, kvs, j, lo, hi, n - 1);
      MixStep(Mix(w, kvs, j, n - 1), SumTo(w, n - 1), w[n - 1], At(kvs[n - 1].v, j), lo, hi);
    }
  }

  lemma MixStep(mix: real, s: real, a: real, v: real, lo: real, hi: real)
    requires lo * s <= mix <= hi * s && a > 0.0 && lo <= v <= hi
    ensures lo * (s + a) <= mix + a * v <= hi * (s + a)
  {
    assert (v - lo) * a >= 0.0 && (hi - v) * a >= 0.0;
    Times(lo, s, a);
    Times(hi, s, a);
  }

  lemma Times(x: real, y: real, z: real)
    ensures x * (y + z) == x * y + x * z
  {
  }

  /** Every output entry of a head lies between the least and the greatest entry of its value column, so attention over
      equal value rows returns that row. */
  lemma AttentionIsAverage(net: Net, q: Row, kvs: seq<KV>, h: nat, d: nat, lo: real, hi: real)
    requires ExpLaw(net.fns) && |kvs| > 0
    requires forall t :: 0 <= t < |kvs| ==> lo <= At(kvs[t].v, h / Group(net.cfg) * net.cfg.headDim + d) <= hi
    ensures lo <= HeadOut(net, q, kvs, h, d) <= hi
  {
    hide Softmax, Mix, SumTo;
    var w := Softmax(net.fns, Scores(net, q, kvs, h));
    SoftmaxAddsUp(net.fns, Scores(net, q, kvs, h));
    MixBetween(w, kvs, h / Group(net.cfg) * net.cfg.headDim + d, lo, hi, |kvs|);
  }

  lemma {:induction false} MixPicks(w: Row, kvs: seq<KV>, j: int, t: nat, n: nat)
    requires n <= |kvs| == |w|
    requires forall i :: 0 <= i < |kvs| ==> At(kvs[i].v, j) == if i == t then 1.0 else 0.0
    ensures Mix(w, kvs, j, n) == if t < n then w[t] else 0.0
  {
    if n > 0 { MixPicks(w, kvs, j, t, n - 1); }
  }

  /** Each row counts with its own weight: a value column that is one at t and zero elsewhere comes out as the weight of
      t. */
  lemma AttentionPicksWeight(net: Net, q: Row, kvs: seq<KV>, h: nat, d: nat, t: nat)
    requires t < |kvs|
    requires forall i :: 0 <= i < |kvs| ==>
      At(kvs[i].v, h / Group(net.cfg) * net.cfg.headDim + d) == if i == t then 1.0 else 0.0
    ensures HeadOut(net, q, kvs, h, d) == Softmax(net.fns, Scores(net, q, kvs, h))[t]
  {
    hide Softmax, Mix;
    MixPicks(Softmax(net.fns, Scores(net, q, kvs, h)), kvs, h / Group(net.cfg) * net.cfg.headDim + d, t, |kvs|);
  }

  lemma {:induction false} DotOfUnits(x: Row, xo: int, y: Row, yo: int, a: nat, n: nat)
    requires forall i :: xo <= i < xo + n ==> At(x, i) == if i == xo + a then 1.0 else 0.0
    ensures DotAt(x, xo, y, yo, n) == if a < n then At(y, yo + a) else 0.0
  {
    if n > 0 { DotOfUnits(x, xo, y, yo, a, n - 1); }
  }

  /** A score is the scale times the entry of the key that the query points at, within the heads they belong to. */
  lemma ScoreOfUnit(net: Net, q: Row, kv: KV, h: nat, a: nat)
    requires a < net.cfg.headDim
    requires var base := h * net.cfg.headDim;
      forall i :: base <= i < base + net.cfg.headDim ==> At(q, i) == if i == base + a then 1.0 else 0.0
    ensures Score(net, q, kv, h) == At(kv.k, h / Group(net.cfg) * net.cfg.headDim + a) * net.cfg.scale
  {
    hide DotAt;
    DotOfUnits(q, h * net.cfg.headDim, kv.k, h / Group(net.cfg) * net.cfg.headDim, a, net.cfg.headDim);
  }

  /** A key with a higher score than another weighs more. */
  lemma HigherScoreWeighsMore(f: Fns, s: Row, i: nat, j: nat)
    requires ExpLaw(f) && ExpGrows(f) && i < |s| && j < |s| && s[i] > s[j]
    ensures Softmax(f, s)[i] > Softmax(f, s)[j]
  {
    hide Softmax;
    SoftmaxAddsUp(f, s);
    SoftmaxInRatio(f, s);
    var w := Softmax(f, s);
    assert RatioAt(f, s, w, i, j);
    assert ExpLawAt(f, s[j], 0.0);
    Heavier(w[i], w[j], f.exp(s[i]), f.exp(s[j]));
  }

  lemma Heavier(x: real, y: real, a: real, b: real)
    requires x * b == y * a && a > b > 0.0 && y > 0.0
    ensures x > y
  {
    Positive(y, a - b);
    assert (x - y) * b == y * (a - b);
  }

  /** Each key/value head serves a block of consecutive query heads, all of the same size. */
  lemma {:induction false} GroupsAreBlocks(c: Config, h: nat, g: nat)
    requires Heads(c) && h < c.nHeads
    ensures h / Group(c) < c.nKv
    ensures h / Group(c) == g <==> g * (c.nHeads / c.nKv) <= h < (g + 1) * (c.nHeads / c.nKv)
  {
    KvHead(c, h);
    BlockOf(h, c.nHeads / c.nKv, g);
  }

  lemma BlockOf(h: nat, n: nat, g: nat)
    requires n > 0
    ensures h / n == g <==> g * n <= h < (g + 1) * n
  {
    assert (g + 1) * n == g * n + n;
    if g * n <= h < g * n + n { DivIs(h, n, g, h - g * n); }
  }

  // ----- the norm -----

  /** 1 / sqrt undoes the square. */
  ghost predicate RootSquares(f: Fns) {
    forall v: real :: v > 0.0 ==> f.invSqrt(v) > 0.0 && f.invSqrt(v) * f.invSqrt(v) * v == 1.0
  }

  /** The norm scales a row by one positive factor, which with eps = 0 makes its mean square 1, and then by the
      weights. */
  lemma NormRescales(f: Fns, x: Row, w: Row, eps: real) returns (c: real)
    requires RootSquares(f) && |x| > 0 && Dot(x, x, |x|) / |x| as real + eps > 0.0
    ensures c > 0.0 && c * c * (Dot(x, x, |x|) + eps * |x| as real) == |x| as real
    ensures forall i :: 0 <= i < |x| ==> RmsNorm(f, x, w, eps)[i] == x[i] * c * At(w, i)
  {
    hide Dot;
    var n := |x| as real;
    var v := Dot(x, x, |x|) / n + eps;
    c := f.invSqrt(v);
    assert v * n == Dot(x, x, |x|) + eps * n;
    assert (c * c) * v * n == (c * c) * (v * n);
  }

  lemma RootScales(f: Fns, v: real, c: real, u: real)
    requires RootSquares(f) && v > 0.0 && c > 0.0 && u == c * c * v
    ensures u > 0.0 && f.invSqrt(u) * c == f.invSqrt(v)
  {
    hide RootSquares;
    SquaredTimes(c, v, u);
    RootAt(f, u);
    RootAt(f, v);
    ScaledSquares(f.invSqrt(u), f.invSqrt(v), c, v, u);
  }

  lemma SquaredTimes(c: real, v: real, u: real)
    requires v > 0.0 && c > 0.0 && u == c * c * v
    ensures u > 0.0
  {
    var w := c * v;
    assert u == c * w;
  }

  lemma ScaledSquares(a: real, b: real, c: real, v: real, u: real)
    requires a > 0.0 && b > 0.0 && c > 0.0 && v > 0.0 && u == c * c * v && a * a * u == 1.0 && b * b * v == 1.0
    ensures a * c == b
  {
    var p := a * c;
    Positive(a, c);
    assert p * p * v == a * a * u;
    SameRoot(p, b, v);
  }

  lemma RootAt(f: Fns, v: real)
    requires RootSquares(f) && v > 0.0
    ensures f.invSqrt(v) > 0.0 && f.invSqrt(v) * f.invSqrt(v) * v == 1.0
  {
  }

  lemma SameRoot(a: real, b: real, v: real)
    requires a > 0.0 && b > 0.0 && v > 0.0 && a * a * v == b * b * v
    ensures a == b
  {
    SameQuotient(a * a, b * b, v, b * b * v);
    assert (a - b) * (a + b) == 0.0;
  }

  /** A row and a positive multiple of it. */
  ghost predicate Multiple(x: Row, y: Row, c: real) {
    |y| == |x| && c > 0.0 && forall i :: 0 <= i < |x| ==> y[i] == c * x[i]
  }

  lemma {:induction false} DotOfMultiple(x: Row, y: Row, c: real, n: nat)
    requires Multiple(x, y, c) && n <= |x|
    ensures Dot(y, y, n) == c * c * Dot(x, x, n)
  {
    if n > 0 {
      DotOfMultiple(x, y, c, n - 1);
      var v, d := x[n - 1], Dot(x, x, n - 1);
      assert (c * v) * (c * v) == c * c * (v * v);
      Times(c * c, d, v * v);
    }
  }

  lemma ScaledRoot(f: Fns, x: Row, y: Row, c: real)
    requires RootSquares(f) && Multiple(x, y, c) && |x| > 0 && Dot(x, x, |x|) > 0.0
    ensures InvRms(f, y, 0.0) * c == InvRms(f, x, 0.0)
  {
    hide Dot;
    var n, d := |x| as real, Dot(x, x, |x|);
    DotOfMultiple(x, y, c, |x|);
    var v := d / n;
    assert v * n == d && v > 0.0;
    var u := Dot(y, y, |x|) / n;
    assert u * n == c * c * d;
    SameQuotient(u, c * c * v, n, c * c * d);
    RootScales(f, v, c, u);
  }

  /** Without eps the norm does not see the size of its input. */
  lemma NormIgnoresSize(f: Fns, x: Row, y: Row, w: Row, c: real)
    requires RootSquares(f) && Multiple(x, y, c) && (|x| > 0 ==> Dot(x, x, |x|) > 0.0)
    ensures RmsNorm(f, y, w, 0.0) == RmsNorm(f, x, w, 0.0)
  {
    hide Dot, InvRms;
    if |x| > 0 {
      ScaledRoot(f, x, y, c);
      var a, b := InvRms(f, y, 0.0), InvRms(f, x, 0.0);
      forall i | 0 <= i < |x| ensures RmsNorm(f, y, w, 0.0)[i] == RmsNorm(f, x, w, 0.0)[i] {
        assert (c * x[i]) * a == x[i] * (a * c);
      }
    }
  }

  /** So neither the logits, nor queries, keys and values, nor what sub-normed attention adds depend on the size of the
      row they are computed from. */
  lemma SizesDoNotMatter(net: Net, l: nat, x: Row, y: Row, c: real, pos: int, z: Row)
    requires RootSquares(net.fns) && net.cfg.eps == 0.0 && Multiple(x, y, c) && (|x| > 0 ==> Dot(x, x, |x|) > 0.0)
    ensures Logits(net, y) == Logits(net, x) && Project(net, l, y, pos) == Project(net, l, x, pos)
    ensures LayerAt(net, l).attnSub.Some? ==> AttnResidual(net, l, z, y) == AttnResidual(net, l, z, x)
  {
    hide Dot, RmsNorm, MatVec;
    var w := LayerAt(net, l);
    NormIgnoresSize(net.fns, x, y, net.outNorm, c);
    NormIgnoresSize(net.fns, x, y, w.attnNorm, c);
    if w.attnSub.Some? { NormIgnoresSize(net.fns, x, y, w.attnSub.value, c); }
  }

  // ----- rotary embedding -----

  /** cos and sin of a sum of positions, and of one position. */
  ghost predicate TurnLaw(f: Fns) {
    forall p: int, d: int, i: int :: TurnAt(f, p, d, i)
  }

  ghost predicate TurnAt(f: Fns, p: int, d: int, i: int) {
    && f.cos(p + d, i) == f.cos(p, i) * f.cos(d, i) - f.sin(p, i) * f.sin(d, i)
    && f.sin(p + d, i) == f.sin(p, i) * f.cos(d, i) + f.cos(p, i) * f.sin(d, i)
    && f.cos(d, i) * f.cos(d, i) + f.sin(d, i) * f.sin(d, i) == 1.0
  }

  /** The scalar product of two pairs does not change when both turn by the same angle. */
  lemma PairKept(a: real, b: real, x: real, y: real, c: real, s: real)
    requires c * c + s * s == 1.0
    ensures (a * c - b * s) * (x * c - y * s) + (a * s + b * c) * (x * s + y * c) == a * x + b * y
  {
    var k := c * c;
    var l := s * s;
    var m := c * s;
    assert (a * c - b * s) * (x * c - y * s) == (a * x) * k - (a * y) * m - (b * x) * m + (b * y) * l;
    assert (a * s + b * c) * (x * s + y * c) == (a * x) * l + (a * y) * m + (b * x) * m + (b * y) * k;
    assert (a * x) * k + (a * x) * l == (a * x) * (k + l) && (b * y) * l + (b * y) * k == (b * y) * (k + l);
  }

  /** Turning by p + d is turning by p, then by d. */
  lemma TurnsAdd(a: real, b: real, cp: real, sp: real, cd: real, sd: real)
    ensures a * (cp * cd - sp * sd) - b * (sp * cd + cp * sd) == (a * cp - b * sp) * cd - (a * sp + b * cp) * sd
    ensures a * (sp * cd + cp * sd) + b * (cp * cd - sp * sd) == (a * cp - b * sp) * sd + (a * sp + b * cp) * cd
  {
    assert a * (cp * cd) == (a * cp) * cd && a * (sp * sd) == (a * sp) * sd;
    assert b * (sp * cd) == (b * sp) * cd && b * (cp * sd) == (b * cp) * sd;
    assert a * (sp * cd) == (a * sp) * cd && a * (cp * sd) == (a * cp) * sd;
    assert b * (cp * cd) == (b * cp) * cd && b * (sp * sd) == (b * sp) * sd;
  }

  lemma {:induction false} DotSplits(x: Row, xo: int, y: Row, yo: int, m: nat, n: nat)
    ensures DotAt(x, xo, y, yo, m + n) == DotAt(x, xo, y, yo, m) + DotAt(x, xo + m, y, yo + m, n)
  {
    if n > 0 { DotSplits(x, xo, y, yo, m, n - 1); }
  }

  /** Entry o of a head and its partner after turning, in terms of the row before. */
  ghost predicate Turned(f: Fns, was: Row, now: Row, base: nat, half: nat, pos: int) {
    forall o: nat :: o < half ==> TurnedAt(f, was, now, base, half, pos, o)
  }

  ghost predicate TurnedAt(f: Fns, was: Row, now: Row, base: nat, half: nat, pos: int, o: nat) {
    && At(now, base + o)
       == At(was, base + o) * f.cos(pos, 2 * o) - At(was, base + o + half) * f.sin(pos, 2 * o)
    && At(now, base + o + half)
       == At(was, base + o) * f.sin(pos, 2 * o) + At(was, base + o + half) * f.cos(pos, 2 * o)
  }

  /** A later pair at the same distance: the halves of two heads, pair yo pair. */
  lemma {:induction false} HalvesKept(f: Fns, x: Row, xo: nat, y: Row, yo: nat, x1: Row, y1: Row, x2: Row, y2: Row,
                                      half: nat, p: int, q: int, d: int, n: nat)
    requires TurnLaw(f) && n <= half && Turned(f, x, x1, xo, half, p) && Turned(f, y, y1, yo, half, q)
    requires Turned(f, x, x2, xo, half, p + d) && Turned(f, y, y2, yo, half, q + d)
    ensures DotAt(x2, xo, y2, yo, n) + DotAt(x2, xo + half, y2, yo + half, n)
         == DotAt(x1, xo, y1, yo, n) + DotAt(x1, xo + half, y1, yo + half, n)
  {
    if n > 0 {
      hide TurnLaw, Turned, TurnedAt;
      HalvesKept(f, x, xo, y, yo, x1, y1, x2, y2, half, p, q, d, n - 1);
      OnePair(f, x, xo, y, yo, x1, y1, x2, y2, half, p, q, d, n - 1);
    }
  }

  lemma OnePair(f: Fns, x: Row, xo: nat, y: Row, yo: nat, x1: Row, y1: Row, x2: Row, y2: Row, half: nat, p: int,
                q: int, d: int, o: nat)
    requires TurnLaw(f) && o < half && Turned(f, x, x1, xo, half, p) && Turned(f, y, y1, yo, half, q)
    requires Turned(f, x, x2, xo, half, p + d) && Turned(f, y, y2, yo, half, q + d)
    ensures At(x2, xo + o) * At(y2, yo + o) + At(x2, xo + half + o) * At(y2, yo + half + o)
         == At(x1, xo + o) * At(y1, yo + o) + At(x1, xo + half + o) * At(y1, yo + half + o)
  {
    TurnedTwice(f, x, x1, x2, xo, half, p, d, o);
    TurnedTwice(f, y, y1, y2, yo, half, q, d, o);
    assert TurnAt(f, p, d, 2 * o);
    hide TurnLaw, Turned, At;
    assert xo + half + o == xo + o + half && yo + half + o == yo + o + half;
    PairKept(At(x1, xo + o), At(x1, xo + o + half), At(y1, yo + o), At(y1, yo + o + half),
             f.cos(d, 2 * o), f.sin(d, 2 * o));
  }

  lemma TurnedTwice(f: Fns, x: Row, x1: Row, x2: Row, base: nat, half: nat, p: int, d: int, o: nat)
    requires TurnLaw(f) && o < half && Turned(f, x, x1, base, half, p) && Turned(f, x, x2, base, half, p + d)
    ensures TurnedAt(f, x1, x2, base, half, d, o)
  {
    assert TurnAt(f, p, d, 2 * o) && TurnedAt(f, x, x1, base, half, p, o) && TurnedAt(f, x, x2, base, half, p + d, o);
    TurnsAdd(At(x, base + o), At(x, base + o + half), f.cos(p, 2 * o), f.sin(p, 2 * o), f.cos(d, 2 * o),
             f.sin(d, 2 * o));
  }

  /** The rotation of all heads turns every pair of head h by the position. */
  lemma {:induction false} HeadTurned(f: Fns, x: Row, hd: nat, pos: int, heads: nat, h: nat)
    requires hd % 2 == 0 && h < heads && heads * hd <= |x|
    ensures 0 <= h * hd && Turned(f, x, RopeHeads(f, x, hd, pos, heads), h * hd, hd / 2, pos)
  {
    hide RopeHeads, TurnedAt;
    RowBounds(h, hd, heads);
    var now, base, half := RopeHeads(f, x, hd, pos, heads), h * hd, hd / 2;
    forall o: nat | o < half ensures TurnedAt(f, x, now, base, half, pos, o) {
      EntryTurned(f, x, hd, pos, heads, h, o);
    }
  }

  lemma {:induction false} EntryTurned(f: Fns, x: Row, hd: nat, pos: int, heads: nat, h: nat, o: nat)
    requires hd % 2 == 0 && h < heads && heads * hd <= |x| && o < hd / 2 && 0 <= h * hd
    ensures TurnedAt(f, x, RopeHeads(f, x, hd, pos, heads), h * hd, hd / 2, pos, o)
  {
    hide RopeHeads;
    HeadsAt(f, x, hd, pos, heads, h, o);
    HeadsAt(f, x, hd, pos, heads, h, o + hd / 2);
  }

  /** Entry o of head h after the first n heads have been rotated. */
  lemma {:induction false} HeadsAt(f: Fns, x: Row, hd: nat, pos: int, n: nat, h: nat, o: nat)
    requires hd % 2 == 0 && o < hd && n * hd <= |x|
    ensures At(RopeHeads(f, x, hd, pos, n), h * hd + o)
         == if h < n then Rotated(f, x, h * hd, hd / 2, pos, o) else At(x, h * hd + o)
    decreases n, 0
  {
    hide RopeHead, Rotated;
    if n > 0 {
      var r := RopeHeads(f, x, hd, pos, n - 1);
      var base := (n - 1) * hd;
      RowBounds(n - 1, hd, n);
      HeadsAt(f, x, hd, pos, n - 1, h, o);
      RopeHeadIsParallel(f, r, base, hd, pos, hd / 2, h * hd + o);
      if h == n - 1 {
        SameHeadRotated(f, x, hd, pos, n - 1, o);
      } else if h < n - 1 {
        RowsApart(h, n - 1, hd);
      } else {
        RowsApart(n - 1, h, hd);
      }
    }
  }

  /** The heads before do not disturb this one. */
  lemma {:induction false} SameHeadRotated(f: Fns, x: Row, hd: nat, pos: int, h: nat, o: nat)
    requires hd % 2 == 0 && o < hd && h * hd <= |x|
    ensures 0 <= h * hd
      && Rotated(f, RopeHeads(f, x, hd, pos, h), h * hd, hd / 2, pos, o) == Rotated(f, x, h * hd, hd / 2, pos, o)
    decreases h, 1
  {
    hide RopeHeads;
    var p := if o < hd / 2 then o else o - hd / 2;
    HeadsAt(f, x, hd, pos, h, h, p);
    HeadsAt(f, x, hd, pos, h, h, p + hd / 2);
  }

  /** A score depends on the positions of query and key through their difference only. */
  lemma {:induction false} ScoreIsRelative(net: Net, q: Row, k: Row, v: Row, h: nat, m: int, n: int, d: int)
    requires TurnLaw(net.fns) && Heads(net.cfg) && net.cfg.headDim % 2 == 0 && h < net.cfg.nHeads
    requires |q| == net.cfg.nHeads * net.cfg.headDim && |k| == net.cfg.nKv * net.cfg.headDim
    ensures var f, c := net.fns, net.cfg;
      Score(net, RopeHeads(f, q, c.headDim, m + d, c.nHeads), KV(RopeHeads(f, k, c.headDim, n + d, c.nKv), v), h)
      == Score(net, RopeHeads(f, q, c.headDim, m, c.nHeads), KV(RopeHeads(f, k, c.headDim, n, c.nKv), v), h)
  {
    hide TurnLaw, Turned, RopeHeads, Heads, DotAt;
    var f, c, half := net.fns, net.cfg, net.cfg.headDim / 2;
    KvHead(c, h);
    var g := h / Group(c);
    HeadTurned(f, q, c.headDim, m, c.nHeads, h);
    HeadTurned(f, q, c.headDim, m + d, c.nHeads, h);
    HeadTurned(f, k, c.headDim, n, c.nKv, g);
    HeadTurned(f, k, c.headDim, n + d, c.nKv, g);
    var q1, q2 := RopeHeads(f, q, c.headDim, m, c.nHeads), RopeHeads(f, q, c.headDim, m + d, c.nHeads);
    var k1, k2 := RopeHeads(f, k, c.headDim, n, c.nKv), RopeHeads(f, k, c.headDim, n + d, c.nKv);
    HalvesKept(f, q, h * c.headDim, k, g * c.headDim, q1, k1, q2, k2, half, m, n, d, half);
    DotSplits(q1, h * c.headDim, k1, g * c.headDim, half, half);
    DotSplits(q2, h * c.headDim, k2, g * c.headDim, half, half);
  }

  // ----- projections -----

  function Unit(n: nat, k: nat): (r: Row)
    ensures |r| == n
  {
    seq(n, i => if i == k then 1.0 else 0.0)
  }

  lemma {:induction false} DotUnit(m: nat, k: nat, w: Row, n: nat)
    requires n <= m
    ensures Dot(Unit(m, k), w, n) == if k < n then At(w, k) else 0.0
  {
    if n > 0 { DotUnit(m, k, w, n - 1); }
  }

  lemma {:induction false} DotCombines(x: Row, y: Row, z: Row, a: real, w: Row, n: nat)
    requires |z| == |x| && n <= |x| && forall i :: 0 <= i < |x| ==> At(z, i) == At(x, i) + a * At(y, i)
    ensures Dot(z, w, n) == Dot(x, w, n) + a * Dot(y, w, n)
  {
    if n > 0 {
      DotCombines(x, y, z, a, w, n - 1);
      Spread(At(x, n - 1), At(y, n - 1), a, At(w, n - 1), Dot(y, w, n - 1));
    }
  }

  lemma Spread(x: real, y: real, a: real, w: real, d: real)
    ensures (x + a * y) * w == x * w + a * (y * w) && a * (d + y * w) == a * d + a * (y * w)
  {
    assert (a * y) * w == a * (y * w);
  }

  /** A projection is the linear map whose k-th column is entry k of every weight row. */
  lemma ProjectionIsLinear(x: Row, y: Row, z: Row, a: real, w: Mat, k: nat, j: nat)
    requires |y| == |x| == |z| && forall i :: 0 <= i < |x| ==> At(z, i) == At(x, i) + a * At(y, i)
    requires j < |w| && k < |x|
    ensures MatVec(z, w)[j] == MatVec(x, w)[j] + a * MatVec(y, w)[j]
    ensures MatVec(Unit(|x|, k), w)[j] == At(w[j], k)
  {
    hide Dot;
    DotCombines(x, y, z, a, w[j], |x|);
    DotUnit(|x|, k, w[j], |x|);
  }

  // ----- the gate -----

  /** The activation is zero up to zero and quadratic from there. */
  lemma ActivationIsQuadratic(x: Row, y: Row, c: real, i: nat)
    requires i < |x| == |y| && c > 0.0 && y[i] == c * x[i]
    ensures Relu2(y)[i] == (c * c) * Relu2(x)[i] && (Relu2(x)[i] == 0.0 <==> x[i] <= 0.0)
    ensures x[i] == 1.0 ==> Relu2(x)[i] == 1.0
  {
    var v := x[i];
    if v > 0.0 {
      Positive(c, v);
      Positive(v, v);
      assert (c * v) * (c * v) == (c * c) * (v * v);
    } else {
      assert c * v <= 0.0;
    }
  }

  /** Where no gate entry is positive the feed-forward half passes its input on. */
  lemma ClosedGate(net: Net, l: nat, x: Row)
    requires var w := LayerAt(net, l);
      forall n :: 0 <= n < |w.wGate| ==> MatVec(RmsNorm(net.fns, x, w.ffnNorm, net.cfg.eps), w.wGate)[n] <= 0.0
    ensures Ffn(net, l, x) == x
  {
    hide MatVec, RmsNorm;
    var w := LayerAt(net, l);
    var a := RmsNorm(net.fns, x, w.ffnNorm, net.cfg.eps);
    var mid := Mul(Relu2(MatVec(a, w.wGate)), MatVec(a, w.wUp));
    assert forall i :: 0 <= i < |mid| ==> mid[i] == 0.0;
    SubNormOfZero(net, w.ffnSub, mid);
    ZeroInput(x, SubNorm(net, w.ffnSub, mid), w.wDown);
  }

  lemma SubNormOfZero(net: Net, g: Option<Row>, x: Row)
    requires forall i :: 0 <= i < |x| ==> x[i] == 0.0
    ensures forall i :: 0 <= i < |x| ==> SubNorm(net, g, x)[i] == 0.0
  {
    hide InvRms;
  }

  lemma {:induction false} ZeroTimes(x: Row, y: Row, n: nat)
    requires forall i :: At(x, i) == 0.0
    ensures Dot(x, y, n) == 0.0
  {
    if n > 0 { ZeroTimes(x, y, n - 1); }
  }

  lemma ZeroInput(x: Row, a: Row, m: Mat)
    requires forall i :: 0 <= i < |a| ==> a[i] == 0.0
    ensures Add(x, MatVec(a, m)) == x
  {
    hide Dot;
    forall n | 0 <= n < |m| ensures MatVec(a, m)[n] == 0.0 { ZeroTimes(a, m[n], |a|); }
  }

  // ----- the residual stream -----

  ghost predicate NoWeight(m: Mat) { forall n, j :: 0 <= n < |m| ==> At(m[n], j) == 0.0 }

  lemma {:induction false} ZeroDot(x: Row, y: Row, n: nat)
    requires forall j :: At(y, j) == 0.0
    ensures Dot(x, y, n) == 0.0
  {
    if n > 0 { ZeroDot(x, y, n - 1); }
  }

  lemma AddsNothing(x: Row, a: Row, m: Mat)
    requires NoWeight(m)
    ensures Add(x, MatVec(a, m)) == x
  {
    hide Dot;
    forall n | 0 <= n < |m| ensures MatVec(a, m)[n] == 0.0 { ZeroDot(a, m[n], |a|); }
  }

  /** Both halves of a layer add to their input: with zero output matrices the layer is the identity. */
  lemma LayerAddsToInput(net: Net, l: nat, x: Row, attn: Row)
    requires NoWeight(LayerAt(net, l).wo) && NoWeight(LayerAt(net, l).wDown)
    ensures AttnResidual(net, l, x, attn) == x && Ffn(net, l, x) == x && Finish(net, l, x, attn) == x
  {
    hide MatVec, RmsNorm;
    var w := LayerAt(net, l);
    AddsNothing(x, SubNorm(net, w.attnSub, attn), w.wo);
    var a := RmsNorm(net.fns, x, w.ffnNorm, net.cfg.eps);
    AddsNothing(x, SubNorm(net, w.ffnSub, Mul(Relu2(MatVec(a, w.wGate)), MatVec(a, w.wUp))), w.wDown);
  }
}
