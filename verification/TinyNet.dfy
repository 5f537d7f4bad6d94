/** Small networks. */
module TinyNet {
  // One layer, small enough to follow by hand, for any exp, 1/sqrt, cos and sin that obey their laws. It shows exactly
  // when CPU decoding and the prompt mode must agree.

  import opened Prelude
  import opened Rows
  import opened Chain
  import opened Causal
  import opened Decode
  import opened Mixed
  import N = Net
  import S = Sampler
  import GpuModel

  /** The laws of the fixed functions of the code that the results below use. */
  ghost predicate Laws(f: Fns) { ExpLaw(f) && ExpGrows(f) && RootLaw(f) }

  // ----- the arguments of generate -----

  /** `repetition_penalty` is not set by `generate` and keeps its default. */
  const PENALTY: real := 1.1

  /** What a caller passes to `generate`, and the draws of its sampler. */
  datatype Call = Call(prompt: seq<int>, maxNew: int, temperature: real, topP: real, topK: int, eos: int,
                       draws: int -> real)

  /** The draws come from the half-open unit interval. */
  ghost predicate ValidCall(q: Call) {
    forall i: int :: 0.0 <= q.draws(i) < 1.0
  }

  function Settings(q: Call): S.Config { S.Config(q.temperature, q.topP, q.topK, PENALTY) }

  /** `sample_token` on the logits, with all tokens so far. */
  function Drawn(f: Fns, q: Call, logits: Row, toks: seq<int>, i: int): int {
    if |logits| == 0 then 0 else S.Sample(f, logits, Settings(q), toks, q.draws(i))
  }

  function RequestOf(f: Fns, q: Call): Request {
    Plain(q.prompt, q.maxNew, q.eos, (logits, toks, i) => Drawn(f, q, logits, toks, i))
  }

  /** The end token `generate` assumes by default. */
  const EOS: int := 128001

  /** Top-1 sampling, which is greedy. */
  function Greedy(prompt: seq<int>, maxNew: int): Call {
    Call(prompt, maxNew, 1.0, 1.0, 1, EOS, i => 0.5)
  }

  function Penalty(v: real, seen: bool): real { if seen then v / PENALTY else v }

  /** With two logits the greater one after the penalty is sampled. */
  lemma GreedyTakes(f: Fns, prompt: seq<int>, maxNew: int, logits: Row, toks: seq<int>, i: int, t: nat)
    requires Laws(f) && |logits| == 2 && t < 2
    requires Penalty(logits[t], t in toks) > Penalty(logits[1 - t], 1 - t in toks)
    ensures RequestOf(f, Greedy(prompt, maxNew)).sample(logits, toks, i) == t
  {
    hide S.Sample;
    var cfg := Settings(Greedy(prompt, maxNew));
    assert S.Adjusted(logits, cfg, toks)[t] == Penalty(logits[t], t in toks);
    assert S.Adjusted(logits, cfg, toks)[1 - t] == Penalty(logits[1 - t], 1 - t in toks);
    S.TopOneIsGreedy(f, logits, cfg, toks, 0.5, t);
  }

  // ----- the networks -----

  /** A hidden row of which the first two entries are used. */
  function Duo(a: real, b: real): Row { [a, b, 0.0, 0.0] }

  /** Hidden size 4, one head of dimension 4 with zero queries, no feed-forward contribution. A value row is the second
      hidden entry; attention adds beta times the mean of the value rows to that entry. Token 0 is embedded as 1, 0,
      token 1 as k, 1. */
  function Tiny(f: Fns, k: real, beta: real): N.Net {
    var zero: Row := [0.0, 0.0, 0.0, 0.0];
    var none: Mat := [zero, zero, zero, zero];
    var ones: Row := [1.0, 1.0, 1.0, 1.0];
    N.Net(N.Config(4, 4, 1, 1, 4, 2, 0.0, f.invSqrt(4.0)), f,
          [N.Layer(ones, none, none, [[0.0, 1.0, 0.0, 0.0], zero, zero, zero], None,
                   [zero, [beta, 0.0, 0.0, 0.0], zero, zero], ones, none, none, None, none)],
          [Duo(1.0, 0.0), Duo(k, 1.0)], ones)
  }

  function Model(f: Fns, k: real, beta: real): Decoder { N.Of(Tiny(f, k, beta)) }

  /** A network that can be loaded and offloaded, with the functions of the code. The loader derives the head dimension
      from the hidden size, the vocabulary from the embedding, and attention scales by 1/sqrt of the head dimension. */
  ghost predicate Proper(f: Fns, net: N.Net) {
    && GpuModel.DeviceShaped(net) && net.fns == f
    && net.cfg.nHeads > 0 && net.cfg.headDim == net.cfg.hidden / net.cfg.nHeads
    && net.cfg.scale == f.invSqrt(net.cfg.headDim as real) && net.cfg.vocab == |net.embed|
  }

  lemma TinyIsProper(f: Fns, k: real, beta: real)
    ensures Proper(f, Tiny(f, k, beta)) && Model(f, k, beta).nLayers == 1
  {
  }

  // ----- their arithmetic -----

  lemma TwoDot(x: Row, y: Row)
    requires |x| == |y| == 4 && x[2] == x[3] == 0.0
    ensures Dot(x, y, 4) == x[0] * y[0] + x[1] * y[1]
  {
    assert DotAt(x, 0, y, 0, 0) == 0.0;
    assert DotAt(x, 0, y, 0, 1) == x[0] * y[0];
    assert DotAt(x, 0, y, 0, 2) == x[0] * y[0] + x[1] * y[1];
    assert DotAt(x, 0, y, 0, 3) == x[0] * y[0] + x[1] * y[1];
  }

  /** The factor of the norm is positive on a row that is not zero. */
  function Factor(f: Fns, a: real, b: real): real { f.invSqrt((a * a + b * b) / 4.0) }

  lemma FactorPositive(f: Fns, a: real, b: real)
    requires RootLaw(f) && (a != 0.0 || b != 0.0)
    ensures Factor(f, a, b) > 0.0
  {
    Squares(a);
    Squares(b);
    assert (a * a + b * b) / 4.0 > 0.0;
  }

  lemma Squares(a: real)
    ensures a * a >= 0.0 && (a != 0.0 ==> a * a > 0.0)
  {
  }

  lemma NormTwo(f: Fns, a: real, b: real, ra: real, rb: real)
    requires ra == a * Factor(f, a, b) && rb == b * Factor(f, a, b)
    ensures RmsNorm(f, Duo(a, b), [1.0, 1.0, 1.0, 1.0], 0.0) == Duo(ra, rb)
  {
    var x := Duo(a, b);
    TwoDot(x, x);
    var v := Dot(x, x, 4) / 4.0 + 0.0;
    assert v == (a * a + b * b) / 4.0;
    assert InvRms(f, x, 0.0) == Factor(f, a, b);
    hide InvRms, Factor;
    var inv := InvRms(f, x, 0.0);
    var w: Row := [1.0, 1.0, 1.0, 1.0];
    var n := RmsNorm(f, x, w, 0.0);
    assert n[0] == At(x, 0) * inv * At(w, 0) == ra;
    assert n[1] == At(x, 1) * inv * At(w, 1) == rb;
    assert n[2] == 0.0 * inv * 1.0 == 0.0 && n[3] == 0.0 * inv * 1.0 == 0.0;
  }

  lemma NoProduct(x: Row, m: Mat, n: nat)
    requires n < |m| && forall j :: 0 <= j < |m[n]| ==> m[n][j] == 0.0
    ensures MatVec(x, m)[n] == 0.0
  {
    DotZero(x, m[n], |x|);
  }

  /** The value row of a hidden row. */
  lemma ValueOf(f: Fns, k: real, beta: real, a: real, b: real, pos: nat)
    ensures At(N.Project(Tiny(f, k, beta), 0, Duo(a, b), pos).kv.v, 0) == b * Factor(f, a, b)
  {
    var ra, rb := a * Factor(f, a, b), b * Factor(f, a, b);
    NormTwo(f, a, b, ra, rb);
    TwoDot(Duo(ra, rb), [0.0, 1.0, 0.0, 0.0]);
  }

  ghost predicate AllZero(x: Row) { forall j :: 0 <= j < |x| ==> x[j] == 0.0 }

  lemma {:induction false} RopeKeepsZero(f: Fns, x: Row, base: int, hd: nat, pos: int, n: nat)
    requires AllZero(x)
    ensures AllZero(RopeHead(f, x, base, hd, pos, n))
  {
    if n > 0 { RopeKeepsZero(f, x, base, hd, pos, n - 1); }
  }

  lemma ZeroQuery(f: Fns, k: real, beta: real, a: real, b: real, pos: nat)
    ensures AllZero(N.Project(Tiny(f, k, beta), 0, Duo(a, b), pos).q)
  {
    hide RmsNorm, RopeHead, MatVec;
    var net := Tiny(f, k, beta);
    var x := RmsNorm(f, Duo(a, b), [1.0, 1.0, 1.0, 1.0], 0.0);
    var wq := net.layers[0].wq;
    forall n | 0 <= n < 4 ensures MatVec(x, wq)[n] == 0.0 { NoProduct(x, wq, n); }
    RopeKeepsZero(f, MatVec(x, wq), 0, 4, pos, 2);
    assert RopeHeads(f, MatVec(x, wq), 4, pos, 0) == MatVec(x, wq);
    assert RopeHeads(f, MatVec(x, wq), 4, pos, 1) == RopeHead(f, MatVec(x, wq), 0, 4, pos, 2);
  }

  lemma {:induction false} ZeroDot(q: Row, qo: int, y: Row, yo: int, n: nat)
    requires AllZero(q)
    ensures DotAt(q, qo, y, yo, n) == 0.0
  {
    if n > 0 { ZeroDot(q, qo, y, yo, n - 1); }
  }

  lemma {:induction false} SameExpSum(f: Fns, s: Row, m: real, n: nat)
    requires AllZero(s) && n <= |s|
    ensures ExpSum(f, s, m, n) == f.exp(0.0 - m) * n as real
  {
    if n > 0 { SameExpSum(f, s, m, n - 1); }
  }

  /** Equal scores share the weight equally. */
  lemma EqualWeights(f: Fns, s: Row)
    requires ExpLaw(f) && AllZero(s) && |s| > 0
    ensures forall t :: 0 <= t < |s| ==> Softmax(f, s)[t] == Inverse(|s| as real)
  {
    hide MaxFrom;
    var m := MaxFrom(FLOOR, s, |s|);
    SameExpSum(f, s, m, |s|);
    ExpShift(f, 0.0, m, m);
    CancelScale(f.exp(0.0 - m), 1.0, |s| as real);
  }

  /** The value rows are one entry each: `v` up to row a, `u` from there on. */
  ghost predicate Values(kvs: seq<KV>, a: nat, v: real, u: real) {
    forall t :: 0 <= t < |kvs| ==> At(kvs[t].v, 0) == if t < a then v else u
  }

  lemma {:induction false} MixTwo(w: Row, kvs: seq<KV>, share: real, a: nat, u: real, n: nat)
    requires n <= |kvs| == |w| && Values(kvs, a, 0.0, u)
    requires forall t :: 0 <= t < |w| ==> w[t] == share
    ensures N.Mix(w, kvs, 0, n) == (if n <= a then 0.0 else (n - a) as real * u) * share
  {
    if n > 0 {
      MixTwo(w, kvs, share, a, u, n - 1);
      if n - 1 >= a { Collect((n - 1 - a) as real * u, u, share); }
    }
  }

  lemma Collect(x: real, y: real, share: real)
    ensures x * share + share * y == (x + y) * share
  {
  }

  /** The mean of n rows of which the last n - a hold u and the others nothing. */
  function Mean(n: nat, a: nat, u: real): real
    requires 0 < n && a <= n
  {
    (n - a) as real * u * Inverse(n as real)
  }

  lemma MeanPositive(n: nat, a: nat, u: real)
    requires a < n
    ensures u > 0.0 ==> Mean(n, a, u) > 0.0
    ensures u == 0.0 ==> Mean(n, a, u) == 0.0
  {
    if u > 0.0 {
      S.ProductPositive((n - a) as real, u);
      S.TimesInverse(n as real);
      S.ProductPositive((n - a) as real * u, Inverse(n as real));
    }
  }

  lemma FirstOfHead(net: N.Net, q: Row, kvs: seq<KV>, w: Row)
    requires net.cfg.nHeads == 1 && net.cfg.headDim == 4 && w == Softmax(net.fns, N.Scores(net, q, kvs, 0))
    ensures |N.Attend(net, q, kvs)| == 4 && N.Attend(net, q, kvs)[0] == N.Mix(w, kvs, 0, |kvs|)
  {
    hide Softmax, N.Mix, N.Scores;
    assert N.HeadOut(net, q, kvs, 0, 0) == N.Mix(w, kvs, 0, |kvs|);
  }

  lemma ZeroScores(f: Fns, k: real, beta: real, q: Row, kvs: seq<KV>)
    requires AllZero(q)
    ensures AllZero(N.Scores(Tiny(f, k, beta), q, kvs, 0))
  {
    forall t | 0 <= t < |kvs| ensures N.Scores(Tiny(f, k, beta), q, kvs, 0)[t] == 0.0 { ZeroDot(q, 0, kvs[t].k, 0, 4); }
  }

  /** Attention with a zero query is the mean of the value rows. */
  lemma AttendMean(f: Fns, k: real, beta: real, q: Row, kvs: seq<KV>, a: nat, u: real)
    requires ExpLaw(f) && AllZero(q) && 0 < |kvs| && a <= |kvs| && Values(kvs, a, 0.0, u)
    ensures var out := N.Attend(Tiny(f, k, beta), q, kvs); |out| == 4 && out[0] == Mean(|kvs|, a, u)
  {
    hide Softmax, N.Mix, Inverse, N.Attend, N.Scores, Tiny;
    var net := Tiny(f, k, beta);
    var s := N.Scores(net, q, kvs, 0);
    ZeroScores(f, k, beta, q, kvs);
    EqualWeights(f, s);
    MixTwo(Softmax(f, s), kvs, Inverse(|kvs| as real), a, u, |kvs|);
    assert |kvs| <= a ==> (|kvs| - a) as real * u == 0.0;
    assert net.cfg.nHeads == 1 && net.cfg.headDim == 4 && net.fns == f by { TinyConfig(f, k, beta); }
    FirstOfHead(net, q, kvs, Softmax(f, s));
  }

  lemma TinyConfig(f: Fns, k: real, beta: real)
    ensures Tiny(f, k, beta).cfg == N.Config(4, 4, 1, 1, 4, 2, 0.0, f.invSqrt(4.0)) && Tiny(f, k, beta).fns == f
  {
  }

  lemma NoFfn(f: Fns, k: real, beta: real, x: Row)
    requires |x| == 4
    ensures N.Ffn(Tiny(f, k, beta), 0, x) == x
  {
    hide RmsNorm, MatVec;
    var net := Tiny(f, k, beta);
    var w := net.layers[0];
    var r := RmsNorm(f, x, w.ffnNorm, 0.0);
    var mid := Mul(Relu2(MatVec(r, w.wGate)), MatVec(r, w.wUp));
    NoProduct(mid, w.wDown, 0);
    NoProduct(mid, w.wDown, 1);
    NoProduct(mid, w.wDown, 2);
    NoProduct(mid, w.wDown, 3);
    assert Add(x, MatVec(mid, w.wDown)) == x;
  }

  lemma FirstOfFour(x: Row, w: real)
    requires |x| == 4
    ensures Dot(x, [w, 0.0, 0.0, 0.0], 4) == x[0] * w
  {
    var y: Row := [w, 0.0, 0.0, 0.0];
    assert DotAt(x, 0, y, 0, 0) == 0.0;
    assert DotAt(x, 0, y, 0, 1) == x[0] * w;
    assert DotAt(x, 0, y, 0, 2) == x[0] * w;
    assert DotAt(x, 0, y, 0, 3) == x[0] * w;
  }

  /** What attention found goes into the second hidden entry. */
  lemma FinishTwo(f: Fns, k: real, beta: real, a: real, b: real, attn: Row, r: real)
    requires |attn| == 4 && r == b + attn[0] * beta
    ensures N.Finish(Tiny(f, k, beta), 0, Duo(a, b), attn) == Duo(a, r)
  {
    hide MatVec, N.Ffn;
    var net := Tiny(f, k, beta);
    var wo := net.layers[0].wo;
    NoProduct(attn, wo, 0);
    NoProduct(attn, wo, 2);
    NoProduct(attn, wo, 3);
    ThroughWo(attn, wo, beta);
    assert Add(Duo(a, b), MatVec(attn, wo)) == Duo(a, r);
    assert N.LayerAt(net, 0) == net.layers[0] && N.SubNorm(net, None, attn) == attn;
    NoFfn(f, k, beta, Duo(a, r));
  }

  lemma ThroughWo(attn: Row, wo: Mat, beta: real)
    requires |attn| == 4 && |wo| == 4 && wo[1] == [beta, 0.0, 0.0, 0.0]
    ensures MatVec(attn, wo)[1] == attn[0] * beta
  {
    FirstOfFour(attn, beta);
  }

  lemma LogitsTwo(f: Fns, k: real, beta: real, a: real, b: real)
    ensures var y := N.Logits(Tiny(f, k, beta), Duo(a, b));
      |y| == 2 && y[0] == a * Factor(f, a, b) && y[1] == (a * k + b) * Factor(f, a, b)
  {
    hide RmsNorm;
    var net, c := Tiny(f, k, beta), Factor(f, a, b);
    var ra, rb := a * c, b * c;
    NormTwo(f, a, b, ra, rb);
    TwoDot(Duo(ra, rb), net.embed[0]);
    TwoDot(Duo(ra, rb), net.embed[1]);
    Regroup(a, b, k, c);
  }

  lemma Regroup(a: real, b: real, k: real, c: real)
    ensures (a * c) * k + b * c == (a * k + b) * c
  {
  }

  /** The last layer's output of a position that attends to `kvs`. */
  lemma StepTwo(f: Fns, k: real, beta: real, x: real, y: real, pos: nat, kvs: seq<KV>, a: nat, u: real,
                r: real)
    requires ExpLaw(f) && 0 < |kvs| && a <= |kvs| && Values(kvs, a, 0.0, u) && r == y + Mean(|kvs|, a, u) * beta
    ensures var c := Model(f, k, beta);
      c.finish(0, Duo(x, y), c.attend(c.project(0, Duo(x, y), pos).q, kvs)) == Duo(x, r)
  {
    hide N.Attend, N.Finish, N.Project, Mean;
    ZeroQuery(f, k, beta, x, y, pos);
    var q := N.Project(Tiny(f, k, beta), 0, Duo(x, y), pos).q;
    AttendMean(f, k, beta, q, kvs, a, u);
    FinishTwo(f, k, beta, x, y, N.Attend(Tiny(f, k, beta), q, kvs), r);
  }

  // ----- the two decoding modes -----

  function Repeat(t: int, n: nat): (r: seq<int>)
    ensures |r| == n
  {
    seq(n, i => t)
  }

  /** The value entry of token 1. */
  function Unit(f: Fns, k: real): real { Factor(f, k, 1.0) }

  lemma RepeatHas(p: nat)
    ensures p > 0 ==> 0 in Repeat(0, p)
    ensures 1 !in Repeat(0, p)
    ensures 0 in Repeat(0, p) + [1] <==> p > 0
  {
    if p > 0 { assert Repeat(0, p)[0] == 0 && (Repeat(0, p) + [1])[0] == 0; }
  }

  /** Row t of the prompt holds no value in either mode. */
  lemma PromptRow(f: Fns, k: real, beta: real, toks: seq<int>, p: nat, t: nat)
    requires t < |toks| && toks[t] == 0
    ensures var c := Model(f, k, beta);
      c.nLayers == 1 && HiddenIn(c, toks, p, 0, t) == HiddenAt(c, toks, 0, t) == Duo(1.0, 0.0)
      && At(c.project(0, Duo(1.0, 0.0), t).kv.v, 0) == 0.0
  {
    hide N.Project;
    ValueOf(f, k, beta, 1.0, 0.0, t);
  }

  /** Behind a prompt of zeros the hidden row is the embedding. */
  lemma ZerosHidden(f: Fns, k: real, beta: real, toks: seq<int>, s: nat)
    requires ExpLaw(f) && s < |toks| && forall t :: 0 <= t <= s ==> toks[t] == 0
    ensures Model(f, k, beta).nLayers == 1 && HiddenAt(Model(f, k, beta), toks, 1, s) == Duo(1.0, 0.0)
  {
    hide N.Project, N.Attend, N.Finish, N.Logits, Mean;
    var c := Model(f, k, beta);
    var rows := KvRows(c, toks, 0, s + 1);
    forall t | 0 <= t <= s ensures At(rows[t].v, 0) == 0.0 { PromptRow(f, k, beta, toks, 0, t); }
    PromptRow(f, k, beta, toks, 0, s);
    MeanPositive(s + 1, 0, 0.0);
    assert Values(rows, 0, 0.0, 0.0);
    StepTwo(f, k, beta, 1.0, 0.0, s, rows, 0, 0.0, 0.0);
  }

  /** Token 1 behind the prompt attends to the prompt only, which adds nothing. */
  lemma MixedProbe(f: Fns, k: real, beta: real, p: nat)
    requires ExpLaw(f) && p > 0
    ensures Model(f, k, beta).nLayers == 1 && HiddenIn(Model(f, k, beta), Repeat(0, p) + [1], p, 1, p) == Duo(k, 1.0)
  {
    hide N.Project, N.Attend, N.Finish, N.Logits, Mean;
    var c, toks := Model(f, k, beta), Repeat(0, p) + [1];
    var rows := RowsIn(c, toks, p, 0, p);
    forall t | 0 <= t < p ensures At(rows[t].v, 0) == 0.0 { PromptRow(f, k, beta, toks, p, t); }
    assert HiddenIn(c, toks, p, 0, p) == Duo(k, 1.0);
    assert Values(rows, 0, 0.0, 0.0);
    MeanPositive(p, 0, 0.0);
    StepTwo(f, k, beta, k, 1.0, p, rows, 0, 0.0, 1.0);
  }

  /** In the prompt mode it also attends to itself. */
  lemma CausalProbe(f: Fns, k: real, beta: real, p: nat, r: real)
    requires ExpLaw(f) && p > 0 && r == 1.0 + Mean(p + 1, p, Unit(f, k)) * beta
    ensures Model(f, k, beta).nLayers == 1 && HiddenAt(Model(f, k, beta), Repeat(0, p) + [1], 1, p) == Duo(k, r)
  {
    hide N.Project, N.Attend, N.Finish, N.Logits, Mean;
    var c, toks := Model(f, k, beta), Repeat(0, p) + [1];
    var rows := KvRows(c, toks, 0, p + 1);
    forall t | 0 <= t < p ensures At(rows[t].v, 0) == 0.0 { PromptRow(f, k, beta, toks, 0, t); }
    assert HiddenAt(c, toks, 0, p) == Duo(k, 1.0);
    ValueOf(f, k, beta, k, 1.0, p);
    assert Values(rows, p, 0.0, Unit(f, k));
    StepTwo(f, k, beta, k, 1.0, p, rows, p, Unit(f, k), r);
  }

  /** The strength with which the own row counts, chosen so that it tips the balance. */
  function Tip(f: Fns, p: nat, to: real): real {
    var m := Mean(p + 1, p, Unit(f, 2.0));
    if m == 0.0 then 0.0 else to / m
  }

  lemma TipTips(f: Fns, p: nat, to: real)
    requires RootLaw(f)
    ensures Mean(p + 1, p, Unit(f, 2.0)) * Tip(f, p, to) == to
  {
    FactorPositive(f, 2.0, 1.0);
    MeanPositive(p + 1, p, Unit(f, 2.0));
  }

  /** A positive factor does not change which of two logits is greater, nor does a penalty on both or on the lower
      one. */
  lemma Preferred(x: real, y: real, c: real, seenX: bool, seenY: bool)
    requires c > 0.0 && x > y > 0.0 && (seenX ==> seenY)
    ensures Penalty(x * c, seenX) > Penalty(y * c, seenY)
  {
    S.ScaledAbove(y, x, c);
    S.ProductPositive(y, c);
  }

  /** The network of the probe: after token 0 comes token 1, and after token 1 again token 1 unless its own row is
      seen. */
  function ProbeNet(f: Fns, p: nat): N.Net { Tiny(f, 2.0, Tip(f, p, -4.0)) }

  /** The first sampled token is 1. */
  lemma FirstIsOne(f: Fns, p: nat, m: int)
    requires Laws(f) && p > 0
    ensures var c, toks := N.Of(ProbeNet(f, p)), Repeat(0, p);
      RequestOf(f, Greedy(toks, m)).sample(c.logits(HiddenAt(c, toks, c.nLayers, p - 1)), toks, 0) == 1
  {
    hide N.Logits, Factor, Penalty, Tip, HiddenAt, Drawn;
    var toks := Repeat(0, p);
    RepeatHas(p);
    ZerosHidden(f, 2.0, Tip(f, p, -4.0), toks, p - 1);
    LogitsTwo(f, 2.0, Tip(f, p, -4.0), 1.0, 0.0);
    FactorPositive(f, 1.0, 0.0);
    Preferred(2.0, 1.0, Factor(f, 1.0, 0.0), false, true);
    GreedyTakes(f, toks, m, N.Logits(ProbeNet(f, p), Duo(1.0, 0.0)), toks, 0, 1);
  }

  /** In the decode mode the second one is 1. */
  lemma SecondInDecode(f: Fns, p: nat, m: int)
    requires Laws(f) && p > 0
    ensures var c, toks := N.Of(ProbeNet(f, p)), Repeat(0, p) + [1];
      RequestOf(f, Greedy(Repeat(0, p), m)).sample(Last(c, toks, p), toks, 1) == 1
  {
    hide N.Logits, Factor, Penalty, Tip, HiddenIn, Drawn;
    var toks := Repeat(0, p) + [1];
    RepeatHas(p);
    MixedProbe(f, 2.0, Tip(f, p, -4.0), p);
    LogitsTwo(f, 2.0, Tip(f, p, -4.0), 2.0, 1.0);
    FactorPositive(f, 2.0, 1.0);
    Preferred(5.0, 2.0, Factor(f, 2.0, 1.0), true, true);
    GreedyTakes(f, Repeat(0, p), m, N.Logits(ProbeNet(f, p), Duo(2.0, 1.0)), toks, 1, 1);
  }

  /** In the prompt mode it is 0. */
  lemma SecondInPrompt(f: Fns, p: nat, m: int)
    requires Laws(f) && p > 0
    ensures var c, toks := N.Of(ProbeNet(f, p)), Repeat(0, p) + [1];
      RequestOf(f, Greedy(Repeat(0, p), m)).sample(c.logits(HiddenAt(c, toks, c.nLayers, p)), toks, 1) == 0
  {
    hide N.Logits, Mean, Factor, Penalty, Tip, HiddenAt, Drawn;
    var toks := Repeat(0, p) + [1];
    RepeatHas(p);
    TipTips(f, p, -4.0);
    CausalProbe(f, 2.0, Tip(f, p, -4.0), p, -3.0);
    LogitsTwo(f, 2.0, Tip(f, p, -4.0), 2.0, -3.0);
    FactorPositive(f, 2.0, -3.0);
    Preferred(2.0, 1.0, Factor(f, 2.0, -3.0), true, true);
    GreedyTakes(f, Repeat(0, p), m, N.Logits(ProbeNet(f, p), Duo(2.0, -3.0)), toks, 1, 0);
  }

  lemma {:induction false} LoopsExtend(c: Decoder, r: Request, toks: seq<int>, p: nat, cap: nat, i: int)
    requires |toks| > 0
    ensures toks <= MixedLoop(c, r, toks, p, cap, i) && toks <= IdealLoop(c, r, toks, cap, i)
    decreases r.maxNew - i
  {
    hide Last, HiddenAt;
    if Goes(r, i) {
      LoopsExtend(c, r, toks + [r.sample(Last(c, toks, p), toks, i)], p, cap, i + 1);
      LoopsExtend(c, r, toks + [r.sample(c.logits(HiddenAt(c, toks, c.nLayers, |toks| - 1)), toks, i)], p, cap, i + 1);
    }
  }

  /** One iteration from given logits. */
  lemma OneRound(c: Decoder, r: Request, toks: seq<int>, p: nat, cap: nat, i: int)
    requires |toks| > 0 && Goes(r, i)
    ensures var t := r.sample(Last(c, toks, p), toks, i);
      MixedLoop(c, r, toks, p, cap, i)
      == if r.ends(toks + [t]) || |toks| >= cap then toks + [t] else MixedLoop(c, r, toks + [t], p, cap, i + 1)
    ensures var t := r.sample(c.logits(HiddenAt(c, toks, c.nLayers, |toks| - 1)), toks, i);
      IdealLoop(c, r, toks, cap, i)
      == if r.ends(toks + [t]) || |toks| >= cap then toks + [t] else IdealLoop(c, r, toks + [t], cap, i + 1)
  {
    hide Last, HiddenAt;
  }

  /** After the first token the two runs sample differently. */
  lemma ProbeParts(f: Fns, p: nat, m: int, cap: nat)
    requires Laws(f) && 1 <= p < cap && m >= 2
    ensures var c, r := N.Of(ProbeNet(f, p)), RequestOf(f, Greedy(Repeat(0, p), m));
      MixedLoop(c, r, Repeat(0, p), p, cap, 0) != IdealLoop(c, r, Repeat(0, p), cap, 0)
  {
    hide MixedLoop, IdealLoop, Last, HiddenAt, N.Of, Drawn, Laws;
    var c, r, start := N.Of(ProbeNet(f, p)), RequestOf(f, Greedy(Repeat(0, p), m)), Repeat(0, p);
    var toks := start + [1];
    FirstIsOne(f, p, m);
    LastIsCausal(c, start, p);
    SecondInDecode(f, p, m);
    SecondInPrompt(f, p, m);
    OneRound(c, r, start, p, cap, 0);
    OneRound(c, r, toks, p, cap, 1);
    LoopsExtend(c, r, toks + [1], p, cap, 2);
    LoopsExtend(c, r, toks + [0], p, cap, 2);
    assert MixedLoop(c, r, start, p, cap, 0)[p + 1] == 1;
    assert IdealLoop(c, r, start, cap, 0)[p + 1] == 0;
  }

  /** What one call of `generate` on the CPU path returns is what the prompt mode throughout would give. */
  ghost predicate SameAsPrompt(c: Decoder, r: Request, cache: Cache, cap: nat)
    requires Sized(c, cache, cap) && 1 <= |r.prompt| <= cap
  {
    Generate(c, r, cache, cap).0 == IdealLoop(c, r, r.prompt, cap, 0)
  }

  /** On every network, for every sampling setting and all draws: a prompt of length p decoded for m new tokens. */
  ghost predicate AlwaysIdeal(f: Fns, p: nat, m: int, cap: nat)
    requires 1 <= p <= cap
  {
    forall net: N.Net, q: Call, cache: Cache ::
      Proper(f, net) && ValidCall(q) && |q.prompt| == p && q.maxNew == m && Sized(N.Of(net), cache, cap)
      ==> SameAsPrompt(N.Of(net), RequestOf(f, q), cache, cap)
  }

  /** With at most one new token, or a full context, no decoded token's logits are used; the sampler may be any
      function. */
  lemma ShortRunIsIdeal(c: Decoder, r: Request, cache: Cache, cap: nat)
    requires Sized(c, cache, cap) && 1 <= |r.prompt| <= cap && (r.maxNew <= 1 || |r.prompt| >= cap)
    ensures SameAsPrompt(c, r, cache, cap)
  {
    hide Generate, Last, HiddenAt;
    GenerateIsMixed(c, r, cache, cap);
    LastIsCausal(c, r.prompt, |r.prompt|);
    if Goes(r, 0) {
      OneRound(c, r, r.prompt, |r.prompt|, cap, 0);
    }
  }

  function Blank(n: nat): LayerCache { seq(n, i => KV([], [])) }

  /** The decode mode leaves the token itself out of its attention window. The tokens are those of the prompt mode on
      every network if and only if at most one token is asked for or the prompt fills the context. */
  lemma {:induction false} DecodesAsPromptIff(f: Fns, p: nat, m: int, cap: nat)
    requires Laws(f) && 1 <= p <= cap
    ensures AlwaysIdeal(f, p, m, cap) <==> m <= 1 || p >= cap
  {
    hide Generate, IdealLoop, SameAsPrompt, Drawn, Laws;
    if m <= 1 || p >= cap {
      forall net: N.Net, q: Call, cache: Cache
        | Proper(f, net) && ValidCall(q) && |q.prompt| == p && q.maxNew == m && Sized(N.Of(net), cache, cap)
        ensures SameAsPrompt(N.Of(net), RequestOf(f, q), cache, cap)
      {
        ShortRunIsIdeal(N.Of(net), RequestOf(f, q), cache, cap);
      }
    } else {
      ProbeDiffers(f, p, m, cap);
    }
  }

  lemma ProbeDiffers(f: Fns, p: nat, m: int, cap: nat)
    requires Laws(f) && 1 <= p < cap && m >= 2
    ensures !AlwaysIdeal(f, p, m, cap)
  {
    hide Generate, IdealLoop, MixedLoop, Drawn, Laws;
    var net, q, cache := ProbeNet(f, p), Greedy(Repeat(0, p), m), [Blank(cap)];
    TinyIsProper(f, 2.0, Tip(f, p, -4.0));
    GenerateIsMixed(N.Of(net), RequestOf(f, q), cache, cap);
    ProbeParts(f, p, m, cap);
    assert !SameAsPrompt(N.Of(net), RequestOf(f, q), cache, cap);
  }
}
