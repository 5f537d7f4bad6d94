/** The row arithmetic of one BitNet layer, and the network as an instance of `Chain`; the loops elsewhere are proved
    against these functions. */
module Net {
  import opened Rows
  import opened Chain
  import opened Prelude

  datatype Config = Config(hidden: nat, inter: nat, nHeads: nat, nKv: nat, headDim: nat, vocab: nat,
                           eps: real, scale: real)

  datatype Layer = Layer(attnNorm: Row, wq: Mat, wk: Mat, wv: Mat, attnSub: Option<Row>, wo: Mat,
                         ffnNorm: Row, wGate: Mat, wUp: Mat, ffnSub: Option<Row>, wDown: Mat)

  /** `embed` is tok_embd: column v is the embedding of token v, and also its output weights. */
  datatype Net = Net(cfg: Config, fns: Fns, layers: seq<Layer>, embed: Mat, outNorm: Row)

  // ----- attention -----

  function Group(c: Config): nat {
    if c.nKv == 0 then 1 else if c.nHeads / c.nKv == 0 then 1 else c.nHeads / c.nKv
  }

  function Score(net: Net, q: Row, kv: KV, h: nat): real {
    DotAt(q, h * net.cfg.headDim, kv.k, h / Group(net.cfg) * net.cfg.headDim, net.cfg.headDim) * net.cfg.scale
  }

  function Scores(net: Net, q: Row, kvs: seq<KV>, h: nat): (r: Row)
    ensures |r| == |kvs|
  {
    seq(|kvs|, t requires 0 <= t < |kvs| => Score(net, q, kvs[t], h))
  }

  /** The weighted sum of column j over the first n value rows. */
  function Mix(w: Row, kvs: seq<KV>, j: int, n: nat): real
    requires n <= |kvs|
  {
    if n == 0 then 0.0 else Mix(w, kvs, j, n - 1) + At(w, n - 1) * At(kvs[n - 1].v, j)
  }

  /** Entry d of query head h of the attention output over all rows of kvs. */
  function HeadOut(net: Net, q: Row, kvs: seq<KV>, h: nat, d: nat): real {
    Mix(Softmax(net.fns, Scores(net, q, kvs, h)), kvs, h / Group(net.cfg) * net.cfg.headDim + d, |kvs|)
  }

  function Attend(net: Net, q: Row, kvs: seq<KV>): (r: Row)
    ensures |r| == net.cfg.nHeads * net.cfg.headDim
  {
    seq(net.cfg.nHeads * net.cfg.headDim, j requires 0 <= j < net.cfg.nHeads * net.cfg.headDim =>
      if net.cfg.headDim == 0 then 0.0 else HeadOut(net, q, kvs, j / net.cfg.headDim, j % net.cfg.headDim))
  }

  // ----- one layer -----

  function LayerAt(net: Net, l: nat): Layer {
    if l < |net.layers| then net.layers[l] else Layer([], [], [], [], None, [], [], [], [], None, [])
  }

  /** Attention norm, the three projections and the rotation of q and k. */
  function Project(net: Net, l: nat, x: Row, pos: int): QKV {
    var w := LayerAt(net, l);
    var a := RmsNorm(net.fns, x, w.attnNorm, net.cfg.eps);
    QKV(RopeHeads(net.fns, MatVec(a, w.wq), net.cfg.headDim, pos, net.cfg.nHeads),
        KV(RopeHeads(net.fns, MatVec(a, w.wk), net.cfg.headDim, pos, net.cfg.nKv), MatVec(a, w.wv)))
  }

  function SubNorm(net: Net, w: Option<Row>, x: Row): (r: Row)
    ensures |r| == |x|
  {
    match w
    case None => x
    case Some(g) => RmsNorm(net.fns, x, g, net.cfg.eps)
  }

  /** Sub-norm, output projection and residual: the attention half after attention proper. */
  function AttnResidual(net: Net, l: nat, x: Row, attn: Row): (r: Row)
    ensures |r| == |x|
  {
    Add(x, MatVec(SubNorm(net, LayerAt(net, l).attnSub, attn), LayerAt(net, l).wo))
  }

  /** The feed-forward half with its residual. */
  function Ffn(net: Net, l: nat, x: Row): (r: Row)
    ensures |r| == |x|
  {
    var w := LayerAt(net, l);
    var a := RmsNorm(net.fns, x, w.ffnNorm, net.cfg.eps);
    var mid := Mul(Relu2(MatVec(a, w.wGate)), MatVec(a, w.wUp));
    Add(x, MatVec(SubNorm(net, w.ffnSub, mid), w.wDown))
  }

  /** Everything a layer does after attention. */
  function Finish(net: Net, l: nat, x: Row, attn: Row): (r: Row)
    ensures |r| == |x|
  {
    Ffn(net, l, AttnResidual(net, l, x, attn))
  }

  function Embed(net: Net, tok: int): Row {
    if 0 <= tok < |net.embed| then net.embed[tok] else []
  }

  /** Final norm and tied output projection. */
  function Logits(net: Net, x: Row): Row {
    MatVec(RmsNorm(net.fns, x, net.outNorm, net.cfg.eps), net.embed)
  }

  /** The network's evaluation chain. */
  function Of(net: Net): Decoder {
    Decoder(|net.layers|,
            tok => Embed(net, tok),
            (l: nat, x, pos: nat) => Project(net, l, x, pos),
            (q, kvs) => Attend(net, q, kvs),
            (l: nat, x, attn) => Finish(net, l, x, attn),
            x => Logits(net, x))
  }
}
