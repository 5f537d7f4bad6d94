/** The device KV cache, one allocation for all layers, and the kernels that write and read it; each is proved against
    the rows of the cache it stands for. */
module GpuCache {
  import opened Arith
  import opened Rows
  import opened Chain
  import opened Net
  import opened KvCaches
  import opened Attention
  import opened GpuKernels

  /** Slots per layer of the device cache. */
  const GPU_MAX_SEQ := 1024

  /** Layer l of a device buffer. */
  function LayerBlock(flat: seq<real>, w: nat, layers: nat, l: nat): (r: seq<real>)
    requires |flat| == layers * (GPU_MAX_SEQ * w) && l < layers
    ensures |r| == GPU_MAX_SEQ * w
  {
    RowOf(flat, GPU_MAX_SEQ * w, layers, l)
  }

  function DeviceLayer(kf: seq<real>, vf: seq<real>, w: nat, layers: nat, l: nat): (r: LayerCache)
    requires |kf| == |vf| == layers * (GPU_MAX_SEQ * w) && l < layers
    ensures |r| == GPU_MAX_SEQ
  {
    LayerOf(LayerBlock(kf, w, layers, l), LayerBlock(vf, w, layers, l), w, GPU_MAX_SEQ)
  }

  function DeviceValue(kf: seq<real>, vf: seq<real>, w: nat, layers: nat): (r: Cache)
    requires |kf| == |vf| == layers * (GPU_MAX_SEQ * w)
    ensures |r| == layers && forall l :: 0 <= l < layers ==> |r[l]| == GPU_MAX_SEQ
  {
    seq(layers, l requires 0 <= l < layers => DeviceLayer(kf, vf, w, layers, l))
  }

  lemma {:induction false} PatchBlock(flat: seq<real>, w: nat, layers: nat, l: nat, p: nat, src: Row, m: nat)
    requires |flat| == layers * (GPU_MAX_SEQ * w) && l < layers && m < layers && p < GPU_MAX_SEQ && |src| == w
    ensures p * w + w <= GPU_MAX_SEQ * w && l * (GPU_MAX_SEQ * w) + p * w + w <= |flat|
    ensures LayerBlock(Patch(flat, l * (GPU_MAX_SEQ * w) + p * w, src), w, layers, m)
         == if m == l then Patch(LayerBlock(flat, w, layers, l), p * w, src) else LayerBlock(flat, w, layers, m)
  {
    hide RowOf, Patch;
    var size := GPU_MAX_SEQ * w;
    RowBounds(p, w, GPU_MAX_SEQ);
    RowBounds(l, size, layers);
    BlockIs(flat, size, layers, l);
    PatchInner(flat, l * size, size, p * w, src);
    PatchRow(flat, size, layers, l, Patch(LayerBlock(flat, w, layers, l), p * w, src), m);
  }

  lemma BlockIs(flat: seq<real>, size: nat, layers: nat, l: nat)
    requires |flat| == layers * size && l < layers
    ensures 0 <= l * size <= l * size + size <= |flat|
      && RowOf(flat, size, layers, l) == flat[l * size..l * size + size]
  {
    RowBounds(l, size, layers);
  }

  /** A patch within a part of the buffer is a patch of that part. */
  lemma PatchInner(flat: seq<real>, base: nat, size: nat, off: nat, src: Row)
    requires base + size <= |flat| && off + |src| <= size
    ensures Patch(flat, base + off, src) == Patch(flat, base, Patch(flat[base..base + size], off, src))
  {
  }

  lemma {:induction false} PatchDevice(kf: seq<real>, vf: seq<real>, w: nat, layers: nat, l: nat, p: nat, k: Row,
                                       v: Row)
    requires |kf| == |vf| == layers * (GPU_MAX_SEQ * w) && l < layers && p < GPU_MAX_SEQ && |k| == |v| == w
    ensures l * (GPU_MAX_SEQ * w) + p * w + w <= |kf|
    ensures var off := l * (GPU_MAX_SEQ * w) + p * w;
      DeviceValue(Patch(kf, off, k), Patch(vf, off, v), w, layers)
      == DeviceValue(kf, vf, w, layers)[l := Store(DeviceValue(kf, vf, w, layers)[l], p, KV(k, v))]
  {
    hide DeviceLayer, DeviceValue, Patch, LayerBlock, Store, RowOf;
    SlotBounds(w, layers, l, p);
    var off := l * (GPU_MAX_SEQ * w) + p * w;
    var kn, vn := Patch(kf, off, k), Patch(vf, off, v);
    forall m | 0 <= m < layers
      ensures DeviceLayer(kn, vn, w, layers, m)
           == if m == l then Store(DeviceLayer(kf, vf, w, layers, l), p, KV(k, v))
              else DeviceLayer(kf, vf, w, layers, m)
    {
      PatchDeviceLayer(kf, vf, w, layers, l, p, k, v, m);
    }
    LayersAre(kn, vn, kf, vf, w, layers, l, Store(DeviceLayer(kf, vf, w, layers, l), p, KV(k, v)));
    LayerIs(kf, vf, w, layers, l);
  }

  lemma SlotBounds(w: nat, layers: nat, l: nat, p: nat)
    requires l < layers && p < GPU_MAX_SEQ
    ensures 0 <= p * w && p * w + w <= GPU_MAX_SEQ * w
    ensures 0 <= l * (GPU_MAX_SEQ * w) && l * (GPU_MAX_SEQ * w) + p * w + w <= layers * (GPU_MAX_SEQ * w)
  {
    RowBounds(p, w, GPU_MAX_SEQ);
    RowBounds(l, GPU_MAX_SEQ * w, layers);
  }

  lemma LayerIs(kf: seq<real>, vf: seq<real>, w: nat, layers: nat, l: nat)
    requires |kf| == |vf| == layers * (GPU_MAX_SEQ * w) && l < layers
    ensures DeviceValue(kf, vf, w, layers)[l] == DeviceLayer(kf, vf, w, layers, l)
  {
    hide DeviceLayer;
  }

  /** Two device caches that differ in one layer. */
  lemma LayersAre(kn: seq<real>, vn: seq<real>, kf: seq<real>, vf: seq<real>, w: nat, layers: nat, l: nat,
                  lc: LayerCache)
    requires |kf| == |vf| == |kn| == |vn| == layers * (GPU_MAX_SEQ * w) && l < layers
    requires forall m :: 0 <= m < layers ==>
      DeviceLayer(kn, vn, w, layers, m) == if m == l then lc else DeviceLayer(kf, vf, w, layers, m)
    ensures DeviceValue(kn, vn, w, layers) == DeviceValue(kf, vf, w, layers)[l := lc]
  {
    hide DeviceLayer;
  }

  lemma {:induction false} PatchDeviceLayer(kf: seq<real>, vf: seq<real>, w: nat, layers: nat, l: nat, p: nat, k: Row,
                                            v: Row, m: nat)
    requires |kf| == |vf| == layers * (GPU_MAX_SEQ * w) && l < layers && m < layers && p < GPU_MAX_SEQ
      && |k| == |v| == w
    ensures l * (GPU_MAX_SEQ * w) + p * w + w <= |kf|
    ensures var off := l * (GPU_MAX_SEQ * w) + p * w;
      DeviceLayer(Patch(kf, off, k), Patch(vf, off, v), w, layers, m)
      == if m == l then Store(DeviceLayer(kf, vf, w, layers, l), p, KV(k, v)) else DeviceLayer(kf, vf, w, layers, m)
  {
    hide Patch, LayerBlock, Store, LayerOf;
    PatchBlock(kf, w, layers, l, p, k, m);
    PatchBlock(vf, w, layers, l, p, v, m);
    if m == l {
      PatchLayer(LayerBlock(kf, w, layers, l), LayerBlock(vf, w, layers, l), w, GPU_MAX_SEQ, p, k, v);
    }
  }

  /** kv_write_kernel on one of the two caches. */
  method KvWriteD(src: array<real>, cache: array<real>, w: nat, layers: nat, l: nat, p: nat)
    requires src != cache && src.Length == w
    requires cache.Length == layers * (GPU_MAX_SEQ * w) && l < layers && p < GPU_MAX_SEQ
    modifies cache
    ensures l * (GPU_MAX_SEQ * w) + p * w + w <= cache.Length
    ensures cache[..] == Patch(old(cache[..]), l * (GPU_MAX_SEQ * w) + p * w, src[..])
  {
    RowBounds(p, w, GPU_MAX_SEQ);
    RowBounds(l, GPU_MAX_SEQ * w, layers);
    var off := l * (GPU_MAX_SEQ * w) + p * w;
    forall i | 0 <= i < w { cache[off + i] := src[i]; }
  }

  // ----- decode_attention_kernel -----

  /** The inner product unrolled by four; head_dim is a multiple of four. */
  method DotUnrolled(q: array<real>, qo: nat, flat: array<real>, fo: nat, n: nat) returns (dot: real)
    requires qo + n <= q.Length && fo + n <= flat.Length && n % 4 == 0
    ensures dot == DotAt(q[..], qo, flat[..], fo, n)
  {
    dot := 0.0;
    for i := 0 to n / 4
      invariant dot == DotAt(q[..], qo, flat[..], fo, 4 * i)
    {
      dot := DotStep(q, qo, flat, fo, 4 * i, dot);
      dot := DotStep(q, qo, flat, fo, 4 * i + 1, dot);
      dot := DotStep(q, qo, flat, fo, 4 * i + 2, dot);
      dot := DotStep(q, qo, flat, fo, 4 * i + 3, dot);
    }
  }

  method DotStep(q: array<real>, qo: nat, flat: array<real>, fo: nat, d: nat, dot: real) returns (r: real)
    requires qo + d < q.Length && fo + d < flat.Length && dot == DotAt(q[..], qo, flat[..], fo, d)
    ensures r == DotAt(q[..], qo, flat[..], fo, d + 1)
  {
    assert At(q[..], qo + d) == q[qo + d] && At(flat[..], fo + d) == flat[fo + d];
    r := dot + q[qo + d] * flat[fo + d];
  }

  /** One score: the key of slot t of layer l, read at its flat offset. */
  method ScoreD(c: Config, q: array<real>, kc: array<real>, w: nat, layers: nat, l: nat, t: nat, h: nat)
    returns (dot: real)
    requires Heads(c) && c.headDim % 4 == 0 && h < c.nHeads && w == c.nKv * c.headDim
    requires q.Length == c.nHeads * c.headDim && l < layers && t < GPU_MAX_SEQ
    requires kc.Length == layers * (GPU_MAX_SEQ * w)
    ensures dot == DotAt(q[..], h * c.headDim, RowOf(LayerBlock(kc[..], w, layers, l), w, GPU_MAX_SEQ, t),
                         h / Group(c) * c.headDim, c.headDim)
  {
    KvHead(c, h);
    HeadOffsets(c, h);
    var o := h / (c.nHeads / c.nKv) * c.headDim;
    RowBounds(l, GPU_MAX_SEQ * w, layers);
    RowBounds(t, w, GPU_MAX_SEQ);
    DotInRow(q[..], h * c.headDim, kc[..], GPU_MAX_SEQ * w, layers, l, t * w + o, c.headDim);
    DotInRow(q[..], h * c.headDim, LayerBlock(kc[..], w, layers, l), w, GPU_MAX_SEQ, t, o, c.headDim);
    dot := DotUnrolled(q, h * c.headDim, kc, l * (GPU_MAX_SEQ * w) + (t * w + o), c.headDim);
  }

  /** Step 1 of the kernel: the scaled scores of query head h. */
  method ScoresD(net: Net, q: array<real>, kc: array<real>, vc: array<real>, w: nat, layers: nat, l: nat, n: nat,
                 h: nat)
    returns (s: array<real>)
    requires Heads(net.cfg) && net.cfg.headDim % 4 == 0 && h < net.cfg.nHeads && w == net.cfg.nKv * net.cfg.headDim
    requires q.Length == net.cfg.nHeads * net.cfg.headDim && l < layers && n <= GPU_MAX_SEQ
    requires kc.Length == vc.Length == layers * (GPU_MAX_SEQ * w)
    ensures fresh(s)
    ensures s[..] == Scores(net, q[..], DeviceLayer(kc[..], vc[..], w, layers, l)[..n], h)
  {
    hide DeviceLayer, Heads, Score, DotAt;
    ghost var kvs := DeviceLayer(kc[..], vc[..], w, layers, l)[..n];
    s := new real[n];
    for t := 0 to n
      invariant forall i :: 0 <= i < t ==> s[i] == Score(net, q[..], kvs[i], h)
    {
      s[t] := ScaledScoreD(net, q, kc, vc, w, layers, l, t, h);
    }
  }

  method ScaledScoreD(net: Net, q: array<real>, kc: array<real>, ghost vc: array<real>, w: nat, layers: nat, l: nat,
                      t: nat, h: nat)
    returns (s: real)
    requires Heads(net.cfg) && net.cfg.headDim % 4 == 0 && h < net.cfg.nHeads && w == net.cfg.nKv * net.cfg.headDim
    requires q.Length == net.cfg.nHeads * net.cfg.headDim && l < layers && t < GPU_MAX_SEQ
    requires kc.Length == vc.Length == layers * (GPU_MAX_SEQ * w)
    ensures s == Score(net, q[..], DeviceLayer(kc[..], vc[..], w, layers, l)[t], h)
  {
    hide Heads, DotAt, LayerBlock, RowOf;
    var dot := ScoreD(net.cfg, q, kc, w, layers, l, t, h);
    s := dot * net.cfg.scale;
  }

  /** Step 2, thread 0: the maximum starts at the first score, then exponentials, sum and scaling. */
  method SoftmaxD(f: Fns, a: array<real>)
    modifies a
    ensures a[..] == SoftmaxFromFirst(f, old(a[..]))
  {
    if a.Length > 0 {
      SoftmaxInPlace(f, a, a[0]);
    }
  }

  /** Step 3, one thread per d: the value sum. */
  method ValueD(w: array<real>, vc: array<real>, width: nat, layers: nat, l: nat, j: nat, ghost kvs: seq<KV>)
    returns (acc: real)
    requires vc.Length == layers * (GPU_MAX_SEQ * width) && l < layers && j < width && w.Length == |kvs| <= GPU_MAX_SEQ
    requires forall t :: 0 <= t < |kvs| ==>
      kvs[t].v == RowOf(LayerBlock(vc[..], width, layers, l), width, GPU_MAX_SEQ, t)
    ensures acc == Mix(w[..], kvs, j, |kvs|)
  {
    hide RowOf, LayerBlock;
    acc := 0.0;
    for t := 0 to w.Length
      invariant acc == Mix(w[..], kvs, j, t)
    {
      SlotEntry(vc[..], width, layers, l, t, j);
      acc := acc + w[t] * vc[l * (GPU_MAX_SEQ * width) + (t * width + j)];
    }
  }

  /** Entry j of slot t of layer l in the flat buffer. */
  lemma SlotEntry(flat: seq<real>, width: nat, layers: nat, l: nat, t: nat, j: nat)
    requires |flat| == layers * (GPU_MAX_SEQ * width) && l < layers && j < width && t < GPU_MAX_SEQ
    ensures 0 <= l * (GPU_MAX_SEQ * width) + (t * width + j) < |flat|
    ensures At(RowOf(LayerBlock(flat, width, layers, l), width, GPU_MAX_SEQ, t), j)
         == flat[l * (GPU_MAX_SEQ * width) + (t * width + j)]
  {
    RowBounds(t, width, GPU_MAX_SEQ);
    FlatAt(flat, GPU_MAX_SEQ * width, layers, l, t * width + j);
    FlatAt(LayerBlock(flat, width, layers, l), width, GPU_MAX_SEQ, t, j);
  }

  /** One block of the kernel: query head h over the first n slots of layer l. */
  method HeadD(net: Net, q: array<real>, kc: array<real>, vc: array<real>, w: nat, layers: nat, l: nat, n: nat, h: nat)
    returns (r: Row)
    requires ExpLaw(net.fns) && Heads(net.cfg) && net.cfg.headDim % 4 == 0
    requires h < net.cfg.nHeads && w == net.cfg.nKv * net.cfg.headDim
    requires q.Length == net.cfg.nHeads * net.cfg.headDim && l < layers && n <= GPU_MAX_SEQ
    requires kc.Length == vc.Length == layers * (GPU_MAX_SEQ * w)
    ensures |r| == net.cfg.headDim
    ensures var kvs := DeviceLayer(kc[..], vc[..], w, layers, l)[..n];
      forall d :: 0 <= d < |r| ==> r[d] == HeadOut(net, q[..], kvs, h, d)
  {
    KvHead(net.cfg, h);
    HeadOffsets(net.cfg, h);
    var a := ScoresD(net, q, kc, vc, w, layers, l, n, h);
    SoftmaxFromFirstIsSoftmax(net.fns, a[..]);
    SoftmaxD(net.fns, a);
    r := MixD(a, vc, w, layers, l, h / (net.cfg.nHeads / net.cfg.nKv) * net.cfg.headDim, net.cfg.headDim,
              DeviceLayer(kc[..], vc[..], w, layers, l)[..n]);
  }

  method MixD(a: array<real>, vc: array<real>, w: nat, layers: nat, l: nat, o: nat, hd: nat, ghost kvs: seq<KV>)
    returns (r: Row)
    requires vc.Length == layers * (GPU_MAX_SEQ * w) && l < layers && o + hd <= w && a.Length == |kvs| <= GPU_MAX_SEQ
    requires forall t :: 0 <= t < |kvs| ==> kvs[t].v == RowOf(LayerBlock(vc[..], w, layers, l), w, GPU_MAX_SEQ, t)
    ensures |r| == hd && forall d :: 0 <= d < hd ==> r[d] == Mix(a[..], kvs, o + d, |kvs|)
  {
    r := [];
    for d := 0 to hd
      invariant |r| == d && forall i :: 0 <= i < d ==> r[i] == Mix(a[..], kvs, o + i, |kvs|)
    {
      var acc := ValueD(a, vc, w, layers, l, o + d, kvs);
      r := r + [acc];
    }
  }

  /** decode_attention_kernel: one block per head, written to its own stretch of the output buffer. */
  method AttentionD(net: Net, q: array<real>, kc: array<real>, vc: array<real>, w: nat, layers: nat, l: nat, n: nat,
                    out: array<real>)
    requires ExpLaw(net.fns) && Heads(net.cfg) && net.cfg.headDim % 4 == 0 && w == net.cfg.nKv * net.cfg.headDim
    requires q.Length == net.cfg.nHeads * net.cfg.headDim <= out.Length && l < layers && n <= GPU_MAX_SEQ
    requires kc.Length == vc.Length == layers * (GPU_MAX_SEQ * w)
    requires out != q && out != kc && out != vc
    modifies out
    ensures Wrote(out[..], old(out[..]), Attend(net, q[..], DeviceLayer(kc[..], vc[..], w, layers, l)[..n]))
  {
    ghost var kvs := DeviceLayer(kc[..], vc[..], w, layers, l)[..n];
    ghost var qs := q[..];
    ghost var want := Attend(net, qs, kvs);
    ghost var was := out[..];
    ghost var done: Row := [];
    for h := 0 to net.cfg.nHeads
      invariant q[..] == qs && DeviceLayer(kc[..], vc[..], w, layers, l)[..n] == kvs
      invariant |done| == h * net.cfg.headDim && done <= want
      invariant out[..|done|] == done && out[|want|..] == was[|want|..]
    {
      var head := HeadD(net, q, kc, vc, w, layers, l, n, h);
      PrefixGrows(net, qs, kvs, h, done, head);
      var off := h * net.cfg.headDim;
      WriteAt(out, off, head);
      done := done + head;
    }
  }

  method WriteAt(out: array<real>, off: nat, src: Row)
    requires off + |src| <= out.Length
    modifies out
    ensures out[..] == Patch(old(out[..]), off, src)
  {
    forall d | 0 <= d < |src| { out[off + d] := src[d]; }
  }
}
