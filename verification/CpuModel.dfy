/** The CPU side of `Model`: the token-major `forward`, the batched `forward_prefill` and `generate`,
    each updating the KV cache in place. */
module CpuModel {
  import opened Arith
  import opened Rows
  import opened Chain
  import opened Net
  import opened Prelude
  import opened KvCaches
  import opened Attention
  import Decode

  ghost predicate Shaped(net: Net) {
    && Heads(net.cfg)
    && forall l :: 0 <= l < |net.layers| ==> LayerShaped(net.cfg, net.layers[l])
  }

  ghost predicate LayerShaped(c: Config, w: Layer) {
    |w.wq| == c.nHeads * c.headDim && |w.wk| == |w.wv| == c.nKv * c.headDim
  }

  method MapRows(xs: seq<Row>, f: Row -> Row) returns (ys: seq<Row>)
    ensures |ys| == |xs| && forall s :: 0 <= s < |xs| ==> ys[s] == f(xs[s])
  {
    ys := [];
    for s := 0 to |xs|
      invariant |ys| == s && forall i :: 0 <= i < s ==> ys[i] == f(xs[i])
    {
      ys := ys + [f(xs[s])];
    }
  }

  method ZipRows(xs: seq<Row>, zs: seq<Row>, f: (Row, Row) -> Row) returns (ys: seq<Row>)
    requires |xs| == |zs|
    ensures |ys| == |xs| && forall s :: 0 <= s < |xs| ==> ys[s] == f(xs[s], zs[s])
  {
    ys := [];
    for s := 0 to |xs|
      invariant |ys| == s && forall i :: 0 <= i < s ==> ys[i] == f(xs[i], zs[i])
    {
      ys := ys + [f(xs[s], zs[s])];
    }
  }

  /** Head h appended to the heads before it. */
  method AppendHead(net: Net, q: Row, kf: array<real>, vf: array<real>, cap: nat, n: nat, h: nat, row: Row)
    returns (r: Row)
    requires Heads(net.cfg) && |q| == net.cfg.nHeads * net.cfg.headDim && h < net.cfg.nHeads
    requires kf.Length == vf.Length == cap * (net.cfg.nKv * net.cfg.headDim) && n <= cap
    requires |row| == h * net.cfg.headDim && row <= Attend(net, q, Past(net.cfg, kf, vf, cap, n))
    ensures |r| == (h + 1) * net.cfg.headDim && r <= Attend(net, q, Past(net.cfg, kf, vf, cap, n))
  {
    var head := HeadAttention(net, q, kf, vf, cap, n, h);
    PrefixGrows(net, q, Past(net.cfg, kf, vf, cap, n), h, row, head);
    r := row + head;
  }

  /** The heads of one query, one after the other. */
  method AttendOne(net: Net, q: Row, kf: array<real>, vf: array<real>, cap: nat, n: nat) returns (out: Row)
    requires Heads(net.cfg) && |q| == net.cfg.nHeads * net.cfg.headDim
    requires kf.Length == vf.Length == cap * (net.cfg.nKv * net.cfg.headDim) && n <= cap
    ensures out == Attend(net, q, Past(net.cfg, kf, vf, cap, n))
  {
    out := [];
    for h := 0 to net.cfg.nHeads
      invariant |out| == h * net.cfg.headDim && out <= Attend(net, q, Past(net.cfg, kf, vf, cap, n))
    {
      out := AppendHead(net, q, kf, vf, cap, n, h, out);
    }
  }

  lemma PairBound(s: nat, h: nat, n: nat, rows: nat)
    requires h < n && s * n + h < rows * n
    ensures s < rows
  {
    if s >= rows { Monotone(rows, s, n); }
  }

  lemma NextRow(s: nat, n: nat)
    ensures (s + 1) * n == s * n + n
  {
  }

  lemma LastPair(s: nat, h: nat, n: nat, rows: nat)
    requires h < n && s * n + h == rows * n
    ensures s == rows && h == 0
  {
    if s < rows { Monotone(s + 1, rows, n); }
    if s > rows { Monotone(rows + 1, s, n); }
  }

  lemma PastGrows(c: Config, kf: array<real>, vf: array<real>, cap: nat, a: nat, b: nat)
    requires kf.Length == vf.Length == cap * (c.nKv * c.headDim) && a <= b <= cap
    ensures Past(c, kf, vf, cap, a) == Past(c, kf, vf, cap, b)[..a]
  {
  }

  /** compute_batched_attention: one flat loop over (row, head) pairs, row s seeing positions 0..s. */
  method BatchedAttention(net: Net, qs: seq<Row>, kf: array<real>, vf: array<real>, cap: nat) returns (outs: seq<Row>)
    requires Heads(net.cfg) && forall s :: 0 <= s < |qs| ==> |qs[s]| == net.cfg.nHeads * net.cfg.headDim
    requires kf.Length == vf.Length == cap * (net.cfg.nKv * net.cfg.headDim) && |qs| <= cap
    ensures |outs| == |qs|
    ensures forall s :: 0 <= s < |qs| ==> outs[s] == Attend(net, qs[s], Past(net.cfg, kf, vf, cap, s + 1))
  {
    hide Attend, Past;
    ghost var rows := Past(net.cfg, kf, vf, cap, |qs|);
    outs := [];
    var row: Row := [];
    var n := net.cfg.nHeads;
    ghost var hh := 0;
    for sh := 0 to |qs| * n
      invariant Past(net.cfg, kf, vf, cap, |qs|) == rows
      invariant hh < n && sh == |outs| * n + hh
      invariant forall s :: 0 <= s < |outs| && s < |qs| ==> outs[s] == Attend(net, qs[s], rows[..s + 1])
      invariant |row| == hh * net.cfg.headDim
      invariant |outs| < |qs| ==> row <= Attend(net, qs[|outs|], rows[..|outs| + 1])
    {
      DivIs(sh, n, |outs|, hh);
      PairBound(|outs|, hh, n, |qs|);
      var s := sh / n;
      var h := sh % n;
      PastGrows(net.cfg, kf, vf, cap, s + 1, |qs|);
      row := AppendHead(net, qs[s], kf, vf, cap, s + 1, h, row);
      if h == n - 1 {
        NextRow(|outs|, n);
        outs := outs + [row];
        row := [];
        hh := 0;
      } else {
        hh := hh + 1;
      }
    }
    LastPair(|outs|, hh, n, |qs|);
    forall s | 0 <= s < |qs| ensures outs[s] == Attend(net, qs[s], Past(net.cfg, kf, vf, cap, s + 1)) {
      PastGrows(net.cfg, kf, vf, cap, s + 1, |qs|);
    }
  }

  lemma StoreOne(lc: LayerCache, pos: nat, kv: KV)
    ensures StoreAll(lc, pos, Zip([kv.k], [kv.v])) == Store(lc, pos, kv)
  {
    assert Zip([kv.k], [kv.v]) == [kv];
  }

  lemma ProjectShape(net: Net, l: nat, x: Row, pos: int)
    requires Shaped(net) && l < |net.layers|
    ensures |Project(net, l, x, pos).q| == net.cfg.nHeads * net.cfg.headDim
    ensures |Project(net, l, x, pos).kv.k| == |Project(net, l, x, pos).kv.v| == net.cfg.nKv * net.cfg.headDim
  {
  }

  /** tensor_rope_batched on one of q, k: row s is rotated for position s. */
  method RopeRows(net: Net, xs: seq<Row>, heads: nat) returns (ys: seq<Row>)
    ensures |ys| == |xs|
    ensures forall s :: 0 <= s < |xs| ==> ys[s] == RopeHeads(net.fns, xs[s], net.cfg.headDim, s, heads)
  {
    ys := [];
    for s := 0 to |xs|
      invariant |ys| == s
      invariant forall i :: 0 <= i < s ==> ys[i] == RopeHeads(net.fns, xs[i], net.cfg.headDim, i, heads)
    {
      ys := ys + [RopeHeads(net.fns, xs[s], net.cfg.headDim, s, heads)];
    }
  }

  /** The operator-by-operator projection of all rows. */
  method ProjectRows(net: Net, l: nat, xs: seq<Row>) returns (q: seq<Row>, k: seq<Row>, v: seq<Row>)
    requires l < |net.layers|
    ensures |q| == |k| == |v| == |xs|
    ensures forall s :: 0 <= s < |xs| ==> Project(net, l, xs[s], s) == QKV(q[s], KV(k[s], v[s]))
  {
    var w := net.layers[l];
    var a := MapRows(xs, x => RmsNorm(net.fns, x, w.attnNorm, net.cfg.eps));
    q := MapRows(a, r => MatVec(r, w.wq));
    k := MapRows(a, r => MatVec(r, w.wk));
    v := MapRows(a, r => MatVec(r, w.wv));
    q := RopeRows(net, q, net.cfg.nHeads);
    k := RopeRows(net, k, net.cfg.nKv);
  }

  method SubNormRows(net: Net, g: Option<Row>, xs: seq<Row>) returns (ys: seq<Row>)
    ensures |ys| == |xs| && forall s :: 0 <= s < |xs| ==> ys[s] == SubNorm(net, g, xs[s])
  {
    ys := xs;
    if g.Some? {
      ys := MapRows(xs, x => RmsNorm(net.fns, x, g.value, net.cfg.eps));
    }
  }

  /** The operator-by-operator rest of a layer over all rows. */
  method FinishRows(net: Net, l: nat, xs: seq<Row>, attn: seq<Row>) returns (ys: seq<Row>)
    requires l < |net.layers| && |attn| == |xs|
    ensures |ys| == |xs| && forall s :: 0 <= s < |xs| ==> ys[s] == Finish(net, l, xs[s], attn[s])
  {
    var w := net.layers[l];
    var normed := SubNormRows(net, w.attnSub, attn);
    var proj := MapRows(normed, r => MatVec(r, w.wo));
    var residual := ZipRows(xs, proj, (x, y) => Add(x, y));
    assert forall s :: 0 <= s < |xs| ==> residual[s] == AttnResidual(net, l, xs[s], attn[s]);
    ys := FfnRows(net, l, residual);
  }

  method FfnRows(net: Net, l: nat, xs: seq<Row>) returns (ys: seq<Row>)
    requires l < |net.layers|
    ensures |ys| == |xs| && forall s :: 0 <= s < |xs| ==> ys[s] == Ffn(net, l, xs[s])
  {
    var w := net.layers[l];
    var a := MapRows(xs, x => RmsNorm(net.fns, x, w.ffnNorm, net.cfg.eps));
    var gate := MapRows(a, r => MatVec(r, w.wGate));
    var up := MapRows(a, r => MatVec(r, w.wUp));
    gate := MapRows(gate, r => Relu2(r));
    var mid := ZipRows(gate, up, (x, y) => Mul(x, y));
    mid := SubNormRows(net, w.ffnSub, mid);
    var down := MapRows(mid, r => MatVec(r, w.wDown));
    ys := ZipRows(xs, down, (x, y) => Add(x, y));
  }

  class Model {
    const net: Net
    const kv: KVCache

    constructor (net: Net, capacity: nat)
      requires Shaped(net)
      ensures Valid() && this.net == net && kv.capacity == capacity
    {
      this.net := net;
      kv := new KVCache(|net.layers|, net.cfg.nKv, net.cfg.headDim, capacity);
    }

    ghost predicate Valid() {
      && Shaped(net) && kv.Valid() && kv.nKv == net.cfg.nKv && kv.headDim == net.cfg.headDim
      && |kv.k| == |net.layers|
    }

    /** With `prefill` the token's row is stored before it attends to 0..pos, without it the token attends
        to 0..pos-1 and its row is stored afterwards. */
    method StoreAndAttend(l: nat, p: QKV, pos: nat, prefill: bool) returns (attn: Row)
      requires Valid() && l < |net.layers| && pos < kv.capacity
      requires |p.q| == net.cfg.nHeads * net.cfg.headDim && |p.kv.k| == |p.kv.v| == net.cfg.nKv * net.cfg.headDim
      modifies kv.k[l], kv.v[l]
      ensures kv.LayerValue(l) == Store(old(kv.LayerValue(l)), pos, p.kv)
      ensures attn
        == Attend(net, p.q, Window(if prefill then kv.LayerValue(l) else old(kv.LayerValue(l)), pos, prefill))
      ensures kv.Value() == old(kv.Value())[l := kv.LayerValue(l)]
    {
      ghost var was := kv.LayerValue(l);
      ghost var all := kv.Value();
      assert all[l] == was;
      StoreOne(was, pos, p.kv);
      if prefill {
        kv.Update(l, pos, [p.kv.k], [p.kv.v]);
        assert kv.Value()[l] == kv.LayerValue(l);
        attn := AttendOne(net, p.q, kv.k[l], kv.v[l], kv.capacity, pos + 1);
      } else {
        attn := AttendOne(net, p.q, kv.k[l], kv.v[l], kv.capacity, pos);
        kv.Update(l, pos, [p.kv.k], [p.kv.v]);
        assert kv.Value()[l] == kv.LayerValue(l);
      }
    }

    /** One layer of `forward`. */
    method LayerStep(l: nat, x: Row, pos: nat, prefill: bool) returns (y: Row)
      requires Valid() && l < |net.layers| && pos < kv.capacity
      modifies kv.k[l], kv.v[l]
      ensures (y, kv.LayerValue(l)) == StepLayer(Of(net), l, x, old(kv.LayerValue(l)), pos, prefill)
      ensures kv.Value() == old(kv.Value())[l := kv.LayerValue(l)]
    {
      ProjectShape(net, l, x, pos);
      var p := Project(net, l, x, pos);
      var attn := StoreAndAttend(l, p, pos, prefill);
      y := Finish(net, l, x, attn);
    }

    /** The layer loop from layer lo on. */
    method RunFrom(lo: nat, start: Row, pos: nat, prefill: bool) returns (x: Row)
      requires Valid() && lo <= |net.layers| && pos < kv.capacity
      modifies kv.Buffers()
      ensures (x, kv.Value()) == StepFrom(Of(net), lo, start, old(kv.Value()), pos, prefill)
    {
      hide Project, Finish, Attend, Logits, Embed, StepFrom;
      x := start;
      for layer := lo to |net.layers|
        invariant StepFrom(Of(net), layer, x, kv.Value(), pos, prefill)
               == StepFrom(Of(net), lo, start, old(kv.Value()), pos, prefill)
      {
        x := RunOne(layer, x, pos, prefill);
      }
      StepFromEnd(Of(net), x, kv.Value(), pos, prefill);
    }

    method RunOne(l: nat, x: Row, pos: nat, prefill: bool) returns (y: Row)
      requires Valid() && l < |net.layers| && pos < kv.capacity
      modifies kv.Buffers()
      ensures StepFrom(Of(net), l, x, old(kv.Value()), pos, prefill)
           == StepFrom(Of(net), l + 1, y, kv.Value(), pos, prefill)
    {
      hide Project, Finish, Attend, Logits, Embed;
      ghost var before := kv.Value();
      assert before[l] == kv.LayerValue(l);
      y := LayerStep(l, x, pos, prefill);
      StepFromUnfold(Of(net), l, x, before, pos, prefill, y, kv.LayerValue(l));
    }

    /** `Model::forward` on the CPU path. */
    method Forward(tok: int, pos: nat, prefill: bool) returns (logits: Row)
      requires Valid()
      modifies kv.Buffers()
      ensures pos >= kv.capacity ==> logits == Zeros(net.cfg.vocab) && kv.Value() == old(kv.Value())
      ensures pos < kv.capacity ==>
        (logits, kv.Value()) == Chain.Forward(Of(net), old(kv.Value()), tok, pos, prefill)
    {
      if pos >= kv.capacity {
        return Zeros(net.cfg.vocab);
      }
      var x := RunFrom(0, Embed(net, tok), pos, prefill);
      logits := Logits(net, x);
    }

    /** One layer of `forward_prefill`: all rows projected, all key/value rows stored, then all rows attend. */
    method PrefillLayerStep(l: nat, xs: seq<Row>) returns (ys: seq<Row>)
      requires Valid() && l < |net.layers| && |xs| <= kv.capacity
      modifies kv.k[l], kv.v[l]
      ensures (ys, kv.LayerValue(l)) == PrefillLayer(Of(net), l, xs, old(kv.LayerValue(l)))
      ensures kv.Value() == old(kv.Value())[l := kv.LayerValue(l)]
    {
      hide Project, Finish, Attend;
      ghost var was := kv.LayerValue(l);
      assert kv.Value()[l] == was;
      var q, k, v := ProjectRows(net, l, xs);
      forall s | 0 <= s < |xs|
        ensures |q[s]| == net.cfg.nHeads * net.cfg.headDim
        ensures |k[s]| == |v[s]| == net.cfg.nKv * net.cfg.headDim
      {
        ProjectShape(net, l, xs[s], s);
      }
      ghost var ps := ProjectAll(Of(net), l, xs);
      assert forall s :: 0 <= s < |xs| ==> ps[s] == Project(net, l, xs[s], s);
      assert Zip(k, v) == KVs(ps);
      kv.Update(l, 0, k, v);
      assert kv.Value()[l] == kv.LayerValue(l);
      var attn := BatchedAttention(net, q, kv.k[l], kv.v[l], kv.capacity);
      ys := FinishRows(net, l, xs, attn);
      PrefillRows(l, xs, was, q, attn, ys);
    }

    lemma PrefillRows(l: nat, xs: seq<Row>, was: LayerCache, q: seq<Row>, attn: seq<Row>, ys: seq<Row>)
      requires |xs| == |q| == |attn| == |ys| && |xs| <= |was| && l < |net.layers|
      requires var stored := StoreAll(was, 0, KVs(ProjectAll(Of(net), l, xs)));
        forall s :: 0 <= s < |xs| ==> q[s] == Project(net, l, xs[s], s).q
                                      && attn[s] == Attend(net, q[s], stored[..s + 1])
                                      && ys[s] == Finish(net, l, xs[s], attn[s])
      ensures PrefillLayer(Of(net), l, xs, was).0 == ys
    {
      hide Project, Finish, Attend;
    }

    /** `Model::forward_prefill`: an empty or over-long prompt gives no rows and leaves the cache alone. */
    method ForwardPrefill(toks: seq<int>) returns (logits: seq<Row>)
      requires Valid()
      modifies kv.Buffers()
      ensures |toks| > kv.capacity ==> logits == [] && kv.Value() == old(kv.Value())
      ensures |toks| <= kv.capacity ==> (logits, kv.Value()) == Prefill(Of(net), old(kv.Value()), toks)
    {
      if |toks| == 0 || |toks| > kv.capacity {
        EmptyPrefill(Of(net), 0, kv.Value());
        return [];
      }
      var xs := EmbedAll(Of(net), toks);
      for layer := 0 to |net.layers|
        invariant |xs| == |toks|
        invariant PrefillFrom(Of(net), layer, xs, kv.Value())
               == PrefillFrom(Of(net), 0, EmbedAll(Of(net), toks), old(kv.Value()))
      {
        xs := PrefillLayerStep(layer, xs);
      }
      logits := MapRows(xs, x => Logits(net, x));
      assert logits == LogitsAll(Of(net), xs);
    }

    /** Feeding a sampled token back: it is stored after it has attended to the rows before it. */
    method Feed(t: int) returns (logits: Row)
      requires Valid() && kv.seqLen < kv.capacity
      modifies kv`seqLen, kv.Buffers()
      ensures kv.seqLen == old(kv.seqLen) + 1
      ensures (logits, kv.Value()) == Chain.Forward(Of(net), old(kv.Value()), t, old(kv.seqLen), false)
    {
      hide Project, Finish, Attend, Logits, Embed;
      logits := Forward(t, kv.seqLen, false);
      kv.seqLen := kv.seqLen + 1;
    }

    /** The sampling loop of `generate`. */
    method DecodeFrom(start: seq<int>, maxNew: int, eos: int, sample: Decode.Sampler, first: Row)
      returns (toks: seq<int>)
      requires Valid() && kv.seqLen <= kv.capacity
      modifies kv`seqLen, kv.Buffers()
      ensures (toks, kv.Value()) == Decode.DecodeLoop(Of(net), Decode.Plain(start, maxNew, eos, sample), start, first,
                                                      old(kv.Value()), old(kv.seqLen), kv.capacity, 0)
    {
      ghost var r := Decode.Plain(start, maxNew, eos, sample);
      hide Project, Finish, Attend, Logits, Embed, Decode.DecodeLoop, Chain.Forward;
      toks := start;
      var logits := first;
      var i := 0;
      ghost var want := Decode.DecodeLoop(Of(net), r, start, first, kv.Value(), kv.seqLen, kv.capacity, 0);
      while i < maxNew
        invariant kv.seqLen <= kv.capacity
        invariant Decode.DecodeLoop(Of(net), r, toks, logits, kv.Value(), kv.seqLen, kv.capacity, i) == want
      {
        var t := sample(logits, toks, i);
        if t == eos || kv.seqLen >= kv.capacity {
          DecodeLoopEnds(Of(net), r, toks, logits, kv.Value(), kv.seqLen, kv.capacity, i);
          toks := toks + [t];
          return;
        }
        ghost var before := kv.Value();
        ghost var was, at, seen := logits, kv.seqLen, toks;
        logits := Feed(t);
        toks := toks + [t];
        DecodeLoopStep(Of(net), r, seen, was, before, at, kv.capacity, i);
        i := i + 1;
      }
      DecodeLoopEnds(Of(net), r, toks, logits, kv.Value(), kv.seqLen, kv.capacity, i);
    }

    lemma DecodeLoopEnds(c: Decoder, r: Decode.Request, toks: seq<int>, logits: Row, cache: Cache, seqLen: nat,
                         cap: nat, i: int)
      requires Decode.Sized(c, cache, cap)
      ensures !Decode.Goes(r, i) ==> Decode.DecodeLoop(c, r, toks, logits, cache, seqLen, cap, i) == (toks, cache)
      ensures var t := r.sample(logits, toks, i);
        Decode.Goes(r, i) && (r.ends(toks + [t]) || seqLen >= cap) ==>
        Decode.DecodeLoop(c, r, toks, logits, cache, seqLen, cap, i) == (toks + [t], cache)
    {
    }

    lemma DecodeLoopStep(c: Decoder, r: Decode.Request, toks: seq<int>, logits: Row, cache: Cache, seqLen: nat,
                         cap: nat, i: int)
      requires Decode.Sized(c, cache, cap) && Decode.Goes(r, i) && seqLen < cap
      requires !r.ends(toks + [r.sample(logits, toks, i)])
      ensures var (y, after) := Chain.Forward(c, cache, r.sample(logits, toks, i), seqLen, false);
        && Decode.Sized(c, after, cap)
        && Decode.DecodeLoop(c, r, toks, logits, cache, seqLen, cap, i)
           == Decode.DecodeLoop(c, r, toks + [r.sample(logits, toks, i)], y, after, seqLen + 1, cap, i + 1)
    {
    }

    /** `Model::generate`; the capacity is also max_seq_len, since `load` sizes the cache with it. */
    method Generate(prompt: seq<int>, maxNew: int, eos: int, sample: Decode.Sampler) returns (toks: seq<int>)
      requires Valid() && 1 <= |prompt| <= kv.capacity
      modifies kv`seqLen, kv.Buffers()
      ensures (toks, kv.Value()) == Decode.Generate(Of(net), Decode.Plain(prompt, maxNew, eos, sample), old(kv.Value()),
                                                    kv.capacity)
    {
      hide Project, Finish, Attend, Logits, Embed, Decode.DecodeLoop, Prefill, Chain.Forward;
      kv.Clear();
      var rows := ForwardPrefill(prompt);
      kv.seqLen := |prompt|;
      toks := DecodeFrom(prompt, maxNew, eos, sample, rows[|rows| - 1]);
    }
  }

  lemma StepFromEnd(c: Decoder, x: Row, cache: Cache, pos: nat, prefill: bool)
    requires Fits(c, cache, pos + 1)
    ensures StepFrom(c, c.nLayers, x, cache, pos, prefill) == (x, cache)
  {
  }

  lemma StepFromUnfold(c: Decoder, l: nat, x: Row, cache: Cache, pos: nat, prefill: bool, y: Row, lc: LayerCache)
    requires l < c.nLayers && Fits(c, cache, pos + 1) && (y, lc) == StepLayer(c, l, x, cache[l], pos, prefill)
    ensures Fits(c, cache[l := lc], pos + 1)
    ensures StepFrom(c, l, x, cache, pos, prefill) == StepFrom(c, l + 1, y, cache[l := lc], pos, prefill)
  {
  }

  lemma {:induction false} EmptyPrefill(c: Decoder, l: nat, cache: Cache)
    requires l <= c.nLayers && Fits(c, cache, 0)
    ensures PrefillFrom(c, l, [], cache) == ([], cache)
    decreases c.nLayers - l
  {
    if l < c.nLayers {
      assert StoreAll(cache[l], 0, KVs(ProjectAll(c, l, []))) == cache[l];
      assert cache[l := cache[l]] == cache;
      EmptyPrefill(c, l + 1, cache);
    }
  }
}
