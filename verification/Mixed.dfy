/** No cache. */
module Mixed {
  // Decoding on the CPU runs the prompt in one attention mode and the decoded tokens in the other: the first p
  // positions attend to themselves, later ones only to what stands before them. `Causal.HiddenAt` is the case where p
  // is large.

  import opened Rows
  import opened Chain
  import opened Causal
  import opened Decode
  import Net

  /** How many rows the token at s attends to. */
  function Span(p: nat, s: nat): (n: nat)
    ensures n <= s + 1
  {
    if s < p then s + 1 else s
  }

  /** The input of layer l at position s. */
  function HiddenIn(c: Decoder, toks: seq<int>, p: nat, l: nat, s: nat): Row
    requires l <= c.nLayers && s < |toks|
    decreases l, 0
  {
    if l == 0 then c.embed(toks[s])
    else
      var x := HiddenIn(c, toks, p, l - 1, s);
      c.finish(l - 1, x, c.attend(c.project(l - 1, x, s).q, RowsIn(c, toks, p, l - 1, Span(p, s))))
  }

  /** The key/value rows 0..n-1 of layer l. */
  function RowsIn(c: Decoder, toks: seq<int>, p: nat, l: nat, n: nat): (r: seq<KV>)
    requires l < c.nLayers && n <= |toks|
    ensures |r| == n
    decreases l, 1
  {
    seq(n, t requires 0 <= t < n => c.project(l, HiddenIn(c, toks, p, l, t), t).kv)
  }

  /** The logits of the last token. */
  function Last(c: Decoder, toks: seq<int>, p: nat): Row
    requires |toks| > 0
  {
    c.logits(HiddenIn(c, toks, p, c.nLayers, |toks| - 1))
  }

  /** Generation without any cache, the first p positions attending to themselves. */
  function MixedLoop(c: Decoder, r: Request, toks: seq<int>, p: nat, cap: nat, i: int): (o: seq<int>)
    requires |toks| > 0
    ensures |toks| <= |o|
    decreases r.maxNew - i
  {
    if !Goes(r, i) then toks
    else
      var t := r.sample(Last(c, toks, p), toks, i);
      if r.ends(toks + [t]) || |toks| >= cap then toks + [t] else MixedLoop(c, r, toks + [t], p, cap, i + 1)
  }

  // ----- what the cache holds -----

  lemma {:induction false} HiddenInPrompt(c: Decoder, toks: seq<int>, p: nat, l: nat, s: nat)
    requires l <= c.nLayers && s < |toks| && s < p
    ensures HiddenIn(c, toks, p, l, s) == HiddenAt(c, toks, l, s)
    decreases l
  {
    if l > 0 {
      var k := l - 1;
      forall t: nat | t <= s ensures HiddenIn(c, toks, p, k, t) == HiddenAt(c, toks, k, t) {
        HiddenInPrompt(c, toks, p, k, t);
      }
      assert RowsIn(c, toks, p, k, s + 1) == KvRows(c, toks, k, s + 1);
    }
  }

  lemma {:induction false} HiddenInIgnoresFuture(c: Decoder, toks: seq<int>, more: seq<int>, p: nat, l: nat, s: nat)
    requires l <= c.nLayers && s < |toks|
    ensures HiddenIn(c, toks + more, p, l, s) == HiddenIn(c, toks, p, l, s)
    decreases l
  {
    if l > 0 {
      var k := l - 1;
      forall t: nat | t <= s ensures HiddenIn(c, toks + more, p, k, t) == HiddenIn(c, toks, p, k, t) {
        HiddenInIgnoresFuture(c, toks, more, p, k, t);
      }
      assert RowsIn(c, toks + more, p, k, Span(p, s)) == RowsIn(c, toks, p, k, Span(p, s));
    }
  }

  lemma RowsInIgnoreFuture(c: Decoder, toks: seq<int>, more: seq<int>, p: nat, l: nat, n: nat)
    requires l < c.nLayers && n <= |toks|
    ensures RowsIn(c, toks + more, p, l, n) == RowsIn(c, toks, p, l, n)
  {
    forall t | 0 <= t < n ensures HiddenIn(c, toks + more, p, l, t) == HiddenIn(c, toks, p, l, t) {
      HiddenInIgnoresFuture(c, toks, more, p, l, t);
    }
  }

  /** Layers lo, lo+1, ... hold the first n rows, whatever stands behind them. */
  ghost predicate Filled(c: Decoder, toks: seq<int>, p: nat, cache: Cache, n: nat, lo: nat) {
    Fits(c, cache, n) && n <= |toks| && forall l :: lo <= l < c.nLayers ==> cache[l][..n] == RowsIn(c, toks, p, l, n)
  }

  lemma StepLayerIn(c: Decoder, toks: seq<int>, p: nat, l: nat, lc: LayerCache, pos: nat)
    requires l < c.nLayers && p <= pos < |toks| && pos < |lc| && lc[..pos] == RowsIn(c, toks, p, l, pos)
    ensures StepLayer(c, l, HiddenIn(c, toks, p, l, pos), lc, pos, false).0 == HiddenIn(c, toks, p, l + 1, pos)
    ensures StepLayer(c, l, HiddenIn(c, toks, p, l, pos), lc, pos, false).1[..pos + 1] == RowsIn(c, toks, p, l, pos + 1)
  {
    var kv := c.project(l, HiddenIn(c, toks, p, l, pos), pos).kv;
    assert Store(lc, pos, kv)[..pos + 1] == lc[..pos] + [kv];
    assert RowsIn(c, toks, p, l, pos + 1) == RowsIn(c, toks, p, l, pos) + [kv];
  }

  lemma {:induction false} StepFromIn(c: Decoder, toks: seq<int>, p: nat, l: nat, cache: Cache, pos: nat)
    requires l <= c.nLayers && p <= pos < |toks| && Fits(c, cache, pos + 1) && Filled(c, toks, p, cache, pos, l)
    ensures var r := StepFrom(c, l, HiddenIn(c, toks, p, l, pos), cache, pos, false);
      && r.0 == HiddenIn(c, toks, p, c.nLayers, pos)
      && Filled(c, toks, p, r.1, pos + 1, l)
      && forall i :: 0 <= i < l ==> r.1[i] == cache[i]
    decreases c.nLayers - l
  {
    if l < c.nLayers {
      hide HiddenIn, RowsIn, StepLayer;
      StepLayerIn(c, toks, p, l, cache[l], pos);
      var (y, lc) := StepLayer(c, l, HiddenIn(c, toks, p, l, pos), cache[l], pos, false);
      StepFromIn(c, toks, p, l + 1, cache[l := lc], pos);
    }
  }

  /** One decode step appends its rows and yields the logits of the longer sequence. */
  lemma {:induction false} ForwardIn(c: Decoder, toks: seq<int>, t: int, p: nat, cache: Cache)
    requires p <= |toks| && Fits(c, cache, |toks| + 1) && Filled(c, toks, p, cache, |toks|, 0)
    ensures Forward(c, cache, t, |toks|, false).0 == Last(c, toks + [t], p)
    ensures Filled(c, toks + [t], p, Forward(c, cache, t, |toks|, false).1, |toks| + 1, 0)
  {
    var all := toks + [t];
    forall l | 0 <= l < c.nLayers ensures cache[l][..|toks|] == RowsIn(c, all, p, l, |toks|) {
      RowsInIgnoreFuture(c, toks, [t], p, l, |toks|);
    }
    StepFromIn(c, all, p, 0, cache, |toks|);
  }

  /** After the prompt. */
  lemma PrefillIn(c: Decoder, cache: Cache, toks: seq<int>, p: nat)
    requires Fits(c, cache, |toks|) && 0 < |toks| <= p
    ensures Prefill(c, cache, toks).0[|toks| - 1] == Last(c, toks, p)
    ensures Filled(c, toks, p, Prefill(c, cache, toks).1, |toks|, 0)
  {
    hide HiddenIn, HiddenAt;
    PrefillCausal(c, cache, toks);
    HiddenInPrompt(c, toks, p, c.nLayers, |toks| - 1);
    forall l | 0 <= l < c.nLayers ensures Prefill(c, cache, toks).1[l][..|toks|] == RowsIn(c, toks, p, l, |toks|) {
      forall t | 0 <= t < |toks| ensures HiddenIn(c, toks, p, l, t) == HiddenAt(c, toks, l, t) {
        HiddenInPrompt(c, toks, p, l, t);
      }
      assert RowsIn(c, toks, p, l, |toks|) == KvRows(c, toks, l, |toks|);
    }
  }

  lemma {:induction false} DecodeLoopIsMixed(c: Decoder, r: Request, toks: seq<int>, logits: Row, p: nat, cache: Cache,
                                             cap: nat, i: int)
    requires p <= |toks| <= cap && 0 < |toks| && Sized(c, cache, cap) && Filled(c, toks, p, cache, |toks|, 0)
    requires logits == Last(c, toks, p)
    ensures DecodeLoop(c, r, toks, logits, cache, |toks|, cap, i).0 == MixedLoop(c, r, toks, p, cap, i)
    decreases r.maxNew - i
  {
    hide Last, Filled, Forward;
    if Goes(r, i) {
      var t := r.sample(logits, toks, i);
      if !r.ends(toks + [t]) && |toks| < cap {
        ForwardIn(c, toks, t, p, cache);
        var (y, after) := Forward(c, cache, t, |toks|, false);
        DecodeLoopIsMixed(c, r, toks + [t], y, p, after, cap, i + 1);
      }
    }
  }

  /** `generate` on the CPU path computes, from the request alone, what cache-free generation computes in which prompt
      tokens attend to themselves and decoded tokens do not. */
  lemma GenerateIsMixed(c: Decoder, r: Request, cache: Cache, cap: nat)
    requires Sized(c, cache, cap) && 1 <= |r.prompt| <= cap
    ensures Generate(c, r, cache, cap).0 == MixedLoop(c, r, r.prompt, |r.prompt|, cap, 0)
  {
    hide Last, Filled, Forward, Prefill;
    PrefillIn(c, cache, r.prompt, |r.prompt|);
    var (rows, after) := Prefill(c, cache, r.prompt);
    DecodeLoopIsMixed(c, r, r.prompt, rows[|rows| - 1], |r.prompt|, after, cap, 0);
  }

  /** With n offloaded layers, a run whose prompt fills the device cache is decoded the CPU way too. */
  lemma GpuGenerateIsMixed(c: Decoder, n: nat, r: Request, s: Split, gpuCap: nat, cap: nat)
    requires n <= c.nLayers && SplitSized(c, s, gpuCap, cap) && 1 <= |r.prompt| <= cap
    requires n == 0 || |r.prompt| >= gpuCap
    ensures GpuGenerate(c, n, r, s, gpuCap, cap).0 == MixedLoop(c, r, r.prompt, |r.prompt|, cap, 0)
  {
    hide GpuGenerate, Generate, MixedLoop;
    GpuGenerateOnCpu(c, n, r, s, gpuCap, cap);
    GenerateIsMixed(c, r, s.cpu, cap);
  }

  // ----- when the two attention modes agree on one network -----

  lemma {:induction false} LastIsCausal(c: Decoder, toks: seq<int>, p: nat)
    requires 0 < |toks| <= p
    ensures Last(c, toks, p) == c.logits(HiddenAt(c, toks, c.nLayers, |toks| - 1))
  {
    HiddenInPrompt(c, toks, p, c.nLayers, |toks| - 1);
  }

  /** Cache-free generation in the prompt mode throughout is the case where every position attends to itself. */
  lemma {:induction false} MixedLoopIsIdeal(c: Decoder, r: Request, toks: seq<int>, p: nat, cap: nat, i: int)
    requires 0 < |toks| <= p && cap <= p
    ensures MixedLoop(c, r, toks, p, cap, i) == IdealLoop(c, r, toks, cap, i)
    decreases r.maxNew - i
  {
    hide Last, HiddenAt;
    if Goes(r, i) {
      LastIsCausal(c, toks, p);
      var t := r.sample(Last(c, toks, p), toks, i);
      if |toks| < cap { MixedLoopIsIdeal(c, r, toks + [t], p, cap, i + 1); }
    }
  }

  /** At layer l, position s, the token's own row makes no difference to what the layer passes on. */
  ghost predicate OwnRowIdle(c: Decoder, toks: seq<int>, l: nat, s: nat)
    requires l < c.nLayers && s < |toks|
  {
    var x := HiddenAt(c, toks, l, s);
    var q := c.project(l, x, s).q;
    c.finish(l, x, c.attend(q, KvRows(c, toks, l, s))) == c.finish(l, x, c.attend(q, KvRows(c, toks, l, s + 1)))
  }

  ghost predicate SameAt(c: Decoder, toks: seq<int>, p: nat, l: nat)
    requires l <= c.nLayers
  {
    forall s: nat :: s < |toks| ==> HiddenIn(c, toks, p, l, s) == HiddenAt(c, toks, l, s)
  }

  ghost predicate IdleAt(c: Decoder, toks: seq<int>, p: nat, l: nat)
    requires l < c.nLayers
  {
    forall s: nat :: p <= s < |toks| ==> OwnRowIdle(c, toks, l, s)
  }

  lemma SameNextAt(c: Decoder, toks: seq<int>, p: nat, l: nat, s: nat)
    requires l < c.nLayers && s < |toks| && SameAt(c, toks, p, l)
    ensures HiddenIn(c, toks, p, l + 1, s) == HiddenAt(c, toks, l + 1, s) <==> s < p || OwnRowIdle(c, toks, l, s)
  {
    var n := Span(p, s);
    assert RowsIn(c, toks, p, l, n) == KvRows(c, toks, l, n);
  }

  /** One layer: given equal inputs, the outputs are equal exactly if no decoded token's own row matters. */
  lemma SameNext(c: Decoder, toks: seq<int>, p: nat, l: nat)
    requires l < c.nLayers && SameAt(c, toks, p, l)
    ensures SameAt(c, toks, p, l + 1) <==> IdleAt(c, toks, p, l)
  {
    hide HiddenIn, HiddenAt, OwnRowIdle;
    if SameAt(c, toks, p, l + 1) {
      forall s: nat | p <= s < |toks| ensures OwnRowIdle(c, toks, l, s) { SameNextAt(c, toks, p, l, s); }
    }
    if IdleAt(c, toks, p, l) {
      var m := l + 1;
      forall s: nat | s < |toks| ensures HiddenIn(c, toks, p, m, s) == HiddenAt(c, toks, m, s) {
        SameNextAt(c, toks, p, l, s);
      }
    }
  }

  /** Layer by layer: the two modes agree at every position if and only if at every layer and every decoded position the
      prompt mode's own row makes no difference. */
  lemma {:induction false} ModesAgreeIff(c: Decoder, toks: seq<int>, p: nat, n: nat)
    requires n <= c.nLayers
    ensures (forall l: nat :: l <= n ==> SameAt(c, toks, p, l)) <==> (forall l: nat :: l < n ==> IdleAt(c, toks, p, l))
    decreases n
  {
    hide SameAt, IdleAt;
    if n == 0 {
      EmbeddingsSame(c, toks, p);
    } else {
      ModesAgreeIff(c, toks, p, n - 1);
      if SameAt(c, toks, p, n - 1) { SameNext(c, toks, p, n - 1); }
    }
  }

  lemma EmbeddingsSame(c: Decoder, toks: seq<int>, p: nat)
    ensures SameAt(c, toks, p, 0)
  {
  }

  /** Every layer ignores what attention found. */
  ghost predicate AttentionUnused(c: Decoder) {
    forall l: nat, x: Row, a: Row, b: Row :: l < c.nLayers && |a| == |b| ==> c.finish(l, x, a) == c.finish(l, x, b)
  }

  ghost predicate AttentionSized(c: Decoder) {
    forall q: Row, a: seq<KV>, b: seq<KV> :: |c.attend(q, a)| == |c.attend(q, b)|
  }

  lemma UnusedLast(c: Decoder, toks: seq<int>, p: nat)
    requires AttentionUnused(c) && AttentionSized(c) && |toks| > 0
    ensures Last(c, toks, p) == c.logits(HiddenAt(c, toks, c.nLayers, |toks| - 1))
  {
    forall l: nat | l < c.nLayers ensures IdleAt(c, toks, p, l) {
      forall s: nat | p <= s < |toks| ensures OwnRowIdle(c, toks, l, s) {}
    }
    ModesAgreeIff(c, toks, p, c.nLayers);
    assert SameAt(c, toks, p, c.nLayers);
  }

  lemma {:induction false} UnusedLoop(c: Decoder, r: Request, toks: seq<int>, p: nat, cap: nat, i: int)
    requires AttentionUnused(c) && AttentionSized(c) && |toks| > 0
    ensures MixedLoop(c, r, toks, p, cap, i) == IdealLoop(c, r, toks, cap, i)
    decreases r.maxNew - i
  {
    hide Last, HiddenAt, AttentionUnused, AttentionSized;
    if Goes(r, i) {
      UnusedLast(c, toks, p);
      var t := r.sample(Last(c, toks, p), toks, i);
      UnusedLoop(c, r, toks + [t], p, cap, i + 1);
    }
  }

  /** Zero output projections: the attention half of every layer adds nothing. No layers at all is a special case. */
  ghost predicate ZeroOutput(net: Net.Net) {
    forall l, n, j :: 0 <= l < |net.layers| && 0 <= n < |net.layers[l].wo| ==> At(net.layers[l].wo[n], j) == 0.0
  }

  lemma {:induction false} DotZero(x: Row, y: Row, n: nat)
    requires forall j :: At(y, j) == 0.0
    ensures Dot(x, y, n) == 0.0
  {
    if n > 0 { DotZero(x, y, n - 1); }
  }

  lemma ZeroOutputUnused(net: Net.Net)
    requires ZeroOutput(net)
    ensures AttentionUnused(Net.Of(net)) && AttentionSized(Net.Of(net))
  {
    hide Net.Ffn, Net.SubNorm, Net.HeadOut, Dot;
    forall l: nat, x: Row, a: Row, b: Row | l < |net.layers| && |a| == |b|
      ensures Net.Finish(net, l, x, a) == Net.Finish(net, l, x, b)
    {
      var wo, g := net.layers[l].wo, net.layers[l].attnSub;
      var u, v := Net.SubNorm(net, g, a), Net.SubNorm(net, g, b);
      forall n | 0 <= n < |wo| ensures MatVec(u, wo)[n] == 0.0 == MatVec(v, wo)[n] {
        DotZero(u, wo[n], |u|);
        DotZero(v, wo[n], |v|);
      }
      assert MatVec(u, wo) == MatVec(v, wo);
    }
  }

  /** With zero output projections CPU decoding and prompt-mode generation yield the same tokens, for every request. */
  lemma ModesCoincide(net: Net.Net, r: Request, cache: Cache, cap: nat)
    requires ZeroOutput(net) && Sized(Net.Of(net), cache, cap) && 1 <= |r.prompt| <= cap
    ensures Generate(Net.Of(net), r, cache, cap).0 == IdealLoop(Net.Of(net), r, r.prompt, cap, 0)
  {
    hide ZeroOutput, AttentionUnused, AttentionSized;
    ZeroOutputUnused(net);
    GenerateIsMixed(Net.Of(net), r, cache, cap);
    UnusedLoop(Net.Of(net), r, r.prompt, |r.prompt|, cap, 0);
  }
}
