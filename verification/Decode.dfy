/** Whole generation runs. */
module Decode {
  // Requests on a cache that is never wiped, and decoding with the cache split between GPU and CPU.

  import opened Rows
  import opened Chain
  import opened Causal

  /** Capacity `cap` in every layer: KVCache::init sizes all layers alike. */
  ghost predicate Sized(c: Decoder, cache: Cache, cap: nat) {
    |cache| == c.nLayers && forall l :: 0 <= l < |cache| ==> |cache[l]| == cap
  }

  // ----- Model::generate on the CPU path -----

  /** The sampler sees the logits, the tokens so far and the index of the draw it consumes. */
  type Sampler = (Row, seq<int>, int) -> int

  /** What drives a decoding loop: `cancel` is read before iteration i samples, `ends` after it, on the tokens so
      far. */
  datatype Request = Request(prompt: seq<int>, maxNew: int, ends: seq<int> -> bool, cancel: int -> bool,
                             sample: Sampler)

  predicate Goes(r: Request, i: int) { i < r.maxNew && !r.cancel(i) }

  predicate EndsWith(toks: seq<int>, t: int) { toks != [] && toks[|toks| - 1] == t }

  /** The request `generate` serves: nothing cancels it, and only the end token ends it. */
  function Plain(prompt: seq<int>, maxNew: int, eos: int, sample: Sampler): Request {
    Request(prompt, maxNew, toks => EndsWith(toks, eos), i => false, sample)
  }

  /** The loop of `generate` from iteration i; `cap` is both max_seq_len and the cache capacity. */
  function DecodeLoop(c: Decoder, r: Request, toks: seq<int>, logits: Row, cache: Cache, seqLen: nat, cap: nat, i: int)
    : (o: (seq<int>, Cache))
    requires Sized(c, cache, cap)
    ensures Sized(c, o.1, cap)
    decreases r.maxNew - i
  {
    if !Goes(r, i) then (toks, cache)
    else
      var t := r.sample(logits, toks, i);
      if r.ends(toks + [t]) || seqLen >= cap then (toks + [t], cache)
      else
        var (y, after) := Forward(c, cache, t, seqLen, false);
        DecodeLoop(c, r, toks + [t], y, after, seqLen + 1, cap, i + 1)
  }

  /** `generate`: clear() resets only the length, so the old rows are still in `cache` when it starts. */
  function Generate(c: Decoder, r: Request, cache: Cache, cap: nat): (o: (seq<int>, Cache))
    requires Sized(c, cache, cap) && 1 <= |r.prompt| <= cap
    ensures Sized(c, o.1, cap)
  {
    var (rows, after) := Prefill(c, cache, r.prompt);
    DecodeLoop(c, r, r.prompt, rows[|rows| - 1], after, |r.prompt|, cap, 0)
  }

  /** Requests served one after the other on the same cache. */
  function Serve(c: Decoder, rs: seq<Request>, cache: Cache, cap: nat): (o: (seq<seq<int>>, Cache))
    requires Sized(c, cache, cap) && forall i :: 0 <= i < |rs| ==> 1 <= |rs[i].prompt| <= cap
    ensures |o.0| == |rs| && Sized(c, o.1, cap)
  {
    if |rs| == 0 then ([], cache)
    else
      var (outs, mid) := Serve(c, rs[..|rs| - 1], cache, cap);
      var (toks, after) := Generate(c, rs[|rs| - 1], mid, cap);
      (outs + [toks], after)
  }

  /** The caches hold the same rows 0..n-1 in layers lo, lo+1, ...; later rows may differ. */
  ghost predicate Agree(a: Cache, b: Cache, n: nat, lo: nat) {
    |a| == |b| && forall l :: lo <= l < |a| ==> n <= |a[l]| && n <= |b[l]| && a[l][..n] == b[l][..n]
  }

  lemma StepLayerAgree(c: Decoder, l: nat, x: Row, a: LayerCache, b: LayerCache, pos: nat, prefill: bool)
    requires l < c.nLayers && pos < |a| && pos < |b| && a[..pos] == b[..pos]
    ensures StepLayer(c, l, x, a, pos, prefill).0 == StepLayer(c, l, x, b, pos, prefill).0
    ensures StepLayer(c, l, x, a, pos, prefill).1[..pos + 1] == StepLayer(c, l, x, b, pos, prefill).1[..pos + 1]
  {
    var kv := c.project(l, x, pos).kv;
    assert Store(a, pos, kv)[..pos + 1] == a[..pos] + [kv];
    assert Store(b, pos, kv)[..pos + 1] == b[..pos] + [kv];
  }

  lemma {:induction false} StepFromAgree(c: Decoder, l: nat, x: Row, a: Cache, b: Cache, pos: nat, prefill: bool)
    requires l <= c.nLayers && Fits(c, a, pos + 1) && Fits(c, b, pos + 1) && Agree(a, b, pos, l)
    ensures StepFrom(c, l, x, a, pos, prefill).0 == StepFrom(c, l, x, b, pos, prefill).0
    ensures Agree(StepFrom(c, l, x, a, pos, prefill).1, StepFrom(c, l, x, b, pos, prefill).1, pos + 1, l)
    ensures forall i :: 0 <= i < l ==> StepFrom(c, l, x, a, pos, prefill).1[i] == a[i]
    ensures forall i :: 0 <= i < l ==> StepFrom(c, l, x, b, pos, prefill).1[i] == b[i]
    decreases c.nLayers - l
  {
    if l < c.nLayers {
      StepLayerAgree(c, l, x, a[l], b[l], pos, prefill);
      var (y, la) := StepLayer(c, l, x, a[l], pos, prefill);
      var (y', lb) := StepLayer(c, l, x, b[l], pos, prefill);
      StepFromAgree(c, l + 1, y, a[l := la], b[l := lb], pos, prefill);
    }
  }

  /** `forward` at pos reads only rows before pos, in either attention mode. */
  lemma ForwardReadsOnlyThePast(c: Decoder, a: Cache, b: Cache, tok: int, pos: nat, prefill: bool)
    requires Fits(c, a, pos + 1) && Fits(c, b, pos + 1) && Agree(a, b, pos, 0)
    ensures Forward(c, a, tok, pos, prefill).0 == Forward(c, b, tok, pos, prefill).0
    ensures Agree(Forward(c, a, tok, pos, prefill).1, Forward(c, b, tok, pos, prefill).1, pos + 1, 0)
  {
    StepFromAgree(c, 0, c.embed(tok), a, b, pos, prefill);
  }

  lemma PrefillAgree(c: Decoder, a: Cache, b: Cache, toks: seq<int>)
    requires Fits(c, a, |toks|) && Fits(c, b, |toks|)
    ensures Prefill(c, a, toks).0 == Prefill(c, b, toks).0
    ensures Agree(Prefill(c, a, toks).1, Prefill(c, b, toks).1, |toks|, 0)
  {
    PrefillCausal(c, a, toks);
    PrefillCausal(c, b, toks);
    assert Prefill(c, a, toks).0 == Prefill(c, b, toks).0;
    var pa, pb := Prefill(c, a, toks).1, Prefill(c, b, toks).1;
    forall l | 0 <= l < c.nLayers ensures pa[l][..|toks|] == pb[l][..|toks|] {
      assert Overwrite(a[l], KvRows(c, toks, l, |toks|))[..|toks|] == KvRows(c, toks, l, |toks|);
      assert Overwrite(b[l], KvRows(c, toks, l, |toks|))[..|toks|] == KvRows(c, toks, l, |toks|);
    }
  }

  lemma {:induction false} DecodeLoopAgree(c: Decoder, r: Request, toks: seq<int>, logits: Row, a: Cache, b: Cache,
                                           seqLen: nat, cap: nat, i: int)
    requires Sized(c, a, cap) && Sized(c, b, cap) && seqLen <= cap && Agree(a, b, seqLen, 0)
    ensures DecodeLoop(c, r, toks, logits, a, seqLen, cap, i).0 == DecodeLoop(c, r, toks, logits, b, seqLen, cap, i).0
    decreases r.maxNew - i
  {
    if Goes(r, i) {
      var t := r.sample(logits, toks, i);
      if !r.ends(toks + [t]) && seqLen < cap {
        ForwardReadsOnlyThePast(c, a, b, t, seqLen, false);
        var (y, a') := Forward(c, a, t, seqLen, false);
        var (y', b') := Forward(c, b, t, seqLen, false);
        DecodeLoopAgree(c, r, toks + [t], y, a', b', seqLen + 1, cap, i + 1);
      }
    }
  }

  /** Two-run property: whatever an earlier request left in the cache, the generated tokens are the same. */
  lemma GenerateIgnoresOldRows(c: Decoder, r: Request, a: Cache, b: Cache, cap: nat)
    requires Sized(c, a, cap) && Sized(c, b, cap) && 1 <= |r.prompt| <= cap
    ensures Generate(c, r, a, cap).0 == Generate(c, r, b, cap).0
  {
    hide Prefill, DecodeLoop, Agree;
    PrefillAgree(c, a, b, r.prompt);
    var (rows, a') := Prefill(c, a, r.prompt);
    var (rows', b') := Prefill(c, b, r.prompt);
    DecodeLoopAgree(c, r, r.prompt, rows[|rows| - 1], a', b', |r.prompt|, cap, 0);
  }

  /** Requests do not leak into each other: serving any list of requests on one reused cache answers each
      of them as if it had been served alone on any other cache, for example a zeroed one. */
  lemma {:induction false} RequestsDoNotLeak(c: Decoder, rs: seq<Request>, cache: Cache, blank: Cache, cap: nat, i: nat)
    requires Sized(c, cache, cap) && Sized(c, blank, cap) && i < |rs|
    requires forall j :: 0 <= j < |rs| ==> 1 <= |rs[j].prompt| <= cap
    ensures Serve(c, rs, cache, cap).0[i] == Generate(c, rs[i], blank, cap).0
    decreases |rs|
  {
    var most := rs[..|rs| - 1];
    if i == |rs| - 1 {
      GenerateIgnoresOldRows(c, rs[i], Serve(c, most, cache, cap).1, blank, cap);
    } else {
      RequestsDoNotLeak(c, most, cache, blank, cap, i);
    }
  }

  // ----- the split GPU/CPU pipeline -----

  /** Layers l..n-1 on the device, each attending to rows 0..pos of its device cache. */
  function LeadingLayers(c: Decoder, l: nat, n: nat, x: Row, gpu: Cache, pos: nat): (r: (Row, Cache))
    requires l <= n <= c.nLayers && Fits(c, gpu, pos + 1)
    ensures Fits(c, r.1, pos + 1) && forall i :: 0 <= i < |gpu| ==> |r.1[i]| == |gpu[i]|
    decreases n - l
  {
    if l == n then (x, gpu)
    else
      var (y, lc) := StepLayer(c, l, x, gpu[l], pos, true);
      LeadingLayers(c, l + 1, n, y, gpu[l := lc], pos)
  }

  datatype Split = Split(gpu: Cache, cpu: Cache)

  /** `forward_gpu`: the first n layers use the device cache, the CPU tail uses the host cache. */
  function ForwardGpu(c: Decoder, n: nat, s: Split, tok: int, pos: nat): (r: (Row, Split))
    requires n <= c.nLayers && Fits(c, s.gpu, pos + 1) && Fits(c, s.cpu, pos + 1)
    ensures Fits(c, r.1.gpu, pos + 1) && Fits(c, r.1.cpu, pos + 1)
    ensures forall i :: 0 <= i < c.nLayers ==> |r.1.gpu[i]| == |s.gpu[i]| && |r.1.cpu[i]| == |s.cpu[i]|
  {
    var (x, g) := LeadingLayers(c, 0, n, c.embed(tok), s.gpu, pos);
    var (y, h) := StepFrom(c, n, x, s.cpu, pos, true);
    (c.logits(y), Split(g, h))
  }

  /** `sync_kv_to_gpu`: rows 0..len-1 of the first n layers are copied to the device. */
  function Sync(c: Decoder, n: nat, s: Split, len: nat): (r: Split)
    requires n <= c.nLayers && Fits(c, s.gpu, len) && Fits(c, s.cpu, len)
    ensures Fits(c, r.gpu, len) && r.cpu == s.cpu
    ensures forall i :: 0 <= i < c.nLayers ==> |r.gpu[i]| == |s.gpu[i]|
  {
    Split(seq(c.nLayers, l requires 0 <= l < c.nLayers =>
      if l < n then s.cpu[l][..len] + s.gpu[l][len..] else s.gpu[l]), s.cpu)
  }

  /** The split cache stands for `ref` up to row len-1: device rows below n, host rows from n on. */
  ghost predicate Represents(c: Decoder, n: nat, s: Split, ref: Cache, len: nat) {
    && n <= c.nLayers && Fits(c, s.gpu, len) && Fits(c, s.cpu, len) && Fits(c, ref, len)
    && (forall l :: 0 <= l < n ==> s.gpu[l][..len] == ref[l][..len])
    && (forall l :: n <= l < c.nLayers ==> s.cpu[l][..len] == ref[l][..len])
  }

  lemma {:induction false} SyncRepresents(c: Decoder, n: nat, s: Split, len: nat)
    requires n <= c.nLayers && Fits(c, s.gpu, len) && Fits(c, s.cpu, len)
    ensures Represents(c, n, Sync(c, n, s, len), s.cpu, len)
  {
  }

  lemma {:induction false} LeadingLayersAgree(c: Decoder, l: nat, n: nat, x: Row, a: Cache, b: Cache, pos: nat)
    requires l <= n <= c.nLayers && Fits(c, a, pos + 1) && Fits(c, b, pos + 1)
    requires forall i :: l <= i < n ==> a[i][..pos] == b[i][..pos]
    ensures var (y, a') := LeadingLayers(c, l, n, x, a, pos);
            var (z, b') := LeadingLayers(c, l, n, x, b, pos);
            && y == z
            && (forall i :: l <= i < n ==> a'[i][..pos + 1] == b'[i][..pos + 1])
            && (forall i :: 0 <= i < l || n <= i < c.nLayers ==> a'[i] == a[i] && b'[i] == b[i])
    decreases n - l
  {
    if l < n {
      StepLayerAgree(c, l, x, a[l], b[l], pos, true);
      var (y, la) := StepLayer(c, l, x, a[l], pos, true);
      var (y', lb) := StepLayer(c, l, x, b[l], pos, true);
      LeadingLayersAgree(c, l + 1, n, y, a[l := la], b[l := lb], pos);
    }
  }

  lemma {:induction false} StepFromSplits(c: Decoder, l: nat, n: nat, x: Row, cache: Cache, pos: nat)
    requires l <= n <= c.nLayers && Fits(c, cache, pos + 1)
    ensures var (y, mid) := LeadingLayers(c, l, n, x, cache, pos);
            StepFrom(c, l, x, cache, pos, true) == StepFrom(c, n, y, mid, pos, true)
    decreases n - l
  {
    if l < n {
      var (y, lc) := StepLayer(c, l, x, cache[l], pos, true);
      StepFromSplits(c, l + 1, n, y, cache[l := lc], pos);
    }
  }

  /** One split decode step is one unsplit step attending to 0..pos, and the split cache keeps standing for
      the unsplit one. */
  lemma ForwardGpuRefinesForward(c: Decoder, n: nat, s: Split, ref: Cache, tok: int, pos: nat)
    requires Represents(c, n, s, ref, pos)
    requires Fits(c, s.gpu, pos + 1) && Fits(c, s.cpu, pos + 1) && Fits(c, ref, pos + 1)
    ensures ForwardGpu(c, n, s, tok, pos).0 == Forward(c, ref, tok, pos, true).0
    ensures Represents(c, n, ForwardGpu(c, n, s, tok, pos).1, Forward(c, ref, tok, pos, true).1, pos + 1)
  {
    var x := c.embed(tok);
    StepFromSplits(c, 0, n, x, ref, pos);
    LeadingLayersAgree(c, 0, n, x, s.gpu, ref, pos);
    var (y, mid) := LeadingLayers(c, 0, n, x, ref, pos);
    StepFromAgree(c, n, y, s.cpu, mid, pos, true);
  }

  /** Decode steps at positions from..|toks|-1 on the split pipeline, logits collected. */
  function GpuDecode(c: Decoder, n: nat, s: Split, toks: seq<int>, from: nat): (r: (seq<Row>, Split))
    requires n <= c.nLayers && from <= |toks| && Fits(c, s.gpu, |toks|) && Fits(c, s.cpu, |toks|)
    ensures |r.0| == |toks| - from
    decreases |toks| - from
  {
    if from == |toks| then ([], s)
    else
      var (y, s') := ForwardGpu(c, n, s, toks[from], from);
      var (ys, t) := GpuDecode(c, n, s', toks, from + 1);
      ([y] + ys, t)
  }

  function CausalLogits(c: Decoder, toks: seq<int>, from: nat): (r: seq<Row>)
    requires from <= |toks|
    ensures |r| == |toks| - from
    decreases |toks| - from
  {
    if from == |toks| then []
    else [c.logits(HiddenAt(c, toks, c.nLayers, from))] + CausalLogits(c, toks, from + 1)
  }

  lemma {:induction false} CausalLogitsAt(c: Decoder, toks: seq<int>, from: nat, j: nat)
    requires from <= |toks| && j < |toks| - from
    ensures CausalLogits(c, toks, from)[j] == c.logits(HiddenAt(c, toks, c.nLayers, from + j))
    decreases j
  {
    if j > 0 { CausalLogitsAt(c, toks, from + 1, j - 1); }
  }

  /** `s` stands for a cache that holds rows 0..from-1 of the causal function. */
  ghost predicate Tracks(c: Decoder, n: nat, s: Split, base: Cache, ref: Cache, toks: seq<int>, from: nat) {
    && Represents(c, n, s, ref, from) && Holds(c, toks, base, ref, from, 0)
    && Fits(c, s.gpu, |toks|) && Fits(c, s.cpu, |toks|) && Fits(c, base, |toks|) && Fits(c, ref, |toks|)
  }

  lemma TracksStep(c: Decoder, n: nat, s: Split, base: Cache, ref: Cache, toks: seq<int>, from: nat)
    requires from < |toks| && Tracks(c, n, s, base, ref, toks, from)
    ensures ForwardGpu(c, n, s, toks[from], from).0 == c.logits(HiddenAt(c, toks, c.nLayers, from))
    ensures Tracks(c, n, ForwardGpu(c, n, s, toks[from], from).1, base,
                   Forward(c, ref, toks[from], from, true).1, toks, from + 1)
  {
    ForwardGpuRefinesForward(c, n, s, ref, toks[from], from);
    ForwardCausal(c, toks, base, ref, from);
  }

  lemma {:induction false} GpuDecodeCausal(c: Decoder, n: nat, s: Split, base: Cache, ref: Cache, toks: seq<int>,
                                           from: nat)
    requires from <= |toks| && Tracks(c, n, s, base, ref, toks, from)
    ensures GpuDecode(c, n, s, toks, from).0 == CausalLogits(c, toks, from)
    decreases |toks| - from
  {
    if from < |toks| {
      TracksStep(c, n, s, base, ref, toks, from);
      GpuDecodeCausal(c, n, ForwardGpu(c, n, s, toks[from], from).1, base,
                      Forward(c, ref, toks[from], from, true).1, toks, from + 1);
    }
  }

  /** A whole hybrid run: CPU prefill of the prompt, sync, then split decoding of the rest. Every logits row
      equals the row a single batched prefill of the whole sequence would give, on any other cache. */
  lemma HybridRunIsOnePrefill(c: Decoder, n: nat, start: Split, other: Cache, toks: seq<int>, prompt: nat)
    requires n <= c.nLayers && 1 <= prompt <= |toks|
    requires Fits(c, start.gpu, |toks|) && Fits(c, start.cpu, |toks|) && Fits(c, other, |toks|)
    ensures var (rows, warm) := Prefill(c, start.cpu, toks[..prompt]);
      rows + GpuDecode(c, n, Sync(c, n, Split(start.gpu, warm), prompt), toks, prompt).0
      == Prefill(c, other, toks).0
  {
    hide Prefill, GpuDecode, HiddenAt, KvRows, Represents;
    var head, tail := toks[..prompt], toks[prompt..];
    assert head + tail == toks;
    PrefillCausal(c, start.cpu, head);
    PrefillCausal(c, other, toks);
    var (rows, warm) := Prefill(c, start.cpu, head);
    var s := Sync(c, n, Split(start.gpu, warm), prompt);
    SyncRepresents(c, n, Split(start.gpu, warm), prompt);
    forall l | 0 <= l < c.nLayers ensures warm[l] == Overwrite(start.cpu[l], KvRows(c, toks, l, prompt)) {
      KvRowsIgnoreFuture(c, head, tail, l, prompt);
    }
    forall j | 0 <= j < prompt ensures HiddenAt(c, toks, c.nLayers, j) == HiddenAt(c, head, c.nLayers, j) {
      HiddenIgnoresFuture(c, head, tail, c.nLayers, j);
    }
    GpuDecodeCausal(c, n, s, start.cpu, warm, toks, prompt);
    var whole := rows + GpuDecode(c, n, s, toks, prompt).0;
    forall j | 0 <= j < |toks| ensures whole[j] == Prefill(c, other, toks).0[j] {
      if j >= prompt { CausalLogitsAt(c, toks, prompt, j - prompt); }
    }
  }

  // ----- generation on the split pipeline -----

  /** Generation without any cache: every step evaluates the causal function on the whole sequence so far. */
  function IdealLoop(c: Decoder, r: Request, toks: seq<int>, cap: nat, i: int): seq<int>
    requires |toks| > 0
    decreases r.maxNew - i
  {
    if !Goes(r, i) then toks
    else
      var t := r.sample(c.logits(HiddenAt(c, toks, c.nLayers, |toks| - 1)), toks, i);
      if r.ends(toks + [t]) || |toks| >= cap then toks + [t] else IdealLoop(c, r, toks + [t], cap, i + 1)
  }

  /** Every layer of the device cache has gpuCap slots, every layer of the host cache cap. */
  ghost predicate SplitSized(c: Decoder, s: Split, gpuCap: nat, cap: nat) {
    Sized(c, s.gpu, gpuCap) && Sized(c, s.cpu, cap)
  }

  /** `forward` with n offloaded layers: `forward_gpu` while the position fits the device cache, otherwise all layers
      on the CPU path, whose cache has no rows of the tokens decoded on the device. */
  function Dispatch(c: Decoder, n: nat, s: Split, tok: int, pos: nat, gpuCap: nat, cap: nat): (r: (Row, Split))
    requires n <= c.nLayers && SplitSized(c, s, gpuCap, cap) && pos < cap
    ensures SplitSized(c, r.1, gpuCap, cap)
  {
    if n > 0 && pos < gpuCap then ForwardGpu(c, n, s, tok, pos)
    else
      var (y, host) := Forward(c, s.cpu, tok, pos, false);
      (y, Split(s.gpu, host))
  }

  /** The loop of `generate` from iteration i. */
  function GpuLoop(c: Decoder, n: nat, r: Request, toks: seq<int>, logits: Row, s: Split, seqLen: nat,
                   gpuCap: nat, cap: nat, i: nat): (o: (seq<int>, Split))
    requires n <= c.nLayers && SplitSized(c, s, gpuCap, cap)
    ensures SplitSized(c, o.1, gpuCap, cap) && |toks| <= |o.0|
    decreases r.maxNew - i
  {
    if !Goes(r, i) then (toks, s)
    else
      var t := r.sample(logits, toks, i);
      if r.ends(toks + [t]) || seqLen >= cap then (toks + [t], s)
      else
        var (y, after) := Dispatch(c, n, s, t, seqLen, gpuCap, cap);
        GpuLoop(c, n, r, toks + [t], y, after, seqLen + 1, gpuCap, cap, i + 1)
  }

  /** `sync_kv_to_gpu` copies nothing when the prompt does not fit the device cache. */
  function SyncIfFits(c: Decoder, n: nat, s: Split, len: nat, gpuCap: nat, cap: nat): (r: Split)
    requires n <= c.nLayers && SplitSized(c, s, gpuCap, cap) && len <= cap
    ensures SplitSized(c, r, gpuCap, cap) && r.cpu == s.cpu
  {
    if len <= gpuCap then Sync(c, n, s, len) else s
  }

  /** `generate` with n offloaded layers: CPU prefill, sync, decoding. */
  function GpuGenerate(c: Decoder, n: nat, r: Request, s: Split, gpuCap: nat, cap: nat): (o: (seq<int>, Split))
    requires n <= c.nLayers && SplitSized(c, s, gpuCap, cap) && 1 <= |r.prompt| <= cap
    ensures SplitSized(c, o.1, gpuCap, cap) && |r.prompt| <= |o.0|
  {
    var (rows, warm) := Prefill(c, s.cpu, r.prompt);
    GpuLoop(c, n, r, r.prompt, rows[|rows| - 1], SyncIfFits(c, n, Split(s.gpu, warm), |r.prompt|, gpuCap, cap),
            |r.prompt|, gpuCap, cap, 0)
  }

  /** Every token that cache-free generation feeds back from iteration i on has a position in the device cache. */
  predicate StaysBelow(c: Decoder, r: Request, toks: seq<int>, gpuCap: nat, cap: nat, i: nat)
    requires |toks| > 0
    decreases r.maxNew - i
  {
    !Goes(r, i) ||
    var t := r.sample(c.logits(HiddenAt(c, toks, c.nLayers, |toks| - 1)), toks, i);
    r.ends(toks + [t]) || |toks| >= cap || (|toks| < gpuCap && StaysBelow(c, r, toks + [t], gpuCap, cap, i + 1))
  }

  /** Two conditions a caller can check: a device cache as large as the host cache, or room for every new token. */
  lemma {:induction false} RoomStaysBelow(c: Decoder, r: Request, toks: seq<int>, gpuCap: nat, cap: nat, i: nat)
    requires |toks| > 0 && (cap <= gpuCap || (i <= r.maxNew ==> |toks| + (r.maxNew - i) <= gpuCap))
    ensures StaysBelow(c, r, toks, gpuCap, cap, i)
    decreases r.maxNew - i
  {
    hide HiddenAt;
    if Goes(r, i) {
      var t := r.sample(c.logits(HiddenAt(c, toks, c.nLayers, |toks| - 1)), toks, i);
      RoomStaysBelow(c, r, toks + [t], gpuCap, cap, i + 1);
    }
  }

  /** The split cache holds the causal rows of all of toks. */
  ghost predicate InStep(c: Decoder, n: nat, toks: seq<int>, s: Split, gpuCap: nat, cap: nat) {
    && n <= c.nLayers && SplitSized(c, s, gpuCap, cap) && 1 <= |toks| <= cap && |toks| <= gpuCap
    && (forall l :: 0 <= l < n ==> s.gpu[l][..|toks|] == KvRows(c, toks, l, |toks|))
    && (forall l :: n <= l < c.nLayers ==> s.cpu[l][..|toks|] == KvRows(c, toks, l, |toks|))
  }

  /** A cache with room for one more row, holding exactly the causal rows of toks. */
  function CausalCache(c: Decoder, toks: seq<int>): (r: Cache)
    ensures |r| == c.nLayers && forall l :: 0 <= l < |r| ==> |r[l]| == |toks| + 1
  {
    seq(c.nLayers, l requires 0 <= l < c.nLayers => KvRows(c, toks, l, |toks|) + [KV([], [])])
  }

  lemma CausalCacheHolds(c: Decoder, toks: seq<int>, t: int)
    ensures Holds(c, toks + [t], CausalCache(c, toks), CausalCache(c, toks), |toks|, 0)
  {
    forall i | 0 <= i < c.nLayers
      ensures CausalCache(c, toks)[i] == Overwrite(CausalCache(c, toks)[i], KvRows(c, toks + [t], i, |toks|))
    {
      KvRowsIgnoreFuture(c, toks, [t], i, |toks|);
    }
  }

  lemma InStepRepresents(c: Decoder, n: nat, toks: seq<int>, s: Split, gpuCap: nat, cap: nat)
    requires InStep(c, n, toks, s, gpuCap, cap) && |toks| < cap && |toks| < gpuCap
    ensures Represents(c, n, s, CausalCache(c, toks), |toks|)
  {
  }

  lemma {:induction false} InStepNext(c: Decoder, n: nat, toks: seq<int>, t: int, s: Split, gpuCap: nat, cap: nat)
    requires InStep(c, n, toks, s, gpuCap, cap) && |toks| < cap && |toks| < gpuCap
    ensures InStep(c, n, toks + [t], ForwardGpu(c, n, s, t, |toks|).1, gpuCap, cap)
    ensures ForwardGpu(c, n, s, t, |toks|).0 == c.logits(HiddenAt(c, toks + [t], c.nLayers, |toks|))
  {
    hide HiddenAt, KvRows, ForwardGpu, Represents, Holds;
    var ref := CausalCache(c, toks);
    CausalCacheHolds(c, toks, t);
    InStepRepresents(c, n, toks, s, gpuCap, cap);
    StepFromCausalCache(c, n, toks + [t], ref, s);
  }

  lemma {:induction false} StepFromCausalCache(c: Decoder, n: nat, toks: seq<int>, ref: Cache, s: Split)
    requires |toks| > 0 && Fits(c, s.gpu, |toks|) && Fits(c, s.cpu, |toks|) && Fits(c, ref, |toks|)
    requires Holds(c, toks, ref, ref, |toks| - 1, 0) && Represents(c, n, s, ref, |toks| - 1)
    ensures var r := ForwardGpu(c, n, s, toks[|toks| - 1], |toks| - 1);
      && r.0 == c.logits(HiddenAt(c, toks, c.nLayers, |toks| - 1))
      && (forall l :: 0 <= l < n ==> r.1.gpu[l][..|toks|] == KvRows(c, toks, l, |toks|))
      && (forall l :: n <= l < c.nLayers ==> r.1.cpu[l][..|toks|] == KvRows(c, toks, l, |toks|))
  {
    var t, pos := toks[|toks| - 1], |toks| - 1;
    ForwardGpuRefinesForward(c, n, s, ref, t, pos);
    ForwardCausal(c, toks, ref, ref, pos);
    RowsOfHolds(c, n, toks, ref, Forward(c, ref, t, pos, true).1, ForwardGpu(c, n, s, t, pos).1);
  }

  lemma RowsOfHolds(c: Decoder, n: nat, toks: seq<int>, base: Cache, ref: Cache, s: Split)
    requires Holds(c, toks, base, ref, |toks|, 0) && Represents(c, n, s, ref, |toks|)
    ensures forall l :: 0 <= l < n ==> s.gpu[l][..|toks|] == KvRows(c, toks, l, |toks|)
    ensures forall l :: n <= l < c.nLayers ==> s.cpu[l][..|toks|] == KvRows(c, toks, l, |toks|)
  {
    forall l | 0 <= l < c.nLayers ensures ref[l][..|toks|] == KvRows(c, toks, l, |toks|) {
      assert Overwrite(base[l], KvRows(c, toks, l, |toks|))[..|toks|] == KvRows(c, toks, l, |toks|);
    }
  }

  lemma GpuLoopStep(c: Decoder, n: nat, r: Request, toks: seq<int>, logits: Row, s: Split, seqLen: nat,
                    gpuCap: nat, cap: nat, i: nat)
    requires n <= c.nLayers && SplitSized(c, s, gpuCap, cap) && Goes(r, i)
    requires !r.ends(toks + [r.sample(logits, toks, i)]) && seqLen < cap
    ensures var t := r.sample(logits, toks, i);
      var step := Dispatch(c, n, s, t, seqLen, gpuCap, cap);
      && SplitSized(c, step.1, gpuCap, cap)
      && GpuLoop(c, n, r, toks, logits, s, seqLen, gpuCap, cap, i)
         == GpuLoop(c, n, r, toks + [t], step.0, step.1, seqLen + 1, gpuCap, cap, i + 1)
  {
  }

  lemma {:induction false} GpuLoopIsIdeal(c: Decoder, n: nat, r: Request, toks: seq<int>, logits: Row, s: Split,
                                          gpuCap: nat, cap: nat, i: nat)
    requires n > 0 && InStep(c, n, toks, s, gpuCap, cap) && StaysBelow(c, r, toks, gpuCap, cap, i)
    requires logits == c.logits(HiddenAt(c, toks, c.nLayers, |toks| - 1))
    ensures GpuLoop(c, n, r, toks, logits, s, |toks|, gpuCap, cap, i).0 == IdealLoop(c, r, toks, cap, i)
    decreases r.maxNew - i
  {
    hide HiddenAt, KvRows, ForwardGpu;

    if Goes(r, i) {
      var t := r.sample(logits, toks, i);
      if !r.ends(toks + [t]) && |toks| < cap {
        InStepNext(c, n, toks, t, s, gpuCap, cap);
        GpuLoopStep(c, n, r, toks, logits, s, |toks|, gpuCap, cap, i);
        var step := ForwardGpu(c, n, s, t, |toks|);
        GpuLoopIsIdeal(c, n, r, toks + [t], step.0, step.1, gpuCap, cap, i + 1);
      }
    }
  }

  /** Generation on the split pipeline yields exactly the tokens of cache-free generation, whatever the two
      caches held before and whichever layers are offloaded, as long as the run stays in the device cache. */
  lemma GpuGenerateIsIdeal(c: Decoder, n: nat, r: Request, s: Split, gpuCap: nat, cap: nat)
    requires 0 < n <= c.nLayers && SplitSized(c, s, gpuCap, cap) && 1 <= |r.prompt| <= cap
    requires StaysBelow(c, r, r.prompt, gpuCap, cap, 0)
    ensures GpuGenerate(c, n, r, s, gpuCap, cap).0 == IdealLoop(c, r, r.prompt, cap, 0)
  {
    var (rows, warm) := Prefill(c, s.cpu, r.prompt);
    PrefillCausal(c, s.cpu, r.prompt);
    if |r.prompt| <= gpuCap {
      hide HiddenAt, KvRows, GpuLoop, IdealLoop, StaysBelow;
      SyncInStep(c, n, r.prompt, s.cpu, Split(s.gpu, warm), gpuCap, cap);
      GpuLoopIsIdeal(c, n, r, r.prompt, rows[|r.prompt| - 1], Sync(c, n, Split(s.gpu, warm), |r.prompt|), gpuCap, cap,
                     0);
    }
  }

  /** Without offloaded layers, or once the device cache is full, decoding is CPU decoding on the host cache. */
  lemma {:induction false} GpuLoopIsCpuLoop(c: Decoder, n: nat, r: Request, toks: seq<int>, logits: Row, s: Split,
                                            seqLen: nat, gpuCap: nat, cap: nat, i: nat)
    requires n <= c.nLayers && SplitSized(c, s, gpuCap, cap) && (n == 0 || seqLen >= gpuCap)
    ensures GpuLoop(c, n, r, toks, logits, s, seqLen, gpuCap, cap, i).0
         == DecodeLoop(c, r, toks, logits, s.cpu, seqLen, cap, i).0
    decreases r.maxNew - i
  {
    hide Forward, ForwardGpu;
    if Goes(r, i) {
      var t := r.sample(logits, toks, i);
      if !r.ends(toks + [t]) && seqLen < cap {
        var (y, after) := Dispatch(c, n, s, t, seqLen, gpuCap, cap);
        GpuLoopIsCpuLoop(c, n, r, toks + [t], y, after, seqLen + 1, gpuCap, cap, i + 1);
      }
    }
  }

  /** A prompt that fills the device cache is decoded as if no layer were offloaded. */
  lemma GpuGenerateOnCpu(c: Decoder, n: nat, r: Request, s: Split, gpuCap: nat, cap: nat)
    requires n <= c.nLayers && SplitSized(c, s, gpuCap, cap) && 1 <= |r.prompt| <= cap
    requires n == 0 || |r.prompt| >= gpuCap
    ensures GpuGenerate(c, n, r, s, gpuCap, cap).0 == Generate(c, r, s.cpu, cap).0
  {
    hide GpuLoop, DecodeLoop, Prefill;
    var (rows, warm) := Prefill(c, s.cpu, r.prompt);
    GpuLoopIsCpuLoop(c, n, r, r.prompt, rows[|rows| - 1], SyncIfFits(c, n, Split(s.gpu, warm), |r.prompt|, gpuCap, cap),
                     |r.prompt|, gpuCap, cap, 0);
  }

  lemma SyncInStep(c: Decoder, n: nat, toks: seq<int>, base: Cache, s: Split, gpuCap: nat, cap: nat)
    requires n <= c.nLayers && SplitSized(c, s, gpuCap, cap) && 1 <= |toks| <= cap && |toks| <= gpuCap
    requires Holds(c, toks, base, s.cpu, |toks|, 0)
    ensures InStep(c, n, toks, Sync(c, n, s, |toks|), gpuCap, cap)
  {
    SyncRepresents(c, n, s, |toks|);
    RowsOfHolds(c, n, toks, base, s.cpu, Sync(c, n, s, |toks|));
  }
}
