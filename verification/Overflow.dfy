/** Long runs. */
module Overflow {
  // Past the device cache `forward` falls back to the CPU. The host cache it then reads has no rows of the tokens
  // decoded on the device for the offloaded layers; what stands there was left by earlier requests.

  import opened Rows
  import opened Chain
  import opened Causal
  import opened Decode
  import opened Mixed
  import opened TinyNet
  import opened DeviceWeights
  import N = Net
  import GpuModel

  /** The host cache an earlier request leaves; the device cache is cleared before every request. */
  function HostAfter(c: Decoder, n: nat, blank: Split, before: Request, gpuCap: nat, cap: nat): (s: Split)
    requires 0 < n <= c.nLayers && SplitSized(c, blank, gpuCap, cap) && 1 <= |before.prompt| <= cap
    ensures SplitSized(c, s, gpuCap, cap)
  {
    Split(blank.gpu, GpuGenerate(c, n, before, blank, gpuCap, cap).1.cpu)
  }

  /** The answer to r does not depend on which of two requests was served before it. */
  ghost predicate SameAfter(c: Decoder, n: nat, blank: Split, first: Request, second: Request, r: Request, gpuCap: nat,
                            cap: nat)
    requires 0 < n <= c.nLayers && SplitSized(c, blank, gpuCap, cap)
    requires 1 <= |first.prompt| <= cap && 1 <= |second.prompt| <= cap && 1 <= |r.prompt| <= cap
  {
    GpuGenerate(c, n, r, HostAfter(c, n, blank, first, gpuCap, cap), gpuCap, cap).0
    == GpuGenerate(c, n, r, HostAfter(c, n, blank, second, gpuCap, cap), gpuCap, cap).0
  }

  /** A loaded network with n offloaded layers, the first `half` of them in F16 and the others in INT8: every product
      takes the weights the device holds. */
  ghost function Loaded(net: N.Net, half: nat, n: nat): (c: Decoder)
    requires GpuModel.DeviceShaped(net) && half <= n <= |net.layers|
    ensures c.nLayers == |net.layers|
  {
    N.Of(DeviceNet(net, Offloaded(net, half, n)))
  }

  /** No network with offloaded layers, no earlier call and no draws make a difference to a call with a prompt of length
      p. */
  ghost predicate Isolated(f: Fns, p: nat, gpuCap: nat, cap: nat)
    requires 1 <= p <= cap
  {
    forall net: N.Net, half: nat, n: nat, blank: Split, first: Call, second: Call, q: Call ::
      Proper(f, net) && half <= n && 0 < n <= |net.layers| && SplitSized(Loaded(net, half, n), blank, gpuCap, cap)
      && ValidCall(first) && ValidCall(second) && ValidCall(q)
      && 1 <= |first.prompt| <= cap && 1 <= |second.prompt| <= cap && |q.prompt| == p
      ==> SameAfter(Loaded(net, half, n), n, blank, RequestOf(f, first), RequestOf(f, second), RequestOf(f, q),
                    gpuCap, cap)
  }

  /** What one answer is does not depend on the caches, in either safe case. */
  lemma AnswerFromRequest(c: Decoder, n: nat, r: Request, s: Split, other: Split, gpuCap: nat, cap: nat)
    requires 0 < n <= c.nLayers && SplitSized(c, s, gpuCap, cap) && SplitSized(c, other, gpuCap, cap)
    requires 1 <= |r.prompt| <= cap && (|r.prompt| >= gpuCap || StaysBelow(c, r, r.prompt, gpuCap, cap, 0))
    ensures GpuGenerate(c, n, r, s, gpuCap, cap).0 == GpuGenerate(c, n, r, other, gpuCap, cap).0
  {
    hide GpuGenerate, StaysBelow;
    if |r.prompt| >= gpuCap {
      GpuGenerateIsMixed(c, n, r, s, gpuCap, cap);
      GpuGenerateIsMixed(c, n, r, other, gpuCap, cap);
    } else {
      GpuGenerateIsIdeal(c, n, r, s, gpuCap, cap);
      GpuGenerateIsIdeal(c, n, r, other, gpuCap, cap);
    }
  }

  // ----- a run that outgrows it -----

  /** Greedy decoding of p zeros until one token past the device cache has been sampled. */
  function Long(p: nat, gpuCap: nat): Call
    requires p < gpuCap
  {
    Greedy(Repeat(0, p), gpuCap - p + 2)
  }

  /** An earlier call: n times token k, nothing generated. */
  function Filler(k: int, n: nat): Call { Greedy(Repeat(k, n), 0) }

  /** The value entry that token k leaves in the cache. */
  function Left(f: Fns, k: int): real { if k == 0 then 0.0 else Unit(f, 0.0) }

  /** How strongly attention counts, chosen so that the stale rows tip the balance. */
  function Strength(f: Fns, p: nat, gpuCap: nat): real
    requires p < gpuCap
  {
    var m := Mean(gpuCap, p, Unit(f, 0.0));
    if m == 0.0 then 0.0 else 2.0 / m
  }

  /** Both tokens predict token 0 unless attention finds something. */
  function LeakNet(f: Fns, p: nat, gpuCap: nat): N.Net
    requires p < gpuCap
  {
    Tiny(f, 0.0, Strength(f, p, gpuCap))
  }

  function Leaky(f: Fns, p: nat, gpuCap: nat): (c: Decoder)
    requires p < gpuCap
    ensures c.nLayers == 1
  {
    N.Of(LeakNet(f, p, gpuCap))
  }

  lemma StrengthTips(f: Fns, p: nat, gpuCap: nat)
    requires RootLaw(f) && p < gpuCap
    ensures Mean(gpuCap, p, Left(f, 0)) * Strength(f, p, gpuCap) == 0.0
    ensures Mean(gpuCap, p, Left(f, 1)) * Strength(f, p, gpuCap) == 2.0
  {
    FactorPositive(f, 0.0, 1.0);
    MeanPositive(gpuCap, p, Unit(f, 0.0));
    MeanPositive(gpuCap, p, 0.0);
  }

  /** Host rows 0..p-1 are those of token 0, rows p..n-1 hold u. */
  ghost predicate Stale(s: Split, p: nat, n: nat, u: real) {
    |s.cpu| == 1 && n <= |s.cpu[0]| && forall t :: 0 <= t < n ==> At(s.cpu[0][t].v, 0) == if t < p then 0.0 else u
  }

  /** A token decoded on the device leaves the host cache alone when every layer is offloaded. */
  lemma DeviceStepKeepsHost(c: Decoder, s: Split, pos: nat, gpuCap: nat, cap: nat)
    requires c.nLayers == 1 && SplitSized(c, s, gpuCap, cap) && pos < gpuCap < cap
    ensures Dispatch(c, 1, s, 0, pos, gpuCap, cap).1.cpu == s.cpu
  {
  }

  /** Among zeros, the logits of 1, 0 give token 0 and those of 1, 2 give token 1. */
  lemma Sampled(f: Fns, beta: real, q: Call, n: nat, i: int, r: real)
    requires Laws(f) && q == Greedy(q.prompt, q.maxNew) && n > 0 && (r == 0.0 || r == 2.0)
    ensures RequestOf(f, q).sample(N.Logits(Tiny(f, 0.0, beta), Duo(1.0, r)), Repeat(0, n), i)
         == if r == 0.0 then 0 else 1
  {
    hide N.Logits, Factor, Drawn;
    RepeatHas(n);
    LogitsTwo(f, 0.0, beta, 1.0, r);
    FactorPositive(f, 1.0, r);
    var y := N.Logits(Tiny(f, 0.0, beta), Duo(1.0, r));
    if r == 2.0 { Preferred(2.0, 1.0, Factor(f, 1.0, r), false, true); }
    GreedyTakes(f, q.prompt, q.maxNew, y, Repeat(0, n), i, if r == 0.0 then 0 else 1);
  }

  /** After zeros only, token 0 is sampled. */
  lemma ZeroSampled(f: Fns, p: nat, gpuCap: nat, n: nat, i: int)
    requires Laws(f) && p < gpuCap && n > 0
    ensures RequestOf(f, Long(p, gpuCap)).sample(
              Leaky(f, p, gpuCap).logits(HiddenAt(Leaky(f, p, gpuCap), Repeat(0, n), 1, n - 1)), Repeat(0, n), i) == 0
  {
    hide N.Logits, HiddenAt, Drawn, Strength;
    ZerosHidden(f, 0.0, Strength(f, p, gpuCap), Repeat(0, n), n - 1);
    Sampled(f, Strength(f, p, gpuCap), Long(p, gpuCap), n, i, 0.0);
  }

  /** The first position past the device cache: the logits show what the stale rows hold. */
  lemma FirstCpuStep(f: Fns, p: nat, gpuCap: nat, cap: nat, s: Split, k: int)
    requires Laws(f) && p < gpuCap < cap && 0 <= k < 2
    requires SplitSized(Leaky(f, p, gpuCap), s, gpuCap, cap) && Stale(s, p, gpuCap, Left(f, k))
    ensures Dispatch(Leaky(f, p, gpuCap), 1, s, 0, gpuCap, gpuCap, cap).0
         == N.Logits(LeakNet(f, p, gpuCap), Duo(1.0, if k == 0 then 0.0 else 2.0))
  {
    hide N.Project, N.Finish, N.Attend, N.Logits, Mean, Strength, Unit;
    var c, rows := Leaky(f, p, gpuCap), s.cpu[0][..gpuCap];
    var r := if k == 0 then 0.0 else 2.0;
    StrengthTips(f, p, gpuCap);
    assert Values(rows, p, 0.0, Left(f, k));
    StepTwo(f, 0.0, Strength(f, p, gpuCap), 1.0, 0.0, gpuCap, rows, p, Left(f, k), r);
    var (x, lc) := StepLayer(c, 0, Duo(1.0, 0.0), s.cpu[0], gpuCap, false);
    assert x == Duo(1.0, r);
    assert StepFrom(c, 0, Duo(1.0, 0.0), s.cpu, gpuCap, false).0 == StepFrom(c, 1, x, s.cpu[0 := lc], gpuCap, false).0
      == x;
  }

  lemma RepeatMore(n: nat)
    ensures Repeat(0, n) + [0] == Repeat(0, n + 1)
  {
  }

  /** Zeros are decoded on the device up to its last slot, then one on the CPU; the last token shows the stale rows. */
  lemma {:induction false} LongLoop(f: Fns, p: nat, gpuCap: nat, cap: nat, k: int, logits: Row, s: Split, i: nat)
    requires Laws(f) && 1 <= p < gpuCap < cap && 0 <= k < 2 && i <= gpuCap - p
    requires InStep(Leaky(f, p, gpuCap), 1, Repeat(0, p + i), s, gpuCap, cap) && Stale(s, p, gpuCap, Left(f, k))
    requires logits == Leaky(f, p, gpuCap).logits(HiddenAt(Leaky(f, p, gpuCap), Repeat(0, p + i), 1, p + i - 1))
    ensures GpuLoop(Leaky(f, p, gpuCap), 1, RequestOf(f, Long(p, gpuCap)), Repeat(0, p + i), logits, s, p + i, gpuCap,
                    cap, i).0
         == Repeat(0, gpuCap + 1) + [k]
    decreases gpuCap - i
  {
    hide Dispatch, GpuLoop, HiddenAt, Drawn, Leaky, Laws, Stale, ForwardGpu;
    var c, q, toks := Leaky(f, p, gpuCap), Long(p, gpuCap), Repeat(0, p + i);
    var r := RequestOf(f, q);
    assert SplitSized(c, s, gpuCap, cap);
    ZeroSampled(f, p, gpuCap, p + i, i);
    RepeatMore(p + i);
    GpuLoopStep(c, 1, r, toks, logits, s, p + i, gpuCap, cap, i);
    var (y, after) := Dispatch(c, 1, s, 0, p + i, gpuCap, cap);
    if p + i < gpuCap {
      DeviceStepKeepsHost(c, s, p + i, gpuCap, cap);
      DeviceStep(c, toks, s, gpuCap, cap);
      StaleHost(s, after, p, gpuCap, Left(f, k));
      LongLoop(f, p, gpuCap, cap, k, y, after, i + 1);
    } else {
      FirstCpuStep(f, p, gpuCap, cap, s, k);
      Sampled(f, Strength(f, p, gpuCap), q, gpuCap + 1, i + 1, if k == 0 then 0.0 else 2.0);
      LastTwo(c, 1, r, Repeat(0, gpuCap + 1), y, after, gpuCap + 1, gpuCap, cap);
    }
  }

  lemma StaleHost(s: Split, after: Split, p: nat, n: nat, u: real)
    requires Stale(s, p, n, u) && after.cpu == s.cpu
    ensures Stale(after, p, n, u)
  {
  }

  /** A device step on zeros keeps the split cache in step with them. */
  lemma DeviceStep(c: Decoder, toks: seq<int>, s: Split, gpuCap: nat, cap: nat)
    requires c.nLayers == 1 && InStep(c, 1, toks, s, gpuCap, cap) && |toks| < gpuCap < cap
    ensures var (y, after) := Dispatch(c, 1, s, 0, |toks|, gpuCap, cap);
      InStep(c, 1, toks + [0], after, gpuCap, cap) && y == c.logits(HiddenAt(c, toks + [0], 1, |toks|))
  {
    hide HiddenAt, KvRows, ForwardGpu;
    InStepNext(c, 1, toks, 0, s, gpuCap, cap);
  }

  /** The last iteration appends the sampled token, whether or not it is fed back. */
  lemma LastTwo(c: Decoder, n: nat, r: Request, toks: seq<int>, logits: Row, s: Split, seqLen: nat, gpuCap: nat,
                cap: nat)
    requires n <= c.nLayers && SplitSized(c, s, gpuCap, cap) && r.maxNew > 0 && Goes(r, r.maxNew - 1)
    ensures GpuLoop(c, n, r, toks, logits, s, seqLen, gpuCap, cap, r.maxNew - 1).0
         == toks + [r.sample(logits, toks, r.maxNew - 1)]
  {
    hide Dispatch;
  }

  /** The value rows a prompt of token k leaves. */
  lemma PromptValues(f: Fns, p: nat, gpuCap: nat, k: int, n: nat, t: nat)
    requires p < gpuCap && 0 <= k < 2 && t < n
    ensures At(KvRows(Leaky(f, p, gpuCap), Repeat(k, n), 0, n)[t].v, 0) == Left(f, k)
  {
    hide N.Project, Strength;
    var x := if k == 0 then 1.0 else 0.0;
    ValueOf(f, 0.0, Strength(f, p, gpuCap), x, 1.0 - x, t);
    assert HiddenAt(Leaky(f, p, gpuCap), Repeat(k, n), 0, t) == Duo(x, 1.0 - x);
  }

  /** An earlier call of gpuCap times token k leaves its rows in the host cache. */
  lemma AfterFiller(f: Fns, p: nat, k: int, blank: Split, gpuCap: nat, cap: nat)
    requires p < gpuCap < cap && 0 <= k < 2 && SplitSized(Leaky(f, p, gpuCap), blank, gpuCap, cap)
    ensures Stale(HostAfter(Leaky(f, p, gpuCap), 1, blank, RequestOf(f, Filler(k, gpuCap)), gpuCap, cap), 0, gpuCap,
                  Left(f, k))
  {
    hide KvRows, Drawn, Left, Leaky;
    var c, toks := Leaky(f, p, gpuCap), Repeat(k, gpuCap);
    PrefillCausal(c, blank.cpu, toks);
    forall t: nat | t < gpuCap ensures At(KvRows(c, toks, 0, gpuCap)[t].v, 0) == Left(f, k) {
      PromptValues(f, p, gpuCap, k, gpuCap, t);
    }
  }

  /** The prompt overwrites its own rows only. */
  lemma PromptStale(f: Fns, p: nat, gpuCap: nat, cap: nat, s: Split, u: real, gpu: Cache)
    requires 1 <= p < gpuCap < cap && SplitSized(Leaky(f, p, gpuCap), s, gpuCap, cap) && Stale(s, 0, gpuCap, u)
    ensures Stale(Split(gpu, Prefill(Leaky(f, p, gpuCap), s.cpu, Repeat(0, p)).1), p, gpuCap, u)
  {
    hide KvRows, Prefill, Leaky;
    var c, toks := Leaky(f, p, gpuCap), Repeat(0, p);
    PrefillCausal(c, s.cpu, toks);
    forall t: nat | t < p ensures At(KvRows(c, toks, 0, p)[t].v, 0) == 0.0 { PromptValues(f, p, gpuCap, 0, p, t); }
  }

  lemma LongAfter(f: Fns, p: nat, gpuCap: nat, cap: nat, s: Split, k: int)
    requires Laws(f) && 1 <= p < gpuCap < cap && 0 <= k < 2
    requires SplitSized(Leaky(f, p, gpuCap), s, gpuCap, cap) && Stale(s, 0, gpuCap, Left(f, k))
    ensures GpuGenerate(Leaky(f, p, gpuCap), 1, RequestOf(f, Long(p, gpuCap)), s, gpuCap, cap).0
         == Repeat(0, gpuCap + 1) + [k]
  {
    hide GpuLoop, Prefill, Stale, HiddenAt, KvRows, Drawn, Leaky, InStep, Sync, Laws;
    var c, toks := Leaky(f, p, gpuCap), Repeat(0, p);
    var (rows, warm) := Prefill(c, s.cpu, toks);
    PrefillCausal(c, s.cpu, toks);
    SyncInStep(c, 1, toks, s.cpu, Split(s.gpu, warm), gpuCap, cap);
    var ready := SyncIfFits(c, 1, Split(s.gpu, warm), p, gpuCap, cap);
    PromptStale(f, p, gpuCap, cap, s, Left(f, k), ready.gpu);
    LongLoop(f, p, gpuCap, cap, k, rows[p - 1], ready, 0);
  }

  lemma OverflowLeaks(f: Fns, p: nat, gpuCap: nat, cap: nat, blank: Split)
    requires Laws(f) && 1 <= p < gpuCap < cap && SplitSized(Leaky(f, p, gpuCap), blank, gpuCap, cap)
    ensures !SameAfter(Leaky(f, p, gpuCap), 1, blank, RequestOf(f, Filler(0, gpuCap)), RequestOf(f, Filler(1, gpuCap)),
                       RequestOf(f, Long(p, gpuCap)), gpuCap, cap)
  {
    hide GpuGenerate, HostAfter, Stale, Leaky, Drawn, Left, Laws;
    var c := Leaky(f, p, gpuCap);
    AfterFiller(f, p, 0, blank, gpuCap, cap);
    AfterFiller(f, p, 1, blank, gpuCap, cap);
    LongAfter(f, p, gpuCap, cap, HostAfter(c, 1, blank, RequestOf(f, Filler(0, gpuCap)), gpuCap, cap), 0);
    LongAfter(f, p, gpuCap, cap, HostAfter(c, 1, blank, RequestOf(f, Filler(1, gpuCap)), gpuCap, cap), 1);
    var all := Repeat(0, gpuCap + 1);
    assert (all + [0])[|all|] == 0 && (all + [1])[|all|] == 1;
  }

  lemma NotIsolated(f: Fns, p: nat, gpuCap: nat, cap: nat)
    requires Laws(f) && 1 <= p < gpuCap < cap
    ensures !Isolated(f, p, gpuCap, cap)
  {
    hide SameAfter, Drawn, Laws;
    var net, blank := LeakNet(f, p, gpuCap), Split([Blank(gpuCap)], [Blank(cap)]);
    TinyIsProper(f, 0.0, Strength(f, p, gpuCap));
    OverflowLeaks(f, p, gpuCap, cap, blank);
    DeviceNetSizes(net, 1, 1);
    assert Loaded(net, 1, 1) == Leaky(f, p, gpuCap);
  }

  /** Calls with a prompt of length p are isolated from earlier ones on every network with offloaded layers if and only
      if the prompt fills the device cache or the device cache is as large as the host cache. */
  lemma {:induction false} IsolatedIff(f: Fns, p: nat, gpuCap: nat, cap: nat)
    requires Laws(f) && 1 <= p <= cap
    ensures Isolated(f, p, gpuCap, cap) <==> p >= gpuCap || cap <= gpuCap
  {
    if p < gpuCap < cap {
      NotIsolated(f, p, gpuCap, cap);
    } else {
      hide GpuGenerate, Drawn, HostAfter, Loaded;
      forall net: N.Net, half: nat, n: nat, blank: Split, first: Call, second: Call, q: Call
        | Proper(f, net) && half <= n && 0 < n <= |net.layers| && SplitSized(Loaded(net, half, n), blank, gpuCap, cap)
          && ValidCall(first) && ValidCall(second) && ValidCall(q)
          && 1 <= |first.prompt| <= cap && 1 <= |second.prompt| <= cap && |q.prompt| == p
        ensures SameAfter(Loaded(net, half, n), n, blank, RequestOf(f, first), RequestOf(f, second), RequestOf(f, q),
                          gpuCap, cap)
      {
        var c, r := Loaded(net, half, n), RequestOf(f, q);
        if p < gpuCap { RoomStaysBelow(c, r, r.prompt, gpuCap, cap, 0); }
        AnswerFromRequest(c, n, r, HostAfter(c, n, blank, RequestOf(f, first), gpuCap, cap),
                          HostAfter(c, n, blank, RequestOf(f, second), gpuCap, cap), gpuCap, cap);
      }
    }
  }
}
