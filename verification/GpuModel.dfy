/** `Model::forward_gpu`: the leading layers run on seven scratch buffers that are reused in place, the rest on the
    CPU tail. */
module GpuModel {
  import opened Arith
  import opened Rows
  import opened Chain
  import opened Net
  import opened Prelude
  import opened KvCaches
  import opened Attention
  import opened GpuKernels
  import opened GpuCache
  import opened DeviceWeights
  import CpuModel
  import Decode
  import Mixed

  /** Weight shapes as loaded, with the size relations the buffer reuse depends on: w_o's output and w_down's
      output land in the gate buffer, so hidden must not exceed intermediate. */
  ghost predicate DeviceShaped(net: Net) {
    && CpuModel.Shaped(net)
    && 0 < net.cfg.hidden <= net.cfg.inter
    && net.cfg.headDim % 4 == 0
    && net.cfg.nHeads * net.cfg.headDim <= net.cfg.inter
    && |net.outNorm| == net.cfg.hidden
    && AllSized(net)
    && (forall t :: 0 <= t < |net.embed| ==> |net.embed[t]| == net.cfg.hidden)
  }

  /** (a): norm into d_norm and the three projections from it. */
  method NormProjectD(net: Net, w: Layer, d: LayerOnDevice, dx: array<real>, dnrm: array<real>, dq: array<real>,
                      dk: array<real>, dv: array<real>)
    requires net.cfg.hidden > 0 && LayerSizes(net.cfg, w) && Held(w, d) == w
    requires dx.Length == net.cfg.hidden <= dnrm.Length && dq.Length == net.cfg.nHeads * net.cfg.headDim
    requires dk.Length == dv.Length == net.cfg.nKv * net.cfg.headDim
    requires dx !in {dnrm, dq, dk, dv} && dnrm !in {dq, dk, dv} && dq !in {dk, dv} && dk != dv
    modifies dnrm, dq, dk, dv
    ensures var a := RmsNorm(net.fns, dx[..], w.attnNorm, net.cfg.eps);
      dq[..] == MatVec(a, w.wq) && dk[..] == MatVec(a, w.wk) && dv[..] == MatVec(a, w.wv)
  {
    ghost var a := RmsNorm(net.fns, dx[..], w.attnNorm, net.cfg.eps);
    assert dx[..net.cfg.hidden] == dx[..];
    RmsNormD(net.fns, dnrm, dx, w.attnNorm, net.cfg.eps, net.cfg.hidden);
    DispatchWholeD(dq, dnrm, d.wq, net.cfg.hidden, a);
    DispatchWholeD(dk, dnrm, d.wk, net.cfg.hidden, a);
    DispatchWholeD(dv, dnrm, d.wv, net.cfg.hidden, a);
  }

  /** (a), (b): projections, then the rotation of q and k in place. */
  method ProjectD(net: Net, l: nat, d: LayerOnDevice, pos: nat, dx: array<real>, dnrm: array<real>, dq: array<real>,
                  dk: array<real>, dv: array<real>)
    requires DeviceShaped(net) && l < |net.layers| && Held(net.layers[l], d) == net.layers[l]
    requires dx.Length == net.cfg.hidden <= dnrm.Length && dq.Length == net.cfg.nHeads * net.cfg.headDim
    requires dk.Length == dv.Length == net.cfg.nKv * net.cfg.headDim
    requires dx !in {dnrm, dq, dk, dv} && dnrm !in {dq, dk, dv} && dq !in {dk, dv} && dk != dv
    modifies dnrm, dq, dk, dv
    ensures QKV(dq[..], KV(dk[..], dv[..])) == Project(net, l, dx[..], pos)
  {
    NormProjectD(net, net.layers[l], d, dx, dnrm, dq, dk, dv);
    RopeD(net.fns, dq, net.cfg.nHeads, net.cfg.headDim, pos);
    RopeD(net.fns, dk, net.cfg.nKv, net.cfg.headDim, pos);
  }

  /** (c): the key/value row of the current token is written to slot pos of layer l. */
  method StoreD(dk: array<real>, dv: array<real>, kc: array<real>, vc: array<real>, w: nat, layers: nat, l: nat,
                pos: nat)
    requires l < layers && pos < GPU_MAX_SEQ && dk.Length == dv.Length == w
    requires kc.Length == vc.Length == layers * (GPU_MAX_SEQ * w)
    requires kc !in {dk, dv, vc} && vc !in {dk, dv}
    modifies kc, vc
    ensures var before := old(DeviceValue(kc[..], vc[..], w, layers));
      DeviceValue(kc[..], vc[..], w, layers) == before[l := Store(before[l], pos, KV(old(dk[..]), old(dv[..])))]
  {
    PatchDevice(kc[..], vc[..], w, layers, l, pos, dk[..], dv[..]);
    KvWriteD(dk, kc, w, layers, l, pos);
    KvWriteD(dv, vc, w, layers, l, pos);
  }

  /** (d): the query attends to slots 0..pos of layer l and the result overwrites d_norm. */
  method AttendD(net: Net, l: nat, pos: nat, dnrm: array<real>, dq: array<real>, kc: array<real>, vc: array<real>,
                 w: nat, layers: nat)
    requires ExpLaw(net.fns) && Heads(net.cfg) && net.cfg.headDim % 4 == 0 && w == net.cfg.nKv * net.cfg.headDim
    requires l < layers && pos < GPU_MAX_SEQ && dq.Length == net.cfg.nHeads * net.cfg.headDim <= dnrm.Length
    requires kc.Length == vc.Length == layers * (GPU_MAX_SEQ * w)
    requires dnrm !in {dq, kc, vc}
    modifies dnrm
    ensures |Attend(net, dq[..], DeviceValue(kc[..], vc[..], w, layers)[l][..pos + 1])| == dq.Length
    ensures dnrm[..dq.Length] == Attend(net, dq[..], DeviceValue(kc[..], vc[..], w, layers)[l][..pos + 1])
  {
    assert DeviceValue(kc[..], vc[..], w, layers)[l] == DeviceLayer(kc[..], vc[..], w, layers, l);
    AttentionD(net, dq, kc, vc, w, layers, l, pos + 1, dnrm);
  }

  /** (e), (f): the sub-norm moves the attention output from d_norm to d_q, w_o's output goes to d_gate, and
      the residual is added into d_x in place. */
  method AttnResidualD(net: Net, l: nat, d: LayerOnDevice, dx: array<real>, dnrm: array<real>, dq: array<real>,
                       dgt: array<real>, ghost attn: Row)
    requires DeviceShaped(net) && l < |net.layers| && Held(net.layers[l], d) == net.layers[l]
    requires |attn| == net.cfg.nHeads * net.cfg.headDim == dq.Length <= dnrm.Length && dnrm[..|attn|] == attn
    requires dx.Length == net.cfg.hidden <= dgt.Length
    requires dx !in {dnrm, dq, dgt} && dnrm !in {dq, dgt} && dq != dgt
    modifies dx, dq, dgt
    ensures dx[..] == AttnResidual(net, l, old(dx[..]), attn)
  {
    var hq := net.cfg.nHeads * net.cfg.headDim;
    var w := net.layers[l];
    ghost var x, a := dx[..], SubNorm(net, w.attnSub, attn);
    if w.attnSub.Some? {
      RmsNormD(net.fns, dq, dnrm, w.attnSub.value, net.cfg.eps, hq);
      DispatchD(dgt, dq, d.wo, hq);
    } else {
      DispatchD(dgt, dnrm, d.wo, hq);
    }
    assert dgt[..net.cfg.hidden] == MatVec(a, w.wo);
    AddInPlaceD(dx, dgt, x, MatVec(a, w.wo));
  }

  method AddInPlaceD(dx: array<real>, b: array<real>, ghost x: Row, ghost y: Row)
    requires dx != b && dx[..] == x && dx.Length == |y| <= b.Length && b[..|y|] == y
    modifies dx
    ensures dx[..] == Add(x, y)
  {
    assert dx[..dx.Length] == dx[..];
    AddD(dx, dx, b, dx.Length);
    assert dx[..dx.Length] == dx[..];
  }

  /** (g), (h): norm, gate and up, then relu2 and the product in place in d_gate. */
  method GateD(net: Net, w: Layer, d: LayerOnDevice, dx: array<real>, dnrm: array<real>, dgt: array<real>,
               dup: array<real>)
    requires net.cfg.hidden > 0 && LayerSizes(net.cfg, w) && Held(w, d) == w
    requires dx.Length == net.cfg.hidden <= dnrm.Length && dgt.Length == dup.Length == net.cfg.inter
    requires dx !in {dnrm, dgt, dup} && dnrm !in {dgt, dup} && dgt != dup
    modifies dnrm, dgt, dup
    ensures var a := RmsNorm(net.fns, dx[..], w.ffnNorm, net.cfg.eps);
      dgt[..] == Mul(Relu2(MatVec(a, w.wGate)), MatVec(a, w.wUp))
  {
    ghost var a := RmsNorm(net.fns, dx[..], w.ffnNorm, net.cfg.eps);
    assert dx[..net.cfg.hidden] == dx[..];
    RmsNormD(net.fns, dnrm, dx, w.ffnNorm, net.cfg.eps, net.cfg.hidden);
    DispatchWholeD(dgt, dnrm, d.wGate, net.cfg.hidden, a);
    DispatchWholeD(dup, dnrm, d.wUp, net.cfg.hidden, a);
    ReluMulD(dgt, dup, MatVec(a, w.wGate), MatVec(a, w.wUp));
  }

  method ReluMulD(dgt: array<real>, dup: array<real>, ghost g: Row, ghost u: Row)
    requires dgt != dup && dgt.Length == dup.Length && dgt[..] == g && dup[..] == u
    modifies dgt
    ensures dgt[..] == Mul(Relu2(g), u)
  {
    assert dgt[..dgt.Length] == dgt[..] && dup[..dgt.Length] == dup[..];
    Relu2D(dgt, dgt, dgt.Length);
    assert dgt[..dgt.Length] == dgt[..];
    MulD(dgt, dgt, dup, dgt.Length);
    assert dgt[..dgt.Length] == dgt[..];
  }

  /** (i): with a sub-norm w_down reads d_norm and writes d_gate, without it the other way round. */
  method DownD(net: Net, w: Layer, d: LayerOnDevice, dx: array<real>, dnrm: array<real>, dgt: array<real>,
               ghost mid: Row)
    requires 0 < net.cfg.hidden <= net.cfg.inter && LayerSizes(net.cfg, w) && Held(w, d) == w
    requires dx.Length == net.cfg.hidden && dgt.Length == net.cfg.inter <= dnrm.Length && dgt[..] == mid
    requires dx !in {dnrm, dgt} && dnrm != dgt
    modifies dx, dnrm, dgt
    ensures dx[..] == Add(old(dx[..]), MatVec(SubNorm(net, w.ffnSub, mid), w.wDown))
  {
    ghost var x, y := dx[..], MatVec(SubNorm(net, w.ffnSub, mid), w.wDown);
    assert dgt[..net.cfg.inter] == dgt[..];
    if w.ffnSub.Some? {
      RmsNormD(net.fns, dnrm, dgt, w.ffnSub.value, net.cfg.eps, net.cfg.inter);
      DispatchD(dgt, dnrm, d.wDown, net.cfg.inter);
      AddInPlaceD(dx, dgt, x, y);
    } else {
      DispatchD(dnrm, dgt, d.wDown, net.cfg.inter);
      AddInPlaceD(dx, dnrm, x, y);
    }
  }

  method FfnD(net: Net, l: nat, d: LayerOnDevice, dx: array<real>, dnrm: array<real>, dgt: array<real>,
              dup: array<real>)
    requires DeviceShaped(net) && l < |net.layers| && Held(net.layers[l], d) == net.layers[l]
    requires dx.Length == net.cfg.hidden && dgt.Length == dup.Length == net.cfg.inter <= dnrm.Length
    requires dx !in {dnrm, dgt, dup} && dnrm !in {dgt, dup} && dgt != dup
    modifies dx, dnrm, dgt, dup
    ensures dx[..] == Ffn(net, l, old(dx[..]))
  {
    ghost var x := dx[..];
    GateD(net, net.layers[l], d, dx, dnrm, dgt, dup);
    DownD(net, net.layers[l], d, dx, dnrm, dgt, dgt[..]);
  }

  class GpuModel {
    const cpu: CpuModel.Model
    const nGpu: nat
    /** The offloaded matrices; `cpu.net` holds what they stand for. */
    const dev: seq<LayerOnDevice>
    const w: nat
    const dx: array<real>
    const dnrm: array<real>
    const dq: array<real>
    const dk: array<real>
    const dv: array<real>
    const dgt: array<real>
    const dup: array<real>
    const kc: array<real>
    const vc: array<real>

    /** The offload passes on a loaded model, half layers in F16 and the next ones in INT8, and init_gpu_activations:
        one allocation per scratch buffer, the cache sized for all layers. From then on the backend takes every product
        with an offloaded matrix from its device copy (`DeviceWeights.BackendMatmul`), the prefill and the CPU fallback
        included, so the network the host evaluates is the one the device holds. */
    constructor (orig: Net, capacity: nat, half: nat, nGpu: nat)
      requires DeviceShaped(orig) && ExpLaw(orig.fns) && half <= nGpu <= |orig.layers|
      ensures Valid() && this.nGpu == nGpu && dev == Offloaded(orig, half, nGpu)
      ensures cpu.net == DeviceNet(orig, Offloaded(orig, half, nGpu)) && cpu.kv.capacity == capacity
      ensures half == nGpu ==> cpu.net == orig
    {
      var held := OffloadLayers(orig, half, nGpu);
      DeviceNetSizes(orig, half, nGpu);
      DeviceNetShaped(orig, half, nGpu);
      HeldTwice(orig, held);
      var cpu := new CpuModel.Model(DeviceNet(orig, held), capacity);
      this.dev := held;
      var c := cpu.net.cfg;
      this.cpu, this.nGpu, this.w := cpu, nGpu, c.nKv * c.headDim;
      dx := new real[c.hidden](i => 0.0);
      dnrm := new real[if c.hidden > c.inter then c.hidden else c.inter](i => 0.0);
      dq := new real[c.nHeads * c.headDim](i => 0.0);
      dk := new real[c.nKv * c.headDim](i => 0.0);
      dv := new real[c.nKv * c.headDim](i => 0.0);
      dgt := new real[c.inter](i => 0.0);
      dup := new real[c.inter](i => 0.0);
      kc := new real[|cpu.net.layers| * (GPU_MAX_SEQ * (c.nKv * c.headDim))](i => 0.0);
      vc := new real[|cpu.net.layers| * (GPU_MAX_SEQ * (c.nKv * c.headDim))](i => 0.0);
    }

    ghost function Scratch(): set<object> {
      {dx, dnrm, dq, dk, dv, dgt, dup, kc, vc}
    }

    ghost predicate Valid() {
      && cpu.Valid() && DeviceShaped(cpu.net) && ExpLaw(cpu.net.fns) && nGpu <= |cpu.net.layers|
      && |dev| == nGpu && (forall l :: 0 <= l < nGpu ==> Held(cpu.net.layers[l], dev[l]) == cpu.net.layers[l])
      && Sizes()
      && dx !in {dnrm, dq, dk, dv, dgt, dup, kc, vc} && dnrm !in {dq, dk, dv, dgt, dup, kc, vc}
      && dq !in {dk, dv, dgt, dup, kc, vc} && dk !in {dv, dgt, dup, kc, vc} && dv !in {dgt, dup, kc, vc}
      && dgt !in {dup, kc, vc} && dup !in {kc, vc} && kc != vc
      && Scratch() !! cpu.kv.Buffers()
    }

    ghost predicate Sizes() {
      && w == cpu.net.cfg.nKv * cpu.net.cfg.headDim
      && dx.Length == cpu.net.cfg.hidden && dnrm.Length == cpu.net.cfg.inter
      && dq.Length == cpu.net.cfg.nHeads * cpu.net.cfg.headDim
      && dk.Length == dv.Length == w
      && dgt.Length == dup.Length == cpu.net.cfg.inter
      && kc.Length == vc.Length == |cpu.net.layers| * (GPU_MAX_SEQ * w)
    }

    /** The device cache as a cache value. */
    ghost function Device(): (r: Cache)
      requires Sizes()
      reads kc, vc
      ensures |r| == |cpu.net.layers| && forall l :: 0 <= l < |r| ==> |r[l]| == GPU_MAX_SEQ
    {
      DeviceValue(kc[..], vc[..], w, |cpu.net.layers|)
    }

    /** One layer on the device: d_x is replaced by the layer's output, the cache row by the token's. */
    method LayerD(l: nat, pos: nat)
      requires Valid() && l < nGpu && pos < GPU_MAX_SEQ
      modifies dx, dnrm, dq, dk, dv, dgt, dup, kc, vc
      ensures dx[..] == StepLayer(Of(cpu.net), l, old(dx[..]), old(Device())[l], pos, true).0
      ensures Device() == old(Device())[l := StepLayer(Of(cpu.net), l, old(dx[..]), old(Device())[l], pos, true).1]
      ensures cpu.kv.Value() == old(cpu.kv.Value())
    {
      hide Project, Attend, Ffn, AttnResidual, DeviceValue, LayerSizes;
      ProjectD(cpu.net, l, dev[l], pos, dx, dnrm, dq, dk, dv);
      StoreD(dk, dv, kc, vc, w, |cpu.net.layers|, l, pos);
      AttendD(cpu.net, l, pos, dnrm, dq, kc, vc, w, |cpu.net.layers|);
      AttnResidualD(cpu.net, l, dev[l], dx, dnrm, dq, dgt, dnrm[..dq.Length]);
      FfnD(cpu.net, l, dev[l], dx, dnrm, dgt, dup);
    }

    /** `forward_gpu`: device layers, then either the CPU tail or the final norm on the device. */
    method ForwardGpu(tok: nat, pos: nat) returns (logits: Row)
      requires Valid() && pos < GPU_MAX_SEQ && pos < cpu.kv.capacity && tok < |cpu.net.embed|
      modifies dx, dnrm, dq, dk, dv, dgt, dup, kc, vc, cpu.kv.Buffers()
      ensures (logits, Decode.Split(Device(), cpu.kv.Value()))
           == Decode.ForwardGpu(Of(cpu.net), nGpu, Decode.Split(old(Device()), old(cpu.kv.Value())), tok, pos)
    {
      hide Project, Finish, Attend, Logits, Embed;
      UploadEmbedding(tok);
      RunLayers(pos);
      if nGpu < |cpu.net.layers| {
        var x := RunTail(dx[..], pos);
        logits := Logits(cpu.net, x);
      } else {
        logits := FinalD();
      }
    }

    method UploadEmbedding(tok: nat)
      requires Valid() && tok < |cpu.net.embed|
      modifies dx
      ensures dx[..] == Embed(cpu.net, tok)
      ensures Device() == old(Device()) && cpu.kv.Value() == old(cpu.kv.Value())
    {
      WriteAt(dx, 0, Embed(cpu.net, tok));
    }

    /** Layers 0..nGpu-1 on the device. */
    method RunLayers(pos: nat)
      requires Valid() && pos < GPU_MAX_SEQ
      modifies dx, dnrm, dq, dk, dv, dgt, dup, kc, vc
      ensures (dx[..], Device()) == Decode.LeadingLayers(Of(cpu.net), 0, nGpu, old(dx[..]), old(Device()), pos)
      ensures cpu.kv.Value() == old(cpu.kv.Value())
    {
      ghost var want := Decode.LeadingLayers(Of(cpu.net), 0, nGpu, dx[..], Device(), pos);
      for layer := 0 to nGpu
        invariant cpu.kv.Value() == old(cpu.kv.Value())
        invariant Decode.LeadingLayers(Of(cpu.net), layer, nGpu, dx[..], Device(), pos) == want
      {
        LayerD(layer, pos);
      }
    }

    /** Layers nGpu.. on the CPU, on the host cache. */
    method RunTail(start: Row, pos: nat) returns (x: Row)
      requires Valid() && pos < cpu.kv.capacity
      modifies cpu.kv.Buffers()
      ensures (x, cpu.kv.Value()) == StepFrom(Of(cpu.net), nGpu, start, old(cpu.kv.Value()), pos, true)
      ensures Device() == old(Device())
    {
      x := cpu.RunFrom(nGpu, start, pos, true);
    }

    /** The final norm on the device, its result downloaded from d_norm. */
    method FinalD() returns (logits: Row)
      requires Valid()
      modifies dnrm
      ensures logits == Logits(cpu.net, dx[..])
      ensures Device() == old(Device()) && cpu.kv.Value() == old(cpu.kv.Value())
    {
      var h := cpu.net.cfg.hidden;
      assert dx[..h] == dx[..];
      RmsNormD(cpu.net.fns, dnrm, dx, cpu.net.outNorm, cpu.net.cfg.eps, h);
      logits := MatVec(dnrm[..h], cpu.net.embed);
    }

    /** sync_kv_to_gpu: the first n rows of each offloaded layer, copied to the device. A prompt longer than the
        device cache is not copied at all. */
    method SyncKv(n: nat)
      requires Valid() && n <= cpu.kv.capacity
      modifies kc, vc
      ensures n > GPU_MAX_SEQ ==> Device() == old(Device())
      ensures n <= GPU_MAX_SEQ ==>
        Device() == Decode.Sync(Of(cpu.net), nGpu, Decode.Split(old(Device()), cpu.kv.Value()), n).gpu
    {
      if n > GPU_MAX_SEQ {
        return;
      }
      ghost var was, host := Device(), cpu.kv.Value();
      for layer := 0 to nGpu
        invariant cpu.kv.Value() == host && Device() == Synced(was, host, layer, n)
      {
        UploadLayer(layer, n);
        assert Device() == Synced(was, host, layer + 1, n);
      }
      assert Device() == Decode.Sync(Of(cpu.net), nGpu, Decode.Split(was, host), n).gpu;
    }

    ghost function Caches(): (r: Decode.Split)
      requires Valid()
      reads kc, vc, cpu.kv.Buffers()
      ensures Decode.SplitSized(Of(cpu.net), r, GPU_MAX_SEQ, cpu.kv.capacity)
    {
      Decode.Split(Device(), cpu.kv.Value())
    }

    /** clear_kv_d: the whole device cache is zeroed. */
    method ClearKvD()
      requires Valid()
      modifies kc, vc
      ensures kc[..] == seq(kc.Length, i => 0.0) && vc[..] == seq(vc.Length, i => 0.0)
      ensures cpu.kv.Value() == old(cpu.kv.Value())
    {
      forall i | 0 <= i < kc.Length { kc[i] := 0.0; }
      forall i | 0 <= i < vc.Length { vc[i] := 0.0; }
    }

    /** `forward` of a sampled token: on the device while its position fits the device cache, otherwise on the CPU. */
    method Feed(t: nat) returns (logits: Row)
      requires Valid() && cpu.kv.seqLen < cpu.kv.capacity && t < |cpu.net.embed|
      modifies dx, dnrm, dq, dk, dv, dgt, dup, kc, vc, cpu.kv`seqLen, cpu.kv.Buffers()
      ensures cpu.kv.seqLen == old(cpu.kv.seqLen) + 1
      ensures (logits, Caches())
        == Decode.Dispatch(Of(cpu.net), nGpu, old(Caches()), t, old(cpu.kv.seqLen), GPU_MAX_SEQ,
                                                    cpu.kv.capacity)
    {
      hide Project, Finish, Attend, Logits, Embed, Decode.ForwardGpu, Chain.Forward;
      if nGpu > 0 && cpu.kv.seqLen < GPU_MAX_SEQ {
        logits := ForwardGpu(t, cpu.kv.seqLen);
      } else {
        logits := ForwardCpu(t, cpu.kv.seqLen);
      }
      cpu.kv.seqLen := cpu.kv.seqLen + 1;
    }

    method ForwardCpu(t: nat, pos: nat) returns (logits: Row)
      requires Valid() && pos < cpu.kv.capacity
      modifies cpu.kv.Buffers()
      ensures (logits, cpu.kv.Value()) == Chain.Forward(Of(cpu.net), old(cpu.kv.Value()), t, pos, false)
      ensures Device() == old(Device())
    {
      logits := cpu.Forward(t, pos, false);
    }

    /** The sampling loop of `generate`. */
    method DecodeFrom(start: seq<int>, maxNew: int, eos: int, sample: Decode.Sampler, first: Row)
      returns (toks: seq<int>)
      requires Valid() && InVocabulary(sample, |cpu.net.embed|)
      modifies dx, dnrm, dq, dk, dv, dgt, dup, kc, vc, cpu.kv`seqLen, cpu.kv.Buffers()
      ensures (toks, Caches())
        == Decode.GpuLoop(Of(cpu.net), nGpu, Decode.Plain(start, maxNew, eos, sample), start, first,
                                                 old(Caches()), old(cpu.kv.seqLen), GPU_MAX_SEQ, cpu.kv.capacity, 0)
    {
      ghost var r := Decode.Plain(start, maxNew, eos, sample);
      hide Project, Finish, Attend, Logits, Embed, Decode.Dispatch, Decode.GpuLoop;
      toks := start;
      var logits := first;
      var i := 0;
      while i < maxNew
        invariant Decode.GpuLoop(Of(cpu.net), nGpu, r, toks, logits, Caches(), cpu.kv.seqLen, GPU_MAX_SEQ,
                                 cpu.kv.capacity, i)
               == Decode.GpuLoop(Of(cpu.net), nGpu, r, start, first, old(Caches()), old(cpu.kv.seqLen), GPU_MAX_SEQ,
                                 cpu.kv.capacity, 0)
      {
        var t := sample(logits, toks, i);
        if t == eos || cpu.kv.seqLen >= cpu.kv.capacity {
          GpuLoopEnds(Of(cpu.net), nGpu, r, toks, logits, Caches(), cpu.kv.seqLen, GPU_MAX_SEQ, cpu.kv.capacity, i);
          toks := toks + [t];
          return;
        }
        Decode.GpuLoopStep(Of(cpu.net), nGpu, r, toks, logits, Caches(), cpu.kv.seqLen, GPU_MAX_SEQ, cpu.kv.capacity,
                           i);
        logits := Feed(t);
        toks := toks + [t];
        i := i + 1;
      }
      GpuLoopEnds(Of(cpu.net), nGpu, r, toks, logits, Caches(), cpu.kv.seqLen, GPU_MAX_SEQ, cpu.kv.capacity, i);
    }

    /** The device cache after clear_kv_d. */
    ghost function Zeroed(): (r: Cache)
      requires Sizes()
      ensures |r| == |cpu.net.layers| && forall l :: 0 <= l < |r| ==> |r[l]| == GPU_MAX_SEQ
    {
      DeviceValue(seq(kc.Length, i => 0.0), seq(vc.Length, i => 0.0), w, |cpu.net.layers|)
    }

    /** Clearing, the prefill on the CPU and the copy to the device, up to the first logits. */
    method Begin(prompt: seq<int>) returns (logits: Row)
      requires Valid() && 1 <= |prompt| <= cpu.kv.capacity
      modifies kc, vc, cpu.kv`seqLen, cpu.kv.Buffers()
      ensures cpu.kv.seqLen == |prompt|
      ensures var (rows, warm) := Prefill(Of(cpu.net), old(cpu.kv.Value()), prompt);
        && logits == rows[|prompt| - 1]
        && Caches() == Decode.SyncIfFits(Of(cpu.net), nGpu, Decode.Split(Zeroed(), warm), |prompt|, GPU_MAX_SEQ,
                                         cpu.kv.capacity)
    {
      hide Project, Finish, Attend, Logits, Embed, Prefill;
      cpu.kv.Clear();
      ClearKvD();
      var rows := PrefillOnCpu(prompt);
      cpu.kv.seqLen := |prompt|;
      SyncKv(|prompt|);
      logits := rows[|rows| - 1];
    }

    /** `generate` with offloaded layers, F16 or INT8. As long as the run stays in the device cache the tokens are those
        of generation without any cache on the network held; when the prompt fills the device cache they are those of
        CPU decoding. */
    method Generate(prompt: seq<int>, maxNew: int, eos: int, sample: Decode.Sampler) returns (toks: seq<int>)
      requires Valid() && InVocabulary(sample, |cpu.net.embed|) && 1 <= |prompt| <= cpu.kv.capacity
      modifies dx, dnrm, dq, dk, dv, dgt, dup, kc, vc, cpu.kv`seqLen, cpu.kv.Buffers()
      ensures var c, r := Of(cpu.net), Decode.Plain(prompt, maxNew, eos, sample);
        && (toks, Caches()) == Decode.GpuGenerate(c, nGpu, r, Decode.Split(Zeroed(), old(cpu.kv.Value())),
                                                  GPU_MAX_SEQ, cpu.kv.capacity)
        && (nGpu > 0 && Decode.StaysBelow(c, r, prompt, GPU_MAX_SEQ, cpu.kv.capacity, 0) ==>
              toks == Decode.IdealLoop(c, r, prompt, cpu.kv.capacity, 0))
        && (nGpu == 0 || |prompt| >= GPU_MAX_SEQ ==>
              toks == Mixed.MixedLoop(c, r, prompt, |prompt|, cpu.kv.capacity, 0))
    {
      hide Project, Finish, Attend, Logits, Embed, Decode.ForwardGpu, Decode.GpuLoop, Decode.IdealLoop, Prefill,
        Decode.StaysBelow, Mixed.MixedLoop, Decode.SyncIfFits;
      ghost var r := Decode.Plain(prompt, maxNew, eos, sample);
      ghost var start := Decode.Split(Zeroed(), cpu.kv.Value());
      var logits := Begin(prompt);
      toks := DecodeFrom(prompt, maxNew, eos, sample, logits);
      if nGpu > 0 && Decode.StaysBelow(Of(cpu.net), r, prompt, GPU_MAX_SEQ, cpu.kv.capacity, 0) {
        Decode.GpuGenerateIsIdeal(Of(cpu.net), nGpu, r, start, GPU_MAX_SEQ, cpu.kv.capacity);
      }
      if nGpu == 0 || |prompt| >= GPU_MAX_SEQ {
        Mixed.GpuGenerateIsMixed(Of(cpu.net), nGpu, r, start, GPU_MAX_SEQ, cpu.kv.capacity);
      }
    }

    method PrefillOnCpu(prompt: seq<int>) returns (rows: seq<Row>)
      requires Valid() && |prompt| <= cpu.kv.capacity
      modifies cpu.kv.Buffers()
      ensures (rows, cpu.kv.Value()) == Prefill(Of(cpu.net), old(cpu.kv.Value()), prompt)
      ensures Device() == old(Device())
    {
      rows := cpu.ForwardPrefill(prompt);
    }

    /** upload_kv_layer_d. */
    method UploadLayer(l: nat, n: nat)
      requires Valid() && n <= cpu.kv.capacity && n <= GPU_MAX_SEQ && l < |cpu.net.layers|
      modifies kc, vc
      ensures Device() == old(Device())[l := cpu.kv.Value()[l][..n] + old(Device())[l][n..]]
      ensures cpu.kv.Value() == old(cpu.kv.Value())
    {
      assert cpu.kv.Value()[l] == cpu.kv.LayerValue(l);
      UploadBlocks(kc, vc, cpu.kv.k[l], cpu.kv.v[l], w, |cpu.net.layers|, l, n, cpu.kv.capacity);
    }
  }

  lemma GpuLoopEnds(c: Decoder, n: nat, r: Decode.Request, toks: seq<int>, logits: Row, s: Decode.Split, seqLen: nat,
                    gpuCap: nat, cap: nat, i: nat)
    requires n <= c.nLayers && Decode.SplitSized(c, s, gpuCap, cap)
    ensures !Decode.Goes(r, i) ==> Decode.GpuLoop(c, n, r, toks, logits, s, seqLen, gpuCap, cap, i) == (toks, s)
    ensures var t := r.sample(logits, toks, i);
      Decode.Goes(r, i) && (r.ends(toks + [t]) || seqLen >= cap) ==>
      Decode.GpuLoop(c, n, r, toks, logits, s, seqLen, gpuCap, cap, i) == (toks + [t], s)
  {
  }

  method OffloadLayers(net: Net, half: nat, n: nat) returns (dev: seq<LayerOnDevice>)
    requires AllSized(net) && half <= n <= |net.layers|
    ensures dev == Offloaded(net, half, n)
  {
    hide Uploaded, LayerSizes;
    dev := [];
    for l := 0 to n
      invariant |dev| == l && forall i :: 0 <= i < l ==> dev[i] == Uploaded(net.cfg, net.layers[i], i >= half)
    {
      var d := Upload(net.cfg, net.layers[l], l >= half);
      dev := dev + [d];
    }
  }

  lemma DeviceNetShaped(net: Net, half: nat, n: nat)
    requires DeviceShaped(net) && half <= n <= |net.layers|
    ensures DeviceShaped(DeviceNet(net, Offloaded(net, half, n)))
  {
    hide Offloaded;
    DeviceNetSizes(net, half, n);
  }

  /** The network held is held again unchanged. */
  lemma HeldTwice(net: Net, dev: seq<LayerOnDevice>)
    requires |dev| <= |net.layers|
    ensures forall l :: 0 <= l < |dev| ==>
      Held(DeviceNet(net, dev).layers[l], dev[l]) == DeviceNet(net, dev).layers[l]
  {
    hide Value;
  }

  /** The sampler only returns token ids of the vocabulary. */
  ghost predicate InVocabulary(sample: Decode.Sampler, vocab: nat) {
    forall logits: Row, toks: seq<int>, i: int :: 0 <= sample(logits, toks, i) < vocab
  }

  ghost function Synced(was: Cache, host: Cache, done: nat, n: nat): (r: Cache)
    requires done <= |was| && done <= |host| && forall l :: 0 <= l < |was| ==> n <= |was[l]|
    requires forall l :: 0 <= l < |host| ==> n <= |host[l]|
    ensures |r| == |was|
  {
    seq(|was|, l requires 0 <= l < |was| => if l < done then host[l][..n] + was[l][n..] else was[l])
  }

  method UploadBlocks(kc: array<real>, vc: array<real>, kh: array<real>, vh: array<real>, w: nat, layers: nat, l: nat,
                      n: nat, cap: nat)
    requires kc.Length == vc.Length == layers * (GPU_MAX_SEQ * w) && l < layers
    requires kh.Length == vh.Length == cap * w && n <= cap && n <= GPU_MAX_SEQ
    requires kc !in {vc, kh, vh} && vc !in {kh, vh}
    modifies kc, vc
    ensures var was := old(DeviceValue(kc[..], vc[..], w, layers));
      DeviceValue(kc[..], vc[..], w, layers) == was[l := LayerOf(kh[..], vh[..], w, cap)[..n] + was[l][n..]]
  {
    UploadBounds(w, layers, l, n, cap);
    UploadIsRows(kc[..], vc[..], w, layers, l, n, kh[..], vh[..], cap);
    ghost var ks, vs := kh[..], vh[..];
    WriteAt(kc, l * (GPU_MAX_SEQ * w), kh[..n * w]);
    WriteAt(vc, l * (GPU_MAX_SEQ * w), vh[..n * w]);
    assert kh[..n * w] == ks[..n * w] && vh[..n * w] == vs[..n * w];
  }

  lemma {:induction false} UploadBounds(w: nat, layers: nat, l: nat, n: nat, cap: nat)
    requires n <= cap && n <= GPU_MAX_SEQ && l < layers
    ensures 0 <= n * w <= cap * w && n * w <= GPU_MAX_SEQ * w
    ensures 0 <= l * (GPU_MAX_SEQ * w) && l * (GPU_MAX_SEQ * w) + GPU_MAX_SEQ * w <= layers * (GPU_MAX_SEQ * w)
  {
    Monotone(n, cap, w);
    Monotone(n, GPU_MAX_SEQ, w);
    RowBounds(l, GPU_MAX_SEQ * w, layers);
  }

  lemma {:induction false} UploadRow(block: seq<real>, host: seq<real>, w: nat, cap: nat, n: nat, q: nat)
    requires |block| == GPU_MAX_SEQ * w && |host| == cap * w && n <= cap && n <= GPU_MAX_SEQ && q < GPU_MAX_SEQ
    ensures 0 <= n * w <= |host| && n * w <= |block|
    ensures RowOf(Patch(block, 0, host[..n * w]), w, GPU_MAX_SEQ, q)
         == if q < n then RowOf(host, w, cap, q) else RowOf(block, w, GPU_MAX_SEQ, q)
  {
    UploadBounds(w, 1, 0, n, cap);
    RowBounds(q, w, GPU_MAX_SEQ);
    if q < n { RowBounds(q, w, n); } else { Monotone(n, q, w); }
  }

  lemma UploadIsRows(kf: seq<real>, vf: seq<real>, w: nat, layers: nat, l: nat, n: nat,
                     kh: seq<real>, vh: seq<real>, cap: nat)
    requires |kf| == |vf| == layers * (GPU_MAX_SEQ * w) && l < layers && |kh| == |vh| == cap * w
    requires n <= cap && n <= GPU_MAX_SEQ && 0 <= n * w <= cap * w
    requires 0 <= l * (GPU_MAX_SEQ * w) && l * (GPU_MAX_SEQ * w) + n * w <= |kf|
    ensures var off := l * (GPU_MAX_SEQ * w);
      DeviceValue(Patch(kf, off, kh[..n * w]), Patch(vf, off, vh[..n * w]), w, layers)
      == DeviceValue(kf, vf, w, layers)[l := LayerOf(kh, vh, w, cap)[..n] + DeviceValue(kf, vf, w, layers)[l][n..]]
  {
    hide DeviceLayer, DeviceValue, Patch, LayerOf, RowOf, LayerBlock;
    UploadBounds(w, layers, l, n, cap);
    var off := l * (GPU_MAX_SEQ * w);
    var kn, vn := Patch(kf, off, kh[..n * w]), Patch(vf, off, vh[..n * w]);
    var lc := LayerOf(kh, vh, w, cap)[..n] + DeviceLayer(kf, vf, w, layers, l)[n..];
    forall m | 0 <= m < layers
      ensures DeviceLayer(kn, vn, w, layers, m)
           == if m == l then lc else DeviceLayer(kf, vf, w, layers, m)
    {
      UploadOne(kf, vf, w, layers, l, n, kh, vh, cap, m);
    }
    LayersAre(kn, vn, kf, vf, w, layers, l, lc);
    LayerIs(kf, vf, w, layers, l);
  }

  lemma UploadOne(kf: seq<real>, vf: seq<real>, w: nat, layers: nat, l: nat, n: nat,
                  kh: seq<real>, vh: seq<real>, cap: nat, m: nat)
    requires |kf| == |vf| == layers * (GPU_MAX_SEQ * w) && l < layers && m < layers && |kh| == |vh| == cap * w
    requires n <= cap && n <= GPU_MAX_SEQ && 0 <= n * w <= cap * w
    requires 0 <= l * (GPU_MAX_SEQ * w) && l * (GPU_MAX_SEQ * w) + n * w <= |kf|
    ensures var off := l * (GPU_MAX_SEQ * w);
      DeviceLayer(Patch(kf, off, kh[..n * w]), Patch(vf, off, vh[..n * w]), w, layers, m)
      == if m == l then LayerOf(kh, vh, w, cap)[..n] + DeviceLayer(kf, vf, w, layers, l)[n..]
         else DeviceLayer(kf, vf, w, layers, m)
  {
    hide Patch, LayerOf, RowOf, LayerBlock;
    UploadBounds(w, layers, l, n, cap);
    UploadBlock(kf, w, layers, l, kh[..n * w], m);
    UploadBlock(vf, w, layers, l, vh[..n * w], m);
    if m == l { UploadRows(LayerBlock(kf, w, layers, l), LayerBlock(vf, w, layers, l), kh, vh, w, cap, n); }
  }

  /** Within one layer: the first n rows are the host's. */
  lemma UploadRows(kb: seq<real>, vb: seq<real>, kh: seq<real>, vh: seq<real>, w: nat, cap: nat, n: nat)
    requires |kb| == |vb| == GPU_MAX_SEQ * w && |kh| == |vh| == cap * w && n <= cap && n <= GPU_MAX_SEQ
    requires 0 <= n * w <= cap * w && n * w <= GPU_MAX_SEQ * w
    ensures LayerOf(Patch(kb, 0, kh[..n * w]), Patch(vb, 0, vh[..n * w]), w, GPU_MAX_SEQ)
         == LayerOf(kh, vh, w, cap)[..n] + LayerOf(kb, vb, w, GPU_MAX_SEQ)[n..]
  {
    hide Patch, RowOf;
    var a := LayerOf(Patch(kb, 0, kh[..n * w]), Patch(vb, 0, vh[..n * w]), w, GPU_MAX_SEQ);
    var b := LayerOf(kh, vh, w, cap)[..n] + LayerOf(kb, vb, w, GPU_MAX_SEQ)[n..];
    forall q | 0 <= q < GPU_MAX_SEQ ensures a[q] == b[q] {
      UploadRow(kb, kh, w, cap, n, q);
      UploadRow(vb, vh, w, cap, n, q);
    }
  }

  lemma {:induction false} UploadBlock(flat: seq<real>, w: nat, layers: nat, l: nat, src: seq<real>, m: nat)
    requires |flat| == layers * (GPU_MAX_SEQ * w) && l < layers && m < layers && |src| <= GPU_MAX_SEQ * w
    ensures 0 <= l * (GPU_MAX_SEQ * w) && l * (GPU_MAX_SEQ * w) + |src| <= |flat|
    ensures LayerBlock(Patch(flat, l * (GPU_MAX_SEQ * w), src), w, layers, m)
         == if m == l then Patch(LayerBlock(flat, w, layers, l), 0, src) else LayerBlock(flat, w, layers, m)
  {
    RowBounds(l, GPU_MAX_SEQ * w, layers);
    var inner := Patch(LayerBlock(flat, w, layers, l), 0, src);
    assert Patch(flat, l * (GPU_MAX_SEQ * w), src) == Patch(flat, l * (GPU_MAX_SEQ * w), inner);
    PatchRow(flat, GPU_MAX_SEQ * w, layers, l, inner, m);
  }
}
