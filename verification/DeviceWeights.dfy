/** Weights as the device holds them: a matrix is uploaded in F16 or quantized to INT8 with one scale, and every
    product picks the kernel that fits. Each form stands for a matrix of reals. */
module DeviceWeights {
  import opened Arith
  import opened Rows
  import opened Net
  import opened Bytes
  import opened GpuKernels
  import Reals
  import Reduce
  import Int8

  ghost predicate MatSize(m: Mat, k: nat, n: nat) {
    |m| == n && forall i :: 0 <= i < n ==> |m[i]| == k
  }

  ghost predicate LayerSizes(c: Config, w: Layer) {
    && |w.attnNorm| == |w.ffnNorm| == c.hidden
    && MatSize(w.wq, c.hidden, c.nHeads * c.headDim)
    && MatSize(w.wk, c.hidden, c.nKv * c.headDim)
    && MatSize(w.wv, c.hidden, c.nKv * c.headDim)
    && MatSize(w.wo, c.nHeads * c.headDim, c.hidden)
    && MatSize(w.wGate, c.hidden, c.inter)
    && MatSize(w.wUp, c.hidden, c.inter)
    && MatSize(w.wDown, c.inter, c.hidden)
    && (w.attnSub.Some? ==> |w.attnSub.value| == c.nHeads * c.headDim)
    && (w.ffnSub.Some? ==> |w.ffnSub.value| == c.inter)
  }

  /** `gpu_is_int8` with its data and scale, or the uploaded F16 data. */
  datatype DeviceMat = Half(m: Mat) | Quant(q: seq<seq<int>>, scale: real)

  function Scaled(q: seq<int>, scale: real): (r: Row)
    ensures |r| == |q|
  {
    seq(|q|, k requires 0 <= k < |q| => q[k] as real * scale)
  }

  /** The matrix a device matrix stands for. */
  function Value(d: DeviceMat): (m: Mat)
    ensures d.Quant? ==> |m| == |d.q|
  {
    match d
    case Half(m) => m
    case Quant(q, scale) => seq(|q|, n requires 0 <= n < |q| => Scaled(q[n], scale))
  }

  datatype LayerOnDevice = LayerOnDevice(wq: DeviceMat, wk: DeviceMat, wv: DeviceMat, wo: DeviceMat, wGate: DeviceMat,
                                     wUp: DeviceMat, wDown: DeviceMat)

  /** The layer a device layer stands for; the norms stay as they are. */
  function Held(w: Layer, d: LayerOnDevice): Layer {
    w.(wq := Value(d.wq), wk := Value(d.wk), wv := Value(d.wv), wo := Value(d.wo),
       wGate := Value(d.wGate), wUp := Value(d.wUp), wDown := Value(d.wDown))
  }

  /** The network as the device holds it: the leading layers are the uploaded ones. */
  function DeviceNet(net: Net, dev: seq<LayerOnDevice>): Net {
    net.(layers := seq(|net.layers|, l requires 0 <= l < |net.layers| =>
      if l < |dev| then Held(net.layers[l], dev[l]) else net.layers[l]))
  }

  // ----- quantization of a matrix -----

  lemma {:induction false} FlatLength(m: Mat, k: nat)
    requires MatSize(m, k, |m|)
    ensures |Flatten(m)| == |m| * k
  {
    if |m| > 0 {
      FlatLength(m[1..], k);
      assert |m| * k == k + (|m| - 1) * k;
    }
  }

  /** The tensor is stored column after column. */
  lemma {:induction false} FlatEntry(m: Mat, k: nat, n: nat, j: nat)
    requires MatSize(m, k, |m|) && n < |m| && j < k
    ensures 0 <= n * k && n * k + j < |Flatten(m)| && Flatten(m)[n * k + j] == m[n][j]
  {
    FlatLength(m, k);
    RowBounds(n, k, |m|);
    if n > 0 {
      FlatEntry(m[1..], k, n - 1, j);
      assert n * k == k + (n - 1) * k;
    }
  }

  /** Column i of n columns of length k. */
  function ColumnOf(q: seq<int>, n: nat, k: nat, i: nat): (c: seq<int>)
    requires |q| == n * k && i < n
    ensures |c| == k
  {
    RowBounds(i, k, n);
    q[i * k..i * k + k]
  }

  /** The quantized tensor cut into its columns. */
  function ColumnsOf(q: seq<int>, n: nat, k: nat): (c: seq<seq<int>>)
    requires |q| == n * k
    ensures |c| == n && forall i :: 0 <= i < n ==> |c[i]| == k
  {
    seq(n, i requires 0 <= i < n => ColumnOf(q, n, k, i))
  }

  /** What the INT8 pass uploads for a matrix with columns of length k. */
  ghost function Quantized(m: Mat, k: nat): (d: DeviceMat)
    requires MatSize(m, k, |m|)
    ensures d.Quant? && MatSize(Value(d), k, |m|)
  {
    FlatLength(m, k);
    Quant(ColumnsOf(Int8.Quantized(Flatten(m)), |m|, k), Int8.ScaleOf(Flatten(m)))
  }

  method QuantizeMat(m: Mat, k: nat) returns (d: DeviceMat)
    requires MatSize(m, k, |m|)
    ensures d == Quantized(m, k)
  {
    FlatLength(m, k);
    var q, scale := Int8.QuantizeLoop(Flatten(m));
    d := Quant(ColumnsOf(q, |m|, k), scale);
  }

  /** Every weight the device computes with is within half a step of the original. */
  lemma {:induction false} QuantizedIsNear(m: Mat, k: nat, n: nat, j: nat)
    requires MatSize(m, k, |m|) && n < |m| && j < k
    ensures Int8.Close(Value(Quantized(m, k))[n][j], m[n][j], Int8.ScaleOf(Flatten(m)) / 2.0)
  {
    hide Int8.Quantized, Int8.ScaleOf, Int8.Close, MatSize, Flatten, ColumnOf;
    FlatLength(m, k);
    FlatEntry(m, k, n, j);
    var flat := Flatten(m);
    Int8.WithinHalfStep(flat, n * k + j);
    ColumnEntry(Int8.Quantized(flat), |m|, k, n, j);
    QuantizedEntry(m, k, n, j);
  }

  lemma ColumnEntry(q: seq<int>, n: nat, k: nat, i: nat, j: nat)
    requires |q| == n * k && i < n && j < k
    ensures 0 <= i * k && i * k + j < |q| && ColumnOf(q, n, k, i)[j] == q[i * k + j]
  {
    RowBounds(i, k, n);
  }

  lemma QuantizedEntry(m: Mat, k: nat, n: nat, j: nat)
    requires MatSize(m, k, |m|) && n < |m| && j < k
    ensures |Flatten(m)| == |m| * k && j < |Value(Quantized(m, k))[n]|
    ensures Value(Quantized(m, k))[n][j]
         == Reals.Times(ColumnOf(Int8.Quantized(Flatten(m)), |m|, k, n)[j] as real, Int8.ScaleOf(Flatten(m)))
  {
    hide Int8.Quantized, Int8.ScaleOf, ColumnOf, Flatten, MatSize;
    FlatLength(m, k);
    QuantEntry(Int8.Quantized(Flatten(m)), |m|, k, Int8.ScaleOf(Flatten(m)), n, j);
  }

  lemma QuantEntry(q: seq<int>, n: nat, k: nat, scale: real, i: nat, j: nat)
    requires |q| == n * k && i < n && j < k
    ensures var m := Value(Quant(ColumnsOf(q, n, k), scale));
      |m| == n && |m[i]| == k && m[i][j] == Reals.Times(ColumnOf(q, n, k, i)[j] as real, scale)
  {
    hide ColumnOf;
  }

  // ----- one layer -----

  /** A layer as uploaded by the F16 pass or the INT8 pass. */
  ghost function Uploaded(c: Config, w: Layer, int8: bool): LayerOnDevice
    requires LayerSizes(c, w)
  {
    if !int8 then
      LayerOnDevice(Half(w.wq), Half(w.wk), Half(w.wv), Half(w.wo), Half(w.wGate), Half(w.wUp), Half(w.wDown))
    else
      LayerOnDevice(Quantized(w.wq, c.hidden), Quantized(w.wk, c.hidden), Quantized(w.wv, c.hidden),
                  Quantized(w.wo, c.nHeads * c.headDim), Quantized(w.wGate, c.hidden), Quantized(w.wUp, c.hidden),
                  Quantized(w.wDown, c.inter))
  }

  method Upload(c: Config, w: Layer, int8: bool) returns (d: LayerOnDevice)
    requires LayerSizes(c, w)
    ensures d == Uploaded(c, w, int8)
  {
    hide Quantized;
    if !int8 {
      return LayerOnDevice(Half(w.wq), Half(w.wk), Half(w.wv), Half(w.wo), Half(w.wGate), Half(w.wUp), Half(w.wDown));
    }
    var wq := QuantizeMat(w.wq, c.hidden);
    var wk := QuantizeMat(w.wk, c.hidden);
    var wv := QuantizeMat(w.wv, c.hidden);
    var wo := QuantizeMat(w.wo, c.nHeads * c.headDim);
    var wGate := QuantizeMat(w.wGate, c.hidden);
    var wUp := QuantizeMat(w.wUp, c.hidden);
    var wDown := QuantizeMat(w.wDown, c.inter);
    d := LayerOnDevice(wq, wk, wv, wo, wGate, wUp, wDown);
  }

  lemma UploadedSizes(c: Config, w: Layer, int8: bool)
    requires LayerSizes(c, w)
    ensures LayerSizes(c, Held(w, Uploaded(c, w, int8)))
    ensures !int8 ==> Held(w, Uploaded(c, w, int8)) == w
  {
    hide Quantized;
  }

  ghost predicate AllSized(net: Net) {
    forall l :: 0 <= l < |net.layers| ==> LayerSizes(net.cfg, net.layers[l])
  }

  /** The first `half` layers in F16, the next ones up to n in INT8. */
  ghost function Offloaded(net: Net, half: nat, n: nat): (dev: seq<LayerOnDevice>)
    requires AllSized(net) && half <= n <= |net.layers|
    ensures |dev| == n
  {
    seq(n, l requires 0 <= l < n => Uploaded(net.cfg, net.layers[l], l >= half))
  }

  /** Loading keeps all sizes, touches the offloaded INT8 layers only, and is exact without them. */
  lemma DeviceNetSizes(net: Net, half: nat, n: nat)
    requires AllSized(net) && half <= n <= |net.layers|
    ensures var d := DeviceNet(net, Offloaded(net, half, n));
      && AllSized(d) && |d.layers| == |net.layers| && d == net.(layers := d.layers)
      && (forall l :: 0 <= l < |net.layers| && !(half <= l < n) ==> d.layers[l] == net.layers[l])
      && (half == n ==> d == net)
  {
    hide Held, Uploaded, LayerSizes;
    var d := DeviceNet(net, Offloaded(net, half, n));
    forall l | 0 <= l < |net.layers|
      ensures LayerSizes(net.cfg, d.layers[l]) && (!(half <= l < n) ==> d.layers[l] == net.layers[l])
    {
      UploadedSizes(net.cfg, net.layers[l], l >= half);
    }
    if half == n { assert d.layers == net.layers; }
  }

  // ----- the product -----

  /** The scale may be applied to every weight or to the sum. */
  lemma {:induction false} ScaleMoves(q: seq<int>, x: Row, scale: real, n: nat)
    requires |q| == |x| && n <= |q|
    ensures Reals.Times(Reduce.SumTo(Int8.Terms(q, x), n), scale) == Dot(x, Scaled(q, scale), n)
  {
    if n > 0 {
      ScaleMoves(q, x, scale, n - 1);
      Distributes(Reduce.SumTo(Int8.Terms(q, x), n - 1), q[n - 1] as real, x[n - 1], scale);
    }
  }

  lemma Distributes(sum: real, q: real, x: real, scale: real)
    ensures (sum + q * x) * scale == sum * scale + x * (q * scale)
  {
  }

  /** The INT8 kernel, one warp per output neuron. */
  method Gemv8D(out: array<real>, x: array<real>, q: seq<seq<int>>, scale: real, k: nat)
    requires out != x && |q| <= out.Length && k <= x.Length
    requires forall n :: 0 <= n < |q| ==> |q[n]| == k
    modifies out
    ensures Wrote(out[..], old(out[..]), MatVec(x[..k], Value(Quant(q, scale))))
  {
    hide Scaled;
    ghost var xs, was, m := x[..k], out[..], Value(Quant(q, scale));
    for n := 0 to |q|
      invariant x[..k] == xs
      invariant forall i :: 0 <= i < n ==> out[i] == Dot(xs, m[i], k)
      invariant out[n..] == was[n..]
    {
      ScaleMoves(q[n], xs, scale, k);
      out[n] := Int8.GemvInt8(q[n], x[..k], scale);
    }
    assert out[..|q|] == MatVec(xs, m);
  }

  /** `dispatch`: the kernel that fits the matrix. */
  method DispatchD(out: array<real>, x: array<real>, d: DeviceMat, k: nat)
    requires out != x && |Value(d)| <= out.Length && k <= x.Length && MatSize(Value(d), k, |Value(d)|)
    modifies out
    ensures Wrote(out[..], old(out[..]), MatVec(x[..k], Value(d)))
  {
    match d
    case Half(m) => GemvD(out, x, m, k);
    case Quant(q, scale) =>
      forall n | 0 <= n < |q| ensures |q[n]| == k { assert |Value(d)[n]| == k; }
      Gemv8D(out, x, q, scale, k);
  }

  /** The same, filling the whole output buffer. */
  method DispatchWholeD(out: array<real>, x: array<real>, d: DeviceMat, k: nat, ghost xs: Row)
    requires out != x && MatSize(Value(d), k, out.Length) && k <= x.Length && x[..k] == xs
    modifies out
    ensures out[..] == MatVec(xs, Value(d))
  {
    ghost var was := out[..];
    DispatchD(out, x, d, k);
    assert out[..] == out[..|MatVec(xs, Value(d))|];
  }

  // ----- the products of the host side -----

  /** One row staged to the device, multiplied there and read back. */
  method StagedRow(x: Row, d: DeviceMat, k: nat, actIn: array<real>, actOut: array<real>) returns (y: Row)
    requires actIn != actOut && |x| == k <= actIn.Length && |Value(d)| <= actOut.Length
    requires MatSize(Value(d), k, |Value(d)|)
    modifies actIn, actOut
    ensures y == MatVec(x, Value(d))
  {
    forall i | 0 <= i < k { actIn[i] := x[i]; }
    assert actIn[..k] == x;
    DispatchD(actOut, actIn, d, k);
    y := actOut[..MatRows(d)];
    assert y == actOut[..|MatVec(x, Value(d))|];
  }

  function MatRows(d: DeviceMat): (n: nat)
    ensures n == |Value(d)|
  {
    match d
    case Half(m) => |m|
    case Quant(q, _) => |q|
  }

  /** The F16 kernel for several rows: one warp per row and output neuron. */
  method Gemm16(a: seq<Row>, m: Mat, k: nat) returns (out: seq<Row>)
    requires MatSize(m, k, |m|) && forall i :: 0 <= i < |a| ==> |a[i]| == k
    ensures |out| == |a| && forall i :: 0 <= i < |a| ==> out[i] == MatVec(a[i], m)
  {
    hide Dot;
    out := [];
    for i := 0 to |a|
      invariant |out| == i && forall j :: 0 <= j < i ==> out[j] == MatVec(a[j], m)
    {
      var y: Row := [];
      for n := 0 to |m|
        invariant |y| == n && forall j :: 0 <= j < n ==> y[j] == Dot(a[i], m[j], k)
      {
        var dot := KernelDot(a[i], m[n], k, false);
        y := y + [dot];
      }
      assert y == MatVec(a[i], m);
      out := out + [y];
    }
  }

  /** `CUDABackend::matmul` with an offloaded matrix: the prefill and the CPU fallback multiply with the device copy, so
      an INT8 layer is the same layer everywhere. */
  method BackendMatmul(a: seq<Row>, d: DeviceMat, k: nat, actIn: array<real>, actOut: array<real>)
    returns (out: seq<Row>)
    requires actIn != actOut && k <= actIn.Length && |Value(d)| <= actOut.Length && MatSize(Value(d), k, |Value(d)|)
    requires forall i :: 0 <= i < |a| ==> |a[i]| == k
    modifies actIn, actOut
    ensures |out| == |a| && forall i :: 0 <= i < |a| ==> out[i] == MatVec(a[i], Value(d))
  {
    if d.Half? && |a| != 1 {
      out := Gemm16(a, d.m, k);
      return;
    }
    hide MatVec;
    out := [];
    for i := 0 to |a|
      invariant |out| == i && forall j :: 0 <= j < i ==> out[j] == MatVec(a[j], Value(d))
    {
      var y := StagedRow(a[i], d, k, actIn, actOut);
      out := out + [y];
    }
  }
}
