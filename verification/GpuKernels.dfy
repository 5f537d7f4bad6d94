/** The device kernels on device buffers. A kernel touches the first N entries of its output buffer and leaves
    the rest; output and input may be the same buffer only where the kernel is element-wise. */
module GpuKernels {
  import opened Arith
  import opened Rows
  import opened Chain
  import opened Net
  import opened KvCaches
  import opened Attention
  import Reduce
  import Gemm

  /** The first n entries of a buffer replaced, the rest kept. */
  ghost predicate Wrote(now: seq<real>, was: seq<real>, r: Row) {
    |now| == |was| && |r| <= |now| && now[..|r|] == r && now[|r|..] == was[|r|..]
  }

  method AddD(out: array<real>, a: array<real>, b: array<real>, n: nat)
    requires n <= out.Length && n <= a.Length && n <= b.Length
    modifies out
    ensures Wrote(out[..], old(out[..]), Add(old(a[..n]), old(b[..n])))
  {
    forall i | 0 <= i < n { out[i] := a[i] + b[i]; }
  }

  method MulD(out: array<real>, a: array<real>, b: array<real>, n: nat)
    requires n <= out.Length && n <= a.Length && n <= b.Length
    modifies out
    ensures Wrote(out[..], old(out[..]), Mul(old(a[..n]), old(b[..n])))
  {
    ghost var p := Mul(a[..n], b[..n]);
    forall i | 0 <= i < n ensures a[i] * b[i] == p[i] {
      assert At(a[..n], i) == a[i] && At(b[..n], i) == b[i];
    }
    forall i | 0 <= i < n { out[i] := a[i] * b[i]; }
  }

  method Relu2D(out: array<real>, x: array<real>, n: nat)
    requires n <= out.Length && n <= x.Length
    modifies out
    ensures Wrote(out[..], old(out[..]), Relu2(old(x[..n])))
  {
    forall i | 0 <= i < n {
      out[i] := Square(if x[i] < 0.0 then 0.0 else x[i]);
    }
  }

  // ----- reductions -----

  lemma ProductsSum(x: Row, y: Row, n: nat)
    requires n <= |x| && n <= |y|
    ensures Reduce.SumTo(Gemm.Products(x, 0, y[..n]), n) == Dot(x, y, n)
  {
    Gemm.DotIsSum(x, 0, y[..n], n);
    Gemm.DotSame(x, 0, y[..n], 0, y, 0, n);
  }

  /** The sum of products as one warp (32 lanes, shuffle) or one block (256 threads, shared memory) forms it. */
  method KernelDot(x: Row, y: Row, n: nat, block: bool) returns (dot: real)
    requires n <= |x| && n <= |y|
    ensures dot == Dot(x, y, n)
  {
    ProductsSum(x, y, n);
    PowersOfTwo();
    if block {
      dot := Reduce.WarpSum(Gemm.Products(x, 0, y[..n]), 256, false);
    } else {
      dot := Reduce.WarpSum(Gemm.Products(x, 0, y[..n]), 32, true);
    }
  }

  lemma PowersOfTwo()
    ensures Reduce.PowerOfTwo(8) && Reduce.PowerOfTwo(32) && Reduce.PowerOfTwo(256)
  {
    assert Reduce.PowerOfTwo(2) && Reduce.PowerOfTwo(4) && Reduce.PowerOfTwo(8);
    assert Reduce.PowerOfTwo(16) && Reduce.PowerOfTwo(32) && Reduce.PowerOfTwo(64) && Reduce.PowerOfTwo(128);
  }

  /** One warp per output neuron; the output buffer must not be the input. */
  method GemvD(out: array<real>, x: array<real>, w: Mat, k: nat)
    requires out != x && |w| <= out.Length && k <= x.Length
    requires forall n :: 0 <= n < |w| ==> |w[n]| == k
    modifies out
    ensures Wrote(out[..], old(out[..]), MatVec(x[..k], w))
  {
    ghost var xs := x[..k];
    ghost var was := out[..];
    for n := 0 to |w|
      invariant x[..k] == xs
      invariant forall i :: 0 <= i < n ==> out[i] == Dot(xs, w[i], k)
      invariant out[n..] == was[n..]
    {
      out[n] := KernelDot(x[..k], w[n], k, false);
    }
    assert out[..|w|] == MatVec(xs, w);
  }

  /** The GEMV filling its whole output buffer. */
  method GemvWholeD(out: array<real>, x: array<real>, w: Mat, k: nat, ghost xs: Row)
    requires out != x && |w| == out.Length && k <= x.Length && x[..k] == xs
    requires forall n :: 0 <= n < |w| ==> |w[n]| == k
    modifies out
    ensures out[..] == MatVec(xs, w)
  {
    ghost var was := out[..];
    GemvD(out, x, w, k);
    assert out[..] == out[..|MatVec(xs, w)|];
  }

  method RmsNormD(f: Fns, out: array<real>, x: array<real>, w: Row, eps: real, n: nat)
    requires 0 < n <= out.Length && n <= x.Length && |w| == n
    modifies out
    ensures Wrote(out[..], old(out[..]), RmsNorm(f, old(x[..n]), w, eps))
  {
    var ss := KernelDot(x[..n], x[..n], n, true);
    var inv := f.invSqrt(ss / n as real + eps);
    ghost var r := RmsNorm(f, x[..n], w, eps);
    assert inv == InvRms(f, x[..n], eps);
    forall i | 0 <= i < n ensures x[i] * inv * w[i] == r[i] {
      assert At(x[..n], i) == x[i] && At(w, i) == w[i];
    }
    forall i | 0 <= i < n { out[i] := x[i] * inv * w[i]; }
  }

  // ----- rotary embedding -----

  /** Entry o of a head after all its threads have run at once. */
  function Rotated(f: Fns, x: Row, base: int, half: int, pos: int, o: int): real {
    if 0 <= o < half then At(x, base + o) * f.cos(pos, 2 * o) - At(x, base + o + half) * f.sin(pos, 2 * o)
    else At(x, base + o - half) * f.sin(pos, 2 * (o - half)) + At(x, base + o) * f.cos(pos, 2 * (o - half))
  }

  lemma PutAt(x: Row, i: nat, v: real, j: int)
    requires i < |x|
    ensures At(Put(x, i, v), j) == if j == i then v else At(x, j)
  {
  }

  lemma PairAt(f: Fns, x: Row, r: Row, base: nat, half: nat, pos: int, ic: nat, j: int)
    requires |r| == |x| && ic < half && base + 2 * half <= |x|
    requires At(r, base + ic) == At(x, base + ic) && At(r, base + ic + half) == At(x, base + ic + half)
    ensures At(RopePair(f, r, base, half, pos, ic), j) ==
      if j == base + ic || j == base + ic + half then Rotated(f, x, base, half, pos, j - base) else At(r, j)
  {
    var c, s := f.cos(pos, 2 * ic), f.sin(pos, 2 * ic);
    var x0, x1 := At(r, base + ic), At(r, base + ic + half);
    PutAt(r, base + ic, x0 * c - x1 * s, j);
    PutAt(Put(r, base + ic, x0 * c - x1 * s), base + ic + half, x0 * s + x1 * c, j);
  }

  /** The sequential in-place pairs do not disturb each other: after n of them, entry j is what n threads
      running at once would have left there. */
  lemma {:induction false} RopeHeadIsParallel(f: Fns, x: Row, base: nat, hd: nat, pos: int, n: nat, j: int)
    requires hd % 2 == 0 && n <= hd / 2 && base + hd <= |x|
    ensures At(RopeHead(f, x, base, hd, pos, n), j) ==
      if base <= j < base + n || base + hd / 2 <= j < base + hd / 2 + n then Rotated(f, x, base, hd / 2, pos, j - base)
      else At(x, j)
  {
    hide RopePair, Rotated;
    if n > 0 {
      var r := RopeHead(f, x, base, hd, pos, n - 1);
      RopeHeadIsParallel(f, x, base, hd, pos, n - 1, j);
      RopeHeadIsParallel(f, x, base, hd, pos, n - 1, base + (n - 1));
      RopeHeadIsParallel(f, x, base, hd, pos, n - 1, base + (n - 1) + hd / 2);
      PairAt(f, x, r, base, hd / 2, pos, n - 1, j);
    }
  }

  /** What the thread of entry o of the head at `base` writes. */
  function RotateThread(f: Fns, x: array<real>, base: nat, half: nat, pos: int, o: nat): (r: real)
    requires base + 2 * half <= x.Length && o < 2 * half
    reads x
    ensures r == Rotated(f, x[..], base, half, pos, o)
  {
    if o < half then x[base + o] * f.cos(pos, 2 * o) - x[base + o + half] * f.sin(pos, 2 * o)
    else x[base + o - half] * f.sin(pos, 2 * (o - half)) + x[base + o] * f.cos(pos, 2 * (o - half))
  }

  /** One block of rope_inplace_kernel: the pairs of a head, all read before any is written. */
  method RopeBlock(f: Fns, x: array<real>, base: nat, hd: nat, pos: int)
    requires hd % 2 == 0 && base + hd <= x.Length
    modifies x
    ensures x[..] == RopeHead(f, old(x[..]), base, hd, pos, hd / 2)
  {
    ghost var was := x[..];
    ghost var want := RopeHead(f, was, base, hd, pos, hd / 2);
    var half := hd / 2;
    forall j | 0 <= j < |was|
      ensures want[j] == if base <= j < base + hd then Rotated(f, was, base, half, pos, j - base) else was[j]
    {
      RopeHeadIsParallel(f, was, base, hd, pos, hd / 2, j);
      assert At(want, j) == want[j] && At(was, j) == was[j];
    }
    forall i | base <= i < base + hd {
      x[i] := RotateThread(f, x, base, half, pos, i - base);
    }
    forall j | 0 <= j < |was| ensures x[j] == want[j] {
      if base <= j < base + hd { assert x[j] == Rotated(f, was, base, half, pos, j - base); }
    }
  }

  /** rope_inplace_kernel on one of q, k: one block per head. */
  method RopeD(f: Fns, x: array<real>, heads: nat, hd: nat, pos: int)
    requires hd % 2 == 0 && x.Length == heads * hd
    modifies x
    ensures x[..] == RopeHeads(f, old(x[..]), hd, pos, heads)
  {
    hide RopeHead;
    for h := 0 to heads
      invariant x[..] == RopeHeads(f, old(x[..]), hd, pos, h)
    {
      RowBounds(h, hd, heads);
      RopeBlock(f, x, h * hd, hd, pos);
    }
  }
}
