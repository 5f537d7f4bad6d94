/** Dense matrix products over columns. */
module Gemm {
  // Eight-lane dot products, and the tiled single-row product that advances eight output columns together.

  import opened Arith
  import opened Reduce
  import opened Rows

  // ----- one dot product -----

  lemma {:induction false} DotSame(x: seq<real>, xo: nat, w: seq<real>, wo: nat, v: seq<real>, vo: nat, n: nat)
    requires xo + n <= |x| && wo + n <= |w| && vo + n <= |v| && w[wo..wo + n] == v[vo..vo + n]
    ensures DotAt(x, xo, w, wo, n) == DotAt(x, xo, v, vo, n)
  {
    if n > 0 {
      assert w[wo..wo + (n - 1)] == w[wo..wo + n][..n - 1] && v[vo..vo + (n - 1)] == v[vo..vo + n][..n - 1];
      assert w[wo..wo + n][n - 1] == w[wo + (n - 1)] && v[vo..vo + n][n - 1] == v[vo + (n - 1)];
      DotSame(x, xo, w, wo, v, vo, n - 1);
    }
  }

  function Products(x: seq<real>, xo: nat, w: seq<real>): (t: seq<real>)
    requires xo + |w| <= |x|
    ensures |t| == |w|
  {
    seq(|w|, k requires 0 <= k < |w| => x[xo + k] * w[k])
  }

  lemma {:induction false} DotIsSum(x: seq<real>, xo: nat, w: seq<real>, n: nat)
    requires xo + |w| <= |x| && n <= |w|
    ensures SumTo(Products(x, xo, w), n) == DotAt(x, xo, w, 0, n)
  {
    if n > 0 { DotIsSum(x, xo, w, n - 1); }
  }

  /** The vector loop: eight lanes, their horizontal sum, then the tail one by one. */
  method DotLanes(x: seq<real>, xo: nat, w: seq<real>) returns (sum: real)
    requires xo + |w| <= |x|
    ensures sum == DotAt(x, xo, w, 0, |w|)
  {
    var acc, k := VectorLoop(x, xo, w);
    ghost var t := Products(x, xo, w);
    LanesTotal(t, 8, k);
    sum := Tree(acc, true);
    while k < |w|
      invariant k <= |w| && sum == SumTo(t, k)
    {
      sum := sum + w[k] * x[xo + k];
      k := k + 1;
    }
    DotIsSum(x, xo, w, |w|);
  }

  method VectorLoop(x: seq<real>, xo: nat, w: seq<real>) returns (acc: array<real>, k: nat)
    requires xo + |w| <= |x|
    ensures k <= |w| && acc.Length == 8 && fresh(acc) && acc[..] == LaneSums(Products(x, xo, w), 8, k)
  {
    ghost var t := Products(x, xo, w);
    hide Products, Strided;
    acc := new real[8](_ => 0.0);
    k := 0;
    forall lane | 0 <= lane < 8 ensures Strided(t, lane, 8, 0) == 0.0 { StridedBelow(t, lane, 8, 0); }
    while k + 7 < |w|
      invariant k <= |w| && k % 8 == 0
      invariant forall lane :: 0 <= lane < 8 ==> acc[lane] == Strided(t, lane, 8, k)
    {
      forall lane | 0 <= lane < 8 ensures Strided(t, lane, 8, k + 8) == Strided(t, lane, 8, k) + t[k + lane] {
        StridedBlock(t, lane, 8, k);
      }
      AddLanes(acc, x, xo, w, k);
      k := k + 8;
    }
  }

  method AddLanes(acc: array<real>, x: seq<real>, xo: nat, w: seq<real>, k: nat)
    requires acc.Length == 8 && k + 8 <= |w| && xo + |w| <= |x|
    modifies acc
    ensures forall lane :: 0 <= lane < 8 ==> acc[lane] == old(acc[lane]) + Products(x, xo, w)[k + lane]
  {
    forall lane | 0 <= lane < 8 {
      acc[lane] := acc[lane] + w[k + lane] * x[xo + k + lane];
    }
  }

  // ----- the tiled single-row product -----

  /** Columns of one tile. */
  const TILE: nat := 8

  ghost predicate Columns(x: Row, w: Mat) { forall n :: 0 <= n < |w| ==> |w[n]| == |x| }

  /** Lane sums of the tile's columns after the first k inputs. */
  ghost predicate TileAt(acc: array2<real>, x: Row, w: Mat, nb: nat, nc: nat, k: nat)
    reads acc
  {
    && acc.Length0 == TILE && acc.Length1 == 8 && nc <= TILE && nb + nc <= |w| && Columns(x, w) && k <= |x|
    && forall i, lane :: 0 <= i < nc && 0 <= lane < 8 ==> acc[i, lane] == LaneAt(x, w, nb, i, lane, k)
  }

  /** What lane `lane` of the i-th column of the tile holds. */
  ghost function LaneAt(x: Row, w: Mat, nb: nat, i: nat, lane: nat, k: nat): real
    requires Columns(x, w) && nb + i < |w| && k <= |x|
  {
    Strided(Products(x, 0, w[nb + i]), lane, 8, k)
  }

  /** One vector step: the activation is loaded once and used for all columns of the tile. */
  method FmaTile(acc: array2<real>, x: Row, w: Mat, nb: nat, nc: nat, k: nat)
    requires TileAt(acc, x, w, nb, nc, k) && k + 8 <= |x| && k % 8 == 0
    modifies acc
    ensures TileAt(acc, x, w, nb, nc, k + 8)
  {
    hide LaneAt;
    forall i, lane | 0 <= i < nc && 0 <= lane < 8
      ensures LaneAt(x, w, nb, i, lane, k + 8) == LaneAt(x, w, nb, i, lane, k) + x[k + lane] * w[nb + i][k + lane]
    {
      LaneStep(x, w, nb, i, lane, k);
    }
    forall i, lane | 0 <= i < nc && 0 <= lane < 8 {
      acc[i, lane] := acc[i, lane] + x[k + lane] * w[nb + i][k + lane];
    }
  }

  lemma LaneStep(x: Row, w: Mat, nb: nat, i: nat, lane: nat, k: nat)
    requires Columns(x, w) && nb + i < |w| && lane < 8 && k + 8 <= |x| && k % 8 == 0
    ensures LaneAt(x, w, nb, i, lane, k + 8) == LaneAt(x, w, nb, i, lane, k) + x[k + lane] * w[nb + i][k + lane]
  {
    StridedBlock(Products(x, 0, w[nb + i]), lane, 8, k);
  }

  method NewTile(x: Row, w: Mat, nb: nat, nc: nat) returns (acc: array2<real>)
    requires Columns(x, w) && nc <= TILE && nb + nc <= |w|
    ensures fresh(acc) && TileAt(acc, x, w, nb, nc, 0)
  {
    acc := new real[TILE, 8]((i, lane) => 0.0);
    forall i, lane | 0 <= i < nc && 0 <= lane < 8 ensures LaneAt(x, w, nb, i, lane, 0) == 0.0 {
      StridedBelow(Products(x, 0, w[nb + i]), lane, 8, 0);
    }
  }

  /** The horizontal sum of one column's lanes. */
  method HorizontalSum(acc: array2<real>, x: Row, w: Mat, nb: nat, nc: nat, k: nat, i: nat) returns (sum: real)
    requires TileAt(acc, x, w, nb, nc, k) && i < nc
    ensures sum == SumTo(Products(x, 0, w[nb + i]), k)
  {
    var lanes := new real[8](l requires 0 <= l < 8 reads acc =>
      if i < acc.Length0 && l < acc.Length1 then acc[i, l] else 0.0);
    ghost var t := Products(x, 0, w[nb + i]);
    assert lanes[..] == LaneSums(t, 8, k);
    LanesTotal(t, 8, k);
    sum := Tree(lanes, true);
  }

  /** The scalar tail of one column. */
  method Tail(x: Row, col: Row, k: nat, start: real) returns (sum: real)
    requires |col| == |x| && k <= |x| && start == SumTo(Products(x, 0, col), k)
    ensures sum == Dot(x, col, |x|)
  {
    sum := start;
    for j := k to |x|
      invariant sum == SumTo(Products(x, 0, col), j)
    {
      sum := sum + x[j] * col[j];
    }
    DotIsSum(x, 0, col, |x|);
  }

  /** A full tile: two vector steps per round, then single steps. */
  method FullTile(x: Row, w: Mat, nb: nat) returns (acc: array2<real>, k: nat)
    requires Columns(x, w) && nb + TILE <= |w|
    ensures fresh(acc) && TileAt(acc, x, w, nb, TILE, k)
  {
    hide TileAt;
    acc := NewTile(x, w, nb, TILE);
    k := 0;
    while k + 15 < |x|
      invariant k <= |x| && k % 8 == 0 && TileAt(acc, x, w, nb, TILE, k)
    {
      FmaTile(acc, x, w, nb, TILE, k);
      FmaTile(acc, x, w, nb, TILE, k + 8);
      k := k + 16;
    }
    while k + 7 < |x|
      invariant k <= |x| && k % 8 == 0 && TileAt(acc, x, w, nb, TILE, k)
    {
      FmaTile(acc, x, w, nb, TILE, k);
      k := k + 8;
    }
  }

  /** The last tile when the column count is not a multiple of eight. */
  method PartialTile(x: Row, w: Mat, nb: nat, nc: nat) returns (acc: array2<real>, k: nat)
    requires Columns(x, w) && nc <= TILE && nb + nc <= |w|
    ensures fresh(acc) && TileAt(acc, x, w, nb, nc, k)
  {
    hide TileAt;
    acc := NewTile(x, w, nb, nc);
    k := 0;
    while k + 7 < |x|
      invariant k <= |x| && k % 8 == 0 && TileAt(acc, x, w, nb, nc, k)
    {
      FmaTile(acc, x, w, nb, nc, k);
      k := k + 8;
    }
  }

  method TiledGemv(x: Row, w: Mat) returns (out: array<real>)
    requires Columns(x, w)
    ensures out[..] == MatVec(x, w)
  {
    hide TileAt;
    out := new real[|w|];
    var nb := 0;
    while nb < |w|
      invariant nb <= |w| && forall n :: 0 <= n < nb ==> out[n] == Dot(x, w[n], |x|)
      decreases |w| - nb
    {
      var nc := if nb + TILE <= |w| then TILE else |w| - nb;
      var acc, k;
      if nc == TILE { acc, k := FullTile(x, w, nb); } else { acc, k := PartialTile(x, w, nb, nc); }
      WriteTile(out, acc, x, w, nb, nc, k);
      nb := nb + nc;
    }
  }

  method WriteTile(out: array<real>, acc: array2<real>, x: Row, w: Mat, nb: nat, nc: nat, k: nat)
    requires TileAt(acc, x, w, nb, nc, k) && out.Length == |w|
    modifies out
    ensures forall n :: nb <= n < nb + nc ==> out[n] == Dot(x, w[n], |x|)
    ensures forall n :: 0 <= n < nb ==> out[n] == old(out[n])
  {
    for i := 0 to nc
      invariant TileAt(acc, x, w, nb, nc, k)
      invariant forall n :: nb <= n < nb + i ==> out[n] == Dot(x, w[n], |x|)
      invariant forall n :: 0 <= n < nb ==> out[n] == old(out[n])
    {
      var sum := HorizontalSum(acc, x, w, nb, nc, k, i);
      out[nb + i] := Tail(x, w[nb + i], k, sum);
    }
  }

  /** A single row takes the tiled path, several rows one dot product after the other; both are the plain product. */
  method Matmul(xs: seq<Row>, w: Mat) returns (outs: seq<Row>)
    requires forall m :: 0 <= m < |xs| ==> Columns(xs[m], w)
    ensures |outs| == |xs| && forall m :: 0 <= m < |xs| ==> outs[m] == MatVec(xs[m], w)
  {
    if |xs| == 1 {
      var out := TiledGemv(xs[0], w);
      return [out[..]];
    }
    outs := [];
    for m := 0 to |xs|
      invariant |outs| == m && forall i :: 0 <= i < m ==> outs[i] == MatVec(xs[i], w)
    {
      var out := new real[|w|];
      for n := 0 to |w|
        invariant forall i :: 0 <= i < n ==> out[i] == Dot(xs[m], w[i], |xs[m]|)
      {
        out[n] := DotLanes(xs[m], 0, w[n]);
      }
      outs := outs + [out[..]];
    }
  }
}
