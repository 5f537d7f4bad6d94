/** The parallel sums of the kernels, lane by lane. */
module Reduce {
  // Strided per-lane partial sums followed by a halving tree, which is the warp shuffle of the GEMV kernels, the
  // shared-memory loop of the norm kernel and the 8-lane horizontal sum of the AVX2 loops.

  import opened Arith

  function SumTo(t: seq<real>, n: nat): real
    requires n <= |t|
  {
    if n == 0 then 0.0 else SumTo(t, n - 1) + t[n - 1]
  }

  /** What lane `lane` of `lanes` has summed of the first n terms. */
  function Strided(t: seq<real>, lane: nat, lanes: nat, n: nat): real
    requires n <= |t| && lanes > 0
  {
    if n == 0 then 0.0 else Strided(t, lane, lanes, n - 1) + if (n - 1) % lanes == lane then t[n - 1] else 0.0
  }

  ghost predicate PowerOfTwo(m: nat) {
    m == 1 || (m > 1 && m % 2 == 0 && PowerOfTwo(m / 2))
  }

  // ----- lanes -----

  lemma {:induction false} StridedGap(t: seq<real>, lane: nat, lanes: nat, k: nat, j: nat)
    requires 0 < j <= lanes && k + j <= |t| && lane < lanes && k % lanes == lane
    ensures Strided(t, lane, lanes, k + j) == Strided(t, lane, lanes, k) + t[k]
  {
    if j > 1 {
      StridedGap(t, lane, lanes, k, j - 1);
      ModNext(k, j - 1, lanes);
    }
  }

  lemma {:induction false} StridedBelow(t: seq<real>, lane: nat, lanes: nat, n: nat)
    requires n <= lane < lanes && n <= |t|
    ensures Strided(t, lane, lanes, n) == 0.0
  {
    if n > 0 { StridedBelow(t, lane, lanes, n - 1); }
  }

  lemma {:induction false} StridedSkip(t: seq<real>, lane: nat, lanes: nat, k: nat, j: nat)
    requires j <= lane < lanes && k % lanes == 0 && k + j <= |t|
    ensures Strided(t, lane, lanes, k + j) == Strided(t, lane, lanes, k)
  {
    if j > 0 {
      StridedSkip(t, lane, lanes, k, j - 1);
      DivIs(k + (j - 1), lanes, k / lanes, j - 1);
    }
  }

  /** One vector step of all lanes. */
  lemma StridedBlock(t: seq<real>, lane: nat, lanes: nat, k: nat)
    requires lane < lanes && k % lanes == 0 && k + lanes <= |t|
    ensures Strided(t, lane, lanes, k + lanes) == Strided(t, lane, lanes, k) + t[k + lane]
  {
    hide Strided;
    StridedSkip(t, lane, lanes, k, lane);
    DivIs(k + lane, lanes, k / lanes, lane);
    assert k + lane + (lanes - lane) == k + lanes;
    StridedGap(t, lane, lanes, k + lane, lanes - lane);
  }

  function LaneSums(t: seq<real>, lanes: nat, n: nat): (r: seq<real>)
    requires n <= |t| && lanes > 0
    ensures |r| == lanes
  {
    seq(lanes, lane requires 0 <= lane => Strided(t, lane, lanes, n))
  }

  lemma {:induction false} SumBump(a: seq<real>, b: seq<real>, i: nat, v: real, n: nat)
    requires |a| == |b| && i < |a| && n <= |a|
    requires forall j :: 0 <= j < |a| ==> b[j] == if j == i then a[j] + v else a[j]
    ensures SumTo(b, n) == SumTo(a, n) + if i < n then v else 0.0
  {
    if n > 0 { SumBump(a, b, i, v, n - 1); }
  }

  /** The lanes together hold every term exactly once. */
  lemma {:induction false} LanesTotal(t: seq<real>, lanes: nat, n: nat)
    requires n <= |t| && lanes > 0
    ensures SumTo(LaneSums(t, lanes, n), lanes) == SumTo(t, n)
  {
    if n == 0 {
      SumZero(LaneSums(t, lanes, 0), lanes);
    } else {
      LanesTotal(t, lanes, n - 1);
      SumBump(LaneSums(t, lanes, n - 1), LaneSums(t, lanes, n), (n - 1) % lanes, t[n - 1], lanes);
    }
  }

  lemma {:induction false} SumZero(a: seq<real>, n: nat)
    requires n <= |a| && forall j :: 0 <= j < |a| ==> a[j] == 0.0
    ensures SumTo(a, n) == 0.0
  {
    if n > 0 { SumZero(a, n - 1); }
  }

  /** One lane's loop: k = lane, lane + lanes, ... */
  method LaneLoop(t: seq<real>, lane: nat, lanes: nat) returns (sum: real)
    requires lane < lanes
    ensures sum == Strided(t, lane, lanes, |t|)
  {
    sum := 0.0;
    var k := lane;
    DivIs(lane, lanes, 0, lane);
    StridedBelow(t, lane, lanes, if k <= |t| then k else |t|);
    while k < |t|
      invariant k % lanes == lane
      invariant k < |t| ==> sum == Strided(t, lane, lanes, k)
      invariant k >= |t| ==> sum == Strided(t, lane, lanes, |t|)
    {
      var j := if k + lanes <= |t| then lanes else |t| - k;
      StridedGap(t, lane, lanes, k, j);
      ModStep(k, lanes);
      sum := sum + t[k];
      k := k + lanes;
    }
  }

  // ----- tree -----

  lemma {:induction false} FoldHalf(a: seq<real>, b: seq<real>, half: nat, i: nat)
    requires 2 * half <= |a| && half <= |b| && i <= half
    requires forall j :: 0 <= j < half ==> b[j] == a[j] + a[j + half]
    ensures SumTo(b, i) == SumTo(a, i) + (SumTo(a, half + i) - SumTo(a, half))
  {
    if i > 0 { FoldHalf(a, b, half, i - 1); }
  }

  /** The sum of the live lanes survives one halving step. */
  ghost predicate Halved(before: seq<real>, after: seq<real>, s: nat) {
    |after| == |before| && 2 * s <= |before| && forall j :: 0 <= j < s ==> after[j] == before[j] + before[j + s]
  }

  /** One shuffle step: every lane adds the lane s above it, or its own value if there is none. */
  method ShuffleStep(lanes: array<real>, s: nat)
    requires 2 * s <= lanes.Length
    modifies lanes
    ensures Halved(old(lanes[..]), lanes[..], s)
  {
    ghost var before := lanes[..];
    forall i | 0 <= i < lanes.Length {
      lanes[i] := lanes[i] + if i + s < lanes.Length then lanes[i + s] else lanes[i];
    }
    assert forall i :: 0 <= i < s ==> lanes[i] == before[i] + before[i + s];
  }

  /** One shared-memory step: only the first s threads add, the others keep their value. */
  method SharedStep(sdata: array<real>, s: nat)
    requires 2 * s <= sdata.Length
    modifies sdata
    ensures Halved(old(sdata[..]), sdata[..], s)
  {
    forall tid | 0 <= tid < s {
      sdata[tid] := sdata[tid] + sdata[tid + s];
    }
  }

  /** The reduction tree, s halving down to 1: entry 0 ends with the total. */
  method Tree(a: array<real>, shuffle: bool) returns (total: real)
    requires PowerOfTwo(a.Length)
    modifies a
    ensures total == SumTo(old(a[..]), a.Length)
  {
    ghost var start := a[..];
    ghost var live: nat := a.Length;
    var s := a.Length / 2;
    while s > 0
      invariant PowerOfTwo(live) && live <= a.Length && s == live / 2
      invariant SumTo(a[..], live) == SumTo(start, a.Length)
      decreases s
    {
      ghost var before := a[..];
      if shuffle { ShuffleStep(a, s); } else { SharedStep(a, s); }
      FoldHalf(before, a[..], s, s);
      live := s;
      s := s / 2;
    }
    total := a[0];
  }

  /** A full kernel sum: `lanes` strided partial sums, then the tree. */
  method WarpSum(t: seq<real>, lanes: nat, shuffle: bool) returns (total: real)
    requires PowerOfTwo(lanes)
    ensures total == SumTo(t, |t|)
  {
    var acc := new real[lanes];
    for lane := 0 to lanes
      invariant forall i :: 0 <= i < lane ==> acc[i] == Strided(t, i, lanes, |t|)
    {
      acc[lane] := LaneLoop(t, lane, lanes);
    }
    assert acc[..] == LaneSums(t, lanes, |t|);
    LanesTotal(t, lanes, |t|);
    total := Tree(acc, shuffle);
  }
}
