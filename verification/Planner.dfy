/** The VRAM planner: an F16 pass, an INT8 pass. */
module Planner {
  // Which layers go to the GPU, and in which precision.

  import Arith

  const MARGIN: nat := 200 * 0x10_0000
  const KV_RESERVE: nat := 180 * 0x10_0000

  /** A weight matrix: its stored bytes, its element count, and whether it is F16. */
  datatype Weight = Weight(bytes: nat, elements: nat, f16: bool)

  /** The seven weight matrices (wq and wk first) and the byte sizes of the norms that are present. */
  datatype LayerSize = LayerSize(weights: seq<Weight>, norms: seq<nat>)

  function Bytes(ws: seq<Weight>): nat {
    if |ws| == 0 then 0 else Bytes(ws[..|ws| - 1]) + ws[|ws| - 1].bytes
  }

  function Elements(ws: seq<Weight>): nat {
    if |ws| == 0 then 0 else Elements(ws[..|ws| - 1]) + ws[|ws| - 1].elements
  }

  /** INT8 bytes of the matrices that are quantized. */
  function Quantized(ws: seq<Weight>): nat {
    if |ws| == 0 then 0 else Quantized(ws[..|ws| - 1]) + if ws[|ws| - 1].f16 then ws[|ws| - 1].elements else 0
  }

  function Total(ns: seq<nat>): nat {
    if |ns| == 0 then 0 else Total(ns[..|ns| - 1]) + ns[|ns| - 1]
  }

  function F16Bytes(l: LayerSize): nat { Bytes(l.weights) + Total(l.norms) }

  function Int8Bytes(l: LayerSize): nat { Quantized(l.weights) + Total(l.norms) }

  /** A conversion to a signed 32-bit integer, and an unsigned 64-bit difference. */
  function Signed32(v: nat): int {
    var w := v % 0x1_0000_0000;
    if w < 0x8000_0000 then w else w - 0x1_0000_0000
  }

  function Minus64(a: nat, b: nat): nat { (a - b) % 0x1_0000_0000_0000_0000 }

  /** How many layers the F16 pass may take, from the sizes of layer 0. */
  function F16Limit(l0: LayerSize, n: nat, budget: nat): int {
    LimitOf(F16Bytes(l0), Elements(l0.weights) + Total(l0.norms), n, budget)
  }

  function LimitOf(f16: nat, int8: nat, n: nat, budget: nat): int {
    if int8 * n <= budget then
      var extra := Minus64(f16, int8);
      var k := if extra != 0 then Signed32((budget - int8 * n) / extra) else n;
      if k > n then n else k
    else n
  }

  /** Layers from the i-th on are taken while they fit; the result is the first one not taken and what is left. */
  function F16Pass(ls: seq<LayerSize>, limit: int, budget: nat, i: nat): (r: (nat, nat))
    requires i <= |ls|
    ensures i <= r.0 <= |ls| && r.1 <= budget
    decreases |ls| - i
  {
    if i < limit && i < |ls| && F16Bytes(ls[i]) <= budget then F16Pass(ls, limit, budget - F16Bytes(ls[i]), i + 1)
    else (i, budget)
  }

  function Int8Pass(ls: seq<LayerSize>, budget: nat, i: nat): (r: (nat, nat))
    requires i <= |ls|
    ensures i <= r.0 <= |ls| && r.1 <= budget
    decreases |ls| - i
  {
    if i < |ls| && Int8Bytes(ls[i]) <= budget then Int8Pass(ls, budget - Int8Bytes(ls[i]), i + 1) else (i, budget)
  }

  predicate WeightsF16(ls: seq<LayerSize>) {
    |ls| > 0 && |ls[0].weights| >= 2 && ls[0].weights[0].f16 && ls[0].weights[1].f16
  }

  datatype Plan = Plan(f16: nat, offloaded: nat, left: nat)

  function PlanOf(ls: seq<LayerSize>, free: nat): Plan {
    var budget := if free > MARGIN + KV_RESERVE then free - (MARGIN + KV_RESERVE) else 0;
    if budget == 0 || !WeightsF16(ls) then Plan(0, 0, budget)
    else
      var (k, b) := F16Pass(ls, F16Limit(ls[0], |ls|, budget), budget, 0);
      var (n, left) := Int8Pass(ls, b, k);
      Plan(k, n, left)
  }

  // ----- the device and the two passes -----

  /** What is left of the budget and what has been allocated. */
  class Device {
    var budget: nat
    var used: nat
    var f16Layers: nat
    var gpuLayers: nat

    constructor ()
      ensures budget == 0 && used == 0 && f16Layers == 0 && gpuLayers == 0
    {
      budget, used, f16Layers, gpuLayers := 0, 0, 0, 0;
    }

    method Alloc(n: nat)
      modifies this`used
      ensures used == old(used) + n
    {
      used := used + n;
    }

    method AllocNorms(l: LayerSize)
      modifies this`used
      ensures used == old(used) + Total(l.norms)
    {
      for i := 0 to |l.norms|
        invariant used == old(used) + Total(l.norms[..i])
      {
        Alloc(l.norms[i]);
        assert l.norms[..i + 1][..i] == l.norms[..i];
      }
      assert l.norms[..|l.norms|] == l.norms;
    }

    method OffloadF16(l: LayerSize)
      requires F16Bytes(l) <= budget
      modifies this`used, this`budget
      ensures used == old(used) + F16Bytes(l) && budget == old(budget) - F16Bytes(l)
    {
      for i := 0 to |l.weights|
        invariant used == old(used) + Bytes(l.weights[..i]) && budget == old(budget)
      {
        Alloc(l.weights[i].bytes);
        assert l.weights[..i + 1][..i] == l.weights[..i];
      }
      assert l.weights[..|l.weights|] == l.weights;
      AllocNorms(l);
      budget := budget - F16Bytes(l);
    }

    /** The budget is charged matrix by matrix, then norm by norm. */
    method OffloadInt8(l: LayerSize)
      requires Int8Bytes(l) <= budget
      modifies this`used, this`budget
      ensures used == old(used) + Int8Bytes(l) && budget == old(budget) - Int8Bytes(l)
    {
      for i := 0 to |l.weights|
        invariant used == old(used) + Quantized(l.weights[..i])
        invariant budget == old(budget) - Quantized(l.weights[..i])
      {
        assert l.weights[..i + 1][..i] == l.weights[..i];
        QuantizedGrows(l.weights, i + 1);
        if l.weights[i].f16 {
          Alloc(l.weights[i].elements);
          budget := budget - l.weights[i].elements;
        }
      }
      assert l.weights[..|l.weights|] == l.weights;
      AllocNorms(l);
      for i := 0 to |l.norms|
        invariant used == old(used) + Int8Bytes(l)
        invariant budget == old(budget) - Quantized(l.weights) - Total(l.norms[..i])
      {
        assert l.norms[..i + 1][..i] == l.norms[..i];
        TotalGrows(l.norms, i + 1);
        budget := budget - l.norms[i];
      }
      assert l.norms[..|l.norms|] == l.norms;
    }

    method F16PassLoop(ls: seq<LayerSize>, limit: int)
      modifies this
      ensures gpuLayers == f16Layers == F16Pass(ls, limit, old(budget), 0).0
      ensures budget == F16Pass(ls, limit, old(budget), 0).1
      ensures used + budget == old(used) + old(budget)
    {
      hide F16Bytes;
      var i := 0;
      while i < limit && i < |ls|
        invariant i <= |ls| && F16Pass(ls, limit, old(budget), 0) == F16Pass(ls, limit, budget, i)
        invariant used + budget == old(used) + old(budget)
        decreases |ls| - i
      {
        if F16Bytes(ls[i]) > budget { break; }
        OffloadF16(ls[i]);
        i := i + 1;
      }
      f16Layers, gpuLayers := i, i;
    }

    method Int8PassLoop(ls: seq<LayerSize>)
      requires gpuLayers <= |ls|
      modifies this`budget, this`used, this`gpuLayers
      ensures gpuLayers == Int8Pass(ls, old(budget), old(gpuLayers)).0
      ensures budget == Int8Pass(ls, old(budget), old(gpuLayers)).1
      ensures used + budget == old(used) + old(budget)
    {
      hide Int8Bytes;
      for i := gpuLayers to |ls|
        invariant gpuLayers == i && Int8Pass(ls, old(budget), old(gpuLayers)) == Int8Pass(ls, budget, i)
        invariant used + budget == old(used) + old(budget)
      {
        if Int8Bytes(ls[i]) > budget { break; }
        OffloadInt8(ls[i]);
        gpuLayers := gpuLayers + 1;
      }
    }

    /** The layers taken and the bytes used; the margin and the cache reserve are never touched. */
    method InitGpu(ls: seq<LayerSize>, free: nat)
      requires used == 0 && gpuLayers == 0 && f16Layers == 0
      modifies this
      ensures gpuLayers == PlanOf(ls, free).offloaded <= |ls| && f16Layers == PlanOf(ls, free).f16 <= gpuLayers
      ensures free > MARGIN + KV_RESERVE
        ==> used + budget == free - MARGIN - KV_RESERVE && budget == PlanOf(ls, free).left
      ensures free <= MARGIN + KV_RESERVE ==> used == 0
    {
      var reserve := MARGIN + KV_RESERVE;
      if free > reserve {
        budget := free - reserve;
        if WeightsF16(ls) {
          F16PassLoop(ls, F16Limit(ls[0], |ls|, budget));
          Int8PassLoop(ls);
        }
      }
    }
  }

  lemma {:induction false} QuantizedGrows(ws: seq<Weight>, i: nat)
    requires i <= |ws|
    ensures Quantized(ws[..i]) <= Quantized(ws)
    decreases |ws|
  {
    if i < |ws| {
      var last := |ws| - 1;
      assert ws[..last][..i] == ws[..i];
      QuantizedGrows(ws[..last], i);
    } else {
      assert ws[..i] == ws;
    }
  }

  lemma {:induction false} TotalGrows(ns: seq<nat>, i: nat)
    requires i <= |ns|
    ensures Total(ns[..i]) <= Total(ns)
    decreases |ns|
  {
    if i < |ns| {
      var last := |ns| - 1;
      assert ns[..last][..i] == ns[..i];
      TotalGrows(ns[..last], i);
    } else {
      assert ns[..i] == ns;
    }
  }

  // ----- optimality -----

  ghost predicate AllF16Layer(l: LayerSize) {
    && |l.weights| == 7
    && forall i :: 0 <= i < |l.weights| ==> l.weights[i].f16 && l.weights[i].bytes == 2 * l.weights[i].elements
  }

  /** All layers alike, with every weight matrix F16. */
  ghost predicate Alike(ls: seq<LayerSize>, l: LayerSize) {
    AllF16Layer(l) && forall i :: 0 <= i < |ls| ==> ls[i] == l
  }

  lemma {:induction false} AllF16(ws: seq<Weight>)
    requires forall i :: 0 <= i < |ws| ==> ws[i].f16 && ws[i].bytes == 2 * ws[i].elements
    ensures Bytes(ws) == 2 * Elements(ws) && Quantized(ws) == Elements(ws)
    decreases |ws|
  {
    if |ws| > 0 { AllF16(ws[..|ws| - 1]); }
  }

  lemma OneMore(m: nat, size: nat)
    requires m > 0
    ensures m * size == size + (m - 1) * size && m * size >= size
  {
  }

  lemma {:induction false} F16PassTakes(ls: seq<LayerSize>, l: LayerSize, k: nat, budget: nat, i: nat)
    requires Alike(ls, l) && i <= k <= |ls| && (k - i) * F16Bytes(l) <= budget
    ensures F16Pass(ls, k, budget, i) == (k, budget - (k - i) * F16Bytes(l))
    decreases k - i
  {
    if i < k {
      var size := F16Bytes(l);
      hide F16Bytes;
      OneMore(k - i, size);
      assert ls[i] == l;
      F16PassTakes(ls, l, k, budget - size, i + 1);
    }
  }

  lemma {:induction false} Int8PassTakes(ls: seq<LayerSize>, l: LayerSize, budget: nat, i: nat)
    requires Alike(ls, l) && i <= |ls| && (|ls| - i) * Int8Bytes(l) <= budget
    ensures Int8Pass(ls, budget, i).0 == |ls|
    decreases |ls| - i
  {
    if i < |ls| {
      var size := Int8Bytes(l);
      hide Int8Bytes;
      OneMore(|ls| - i, size);
      assert ls[i] == l;
      Int8PassTakes(ls, l, budget - size, i + 1);
    }
  }

  /** A split with k layers in F16 and the rest in INT8 fits the budget. */
  ghost predicate Feasible(l: LayerSize, n: nat, k: nat, budget: nat) {
    k <= n && SplitBytes(F16Bytes(l), Int8Bytes(l), n, k) <= budget
  }

  function SplitBytes(f16: nat, int8: nat, n: nat, k: nat): nat
    requires k <= n
  {
    k * f16 + (n - k) * int8
  }

  lemma {:induction false} FeasibleIff(n: nat, k: nat, int8: nat, extra: nat, budget: nat)
    requires k <= n && int8 * n <= budget && extra > 0
    ensures SplitBytes(int8 + extra, int8, n, k) <= budget <==> k <= (budget - int8 * n) / extra
  {
    var rest := budget - int8 * n;
    assert k * (int8 + extra) == k * int8 + k * extra;
    assert k * int8 + (n - k) * int8 == n * int8 == int8 * n;
    var q := rest / extra;
    assert q * extra <= rest < q * extra + extra;
    if k <= q { Arith.Monotone(k, q, extra); } else { Arith.RowsApart(q, k, extra); }
  }

  /** How many F16 layers the budget left over pays for, without bound; any number when they cost nothing extra. */
  function Quotient(n: nat, int8: nat, extra: nat, budget: nat): nat
    requires int8 * n <= budget
  {
    if extra == 0 then n else (budget - int8 * n) / extra
  }

  /** The count that comes out of the conversion to 32 bits and the comparison with the number of layers. */
  function Counted(q: nat, n: nat): (k: nat)
    ensures k <= n
  {
    if Signed32(q) < 0 then 0 else if Signed32(q) > n then n else Signed32(q)
  }

  /** All layers fit in INT8, and the sizes and the layer count fit the integers they are stored in. */
  ghost predicate AllFit(l: LayerSize, n: nat, budget: nat) {
    F16Bytes(l) < 0x1_0000_0000_0000_0000 && n < 0x8000_0000 && Int8Bytes(l) * n <= budget
  }

  /** For equal F16 layers where all of them fit in INT8: every layer is offloaded, within the budget, and as many in
      F16 as the converted quotient says. No split within the budget has more F16 layers if and only if the quotient
      fits its 32-bit counter, or what the conversion makes of it is still no less than the number of layers. */
  lemma {:induction false} PlanIsOptimal(ls: seq<LayerSize>, l: LayerSize, free: nat, budget: nat)
    requires Alike(ls, l) && |ls| > 0 && free == budget + (MARGIN + KV_RESERVE) && budget > 0 && AllFit(l, |ls|, budget)
    ensures var plan, q := PlanOf(ls, free), Quotient(|ls|, Int8Bytes(l), Elements(l.weights), budget);
      && plan.offloaded == |ls| && plan.f16 == Counted(q, |ls|) && Feasible(l, |ls|, plan.f16, budget)
      && ((forall k: nat :: Feasible(l, |ls|, k, budget) ==> k <= plan.f16) <==> q < 0x8000_0000 || Signed32(q) >= |ls|)
  {
    hide F16Limit, F16Pass, Int8Pass, Feasible, AllFit, F16Bytes, Int8Bytes, Elements, Quotient, Signed32, Counted;
    SplitTaken(ls, l, budget);
    BestSplit(l, |ls|, budget);
    FirstIsF16(ls, l);
    hide Alike, WeightsF16;
    assert free - (MARGIN + KV_RESERVE) == budget;
  }

  /** For illustration: one layer of seven one-element matrices and a budget for 2^31 of them. The count turns negative
      and the layer is quantized although it fits in F16. */
  lemma WideBudget()
    ensures var l := LayerSize(seq(7, i => Weight(2, 1, true)), []);
      var budget := 7 + 7 * 0x8000_0000;
      Feasible(l, 1, 1, budget) && PlanOf([l], budget + (MARGIN + KV_RESERVE)).f16 == 0
  {
    var ws := seq(7, i => Weight(2, 1, true));
    var l, budget := LayerSize(ws, []), 7 + 7 * 0x8000_0000;
    SevenElements(ws, 7);
    assert ws[..7] == ws;
    AllF16(ws);
    assert Elements(l.weights) == 7 && Int8Bytes(l) == 7 && F16Bytes(l) == 14;
    hide F16Bytes, Int8Bytes, Elements;
    PlanIsOptimal([l], l, budget + (MARGIN + KV_RESERVE), budget);
    assert Quotient(1, 7, 7, budget) == 0x8000_0000;
  }

  lemma {:induction false} SevenElements(ws: seq<Weight>, n: nat)
    requires n <= |ws| && forall i :: 0 <= i < |ws| ==> ws[i].elements == 1
    ensures Elements(ws[..n]) == n
  {
    if n > 0 {
      assert ws[..n][..n - 1] == ws[..n - 1];
      SevenElements(ws, n - 1);
    }
  }

  lemma FirstIsF16(ls: seq<LayerSize>, l: LayerSize)
    requires Alike(ls, l) && |ls| > 0
    ensures WeightsF16(ls) && ls[0] == l
  {
    assert ls[0] == l && l.weights[0].f16 && l.weights[1].f16;
  }

  /** The two passes on equal layers. */
  lemma SplitTaken(ls: seq<LayerSize>, l: LayerSize, budget: nat)
    requires Alike(ls, l) && AllFit(l, |ls|, budget)
    ensures var limit := F16Limit(l, |ls|, budget);
      var k := Counted(Quotient(|ls|, Int8Bytes(l), Elements(l.weights), budget), |ls|);
      && Feasible(l, |ls|, k, budget)
      && F16Pass(ls, limit, budget, 0).0 == k && Int8Pass(ls, F16Pass(ls, limit, budget, 0).1, k).0 == |ls|
  {
    var n, int8, extra := |ls|, Int8Bytes(l), Elements(l.weights);
    assert AllF16Layer(l);
    hide F16Bytes, Int8Bytes, F16Limit, Elements, Alike, F16Pass, Int8Pass, SplitBytes, Quotient, Signed32, Counted;
    LimitIs(l, n, budget);
    var q := Quotient(n, int8, extra, budget);
    var k, limit := Counted(q, n), F16Limit(l, n, budget);
    CountedAtMost(q, n);
    FeasibleUpTo(n, k, int8, extra, budget);
    SplitRuns(ls, l, k, budget);
    NegativeLimit(ls, limit, k, budget);
  }

  /** A negative limit takes as many layers as a limit of zero. */
  lemma NegativeLimit(ls: seq<LayerSize>, limit: int, k: nat, budget: nat)
    requires limit == k || (limit < 0 && k == 0)
    ensures F16Pass(ls, limit, budget, 0) == F16Pass(ls, k, budget, 0)
  {
  }

  /** The conversion never gives more than the quotient. */
  lemma CountedAtMost(q: nat, n: nat)
    ensures Counted(q, n) <= q
    ensures q < 0x8000_0000 ==> Signed32(q) == q
  {
  }

  /** Within the number of layers, feasible means no more than the quotient. */
  lemma FeasibleUpTo(n: nat, k: nat, int8: nat, extra: nat, budget: nat)
    requires k <= n && int8 * n <= budget
    ensures SplitBytes(int8 + extra, int8, n, k) <= budget <==> k <= Quotient(n, int8, extra, budget)
  {
    if extra > 0 { FeasibleIff(n, k, int8, extra, budget); } else { assert k * int8 + (n - k) * int8 == int8 * n; }
  }

  /** The most F16 layers a feasible split has is the smaller of quotient and layer count. */
  lemma BestSplit(l: LayerSize, n: nat, budget: nat)
    requires AllF16Layer(l) && AllFit(l, n, budget) && n > 0
    ensures var q := Quotient(n, Int8Bytes(l), Elements(l.weights), budget);
      (forall k: nat :: Feasible(l, n, k, budget) ==> k <= Counted(q, n)) <==> q < 0x8000_0000 || Signed32(q) >= n
  {
    var int8, extra := Int8Bytes(l), Elements(l.weights);
    var q := Quotient(n, int8, extra, budget);
    var best := if q < n then q else n;
    AllF16(l.weights);
    assert F16Bytes(l) == int8 + extra;
    hide F16Bytes, Int8Bytes, Elements, SplitBytes, Quotient, Signed32;
    CountedAtMost(q, n);
    forall k: nat ensures Feasible(l, n, k, budget) <==> k <= best {
      if k <= n { FeasibleUpTo(n, k, int8, extra, budget); }
    }
    if forall k: nat :: Feasible(l, n, k, budget) ==> k <= Counted(q, n) { assert Feasible(l, n, best, budget); }
  }

  lemma Minus64Is(a: nat, b: nat)
    requires b <= a < 0x1_0000_0000_0000_0000
    ensures Minus64(a, b) == a - b
  {
  }

  /** What the limit computes when the layer is all F16: the counted quotient, or less than nothing. */
  lemma LimitIs(l: LayerSize, n: nat, budget: nat)
    requires AllF16Layer(l) && AllFit(l, n, budget)
    ensures F16Bytes(l) == Int8Bytes(l) + Elements(l.weights)
    ensures var k := Counted(Quotient(n, Int8Bytes(l), Elements(l.weights), budget), n);
      F16Limit(l, n, budget) == k || (F16Limit(l, n, budget) < 0 && k == 0)
  {
    hide LimitOf, Elements, Bytes, Quantized, Total, Quotient, Counted;
    AllF16(l.weights);
    LimitNumber(F16Bytes(l), Int8Bytes(l), Elements(l.weights), n, budget);
  }

  lemma LimitNumber(f16: nat, int8: nat, extra: nat, n: nat, budget: nat)
    requires f16 == int8 + extra < 0x1_0000_0000_0000_0000 && int8 * n <= budget && n < 0x8000_0000
    ensures var k := Counted(Quotient(n, int8, extra, budget), n);
      LimitOf(f16, int8, n, budget) == k || (LimitOf(f16, int8, n, budget) < 0 && k == 0)
  {
    Minus64Is(f16, int8);
    CountedAtMost(n, n);
    hide Signed32, Minus64;
  }

  lemma SplitRuns(ls: seq<LayerSize>, l: LayerSize, k: nat, budget: nat)
    requires Alike(ls, l) && k <= |ls| && SplitBytes(F16Bytes(l), Int8Bytes(l), |ls|, k) <= budget
    ensures F16Pass(ls, k, budget, 0).0 == k && Int8Pass(ls, F16Pass(ls, k, budget, 0).1, k).0 == |ls|
  {
    hide F16Bytes, Int8Bytes;
    F16PassTakes(ls, l, k, budget, 0);
    Int8PassTakes(ls, l, budget - k * F16Bytes(l), k);
  }
}
