/** Merging low-rank weight adapters in. */
module Lora {
  // In exact arithmetic and on the column-major layout of the tensors.

  import opened Prelude
  import Arith
  import opened Reals
  import opened Rows

  lemma TimesAdds(x: real, y: real, z: real)
    ensures Times(x + y, z) == Times(x, z) + Times(y, z)
    ensures Times(z, x + y) == Times(z, x) + Times(z, y)
  {
  }

  lemma TimesMoves(x: real, y: real, z: real)
    ensures Times(Times(x, y), z) == Times(x, Times(y, z)) && Times(x, y) == Times(y, x)
  {
  }

  /** The adapter of one weight matrix: a is [m, k], b is [k, n]. */
  datatype Pair = Pair(a: seq<real>, b: seq<real>, k: nat)

  /** Entry (row, col) of a times b, over the first j inner indices. Tensors are column-major: entry (i0, i1) of one
      with leading dimension ne0 is at i1 * ne0 + i0. */
  function Inner(p: Pair, m: nat, row: nat, col: nat, j: nat): real {
    if j == 0 then 0.0
    else Inner(p, m, row, col, j - 1) + Times(At(p.a, (j - 1) * m + row), At(p.b, col * p.k + (j - 1)))
  }

  /** Entry i of the flat product. */
  function DeltaAt(p: Pair, m: nat, i: nat): real
    requires m > 0
  {
    Inner(p, m, i % m, i / m, p.k)
  }

  function Merged(w: seq<real>, p: Pair, m: nat, scale: real): (r: seq<real>)
    requires m > 0
    ensures |r| == |w|
  {
    seq(|w|, i requires 0 <= i < |w| => w[i] + Times(DeltaAt(p, m, i), scale))
  }

  // ----- merged weights against the two-stage product -----

  /** Output neuron `col` of x times w, over the first j inputs. */
  function Output(x: seq<real>, w: seq<real>, m: nat, col: nat, j: nat): real {
    if j == 0 then 0.0 else Output(x, w, m, col, j - 1) + Times(At(x, j - 1), At(w, col * m + (j - 1)))
  }

  /** First stage: inner index h of x times a, over the first j inputs. */
  function Stage(x: seq<real>, p: Pair, m: nat, h: nat, j: nat): real {
    if j == 0 then 0.0 else Stage(x, p, m, h, j - 1) + Times(At(x, j - 1), At(p.a, h * m + (j - 1)))
  }

  /** Second stage: the first-stage result times b, over the first h inner indices. */
  function TwoStage(x: seq<real>, p: Pair, m: nat, col: nat, j: nat, h: nat): real {
    if h == 0 then 0.0
    else TwoStage(x, p, m, col, j, h - 1) + Times(Stage(x, p, m, h - 1, j), At(p.b, col * p.k + (h - 1)))
  }

  /** One more input adds its share of every inner index. */
  lemma {:induction false} OneMoreInput(x: seq<real>, p: Pair, m: nat, col: nat, j: nat, h: nat)
    ensures TwoStage(x, p, m, col, j + 1, h) == TwoStage(x, p, m, col, j, h) + Times(At(x, j), Inner(p, m, j, col, h))
  {
    if h == 0 {
      assert Times(At(x, j), 0.0) == 0.0;
    } else {
      OneMoreInput(x, p, m, col, j, h - 1);
      var s, xa, b := Stage(x, p, m, h - 1, j), Times(At(x, j), At(p.a, (h - 1) * m + j)), At(p.b, col * p.k + (h - 1));
      assert Stage(x, p, m, h - 1, j + 1) == s + xa;
      var a := At(p.a, (h - 1) * m + j);
      hide Times;
      TimesAdds(s, xa, b);
      TimesMoves(At(x, j), a, b);
      TimesAdds(Inner(p, m, j, col, h - 1), Times(a, b), At(x, j));
    }
  }

  lemma {:induction false} NoInput(x: seq<real>, p: Pair, m: nat, col: nat, h: nat)
    ensures TwoStage(x, p, m, col, 0, h) == 0.0
  {
    if h > 0 {
      NoInput(x, p, m, col, h - 1);
      assert Times(0.0, At(p.b, col * p.k + (h - 1))) == 0.0;
    }
  }

  /** The merged product, over the first j inputs. */
  lemma {:induction false} PartialMerge(x: seq<real>, w: seq<real>, p: Pair, m: nat, scale: real, col: nat, j: nat)
    requires m > 0 && j <= m && col * m + m <= |w|
    ensures Output(x, Merged(w, p, m, scale), m, col, j) == Output(x, w, m, col, j)
      + Times(scale, TwoStage(x, p, m, col, j, p.k))
  {
    if j == 0 {
      NoInput(x, p, m, col, p.k);
      assert Times(scale, 0.0) == 0.0;
    } else {
      var i := j - 1;
      PartialMerge(x, w, p, m, scale, col, i);
      OneMoreInput(x, p, m, col, i, p.k);
      MergedEntry(w, p, m, scale, i, col);
      var d, v := Inner(p, m, i, col, p.k), At(x, i);
      hide Times, Merged, TwoStage, Inner;
      TimesAdds(At(w, col * m + i), Times(d, scale), v);
      TimesMoves(v, d, scale);
      TimesMoves(scale, Times(v, d), 0.0);
      TimesAdds(TwoStage(x, p, m, col, i, p.k), Times(v, d), scale);
    }
  }

  lemma {:induction false} MergedEntry(w: seq<real>, p: Pair, m: nat, scale: real, row: nat, col: nat)
    requires row < m && col * m + m <= |w|
    ensures At(Merged(w, p, m, scale), col * m + row) == At(w, col * m + row) + Times(Inner(p, m, row, col, p.k), scale)
  {
    Arith.DivIs(col * m + row, m, col, row);
  }

  /** Multiplying by merged weights is the base output plus scale times the two-stage adapter product. */
  lemma {:induction false} MergeIsExact(x: seq<real>, w: seq<real>, p: Pair, m: nat, scale: real, col: nat)
    requires m > 0 && col * m + m <= |w|
    ensures Output(x, Merged(w, p, m, scale), m, col, m) == Output(x, w, m, col, m)
      + Times(scale, TwoStage(x, p, m, col, m, p.k))
  {
    PartialMerge(x, w, p, m, scale, col, m);
  }

  // ----- lists of adapters -----

  /** One adapter file: a pair for each weight matrix it covers. */
  datatype Adapter = Adapter(parts: seq<Option<Pair>>, alpha: real, rank: nat)

  ghost predicate ValidAdapter(ad: Adapter, n: nat) { |ad.parts| == n && ad.rank > 0 }

  /** A weight matrix with its leading dimension. */
  datatype Matrix = Matrix(m: nat, w: seq<real>)

  ghost predicate ValidModel(ws: seq<Matrix>) { forall t :: 0 <= t < |ws| ==> ws[t].m > 0 }

  function ScaleOf(ad: Adapter): real
    requires ad.rank > 0
  {
    ad.alpha / ad.rank as real
  }

  /** The scale is alpha over rank: rank times what an entry gains is alpha times the adapter's entry. */
  lemma GainIsAlphaOverRank(w: seq<real>, p: Pair, m: nat, ad: Adapter, row: nat, col: nat)
    requires ad.rank > 0 && row < m && col * m + m <= |w|
    ensures Times(ad.rank as real, At(Merged(w, p, m, ScaleOf(ad)), col * m + row) - At(w, col * m + row))
         == Times(ad.alpha, Inner(p, m, row, col, p.k))
  {
    hide Inner, Merged, Times, At;
    MergedEntry(w, p, m, ScaleOf(ad), row, col);
    Gain(Inner(p, m, row, col, p.k), ScaleOf(ad), ad.rank as real, ad.alpha);
  }

  lemma Gain(d: real, s: real, r: real, alpha: real)
    requires r > 0.0 && s == alpha / r
    ensures Times(r, Times(d, s)) == Times(alpha, d)
  {
    assert s * r == alpha;
    assert (d * s) * r == d * (s * r);
  }

  function ApplyAdapter(ws: seq<Matrix>, ad: Adapter): (r: seq<Matrix>)
    requires ValidModel(ws) && ValidAdapter(ad, |ws|)
    ensures |r| == |ws| && ValidModel(r)
  {
    seq(|ws|, t requires 0 <= t < |ws| =>
      if ad.parts[t].None? then ws[t] else Matrix(ws[t].m, Merged(ws[t].w, ad.parts[t].value, ws[t].m, ScaleOf(ad))))
  }

  ghost predicate ValidAdapters(ads: seq<Adapter>, n: nat) {
    forall i :: 0 <= i < |ads| ==> ValidAdapter(ads[i], n)
  }

  function ApplyAll(ws: seq<Matrix>, ads: seq<Adapter>): (r: seq<Matrix>)
    requires ValidModel(ws) && ValidAdapters(ads, |ws|)
    ensures |r| == |ws| && ValidModel(r)
  {
    if |ads| == 0 then ws else ApplyAdapter(ApplyAll(ws, ads[..|ads| - 1]), ads[|ads| - 1])
  }

  /** What one adapter adds to entry i of matrix t. */
  function Share(ad: Adapter, t: nat, m: nat, i: nat): real
    requires m > 0 && ad.rank > 0
  {
    if t < |ad.parts| && ad.parts[t].Some? then Times(DeltaAt(ad.parts[t].value, m, i), ScaleOf(ad)) else 0.0
  }

  ghost predicate Ranked(ads: seq<Adapter>) { forall j :: 0 <= j < |ads| ==> ads[j].rank > 0 }

  ghost function Shares(ads: seq<Adapter>, t: nat, m: nat, i: nat): real
    requires m > 0 && Ranked(ads)
  {
    if |ads| == 0 then 0.0 else Shares(ads[..|ads| - 1], t, m, i) + Share(ads[|ads| - 1], t, m, i)
  }

  /** Applying a list adds the shares of its adapters to every entry. */
  lemma {:induction false} ApplyAllAdds(ws: seq<Matrix>, ads: seq<Adapter>, t: nat, i: nat)
    requires ValidModel(ws) && ValidAdapters(ads, |ws|) && t < |ws| && i < |ws[t].w|
    ensures ApplyAll(ws, ads)[t].m == ws[t].m && |ApplyAll(ws, ads)[t].w| == |ws[t].w|
    ensures ApplyAll(ws, ads)[t].w[i] == ws[t].w[i] + Shares(ads, t, ws[t].m, i)
    decreases |ads|
  {
    hide Times, DeltaAt;
    if |ads| > 0 { ApplyAllAdds(ws, ads[..|ads| - 1], t, i); }
  }

  /** Taking one adapter out of the list takes its share out of the sum. */
  lemma {:induction false} ShareOut(ads: seq<Adapter>, k: nat, t: nat, m: nat, i: nat)
    requires m > 0 && Ranked(ads) && k < |ads|
    ensures Ranked(ads[..k] + ads[k + 1..])
    ensures Shares(ads, t, m, i) == Shares(ads[..k] + ads[k + 1..], t, m, i) + Share(ads[k], t, m, i)
    decreases |ads|
  {
    hide Share;
    var last := |ads| - 1;
    var rest := ads[..k] + ads[k + 1..];
    if k == last {
      assert rest == ads[..last];
    } else {
      ShareOut(ads[..last], k, t, m, i);
      assert rest[|rest| - 1] == ads[last];
      assert rest[..|rest| - 1] == ads[..last][..k] + ads[..last][k + 1..];
    }
  }

  /** The sum of the shares depends only on which adapters there are. */
  lemma {:induction false} SharesPermute(a: seq<Adapter>, b: seq<Adapter>, t: nat, m: nat, i: nat)
    requires m > 0 && Ranked(a) && Ranked(b)
    requires multiset(a) == multiset(b)
    ensures Shares(a, t, m, i) == Shares(b, t, m, i)
    decreases |a|
  {
    assert |multiset(a)| == |a| && |multiset(b)| == |b|;
    if |a| > 0 {
      var last := |a| - 1;
      var x := a[last];
      assert x in multiset(b);
      var k :| 0 <= k < |b| && b[k] == x;
      var rest := b[..k] + b[k + 1..];
      RemoveSame(a, b, k);
      ShareOut(b, k, t, m, i);
      SharesPermute(a[..last], rest, t, m, i);
    }
  }

  lemma RemoveSame(a: seq<Adapter>, b: seq<Adapter>, k: nat)
    requires |a| > 0 && k < |b| && b[k] == a[|a| - 1] && multiset(a) == multiset(b)
    ensures multiset(a[..|a| - 1]) == multiset(b[..k] + b[k + 1..])
  {
    assert a == a[..|a| - 1] + [a[|a| - 1]];
    assert b == b[..k] + [b[k]] + b[k + 1..];
    assert multiset(a) == multiset(a[..|a| - 1]) + multiset{b[k]};
    assert multiset(b) == multiset(b[..k] + b[k + 1..]) + multiset{b[k]};
    assert multiset(a[..|a| - 1]) == multiset(a) - multiset{b[k]};
    assert multiset(b[..k] + b[k + 1..]) == multiset(b) - multiset{b[k]};
  }

  /** Any list of adapters applied in any order yields the same weights. */
  lemma {:induction false} OrderDoesNotMatter(ws: seq<Matrix>, a: seq<Adapter>, b: seq<Adapter>)
    requires ValidModel(ws) && ValidAdapters(a, |ws|) && ValidAdapters(b, |ws|) && multiset(a) == multiset(b)
    ensures ApplyAll(ws, a) == ApplyAll(ws, b)
  {
    hide Shares;
    forall t | 0 <= t < |ws| ensures ApplyAll(ws, a)[t] == ApplyAll(ws, b)[t] {
      SameShape(ws, a, t);
      SameShape(ws, b, t);
      forall i | 0 <= i < |ws[t].w| ensures ApplyAll(ws, a)[t].w[i] == ApplyAll(ws, b)[t].w[i] {
        ApplyAllAdds(ws, a, t, i);
        ApplyAllAdds(ws, b, t, i);
        SharesPermute(a, b, t, ws[t].m, i);
      }
    }
  }

  lemma {:induction false} SameShape(ws: seq<Matrix>, ads: seq<Adapter>, t: nat)
    requires ValidModel(ws) && ValidAdapters(ads, |ws|) && t < |ws|
    ensures ApplyAll(ws, ads)[t].m == ws[t].m && |ApplyAll(ws, ads)[t].w| == |ws[t].w|
    decreases |ads|
  {
    if |ads| > 0 { SameShape(ws, ads[..|ads| - 1], t); }
  }

  // ----- the recorded settings -----

  /** The model remembers the first non-zero alpha and the last rank. */
  function RecordedAlpha(alpha: real, ads: seq<Adapter>): real
    decreases ads
  {
    if |ads| == 0 then alpha else RecordedAlpha(if alpha == 0.0 then ads[0].alpha else alpha, ads[1..])
  }

  function RecordedRank(rank: nat, ads: seq<Adapter>): nat {
    if |ads| == 0 then rank else ads[|ads| - 1].rank
  }

  /** Every order of the adapters leaves the same alpha. */
  ghost predicate AlphaSettled(alpha: real, a: seq<Adapter>) {
    forall b: seq<Adapter> :: multiset(b) == multiset(a) ==> RecordedAlpha(alpha, b) == RecordedAlpha(alpha, a)
  }

  /** Every order of the adapters leaves the same rank. */
  ghost predicate RankSettled(rank: nat, a: seq<Adapter>) {
    forall b: seq<Adapter> :: multiset(b) == multiset(a) ==> RecordedRank(rank, b) == RecordedRank(rank, a)
  }

  ghost predicate AlphasAgree(a: seq<Adapter>) {
    forall i, j :: 0 <= i < |a| && 0 <= j < |a| && a[i].alpha != 0.0 && a[j].alpha != 0.0 ==> a[i].alpha == a[j].alpha
  }

  ghost predicate RanksAgree(a: seq<Adapter>) {
    forall i, j :: 0 <= i < |a| && 0 <= j < |a| ==> a[i].rank == a[j].rank
  }

  lemma {:induction false} NonZeroStays(alpha: real, b: seq<Adapter>)
    requires alpha != 0.0
    ensures RecordedAlpha(alpha, b) == alpha
    decreases |b|
  {
    if |b| > 0 { NonZeroStays(alpha, b[1..]); }
  }

  /** From zero, the recorded alpha is that of some adapter, and zero only if all are. */
  lemma {:induction false} RecordedIsMember(b: seq<Adapter>)
    ensures RecordedAlpha(0.0, b) != 0.0 ==> exists i :: 0 <= i < |b| && b[i].alpha == RecordedAlpha(0.0, b)
    ensures RecordedAlpha(0.0, b) == 0.0 ==> forall i :: 0 <= i < |b| ==> b[i].alpha == 0.0
    decreases |b|
  {
    if |b| > 0 {
      if b[0].alpha != 0.0 {
        NonZeroStays(b[0].alpha, b[1..]);
      } else {
        RecordedIsMember(b[1..]);
        if RecordedAlpha(0.0, b) != 0.0 {
          var i :| 0 <= i < |b[1..]| && b[1..][i].alpha == RecordedAlpha(0.0, b[1..]);
          assert b[i + 1].alpha == RecordedAlpha(0.0, b);
        } else {
          assert forall i :: 0 < i < |b| ==> b[i] == b[1..][i - 1];
        }
      }
    }
  }

  /** An entry of one order stands somewhere in the other. */
  lemma Elsewhere(a: seq<Adapter>, b: seq<Adapter>, i: nat) returns (j: nat)
    requires multiset(a) == multiset(b) && i < |b|
    ensures j < |a| && a[j] == b[i]
  {
    assert b[i] in multiset(a);
    j :| 0 <= j < |a| && a[j] == b[i];
  }

  lemma AgreedAlpha(a: seq<Adapter>, b: seq<Adapter>)
    requires multiset(b) == multiset(a) && AlphasAgree(a)
    ensures RecordedAlpha(0.0, b) == RecordedAlpha(0.0, a)
  {
    RecordedIsMember(a);
    RecordedIsMember(b);
    if RecordedAlpha(0.0, b) != 0.0 {
      var i :| 0 <= i < |b| && b[i].alpha == RecordedAlpha(0.0, b);
      var j := Elsewhere(a, b, i);
    }
    if RecordedAlpha(0.0, a) != 0.0 {
      var i :| 0 <= i < |a| && a[i].alpha == RecordedAlpha(0.0, a);
      var j := Elsewhere(b, a, i);
    }
  }

  lemma AgreedRank(rank: nat, a: seq<Adapter>, b: seq<Adapter>)
    requires multiset(b) == multiset(a) && RanksAgree(a)
    ensures RecordedRank(rank, b) == RecordedRank(rank, a)
  {
    assert |multiset(a)| == |a| && |multiset(b)| == |b|;
    if |b| > 0 { var j := Elsewhere(a, b, |b| - 1); }
  }

  /** An order with adapter i first and one with it last. */
  lemma {:induction false} MovedTo(a: seq<Adapter>, i: nat) returns (first: seq<Adapter>, last: seq<Adapter>)
    requires i < |a|
    ensures multiset(first) == multiset(a) == multiset(last)
    ensures first != [] && first[0] == a[i] && last != [] && last[|last| - 1] == a[i]
  {
    var rest := a[..i] + a[i + 1..];
    first, last := [a[i]] + rest, rest + [a[i]];
    assert a == a[..i] + [a[i]] + a[i + 1..];
  }

  lemma {:induction false} SettledAlphaAgrees(a: seq<Adapter>, i: nat)
    requires i < |a| && a[i].alpha != 0.0 && AlphaSettled(0.0, a)
    ensures RecordedAlpha(0.0, a) == a[i].alpha
  {
    var first, last := MovedTo(a, i);
    assert RecordedAlpha(0.0, first) == RecordedAlpha(0.0, a);
    NonZeroStays(a[i].alpha, first[1..]);
  }

  lemma {:induction false} SettledRankAgrees(rank: nat, a: seq<Adapter>, i: nat)
    requires i < |a| && RankSettled(rank, a)
    ensures RecordedRank(rank, a) == a[i].rank
  {
    var first, last := MovedTo(a, i);
    assert RecordedRank(rank, last) == RecordedRank(rank, a);
  }

  /** Unlike the weights, the settings stored with the model depend on the order, unless the adapters agree on them. */
  lemma {:induction false} SettingsDependOnOrder(alpha: real, rank: nat, a: seq<Adapter>)
    ensures AlphaSettled(alpha, a) <==> alpha != 0.0 || AlphasAgree(a)
    ensures RankSettled(rank, a) <==> RanksAgree(a)
  {
    if alpha != 0.0 {
      forall b: seq<Adapter> | multiset(b) == multiset(a) ensures RecordedAlpha(alpha, b) == RecordedAlpha(alpha, a) {
        NonZeroStays(alpha, a);
        NonZeroStays(alpha, b);
      }
    } else if AlphasAgree(a) {
      forall b: seq<Adapter> | multiset(b) == multiset(a) ensures RecordedAlpha(alpha, b) == RecordedAlpha(alpha, a) {
        AgreedAlpha(a, b);
      }
    } else if AlphaSettled(alpha, a) {
      forall i | 0 <= i < |a| && a[i].alpha != 0.0 ensures a[i].alpha == RecordedAlpha(0.0, a) {
        SettledAlphaAgrees(a, i);
      }
    }
    if RanksAgree(a) {
      forall b: seq<Adapter> | multiset(b) == multiset(a) ensures RecordedRank(rank, b) == RecordedRank(rank, a) {
        AgreedRank(rank, a, b);
      }
    }
    if RankSettled(rank, a) {
      forall i | 0 <= i < |a| ensures a[i].rank == RecordedRank(rank, a) { SettledRankAgrees(rank, a, i); }
    }
  }

  // ----- the merge loops -----

  /** The product of the two adapter matrices, one entry at a time. */
  method MatmulLora(p: Pair, m: nat, n: nat) returns (delta: array<real>)
    requires m > 0 && |p.a| == p.k * m && |p.b| == n * p.k
    ensures fresh(delta) && delta.Length == n * m && forall i :: 0 <= i < n * m ==> delta[i] == DeltaAt(p, m, i)
  {
    hide DeltaAt;
    delta := new real[n * m];
    for row := 0 to m
      invariant forall i :: 0 <= i < n * m && i % m < row ==> delta[i] == DeltaAt(p, m, i)
    {
      DeltaRow(p, m, n, row, delta);
    }
  }

  method DeltaRow(p: Pair, m: nat, n: nat, row: nat, delta: array<real>)
    requires row < m && |p.a| == p.k * m && |p.b| == n * p.k && delta.Length == n * m
    requires forall i :: 0 <= i < delta.Length && i % m < row ==> delta[i] == DeltaAt(p, m, i)
    modifies delta
    ensures forall i :: 0 <= i < delta.Length && i % m < row + 1 ==> delta[i] == DeltaAt(p, m, i)
  {
    hide DeltaAt, Inner;
    for col := 0 to n
      invariant forall i :: 0 <= i < delta.Length && i % m < row ==> delta[i] == DeltaAt(p, m, i)
      invariant forall i :: 0 <= i < col * m && i % m == row ==> i < delta.Length && delta[i] == DeltaAt(p, m, i)
    {
      Arith.RowBounds(col, m, n);
      var sum := InnerLoop(p, m, n, row, col);
      var at := col * m + row;
      DeltaFrom(p, m, row, col);
      delta[at] := sum;
      forall i | col * m <= i < (col + 1) * m && i % m == row ensures i == at { SameResidue(i, m, row, col); }
    }
  }

  lemma {:induction false} SameResidue(i: nat, m: nat, row: nat, col: nat)
    requires row < m && col * m <= i < col * m + m && i % m == row
    ensures i == col * m + row
  {
    Arith.DivIs(i, m, col, i - col * m);
  }

  lemma {:induction false} DeltaFrom(p: Pair, m: nat, row: nat, col: nat)
    requires row < m
    ensures DeltaAt(p, m, col * m + row) == Inner(p, m, row, col, p.k) && (col * m + row) % m == row
  {
    Arith.DivIs(col * m + row, m, col, row);
  }

  method InnerLoop(p: Pair, m: nat, n: nat, row: nat, col: nat) returns (sum: real)
    requires row < m && col < n && |p.a| == p.k * m && |p.b| == n * p.k
    ensures sum == Inner(p, m, row, col, p.k)
  {
    hide Times;
    sum := 0.0;
    for j := 0 to p.k
      invariant sum == Inner(p, m, row, col, j)
    {
      Arith.RowBounds(j, m, p.k);
      Arith.RowBounds(col, p.k, n);
      sum := sum + Times(p.a[j * m + row], p.b[col * p.k + j]);
    }
  }

  /** base += delta * scale, entry by entry. */
  method ApplyLora(base: array<real>, p: Pair, m: nat, n: nat, alpha: real, rank: nat)
    requires m > 0 && rank > 0 && |p.a| == p.k * m && |p.b| == n * p.k && base.Length == n * m
    modifies base
    ensures base[..] == Merged(old(base[..]), p, m, alpha / rank as real)
  {
    hide Times, DeltaAt;
    var delta := MatmulLora(p, m, n);
    var scale := alpha / rank as real;
    ghost var d := delta[..];
    for i := 0 to base.Length
      invariant delta[..] == d
      invariant forall j :: 0 <= j < base.Length ==>
        base[j] == if j < i then old(base[j]) + Times(DeltaAt(p, m, j), scale) else old(base[j])
    {
      assert delta[i] == d[i] == DeltaAt(p, m, i);
      base[i] := base[i] + Times(delta[i], scale);
    }
  }

  /** The weights of a model, one array per matrix. */
  class Weights {
    const mats: seq<array<real>>
    const lead: seq<nat>
    var alpha: real
    var rank: nat

    constructor (ms: seq<array<real>>, ld: seq<nat>)
      ensures mats == ms && lead == ld && alpha == 0.0 && rank == 0
    {
      mats, lead, alpha, rank := ms, ld, 0.0, 0;
    }

    ghost predicate Valid() {
      && |mats| == |lead| && (forall t :: 0 <= t < |mats| ==> lead[t] > 0)
      && forall s, t :: 0 <= s < t < |mats| ==> mats[s] != mats[t]
    }

    ghost function Values(): (ws: seq<Matrix>)
      requires Valid()
      reads mats
      ensures |ws| == |mats| && ValidModel(ws)
    {
      seq(|mats|, t requires 0 <= t < |mats| reads mats => Matrix(lead[t], mats[t][..]))
    }

    /** The adapter's pairs fit the matrices they are for. */
    ghost predicate Fits(ad: Adapter)
      requires Valid()
    {
      && ValidAdapter(ad, |mats|)
      && forall t :: 0 <= t < |mats| ==> PairFits(ad.parts[t], lead[t], mats[t].Length)
    }

    /** One matrix, if the adapter has a pair for it. */
    method ApplyTo(t: nat, ad: Adapter)
      requires Valid() && Fits(ad) && t < |mats|
      modifies mats[t]
      ensures mats[t][..] == ApplyAdapter(old(Values()), ad)[t].w
    {
      hide Merged;
      ghost var was := Values();
      assert PairFits(ad.parts[t], lead[t], mats[t].Length) && was[t] == Matrix(lead[t], mats[t][..]);
      if ad.parts[t].Some? {
        var p := ad.parts[t].value;
        ApplyLora(mats[t], p, lead[t], |p.b| / p.k, ad.alpha, ad.rank);
      }
    }

    /** One adapter file: the settings, then every matrix it has a pair for. */
    method Apply(ad: Adapter)
      requires Valid() && Fits(ad)
      modifies this, mats
      ensures Values() == ApplyAdapter(old(Values()), ad)
      ensures alpha == (if old(alpha) == 0.0 then ad.alpha else old(alpha)) && rank == ad.rank
    {
      hide Merged, ApplyAdapter;
      if alpha == 0.0 { alpha := ad.alpha; }
      rank := ad.rank;
      ghost var start := Values();
      ghost var goal := ApplyAdapter(start, ad);
      KeepsLeads(start, ad);
      for t := 0 to |mats|
        invariant forall s :: 0 <= s < |mats| ==> mats[s][..] == if s < t then goal[s].w else start[s].w
        invariant alpha == (if old(alpha) == 0.0 then ad.alpha else old(alpha)) && rank == ad.rank
      {
        AdapterAt(start, Values(), ad, t);
        ApplyTo(t, ad);
      }
      assert Values() == goal;
    }

    /** All adapter files in order. */
    method ApplyFiles(ads: seq<Adapter>)
      requires Valid() && forall i :: 0 <= i < |ads| ==> Fits(ads[i])
      modifies this, mats
      ensures ValidAdapters(ads, |mats|) && Values() == ApplyAll(old(Values()), ads)
      ensures alpha == RecordedAlpha(old(alpha), ads) && rank == RecordedRank(old(rank), ads)
    {
      hide ApplyAdapter, Valid;
      for i := 0 to |ads|
        invariant ValidAdapters(ads[..i], |mats|) && Values() == ApplyAll(old(Values()), ads[..i])
        invariant alpha == RecordedAlpha(old(alpha), ads[..i]) && rank == RecordedRank(old(rank), ads[..i])
      {
        Apply(ads[i]);
        AlphaAppend(old(alpha), ads[..i], ads[i]);
        assert ads[..i + 1] == ads[..i] + [ads[i]] && ads[..i + 1][..i] == ads[..i];
      }
      assert ads[..|ads|] == ads;
    }
  }

  lemma KeepsLeads(ws: seq<Matrix>, ad: Adapter)
    requires ValidModel(ws) && ValidAdapter(ad, |ws|)
    ensures forall t :: 0 <= t < |ws| ==> ApplyAdapter(ws, ad)[t].m == ws[t].m
  {
  }

  /** What an adapter makes of a matrix depends on that matrix only. */
  lemma AdapterAt(a: seq<Matrix>, b: seq<Matrix>, ad: Adapter, t: nat)
    requires ValidModel(a) && ValidModel(b) && |a| == |b| && ValidAdapter(ad, |a|) && t < |a|
    ensures a[t] == b[t] ==> ApplyAdapter(a, ad)[t] == ApplyAdapter(b, ad)[t]
  {
  }

  lemma {:induction false} AlphaAppend(alpha: real, ads: seq<Adapter>, ad: Adapter)
    ensures RecordedAlpha(alpha, ads + [ad]) ==
            (if RecordedAlpha(alpha, ads) == 0.0 then ad.alpha else RecordedAlpha(alpha, ads))
    decreases ads
  {
    if |ads| == 0 {
      assert ads + [ad] == [ad] && [ad][1..] == [];
    } else {
      assert (ads + [ad])[1..] == ads[1..] + [ad];
      AlphaAppend(if alpha == 0.0 then ads[0].alpha else alpha, ads[1..], ad);
    }
  }

  ghost predicate PairFits(part: Option<Pair>, m: nat, size: nat) {
    part.Some? ==>
      && part.value.k > 0 && |part.value.a| == part.value.k * m
      && |part.value.b| == |part.value.b| / part.value.k * part.value.k && size == |part.value.b| / part.value.k * m
  }
}
