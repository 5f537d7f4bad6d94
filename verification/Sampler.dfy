/** Token sampling on exact reals. */
module Sampler {
  // Temperature, repetition penalty, softmax, top-k, top-p, renormalization and the draw.

  import opened Rows
  import opened Reduce
  import Attention

  datatype Config = Config(temperature: real, topP: real, topK: int, penalty: real)

  type Mask = seq<bool>

  // ----- counting and weighing masks -----

  function Count(m: Mask, n: nat): nat
    requires n <= |m|
  {
    if n == 0 then 0 else Count(m, n - 1) + if m[n - 1] then 1 else 0
  }

  function Mass(p: Row, m: Mask, n: nat): real
    requires n <= |m| && n <= |p|
  {
    if n == 0 then 0.0 else Mass(p, m, n - 1) + if m[n - 1] then p[n - 1] else 0.0
  }

  lemma {:induction false} MarkAdds(p: Row, m: Mask, i: nat, n: nat)
    requires n <= |m| == |p| && i < |m| && !m[i]
    ensures Mass(p, m[i := true], n) == Mass(p, m, n) + if i < n then p[i] else 0.0
    ensures Count(m[i := true], n) == Count(m, n) + if i < n then 1 else 0
  {
    if n > 0 { MarkAdds(p, m, i, n - 1); }
  }

  ghost predicate Within(a: Mask, b: Mask) {
    |a| == |b| && forall i :: 0 <= i < |a| ==> a[i] ==> b[i]
  }

  ghost predicate Positive(p: Row, m: Mask) {
    |m| == |p| && forall i :: 0 <= i < |m| ==> m[i] ==> p[i] > 0.0
  }

  lemma {:induction false} WithinWeighsLess(p: Row, a: Mask, b: Mask, n: nat)
    requires Within(a, b) && n <= |a| == |p| && Positive(p, b)
    ensures Mass(p, a, n) <= Mass(p, b, n)
  {
    if n > 0 { WithinWeighsLess(p, a, b, n - 1); }
  }

  lemma {:induction false} WithinCountsLess(a: Mask, b: Mask, n: nat)
    requires Within(a, b) && n <= |a|
    ensures Count(a, n) <= Count(b, n)
  {
    if n > 0 { WithinCountsLess(a, b, n - 1); }
  }

  function MaskOf(n: nat, s: seq<nat>): (m: Mask)
    requires forall a :: 0 <= a < |s| ==> s[a] < n
    ensures |m| == n
    ensures forall j :: 0 <= j < n ==> (m[j] <==> j in s)
  {
    if |s| == 0 then seq(n, _ => false)
    else
      var last := |s| - 1;
      assert s == s[..last] + [s[last]];
      MaskOf(n, s[..last])[s[last] := true]
  }

  ghost predicate Injective(s: seq<nat>) {
    forall a, b :: 0 <= a < b < |s| ==> s[a] != s[b]
  }

  lemma {:induction false} CountMaskOf(n: nat, s: seq<nat>)
    requires (forall a :: 0 <= a < |s| ==> s[a] < n) && Injective(s)
    ensures Count(MaskOf(n, s), n) == |s|
  {
    if |s| == 0 {
      CountNone(MaskOf(n, s), n);
    } else {
      var last := |s| - 1;
      CountMaskOf(n, s[..last]);
      MarkAdds(Zeros(n), MaskOf(n, s[..last]), s[last], n);
    }
  }

  lemma {:induction false} CountNone(m: Mask, n: nat)
    requires n <= |m| && forall i :: 0 <= i < |m| ==> !m[i]
    ensures Count(m, n) == 0
  {
    if n > 0 { CountNone(m, n - 1); }
  }

  // ----- the order on tokens -----

  /** More probable, or equally probable with the larger id: std::greater on pairs. */
  predicate Greater(p: Row, i: nat, j: nat)
    requires i < |p| && j < |p|
  {
    p[i] > p[j] || (p[i] == p[j] && i > j)
  }

  /** The tokens ranked above token i. */
  function Above(p: Row, i: nat): (m: Mask)
    requires i < |p|
    ensures |m| == |p|
  {
    seq(|p|, j requires 0 <= j < |p| => Greater(p, j, i))
  }

  function Masked(p: Row, m: Mask): (r: Row)
    requires |m| == |p|
    ensures |r| == |p|
  {
    seq(|p|, i requires 0 <= i < |p| => if m[i] then p[i] else 0.0)
  }

  // ----- top-k -----

  /** Fewer than k tokens rank above a kept one. */
  function TopK(p: Row, k: nat): (m: Mask)
    ensures |m| == |p|
  {
    seq(|p|, i requires 0 <= i < |p| => Count(Above(p, i), |p|) < k)
  }

  /** What std::nth_element promises: a permutation whose first k entries rank above the others. */
  ghost predicate Selected(p: Row, sel: seq<nat>, k: nat) {
    && k <= |sel| == |p| && Injective(sel) && (forall j: nat :: j < |p| ==> j in sel)
    && (forall a :: 0 <= a < |sel| ==> sel[a] < |p|)
    && forall a, b :: 0 <= a < k <= b < |sel| ==> Greater(p, sel[a], sel[b])
  }

  lemma IndexOf(s: seq<nat>, x: nat) returns (a: nat)
    requires x in s
    ensures a < |s| && s[a] == x
  {
    a :| a < |s| && s[a] == x;
  }

  lemma {:induction false} FirstAreAbove(p: Row, sel: seq<nat>, k: nat, i: nat)
    requires Selected(p, sel, k) && i < |p|
    ensures i in sel[..k] ==> Within(Above(p, i), MaskOf(|p|, sel[..k]))
    ensures i !in sel[..k] ==> Within(MaskOf(|p|, sel[..k]), Above(p, i))
  {
    hide MaskOf;
    var at := IndexOf(sel, i);
    assert i in sel[..k] ==> at < k;
    assert i !in sel[..k] ==> at >= k by { if at < k { assert sel[..k][at] == i; } }
    forall j | 0 <= j < |p|
      ensures j in sel[..k] && at >= k ==> Greater(p, j, i)
      ensures Greater(p, j, i) && at < k ==> j in sel[..k]
    {
      var b := IndexOf(sel, j);
      assert b < k ==> sel[..k][b] == j;
      if j in sel[..k] {
        var c := IndexOf(sel[..k], j);
        assert sel[c] == j;
      }
    }
  }

  lemma TokenInFirst(p: Row, sel: seq<nat>, k: nat, i: nat)
    requires Selected(p, sel, k) && i < |p| && i in sel[..k]
    ensures Count(Above(p, i), |p|) < k
  {
    FirstAreAbove(p, sel, k, i);
    CountMaskOf(|p|, sel[..k]);
    hide MaskOf, Selected;
    var above := Above(p, i);
    MarkAdds(p, above, i, |p|);
    WithinCountsLess(above[i := true], MaskOf(|p|, sel[..k]), |p|);
  }

  lemma TokenInRest(p: Row, sel: seq<nat>, k: nat, i: nat)
    requires Selected(p, sel, k) && i < |p| && i !in sel[..k]
    ensures Count(Above(p, i), |p|) >= k
  {
    FirstAreAbove(p, sel, k, i);
    CountMaskOf(|p|, sel[..k]);
    WithinCountsLess(MaskOf(|p|, sel[..k]), Above(p, i), |p|);
  }

  /** Whatever arrangement the selection leaves, the kept tokens are exactly the k highest ranked ones. */
  lemma {:induction false} SelectionIsTopK(p: Row, sel: seq<nat>, k: nat)
    requires Selected(p, sel, k)
    ensures (forall a :: 0 <= a < k ==> sel[..k][a] < |p|)
    ensures MaskOf(|p|, sel[..k]) == TopK(p, k) && Count(TopK(p, k), |p|) == k
  {
    CountMaskOf(|p|, sel[..k]);
    forall i | 0 <= i < |p| ensures MaskOf(|p|, sel[..k])[i] == TopK(p, k)[i] {
      if i in sel[..k] { TokenInFirst(p, sel, k, i); } else { TokenInRest(p, sel, k, i); }
    }
    assert MaskOf(|p|, sel[..k]) == TopK(p, k);
  }

  lemma AboveNested(p: Row, i: nat, j: nat)
    requires i < |p| && j < |p| && Greater(p, i, j)
    ensures Within(Above(p, i), Above(p, j))
  {
  }

  /** Kept tokens rank above dropped ones. */
  lemma TopKKeepsHighest(p: Row, k: nat, i: nat, j: nat)
    requires i < |p| && j < |p| && TopK(p, k)[i] && !TopK(p, k)[j]
    ensures Greater(p, i, j)
  {
    if !Greater(p, i, j) && i != j {
      AboveNested(p, j, i);
      WithinCountsLess(Above(p, j), Above(p, i), |p|);
    }
  }

  // ----- top-p -----

  function MassAbove(p: Row, i: nat): real
    requires i < |p|
  {
    Mass(p, Above(p, i), |p|)
  }

  /** A possible token is kept while the tokens ranked above it do not reach the mass t. */
  function Nucleus(p: Row, t: real): (m: Mask)
    ensures |m| == |p|
  {
    seq(|p|, i requires 0 <= i < |p| => p[i] > 0.0 && MassAbove(p, i) < t)
  }

  lemma AbovePositive(p: Row, i: nat)
    requires i < |p| && p[i] > 0.0
    ensures Positive(p, Above(p, i))
  {
  }

  /** Kept tokens rank above dropped possible ones. */
  lemma NucleusKeepsHighest(p: Row, t: real, i: nat, j: nat)
    requires i < |p| && j < |p| && Nucleus(p, t)[i] && !Nucleus(p, t)[j] && p[j] > 0.0
    ensures Greater(p, i, j)
  {
    if !Greater(p, i, j) && i != j {
      AboveNested(p, j, i);
      AbovePositive(p, i);
      WithinWeighsLess(p, Above(p, j), Above(p, i), |p|);
    }
  }

  /** The lowest ranked of the first n entries of a mask. */
  lemma {:induction false} Lowest(p: Row, m: Mask, n: nat) returns (l: nat)
    requires n <= |m| == |p| && Count(m, n) > 0
    ensures l < n && m[l] && forall i :: 0 <= i < n && m[i] && i != l ==> Greater(p, i, l)
  {
    if !m[n - 1] { l := Lowest(p, m, n - 1); }
    else if Count(m, n - 1) == 0 {
      NoneSet(m, n - 1);
      l := n - 1;
    } else {
      l := Lowest(p, m, n - 1);
      if !Greater(p, n - 1, l) { l := n - 1; }
    }
  }

  lemma {:induction false} NoneSet(m: Mask, n: nat)
    requires n <= |m| && Count(m, n) == 0
    ensures forall i :: 0 <= i < n ==> !m[i]
  {
    if n > 0 { NoneSet(m, n - 1); }
  }

  /** The nucleus without its lowest token is what ranks above that token. */
  lemma NucleusMinusLowest(p: Row, t: real, l: nat)
    requires l < |p| && Nucleus(p, t)[l]
    requires forall i :: 0 <= i < |p| && Nucleus(p, t)[i] && i != l ==> Greater(p, i, l)
    ensures Nucleus(p, t)[l := false] == Above(p, l)
  {
    AbovePositive(p, l);
    forall j | 0 <= j < |p| ensures Nucleus(p, t)[l := false][j] == Above(p, l)[j] {
      if Greater(p, j, l) {
        AboveNested(p, j, l);
        WithinWeighsLess(p, Above(p, j), Above(p, l), |p|);
      }
    }
  }

  function Level(n: nat, x: real): (r: Row)
    ensures |r| == n
  {
    seq(n, _ => x)
  }

  function Times(c: nat, x: real): real { c as real * x }

  lemma {:induction false} LevelWeighsCount(m: Mask, x: real, n: nat)
    requires n <= |m|
    ensures Mass(Level(|m|, x), m, n) == Times(Count(m, n), x)
  {
    if n > 0 {
      LevelWeighsCount(m, x, n - 1);
      var c := Count(m, n - 1) as real;
      assert (c + 1.0) * x == c * x + x;
    }
  }

  /** Exchange each foreign member for a missing one: the difference in mass is at most that at the level x between
      the top set and the rest. */
  lemma {:induction false} TopWeighsMost(p: Row, s: Mask, top: Mask, x: real, n: nat)
    requires n <= |p| == |s| == |top|
    requires forall i :: 0 <= i < n ==> if top[i] then p[i] >= x else p[i] <= x
    ensures Mass(p, s, n) - Mass(p, top, n) <= Mass(Level(|p|, x), s, n) - Mass(Level(|p|, x), top, n)
  {
    if n > 0 { TopWeighsMost(p, s, top, x, n - 1); }
  }

  lemma CountScales(a: nat, b: nat, x: real)
    requires a <= b && x >= 0.0
    ensures Times(a, x) <= Times(b, x)
  {
  }

  /** No set of tokens smaller than the nucleus reaches the mass. */
  lemma {:induction false} NucleusIsSmallest(p: Row, t: real, s: Mask)
    requires t > 0.0 && |s| == |p| && forall i :: 0 <= i < |p| ==> p[i] >= 0.0
    requires Count(s, |p|) < Count(Nucleus(p, t), |p|)
    ensures Mass(p, s, |p|) < t
  {
    hide Mass, Count;
    var l := Lowest(p, Nucleus(p, t), |p|);
    NucleusMinusLowest(p, t, l);
    SmallerWeighsLess(p, s, Nucleus(p, t), l);
  }

  lemma {:induction false} SmallerWeighsLess(p: Row, s: Mask, nucleus: Mask, l: nat)
    requires |s| == |p| == |nucleus| && l < |p| && p[l] >= 0.0 && nucleus[l] && nucleus[l := false] == Above(p, l)
    requires Count(s, |p|) < Count(nucleus, |p|)
    ensures Mass(p, s, |p|) <= MassAbove(p, l)
  {
    hide Mass, Count, Level, Times;
    var top := Above(p, l);
    MarkAdds(p, top, l, |p|);
    assert top[l := true] == nucleus;
    TopWeighsMost(p, s, top, p[l], |p|);
    LevelWeighsCount(s, p[l], |p|);
    LevelWeighsCount(top, p[l], |p|);
    CountScales(Count(s, |p|), Count(top, |p|), p[l]);
  }

  // ----- std::sort and the top-p loop -----

  function Insert(p: Row, s: seq<nat>, x: nat): (r: seq<nat>)
    requires x < |p| && forall a :: 0 <= a < |s| ==> s[a] < |p|
    ensures forall a :: 0 <= a < |r| ==> r[a] < |p|
  {
    if |s| == 0 || Greater(p, x, s[0]) then [x] + s else [s[0]] + Insert(p, s[1..], x)
  }

  /** The possible tokens among the first n, highest ranked first. */
  function Ranking(p: Row, n: nat): (r: seq<nat>)
    requires n <= |p|
    ensures forall a :: 0 <= a < |r| ==> r[a] < |p|
  {
    if n == 0 then []
    else if p[n - 1] > 0.0 then Insert(p, Ranking(p, n - 1), n - 1)
    else Ranking(p, n - 1)
  }

  ghost predicate Sorted(p: Row, s: seq<nat>) {
    && (forall a :: 0 <= a < |s| ==> s[a] < |p|)
    && forall a, b :: 0 <= a < b < |s| ==> Greater(p, s[a], s[b])
  }

  lemma {:induction false} InsertHas(p: Row, s: seq<nat>, x: nat, j: nat)
    requires x < |p| && forall a :: 0 <= a < |s| ==> s[a] < |p|
    ensures j in Insert(p, s, x) <==> j == x || j in s
  {
    if |s| > 0 && !Greater(p, x, s[0]) {
      InsertHas(p, s[1..], x, j);
      assert s == [s[0]] + s[1..];
    }
  }

  lemma {:induction false} InsertSorted(p: Row, s: seq<nat>, x: nat)
    requires x < |p| && Sorted(p, s) && x !in s
    ensures Sorted(p, Insert(p, s, x))
  {
    if |s| > 0 && !Greater(p, x, s[0]) {
      InsertSorted(p, s[1..], x);
      var rest := Insert(p, s[1..], x);
      forall b | 0 <= b < |rest| ensures Greater(p, s[0], rest[b]) {
        InsertHas(p, s[1..], x, rest[b]);
        if rest[b] in s[1..] {
          var a := IndexOf(s[1..], rest[b]);
          assert s[a + 1] == rest[b];
        }
      }
    }
  }

  lemma {:induction false} RankingHas(p: Row, n: nat, j: nat)
    requires n <= |p|
    ensures j in Ranking(p, n) <==> j < n && p[j] > 0.0
  {
    if n > 0 {
      RankingHas(p, n - 1, j);
      if p[n - 1] > 0.0 { InsertHas(p, Ranking(p, n - 1), n - 1, j); }
    }
  }

  lemma {:induction false} RankingSorted(p: Row, n: nat)
    requires n <= |p|
    ensures Sorted(p, Ranking(p, n))
  {
    if n > 0 {
      RankingSorted(p, n - 1);
      RankingHas(p, n - 1, n - 1);
      if p[n - 1] > 0.0 { InsertSorted(p, Ranking(p, n - 1), n - 1); }
    }
  }

  lemma Earlier(p: Row, s: seq<nat>, a: nat, b: nat)
    requires Sorted(p, s) && a < |s| && b < |s| && Greater(p, s[b], s[a])
    ensures b < a
  {
  }

  /** The tokens ranked above the a-th one are the ones before it. */
  lemma AboveIsBefore(p: Row, a: nat)
    requires a < |Ranking(p, |p|)|
    ensures forall b :: 0 <= b < a ==> Ranking(p, |p|)[..a][b] < |p|
    ensures Above(p, Ranking(p, |p|)[a]) == MaskOf(|p|, Ranking(p, |p|)[..a])
  {
    RankingSorted(p, |p|);
    var order := Ranking(p, |p|);
    var i := order[a];
    RankingHas(p, |p|, i);
    forall j | 0 <= j < |p| ensures Greater(p, j, i) <==> j in order[..a] {
      RankingHas(p, |p|, j);
      BeforeIff(p, order, a, j);
    }
  }

  lemma BeforeIff(p: Row, order: seq<nat>, a: nat, j: nat)
    requires Sorted(p, order) && a < |order| && j < |p| && (Greater(p, j, order[a]) ==> j in order)
    ensures Greater(p, j, order[a]) <==> j in order[..a]
  {
    if j in order[..a] {
      var b := IndexOf(order[..a], j);
      assert order[b] == j;
    }
    if Greater(p, j, order[a]) {
      var b := IndexOf(order, j);
      Earlier(p, order, a, b);
      assert order[..a][b] == j;
    }
  }

  // ----- the whole distribution -----

  /** Each logit scaled by the temperature and, if its id occurs in the prompt, divided by the penalty once. */
  function Adjusted(logits: Row, cfg: Config, prompt: seq<int>): (r: Row)
    ensures |r| == |logits|
  {
    seq(|logits|, i requires 0 <= i < |logits| => Penalized(Tempered(logits[i], cfg), cfg, i in prompt))
  }

  function Tempered(v: real, cfg: Config): real {
    if cfg.temperature > 0.0 && cfg.temperature != 1.0 then v / cfg.temperature else v
  }

  function Penalized(v: real, cfg: Config, seen: bool): real {
    if cfg.penalty > 1.0 && seen then v / cfg.penalty else v
  }

  /** The penalty lowers a seen token's logit exactly when the logit is positive. */
  lemma PenaltyLowersPositive(v: real, cfg: Config)
    requires cfg.penalty > 1.0
    ensures Penalized(v, cfg, true) < v <==> v > 0.0
  {
    var w := v / cfg.penalty;
    assert w * cfg.penalty == v;
    if w >= 0.0 {
      TimesGrows(w, cfg.penalty);
    } else {
      var u := -w;
      TimesGrows(u, cfg.penalty);
      assert u * cfg.penalty == -v;
    }
  }

  lemma TimesGrows(w: real, c: real)
    requires w >= 0.0 && c > 1.0
    ensures w * c >= w && (w > 0.0 ==> w * c > w)
  {
    assert w * c == w + w * (c - 1.0);
  }

  function TopKStage(q: Row, cfg: Config): (r: Row)
    ensures |r| == |q|
  {
    if 0 < cfg.topK < |q| then Masked(q, TopK(q, cfg.topK)) else q
  }

  function TopPStage(q: Row, cfg: Config): (r: Row)
    ensures |r| == |q|
  {
    if 0.0 < cfg.topP < 1.0 then Masked(q, Nucleus(q, cfg.topP)) else q
  }

  function Kept(q: Row, cfg: Config): (r: Row)
    ensures |r| == |q|
  {
    TopPStage(TopKStage(q, cfg), cfg)
  }

  function Renormalized(q: Row): (r: Row)
    ensures |r| == |q|
  {
    seq(|q|, i requires 0 <= i < |q| => q[i] * Inverse(SumTo(q, |q|)))
  }

  /** The first token from i on whose cumulative probability reaches the draw. */
  function PickFrom(r: Row, u: real, i: nat): (k: nat)
    requires i < |r|
    ensures i <= k < |r|
    decreases |r| - i
  {
    if u <= SumTo(r, i + 1) || i == |r| - 1 then i else PickFrom(r, u, i + 1)
  }

  /** The first index holding the largest logit. */
  function ArgMax(logits: Row, n: nat): (i: nat)
    requires 0 < n <= |logits|
    ensures i < n && forall j :: 0 <= j < n ==> logits[j] <= logits[i]
  {
    if n == 1 then 0
    else
      var best := ArgMax(logits, n - 1);
      if logits[n - 1] > logits[best] then n - 1 else best
  }

  function Sample(f: Fns, logits: Row, cfg: Config, prompt: seq<int>, draw: real): (tok: nat)
    requires |logits| > 0
    ensures tok < |logits|
  {
    var kept := Kept(SoftmaxFromFirst(f, Adjusted(logits, cfg, prompt)), cfg);
    if SumTo(kept, |kept|) <= 0.0 then ArgMax(logits, |logits|) else PickFrom(Renormalized(kept), draw, 0)
  }

  ghost predicate Probabilities(q: Row) {
    |q| > 0 && forall i :: 0 <= i < |q| ==> q[i] > 0.0
  }

  ghost predicate NonNegative(q: Row) {
    forall i :: 0 <= i < |q| ==> q[i] >= 0.0
  }

  lemma SoftmaxPositive(f: Fns, s: Row)
    requires ExpLaw(f) && |s| > 0
    ensures Probabilities(SoftmaxFromFirst(f, s))
  {
    var m := MaxFrom(At(s, 0), s, |s|);
    ExpSumPositive(f, s, m, |s|);
    var sum := ExpSum(f, s, m, |s|);
    assert sum * (1.0 / sum) == 1.0;
    forall i | 0 <= i < |s| ensures SoftmaxFromFirst(f, s)[i] > 0.0 {
      ExpShift(f, At(s, i), m, m);
      ProductPositive(f.exp(At(s, i) - m), Inverse(sum));
    }
  }

  lemma ProductPositive(a: real, b: real)
    requires a > 0.0 && b > 0.0
    ensures a * b > 0.0
  {
  }

  /** The highest ranked token of a non-empty set of tokens. */
  lemma {:induction false} Highest(p: Row, n: nat) returns (h: nat)
    requires 0 < n <= |p|
    ensures h < n && forall i :: 0 <= i < n && i != h ==> Greater(p, h, i)
  {
    if n == 1 { return 0; }
    var g := Highest(p, n - 1);
    h := if Greater(p, n - 1, g) then n - 1 else g;
    forall i | 0 <= i < n && i != h ensures Greater(p, h, i) {
      assert i < n - 1 && i != g ==> Greater(p, g, i);
    }
  }

  ghost predicate IsBest(p: Row, h: nat) {
    h < |p| && forall i :: 0 <= i < |p| && i != h ==> Greater(p, h, i)
  }

  lemma NothingAbove(p: Row, h: nat)
    requires IsBest(p, h)
    ensures Count(Above(p, h), |p|) == 0 && MassAbove(p, h) == 0.0
  {
    forall i | 0 <= i < |p| ensures !Above(p, h)[i] { assert i != h ==> Greater(p, h, i); }
    CountNone(Above(p, h), |p|);
    MassNone(p, Above(p, h), |p|);
  }

  lemma {:induction false} MassNone(p: Row, m: Mask, n: nat)
    requires n <= |m| && n <= |p| && forall i :: 0 <= i < |m| ==> !m[i]
    ensures Mass(p, m, n) == 0.0
  {
    if n > 0 { MassNone(p, m, n - 1); }
  }

  /** The most probable token survives both filters. */
  lemma BestSurvives(q: Row, cfg: Config, h: nat)
    requires Probabilities(q) && IsBest(q, h)
    ensures Kept(q, cfg)[h] == q[h]
  {
    hide Count, Mass;
    var q1 := TopKStage(q, cfg);
    NothingAbove(q, h);
    assert q1[h] == q[h];
    forall i | 0 <= i < |q| && i != h ensures Greater(q1, h, i) { assert Greater(q, h, i); }
    NothingAbove(q1, h);
  }

  /** A kept token is at least as probable as any dropped one. */
  lemma KeptAreBest(q: Row, cfg: Config, i: nat, j: nat)
    requires Probabilities(q) && i < |q| && j < |q| && Kept(q, cfg)[i] > 0.0 && Kept(q, cfg)[j] == 0.0
    ensures q[i] >= q[j]
  {
    var q1 := TopKStage(q, cfg);
    assert q1[i] == q[i];
    if q1[j] > 0.0 {
      NucleusKeepsHighest(q1, cfg.topP, i, j);
    } else {
      TopKKeepsHighest(q, cfg.topK, i, j);
    }
  }

  lemma {:induction false} SumHasPart(q: Row, i: nat, n: nat)
    requires NonNegative(q) && n <= |q|
    ensures SumTo(q, n) >= 0.0 && (i < n ==> SumTo(q, n) >= q[i])
  {
    if n > 0 { SumHasPart(q, i, n - 1); }
  }

  lemma {:induction false} SumScales(q: Row, r: Row, c: real, n: nat)
    requires n <= |q| == |r| && forall i :: 0 <= i < |q| ==> r[i] == q[i] * c
    ensures SumTo(r, n) == SumTo(q, n) * c
  {
    if n > 0 {
      SumScales(q, r, c, n - 1);
      assert (SumTo(q, n - 1) + q[n - 1]) * c == SumTo(q, n - 1) * c + q[n - 1] * c;
    }
  }

  /** After renormalization the survivors' probabilities add up to one, and nobody else has any. */
  lemma RenormalizedIsDistribution(q: Row)
    requires NonNegative(q) && SumTo(q, |q|) > 0.0
    ensures SumTo(Renormalized(q), |q|) == 1.0 && NonNegative(Renormalized(q))
    ensures forall i :: 0 <= i < |q| ==> (Renormalized(q)[i] > 0.0 <==> q[i] > 0.0)
  {
    hide SumTo;
    var c := Inverse(SumTo(q, |q|));
    SumScales(q, Renormalized(q), c, |q|);
    TimesInverse(SumTo(q, |q|));
    hide Inverse;
    forall i | 0 <= i < |q| ensures Renormalized(q)[i] >= 0.0 && (Renormalized(q)[i] > 0.0 <==> q[i] > 0.0) {
      if q[i] > 0.0 { ProductPositive(q[i], c); }
    }
  }

  lemma TimesInverse(v: real)
    requires v > 0.0
    ensures Inverse(v) > 0.0 && v * Inverse(v) == 1.0
  {
  }

  /** The draw picks the token whose interval of the cumulative distribution it falls into. */
  lemma {:induction false} PickIsInterval(r: Row, u: real, i: nat, k: nat)
    requires NonNegative(r) && i <= k < |r| && SumTo(r, k) < u <= SumTo(r, k + 1)
    ensures PickFrom(r, u, i) == k
    decreases k - i
  {
    if i < k {
      SumGrows(r, i + 1, k);
      PickIsInterval(r, u, i + 1, k);
    }
  }

  lemma {:induction false} SumGrows(r: Row, a: nat, b: nat)
    requires NonNegative(r) && a <= b <= |r|
    ensures SumTo(r, a) <= SumTo(r, b)
  {
    if a < b { SumGrows(r, a, b - 1); }
  }

  /** Every draw in (0, 1] returns a token of positive probability. */
  lemma {:induction false} DrawSurvives(r: Row, u: real, i: nat)
    requires NonNegative(r) && i < |r| && SumTo(r, i) < u <= SumTo(r, |r|)
    ensures r[PickFrom(r, u, i)] > 0.0
    decreases |r| - i
  {
    if u > SumTo(r, i + 1) && i < |r| - 1 { DrawSurvives(r, u, i + 1); }
  }

  /** The draw 0 returns token 0, so it returns a survivor exactly when token 0 is one. */
  lemma ZeroDraw(r: Row)
    requires NonNegative(r) && |r| > 0
    ensures r[PickFrom(r, 0.0, 0)] > 0.0 <==> r[0] > 0.0
  {
    assert SumTo(r, 1) == SumTo(r, 0) + r[0];
  }

  lemma KeptNonNegative(q: Row, cfg: Config)
    requires Probabilities(q)
    ensures NonNegative(Kept(q, cfg))
  {
  }

  /** The sampled token survives the filters for every draw in (0, 1); the fallback is never taken. */
  lemma SampleSurvives(f: Fns, logits: Row, cfg: Config, prompt: seq<int>, draw: real)
    requires ExpLaw(f) && |logits| > 0 && 0.0 < draw < 1.0
    ensures var kept := Kept(SoftmaxFromFirst(f, Adjusted(logits, cfg, prompt)), cfg);
      SumTo(kept, |kept|) > 0.0 && Sample(f, logits, cfg, prompt, draw) < |logits|
      && kept[Sample(f, logits, cfg, prompt, draw)] > 0.0
  {
    var q := SoftmaxFromFirst(f, Adjusted(logits, cfg, prompt));
    SoftmaxPositive(f, Adjusted(logits, cfg, prompt));
    var h := Highest(q, |q|);
    BestSurvives(q, cfg, h);
    KeptNonNegative(q, cfg);
    var kept := Kept(q, cfg);
    hide Kept, SoftmaxFromFirst, Adjusted;
    SumHasPart(kept, h, |kept|);
    RenormalizedIsDistribution(kept);
    hide Renormalized;
    DrawSurvives(Renormalized(kept), draw, 0);
  }

  /** Softmax keeps the ranking of the logits. */
  lemma SoftmaxRanks(f: Fns, s: Row, i: nat, j: nat)
    requires ExpLaw(f) && ExpGrows(f) && i < |s| && j < |s|
    ensures Greater(s, i, j) ==> Greater(SoftmaxFromFirst(f, s), i, j)
  {
    hide ExpLaw, ExpSum, MaxFrom, ExpGrows;
    var m := MaxFrom(At(s, 0), s, |s|);
    ExpSumPositive(f, s, m, |s|);
    var inv := Inverse(ExpSum(f, s, m, |s|));
    TimesInverse(ExpSum(f, s, m, |s|));
    if s[i] > s[j] {
      ExpAbove(f, s[j] - m, s[i] - m);
      ScaledAbove(f.exp(s[j] - m), f.exp(s[i] - m), inv);
    }
  }

  lemma ExpAbove(f: Fns, a: real, b: real)
    requires ExpGrows(f) && a < b
    ensures f.exp(a) < f.exp(b)
  {
  }

  lemma ScaledAbove(a: real, b: real, c: real)
    requires a < b && c > 0.0
    ensures a * c < b * c
  {
    ProductPositive(b - a, c);
  }

  lemma {:induction false} CountSome(m: Mask, i: nat, n: nat)
    requires i < n <= |m| && m[i]
    ensures Count(m, n) >= 1
  {
    if i < n - 1 { CountSome(m, i, n - 1); }
  }

  /** Top-1 drops every token but the highest ranked one. */
  lemma OnlyBestKept(q: Row, cfg: Config, h: nat, j: nat)
    requires IsBest(q, h) && cfg.topK == 1 && j < |q| && j != h
    ensures Kept(q, cfg)[j] == 0.0
  {
    hide Count, Nucleus;
    CountSome(Above(q, j), h, |q|);
  }

  /** With top_k = 1 every draw in (0, 1) returns the token whose adjusted logit ranks highest: sampling is greedy,
      whatever the other settings are. */
  lemma TopOneIsGreedy(f: Fns, logits: Row, cfg: Config, prompt: seq<int>, draw: real, h: nat)
    requires ExpLaw(f) && ExpGrows(f) && 0.0 < draw < 1.0 && cfg.topK == 1 && IsBest(Adjusted(logits, cfg, prompt), h)
    ensures |logits| > 0 && Sample(f, logits, cfg, prompt, draw) == h
  {
    hide Kept, Sample, SoftmaxFromFirst, Adjusted;
    var s := Adjusted(logits, cfg, prompt);
    var q := SoftmaxFromFirst(f, s);
    forall i | 0 <= i < |q| && i != h ensures Greater(q, h, i) { SoftmaxRanks(f, s, h, i); }
    SampleSurvives(f, logits, cfg, prompt, draw);
    var t := Sample(f, logits, cfg, prompt, draw);
    if t != h { OnlyBestKept(q, cfg, h, t); }
  }

  /** The nucleus reaches the mass whenever all possible tokens together do. */
  lemma NucleusReaches(p: Row, t: real)
    requires t > 0.0 && NonNegative(p) && SumTo(p, |p|) >= t
    ensures Mass(p, Nucleus(p, t), |p|) >= t
  {
    var m := FirstReaching(p, t, 0);
    RankedPrefixIsNucleus(p, t, m);
  }

  /** How far the top-p loop gets: up to the first prefix of the ranking that reaches the mass. */
  ghost predicate Reaches(p: Row, t: real, m: nat) {
    var order := Ranking(p, |p|);
    && m <= |order| && (m == |order| || RankedMass(p, m) >= t)
    && forall a :: 0 <= a < m ==> RankedMass(p, a) < t
  }

  function RankedMass(p: Row, m: nat): real
    requires m <= |Ranking(p, |p|)|
  {
    Mass(p, MaskOf(|p|, Ranking(p, |p|)[..m]), |p|)
  }

  lemma {:induction false} FirstReaching(p: Row, t: real, m: nat) returns (k: nat)
    requires t > 0.0 && m <= |Ranking(p, |p|)| && forall a :: 0 <= a < m ==> RankedMass(p, a) < t
    ensures Reaches(p, t, k)
    decreases |Ranking(p, |p|)| - m
  {
    hide RankedMass, Ranking;
    if m == |Ranking(p, |p|)| || RankedMass(p, m) >= t { k := m; } else { k := FirstReaching(p, t, m + 1); }
  }

  /** The loop keeps exactly the nucleus. */
  lemma RankedPrefixIsNucleus(p: Row, t: real, m: nat)
    requires t > 0.0 && Reaches(p, t, m)
    ensures m <= |Ranking(p, |p|)| && MaskOf(|p|, Ranking(p, |p|)[..m]) == Nucleus(p, t)
    ensures NonNegative(p) && SumTo(p, |p|) >= t ==> RankedMass(p, m) >= t
  {
    var order := Ranking(p, |p|);
    hide Nucleus, Ranking, Mass;
    forall i | 0 <= i < |p| ensures Nucleus(p, t)[i] <==> i in order[..m] { RankedToken(p, t, m, i); }
    if NonNegative(p) && SumTo(p, |p|) >= t && m == |order| {
      assert order[..m] == order;
      forall i | 0 <= i < |p| ensures MaskOf(|p|, order)[i] || p[i] == 0.0 { RankingHas(p, |p|, i); }
      MassAll(p, MaskOf(|p|, order), |p|);
    }
  }

  lemma {:induction false} MassAll(p: Row, m: Mask, n: nat)
    requires n <= |m| == |p| && forall i :: 0 <= i < |p| ==> m[i] || p[i] == 0.0
    ensures Mass(p, m, n) == SumTo(p, n)
  {
    if n > 0 { MassAll(p, m, n - 1); }
  }

  lemma {:induction false} RankedMassGrows(p: Row, a: nat, b: nat)
    requires a <= b <= |Ranking(p, |p|)|
    ensures RankedMass(p, a) <= RankedMass(p, b)
  {
    var order := Ranking(p, |p|);
    var x, y := MaskOf(|p|, order[..a]), MaskOf(|p|, order[..b]);
    forall i | 0 <= i < |p| && i in order[..a] ensures i in order[..b] {
      var c := IndexOf(order[..a], i);
      assert order[..b][c] == i;
    }
    forall i | 0 <= i < |p| && i in order[..b] ensures p[i] > 0.0 {
      var c := IndexOf(order[..b], i);
      assert order[c] == i;
      RankingHas(p, |p|, i);
    }
    WithinWeighsLess(p, x, y, |p|);
  }

  lemma {:induction false} RankedToken(p: Row, t: real, m: nat, i: nat)
    requires t > 0.0 && Reaches(p, t, m) && i < |p|
    ensures Nucleus(p, t)[i] <==> i in Ranking(p, |p|)[..m]
  {
    var order := Ranking(p, |p|);
    RankingHas(p, |p|, i);
    if i in order {
      var b := IndexOf(order, i);
      AboveIsBefore(p, b);
      assert MassAbove(p, i) == RankedMass(p, b);
      if b < m {
        assert order[..m][b] == i;
      } else {
        RankedMassGrows(p, m, b);
        NotBefore(p, order, m, b);
      }
    }
    InPrefix(order, m, i);
  }

  lemma InPrefix(s: seq<nat>, m: nat, x: nat)
    requires m <= |s|
    ensures x in s[..m] ==> x in s
  {
  }

  lemma NotBefore(p: Row, order: seq<nat>, m: nat, b: nat)
    requires order == Ranking(p, |p|) && m <= b < |order|
    ensures order[b] !in order[..m]
  {
    RankingSorted(p, |p|);
    hide Ranking;
    forall c | 0 <= c < m ensures order[..m][c] != order[b] { assert Greater(p, order[c], order[b]); }
  }

  // ----- the sampling loops -----

  method AdjustLoop(probs: array<real>, cfg: Config, prompt: seq<int>)
    modifies probs
    ensures probs[..] == Adjusted(old(probs[..]), cfg, prompt)
  {
    ghost var logits := probs[..];
    var n := probs.Length;
    if cfg.temperature > 0.0 && cfg.temperature != 1.0 {
      for i := 0 to n
        invariant forall j :: 0 <= j < n ==> probs[j] == if j < i then Tempered(logits[j], cfg) else logits[j]
      {
        probs[i] := probs[i] / cfg.temperature;
      }
    }
    assert forall j :: 0 <= j < n ==> probs[j] == Tempered(logits[j], cfg);
    if cfg.penalty > 1.0 && |prompt| > 0 {
      PenaltyLoop(probs, cfg, prompt);
    }
  }

  /** An id is penalized once however often it occurs; ids outside the vocabulary are skipped. */
  method PenaltyLoop(probs: array<real>, cfg: Config, prompt: seq<int>)
    requires cfg.penalty > 1.0
    modifies probs
    ensures forall j :: 0 <= j < probs.Length ==> probs[j] == Penalized(old(probs[j]), cfg, j in prompt)
  {
    var n := probs.Length;
    var penalized := new bool[n](_ => false);
    for t := 0 to |prompt|
      invariant forall j :: 0 <= j < n ==> (penalized[j] <==> j in prompt[..t])
      invariant forall j :: 0 <= j < n ==> probs[j] == Penalized(old(probs[j]), cfg, penalized[j])
    {
      var id := prompt[t];
      assert prompt[..t + 1] == prompt[..t] + [id];
      if 0 <= id < n {
        if !penalized[id] {
          probs[id] := probs[id] / cfg.penalty;
          penalized[id] := true;
        }
      }
    }
    assert prompt[..|prompt|] == prompt;
  }

  /** Zero the entries outside a mask. */
  method FilterLoop(probs: array<real>, keep: Mask)
    requires |keep| == probs.Length
    modifies probs
    ensures probs[..] == Masked(old(probs[..]), keep)
  {
    for i := 0 to probs.Length
      invariant forall j :: 0 <= j < probs.Length ==> probs[j] == if j < i && !keep[j] then 0.0 else old(probs[j])
    {
      if !keep[i] { probs[i] := 0.0; }
    }
  }

  /** Mark the ids in a list. */
  method Mark(n: nat, ids: seq<nat>) returns (keep: Mask)
    requires forall a :: 0 <= a < |ids| ==> ids[a] < n
    ensures keep == MaskOf(n, ids)
  {
    keep := seq(n, _ => false);
    for a := 0 to |ids|
      invariant |keep| == n && forall j :: 0 <= j < n ==> (keep[j] <==> j in ids[..a])
    {
      keep := keep[ids[a] := true];
      assert ids[..a + 1] == ids[..a] + [ids[a]];
    }
    assert ids[..|ids|] == ids;
  }

  /** sel is the arrangement left by std::nth_element. */
  method TopKLoop(probs: array<real>, cfg: Config, sel: seq<nat>)
    requires 0 < cfg.topK < probs.Length ==> Selected(probs[..], sel, cfg.topK)
    modifies probs
    ensures probs[..] == TopKStage(old(probs[..]), cfg)
  {
    if 0 < cfg.topK < probs.Length {
      SelectionIsTopK(probs[..], sel, cfg.topK);
      var keep := Mark(probs.Length, sel[..cfg.topK]);
      FilterLoop(probs, keep);
    }
  }

  method TopPLoop(probs: array<real>, cfg: Config)
    modifies probs
    ensures probs[..] == TopPStage(old(probs[..]), cfg)
  {
    if 0.0 < cfg.topP < 1.0 {
      ghost var p := probs[..];
      var order := Ranking(probs[..], probs.Length);
      var keep, m := MarkNucleus(p, probs, order, cfg.topP);
      RankedPrefixIsNucleus(p, cfg.topP, m);
      FilterLoop(probs, keep);
    }
  }

  method MarkNucleus(ghost p: Row, probs: array<real>, order: seq<nat>, t: real) returns (keep: Mask, ghost m: nat)
    requires p == probs[..] && order == Ranking(p, |p|) && t > 0.0
    ensures Reaches(p, t, m) && keep == MaskOf(|p|, order[..m])
  {
    hide Ranking, Mass;
    var cumsum := 0.0;
    keep := seq(probs.Length, _ => false);
    m := 0;
    MassNone(p, MaskOf(|p|, order[..0]), |p|);
    for a := 0 to |order|
      invariant m == a && keep == MaskOf(|p|, order[..a]) && cumsum == RankedMass(p, a)
      invariant forall b :: 0 <= b < a ==> RankedMass(p, b) < t
      invariant a > 0 ==> cumsum < t
    {
      NotBefore(p, order, a, a);
      MarkAdds(p, keep, order[a], |p|);
      assert order[..a + 1][..a] == order[..a];
      cumsum := cumsum + probs[order[a]];
      keep := keep[order[a] := true];
      assert keep == MaskOf(|p|, order[..a + 1]);
      m := a + 1;
      if cumsum >= t { return; }
    }
  }

  method SumLoop(probs: array<real>) returns (sum: real)
    ensures sum == SumTo(probs[..], probs.Length)
  {
    sum := 0.0;
    for i := 0 to probs.Length
      invariant sum == SumTo(probs[..], i)
    {
      sum := sum + probs[i];
    }
  }

  method NormalizeLoop(probs: array<real>, sum: real)
    requires sum == SumTo(probs[..], probs.Length)
    modifies probs
    ensures probs[..] == Renormalized(old(probs[..]))
  {
    ghost var q := probs[..];
    Attention.ScaleLoop(probs, Inverse(sum));
    forall i | 0 <= i < |q| ensures probs[..][i] == Renormalized(q)[i] { assert probs[i] == q[i] * Inverse(sum); }
  }

  method ArgMaxLoop(logits: Row) returns (best: nat)
    requires |logits| > 0
    ensures best == ArgMax(logits, |logits|)
  {
    best := 0;
    for i := 1 to |logits|
      invariant best == ArgMax(logits, i)
    {
      if logits[i] > logits[best] { best := i; }
    }
  }

  /** Search the cumulative distribution for the draw. */
  method Draw(r: Row, u: real) returns (tok: nat)
    requires |r| > 0
    ensures tok == PickFrom(r, u, 0)
  {
    var acc := 0.0;
    for i := 0 to |r|
      invariant acc == SumTo(r, i)
      invariant i < |r| ==> PickFrom(r, u, 0) == PickFrom(r, u, i)
      invariant i == |r| ==> PickFrom(r, u, 0) == |r| - 1
    {
      acc := acc + r[i];
      if u <= acc { return i; }
    }
    return |r| - 1;
  }

  /** The working copy through temperature, penalty, softmax and both filters. */
  method FilteredProbs(f: Fns, logits: Row, cfg: Config, prompt: seq<int>, sel: seq<nat>) returns (probs: array<real>)
    requires |logits| > 0
    requires 0 < cfg.topK < |logits| ==> Selected(SoftmaxFromFirst(f, Adjusted(logits, cfg, prompt)), sel, cfg.topK)
    ensures fresh(probs) && probs[..] == Kept(SoftmaxFromFirst(f, Adjusted(logits, cfg, prompt)), cfg)
  {
    hide Adjusted, TopKStage, TopPStage, Selected, MaxFrom, SoftmaxAt;
    probs := new real[|logits|](i requires 0 <= i < |logits| => logits[i]);
    assert probs[..] == logits;
    AdjustLoop(probs, cfg, prompt);
    assert probs[0] == At(probs[..], 0);
    Attention.SoftmaxInPlace(f, probs, probs[0]);
    TopKLoop(probs, cfg, sel);
    TopPLoop(probs, cfg);
  }

  method SampleToken(f: Fns, logits: Row, cfg: Config, prompt: seq<int>, sel: seq<nat>, draw: real) returns (tok: nat)
    requires |logits| > 0
    requires 0 < cfg.topK < |logits| ==> Selected(SoftmaxFromFirst(f, Adjusted(logits, cfg, prompt)), sel, cfg.topK)
    ensures tok == Sample(f, logits, cfg, prompt, draw)
  {
    var probs := FilteredProbs(f, logits, cfg, prompt, sel);
    hide Kept, SoftmaxFromFirst, Adjusted, Selected, SumTo, PickFrom, ArgMax, Renormalized;
    var sum := SumLoop(probs);
    if sum <= 0.0 {
      tok := ArgMaxLoop(logits);
      return;
    }
    NormalizeLoop(probs, sum);
    tok := Draw(probs[..], draw);
  }
}
