/** Merging in `bpe_encode_piece`. */
module Bpe {
  // Greedy byte-pair merging.

  import opened Bytes
  import opened ByteLevel

  const INT_MAX := 0x7fff_ffff

  /** "a b", the key of the merge table. */
  function Key(a: Bytes, b: Bytes): Bytes {
    a + [SPACE] + b
  }

  type Merges = map<Bytes, int>

  predicate CanMerge(m: Merges, syms: seq<Bytes>, i: int) {
    0 <= i && i + 1 < |syms| && Key(syms[i], syms[i + 1]) in m && m[Key(syms[i], syms[i + 1])] < INT_MAX
  }

  function PairRank(m: Merges, syms: seq<Bytes>, i: int): int
    requires CanMerge(m, syms, i)
  {
    m[Key(syms[i], syms[i + 1])]
  }

  /** Pair i has the smallest rank of all adjacent pairs, and is the leftmost one with that rank. */
  ghost predicate IsBest(m: Merges, syms: seq<Bytes>, i: int) {
    && CanMerge(m, syms, i)
    && forall j :: CanMerge(m, syms, j) ==>
         PairRank(m, syms, i) < PairRank(m, syms, j) || (PairRank(m, syms, i) == PairRank(m, syms, j) && i <= j)
  }

  function MergeAt(syms: seq<Bytes>, i: int): (r: seq<Bytes>)
    requires 0 <= i && i + 1 < |syms|
    ensures |r| == |syms| - 1
  {
    syms[..i] + [syms[i] + syms[i + 1]] + syms[i + 2..]
  }

  /** The greedy normal form: the best pair is merged until no pair can be. */
  ghost function Greedy(m: Merges, syms: seq<Bytes>): seq<Bytes>
    decreases |syms|
  {
    if exists i :: IsBest(m, syms, i) then
      var i :| IsBest(m, syms, i);
      Greedy(m, MergeAt(syms, i))
    else syms
  }

  lemma BestIsUnique(m: Merges, syms: seq<Bytes>, i: int, j: int)
    requires IsBest(m, syms, i) && IsBest(m, syms, j)
    ensures i == j
  {
  }

  lemma {:induction false} GreedyStep(m: Merges, syms: seq<Bytes>, i: int)
    requires IsBest(m, syms, i)
    ensures Greedy(m, syms) == Greedy(m, MergeAt(syms, i))
  {
    var j :| IsBest(m, syms, j) && Greedy(m, syms) == Greedy(m, MergeAt(syms, j));
    BestIsUnique(m, syms, i, j);
  }

  /** The scan over the first n pairs: -1 while none of them can be merged. */
  ghost predicate BestBelow(m: Merges, syms: seq<Bytes>, n: int, best: int, rank: int) {
    && (best < 0 ==> best == -1 && rank == INT_MAX && forall j :: 0 <= j < n ==> !CanMerge(m, syms, j))
    && (best >= 0 ==> best < n && CanMerge(m, syms, best) && rank == PairRank(m, syms, best))
    && (best >= 0 ==> forall j :: 0 <= j < n && CanMerge(m, syms, j) ==>
          rank < PairRank(m, syms, j) || (rank == PairRank(m, syms, j) && best <= j))
  }

  method FindBest(m: Merges, syms: seq<Bytes>) returns (best: int)
    ensures best < 0 ==> forall i :: !CanMerge(m, syms, i)
    ensures best >= 0 ==> IsBest(m, syms, best)
  {
    var rank := INT_MAX;
    best := -1;
    var i := 0;
    while i + 1 < |syms|
      invariant 0 <= i && BestBelow(m, syms, i, best, rank)
      invariant i <= |syms|
    {
      var key := syms[i] + [SPACE] + syms[i + 1];
      if key in m && m[key] < rank {
        rank := m[key];
        best := i;
      }
      i := i + 1;
    }
  }

  /** Some pair can be merged exactly when there is a best one. */
  lemma BestExists(m: Merges, syms: seq<Bytes>, i: int)
    requires CanMerge(m, syms, i)
    ensures exists j :: IsBest(m, syms, j)
  {
    var j := SearchBest(m, syms, |syms| - 1);
    assert IsBest(m, syms, j);
  }

  lemma {:induction false} SearchBest(m: Merges, syms: seq<Bytes>, n: nat) returns (best: int)
    requires n < |syms| || n == 0
    ensures var rank := if best >= 0 && CanMerge(m, syms, best) then PairRank(m, syms, best) else INT_MAX;
      BestBelow(m, syms, n, best, rank)
  {
    if n == 0 {
      best := -1;
    } else {
      best := SearchBest(m, syms, n - 1);
      if CanMerge(m, syms, n - 1) && (best < 0 || PairRank(m, syms, n - 1) < PairRank(m, syms, best)) {
        best := n - 1;
      }
    }
  }

  /** The merge loop in place: each round merges the leftmost pair of minimum rank and erases its right half. */
  method MergeLoop(m: Merges, start: seq<Bytes>) returns (syms: seq<Bytes>)
    ensures syms == Greedy(m, start)
  {
    syms := start;
    while |syms| > 1
      invariant Greedy(m, syms) == Greedy(m, start)
      decreases |syms|
    {
      var best := FindBest(m, syms);
      if best < 0 {
        assert forall i :: !IsBest(m, syms, i);
        return;
      }
      GreedyStep(m, syms, best);
      syms := syms[..best] + [syms[best] + syms[best + 1]] + syms[best + 2..];
    }
    assert forall i :: !IsBest(m, syms, i);
  }

  // ----- properties of the normal form -----

  lemma FlattenAround(a: seq<Bytes>, mid: seq<Bytes>, b: seq<Bytes>)
    ensures Flatten(a + mid + b) == Flatten(a) + Flatten(mid) + Flatten(b)
  {
    FlattenConcat(a + mid, b);
    FlattenConcat(a, mid);
  }

  lemma FlattenTwo(x: Bytes, y: Bytes)
    ensures Flatten([x, y]) == x + y
  {
    assert [x, y] == [x] + [y];
    FlattenConcat([x], [y]);
    FlattenOne(x);
    FlattenOne(y);
  }

  lemma SplitPair(syms: seq<Bytes>, i: int)
    requires 0 <= i && i + 1 < |syms|
    ensures syms == syms[..i] + [syms[i], syms[i + 1]] + syms[i + 2..]
  {
  }

  lemma {:induction false} MergeKeepsText(syms: seq<Bytes>, i: int)
    requires 0 <= i && i + 1 < |syms|
    ensures Flatten(MergeAt(syms, i)) == Flatten(syms)
  {
    hide Flatten;
    var a, x, y, b := syms[..i], syms[i], syms[i + 1], syms[i + 2..];
    SplitPair(syms, i);
    FlattenAround(a, [x, y], b);
    FlattenAround(a, [x + y], b);
    FlattenTwo(x, y);
    FlattenOne(x + y);
  }

  /** Merging never changes the text that the symbols spell. */
  lemma {:induction false} GreedyKeepsText(m: Merges, syms: seq<Bytes>)
    ensures Flatten(Greedy(m, syms)) == Flatten(syms)
    decreases |syms|
  {
    if exists i :: IsBest(m, syms, i) {
      var i :| IsBest(m, syms, i);
      GreedyStep(m, syms, i);
      MergeKeepsText(syms, i);
      GreedyKeepsText(m, MergeAt(syms, i));
    }
  }

  /** In the result no adjacent pair can be merged any more. */
  lemma {:induction false} GreedyIsNormal(m: Merges, syms: seq<Bytes>, j: int)
    ensures !CanMerge(m, Greedy(m, syms), j)
    decreases |syms|
  {
    if exists i :: IsBest(m, syms, i) {
      var i :| IsBest(m, syms, i);
      GreedyStep(m, syms, i);
      GreedyIsNormal(m, MergeAt(syms, i), j);
    } else if CanMerge(m, syms, j) {
      BestExists(m, syms, j);
    }
  }

  // ----- the string key is an exact pair -----

  /** Without spaces in the parts, the joined key determines the pair. */
  lemma KeyIsExact(a: Bytes, b: Bytes, c: Bytes, d: Bytes)
    requires NoSpace(a) && NoSpace(c) && Key(a, b) == Key(c, d)
    ensures a == c && b == d
  {
    var k := Key(a, b);
    assert k[|a|] == SPACE && k[|c|] == SPACE;
    assert forall i :: 0 <= i < |a| ==> k[i] == a[i];
    assert forall i :: 0 <= i < |c| ==> k[i] == c[i];
    assert |a| == |c|;
    assert a == Key(a, b)[..|a|] && c == Key(c, d)[..|c|];
    assert b == Key(a, b)[|a| + 1..] && d == Key(c, d)[|c| + 1..];
  }

  type PairMerges = map<(Bytes, Bytes), int>

  /** The table of pairs a merge table stands for on symbols without spaces. */
  ghost predicate SamePairs(m: Merges, p: PairMerges) {
    forall a: Bytes, b: Bytes :: NoSpace(a) && NoSpace(b) ==>
      (Key(a, b) in m <==> (a, b) in p) && (Key(a, b) in m ==> m[Key(a, b)] == p[(a, b)])
  }

  ghost predicate AllNoSpace(syms: seq<Bytes>) {
    forall i :: 0 <= i < |syms| ==> NoSpace(syms[i])
  }

  ghost predicate IsBestPair(p: PairMerges, syms: seq<Bytes>, i: int) {
    && CanMergePair(p, syms, i)
    && forall j :: CanMergePair(p, syms, j) ==>
         p[(syms[i], syms[i + 1])] < p[(syms[j], syms[j + 1])]
         || (p[(syms[i], syms[i + 1])] == p[(syms[j], syms[j + 1])] && i <= j)
  }

  ghost predicate CanMergePair(p: PairMerges, syms: seq<Bytes>, i: int) {
    0 <= i && i + 1 < |syms| && (syms[i], syms[i + 1]) in p && p[(syms[i], syms[i + 1])] < INT_MAX
  }

  /** Greedy merging over a table of pairs: the algorithm the string keys are meant to implement. */
  ghost function GreedyPairs(p: PairMerges, syms: seq<Bytes>): seq<Bytes>
    decreases |syms|
  {
    if exists i :: IsBestPair(p, syms, i) then
      var i :| IsBestPair(p, syms, i);
      GreedyPairs(p, MergeAt(syms, i))
    else syms
  }

  lemma SameBest(m: Merges, p: PairMerges, syms: seq<Bytes>, i: int)
    requires SamePairs(m, p) && AllNoSpace(syms)
    ensures IsBest(m, syms, i) <==> IsBestPair(p, syms, i)
  {
    assert forall j :: CanMerge(m, syms, j) <==> CanMergePair(p, syms, j);
    assert forall j :: CanMerge(m, syms, j) ==> PairRank(m, syms, j) == p[(syms[j], syms[j + 1])];
  }

  lemma MergeHasNoSpace(syms: seq<Bytes>, i: int)
    requires AllNoSpace(syms) && 0 <= i && i + 1 < |syms|
    ensures AllNoSpace(MergeAt(syms, i))
  {
    var r := MergeAt(syms, i);
    forall j | 0 <= j < |r| ensures NoSpace(r[j]) {
      if j < i { assert r[j] == syms[j]; } else if j > i { assert r[j] == syms[j + 1]; }
    }
  }

  /** On symbols without spaces, which is all that byte characters can ever build, the space-joined string
      lookup merges exactly the pairs a pair table would. */
  lemma {:induction false} GreedyIsPairGreedy(m: Merges, p: PairMerges, syms: seq<Bytes>)
    requires SamePairs(m, p) && AllNoSpace(syms)
    ensures Greedy(m, syms) == GreedyPairs(p, syms)
    decreases |syms|
  {
    forall i ensures IsBest(m, syms, i) <==> IsBestPair(p, syms, i) {
      SameBest(m, p, syms, i);
    }
    if exists i :: IsBestPair(p, syms, i) {
      var i :| IsBestPair(p, syms, i) && GreedyPairs(p, syms) == GreedyPairs(p, MergeAt(syms, i));
      GreedyStep(m, syms, i);
      MergeHasNoSpace(syms, i);
      GreedyIsPairGreedy(m, p, MergeAt(syms, i));
    }
  }

  /** A merge table whose entries have spaces elsewhere still stands for some pair table. */
  ghost function PairTable(m: Merges): (p: PairMerges) {
    map k: (Bytes, Bytes) | k in Splits(m) :: m[Key(k.0, k.1)]
  }

  /** All ways to cut a key of the table at a space. */
  ghost function Splits(m: Merges): (r: set<(Bytes, Bytes)>)
    ensures forall k :: k in r ==> Key(k.0, k.1) in m
    ensures forall a: Bytes, b: Bytes :: Key(a, b) in m ==> (a, b) in r
  {
    var r := set k: Bytes, i: nat | k in m && i < |k| && k[i] == SPACE :: (k[..i], k[i + 1..]);
    forall k | k in r ensures Key(k.0, k.1) in m {
      var w: Bytes, i: nat :| w in m && i < |w| && w[i] == SPACE && k == (w[..i], w[i + 1..]);
      assert Key(k.0, k.1) == w;
    }
    forall a: Bytes, b: Bytes | Key(a, b) in m ensures (a, b) in r {
      var w := Key(a, b);
      assert w[|a|] == SPACE && w[..|a|] == a && w[|a| + 1..] == b;
    }
    r
  }

  lemma PairTableIsSame(m: Merges)
    ensures SamePairs(m, PairTable(m))
  {
  }
}
