/** The KV cache as the engine stores it: per layer one flat buffer for keys and one for values, with the
    row of position p at offset p * n_kv_heads * head_dim. */
module KvCaches {
  import opened Arith
  import opened Rows
  import opened Chain

  // ----- flat buffers as rows -----

  function RowOf(flat: seq<real>, w: nat, cap: nat, p: nat): (r: Row)
    requires |flat| == cap * w && p < cap
    ensures |r| == w
  {
    RowBounds(p, w, cap);
    flat[p * w..(p + 1) * w]
  }

  function LayerOf(kf: seq<real>, vf: seq<real>, w: nat, cap: nat): (r: LayerCache)
    requires |kf| == |vf| == cap * w
    ensures |r| == cap
  {
    seq(cap, p requires 0 <= p < cap => KV(RowOf(kf, w, cap, p), RowOf(vf, w, cap, p)))
  }

  function Patch(flat: seq<real>, off: nat, src: Row): (r: seq<real>)
    requires off + |src| <= |flat|
    ensures |r| == |flat|
  {
    flat[..off] + src + flat[off + |src|..]
  }

  lemma PatchRow(flat: seq<real>, w: nat, cap: nat, p: nat, src: Row, q: nat)
    requires |flat| == cap * w && p < cap && q < cap && |src| == w
    ensures p * w + w <= |flat|
    ensures RowOf(Patch(flat, p * w, src), w, cap, q) == if q == p then src else RowOf(flat, w, cap, q)
  {
    RowBounds(p, w, cap);
    RowBounds(q, w, cap);
    if p < q { RowsApart(p, q, w); }
    if q < p { RowsApart(q, p, w); }
    var a := RowOf(Patch(flat, p * w, src), w, cap, q);
    var b := if q == p then src else RowOf(flat, w, cap, q);
    forall i | 0 <= i < w ensures a[i] == b[i] {
      assert a[i] == Patch(flat, p * w, src)[q * w + i];
    }
  }

  lemma {:induction false} PatchLayer(kf: seq<real>, vf: seq<real>, w: nat, cap: nat, p: nat, k: Row, v: Row)
    requires |kf| == |vf| == cap * w && p < cap && |k| == |v| == w
    ensures p * w + w <= cap * w
    ensures LayerOf(Patch(kf, p * w, k), Patch(vf, p * w, v), w, cap) == Store(LayerOf(kf, vf, w, cap), p, KV(k, v))
  {
    RowBounds(p, w, cap);
    var a := LayerOf(Patch(kf, p * w, k), Patch(vf, p * w, v), w, cap);
    var b := Store(LayerOf(kf, vf, w, cap), p, KV(k, v));
    forall q | 0 <= q < cap ensures a[q] == b[q] {
      PatchRow(kf, w, cap, p, k, q);
      PatchRow(vf, w, cap, p, v, q);
    }
  }

  /** The per-head copies of KVCache::update: head h goes to (p * n_kv_heads + h) * head_dim. */
  method CopyHeads(dst: array<real>, src: Row, p: nat, nKv: nat, hd: nat, cap: nat)
    requires dst.Length == cap * (nKv * hd) && p < cap && |src| == nKv * hd
    modifies dst
    ensures p * (nKv * hd) + nKv * hd <= dst.Length
    ensures dst[..] == Patch(old(dst[..]), p * (nKv * hd), src)
  {
    ghost var w := nKv * hd;
    RowBounds(p, w, cap);
    for h := 0 to nKv
      invariant forall i :: 0 <= i < dst.Length ==>
        dst[i] == if p * w <= i < p * w + h * hd then src[i - p * w] else old(dst[i])
    {
      assert (p * nKv + h) * hd == p * w + h * hd by { Regroup(p, nKv, h, hd); }
      RowBounds(h, hd, nKv);
      var off := (p * nKv + h) * hd;
      forall d | 0 <= d < hd {
        dst[off + d] := src[h * hd + d];
      }
    }
  }

  lemma Regroup(p: nat, n: nat, h: nat, hd: nat)
    ensures (p * n + h) * hd == p * (n * hd) + h * hd
  {
  }

  class KVCache {
    const nKv: nat
    const headDim: nat
    const capacity: nat
    const k: seq<array<real>>
    const v: seq<array<real>>
    var seqLen: nat

    /** KVCache::init: one zeroed key and one zeroed value buffer per layer. */
    constructor (layers: nat, nKv: nat, headDim: nat, capacity: nat)
      ensures Valid() && |k| == layers && seqLen == 0
      ensures this.nKv == nKv && this.headDim == headDim && this.capacity == capacity
      ensures forall b :: b in Buffers() ==> fresh(b)
    {
      var ks: seq<array<real>>, vs: seq<array<real>> := [], [];
      for l := 0 to layers
        invariant |ks| == |vs| == l
        invariant forall i :: 0 <= i < l ==> fresh(ks[i]) && fresh(vs[i])
        invariant forall i :: 0 <= i < l ==> ks[i].Length == vs[i].Length == capacity * (nKv * headDim)
        invariant forall i, j :: 0 <= i < j < l ==> ks[i] != ks[j] && vs[i] != vs[j]
        invariant forall i, j :: 0 <= i < l && 0 <= j < l ==> ks[i] != vs[j]
      {
        var kb := new real[capacity * (nKv * headDim)](i => 0.0);
        var vb := new real[capacity * (nKv * headDim)](i => 0.0);
        ks, vs := ks + [kb], vs + [vb];
      }
      this.nKv, this.headDim, this.capacity, this.seqLen := nKv, headDim, capacity, 0;
      k, v := ks, vs;
    }

    ghost predicate Valid() {
      && |k| == |v|
      && (forall l :: 0 <= l < |k| ==> k[l].Length == capacity * (nKv * headDim) && v[l].Length == k[l].Length)
      && (forall i, j :: 0 <= i < j < |k| ==> k[i] != k[j] && v[i] != v[j])
      && (forall i, j :: 0 <= i < |k| && 0 <= j < |v| ==> k[i] != v[j])
    }

    ghost function Buffers(): set<object> {
      (set l | 0 <= l < |k| :: k[l]) + (set l | 0 <= l < |v| :: v[l])
    }

    ghost function LayerValue(l: nat): (r: LayerCache)
      requires Valid() && l < |k|
      reads k[l], v[l]
      ensures |r| == capacity
    {
      LayerOf(k[l][..], v[l][..], nKv * headDim, capacity)
    }

    ghost function Value(): (r: Cache)
      requires Valid()
      reads Buffers()
      ensures |r| == |k| && forall l :: 0 <= l < |k| ==> |r[l]| == capacity
    {
      seq(|k|, l requires 0 <= l < |k| reads Buffers() => LayerValue(l))
    }

    /** KVCache::clear: the rows stay, only the length is reset. */
    method Clear()
      requires Valid()
      modifies this`seqLen
      ensures seqLen == 0 && Value() == old(Value())
    {
      seqLen := 0;
    }

    /** KVCache::update: rows past the capacity are dropped, every other row and layer is left alone. */
    method Update(layer: nat, pos: nat, ks: seq<Row>, vs: seq<Row>)
      requires Valid() && layer < |k| && |ks| == |vs|
      requires forall s :: 0 <= s < |ks| ==> |ks[s]| == |vs[s]| == nKv * headDim
      modifies k[layer], v[layer]
      ensures Value() == old(Value())[layer := StoreAll(old(Value())[layer], pos, Zip(ks, vs))]
    {
      hide Patch, RowOf, LayerOf, StoreAll, Store, Zip;
      ghost var was, kvs := LayerValue(layer), Zip(ks, vs);
      var s := 0;
      StoreNothing(was, pos, kvs);
      while s < |ks| && pos + s < capacity
        invariant 0 <= s <= |ks|
        invariant LayerValue(layer) == StoreAll(was, pos, kvs[..s])
      {
        ghost var kf, vf := k[layer][..], v[layer][..];
        CopyHeads(k[layer], ks[s], pos + s, nKv, headDim, capacity);
        CopyHeads(v[layer], vs[s], pos + s, nKv, headDim, capacity);
        PatchLayer(kf, vf, nKv * headDim, capacity, pos + s, ks[s], vs[s]);
        ZipAt(ks, vs, s);
        StoreNext(was, pos, kvs, s);
        s := s + 1;
      }
      StoreRest(was, pos, kvs, s);
      assert forall l :: 0 <= l < |k| && l != layer ==> LayerValue(l) == old(LayerValue(l));
    }
  }

  lemma StoreNothing(was: LayerCache, pos: nat, kvs: seq<KV>)
    ensures StoreAll(was, pos, kvs[..0]) == was
  {
  }

  lemma StoreNext(was: LayerCache, pos: nat, kvs: seq<KV>, s: nat)
    requires s < |kvs|
    ensures StoreAll(was, pos, kvs[..s + 1]) == Store(StoreAll(was, pos, kvs[..s]), pos + s, kvs[s])
  {
  }

  /** Rows past the capacity have no slot. */
  lemma StoreRest(was: LayerCache, pos: nat, kvs: seq<KV>, s: nat)
    requires s <= |kvs| && (s == |kvs| || pos + s >= |was|)
    ensures StoreAll(was, pos, kvs[..s]) == StoreAll(was, pos, kvs)
  {
  }

  lemma ZipAt(ks: seq<Row>, vs: seq<Row>, s: nat)
    requires |ks| == |vs| && s < |ks|
    ensures Zip(ks, vs)[s] == KV(ks[s], vs[s])
  {
  }

  function Zip(ks: seq<Row>, vs: seq<Row>): (r: seq<KV>)
    requires |ks| == |vs|
    ensures |r| == |ks|
  {
    seq(|ks|, s requires 0 <= s < |ks| => KV(ks[s], vs[s]))
  }
}
