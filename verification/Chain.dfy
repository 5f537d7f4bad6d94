/** A layered causal decoder over a KV cache, with the row arithmetic left as function values: only the
    order of evaluation and the cache traffic are fixed here. `Model::forward` is the token-major
    pass, `Model::forward_prefill` the layer-major one. */
module Chain {
  import opened Rows

  datatype KV = KV(k: Row, v: Row)
  type LayerCache = seq<KV>
  /** cache[l][p] is the key/value row of layer l at position p. */
  type Cache = seq<LayerCache>

  datatype QKV = QKV(q: Row, kv: KV)

  /** `project` takes layer, input and position; `attend` the query and the rows it may see; `finish` the
      layer, its input and the attention output. */
  datatype Decoder = Decoder(nLayers: nat,
                             embed: int -> Row,
                             project: (nat, Row, nat) -> QKV,
                             attend: (Row, seq<KV>) -> Row,
                             finish: (nat, Row, Row) -> Row,
                             logits: Row -> Row)

  // ----- the cache -----

  /** KVCache::update for one row: a position at or past the capacity is dropped. */
  function Store(lc: LayerCache, p: nat, kv: KV): (r: LayerCache)
    ensures |r| == |lc|
  {
    if p < |lc| then lc[p := kv] else lc
  }

  /** KVCache::update for a batch that starts at position pos. */
  function StoreAll(lc: LayerCache, pos: nat, kvs: seq<KV>): (r: LayerCache)
    ensures |r| == |lc|
  {
    seq(|lc|, p requires 0 <= p < |lc| => if pos <= p < pos + |kvs| then kvs[p - pos] else lc[p])
  }

  /** Every layer has room for n positions. */
  ghost predicate Fits(c: Decoder, cache: Cache, n: nat) {
    |cache| == c.nLayers && forall l :: 0 <= l < |cache| ==> n <= |cache[l]|
  }

  // ----- token-major: Model::forward -----

  /** The rows a token at pos attends to: 0..pos with itself when prefilling, else 0..pos-1. */
  function Window(lc: LayerCache, pos: nat, prefill: bool): seq<KV>
    requires pos < |lc|
  {
    if prefill then lc[..pos + 1] else lc[..pos]
  }

  function StepLayer(c: Decoder, l: nat, x: Row, lc: LayerCache, pos: nat, prefill: bool): (Row, LayerCache)
    requires l < c.nLayers && pos < |lc|
  {
    var p := c.project(l, x, pos);
    var stored := Store(lc, pos, p.kv);
    (c.finish(l, x, c.attend(p.q, Window(if prefill then stored else lc, pos, prefill))), stored)
  }

  /** Layers l, l+1, ... applied to x, each updating its own cache row. */
  function StepFrom(c: Decoder, l: nat, x: Row, cache: Cache, pos: nat, prefill: bool): (r: (Row, Cache))
    requires l <= c.nLayers && Fits(c, cache, pos + 1)
    ensures Fits(c, r.1, pos + 1) && forall i :: 0 <= i < |cache| ==> |r.1[i]| == |cache[i]|
    decreases c.nLayers - l
  {
    if l == c.nLayers then (x, cache)
    else
      var (y, lc) := StepLayer(c, l, x, cache[l], pos, prefill);
      StepFrom(c, l + 1, y, cache[l := lc], pos, prefill)
  }

  function Forward(c: Decoder, cache: Cache, tok: int, pos: nat, prefill: bool): (r: (Row, Cache))
    requires Fits(c, cache, pos + 1)
    ensures Fits(c, r.1, pos + 1) && forall i :: 0 <= i < |cache| ==> |r.1[i]| == |cache[i]|
  {
    var (x, after) := StepFrom(c, 0, c.embed(tok), cache, pos, prefill);
    (c.logits(x), after)
  }

  /** The first n tokens fed one at a time at positions 0..n-1, as prompt tokens. */
  function TokenByToken(c: Decoder, cache: Cache, toks: seq<int>, n: nat): (r: (seq<Row>, Cache))
    requires n <= |toks| && Fits(c, cache, n)
    ensures |r.0| == n && |r.1| == |cache| && forall i :: 0 <= i < |cache| ==> |r.1[i]| == |cache[i]|
  {
    if n == 0 then ([], cache)
    else
      var (rows, mid) := TokenByToken(c, cache, toks, n - 1);
      var (y, after) := Forward(c, mid, toks[n - 1], n - 1, true);
      (rows + [y], after)
  }

  // ----- layer-major: Model::forward_prefill -----

  function ProjectAll(c: Decoder, l: nat, xs: seq<Row>): (r: seq<QKV>)
    ensures |r| == |xs|
  {
    seq(|xs|, s requires 0 <= s < |xs| => c.project(l, xs[s], s))
  }

  function KVs(ps: seq<QKV>): (r: seq<KV>)
    ensures |r| == |ps|
  {
    seq(|ps|, s requires 0 <= s < |ps| => ps[s].kv)
  }

  /** One layer over all S rows: every key/value row is stored first, then row s attends to 0..s. */
  function PrefillLayer(c: Decoder, l: nat, xs: seq<Row>, lc: LayerCache): (r: (seq<Row>, LayerCache))
    requires l < c.nLayers && |xs| <= |lc|
    ensures |r.0| == |xs| && |r.1| == |lc|
  {
    var ps := ProjectAll(c, l, xs);
    var stored := StoreAll(lc, 0, KVs(ps));
    (seq(|xs|, s requires 0 <= s < |xs| => c.finish(l, xs[s], c.attend(ps[s].q, stored[..s + 1]))), stored)
  }

  function PrefillFrom(c: Decoder, l: nat, xs: seq<Row>, cache: Cache): (r: (seq<Row>, Cache))
    requires l <= c.nLayers && Fits(c, cache, |xs|)
    ensures |r.0| == |xs| && Fits(c, r.1, |xs|) && forall i :: 0 <= i < |cache| ==> |r.1[i]| == |cache[i]|
    decreases c.nLayers - l
  {
    if l == c.nLayers then (xs, cache)
    else
      var (ys, lc) := PrefillLayer(c, l, xs, cache[l]);
      PrefillFrom(c, l + 1, ys, cache[l := lc])
  }

  function EmbedAll(c: Decoder, toks: seq<int>): (r: seq<Row>)
    ensures |r| == |toks|
  {
    seq(|toks|, s requires 0 <= s < |toks| => c.embed(toks[s]))
  }

  function LogitsAll(c: Decoder, xs: seq<Row>): (r: seq<Row>)
    ensures |r| == |xs|
  {
    seq(|xs|, s requires 0 <= s < |xs| => c.logits(xs[s]))
  }

  function Prefill(c: Decoder, cache: Cache, toks: seq<int>): (r: (seq<Row>, Cache))
    requires Fits(c, cache, |toks|)
    ensures |r.0| == |toks| && Fits(c, r.1, |toks|) && forall i :: 0 <= i < |cache| ==> |r.1[i]| == |cache[i]|
  {
    var (xs, after) := PrefillFrom(c, 0, EmbedAll(c, toks), cache);
    (LogitsAll(c, xs), after)
  }
}
