/** The causal function. */
module Causal {
  // One function underlies every evaluation order: layer l at position s is determined by the tokens up to s. Batched
  // prefill and token-by-token evaluation both compute it.

  import opened Rows
  import opened Chain

  /** The input of layer l at position s. */
  function HiddenAt(c: Decoder, toks: seq<int>, l: nat, s: nat): Row
    requires l <= c.nLayers && s < |toks|
    decreases l, 0
  {
    if l == 0 then c.embed(toks[s])
    else
      var x := HiddenAt(c, toks, l - 1, s);
      c.finish(l - 1, x, c.attend(c.project(l - 1, x, s).q, KvRows(c, toks, l - 1, s + 1)))
  }

  /** The key/value rows 0..n-1 of layer l. */
  function KvRows(c: Decoder, toks: seq<int>, l: nat, n: nat): (r: seq<KV>)
    requires l < c.nLayers && n <= |toks|
    ensures |r| == n
    decreases l, 1
  {
    seq(n, t requires 0 <= t < n => c.project(l, HiddenAt(c, toks, l, t), t).kv)
  }

  function Overwrite(lc: LayerCache, rows: seq<KV>): (r: LayerCache)
    requires |rows| <= |lc|
    ensures |r| == |lc|
  {
    rows + lc[|rows|..]
  }

  /** Layers lo, lo+1, ... of `cache` hold the first n rows of the causal function over `base`. */
  ghost predicate Holds(c: Decoder, toks: seq<int>, base: Cache, cache: Cache, n: nat, lo: nat) {
    && Fits(c, base, n) && |cache| == |base| && n <= |toks|
    && forall i :: lo <= i < |base| ==> cache[i] == Overwrite(base[i], KvRows(c, toks, i, n))
  }

  ghost predicate IsHidden(c: Decoder, toks: seq<int>, l: nat, xs: seq<Row>) {
    l <= c.nLayers && |xs| <= |toks| && forall s :: 0 <= s < |xs| ==> xs[s] == HiddenAt(c, toks, l, s)
  }

  // ----- layer-major -----

  lemma PrefillLayerCausal(c: Decoder, toks: seq<int>, l: nat, xs: seq<Row>, lc: LayerCache)
    requires l < c.nLayers && IsHidden(c, toks, l, xs) && |xs| <= |lc|
    ensures IsHidden(c, toks, l + 1, PrefillLayer(c, l, xs, lc).0)
    ensures PrefillLayer(c, l, xs, lc).1 == Overwrite(lc, KvRows(c, toks, l, |xs|))
  {
    var ps := ProjectAll(c, l, xs);
    assert KVs(ps) == KvRows(c, toks, l, |xs|);
    var stored := StoreAll(lc, 0, KVs(ps));
    assert stored == Overwrite(lc, KvRows(c, toks, l, |xs|));
    forall s | 0 <= s < |xs|
      ensures PrefillLayer(c, l, xs, lc).0[s] == HiddenAt(c, toks, l + 1, s)
    {
      assert stored[..s + 1] == KvRows(c, toks, l, s + 1);
    }
  }

  lemma {:induction false} PrefillFromCausal(c: Decoder, toks: seq<int>, l: nat, xs: seq<Row>, cache: Cache)
    requires l <= c.nLayers && IsHidden(c, toks, l, xs) && Fits(c, cache, |xs|)
    ensures IsHidden(c, toks, c.nLayers, PrefillFrom(c, l, xs, cache).0)
    ensures Holds(c, toks, cache, PrefillFrom(c, l, xs, cache).1, |xs|, l)
    ensures forall i :: 0 <= i < l ==> PrefillFrom(c, l, xs, cache).1[i] == cache[i]
    decreases c.nLayers - l
  {
    hide HiddenAt, KvRows, PrefillLayer, Overwrite;
    if l < c.nLayers {
      PrefillLayerCausal(c, toks, l, xs, cache[l]);
      var (ys, lc) := PrefillLayer(c, l, xs, cache[l]);
      PrefillFromCausal(c, toks, l + 1, ys, cache[l := lc]);
    }
  }

  lemma {:induction false} PrefillCausal(c: Decoder, cache: Cache, toks: seq<int>)
    requires Fits(c, cache, |toks|)
    ensures forall s :: 0 <= s < |toks| ==>
      Prefill(c, cache, toks).0[s] == c.logits(HiddenAt(c, toks, c.nLayers, s))
    ensures Holds(c, toks, cache, Prefill(c, cache, toks).1, |toks|, 0)
  {
    PrefillFromCausal(c, toks, 0, EmbedAll(c, toks), cache);
  }

  // ----- token-major -----

  lemma StepLayerCausal(c: Decoder, toks: seq<int>, l: nat, base: LayerCache, lc: LayerCache, pos: nat)
    requires l < c.nLayers && pos < |toks| && pos < |base| && lc == Overwrite(base, KvRows(c, toks, l, pos))
    ensures StepLayer(c, l, HiddenAt(c, toks, l, pos), lc, pos, true)
         == (HiddenAt(c, toks, l + 1, pos), Overwrite(base, KvRows(c, toks, l, pos + 1)))
  {
    var p := c.project(l, HiddenAt(c, toks, l, pos), pos);
    var stored := Store(lc, pos, p.kv);
    assert stored == Overwrite(base, KvRows(c, toks, l, pos + 1));
    assert Window(stored, pos, true) == KvRows(c, toks, l, pos + 1);
  }

  lemma {:induction false} StepFromCausal(c: Decoder, toks: seq<int>, l: nat, base: Cache, cache: Cache, pos: nat)
    requires l <= c.nLayers && pos < |toks| && Fits(c, base, pos + 1) && Fits(c, cache, pos + 1)
    requires Holds(c, toks, base, cache, pos, l)
    ensures var r := StepFrom(c, l, HiddenAt(c, toks, l, pos), cache, pos, true);
      && r.0 == HiddenAt(c, toks, c.nLayers, pos)
      && Holds(c, toks, base, r.1, pos + 1, l)
      && forall i :: 0 <= i < l ==> r.1[i] == cache[i]
    decreases c.nLayers - l
  {
    hide HiddenAt, KvRows, StepLayer, Overwrite;
    if l < c.nLayers {
      StepLayerCausal(c, toks, l, base[l], cache[l], pos);
      var (y, lc) := StepLayer(c, l, HiddenAt(c, toks, l, pos), cache[l], pos, true);
      StepFromCausal(c, toks, l + 1, base, cache[l := lc], pos);
    }
  }

  /** A single `forward(tok, pos, true)` on a cache holding rows 0..pos-1 gives the causal logits at pos
      and leaves rows 0..pos. */
  lemma {:induction false} ForwardCausal(c: Decoder, toks: seq<int>, base: Cache, cache: Cache, pos: nat)
    requires pos < |toks| && Fits(c, base, pos + 1) && Fits(c, cache, pos + 1)
    requires Holds(c, toks, base, cache, pos, 0)
    ensures var r := Forward(c, cache, toks[pos], pos, true);
      && r.0 == c.logits(HiddenAt(c, toks, c.nLayers, pos))
      && Holds(c, toks, base, r.1, pos + 1, 0)
  {
    StepFromCausal(c, toks, 0, base, cache, pos);
  }

  /** Rows of logits, each the causal one of its position. */
  ghost predicate CausalRows(c: Decoder, toks: seq<int>, rows: seq<Row>) {
    |rows| <= |toks| && forall s :: 0 <= s < |rows| ==> rows[s] == c.logits(HiddenAt(c, toks, c.nLayers, s))
  }

  lemma OneMoreRow(c: Decoder, toks: seq<int>, rows: seq<Row>, y: Row)
    requires CausalRows(c, toks, rows) && |rows| < |toks| && y == c.logits(HiddenAt(c, toks, c.nLayers, |rows|))
    ensures CausalRows(c, toks, rows + [y])
  {
    hide HiddenAt;
  }

  lemma NoTokens(c: Decoder, toks: seq<int>, cache: Cache)
    requires Fits(c, cache, 0)
    ensures Holds(c, toks, cache, TokenByToken(c, cache, toks, 0).1, 0, 0)
    ensures CausalRows(c, toks, TokenByToken(c, cache, toks, 0).0)
  {
    forall i | 0 <= i < c.nLayers ensures cache[i] == Overwrite(cache[i], KvRows(c, toks, i, 0)) {
      assert KvRows(c, toks, i, 0) == [];
    }
  }

  lemma {:induction false} TokenByTokenCausal(c: Decoder, cache: Cache, toks: seq<int>, n: nat)
    requires n <= |toks| && Fits(c, cache, n)
    ensures Holds(c, toks, cache, TokenByToken(c, cache, toks, n).1, n, 0)
    ensures CausalRows(c, toks, TokenByToken(c, cache, toks, n).0)
  {
    hide HiddenAt, KvRows, Forward, Holds, TokenByToken, CausalRows;
    if n == 0 {
      NoTokens(c, toks, cache);
    } else {
      var (rows, mid) := TokenByToken(c, cache, toks, n - 1);
      TokenByTokenCausal(c, cache, toks, n - 1);
      OneMoreToken(c, cache, toks, n);
      ForwardCausal(c, toks, cache, mid, n - 1);
      OneMoreRow(c, toks, rows, Forward(c, mid, toks[n - 1], n - 1, true).0);
    }
  }

  lemma OneMoreToken(c: Decoder, cache: Cache, toks: seq<int>, n: nat)
    requires 0 < n <= |toks| && Fits(c, cache, n)
    ensures var (rows, mid) := TokenByToken(c, cache, toks, n - 1);
      Fits(c, mid, n) && TokenByToken(c, cache, toks, n)
        == (rows + [Forward(c, mid, toks[n - 1], n - 1, true).0], Forward(c, mid, toks[n - 1], n - 1, true).1)
  {
    hide Forward;
  }

  // ----- main results -----

  /** Loop interchange: the layer-major batched prefill and the token-major loop produce the same logits
      for every position and the same cache, from any starting cache with room for the prompt. */
  lemma {:induction false} PrefillIsTokenByToken(c: Decoder, cache: Cache, toks: seq<int>)
    requires Fits(c, cache, |toks|)
    ensures Prefill(c, cache, toks) == TokenByToken(c, cache, toks, |toks|)
  {
    PrefillCausal(c, cache, toks);
    TokenByTokenCausal(c, cache, toks, |toks|);
    var a, b := Prefill(c, cache, toks), TokenByToken(c, cache, toks, |toks|);
    assert a.0 == b.0;
    assert a.1 == b.1;
  }

  lemma {:induction false} HiddenIgnoresFuture(c: Decoder, toks: seq<int>, more: seq<int>, l: nat, s: nat)
    requires l <= c.nLayers && s < |toks|
    ensures HiddenAt(c, toks + more, l, s) == HiddenAt(c, toks, l, s)
    decreases l
  {
    if l > 0 {
      var k := l - 1;
      forall t: nat | t <= s ensures HiddenAt(c, toks + more, k, t) == HiddenAt(c, toks, k, t) {
        HiddenIgnoresFuture(c, toks, more, k, t);
      }
      assert KvRows(c, toks + more, l - 1, s + 1) == KvRows(c, toks, l - 1, s + 1);
    }
  }

  lemma KvRowsIgnoreFuture(c: Decoder, toks: seq<int>, more: seq<int>, l: nat, n: nat)
    requires l < c.nLayers && n <= |toks|
    ensures KvRows(c, toks + more, l, n) == KvRows(c, toks, l, n)
  {
    forall t | 0 <= t < n ensures HiddenAt(c, toks + more, l, t) == HiddenAt(c, toks, l, t) {
      HiddenIgnoresFuture(c, toks, more, l, t);
    }
  }

  /** Row s of a prefill reads nothing after position s and nothing that was in the cache before: the same
      prompt with anything appended, run on any other cache, gives the same row. */
  lemma {:induction false} PrefillRowIsCausal(c: Decoder, cache: Cache, cache': Cache, toks: seq<int>, more: seq<int>,
                                              s: nat)
    requires Fits(c, cache, |toks|) && Fits(c, cache', |toks + more|) && s < |toks|
    ensures Prefill(c, cache', toks + more).0[s] == Prefill(c, cache, toks).0[s]
  {
    PrefillCausal(c, cache, toks);
    PrefillCausal(c, cache', toks + more);
    HiddenIgnoresFuture(c, toks, more, c.nLayers, s);
  }
}
