/** The fields of a model in the merged-weight cache. */
module TvCacheFields {
  // The flat list of tensors that is saved and loaded, as the fields of a model and the names they are stored under.

  import Arith
  import opened Bytes
  import opened Encoding
  import opened Tensors
  import opened TvCache

  datatype Fields = Fields(tokEmbd: Tensor, outputNorm: Tensor, layers: seq<Layer>)

  /** The tensors of a layer in saving order. */
  function LayerTensors(l: Layer): (r: seq<Tensor>)
    ensures |r| == SLOTS
  {
    [l.attnNorm, l.wq, l.wk, l.wv, l.wo, l.attnSubNorm, l.ffnNorm, l.wGate, l.wUp, l.wDown, l.ffnSubNorm]
  }

  /** Both collect functions. */
  function Flat(m: Fields): (r: seq<Tensor>)
    ensures |r| == 2 + SLOTS * |m.layers|
  {
    seq(2 + SLOTS * |m.layers|, k requires 0 <= k < 2 + SLOTS * |m.layers| =>
      if k == 0 then m.tokEmbd
      else if k == 1 then m.outputNorm
      else LayerTensors(m.layers[(k - 2) / SLOTS])[(k - 2) % SLOTS])
  }

  /** Slot j of layer i. */
  function Place(i: nat, j: nat): nat { 2 + SLOTS * i + j }

  lemma {:induction false} PlaceHolds(m: Fields, i: nat, j: nat)
    requires i < |m.layers| && j < SLOTS
    ensures Place(i, j) < |Flat(m)| && Flat(m)[Place(i, j)] == LayerTensors(m.layers[i])[j]
    ensures Name(Place(i, j)) == BlkName(i, SUFFIXES[j])
  {
    Arith.DivIs(SLOTS * i + j, SLOTS, i, j);
    hide LayerTensors, BlkName, SUFFIXES;
    assert (Place(i, j) - 2) / SLOTS == i && (Place(i, j) - 2) % SLOTS == j;
  }

  /** Tensor t is saved under this name. */
  ghost predicate Under(m: Fields, name: Bytes, t: Tensor) {
    exists k: nat :: k < |Flat(m)| && Stands(m, k, name, t)
  }

  ghost predicate Stands(m: Fields, k: nat, name: Bytes, t: Tensor)
    requires k < |Flat(m)|
  {
    Name(k) == name && Flat(m)[k] == t
  }

  lemma SlotUnder(m: Fields, i: nat, j: nat, suffix: Bytes, t: Tensor)
    requires i < |m.layers| && j < SLOTS && SUFFIXES[j] == suffix && LayerTensors(m.layers[i])[j] == t
    ensures Under(m, BlkName(i, suffix), t)
  {
    hide BlkName, Flat, Name;
    PlaceHolds(m, i, j);
    assert Stands(m, Place(i, j), BlkName(i, suffix), t);
  }

  lemma GlobalNames(m: Fields)
    ensures Under(m, Ascii("tok_embd"), m.tokEmbd) && Under(m, Ascii("output_norm"), m.outputNorm)
  {
    hide Ascii;
    assert Stands(m, 0, Ascii("tok_embd"), m.tokEmbd) && Stands(m, 1, Ascii("output_norm"), m.outputNorm);
  }

  /** The name of every field of a layer. */
  lemma {:induction false} AttentionNames(m: Fields, i: nat)
    requires i < |m.layers|
    ensures Under(m, BlkName(i, Ascii("attn_norm")), m.layers[i].attnNorm)
    ensures Under(m, BlkName(i, Ascii("attn_q")), m.layers[i].wq)
    ensures Under(m, BlkName(i, Ascii("attn_k")), m.layers[i].wk)
    ensures Under(m, BlkName(i, Ascii("attn_v")), m.layers[i].wv)
    ensures Under(m, BlkName(i, Ascii("attn_output")), m.layers[i].wo)
    ensures Under(m, BlkName(i, Ascii("attn_sub_norm")), m.layers[i].attnSubNorm)
  {
    hide Under, BlkName, Ascii, Flat;
    var l := m.layers[i];
    SlotUnder(m, i, 0, Ascii("attn_norm"), l.attnNorm);
    SlotUnder(m, i, 1, Ascii("attn_q"), l.wq);
    SlotUnder(m, i, 2, Ascii("attn_k"), l.wk);
    SlotUnder(m, i, 3, Ascii("attn_v"), l.wv);
    SlotUnder(m, i, 4, Ascii("attn_output"), l.wo);
    SlotUnder(m, i, 5, Ascii("attn_sub_norm"), l.attnSubNorm);
  }

  lemma {:induction false} FfnNames(m: Fields, i: nat)
    requires i < |m.layers|
    ensures Under(m, BlkName(i, Ascii("ffn_norm")), m.layers[i].ffnNorm)
    ensures Under(m, BlkName(i, Ascii("ffn_gate")), m.layers[i].wGate)
    ensures Under(m, BlkName(i, Ascii("ffn_up")), m.layers[i].wUp)
    ensures Under(m, BlkName(i, Ascii("ffn_down")), m.layers[i].wDown)
    ensures Under(m, BlkName(i, Ascii("ffn_sub_norm")), m.layers[i].ffnSubNorm)
  {
    hide Under, BlkName, Ascii, Flat;
    var l := m.layers[i];
    SlotUnder(m, i, 6, Ascii("ffn_norm"), l.ffnNorm);
    SlotUnder(m, i, 7, Ascii("ffn_gate"), l.wGate);
    SlotUnder(m, i, 8, Ascii("ffn_up"), l.wUp);
    SlotUnder(m, i, 9, Ascii("ffn_down"), l.wDown);
    SlotUnder(m, i, 10, Ascii("ffn_sub_norm"), l.ffnSubNorm);
  }

  /** Names do not collide, so a name has one tensor. */
  lemma OneTensorPerName(m: Fields, name: Bytes, t: Tensor, u: Tensor)
    requires Under(m, name, t) && Under(m, name, u)
    ensures t == u
  {
    hide Name, Flat;
    var j: nat :| j < |Flat(m)| && Stands(m, j, name, t);
    var k: nat :| k < |Flat(m)| && Stands(m, k, name, u);
    if j < k { NameInjective(j, k); }
    if k < j { NameInjective(k, j); }
  }

  // ----- saving one model and loading into another -----

  function Pick(saved: Tensor, was: Tensor): Tensor { if Present(saved) then saved else was }

  function LayerAfter(a: Layer, b: Layer): Layer {
    Layer(Pick(a.attnNorm, b.attnNorm), Pick(a.wq, b.wq), Pick(a.wk, b.wk), Pick(a.wv, b.wv), Pick(a.wo, b.wo),
          Pick(a.attnSubNorm, b.attnSubNorm), Pick(a.ffnNorm, b.ffnNorm), Pick(a.wGate, b.wGate), Pick(a.wUp, b.wUp),
          Pick(a.wDown, b.wDown), Pick(a.ffnSubNorm, b.ffnSubNorm))
  }

  function After(a: Fields, b: Fields): (r: Fields)
    requires |a.layers| == |b.layers|
    ensures |r.layers| == |a.layers|
  {
    Fields(Pick(a.tokEmbd, b.tokEmbd), Pick(a.outputNorm, b.outputNorm),
           seq(|a.layers|, i requires 0 <= i < |a.layers| => LayerAfter(a.layers[i], b.layers[i])))
  }

  lemma SlotAfter(a: Layer, b: Layer, j: nat)
    requires j < SLOTS
    ensures LayerTensors(LayerAfter(a, b))[j] == Pick(LayerTensors(a)[j], LayerTensors(b)[j])
  {
    hide Pick;
  }

  lemma MergedFields(a: Fields, b: Fields)
    requires |a.layers| == |b.layers|
    ensures Merged(Flat(a), Flat(b)) == Flat(After(a, b))
  {
    hide LayerTensors, LayerAfter, Present;
    forall k | 0 <= k < 2 + SLOTS * |a.layers| ensures Merged(Flat(a), Flat(b))[k] == Flat(After(a, b))[k] {
      if k >= 2 { SlotAfter(a.layers[(k - 2) / SLOTS], b.layers[(k - 2) / SLOTS], (k - 2) % SLOTS); }
    }
  }

  /** Loading a saved model into another one with as many layers sets each field that was present to what was saved,
      leaves the others alone, and does so exactly when no present tensor has more than four dimensions. */
  lemma {:induction false} FieldsRestored(a: Fields, b: Fields, key: Key, alpha: Float32, rank: nat, lora: Lora)
    requires |a.layers| == |b.layers| && Savable(Flat(a)) && rank < 0x1_0000_0000
    requires FitsU64(SaveFile(Flat(a), key, alpha, rank))
    ensures var r := Load(SaveFile(Flat(a), key, alpha, rank), Flat(b), lora);
      r == Outcome(Complete, Flat(After(a, b)), Lora(alpha, Signed32(rank), rank > 0)) <==> FourDims(Flat(a))
  {
    hide Flat, After, Merged, SaveFile, Load, Savable, FourDims;
    SaveThenLoad(Flat(a), Flat(b), key, alpha, rank, lora);
    MergedFields(a, b);
  }
}
