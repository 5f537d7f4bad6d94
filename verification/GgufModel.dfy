/** Loading a model from GGUF. */
module GgufModel {
  // Which metadata key and which tensor name feeds which field of the model, and what an exported model is once it is
  // loaded again.

  import opened Prelude
  import opened Bytes
  import opened Encoding
  import opened Layout
  import opened Tensors
  import opened GgufValues
  import opened GgufFormat
  import opened GgufIo

  // ----- the loader -----

  /** A default-constructed tensor: what a field holds when its tensor is missing or does not fit the file. */
  const NO_TENSOR := Tensor([], F32, [])

  function TensorOrNone(f: GgufFile, name: Bytes): Tensor {
    var t := LoadTensor(f, name);
    if t.Some? then t.value else NO_TENSOR
  }

  function LayerOf(f: GgufFile, i: nat): Layer {
    Layer(TensorOrNone(f, BlkName(i, Ascii("attn_norm.weight"))),
          TensorOrNone(f, BlkName(i, Ascii("attn_q.weight"))),
          TensorOrNone(f, BlkName(i, Ascii("attn_k.weight"))),
          TensorOrNone(f, BlkName(i, Ascii("attn_v.weight"))),
          TensorOrNone(f, BlkName(i, Ascii("attn_output.weight"))),
          TensorOrNone(f, BlkName(i, Ascii("attn_sub_norm.weight"))),
          TensorOrNone(f, BlkName(i, Ascii("ffn_norm.weight"))),
          TensorOrNone(f, BlkName(i, Ascii("ffn_gate.weight"))),
          TensorOrNone(f, BlkName(i, Ascii("ffn_up.weight"))),
          TensorOrNone(f, BlkName(i, Ascii("ffn_down.weight"))),
          TensorOrNone(f, BlkName(i, Ascii("ffn_sub_norm.weight"))))
  }

  function LayersOf(f: GgufFile, n: nat): (r: seq<Layer>)
    ensures |r| == n
  {
    seq(n, i requires 0 <= i < n => LayerOf(f, i))
  }

  /** A 32-bit pattern stored in an int. */
  function ToInt(v: int): int {
    var u := v % 0x1_0000_0000;
    if u >= 0x8000_0000 then u - 0x1_0000_0000 else u
  }

  /** Division of ints truncates. */
  function Quotient(a: int, b: int): int
    requires b != 0
  {
    if a >= 0 then a / b else -(-a / b)
  }

  const KEYS: seq<Bytes> :=
    [ Ascii("llama.block_count"), Ascii("llama.context_length"), Ascii("llama.embedding_length"),
      Ascii("llama.feed_forward_length"), Ascii("llama.head_count"), Ascii("llama.head_count_kv"),
      Ascii("llama.rope.freq_base"), Ascii("llama.attention.layer_norm_rms_eps") ]

  /** No value is cut short. */
  predicate Readable(m: Metadata) {
    forall i :: 0 <= i < |KEYS| && KEYS[i] in m ==> |m[KEYS[i]].raw| >= 4
  }

  /** A missing key leaves the default, a value of another type reads as 0. */
  function IntOf(m: Metadata, key: Bytes, d: int): int {
    if key !in m then d
    else if m[key].ty != 4 || |m[key].raw| < 4 then 0
    else ToInt(FromLE(m[key].raw[..4]))
  }

  function FloatOf(m: Metadata, key: Bytes, d: Float32): Float32 {
    if key !in m then d
    else if m[key].ty != 6 || |m[key].raw| < 4 then [0, 0, 0, 0]
    else m[key].raw[..4]
  }

  /** None: a value is cut short, the layer count is negative, or the head size cannot be computed. */
  function ConfigOf(m: Metadata, d: Config): Option<Config> {
    var layers := IntOf(m, Ascii("llama.block_count"), d.numLayers);
    var hidden := IntOf(m, Ascii("llama.embedding_length"), d.hiddenSize);
    var heads := IntOf(m, Ascii("llama.head_count"), d.numHeads);
    if !Readable(m) || layers < 0 || heads == 0 || (hidden == -0x8000_0000 && heads == -1) then None
    else
      Some(Config(layers, IntOf(m, Ascii("llama.context_length"), d.maxSeqLen), hidden,
                  IntOf(m, Ascii("llama.feed_forward_length"), d.intermediateSize), heads,
                  IntOf(m, Ascii("llama.head_count_kv"), d.numKvHeads), Quotient(hidden, heads), d.vocabSize,
                  FloatOf(m, Ascii("llama.attention.layer_norm_rms_eps"), d.rmsNormEps),
                  FloatOf(m, Ascii("llama.rope.freq_base"), d.ropeTheta)))
  }

  /** The vocabulary size follows the embedding matrix. */
  function WithVocab(c: Config, t: Tensor): Config {
    if |t.shape| >= 2 then c.(vocabSize := ToInt(t.shape[1])) else c
  }

  /** `d` holds the defaults of a new model. */
  function ModelOf(f: GgufFile, d: Config): Option<ModelF16> {
    var c := ConfigOf(f.metadata, d);
    if c.None? then None
    else
      var embd := TensorOrNone(f, Ascii("token_embd.weight"));
      Some(ModelF16(WithVocab(c.value, embd), embd, TensorOrNone(f, Ascii("output_norm.weight")),
                    LayersOf(f, c.value.numLayers)))
  }

  method Fetch(f: GgufFile, name: Bytes) returns (t: Tensor)
    ensures t == TensorOrNone(f, name)
  {
    var r := LoadTensorFromGguf(f, name);
    return if r.Some? then r.value else NO_TENSOR;
  }

  /** The optional sub-norms are fetched only if the file has them. */
  method FetchOptional(f: GgufFile, name: Bytes) returns (t: Tensor)
    ensures t == TensorOrNone(f, name)
  {
    t := NO_TENSOR;
    var info := FindTensor(f, name);
    if info.Some? { t := Fetch(f, name); }
  }

  method FetchLayer(f: GgufFile, i: nat) returns (l: Layer)
    ensures l == LayerOf(f, i)
  {
    hide TensorOrNone, BlkName, Ascii;
    var attnNorm := Fetch(f, BlkName(i, Ascii("attn_norm.weight")));
    var wq := Fetch(f, BlkName(i, Ascii("attn_q.weight")));
    var wk := Fetch(f, BlkName(i, Ascii("attn_k.weight")));
    var wv := Fetch(f, BlkName(i, Ascii("attn_v.weight")));
    var wo := Fetch(f, BlkName(i, Ascii("attn_output.weight")));
    var ffnNorm := Fetch(f, BlkName(i, Ascii("ffn_norm.weight")));
    var wGate := Fetch(f, BlkName(i, Ascii("ffn_gate.weight")));
    var wUp := Fetch(f, BlkName(i, Ascii("ffn_up.weight")));
    var wDown := Fetch(f, BlkName(i, Ascii("ffn_down.weight")));
    var attnSubNorm := FetchOptional(f, BlkName(i, Ascii("attn_sub_norm.weight")));
    var ffnSubNorm := FetchOptional(f, BlkName(i, Ascii("ffn_sub_norm.weight")));
    return Layer(attnNorm, wq, wk, wv, wo, attnSubNorm, ffnNorm, wGate, wUp, wDown, ffnSubNorm);
  }

  method LoadModel(f: GgufFile, d: Config) returns (m: Option<ModelF16>)
    ensures m == ModelOf(f, d)
  {
    hide LayerOf, ConfigOf, Ascii, TensorOrNone;
    var c := ConfigOf(f.metadata, d);
    if c.None? { return None; }
    var embd := Fetch(f, Ascii("token_embd.weight"));
    var norm := Fetch(f, Ascii("output_norm.weight"));
    var layers: seq<Layer> := [];
    for i := 0 to c.value.numLayers
      invariant layers == LayersOf(f, c.value.numLayers)[..i]
    {
      var l := FetchLayer(f, i);
      layers := layers + [l];
    }
    assert layers == LayersOf(f, c.value.numLayers);
    return Some(ModelF16(WithVocab(c.value, embd), embd, norm, layers));
  }

  // ----- the exported tensors under their names -----

  lemma {:induction false} LabelAllAt(l: nat, layers: seq<seq<Named>>, i: nat, j: nat) returns (k: nat)
    requires i < |layers| && j < |layers[i]|
    ensures k < |LabelAll(l, layers)|
    ensures LabelAll(l, layers)[k] == Named(BlkName(l + i, layers[i][j].name), layers[i][j].t)
    decreases layers
  {
    hide BlkName;
    var head := Label(l, layers[0]);
    if i == 0 {
      k := j;
    } else {
      k := LabelAllAt(l + 1, layers[1..], i - 1, j);
      assert LabelAll(l, layers)[|head| + k] == LabelAll(l + 1, layers[1..])[k];
      k := |head| + k;
    }
  }

  /** Where item j of layer i stands in the plan. */
  lemma PlanAt(m: ModelF16, i: nat, j: nat) returns (k: nat)
    requires i < |m.layers| && j < |LayerItems(m.layers[i])|
    ensures k < |PlanItems(m)|
    ensures PlanItems(m)[k] == Named(BlkName(i, LayerItems(m.layers[i])[j].name), LayerItems(m.layers[i])[j].t)
  {
    hide LayerItems, BlkName;
    k := LabelAllAt(0, AllLayerItems(m.layers), i, j);
    k := |Globals(m)| + k;
  }

  ghost predicate AllF16(items: seq<Named>) {
    forall i :: 0 <= i < |items| ==> items[i].t.dtype == F16
  }

  /** Item j of layer i comes back under its name. */
  lemma ItemLoads(m: ModelF16, kvs: seq<KeyValue>, i: nat, j: nat, name: Bytes, t: Tensor)
    requires AllWritable(kvs) && AllF16(PlanItems(m)) && SizesOk(PlanItems(m))
    requires i < |m.layers| && j < |LayerItems(m.layers[i])| && LayerItems(m.layers[i])[j] == Named(name, t)
    ensures LoadTensor(ParsedFile(kvs, PlanItems(m)), BlkName(i, name)) == Some(t)
  {
    var k := PlanAt(m, i, j);
    hide PlanItems, LayerItems, ParsedFile, LoadTensor;
    ExportedTensorLoads(m, kvs, k);
  }

  lemma {:induction false} NoSuchLabel(l: nat, layers: seq<seq<Named>>, i: nat, s: Bytes, k: nat)
    requires k < |LabelAll(l, layers)|
    requires forall a, b :: 0 <= a < |layers| && 0 <= b < |layers[a]| ==> layers[a][b].name != s
    ensures LabelAll(l, layers)[k].name != BlkName(i, s)
    decreases layers
  {
    hide BlkName;
    var head := Label(l, layers[0]);
    if k < |head| {
      assert LabelAll(l, layers)[k] == head[k] && layers[0][k].name != s;
      if head[k].name == BlkName(i, s) { BlkNameInjective(l, layers[0][k].name, i, s); }
    } else {
      assert LabelAll(l, layers)[k] == LabelAll(l + 1, layers[1..])[k - |head|];
      forall a, b | 0 <= a < |layers[1..]| && 0 <= b < |layers[1..][a]| ensures layers[1..][a][b].name != s {
        assert layers[1..][a] == layers[a + 1];
      }
      NoSuchLabel(l + 1, layers[1..], i, s, k - |head|);
    }
  }

  lemma {:induction false} FindNothing(tensors: seq<TensorInfo>, name: Bytes)
    requires forall j :: 0 <= j < |tensors| ==> tensors[j].name != name
    ensures FindInfo(tensors, name) == None
  {
    if |tensors| > 0 { FindNothing(tensors[1..], name); }
  }

  /** No exported tensor of a layer has one of these two suffixes. */
  lemma NotInLayer(l: Layer, s: Bytes)
    requires s == Ascii("attn_sub_norm.weight") || s == Ascii("ffn_sub_norm.weight")
    ensures forall b :: 0 <= b < |LayerItems(l)| ==> LayerItems(l)[b].name != s
  {
    assert |s| == 20 || |s| == 19;
    assert forall b :: 0 <= b < |AttentionItems(l)| ==> |AttentionItems(l)[b].name| in {13, 16, 18};
    assert forall b :: 0 <= b < |FfnItems(l)| ==> |FfnItems(l)[b].name| in {13, 15};
  }

  /** The sub-norms are not in the file. */
  lemma SubNormAbsent(m: ModelF16, kvs: seq<KeyValue>, i: nat, s: Bytes)
    requires AllWritable(kvs) && (s == Ascii("attn_sub_norm.weight") || s == Ascii("ffn_sub_norm.weight"))
    ensures LoadTensor(ParsedFile(kvs, PlanItems(m)), BlkName(i, s)) == None
  {
    var items, name := PlanItems(m), BlkName(i, s);
    forall k | 0 <= k < |items| ensures items[k].name != name {
      PlanLacks(m, i, s, k);
    }
    hide PlanItems, Fold, EncFront;
    var infos := Infos(items, PlanOffsets(items));
    forall k | 0 <= k < |infos| ensures infos[k].name != name { InfosAt(items, PlanOffsets(items), k); }
    FindNothing(infos, name);
  }

  lemma PlanLacks(m: ModelF16, i: nat, s: Bytes, k: nat)
    requires k < |PlanItems(m)| && (s == Ascii("attn_sub_norm.weight") || s == Ascii("ffn_sub_norm.weight"))
    ensures PlanItems(m)[k].name != BlkName(i, s)
  {
    var ls: seq<seq<Named>> := AllLayerItems(m.layers);
    assert Globals(m)[0].name[0] == 116 && Globals(m)[1].name[0] == 111 && BlkName(i, s)[0] == 98;
    if k >= 2 {
      forall a: nat, b: nat | a < |ls| && b < |ls[a]| ensures ls[a][b].name != s { NotInLayer(m.layers[a], s); }
      hide LayerItems, BlkName, Ascii;
      NoSuchLabel(0, ls, i, s, k - 2);
    }
  }

  /** The exported file read by the names the loader asks for: every field of every layer comes back, the sub-norms are
      gone. */
  lemma {:induction false} ExportedLayerLoads(m: ModelF16, kvs: seq<KeyValue>, i: nat)
    requires AllWritable(kvs) && AllF16(PlanItems(m)) && SizesOk(PlanItems(m)) && i < |m.layers|
    ensures var f, l := ParsedFile(kvs, PlanItems(m)), m.layers[i];
      && LoadTensor(f, BlkName(i, Ascii("attn_norm.weight"))) == Some(l.attnNorm)
      && LoadTensor(f, BlkName(i, Ascii("attn_q.weight"))) == Some(l.wq)
      && LoadTensor(f, BlkName(i, Ascii("attn_k.weight"))) == Some(l.wk)
      && LoadTensor(f, BlkName(i, Ascii("attn_v.weight"))) == Some(l.wv)
      && LoadTensor(f, BlkName(i, Ascii("attn_output.weight"))) == Some(l.wo)
      && LoadTensor(f, BlkName(i, Ascii("ffn_norm.weight"))) == Some(l.ffnNorm)
      && LoadTensor(f, BlkName(i, Ascii("ffn_gate.weight"))) == Some(l.wGate)
      && LoadTensor(f, BlkName(i, Ascii("ffn_up.weight"))) == Some(l.wUp)
      && LoadTensor(f, BlkName(i, Ascii("ffn_down.weight"))) == Some(l.wDown)
      && LoadTensor(f, BlkName(i, Ascii("attn_sub_norm.weight"))) == None
      && LoadTensor(f, BlkName(i, Ascii("ffn_sub_norm.weight"))) == None
  {
    hide PlanItems, ParsedFile, LoadTensor, BlkName, Ascii, AllF16;
    var l := m.layers[i];
    ItemLoads(m, kvs, i, 0, Ascii("attn_norm.weight"), l.attnNorm);
    ItemLoads(m, kvs, i, 1, Ascii("attn_q.weight"), l.wq);
    ItemLoads(m, kvs, i, 2, Ascii("attn_k.weight"), l.wk);
    ItemLoads(m, kvs, i, 3, Ascii("attn_v.weight"), l.wv);
    ItemLoads(m, kvs, i, 4, Ascii("attn_output.weight"), l.wo);
    ItemLoads(m, kvs, i, 5, Ascii("ffn_norm.weight"), l.ffnNorm);
    ItemLoads(m, kvs, i, 6, Ascii("ffn_gate.weight"), l.wGate);
    ItemLoads(m, kvs, i, 7, Ascii("ffn_up.weight"), l.wUp);
    ItemLoads(m, kvs, i, 8, Ascii("ffn_down.weight"), l.wDown);
    SubNormAbsent(m, kvs, i, Ascii("attn_sub_norm.weight"));
    SubNormAbsent(m, kvs, i, Ascii("ffn_sub_norm.weight"));
  }

  lemma {:induction false} ExportedGlobalsLoad(m: ModelF16, kvs: seq<KeyValue>)
    requires AllWritable(kvs) && AllF16(PlanItems(m)) && SizesOk(PlanItems(m))
    ensures LoadTensor(ParsedFile(kvs, PlanItems(m)), Ascii("token_embd.weight")) == Some(m.tokEmbd)
    ensures LoadTensor(ParsedFile(kvs, PlanItems(m)), Ascii("output_norm.weight")) == Some(m.outputNorm)
  {
    hide ParsedFile, LoadTensor, Ascii, LabelAll;
    assert PlanItems(m)[0] == Globals(m)[0] && PlanItems(m)[1] == Globals(m)[1];
    ExportedTensorLoads(m, kvs, 0);
    ExportedTensorLoads(m, kvs, 1);
  }

  /** A layer's name is spelled "blk.", number, ".", suffix. */
  lemma NamesSpelled(i: nat, s: Bytes)
    ensures BlkName(i, s) == Ascii("blk.") + Decimal(i) + Ascii(".") + s
  {
    assert BLK == Ascii("blk.") && [DOT] == Ascii(".");
  }

  // ----- the exported configuration -----

  lemma {:induction false} FoldKeeps(acc: Metadata, kvs: seq<KeyValue>, key: Bytes)
    requires forall j :: 0 <= j < |kvs| ==> kvs[j].0 != key
    ensures key in Fold(acc, kvs) <==> key in acc
    ensures key in acc ==> Fold(acc, kvs)[key] == acc[key]
    decreases kvs
  {
    if |kvs| > 0 { FoldKeeps(acc[kvs[0].0 := kvs[0].1], kvs[1..], key); }
  }

  lemma {:induction false} FoldHas(acc: Metadata, kvs: seq<KeyValue>, i: nat)
    requires i < |kvs| && forall j :: i < j < |kvs| ==> kvs[j].0 != kvs[i].0
    ensures kvs[i].0 in Fold(acc, kvs) && Fold(acc, kvs)[kvs[i].0] == kvs[i].1
    decreases kvs
  {
    if i == 0 {
      FoldKeeps(acc[kvs[0].0 := kvs[0].1], kvs[1..], kvs[0].0);
    } else {
      FoldHas(acc[kvs[0].0 := kvs[0].1], kvs[1..], i - 1);
    }
  }

  /** Where a key of the fixed pairs is among the exported metadata. */
  lemma ExportedPair(c: Config, base: Metadata, i: nat)
    requires i < |FixedPairs(c)| && |FixedPairs(c)[i].0| > 0 && FixedPairs(c)[i].0[0] == 108
    requires forall j :: i < j < |FixedPairs(c)| ==> FixedPairs(c)[j].0 != FixedPairs(c)[i].0
    ensures FixedPairs(c)[i].0 in ExpectedMetadata(c, base)
    ensures ExpectedMetadata(c, base)[FixedPairs(c)[i].0] == FixedPairs(c)[i].1
  {
    hide FixedPairs, Fold, FixedMetadata;
    FoldFixed(c);
    FoldHas(map[], FixedPairs(c), i);
    TokenizerKeysStartWithT();
  }

  lemma NotExported(c: Config, base: Metadata, key: Bytes)
    requires |key| > 0 && key[0] == 108 && forall j :: 0 <= j < |FixedPairs(c)| ==> FixedPairs(c)[j].0 != key
    ensures key !in ExpectedMetadata(c, base)
  {
    hide FixedPairs, Fold, FixedMetadata;
    FoldFixed(c);
    FoldKeeps(map[], FixedPairs(c), key);
    TokenizerKeysStartWithT();
  }

  /** The keys of the export after block_count, told apart by length or by a letter. */
  lemma KeysApart(c: Config)
    ensures |FixedPairs(c)| == 14
    ensures forall i, j :: 4 <= i < j < 14 ==> FixedPairs(c)[j].0 != FixedPairs(c)[i].0
  {
    hide U32Value, F32Value, StringValue;
    var p := FixedPairs(c);
    assert |p[4].0| == 17 && |p[5].0| == 20 && |p[6].0| == 22 && |p[7].0| == 25 && |p[8].0| == 26;
    assert |p[9].0| == 29 && |p[10].0| == 38 && |p[11].0| == 20 && |p[12].0| == 26 && |p[13].0| == 16;
    assert p[5].0[6] == 99 && p[11].0[6] == 114 && p[8].0[6] == 97 && p[12].0[6] == 114;
    hide FixedPairs;
  }

  /** The head counts and eps are written under other keys than the ones read back. */
  lemma KeysMissing(c: Config, base: Metadata)
    ensures Ascii("llama.head_count") !in ExpectedMetadata(c, base)
    ensures Ascii("llama.head_count_kv") !in ExpectedMetadata(c, base)
    ensures Ascii("llama.attention.layer_norm_rms_eps") !in ExpectedMetadata(c, base)
  {
    var heads, kv, eps :=
      Ascii("llama.head_count"), Ascii("llama.head_count_kv"), Ascii("llama.attention.layer_norm_rms_eps");
    assert |heads| == 16 && |kv| == 19 && |eps| == 34 && heads[0] == kv[0] == eps[0] == 108 && heads[6] == 104;
    KeyLengths(c);
    hide FixedPairs, ExpectedMetadata, Ascii;
    NotExported(c, base, heads);
    NotExported(c, base, kv);
    NotExported(c, base, eps);
  }

  lemma KeyLengths(c: Config)
    ensures |FixedPairs(c)| == 14
    ensures forall j :: 0 <= j < 14 ==> |FixedPairs(c)[j].0| !in {19, 34}
    ensures forall j :: 0 <= j < 13 ==> |FixedPairs(c)[j].0| != 16
    ensures |FixedPairs(c)[13].0| == 16 && FixedPairs(c)[13].0[6] == 118
  {
    hide U32Value, F32Value, StringValue;
  }

  predicate IsInt(v: int) { -0x8000_0000 <= v < 0x8000_0000 }

  /** The numbers of a configuration are ints. */
  predicate Ints(c: Config) {
    IsInt(c.numLayers) && IsInt(c.maxSeqLen) && IsInt(c.hiddenSize) && IsInt(c.intermediateSize)
  }

  lemma StoredInt(m: Metadata, key: Bytes, v: int, d: int)
    requires key in m && m[key] == U32Value(v) && IsInt(v)
    ensures IntOf(m, key, d) == v && |m[key].raw| == 4
  {
    hide LE, FromLE, Pow256;
    var u := v % 0x1_0000_0000;
    WidthOf4();
    IntegerRoundTrip(u, 4);
    assert LE(u, 4)[..4] == LE(u, 4);
  }

  lemma StoredFloat(m: Metadata, key: Bytes, v: Float32, d: Float32)
    requires key in m && m[key] == F32Value(v)
    ensures FloatOf(m, key, d) == v && |m[key].raw| == 4
  {
  }

  /** Six settings are read back from the export; the head counts, the head size and eps are those of a new model. */
  function Reread(c: Config, d: Config): Config
    requires d.numHeads != 0
  {
    c.(numHeads := d.numHeads, numKvHeads := d.numKvHeads, headDim := Quotient(c.hiddenSize, d.numHeads),
       vocabSize := d.vocabSize, rmsNormEps := d.rmsNormEps)
  }

  lemma {:induction false} ExportedConfig(c: Config, base: Metadata, d: Config)
    requires Ints(c) && d.numHeads > 0
    ensures ConfigOf(ExpectedMetadata(c, base), d) == Some(Reread(c, d))
  {
    hide ExpectedMetadata, IntOf, FloatOf, Quotient;
    var m := ExpectedMetadata(c, base);
    KeysMissing(c, base);
    KeysApart(c);
    ExportedPair(c, base, 4);
    ExportedPair(c, base, 5);
    ExportedPair(c, base, 6);
    ExportedPair(c, base, 7);
    ExportedPair(c, base, 11);
    StoredInt(m, Ascii("llama.block_count"), c.numLayers, d.numLayers);
    StoredInt(m, Ascii("llama.context_length"), c.maxSeqLen, d.maxSeqLen);
    StoredInt(m, Ascii("llama.embedding_length"), c.hiddenSize, d.hiddenSize);
    StoredInt(m, Ascii("llama.feed_forward_length"), c.intermediateSize, d.intermediateSize);
    StoredFloat(m, Ascii("llama.rope.freq_base"), c.ropeTheta, d.ropeTheta);
    Missing(m, Ascii("llama.head_count"), d.numHeads);
    Missing(m, Ascii("llama.head_count_kv"), d.numKvHeads);
    MissingFloat(m, Ascii("llama.attention.layer_norm_rms_eps"), d.rmsNormEps);
  }

  lemma Missing(m: Metadata, key: Bytes, d: int)
    requires key !in m
    ensures IntOf(m, key, d) == d
  {
  }

  lemma MissingFloat(m: Metadata, key: Bytes, d: Float32)
    requires key !in m
    ensures FloatOf(m, key, d) == d
  {
  }

  /** The exported model as it is loaded again: the tensors without the sub-norms, the settings that are read back, the
      vocabulary size of the embedding matrix. */
  function Reloaded(m: ModelF16, d: Config): ModelF16
    requires d.numHeads != 0
  {
    ModelF16(WithVocab(Reread(m.config, d), m.tokEmbd), m.tokEmbd, m.outputNorm, WithoutSubNorms(m.layers))
  }

  function WithoutSubNorms(layers: seq<Layer>): (r: seq<Layer>)
    ensures |r| == |layers|
  {
    seq(|layers|, i requires 0 <= i < |layers| =>
      layers[i].(attnSubNorm := NO_TENSOR, ffnSubNorm := NO_TENSOR))
  }

  lemma LayersLoad(m: ModelF16, kvs: seq<KeyValue>)
    requires AllWritable(kvs) && AllF16(PlanItems(m)) && SizesOk(PlanItems(m))
    ensures LayersOf(ParsedFile(kvs, PlanItems(m)), |m.layers|) == WithoutSubNorms(m.layers)
  {
    hide PlanItems, ParsedFile, LoadTensor, BlkName, Ascii, AllF16;
    forall i | 0 <= i < |m.layers|
      ensures LayerOf(ParsedFile(kvs, PlanItems(m)), i) == WithoutSubNorms(m.layers)[i]
    {
      ExportedLayerLoads(m, kvs, i);
    }
  }

  /** Export an F16 model, parse the file, load it. */
  lemma {:induction false} ExportReloads(m: ModelF16, base: Metadata, d: Config)
    requires GoodBase(base) && AllWritable(ExportPairs(m, base))
    requires Storable(PlanItems(m)) && FewDims(PlanItems(m)) && SizesOk(PlanItems(m)) && AllF16(PlanItems(m))
    requires FitsU64(EncFile(ExportPairs(m, base), PlanItems(m)))
    requires m.config.numLayers == |m.layers| && Ints(m.config) && d.numHeads > 0
    ensures var p := Parse(EncFile(ExportPairs(m, base), PlanItems(m)));
      p.Loaded? && ModelOf(p.file, d) == Some(Reloaded(m, d))
  {
    hide PlanItems, EncFile, EncFront, ExportPairs, ExpectedMetadata, Parse, ConfigOf, LoadTensor, LayersOf, Fold,
      AllF16, Ascii, Infos, Packed;
    var kvs := ExportPairs(m, base);
    ExportParses(m, base);
    ExportMetadata(m, base);
    ExportedConfig(m.config, base, d);
    ExportedGlobalsLoad(m, kvs);
    LayersLoad(m, kvs);
  }

  /** The model comes back whole exactly when it has no sub-norms and its settings that are written under unread keys
      are those of a new model. */
  lemma {:induction false} ReloadedIff(m: ModelF16, d: Config)
    requires d.numHeads != 0
    ensures Reloaded(m, d) == m <==>
      && (forall i :: 0 <= i < |m.layers| ==> m.layers[i].attnSubNorm == m.layers[i].ffnSubNorm == NO_TENSOR)
      && m.config.numHeads == d.numHeads && m.config.numKvHeads == d.numKvHeads
      && m.config.headDim == Quotient(m.config.hiddenSize, d.numHeads) && m.config.rmsNormEps == d.rmsNormEps
      && m.config.vocabSize == (if |m.tokEmbd.shape| >= 2 then ToInt(m.tokEmbd.shape[1]) else d.vocabSize)
  {
    hide Quotient, ToInt;
    LayersWhole(m.layers);
  }

  lemma LayersWhole(layers: seq<Layer>)
    ensures WithoutSubNorms(layers) == layers <==>
      forall i :: 0 <= i < |layers| ==> layers[i].attnSubNorm == layers[i].ffnSubNorm == NO_TENSOR
  {
    if WithoutSubNorms(layers) == layers {
      forall i | 0 <= i < |layers| ensures layers[i].attnSubNorm == layers[i].ffnSubNorm == NO_TENSOR {
        assert WithoutSubNorms(layers)[i] == layers[i];
      }
    }
  }

  /** The two programs in a row. */
  method ExportThenLoadModel(m: ModelF16, base: Metadata, d: Config) returns (r: Option<ModelF16>)
    requires m.config.numLayers == |m.layers| > 0 && Ints(m.config) && d.numHeads > 0
    requires GoodBase(base) && AllWritable(ExportPairs(m, base))
    requires Storable(PlanItems(m)) && FewDims(PlanItems(m)) && SizesOk(PlanItems(m)) && AllF16(PlanItems(m))
    requires FitsU64(EncFile(ExportPairs(m, base), PlanItems(m)))
    ensures r == Some(Reloaded(m, d))
  {
    WqIsF16(m);
    hide EncFile, PlanItems, ExportPairs, Parse, ModelOf, AllF16;
    ExportReloads(m, base, d);
    var file := GgufWriteF16(m, base);
    var p := GgufLoad(file.file);
    r := LoadModel(p.file, d);
  }

  lemma WqIsF16(m: ModelF16)
    requires |m.layers| > 0 && AllF16(PlanItems(m))
    ensures m.layers[0].wq.dtype == F16
  {
    var k := PlanAt(m, 0, 1);
    hide PlanItems;
  }

  /** A file starts with the letters GGUF. */
  lemma MagicSpelled()
    ensures LE(MAGIC, 4) == Ascii("GGUF")
  {
    assert LE(MAGIC, 4) == [71, 71, 85, 70];
  }
}
