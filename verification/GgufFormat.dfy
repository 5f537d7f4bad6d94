/** The exported file and its parser. */
module GgufFormat {
  // The GGUF v3 file an F16 model is exported to, the parser's reading of a file, and the proof that they agree.

  import opened Prelude
  import opened Bytes
  import opened Encoding
  import opened Layout
  import opened Tensors
  import opened GgufValues

  const MAGIC: nat := 0x46554747
  const VERSION: nat := 3
  const ALIGNMENT: nat := 32
  const MAX_DIMS: nat := 8

  datatype Config = Config(numLayers: nat, maxSeqLen: int, hiddenSize: int, intermediateSize: int, numHeads: int,
                           numKvHeads: int, headDim: int, vocabSize: int, rmsNormEps: Float32, ropeTheta: Float32)

  datatype ModelF16 = ModelF16(config: Config, tokEmbd: Tensor, outputNorm: Tensor, layers: seq<Layer>)

  type Metadata = map<Bytes, Value>
  type KeyValue = (Bytes, Value)

  // ----- what is exported -----

  function U32Value(v: int): Value { Value(4, LE(v % 0x1_0000_0000, 4), [], []) }

  function F32Value(v: Float32): Value { Value(6, v, [], []) }

  function StringValue(s: string): Value { Value(STRING, Ascii(s), Ascii(s), []) }

  function FixedPairs(c: Config): seq<KeyValue> {
    [ (Ascii("general.architecture"), StringValue("llama")),
      (Ascii("general.name"), StringValue("orchid")),
      (Ascii("general.file_type"), U32Value(1)),
      (Ascii("general.quantization_version"), U32Value(2)),
      (Ascii("llama.block_count"), U32Value(c.numLayers)),
      (Ascii("llama.context_length"), U32Value(c.maxSeqLen)),
      (Ascii("llama.embedding_length"), U32Value(c.hiddenSize)),
      (Ascii("llama.feed_forward_length"), U32Value(c.intermediateSize)),
      (Ascii("llama.attention.head_count"), U32Value(c.numHeads)),
      (Ascii("llama.attention.head_count_kv"), U32Value(c.numKvHeads)),
      (Ascii("llama.attention.layer_norm_rms_epsilon"), F32Value(c.rmsNormEps)),
      (Ascii("llama.rope.freq_base"), F32Value(c.ropeTheta)),
      (Ascii("llama.rope.dimension_count"), U32Value(c.headDim)),
      (Ascii("llama.vocab_size"), U32Value(c.vocabSize)) ]
  }

  const TOKENIZER_KEYS: seq<Bytes> :=
    [ Ascii("tokenizer.ggml.model"), Ascii("tokenizer.ggml.pre"), Ascii("tokenizer.ggml.tokens"),
      Ascii("tokenizer.ggml.token_type"), Ascii("tokenizer.ggml.scores"), Ascii("tokenizer.ggml.merges"),
      Ascii("tokenizer.ggml.bos_token_id"), Ascii("tokenizer.ggml.eos_token_id"),
      Ascii("tokenizer.ggml.padding_token_id"), Ascii("tokenizer.ggml.unknown_token_id"),
      Ascii("tokenizer.chat_template") ]

  /** The listed keys that the base model has, with its values. */
  function Passthrough(keys: seq<Bytes>, base: Metadata): seq<KeyValue> {
    if |keys| == 0 then []
    else (if keys[0] in base then [(keys[0], base[keys[0]])] else []) + Passthrough(keys[1..], base)
  }

  function AttentionItems(l: Layer): seq<Named> {
    [ Named(Ascii("attn_norm.weight"), l.attnNorm), Named(Ascii("attn_q.weight"), l.wq),
      Named(Ascii("attn_k.weight"), l.wk), Named(Ascii("attn_v.weight"), l.wv),
      Named(Ascii("attn_output.weight"), l.wo) ]
  }

  function FfnItems(l: Layer): seq<Named> {
    [ Named(Ascii("ffn_norm.weight"), l.ffnNorm), Named(Ascii("ffn_gate.weight"), l.wGate),
      Named(Ascii("ffn_up.weight"), l.wUp), Named(Ascii("ffn_down.weight"), l.wDown) ]
  }

  function LayerItems(l: Layer): seq<Named> {
    AttentionItems(l) + FfnItems(l)
  }

  function AllLayerItems(layers: seq<Layer>): (r: seq<seq<Named>>)
    ensures |r| == |layers|
  {
    seq(|layers|, i requires 0 <= i < |layers| => LayerItems(layers[i]))
  }

  function Globals(m: ModelF16): seq<Named> {
    [Named(Ascii("token_embd.weight"), m.tokEmbd), Named(Ascii("output_norm.weight"), m.outputNorm)]
  }

  /** The exported tensors in file order; the sub-norms are not among them. */
  function PlanItems(m: ModelF16): seq<Named> {
    Globals(m) + LabelAll(0, AllLayerItems(m.layers))
  }

  lemma LayerItemsDistinct(l: Layer)
    ensures Distinct(LayerItems(l))
  {
    AttentionDistinct(l);
    FfnDistinct(l);
    assert |AttentionItems(l)| == 5 && |FfnItems(l)| == 4;
    hide AttentionItems, FfnItems, Distinct;
    DistinctConcat(AttentionItems(l), FfnItems(l));
  }

  lemma AttentionDistinct(l: Layer)
    ensures Distinct(AttentionItems(l))
    ensures forall i :: 0 <= i < 5 ==> |AttentionItems(l)[i].name| > 0 && AttentionItems(l)[i].name[0] == 97
  {
    var s := AttentionItems(l);
    assert s[1].name[5] == 113 && s[2].name[5] == 107 && s[3].name[5] == 118;
    assert |s[0].name| == 16 && |s[1].name| == 13 && |s[2].name| == 13 && |s[3].name| == 13 && |s[4].name| == 18;
  }

  lemma FfnDistinct(l: Layer)
    ensures Distinct(FfnItems(l))
    ensures forall i :: 0 <= i < 4 ==> |FfnItems(l)[i].name| > 0 && FfnItems(l)[i].name[0] == 102
  {
    var s := FfnItems(l);
    assert s[0].name[4] == 110 && s[1].name[4] == 103 && s[2].name[4] == 117 && s[3].name[4] == 100;
  }

  lemma PlanNamesDistinct(m: ModelF16)
    ensures Distinct(PlanItems(m))
  {
    var a, b := Ascii("token_embd.weight"), Ascii("output_norm.weight");
    assert a[0] == 116 && b[0] == 111;
    forall k | 0 <= k < |m.layers| ensures Distinct(AllLayerItems(m.layers)[k]) { LayerItemsDistinct(m.layers[k]); }
    ModelNamesDistinct(Globals(m), AllLayerItems(m.layers));
  }

  // ----- the file -----

  function EncPairs(kvs: seq<KeyValue>): Bytes
    requires AllWritable(kvs)
  {
    if |kvs| == 0 then [] else (EncString(kvs[0].0) + EncTyped(kvs[0].1)) + EncPairs(kvs[1..])
  }

  predicate AllWritable(kvs: seq<KeyValue>) {
    forall i :: 0 <= i < |kvs| ==> Writable(kvs[i].1)
  }

  predicate AllWellFormed(kvs: seq<KeyValue>) {
    forall i :: 0 <= i < |kvs| ==> WellFormed(kvs[i].1)
  }

  lemma AllWellFormedWritable(kvs: seq<KeyValue>)
    requires AllWellFormed(kvs)
    ensures AllWritable(kvs)
  {
    forall i | 0 <= i < |kvs| ensures Writable(kvs[i].1) { WellFormedWritable(kvs[i].1); }
  }

  function EncDims(dims: seq<nat>): (b: Bytes)
    ensures |b| == 8 * |dims|
  {
    if |dims| == 0 then [] else LE(dims[0], 8) + EncDims(dims[1..])
  }

  /** One row of the tensor table; every tensor is declared F16. */
  function EncEntry(n: Named, offset: nat): Bytes {
    EncString(n.name) + (LE(|n.t.shape|, 4) + (EncDims(n.t.shape) + (LE(F16, 4) + LE(offset, 8))))
  }

  function EncTable(items: seq<Named>, offsets: seq<nat>): Bytes
    requires |items| == |offsets|
  {
    if |items| == 0 then [] else EncEntry(items[0], offsets[0]) + EncTable(items[1..], offsets[1..])
  }

  function PlanOffsets(items: seq<Named>): (os: seq<nat>)
    ensures |os| == |items|
  {
    Offsets(Datas(items), 0, ALIGNMENT)
  }

  function EncHeader(nTensors: nat, nMeta: nat): (b: Bytes)
    ensures |b| == 24
  {
    LE(MAGIC, 4) + (LE(VERSION, 4) + (LE(nTensors, 8) + LE(nMeta, 8)))
  }

  /** Header, metadata and tensor table. */
  function EncFront(kvs: seq<KeyValue>, items: seq<Named>): Bytes
    requires AllWritable(kvs)
  {
    EncHeader(|items|, |kvs|) + (EncPairs(kvs) + EncTable(items, PlanOffsets(items)))
  }

  /** The whole file: the front padded to the alignment, then the tensor data section. */
  function EncFile(kvs: seq<KeyValue>, items: seq<Named>): Bytes
    requires AllWritable(kvs)
  {
    Padded(EncFront(kvs, items), ALIGNMENT) + Packed(Datas(items), ALIGNMENT)
  }

  // ----- the parser -----

  datatype TensorInfo = TensorInfo(name: Bytes, shape: seq<nat>, dtype: nat, offset: nat)

  datatype GgufFile = GgufFile(metadata: Metadata, tensors: seq<TensorInfo>, dataOffset: nat, data: Bytes)

  /** Crashed: the code would read past the buffer or divide by a zero alignment. */
  datatype Parsed = Rejected | Crashed | Loaded(file: GgufFile)

  /** Pairs are stored as they are read, a later one replacing an earlier one with the same key. */
  function MetadataAt(buf: Bytes, p: nat, n: nat, acc: Metadata): (r: (Metadata, nat))
    requires p <= |buf|
    ensures p <= r.1 <= |buf|
    decreases n
  {
    if n == 0 || p >= |buf| then (acc, p)
    else
      var (key, q) := StringAt(buf, p);
      if key.None? then (acc, q)
      else
        var (v, q') := ValueAt(buf, q);
        MetadataAt(buf, q', n - 1, acc[key.value := v])
  }

  function DimsAt(buf: Bytes, p: nat, n: nat): (dims: seq<nat>)
    requires p + 8 * n <= |buf|
    ensures |dims| == n
    decreases n
  {
    if n == 0 then [] else [FromLE(buf[p..p + 8])] + DimsAt(buf, p + 8, n - 1)
  }

  datatype Row = Row(info: TensorInfo, next: nat) | Stopped(at: nat) | PastEnd

  /** One row of the tensor table. The guard before the dimensions asks for 8 bytes after them, 12 are read. */
  function RowAt(buf: Bytes, p: nat): (r: Row)
    requires p <= |buf|
    ensures r.Row? ==> p < r.next <= |buf|
    ensures r.Stopped? ==> p <= r.at <= |buf|
  {
    var (name, q) := StringAt(buf, p);
    if name.None? || |buf| - q < 4 then Stopped(q)
    else
      var n, s := FromLE(buf[q..q + 4]), q + 4;
      if n > MAX_DIMS || |buf| - s < 8 * n + 8 then Stopped(s)
      else if |buf| - s < 8 * n + 12 then PastEnd
      else
        var t := s + 8 * n;
        Row(TensorInfo(name.value, DimsAt(buf, s, n), FromLE(buf[t..t + 4]), FromLE(buf[t + 4..t + 12])), t + 12)
  }

  function TableAt(buf: Bytes, p: nat, n: nat): (r: Option<(seq<TensorInfo>, nat)>)
    requires p <= |buf|
    ensures r.Some? ==> p <= r.value.1 <= |buf|
    decreases n
  {
    if n == 0 || p >= |buf| then Some(([], p))
    else match RowAt(buf, p)
      case Stopped(q) => Some(([], q))
      case PastEnd => None
      case Row(info, q) =>
        var rest := TableAt(buf, q, n - 1);
        if rest.None? then None else Some(([info] + rest.value.0, rest.value.1))
  }

  const ALIGNMENT_KEY: Bytes := Ascii("general.alignment")

  /** The alignment in force; a value of another type reads as 0, one cut short is not readable. */
  function AlignmentOf(m: Metadata): Option<nat> {
    if ALIGNMENT_KEY !in m then Some(32)
    else if m[ALIGNMENT_KEY].ty != 4 then Some(0)
    else if |m[ALIGNMENT_KEY].raw| < 4 then None
    else Some(FromLE(m[ALIGNMENT_KEY].raw[..4]))
  }

  function Finish(buf: Bytes, m: Metadata, tensors: seq<TensorInfo>, p: nat): Parsed {
    var a := AlignmentOf(m);
    if a.None? || a.value == 0 then Crashed
    else
      var off := AlignUp(p, a.value);
      Loaded(GgufFile(m, tensors, off, if off < |buf| then buf[off..] else []))
  }

  function Parse(buf: Bytes): Parsed {
    if |buf| < 24 || FromLE(buf[0..4]) != MAGIC || FromLE(buf[4..8]) != VERSION then Rejected
    else
      var (m, p) := MetadataAt(buf, 24, FromLE(buf[16..24]), map[]);
      var t := TableAt(buf, p, FromLE(buf[8..16]));
      if t.None? then Crashed else Finish(buf, m, t.value.0, t.value.1)
  }

  function FindInfo(tensors: seq<TensorInfo>, name: Bytes): Option<TensorInfo> {
    if |tensors| == 0 then None
    else if tensors[0].name == name then Some(tensors[0])
    else FindInfo(tensors[1..], name)
  }

  function LoadTensor(f: GgufFile, name: Bytes): Option<Tensor> {
    var info := FindInfo(f.tensors, name);
    if info.None? then None
    else
      var size, at := StorageSize(info.value.shape, info.value.dtype), info.value.offset;
      if at + size > |f.data| then None
      else Some(Tensor(info.value.shape, info.value.dtype, f.data[at..at + size]))
  }

  // ----- reading back what was written -----

  function Fold(acc: Metadata, kvs: seq<KeyValue>): Metadata
    decreases kvs
  {
    if |kvs| == 0 then acc else Fold(acc[kvs[0].0 := kvs[0].1], kvs[1..])
  }

  lemma {:induction false} PairsRead(buf: Bytes, p: nat, kvs: seq<KeyValue>, acc: Metadata)
    requires AllWellFormed(kvs) && AllWritable(kvs) && FitsU64(buf) && HasAt(buf, p, EncPairs(kvs))
    ensures p <= |buf| && MetadataAt(buf, p, |kvs|, acc).0 == Fold(acc, kvs)
    ensures MetadataAt(buf, p, |kvs|, acc).1 == p + |EncPairs(kvs)|
    decreases kvs
  {
    hide AllWellFormed, AllWritable, EncPairs, EncString, EncTyped, WellFormed, Writable, HasAt, MetadataAt, Fold,
      FitsU64;
    if |kvs| == 0 {
      NoPairs(buf, p, kvs, acc);
    } else {
      FoldFront(acc, kvs);
      PairParts(buf, p, kvs);
      var k, v, rest := kvs[0].0, kvs[0].1, kvs[1..];
      var q := p + |EncString(k)|;
      PairStep(buf, p, |rest|, acc, k, q, v);
      PairsRead(buf, q + |EncTyped(v)|, rest, acc[k := v]);
      assert |kvs| == |rest| + 1;
    }
  }

  lemma NoPairs(buf: Bytes, p: nat, kvs: seq<KeyValue>, acc: Metadata)
    requires kvs == [] && AllWritable(kvs) && HasAt(buf, p, EncPairs(kvs))
    ensures p <= |buf| && MetadataAt(buf, p, 0, acc) == (acc, p) && Fold(acc, kvs) == acc && |EncPairs(kvs)| == 0
  {
  }

  /** Reading one pair. */
  lemma PairStep(buf: Bytes, p: nat, n: nat, acc: Metadata, k: Bytes, q: nat, v: Value)
    requires FitsU64(buf) && WellFormed(v) && Writable(v) && p < q == p + |EncString(k)|
    requires HasAt(buf, p, EncString(k)) && HasAt(buf, q, EncTyped(v))
    ensures p <= |buf| && q + |EncTyped(v)| <= |buf|
    ensures MetadataAt(buf, p, n + 1, acc) == MetadataAt(buf, q + |EncTyped(v)|, n, acc[k := v])
  {
    StringReads(buf, p, k);
    ValueReads(buf, q, v);
    hide EncString, EncTyped, WellFormed, Writable, ValueAt, StringAt;
  }

  lemma FoldFront(acc: Metadata, kvs: seq<KeyValue>)
    requires |kvs| > 0
    ensures Fold(acc, kvs) == Fold(acc[kvs[0].0 := kvs[0].1], kvs[1..])
  {
  }

  lemma PairParts(buf: Bytes, p: nat, kvs: seq<KeyValue>)
    requires AllWellFormed(kvs) && AllWritable(kvs) && |kvs| > 0 && HasAt(buf, p, EncPairs(kvs))
    ensures AllWritable(kvs[1..]) && AllWellFormed(kvs[1..]) && Writable(kvs[0].1) && WellFormed(kvs[0].1)
    ensures var q := p + |EncString(kvs[0].0)|;
      var r := q + |EncTyped(kvs[0].1)|;
      && HasAt(buf, p, EncString(kvs[0].0)) && HasAt(buf, q, EncTyped(kvs[0].1)) && HasAt(buf, r, EncPairs(kvs[1..]))
      && p < q <= |buf| && p + |EncPairs(kvs)| == r + |EncPairs(kvs[1..])|
  {
    var k, v, rest := EncString(kvs[0].0), EncTyped(kvs[0].1), EncPairs(kvs[1..]);
    assert |k| > 0;
    assert EncPairs(kvs) == (k + v) + rest;
    hide EncPairs, EncString, EncTyped, Writable, WellFormed;
    HasAtConcat(buf, p, k + v, rest);
    HasAtConcat(buf, p, k, v);
  }

  /** Dimensions are 64-bit signed. */
  predicate DimsFit(dims: seq<nat>) {
    forall i :: 0 <= i < |dims| ==> dims[i] < 0x8000_0000_0000_0000
  }

  predicate ShapeFits(n: Named) {
    DimsFit(n.t.shape)
  }

  lemma {:induction false} DimsRead(buf: Bytes, p: nat, dims: seq<nat>)
    requires HasAt(buf, p, EncDims(dims)) && DimsFit(dims)
    ensures p + 8 * |dims| <= |buf| && DimsAt(buf, p, |dims|) == dims
    decreases dims
  {
    if |dims| > 0 {
      HasAtConcat(buf, p, LE(dims[0], 8), EncDims(dims[1..]));
      WidthOf8();
      FieldReads(buf, p, dims[0], 8);
      DimsRead(buf, p + 8, dims[1..]);
    }
  }

  function InfoOf(n: Named, offset: nat): TensorInfo {
    TensorInfo(n.name, n.t.shape, F16, offset)
  }

  function Infos(items: seq<Named>, offsets: seq<nat>): (r: seq<TensorInfo>)
    requires |items| == |offsets|
    ensures |r| == |items|
  {
    if |items| == 0 then [] else [InfoOf(items[0], offsets[0])] + Infos(items[1..], offsets[1..])
  }

  lemma TailReads(buf: Bytes, p: nat, offset: nat)
    requires HasAt(buf, p, LE(F16, 4) + LE(offset, 8)) && offset < 0x1_0000_0000_0000_0000
    ensures p + 12 <= |buf| && FromLE(buf[p..p + 4]) == F16 && FromLE(buf[p + 4..p + 12]) == offset
  {
    HasAtConcat(buf, p, LE(F16, 4), LE(offset, 8));
    WidthOf4();
    WidthOf8();
    FieldReads(buf, p, F16, 4);
    FieldReads(buf, p + 4, offset, 8);
  }

  /** A row is read back exactly when it has at most eight dimensions. */
  lemma {:induction false} EntryReads(buf: Bytes, p: nat, n: Named, offset: nat)
    requires HasAt(buf, p, EncEntry(n, offset)) && FitsU64(buf) && ShapeFits(n) && offset < 0x1_0000_0000_0000_0000
    requires |n.t.shape| < 0x1_0000_0000
    ensures p < p + |EncEntry(n, offset)| <= |buf|
    ensures RowAt(buf, p) == if |n.t.shape| <= MAX_DIMS then Row(InfoOf(n, offset), p + |EncEntry(n, offset)|)
                             else Stopped(p + |EncString(n.name)| + 4)
  {
    hide EncEntry, EncString, HasAt, StringAt, DimsAt, FromLE, LE;
    EntryFields(buf, p, n, offset);
    EntryRows(buf, p, n, offset, p + |EncString(n.name)|, |n.t.shape|);
  }

  /** Where the fields of a row lie. */
  lemma EntryFields(buf: Bytes, p: nat, n: Named, offset: nat)
    requires HasAt(buf, p, EncEntry(n, offset)) && FitsU64(buf)
    ensures var q, d := p + |EncString(n.name)|, |n.t.shape|;
      && p < q && |EncEntry(n, offset)| == |EncString(n.name)| + 16 + 8 * d && q + 16 + 8 * d <= |buf|
      && HasAt(buf, p, EncString(n.name)) && HasAt(buf, q, LE(d, 4)) && HasAt(buf, q + 4, EncDims(n.t.shape))
      && HasAt(buf, q + 4 + 8 * d, LE(F16, 4) + LE(offset, 8))
  {
    var dims := n.t.shape;
    assert |EncString(n.name)| > 0;
    HasAtFour(buf, p, EncString(n.name), LE(|dims|, 4), EncDims(dims), LE(F16, 4) + LE(offset, 8));
  }

  lemma HasAtFour(buf: Bytes, p: nat, a: Bytes, b: Bytes, c: Bytes, d: Bytes)
    requires HasAt(buf, p, a + (b + (c + d)))
    ensures |a + (b + (c + d))| == |a| + |b| + |c| + |d|
    ensures HasAt(buf, p, a) && HasAt(buf, p + |a|, b) && HasAt(buf, p + |a| + |b|, c)
    ensures HasAt(buf, p + |a| + |b| + |c|, d) && p + |a| + |b| + |c| + |d| <= |buf|
  {
    HasAtConcat(buf, p, a, b + (c + d));
    HasAtConcat(buf, p + |a|, b, c + d);
    HasAtConcat(buf, p + |a| + |b|, c, d);
  }

  lemma {:induction false} EntryRows(buf: Bytes, p: nat, n: Named, offset: nat, q: nat, d: nat)
    requires FitsU64(buf) && ShapeFits(n) && offset < 0x1_0000_0000_0000_0000 && d == |n.t.shape| < 0x1_0000_0000
    requires p < q == p + |EncString(n.name)| && q + 16 + 8 * d <= |buf|
    requires HasAt(buf, p, EncString(n.name)) && HasAt(buf, q, LE(d, 4)) && HasAt(buf, q + 4, EncDims(n.t.shape))
    requires HasAt(buf, q + 4 + 8 * d, LE(F16, 4) + LE(offset, 8))
    ensures RowAt(buf, p) == if d <= MAX_DIMS then Row(InfoOf(n, offset), q + 16 + 8 * d) else Stopped(q + 4)
  {
    hide EncString, HasAt, StringAt, DimsAt, FromLE, LE, EncDims;
    StringReads(buf, p, n.name);
    WidthOf4();
    FieldReads(buf, q, d, 4);
    var t := q + 4 + 8 * d;
    TailReads(buf, t, offset);
    DimsRead(buf, q + 4, n.t.shape);
    assert t == (q + 4) + 8 * d;
  }

  ghost predicate FewDims(items: seq<Named>) {
    forall i :: 0 <= i < |items| ==> |items[i].t.shape| <= MAX_DIMS
  }

  ghost predicate Storable(items: seq<Named>) {
    forall i :: 0 <= i < |items| ==> ShapeFits(items[i]) && |items[i].t.shape| < 0x1_0000_0000
  }

  /** The whole table is read back exactly when every tensor has at most eight dimensions. */
  lemma {:induction false} TableReads(buf: Bytes, p: nat, items: seq<Named>, offsets: seq<nat>)
    requires |items| == |offsets| && HasAt(buf, p, EncTable(items, offsets)) && FitsU64(buf) && Storable(items)
    requires forall i :: 0 <= i < |offsets| ==> offsets[i] < 0x1_0000_0000_0000_0000
    ensures p <= |buf|
    ensures var t := TableAt(buf, p, |items|);
      && (t.Some? && t.value.0 == Infos(items, offsets) <==> FewDims(items))
      && (FewDims(items) ==> t.value.1 == p + |EncTable(items, offsets)|)
    decreases items
  {
    hide RowAt, EncEntry, EncString, HasAt, InfoOf;
    HasAtFits(buf, p, EncTable(items, offsets));
    if |items| > 0 {
      var e, rest := EncEntry(items[0], offsets[0]), EncTable(items[1..], offsets[1..]);
      HasAtConcat(buf, p, e, rest);
      EntryReads(buf, p, items[0], offsets[0]);
      FewDimsStep(items);
      if |items[0].t.shape| <= MAX_DIMS {
        TableReads(buf, p + |e|, items[1..], offsets[1..]);
        var t := TableAt(buf, p + |e|, |items| - 1);
        if t.Some? { PrependIs(InfoOf(items[0], offsets[0]), t.value.0, Infos(items[1..], offsets[1..])); }
      }
    }
  }

  lemma FewDimsStep(items: seq<Named>)
    requires |items| > 0
    ensures FewDims(items) <==> |items[0].t.shape| <= MAX_DIMS && FewDims(items[1..])
  {
    assert forall i :: 0 < i < |items| ==> items[i] == items[1..][i - 1];
  }

  // ----- the metadata map -----

  /** Exactly these keys: the fourteen fixed ones, and the tokenizer keys of the base model with its values. */
  function ExpectedMetadata(c: Config, base: Metadata): Metadata {
    FixedMetadata(c) + KnownKeys(TOKENIZER_KEYS, base)
  }

  function FixedHead(c: Config): Metadata {
    map[ Ascii("general.architecture") := StringValue("llama"),
         Ascii("general.name") := StringValue("orchid"),
         Ascii("general.file_type") := U32Value(1),
         Ascii("general.quantization_version") := U32Value(2),
         Ascii("llama.block_count") := U32Value(c.numLayers),
         Ascii("llama.context_length") := U32Value(c.maxSeqLen),
         Ascii("llama.embedding_length") := U32Value(c.hiddenSize) ]
  }

  function FixedMetadata(c: Config): Metadata {
    FixedHead(c)
      [Ascii("llama.feed_forward_length") := U32Value(c.intermediateSize)]
      [Ascii("llama.attention.head_count") := U32Value(c.numHeads)]
      [Ascii("llama.attention.head_count_kv") := U32Value(c.numKvHeads)]
      [Ascii("llama.attention.layer_norm_rms_epsilon") := F32Value(c.rmsNormEps)]
      [Ascii("llama.rope.freq_base") := F32Value(c.ropeTheta)]
      [Ascii("llama.rope.dimension_count") := U32Value(c.headDim)]
      [Ascii("llama.vocab_size") := U32Value(c.vocabSize)]
  }

  lemma {:induction false} FoldConcat(acc: Metadata, a: seq<KeyValue>, b: seq<KeyValue>)
    ensures Fold(acc, a + b) == Fold(Fold(acc, a), b)
    decreases a
  {
    if |a| == 0 { assert a + b == b; } else {
      assert (a + b)[1..] == a[1..] + b;
      FoldConcat(acc[a[0].0 := a[0].1], a[1..], b);
    }
  }

  lemma FoldStep(acc: Metadata, kvs: seq<KeyValue>, i: nat, r: Metadata)
    requires i < |kvs| && Fold(acc, kvs[..i]) == r
    ensures Fold(acc, kvs[..i + 1]) == r[kvs[i].0 := kvs[i].1]
  {
    assert kvs[..i + 1] == kvs[..i] + [kvs[i]];
    FoldConcat(acc, kvs[..i], [kvs[i]]);
    assert Fold(r, [kvs[i]]) == Fold(r[kvs[i].0 := kvs[i].1], []);
  }

  lemma FoldFixedHead(c: Config)
    ensures Fold(map[], FixedPairs(c)[..7]) == FixedHead(c)
  {
    var kvs := FixedPairs(c);
    var m0: Metadata := map[];
    assert Fold(map[], kvs[..0]) == m0;
    hide Fold, Ascii, U32Value, F32Value, StringValue;
    var m1 := m0[kvs[0].0 := kvs[0].1];
    FoldStep(map[], kvs, 0, m0);
    var m2 := m1[kvs[1].0 := kvs[1].1];
    FoldStep(map[], kvs, 1, m1);
    var m3 := m2[kvs[2].0 := kvs[2].1];
    FoldStep(map[], kvs, 2, m2);
    var m4 := m3[kvs[3].0 := kvs[3].1];
    FoldStep(map[], kvs, 3, m3);
    var m5 := m4[kvs[4].0 := kvs[4].1];
    FoldStep(map[], kvs, 4, m4);
    var m6 := m5[kvs[5].0 := kvs[5].1];
    FoldStep(map[], kvs, 5, m5);
    FoldStep(map[], kvs, 6, m6);
  }

  lemma FoldFixed(c: Config)
    ensures Fold(map[], FixedPairs(c)) == FixedMetadata(c)
  {
    var kvs, m7 := FixedPairs(c), FixedHead(c);
    FoldFixedHead(c);
    hide Fold, Ascii, U32Value, F32Value, StringValue, FixedHead;
    var m8 := m7[kvs[7].0 := kvs[7].1];
    FoldStep(map[], kvs, 7, m7);
    var m9 := m8[kvs[8].0 := kvs[8].1];
    FoldStep(map[], kvs, 8, m8);
    var m10 := m9[kvs[9].0 := kvs[9].1];
    FoldStep(map[], kvs, 9, m9);
    var m11 := m10[kvs[10].0 := kvs[10].1];
    FoldStep(map[], kvs, 10, m10);
    var m12 := m11[kvs[11].0 := kvs[11].1];
    FoldStep(map[], kvs, 11, m11);
    var m13 := m12[kvs[12].0 := kvs[12].1];
    FoldStep(map[], kvs, 12, m12);
    FoldStep(map[], kvs, 13, m13);
    assert kvs[..14] == kvs;
  }

  lemma {:induction false} FoldPassthrough(acc: Metadata, keys: seq<Bytes>, base: Metadata)
    ensures Fold(acc, Passthrough(keys, base)) == acc + KnownKeys(keys, base)
    decreases keys
  {
    if |keys| > 0 {
      var k, rest := keys[0], Passthrough(keys[1..], base);
      KnownStep(acc, keys, base);
      if k in base {
        FoldConcat(acc, [(k, base[k])], rest);
        FoldOne(acc, k, base[k]);
        FoldPassthrough(acc[k := base[k]], keys[1..], base);
      } else {
        assert [] + rest == rest;
        FoldPassthrough(acc, keys[1..], base);
      }
    }
  }

  function KnownKeys(keys: seq<Bytes>, base: Metadata): Metadata {
    map k | k in keys && k in base :: base[k]
  }

  lemma FoldOne(acc: Metadata, k: Bytes, v: Value)
    ensures Fold(acc, [(k, v)]) == acc[k := v]
  {
    assert Fold(acc, [(k, v)]) == Fold(acc[k := v], []);
  }

  lemma KnownStep(acc: Metadata, keys: seq<Bytes>, base: Metadata)
    requires |keys| > 0
    ensures acc + KnownKeys(keys, base)
      == (if keys[0] in base then acc[keys[0] := base[keys[0]]] else acc) + KnownKeys(keys[1..], base)
  {
    assert forall k :: k in keys <==> k == keys[0] || k in keys[1..];
  }

  // ----- the whole file -----

  lemma {:induction false} PairsLonger(kvs: seq<KeyValue>)
    requires AllWritable(kvs)
    ensures |EncPairs(kvs)| >= |kvs|
  {
    if |kvs| > 0 { PairsLonger(kvs[1..]); }
  }

  lemma {:induction false} TableLonger(items: seq<Named>, offsets: seq<nat>)
    requires |items| == |offsets|
    ensures |EncTable(items, offsets)| >= |items|
    decreases items
  {
    if |items| > 0 { TableLonger(items[1..], offsets[1..]); }
  }

  lemma HeaderReads(buf: Bytes, nTensors: nat, nMeta: nat)
    requires HasAt(buf, 0, EncHeader(nTensors, nMeta))
    requires nTensors < 0x1_0000_0000_0000_0000 && nMeta < 0x1_0000_0000_0000_0000
    ensures |buf| >= 24 && FromLE(buf[0..4]) == MAGIC && FromLE(buf[4..8]) == VERSION
    ensures FromLE(buf[8..16]) == nTensors && FromLE(buf[16..24]) == nMeta
  {
    hide HasAt, FromLE, LE, Pow256;
    var a, b, c, d := LE(MAGIC, 4), LE(VERSION, 4), LE(nTensors, 8), LE(nMeta, 8);
    HasAtConcat(buf, 0, a, b + (c + d));
    HasAtConcat(buf, 4, b, c + d);
    HasAtConcat(buf, 8, c, d);
    WidthOf4();
    WidthOf8();
    FieldReads(buf, 0, MAGIC, 4);
    FieldReads(buf, 4, VERSION, 4);
    FieldReads(buf, 8, nTensors, 8);
    FieldReads(buf, 16, nMeta, 8);
  }

  /** Where the parts of the file lie. */
  lemma {:induction false} FileParts(kvs: seq<KeyValue>, items: seq<Named>)
    requires AllWritable(kvs)
    ensures var buf, front := EncFile(kvs, items), EncFront(kvs, items);
      var metaEnd := 24 + |EncPairs(kvs)|;
      && HasAt(buf, 0, EncHeader(|items|, |kvs|)) && HasAt(buf, 24, EncPairs(kvs))
      && HasAt(buf, metaEnd, EncTable(items, PlanOffsets(items)))
      && |front| == metaEnd + |EncTable(items, PlanOffsets(items))| <= |buf|
      && HasAt(buf, AlignUp(|front|, ALIGNMENT), Packed(Datas(items), ALIGNMENT))
  {
    var head, meta, table := EncHeader(|items|, |kvs|), EncPairs(kvs), EncTable(items, PlanOffsets(items));
    var data := Packed(Datas(items), ALIGNMENT);
    hide EncHeader, EncPairs, EncTable, Packed, EncFile, EncFront, HasAt, Padded, PlanOffsets, AlignUp, AllWritable,
      Datas;
    FileIs(kvs, items);
    ThreeParts(head, meta + table, data, ALIGNMENT);
    HasAtConcat(EncFile(kvs, items), 24, meta, table);
  }

  lemma FileIs(kvs: seq<KeyValue>, items: seq<Named>)
    requires AllWritable(kvs)
    ensures var front := EncHeader(|items|, |kvs|) + (EncPairs(kvs) + EncTable(items, PlanOffsets(items)));
      EncFront(kvs, items) == front && EncFile(kvs, items) == Padded(front, ALIGNMENT) + Packed(Datas(items), ALIGNMENT)
  {
    hide EncHeader, EncPairs, EncTable, Packed, Padded, PlanOffsets, Datas;
  }

  lemma OffsetsFit(kvs: seq<KeyValue>, items: seq<Named>, i: nat)
    requires AllWritable(kvs) && i < |items|
    ensures var base := AlignUp(|EncFront(kvs, items)|, ALIGNMENT);
      HasAt(EncFile(kvs, items), base + PlanOffsets(items)[i], items[i].t.data)
  {
    hide EncHeader, EncPairs, EncTable, EncFront, EncFile;
    FileParts(kvs, items);
    RegionAt(EncFile(kvs, items), AlignUp(|EncFront(kvs, items)|, ALIGNMENT), Datas(items), 0, ALIGNMENT, i);
  }

  function ParsedFile(kvs: seq<KeyValue>, items: seq<Named>): GgufFile
    requires AllWritable(kvs)
  {
    GgufFile(Fold(map[], kvs), Infos(items, PlanOffsets(items)), AlignUp(|EncFront(kvs, items)|, ALIGNMENT),
             Packed(Datas(items), ALIGNMENT))
  }

  /** Parsing the written file gives back the pairs, the tensor table, the data offset and the data section exactly
      when every tensor has at most eight dimensions. */
  lemma {:induction false} FileParses(kvs: seq<KeyValue>, items: seq<Named>)
    requires AllWellFormed(kvs) && AllWritable(kvs) && Storable(items) && FitsU64(EncFile(kvs, items))
    requires ALIGNMENT_KEY !in Fold(map[], kvs)
    ensures Parse(EncFile(kvs, items)) == Loaded(ParsedFile(kvs, items)) <==> FewDims(items)
  {
    hide EncHeader, EncPairs, EncTable, EncFront, Packed, MetadataAt, TableAt, HasAt, AllWellFormed, Writable, Fold,
      FromLE, Infos, FewDims, Storable, AllWritable, Offsets;
    var buf, offsets := EncFile(kvs, items), PlanOffsets(items);
    FileParts(kvs, items);
    FileLength(kvs, items);
    PairsLonger(kvs);
    TableLonger(items, offsets);
    HeaderReads(buf, |items|, |kvs|);
    PairsRead(buf, 24, kvs, map[]);
    AllOffsetsFit(kvs, items);
    TableReads(buf, 24 + |EncPairs(kvs)|, items, offsets);
    DataIsTail(buf, AlignUp(|EncFront(kvs, items)|, ALIGNMENT), Packed(Datas(items), ALIGNMENT));
  }

  lemma AllOffsetsFit(kvs: seq<KeyValue>, items: seq<Named>)
    requires AllWritable(kvs) && FitsU64(EncFile(kvs, items))
    ensures forall i :: 0 <= i < |items| ==> PlanOffsets(items)[i] < 0x1_0000_0000_0000_0000
  {
    hide EncFile, EncFront;
    forall i | 0 <= i < |items| ensures PlanOffsets(items)[i] < 0x1_0000_0000_0000_0000 { OffsetsFit(kvs, items, i); }
  }

  lemma FileLength(kvs: seq<KeyValue>, items: seq<Named>)
    requires AllWritable(kvs)
    ensures |EncFile(kvs, items)| == AlignUp(|EncFront(kvs, items)|, ALIGNMENT) + |Packed(Datas(items), ALIGNMENT)|
  {
  }

  lemma DataIsTail(buf: Bytes, off: nat, data: Bytes)
    requires HasAt(buf, off, data) && |buf| == off + |data|
    ensures (if off < |buf| then buf[off..] else []) == data
  {
  }

  // ----- the export -----

  function ExportPairs(m: ModelF16, base: Metadata): seq<KeyValue> {
    FixedPairs(m.config) + Passthrough(TOKENIZER_KEYS, base)
  }

  ghost predicate GoodBase(base: Metadata) {
    forall k :: k in base && k in TOKENIZER_KEYS ==> WellFormed(base[k])
  }

  lemma {:induction false} PassthroughWellFormed(keys: seq<Bytes>, base: Metadata)
    requires forall k :: k in base && k in keys ==> WellFormed(base[k])
    ensures AllWellFormed(Passthrough(keys, base))
  {
    if |keys| > 0 {
      assert forall k :: k in keys[1..] ==> k in keys;
      PassthroughWellFormed(keys[1..], base);
    }
  }

  lemma ExportPairsWellFormed(m: ModelF16, base: Metadata)
    requires GoodBase(base)
    ensures AllWellFormed(ExportPairs(m, base)) && AllWritable(ExportPairs(m, base))
  {
    PassthroughWellFormed(TOKENIZER_KEYS, base);
    FixedWellFormed(m.config);
    AllWellFormedWritable(ExportPairs(m, base));
  }

  lemma FixedWellFormed(c: Config)
    ensures AllWellFormed(FixedPairs(c))
  {
  }

  lemma AlignmentKeyAbsent(c: Config, base: Metadata)
    ensures ALIGNMENT_KEY !in ExpectedMetadata(c, base)
  {
    TokenizerKeysStartWithT();
    AlignmentKeyNotFixed(c);
    hide FixedMetadata, Ascii;
  }

  lemma AlignmentKeyNotFixed(c: Config)
    ensures ALIGNMENT_KEY !in FixedMetadata(c)
    ensures |ALIGNMENT_KEY| > 0 && ALIGNMENT_KEY[0] == 103
  {
    hide StringValue, U32Value, F32Value;
    var k := ALIGNMENT_KEY;
    assert |k| == 17 && k[0] == 103 && k[8] == 97;
    assert k != Ascii("general.file_type") by { assert Ascii("general.file_type")[8] == 102; }
    assert k != Ascii("llama.block_count") by { assert Ascii("llama.block_count")[0] == 108; }
    hide Ascii;
  }

  lemma TokenizerKeysStartWithT()
    ensures forall k :: k in TOKENIZER_KEYS ==> |k| > 0 && k[0] == 116
  {
  }

  /** Exporting and parsing gives exactly the expected metadata, the plan's tensor table, and the data offset at which
      the writer began the data section. */
  lemma {:induction false} ExportParses(m: ModelF16, base: Metadata)
    requires GoodBase(base) && AllWritable(ExportPairs(m, base))
    requires var items := PlanItems(m); Storable(items) && FewDims(items)
    requires FitsU64(EncFile(ExportPairs(m, base), PlanItems(m)))
    ensures var kvs, items := ExportPairs(m, base), PlanItems(m);
      Parse(EncFile(kvs, items)) == Loaded(GgufFile(ExpectedMetadata(m.config, base), Infos(items, PlanOffsets(items)),
        AlignUp(|EncFront(kvs, items)|, ALIGNMENT), Packed(Datas(items), ALIGNMENT)))
  {
    ExportMetadata(m, base);
    hide EncFile, EncFront, PlanItems, ExportPairs, ExpectedMetadata, Fold, FewDims, Storable, Parse, WellFormed,
      GoodBase;
    ExportPairsWellFormed(m, base);
    AlignmentKeyAbsent(m.config, base);
    FileParses(ExportPairs(m, base), PlanItems(m));
  }

  lemma {:induction false} ExportMetadata(m: ModelF16, base: Metadata)
    ensures Fold(map[], ExportPairs(m, base)) == ExpectedMetadata(m.config, base)
  {
    FoldConcat(map[], FixedPairs(m.config), Passthrough(TOKENIZER_KEYS, base));
    FoldFixed(m.config);
    FoldPassthrough(FixedMetadata(m.config), TOKENIZER_KEYS, base);
  }

  lemma {:induction false} InfosAt(items: seq<Named>, offsets: seq<nat>, i: nat)
    requires |items| == |offsets| && i < |items|
    ensures Infos(items, offsets)[i] == InfoOf(items[i], offsets[i])
    decreases items
  {
    if i > 0 { InfosAt(items[1..], offsets[1..], i - 1); }
  }

  lemma {:induction false} FindFirst(tensors: seq<TensorInfo>, i: nat)
    requires i < |tensors| && forall j :: 0 <= j < i ==> tensors[j].name != tensors[i].name
    ensures FindInfo(tensors, tensors[i].name) == Some(tensors[i])
  {
    if i > 0 {
      assert tensors[0].name != tensors[i].name;
      FindFirst(tensors[1..], i - 1);
    }
  }

  /** What the writer checks: an F16 tensor has two bytes per element. */
  predicate SizeOk(t: Tensor) {
    t.dtype == F16 ==> |t.data| == Elements(t.shape) * 2
  }

  /** Loading the i-th exported tensor by name returns the original if and only if it is F16. */
  lemma ExportedTensorLoads(m: ModelF16, kvs: seq<KeyValue>, i: nat)
    requires AllWritable(kvs) && i < |PlanItems(m)| && SizeOk(PlanItems(m)[i].t)
    ensures var n := PlanItems(m)[i];
      LoadTensor(ParsedFile(kvs, PlanItems(m)), n.name) == Some(n.t) <==> n.t.dtype == F16
  {
    PlanNamesDistinct(m);
    hide PlanItems, EncFront, Fold;
    var items := PlanItems(m);
    var offsets := PlanOffsets(items);
    var infos := Infos(items, offsets);
    InfosAt(items, offsets, i);
    forall j | 0 <= j < i ensures infos[j].name != infos[i].name { InfosAt(items, offsets, j); }
    FindFirst(infos, i);
    var data := Packed(Datas(items), ALIGNMENT);
    assert HasAt(data, 0, data);
    RegionAt(data, 0, Datas(items), 0, ALIGNMENT, i);
  }
}
