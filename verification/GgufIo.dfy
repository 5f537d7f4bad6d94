/** The export and parse loops, proved against the file format: collecting and placing the tensors, writing the four
    parts of the file, and reading them with a cursor. */
module GgufIo {
  import opened Prelude
  import opened Bytes
  import opened Encoding
  import opened Layout
  import opened Tensors
  import opened GgufValues
  import opened GgufFormat

  // ----- export -----

  datatype Entry = Entry(item: Named, offset: nat)

  datatype Exported = NoLayers | NotF16 | BadSize | Written(file: Bytes)

  ghost predicate SizesOk(items: seq<Named>) {
    forall i :: 0 <= i < |items| ==> SizeOk(items[i].t)
  }

  /** The model's tensors, each with its offset in the data section; None if a tensor has the wrong size. */
  method BuildPlan(m: ModelF16) returns (plan: Option<seq<Entry>>)
    ensures plan.Some? <==> SizesOk(PlanItems(m))
    ensures plan.Some? ==> PlanOf(plan.value, PlanItems(m))
  {
    hide PlanItems, SizesOk, PlanOf;
    var items := CollectItems(m);
    plan := PlaceItems(items);
  }

  ghost predicate PlanOf(plan: seq<Entry>, items: seq<Named>) {
    |plan| == |items| && forall i :: 0 <= i < |items| ==> plan[i] == Entry(items[i], PlanOffsets(items)[i])
  }

  method PlaceItems(items: seq<Named>) returns (plan: Option<seq<Entry>>)
    ensures plan.Some? <==> SizesOk(items)
    ensures plan.Some? ==> PlanOf(plan.value, items)
  {
    hide Offsets, EndOffset, SizeOk;
    var entries := [];
    var offset := 0;
    ghost var datas, os := Datas(items), [];
    assert datas[..0] == [] && Offsets(datas[..0], 0, ALIGNMENT) == [];
    EndIsLength(datas[..0], 0, ALIGNMENT);
    assert Packed(datas[..0], ALIGNMENT) == [];
    for i := 0 to |items|
      invariant |entries| == i == |os| && forall j :: 0 <= j < i ==> SizeOk(items[j].t)
      invariant offset == EndOffset(datas[..i], 0, ALIGNMENT) && os == Offsets(datas[..i], 0, ALIGNMENT)
      invariant forall j :: 0 <= j < i ==> entries[j] == Entry(items[j], os[j])
    {
      if !SizeOk(items[i].t) { return None; }
      OffsetsAppend(datas[..i], datas[i], 0, ALIGNMENT);
      assert datas[..i] + [datas[i]] == datas[..i + 1];
      entries := entries + [Entry(items[i], offset)];
      os := os + [offset];
      offset := AlignUp(offset + |items[i].t.data|, ALIGNMENT);
    }
    assert datas[..|items|] == datas;
    return Some(entries);
  }

  method CollectItems(m: ModelF16) returns (items: seq<Named>)
    ensures items == PlanItems(m)
  {
    items := Globals(m);
    ghost var all := AllLayerItems(m.layers);
    for l := 0 to |m.layers|
      invariant items == Globals(m) + LabelAll(0, all[..l])
    {
      items := items + Label(l, LayerItems(m.layers[l]));
      LabelAllAppend(0, all[..l], all[l]);
      assert all[..l] + [all[l]] == all[..l + 1];
      Assoc(Globals(m), LabelAll(0, all[..l]), Label(l, all[l]));
    }
    assert all[..|m.layers|] == all;
  }

  method CountTokenizerKeys(base: Metadata) returns (n: nat)
    ensures n == |Passthrough(TOKENIZER_KEYS, base)|
  {
    n := 0;
    for i := 0 to |TOKENIZER_KEYS|
      invariant n + |Passthrough(TOKENIZER_KEYS[i..], base)| == |Passthrough(TOKENIZER_KEYS, base)|
    {
      if TOKENIZER_KEYS[i] in base { n := n + 1; }
      assert TOKENIZER_KEYS[i..][1..] == TOKENIZER_KEYS[i + 1..];
    }
  }

  lemma {:induction false} PairsAppend(kvs: seq<KeyValue>, kv: KeyValue)
    requires AllWritable(kvs) && Writable(kv.1)
    ensures AllWritable(kvs + [kv])
    ensures EncPairs(kvs + [kv]) == EncPairs(kvs) + (EncString(kv.0) + EncTyped(kv.1))
  {
    if |kvs| == 0 {
      assert kvs + [kv] == [kv] && [kv][1..] == [];
    } else {
      assert (kvs + [kv])[1..] == kvs[1..] + [kv];
      PairsAppend(kvs[1..], kv);
      Assoc(EncString(kvs[0].0) + EncTyped(kvs[0].1), EncPairs(kvs[1..]), EncString(kv.0) + EncTyped(kv.1));
    }
  }

  method WritePair(f: FileWriter, k: Bytes, v: Value)
    requires Writable(v)
    modifies f
    ensures f.out == old(f.out) + (EncString(k) + EncTyped(v))
  {
    ghost var start := f.out;
    f.Wstring(k);
    f.Wbytes(LE(v.ty, 4));
    f.WriteValue(v);
    Assoc(start + EncString(k), LE(v.ty, 4), Enc(v));
    Assoc(start, EncString(k), EncTyped(v));
  }

  method WritePairs(f: FileWriter, kvs: seq<KeyValue>)
    requires AllWritable(kvs)
    modifies f
    ensures f.out == old(f.out) + EncPairs(kvs)
  {
    ghost var start := f.out;
    for i := 0 to |kvs|
      invariant AllWritable(kvs[..i]) && f.out == start + EncPairs(kvs[..i])
    {
      WritePair(f, kvs[i].0, kvs[i].1);
      PairsAppend(kvs[..i], kvs[i]);
      Assoc(start, EncPairs(kvs[..i]), EncString(kvs[i].0) + EncTyped(kvs[i].1));
      assert kvs[..i] + [kvs[i]] == kvs[..i + 1];
    }
    assert kvs[..|kvs|] == kvs;
  }

  lemma {:induction false} PairsConcat(a: seq<KeyValue>, b: seq<KeyValue>)
    requires AllWritable(a) && AllWritable(b)
    ensures AllWritable(a + b) && EncPairs(a + b) == EncPairs(a) + EncPairs(b)
  {
    if |a| == 0 { assert a + b == b; } else {
      assert (a + b)[1..] == a[1..] + b;
      PairsConcat(a[1..], b);
      Assoc(EncString(a[0].0) + EncTyped(a[0].1), EncPairs(a[1..]), EncPairs(b));
    }
  }

  /** The tokenizer keys present in the base model, copied verbatim. */
  method WriteTokenizer(f: FileWriter, base: Metadata)
    requires AllWritable(Passthrough(TOKENIZER_KEYS, base))
    modifies f
    ensures f.out == old(f.out) + EncPairs(Passthrough(TOKENIZER_KEYS, base))
  {
    ghost var start, all := f.out, Passthrough(TOKENIZER_KEYS, base);
    assert TOKENIZER_KEYS[0..] == TOKENIZER_KEYS;
    ghost var done: seq<KeyValue> := [];
    for i := 0 to |TOKENIZER_KEYS|
      invariant AllWritable(done) && f.out == start + EncPairs(done)
      invariant done + Passthrough(TOKENIZER_KEYS[i..], base) == all
    {
      hide EncPairs, Writable, EncString, EncTyped;
      ghost var rest := Passthrough(TOKENIZER_KEYS[i + 1..], base);
      assert TOKENIZER_KEYS[i..][1..] == TOKENIZER_KEYS[i + 1..];
      if TOKENIZER_KEYS[i] in base {
        done := WriteKnown(f, start, done, TOKENIZER_KEYS[i], base, rest);
      } else {
        assert [] + rest == rest;
      }
    }
    assert done + [] == done;
  }

  method WriteKnown(f: FileWriter, ghost start: Bytes, ghost done: seq<KeyValue>, k: Bytes, base: Metadata,
                    ghost rest: seq<KeyValue>)
    returns (ghost done': seq<KeyValue>)
    requires k in base && AllWritable(done) && f.out == start + EncPairs(done)
    requires AllWritable(done + ([(k, base[k])] + rest))
    modifies f
    ensures done' == done + [(k, base[k])] && done' + rest == done + ([(k, base[k])] + rest)
    ensures AllWritable(done') && f.out == start + EncPairs(done')
  {
    assert (done + ([(k, base[k])] + rest))[|done|] == (k, base[k]);
    WritePair(f, k, base[k]);
    PairsAppend(done, (k, base[k]));
    Assoc(start, EncPairs(done), EncString(k) + EncTyped(base[k]));
    Assoc(done, [(k, base[k])], rest);
    done' := done + [(k, base[k])];
  }

  lemma {:induction false} TableAppend(items: seq<Named>, offsets: seq<nat>, n: Named, o: nat)
    requires |items| == |offsets|
    ensures EncTable(items + [n], offsets + [o]) == EncTable(items, offsets) + EncEntry(n, o)
    decreases items
  {
    if |items| == 0 {
      assert items + [n] == [n] && [n][1..] == [] && offsets + [o] == [o];
      assert EncTable([n], [o]) == EncEntry(n, o) + EncTable([], []);
    } else {
      assert (items + [n])[1..] == items[1..] + [n] && (offsets + [o])[1..] == offsets[1..] + [o];
      TableAppend(items[1..], offsets[1..], n, o);
      Assoc(EncEntry(items[0], offsets[0]), EncTable(items[1..], offsets[1..]), EncEntry(n, o));
    }
  }

  lemma {:induction false} DimsAppend(dims: seq<nat>, d: nat)
    ensures EncDims(dims + [d]) == EncDims(dims) + LE(d, 8)
  {
    if |dims| == 0 {
      assert dims + [d] == [d] && [d][1..] == [];
      assert EncDims([d]) == LE(d, 8) + EncDims([]);
    } else {
      assert (dims + [d])[1..] == dims[1..] + [d];
      DimsAppend(dims[1..], d);
      Assoc(LE(dims[0], 8), EncDims(dims[1..]), LE(d, 8));
    }
  }

  method WriteDims(f: FileWriter, dims: seq<nat>)
    modifies f
    ensures f.out == old(f.out) + EncDims(dims)
  {
    ghost var start := f.out;
    for d := 0 to |dims|
      invariant f.out == start + EncDims(dims[..d])
    {
      f.Wbytes(LE(dims[d], 8));
      DimsAppend(dims[..d], dims[d]);
      Assoc(start, EncDims(dims[..d]), LE(dims[d], 8));
      assert dims[..d] + [dims[d]] == dims[..d + 1];
    }
    assert dims[..|dims|] == dims;
  }

  method WriteEntry(f: FileWriter, e: Entry)
    modifies f
    ensures f.out == old(f.out) + EncEntry(e.item, e.offset)
  {
    hide LE, EncString, EncDims;
    ghost var start := f.out;
    var dims := e.item.t.shape;
    f.Wstring(e.item.name);
    f.Wbytes(LE(|dims|, 4));
    WriteDims(f, dims);
    f.Wpair(LE(F16, 4), LE(e.offset, 8));
    FourWrites(start, EncString(e.item.name), LE(|dims|, 4), EncDims(dims), LE(F16, 4) + LE(e.offset, 8));
  }

  lemma FourWrites(start: Bytes, a: Bytes, b: Bytes, c: Bytes, d: Bytes)
    ensures start + a + b + c + d == start + (a + (b + (c + d)))
  {
    Assoc(start + a + b, c, d);
    Assoc(start + a, b, c + d);
    Assoc(start, a, b + (c + d));
  }

  method WriteTable(f: FileWriter, plan: seq<Entry>, ghost items: seq<Named>)
    requires PlanOf(plan, items)
    modifies f
    ensures f.out == old(f.out) + EncTable(items, PlanOffsets(items))
  {
    hide EncEntry, PlanOffsets;
    ghost var start, offsets := f.out, PlanOffsets(items);
    for i := 0 to |plan|
      invariant f.out == start + EncTable(items[..i], offsets[..i])
    {
      WriteEntry(f, plan[i]);
      TableAppend(items[..i], offsets[..i], items[i], offsets[i]);
      Assoc(start, EncTable(items[..i], offsets[..i]), EncEntry(items[i], offsets[i]));
      assert items[..i] + [items[i]] == items[..i + 1] && offsets[..i] + [offsets[i]] == offsets[..i + 1];
    }
    assert items[..|items|] == items && offsets[..|items|] == offsets;
  }

  method WriteData(f: FileWriter, plan: seq<Entry>, ghost items: seq<Named>)
    requires PlanOf(plan, items) && |f.out| % ALIGNMENT == 0
    modifies f
    ensures f.out == old(f.out) + Packed(Datas(items), ALIGNMENT)
  {
    ghost var start, datas := f.out, Datas(items);
    for i := 0 to |plan|
      invariant f.out == start + Packed(datas[..i], ALIGNMENT) && |f.out| % ALIGNMENT == 0
    {
      ghost var before := f.out;
      f.Wbytes(plan[i].item.t.data);
      f.Wpad(ALIGNMENT);
      PadTail(before, datas[i], ALIGNMENT);
      PackedAppend(datas[..i], datas[i], ALIGNMENT);
      Assoc(start, Packed(datas[..i], ALIGNMENT), Padded(datas[i], ALIGNMENT));
      assert datas[..i] + [datas[i]] == datas[..i + 1];
    }
    assert datas[..|plan|] == datas;
  }

  /** The export succeeds exactly when the model is loaded, its weights are F16 and every F16 tensor has the right
      size; it then writes the file of the format. */
  method GgufWriteF16(m: ModelF16, base: Metadata) returns (r: Exported)
    requires m.config.numLayers == |m.layers| && AllWritable(ExportPairs(m, base))
    ensures r.NoLayers? <==> |m.layers| == 0
    ensures r.NotF16? <==> |m.layers| > 0 && m.layers[0].wq.dtype != F16
    ensures r.BadSize? <==> |m.layers| > 0 && m.layers[0].wq.dtype == F16 && !SizesOk(PlanItems(m))
    ensures r.Written? ==> r.file == EncFile(ExportPairs(m, base), PlanItems(m))
  {
    if |m.layers| == 0 { return NoLayers; }
    if m.layers[0].wq.dtype != F16 { return NotF16; }
    var plan := BuildPlan(m);
    if plan.None? { return BadSize; }
    var nTok := CountTokenizerKeys(base);
    var f := new FileWriter();
    WriteFront(f, m, base, plan.value, 14 + nTok);
    f.Wpad(ALIGNMENT);
    WriteData(f, plan.value, PlanItems(m));
    return Written(f.out);
  }

  method WriteFront(f: FileWriter, m: ModelF16, base: Metadata, plan: seq<Entry>, nMeta: nat)
    requires AllWritable(ExportPairs(m, base)) && PlanOf(plan, PlanItems(m)) && nMeta == |ExportPairs(m, base)|
    requires f.out == []
    modifies f
    ensures f.out == EncFront(ExportPairs(m, base), PlanItems(m))
  {
    hide PlanItems, EncTable, Writable, EncPairs, Passthrough, LE;
    ghost var items, fixed, tok := PlanItems(m), FixedPairs(m.config), Passthrough(TOKENIZER_KEYS, base);
    FixedWritable(m.config);
    SplitWritable(fixed, tok);
    WriteHeader(f, |plan|, nMeta);
    WritePairs(f, FixedPairs(m.config));
    WriteTokenizer(f, base);
    PairsConcat(fixed, tok);
    WriteTable(f, plan, items);
    FourWrites([], EncHeader(|plan|, nMeta), EncPairs(fixed), EncPairs(tok), EncTable(items, PlanOffsets(items)));
    Assoc(EncPairs(fixed), EncPairs(tok), EncTable(items, PlanOffsets(items)));
  }

  lemma FixedWritable(c: Config)
    ensures AllWritable(FixedPairs(c))
  {
  }

  lemma SplitWritable(a: seq<KeyValue>, b: seq<KeyValue>)
    requires AllWritable(a + b)
    ensures AllWritable(a) && AllWritable(b)
  {
    assert forall i :: 0 <= i < |a| ==> (a + b)[i] == a[i];
    assert forall i :: 0 <= i < |b| ==> (a + b)[|a| + i] == b[i];
  }

  method WriteHeader(f: FileWriter, nTensors: nat, nMeta: nat)
    modifies f
    ensures f.out == old(f.out) + EncHeader(nTensors, nMeta)
  {
    hide LE;
    ghost var start := f.out;
    f.Wbytes(LE(MAGIC, 4));
    f.Wbytes(LE(VERSION, 4));
    f.Wbytes(LE(nTensors, 8));
    f.Wbytes(LE(nMeta, 8));
    FourWrites(start, LE(MAGIC, 4), LE(VERSION, 4), LE(nTensors, 8), LE(nMeta, 8));
  }

  // ----- parse -----

  method ReadMetadata(rd: Reader, n: nat) returns (m: Metadata)
    requires rd.Valid()
    modifies rd`p
    ensures rd.Valid() && (m, rd.p) == MetadataAt(rd.buf, old(rd.p), n, map[])
  {
    m := map[];
    ghost var goal := MetadataAt(rd.buf, rd.p, n, map[]);
    for i := 0 to n
      invariant rd.Valid() && goal == MetadataAt(rd.buf, rd.p, n - i, m)
    {
      if rd.p >= |rd.buf| { return; }
      var key := rd.ReadString();
      if key.None? { return; }
      var v := rd.ReadMetadataValue();
      m := m[key.value := v];
    }
  }

  method ReadDims(rd: Reader, n: nat) returns (dims: seq<nat>)
    requires rd.Valid() && rd.p + 8 * n <= |rd.buf|
    modifies rd`p
    ensures rd.Valid() && rd.p == old(rd.p) + 8 * n && dims == DimsAt(rd.buf, old(rd.p), n)
  {
    hide FromLE;
    dims := [];
    ghost var goal := DimsAt(rd.buf, rd.p, n);
    for d := 0 to n
      invariant rd.p == old(rd.p) + 8 * d && goal == dims + DimsAt(rd.buf, rd.p, n - d)
    {
      var x := rd.ReadInt(8);
      dims := dims + [x];
    }
  }

  /** The cursor's position matters only while the table goes on. */
  method ReadRow(rd: Reader) returns (row: Row)
    requires rd.Valid()
    modifies rd`p
    ensures rd.Valid() && row == RowAt(rd.buf, old(rd.p))
    ensures row.Row? ==> rd.p == row.next
    ensures row.Stopped? ==> rd.p == row.at
  {
    hide StringAt, FromLE, DimsAt;
    var name := rd.ReadString();
    if name.None? { return Stopped(rd.p); }
    if |rd.buf| - rd.p < 4 { return Stopped(rd.p); }
    var n := rd.ReadInt(4);
    if n > MAX_DIMS { return Stopped(rd.p); }
    if |rd.buf| - rd.p < 8 * n + 8 { return Stopped(rd.p); }
    if |rd.buf| - rd.p < 8 * n + 12 { return PastEnd; }
    var dims := ReadDims(rd, n);
    var ty := rd.ReadInt(4);
    var offset := rd.ReadInt(8);
    return Row(TensorInfo(name.value, dims, ty, offset), rd.p);
  }

  method ReadTable(rd: Reader, n: nat) returns (infos: Option<seq<TensorInfo>>)
    requires rd.Valid()
    modifies rd`p
    ensures rd.Valid()
    ensures var t := TableAt(rd.buf, old(rd.p), n);
      if t.None? then infos.None? else infos == Some(t.value.0) && rd.p == t.value.1
  {
    hide RowAt;
    var rows := [];
    ghost var start := rd.p;
    Continues(TableAt(rd.buf, start, n), [], TableAt(rd.buf, start, n));
    for i := 0 to n
      invariant rd.Valid() && Goal(TableAt(rd.buf, start, n), rows, TableAt(rd.buf, rd.p, n - i))
    {
      assert rows + [] == rows;
      if rd.p >= |rd.buf| { return Some(rows); }
      ghost var before := rd.p;
      var row := ReadRow(rd);
      match row
      case Stopped(_) => return Some(rows);
      case PastEnd => return None;
      case Row(info, _) =>
        ghost var rest := TableAt(rd.buf, rd.p, n - i - 1);
        if rest.Some? { Assoc(rows, [info], rest.value.0); }
        rows := rows + [info];
    }
    assert rows + [] == rows;
    return Some(rows);
  }

  /** What is still to be read completes the rows read so far to the goal. */
  ghost predicate Goal(goal: Option<(seq<TensorInfo>, nat)>, rows: seq<TensorInfo>,
                       rest: Option<(seq<TensorInfo>, nat)>) {
    if rest.None? then goal.None? else goal == Some((rows + rest.value.0, rest.value.1))
  }

  lemma Continues(goal: Option<(seq<TensorInfo>, nat)>, rows: seq<TensorInfo>, rest: Option<(seq<TensorInfo>, nat)>)
    requires rows == [] && rest == goal
    ensures Goal(goal, rows, rest)
  {
    if goal.Some? { assert [] + goal.value.0 == goal.value.0; }
  }

  /** Parse a whole file, data section included. */
  method GgufLoad(buf: Bytes) returns (r: Parsed)
    ensures r == Parse(buf)
  {
    if |buf| < 24 { return Rejected; }
    var rd := new Reader(buf);
    var magic := rd.ReadInt(4);
    if magic != MAGIC { return Rejected; }
    var version := rd.ReadInt(4);
    if version != VERSION { return Rejected; }
    var nTensors := rd.ReadInt(8);
    var nMeta := rd.ReadInt(8);
    var m := ReadMetadata(rd, nMeta);
    var t := ReadTable(rd, nTensors);
    if t.None? { return Crashed; }
    return Finish(buf, m, t.value, rd.p);
  }

  method FindTensor(f: GgufFile, name: Bytes) returns (r: Option<TensorInfo>)
    ensures r == FindInfo(f.tensors, name)
  {
    for i := 0 to |f.tensors|
      invariant FindInfo(f.tensors, name) == FindInfo(f.tensors[i..], name)
    {
      if f.tensors[i].name == name { return Some(f.tensors[i]); }
      assert f.tensors[i..][1..] == f.tensors[i + 1..];
    }
    return None;
  }

  method LoadTensorFromGguf(f: GgufFile, name: Bytes) returns (t: Option<Tensor>)
    ensures t == LoadTensor(f, name)
  {
    var info := FindTensor(f, name);
    if info.None? { return None; }
    var size := StorageSize(info.value.shape, info.value.dtype);
    if info.value.offset + size > |f.data| { return None; }
    return Some(Tensor(info.value.shape, info.value.dtype, f.data[info.value.offset..info.value.offset + size]));
  }

  /** Export, parse, load by name: every exported F16 tensor comes back with its shape and bytes. */
  method ExportThenLoad(m: ModelF16, base: Metadata, i: nat) returns (t: Option<Tensor>)
    requires m.config.numLayers == |m.layers| > 0 && m.layers[0].wq.dtype == F16
    requires GoodBase(base) && AllWritable(ExportPairs(m, base))
    requires Storable(PlanItems(m)) && FewDims(PlanItems(m)) && SizesOk(PlanItems(m)) && i < |PlanItems(m)|
    requires FitsU64(EncFile(ExportPairs(m, base), PlanItems(m)))
    ensures t == Some(PlanItems(m)[i].t) <==> PlanItems(m)[i].t.dtype == F16
  {
    hide EncFile, PlanItems, ExportPairs, Parse, LoadTensor;
    var r := GgufWriteF16(m, base);
    var p := GgufLoad(r.file);
    ExportParses(m, base);
    ExportMetadata(m, base);
    ExportedTensorLoads(m, ExportPairs(m, base), i);
    t := LoadTensorFromGguf(p.file, PlanItems(m)[i].name);
  }
}
