/** Saving and loading the merged-weight cache, step by step: collecting the present tensors, planning their places,
    writing the parts, and loading each tensor by name. */
module TvCacheIo {
  import opened Prelude
  import opened Bytes
  import opened Encoding
  import opened Layout
  import opened Tensors
  import opened TvCache

  /** The sub-norms, which a layer may lack. */
  predicate IsSubNorm(i: nat) { i >= 2 && ((i - 2) % SLOTS == 5 || (i - 2) % SLOTS == 10) }

  /** The model's tensors in saving order, and its adapter settings. */
  class Model {
    var weights: seq<Tensor>
    var lora: Lora

    constructor (ws: seq<Tensor>, l: Lora)
      ensures weights == ws && lora == l
    {
      weights := ws;
      lora := l;
    }

    /** The tensors to save: sub-norms without a shape are not collected, and empty tensors are filtered out. */
    method CollectValid() returns (items: seq<Named>)
      ensures items == Items(weights, |weights|)
    {
      items := [];
      for i := 0 to |weights|
        invariant items == Items(weights, i)
      {
        if !(IsSubNorm(i) && weights[i].shape == []) && Present(weights[i]) {
          items := items + [Named(Name(i), weights[i])];
        }
      }
    }

    /** Write the cache file; the rank is stored as an unsigned word. */
    method Save(key: Key) returns (file: Bytes)
      ensures file == SaveFile(weights, key, lora.alpha, Unsigned32(lora.rank))
    {
      var items := CollectValid();
      var offsets, end := PlanRows(items);
      var dataOff := AlignUp(HEADER_SIZE + ROW_SIZE * |items|, SECTION_ALIGN);
      file := EncHeader(key, lora.alpha, Unsigned32(lora.rank), |items|, dataOff, dataOff + end);
      file := WriteRows(file, items, offsets);
      file := Padded(file, SECTION_ALIGN);
      file := WriteData(file, items);
    }

    /** Load into this model; a failure part way leaves the tensors read so far. */
    method TryLoad(file: Bytes) returns (status: Status)
      modifies this
      ensures Outcome(status, weights, lora) == Load(file, old(weights), old(lora))
    {
      if |file| < HEADER_SIZE { return Failed; }
      if file[..8] != MAGIC { return Failed; }
      if FromLE(file[8..12]) != VERSION { return Failed; }
      var table := ReadRows(file, FromLE(file[108..116]), FromLE(file[104..108]));
      if table.None? { return Failed; }
      status := LoadTensors(file, FromLE(file[116..124]), table.value);
      if status.Complete? {
        var rank := FromLE(file[100..104]);
        lora := Lora(file[96..100], Signed32(rank), rank > 0);
      }
    }

    method LoadTensors(file: Bytes, dataOff: nat, table: map<Bytes, Row>) returns (status: Status)
      modifies this`weights
      ensures (status, weights) == LoadFrom(file, dataOff, table, old(weights), 0)
    {
      hide LoadOne, Name;
      var n := |weights|;
      for i := 0 to n
        invariant |weights| == n
        invariant LoadFrom(file, dataOff, table, old(weights), 0) == LoadFrom(file, dataOff, table, weights, i)
      {
        var one := LoadTensor(file, dataOff, table, Name(i), weights[i]);
        match one
        case Got(t) => weights := weights[i := t];
        case Short(t) => weights := weights[i := t]; return Failed;
        case Overrun => return Crashed;
      }
      return Complete;
    }

    /** Save in one model, load into another: saved tensors replace the other's, absent ones leave it alone. */
    method Transfer(key: Key, other: Model) returns (status: Status)
      requires this != other && Savable(weights) && FourDims(weights) && |other.weights| == |weights|
      requires -0x8000_0000 <= lora.rank < 0x8000_0000
      requires FitsU64(SaveFile(weights, key, lora.alpha, Unsigned32(lora.rank)))
      modifies other
      ensures status.Complete? && other.weights == Merged(weights, old(other.weights))
      ensures other.lora == Lora(lora.alpha, lora.rank, lora.rank != 0)
    {
      SaveThenLoad(weights, other.weights, key, lora.alpha, Unsigned32(lora.rank), other.lora);
      hide SaveFile, Load, Savable, FourDims;
      var file := Save(key);
      status := other.TryLoad(file);
    }
  }

  method PlanRows(items: seq<Named>) returns (offsets: seq<nat>, end: nat)
    ensures offsets == RowOffsets(items) && end == EndOffset(Datas(items), 0, DATA_ALIGN)
  {
    offsets, end := [], 0;
    ghost var datas := Datas(items);
    assert datas[..0] == [] && EndOffset([], 0, DATA_ALIGN) == 0;
    for i := 0 to |items|
      invariant offsets == Offsets(datas[..i], 0, DATA_ALIGN) && end == EndOffset(datas[..i], 0, DATA_ALIGN)
    {
      hide Offsets, EndOffset;
      OffsetsAppend(datas[..i], datas[i], 0, DATA_ALIGN);
      assert datas[..i] + [datas[i]] == datas[..i + 1];
      offsets := offsets + [end];
      end := AlignUp(end + |items[i].t.data|, DATA_ALIGN);
    }
    assert datas[..|items|] == datas;
  }

  lemma {:induction false} RowsAppend(items: seq<Named>, offsets: seq<nat>, n: Named, o: nat)
    requires |items| == |offsets|
    ensures EncRows(items + [n], offsets + [o]) == EncRows(items, offsets) + EncRow(n, o)
    decreases items
  {
    hide EncRow;
    if |items| == 0 {
      assert items + [n] == [n] && [n][1..] == [] && offsets + [o] == [o];
      assert EncRows([n], [o]) == EncRow(n, o) + EncRows([], []);
    } else {
      assert (items + [n])[1..] == items[1..] + [n] && (offsets + [o])[1..] == offsets[1..] + [o];
      RowsAppend(items[1..], offsets[1..], n, o);
      Assoc(EncRow(items[0], offsets[0]), EncRows(items[1..], offsets[1..]), EncRow(n, o));
    }
  }

  method WriteRows(file: Bytes, items: seq<Named>, offsets: seq<nat>) returns (out: Bytes)
    requires |items| == |offsets|
    ensures out == file + EncRows(items, offsets)
  {
    out := file;
    for i := 0 to |items|
      invariant out == file + EncRows(items[..i], offsets[..i])
    {
      hide EncRow;
      out := out + EncRow(items[i], offsets[i]);
      RowsAppend(items[..i], offsets[..i], items[i], offsets[i]);
      Assoc(file, EncRows(items[..i], offsets[..i]), EncRow(items[i], offsets[i]));
      assert items[..i] + [items[i]] == items[..i + 1] && offsets[..i] + [offsets[i]] == offsets[..i + 1];
    }
    assert items[..|items|] == items && offsets[..|items|] == offsets;
  }

  method WriteData(file: Bytes, items: seq<Named>) returns (out: Bytes)
    ensures out == file + Section(items)
  {
    out := file;
    ghost var datas := Datas(items);
    assert Packed(datas[..0], DATA_ALIGN) == [];
    for i := 0 to |items|
      invariant out == file + Packed(datas[..i], DATA_ALIGN)
    {
      var d := items[i].t.data;
      var aligned := AlignUp(|d|, DATA_ALIGN);
      ghost var before := out;
      out := out + d;
      if aligned > |d| { out := out + Zeros(aligned - |d|); }
      assert out == before + Padded(d, DATA_ALIGN);
      hide Packed, Padded;
      PackedAppend(datas[..i], datas[i], DATA_ALIGN);
      Assoc(file, Packed(datas[..i], DATA_ALIGN), Padded(d, DATA_ALIGN));
      assert datas[..i] + [datas[i]] == datas[..i + 1];
    }
    assert datas[..|items|] == datas;
  }

  method ReadRows(file: Bytes, tableOff: nat, n: nat) returns (table: Option<map<Bytes, Row>>)
    ensures table == TableAt(file, tableOff, n, map[])
  {
    hide RowAt;
    var acc: map<Bytes, Row> := map[];
    var p: nat := tableOff;
    for i := 0 to n
      invariant TableAt(file, tableOff, n, map[]) == TableAt(file, p, n - i, acc)
    {
      if p + ROW_SIZE > |file| { return None; }
      var row := RowAt(file, p);
      acc := acc[row.name := row];
      p := p + ROW_SIZE;
    }
    return Some(acc);
  }

  /** Allocate by the row's shape and type, then read the row's byte count into it. */
  method LoadTensor(file: Bytes, dataOff: nat, table: map<Bytes, Row>, name: Bytes, was: Tensor) returns (one: One)
    ensures one == LoadOne(file, dataOff, table, name, was)
  {
    if name !in table { return Got(was); }
    var row := table[name];
    if row.nDims == 0 || row.nbytes == 0 { return Got(was); }
    var shape: seq<nat> := [];
    var d := 0;
    while d < row.nDims && d < 4 && d < |row.dims|
      invariant d <= row.nDims && d <= 4 && d <= |row.dims| && shape == row.dims[..d]
    {
      shape := shape + [row.dims[d]];
      d := d + 1;
    }
    var size := StorageSize(shape, row.dtype);
    if size == 0 { return Got(Tensor(shape, row.dtype, [])); }
    var at := dataOff + row.offset;
    var got := 0;
    if at <= |file| { got := Min(|file| - at, row.nbytes); }
    if got > size { return Overrun; }
    var data: Bytes := if got == 0 then [] else file[at..at + got];
    data := data + Zeros(size - got);
    return if got < row.nbytes then Short(Tensor(shape, row.dtype, data)) else Got(Tensor(shape, row.dtype, data));
  }
}
