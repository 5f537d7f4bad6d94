/** The file of the merged-weight cache. */
module TvCache {
  // A fixed-size header and table rows, 64-byte aligned data in a 4096-byte aligned section, and loading by name.

  import opened Prelude
  import opened Bytes
  import opened Encoding
  import opened Layout
  import opened Tensors

  const MAGIC: Bytes := [84, 86, 67, 65, 67, 72, 69, 0]
  const VERSION: nat := 1
  const HEADER_SIZE: nat := 256
  const ROW_SIZE: nat := 192
  const NAME_SIZE: nat := 128
  const DATA_ALIGN: nat := 64
  const SECTION_ALIGN: nat := 4096
  const SLOTS: nat := 11

  // ----- names -----

  /** The tensors of a layer in saving order. */
  const SUFFIXES: seq<Bytes> :=
    [ Ascii("attn_norm"), Ascii("attn_q"), Ascii("attn_k"), Ascii("attn_v"), Ascii("attn_output"),
      Ascii("attn_sub_norm"), Ascii("ffn_norm"), Ascii("ffn_gate"), Ascii("ffn_up"), Ascii("ffn_down"),
      Ascii("ffn_sub_norm") ]

  /** The name of the i-th tensor of a model: two model-wide ones, then eleven per layer. */
  function Name(i: nat): Bytes {
    if i == 0 then Ascii("tok_embd")
    else if i == 1 then Ascii("output_norm")
    else BlkName((i - 2) / SLOTS, SUFFIXES[(i - 2) % SLOTS])
  }

  lemma SuffixesDistinct(i: nat, j: nat)
    requires i < j < SLOTS
    ensures SUFFIXES[i] != SUFFIXES[j]
  {
    var s := SUFFIXES;
    assert forall k :: 0 <= k <= 5 ==> s[k][0] == 97;
    assert forall k :: 6 <= k <= 10 ==> s[k][0] == 102;
    assert s[0][5] == 110 && s[1][5] == 113 && s[2][5] == 107 && s[3][5] == 118 && s[4][5] == 111 && s[5][5] == 115;
    assert s[6][4] == 110 && s[7][4] == 103 && s[8][4] == 117 && s[9][4] == 100 && s[10][4] == 115;
  }

  lemma SuffixAt(i: nat, j: nat)
    requires i < SLOTS && j < SLOTS && SUFFIXES[i] == SUFFIXES[j]
    ensures i == j
  {
    if i < j { SuffixesDistinct(i, j); }
    if j < i { SuffixesDistinct(j, i); }
  }

  lemma LayerNameInjective(a: nat, b: nat, s: Bytes, t: Bytes)
    requires s == SUFFIXES[a % SLOTS] && t == SUFFIXES[b % SLOTS] && BlkName(a / SLOTS, s) == BlkName(b / SLOTS, t)
    ensures a == b
  {
    BlkNameInjective(a / SLOTS, s, b / SLOTS, t);
    SuffixAt(a % SLOTS, b % SLOTS);
  }

  lemma GlobalNames()
    ensures Name(0) != Name(1) && |Name(0)| > 0 && |Name(1)| > 0 && Name(0)[0] != BLK[0] && Name(1)[0] != BLK[0]
  {
    assert Name(0)[0] == 116 && Name(1)[0] == 111;
  }

  /** Different tensors have different names. */
  lemma {:induction false} NameInjective(i: nat, j: nat)
    requires i < j
    ensures Name(i) != Name(j)
  {
    hide Ascii, Decimal;
    GlobalNames();
    if j >= 2 {
      var s, t := SUFFIXES[(i - 2) % SLOTS], SUFFIXES[(j - 2) % SLOTS];
      assert BlkName((j - 2) / SLOTS, t)[0] == BLK[0];
      hide BlkName;
      if i >= 2 && Name(i) == Name(j) { LayerNameInjective(i - 2, j - 2, s, t); }
    }
  }

  function Pow10(k: nat): (p: nat)
    ensures p > 0
  {
    if k == 0 then 1 else 10 * Pow10(k - 1)
  }

  lemma {:induction false} DecimalShort(n: nat, k: nat)
    requires k > 0 && n < Pow10(k)
    ensures |Decimal(n)| <= k && 0 !in Decimal(n)
  {
    if n >= 10 { DecimalShort(n / 10, k - 1); }
  }

  /** With fewer than 2^31 tensors every name fits its field and holds no NUL. */
  lemma {:induction false} NameFits(i: nat)
    requires i < 0x8000_0000
    ensures |Name(i)| < NAME_SIZE && 0 !in Name(i)
  {
    if i >= 2 {
      assert Pow10(4) == 10000;
      assert Pow10(8) == 100000000;
      DecimalShort((i - 2) / SLOTS, 10);
      assert |SUFFIXES[(i - 2) % SLOTS]| <= 13 && 0 !in SUFFIXES[(i - 2) % SLOTS] by { SuffixPlain((i - 2) % SLOTS); }
    }
  }

  lemma SuffixPlain(k: nat)
    requires k < SLOTS
    ensures |SUFFIXES[k]| <= 13 && 0 !in SUFFIXES[k]
  {
  }

  // ----- the file -----

  /** A string as C sees it. */
  function UpToNul(s: Bytes): (r: Bytes)
    ensures |r| <= |s|
  {
    if |s| == 0 || s[0] == 0 then [] else [s[0]] + UpToNul(s[1..])
  }

  /** strncpy of at most 127 bytes into a zeroed field. */
  function NameField(s: Bytes): (f: Bytes)
    ensures |f| == NAME_SIZE
  {
    var c := UpToNul(s);
    var d := if |c| < NAME_SIZE then c else c[..NAME_SIZE - 1];
    d + Zeros(NAME_SIZE - |d|)
  }

  lemma {:induction false} UpToNulPadded(s: Bytes, n: nat)
    requires 0 !in s
    ensures UpToNul(s + Zeros(n)) == s && UpToNul(s) == s
  {
    if |s| > 0 {
      assert (s + Zeros(n))[1..] == s[1..] + Zeros(n);
      UpToNulPadded(s[1..], n);
    } else {
      assert s + Zeros(n) == Zeros(n);
    }
  }

  lemma NameFieldReads(s: Bytes)
    requires 0 !in s && |s| < NAME_SIZE
    ensures UpToNul(NameField(s)) == s
  {
    UpToNulPadded(s, NAME_SIZE - |s|);
  }

  function Dim(shape: seq<nat>, d: nat): nat {
    if d < |shape| then shape[d] else 0
  }

  /** Only the first four dimensions are stored. */
  function EncShape(shape: seq<nat>): (b: Bytes)
    ensures |b| == 32
  {
    LE(Dim(shape, 0), 8) + (LE(Dim(shape, 1), 8) + (LE(Dim(shape, 2), 8) + LE(Dim(shape, 3), 8)))
  }

  function EncRow(n: Named, offset: nat): (b: Bytes)
    ensures |b| == ROW_SIZE
  {
    NameField(n.name) + (LE(n.t.dtype, 4) + (LE(|n.t.shape|, 4) + (EncShape(n.t.shape) +
      (LE(offset, 8) + (LE(|n.t.data|, 8) + Zeros(8))))))
  }

  function EncRows(items: seq<Named>, offsets: seq<nat>): (b: Bytes)
    requires |items| == |offsets|
    ensures |b| == ROW_SIZE * |items|
  {
    if |items| == 0 then [] else EncRow(items[0], offsets[0]) + EncRows(items[1..], offsets[1..])
  }

  type Digest = b: Bytes | |b| == 32 witness Zeros(32)

  datatype Key = Key(baseSha: Digest, loraSha: Digest)

  function EncHeader(key: Key, alpha: Float32, rank: nat, n: nat, dataOff: nat, total: nat): (b: Bytes)
    ensures |b| == HEADER_SIZE
  {
    (MAGIC + (LE(VERSION, 4) + (LE(1, 4) + (Zeros(8) + (key.baseSha + (Zeros(8) + key.loraSha))))))
    + (alpha + (LE(rank, 4) + (LE(n, 4) + (LE(HEADER_SIZE, 8) + (LE(dataOff, 8) + (LE(total, 8) + Zeros(124)))))))
  }

  /** What is saved: a tensor with a shape and with data. */
  predicate Present(t: Tensor) { t.shape != [] && t.data != [] }

  /** The present tensors among the first n, with their names. */
  function Items(ws: seq<Tensor>, n: nat): seq<Named>
    requires n <= |ws|
  {
    if n == 0 then []
    else Items(ws, n - 1) + if Present(ws[n - 1]) then [Named(Name(n - 1), ws[n - 1])] else []
  }

  function RowOffsets(items: seq<Named>): (os: seq<nat>)
    ensures |os| == |items|
  {
    Offsets(Datas(items), 0, DATA_ALIGN)
  }

  function DataOffset(n: nat): nat {
    AlignUp(HEADER_SIZE + ROW_SIZE * n, SECTION_ALIGN)
  }

  function Section(items: seq<Named>): Bytes {
    Packed(Datas(items), DATA_ALIGN)
  }

  function HeaderOf(items: seq<Named>, key: Key, alpha: Float32, rank: nat): (b: Bytes)
    ensures |b| == HEADER_SIZE
  {
    EncHeader(key, alpha, rank, |items|, DataOffset(|items|),
              DataOffset(|items|) + EndOffset(Datas(items), 0, DATA_ALIGN))
  }

  function EncFile(items: seq<Named>, key: Key, alpha: Float32, rank: nat): Bytes {
    Padded(HeaderOf(items, key, alpha, rank) + EncRows(items, RowOffsets(items)), SECTION_ALIGN) + Section(items)
  }

  /** The recorded size is the real length, the data section is 4096-aligned and starts behind the table, every region
      starts 64-aligned, and no two regions overlap. */
  lemma {:induction false} FileGeometry(items: seq<Named>, key: Key, alpha: Float32, rank: nat)
    ensures |EncFile(items, key, alpha, rank)| == DataOffset(|items|) + EndOffset(Datas(items), 0, DATA_ALIGN)
    ensures DataOffset(|items|) % SECTION_ALIGN == 0 && DataOffset(|items|) >= HEADER_SIZE + ROW_SIZE * |items|
    ensures forall i :: 0 <= i < |items| ==> RowOffsets(items)[i] % DATA_ALIGN == 0
    ensures forall i, j :: 0 <= i < j < |items| ==> RowOffsets(items)[i] + |items[i].t.data| <= RowOffsets(items)[j]
  {
    hide Offsets, EndOffset, Datas;
    FileLength(items, key, alpha, rank);
    forall i | 0 <= i < |items| ensures RowOffsets(items)[i] % DATA_ALIGN == 0 { RowAligned(items, i); }
    forall i, j | 0 <= i < j < |items| ensures RowOffsets(items)[i] + |items[i].t.data| <= RowOffsets(items)[j] {
      RowsDisjoint(items, i, j);
    }
  }

  lemma {:induction false} FileLength(items: seq<Named>, key: Key, alpha: Float32, rank: nat)
    ensures |EncFile(items, key, alpha, rank)| == DataOffset(|items|) + EndOffset(Datas(items), 0, DATA_ALIGN)
    ensures DataOffset(|items|) % SECTION_ALIGN == 0 && DataOffset(|items|) >= HEADER_SIZE + ROW_SIZE * |items|
  {
    EndIsLength(Datas(items), 0, DATA_ALIGN);
  }

  lemma RowAligned(items: seq<Named>, i: nat)
    requires i < |items|
    ensures RowOffsets(items)[i] % DATA_ALIGN == 0
  {
    OffsetsAligned(Datas(items), 0, DATA_ALIGN, i);
  }

  lemma RowsDisjoint(items: seq<Named>, i: nat, j: nat)
    requires i < j < |items|
    ensures RowOffsets(items)[i] + |items[i].t.data| <= RowOffsets(items)[j]
  {
    RegionsDisjoint(Datas(items), 0, DATA_ALIGN, i, j);
  }

  // ----- loading -----

  datatype Row = Row(name: Bytes, dtype: nat, nDims: nat, dims: seq<nat>, offset: nat, nbytes: nat)

  function ShapeAt(buf: Bytes, p: nat): (dims: seq<nat>)
    requires p + 32 <= |buf|
    ensures |dims| == 4
  {
    [FromLE(buf[p..p + 8]), FromLE(buf[p + 8..p + 16]), FromLE(buf[p + 16..p + 24]), FromLE(buf[p + 24..p + 32])]
  }

  function RowAt(buf: Bytes, p: nat): Row
    requires p + ROW_SIZE <= |buf|
  {
    Row(UpToNul(buf[p..p + 128]), FromLE(buf[p + 128..p + 132]), FromLE(buf[p + 132..p + 136]), ShapeAt(buf, p + 136),
        FromLE(buf[p + 168..p + 176]), FromLE(buf[p + 176..p + 184]))
  }

  /** The table by name, a later row replacing an earlier one; None when the file ends inside it. */
  function TableAt(buf: Bytes, p: nat, n: nat, acc: map<Bytes, Row>): Option<map<Bytes, Row>>
    decreases n
  {
    if n == 0 then Some(acc)
    else if p + ROW_SIZE > |buf| then None
    else TableAt(buf, p + ROW_SIZE, n - 1, acc[RowAt(buf, p).name := RowAt(buf, p)])
  }

  /** The outcome for one tensor: its new value and whether loading goes on. A short read leaves the tensor partly
      filled; reading more bytes than were allocated would overrun the buffer. */
  datatype One = Got(t: Tensor) | Short(t: Tensor) | Overrun

  function Min(a: nat, b: nat): nat { if a <= b then a else b }

  function LoadOne(buf: Bytes, dataOff: nat, table: map<Bytes, Row>, name: Bytes, was: Tensor): One {
    if name !in table || table[name].nDims == 0 || table[name].nbytes == 0 then Got(was)
    else
      var row := table[name];
      var shape := row.dims[..Min(Min(row.nDims, 4), |row.dims|)];
      var size, at := StorageSize(shape, row.dtype), dataOff + row.offset;
      var got := if at <= |buf| then Min(|buf| - at, row.nbytes) else 0;
      if size == 0 then Got(Tensor(shape, row.dtype, []))
      else if got > size then Overrun
      else
        var data := (if got == 0 then [] else buf[at..at + got]) + Zeros(size - got);
        if got < row.nbytes then Short(Tensor(shape, row.dtype, data)) else Got(Tensor(shape, row.dtype, data))
  }

  datatype Status = Complete | Failed | Crashed

  /** All tensors from the i-th on, one after the other. */
  function LoadFrom(buf: Bytes, dataOff: nat, table: map<Bytes, Row>, ws: seq<Tensor>,
                    i: nat): (r: (Status, seq<Tensor>))
    requires i <= |ws|
    ensures |r.1| == |ws|
    decreases |ws| - i
  {
    if i == |ws| then (Complete, ws)
    else match LoadOne(buf, dataOff, table, Name(i), ws[i])
      case Got(t) => LoadFrom(buf, dataOff, table, ws[i := t], i + 1)
      case Short(t) => (Failed, ws[i := t])
      case Overrun => (Crashed, ws)
  }

  datatype Lora = Lora(alpha: Float32, rank: int, active: bool)

  datatype Outcome = Outcome(status: Status, ws: seq<Tensor>, lora: Lora)

  /** The stored rank is an unsigned word, the model's a signed one. */
  function Signed32(v: nat): int { if v < 0x8000_0000 then v else v - 0x1_0000_0000 }

  function Unsigned32(v: int): (u: nat)
    ensures u < 0x1_0000_0000
    ensures -0x8000_0000 <= v < 0x8000_0000 ==> Signed32(u) == v && (u == 0 <==> v == 0)
  {
    v % 0x1_0000_0000
  }

  function Load(buf: Bytes, ws: seq<Tensor>, lora: Lora): Outcome {
    if |buf| < HEADER_SIZE || buf[..8] != MAGIC || FromLE(buf[8..12]) != VERSION then Outcome(Failed, ws, lora)
    else
      var table := TableAt(buf, FromLE(buf[108..116]), FromLE(buf[104..108]), map[]);
      if table.None? then Outcome(Failed, ws, lora)
      else
        var (status, ws') := LoadFrom(buf, FromLE(buf[116..124]), table.value, ws, 0);
        var rank := FromLE(buf[100..104]);
        Outcome(status, ws', if status.Complete? then Lora(buf[96..100], Signed32(rank), rank > 0) else lora)
  }

  // ----- reading back what was written -----

  ghost predicate Storable(t: Tensor) {
    && |t.data| == StorageSize(t.shape, t.dtype) && t.dtype < 0x1_0000_0000 && |t.shape| < 0x1_0000_0000
    && forall i :: 0 <= i < |t.shape| ==> t.shape[i] < 0x8000_0000_0000_0000
  }

  function RowOf(n: Named, offset: nat): Row {
    Row(n.name, n.t.dtype, |n.t.shape|, [Dim(n.t.shape, 0), Dim(n.t.shape, 1), Dim(n.t.shape, 2), Dim(n.t.shape, 3)],
        offset, |n.t.data|)
  }

  lemma ShapeReads(buf: Bytes, p: nat, shape: seq<nat>)
    requires HasAt(buf, p, EncShape(shape))
    requires forall i :: 0 <= i < |shape| ==> shape[i] < 0x8000_0000_0000_0000
    ensures p + 32 <= |buf| && ShapeAt(buf, p) == [Dim(shape, 0), Dim(shape, 1), Dim(shape, 2), Dim(shape, 3)]
  {
    hide LE, FromLE;
    var a, b, c, d := LE(Dim(shape, 0), 8), LE(Dim(shape, 1), 8), LE(Dim(shape, 2), 8), LE(Dim(shape, 3), 8);
    HasAtConcat(buf, p, a, b + (c + d));
    HasAtConcat(buf, p + 8, b, c + d);
    HasAtConcat(buf, p + 16, c, d);
    WidthOf8();
    FieldReads(buf, p, Dim(shape, 0), 8);
    FieldReads(buf, p + 8, Dim(shape, 1), 8);
    FieldReads(buf, p + 16, Dim(shape, 2), 8);
    FieldReads(buf, p + 24, Dim(shape, 3), 8);
  }

  lemma RowFields(buf: Bytes, p: nat, n: Named, offset: nat)
    requires HasAt(buf, p, EncRow(n, offset))
    ensures p + ROW_SIZE <= |buf|
    ensures HasAt(buf, p, NameField(n.name)) && HasAt(buf, p + 128, LE(n.t.dtype, 4))
    ensures HasAt(buf, p + 132, LE(|n.t.shape|, 4)) && HasAt(buf, p + 136, EncShape(n.t.shape))
    ensures HasAt(buf, p + 168, LE(offset, 8)) && HasAt(buf, p + 176, LE(|n.t.data|, 8))
  {
    var a, b, c, d := NameField(n.name), LE(n.t.dtype, 4), LE(|n.t.shape|, 4), EncShape(n.t.shape);
    var e, f := LE(offset, 8), LE(|n.t.data|, 8);
    assert EncRow(n, offset) == a + (b + (c + (d + (e + (f + Zeros(8))))));
    hide EncRow, NameField, LE, EncShape;
    HasAtConcat(buf, p, a, b + (c + (d + (e + (f + Zeros(8))))));
    HasAtConcat(buf, p + 128, b, c + (d + (e + (f + Zeros(8)))));
    HasAtConcat(buf, p + 132, c, d + (e + (f + Zeros(8))));
    HasAtConcat(buf, p + 136, d, e + (f + Zeros(8)));
    HasAtConcat(buf, p + 168, e, f + Zeros(8));
    HasAtConcat(buf, p + 176, f, Zeros(8));
  }

  lemma RowReads(buf: Bytes, p: nat, n: Named, offset: nat)
    requires HasAt(buf, p, EncRow(n, offset)) && FitsU64(buf) && Storable(n.t) && offset <= |buf| && |n.t.data| <= |buf|
    requires 0 !in n.name && |n.name| < NAME_SIZE
    ensures p + ROW_SIZE <= |buf| && RowAt(buf, p) == RowOf(n, offset)
  {
    hide LE, FromLE, NameField, EncShape, ShapeAt, EncRow, UpToNul;
    RowFields(buf, p, n, offset);
    NameFieldReads(n.name);
    WidthOf4();
    WidthOf8();
    FieldReads(buf, p + 128, n.t.dtype, 4);
    FieldReads(buf, p + 132, |n.t.shape|, 4);
    ShapeReads(buf, p + 136, n.t.shape);
    FieldReads(buf, p + 168, offset, 8);
    FieldReads(buf, p + 176, |n.t.data|, 8);
  }

  ghost predicate GoodItem(buf: Bytes, n: Named, offset: nat) {
    && Storable(n.t) && 0 !in n.name && |n.name| < NAME_SIZE && offset <= |buf| && |n.t.data| <= |buf|
  }

  function Fold(acc: map<Bytes, Row>, items: seq<Named>, offsets: seq<nat>): map<Bytes, Row>
    requires |items| == |offsets|
    decreases items
  {
    if |items| == 0 then acc
    else Fold(acc[items[0].name := RowOf(items[0], offsets[0])], items[1..], offsets[1..])
  }

  lemma {:induction false} TableReads(buf: Bytes, p: nat, items: seq<Named>, offsets: seq<nat>, acc: map<Bytes, Row>)
    requires |items| == |offsets| && HasAt(buf, p, EncRows(items, offsets)) && FitsU64(buf)
    requires forall i :: 0 <= i < |items| ==> GoodItem(buf, items[i], offsets[i])
    ensures TableAt(buf, p, |items|, acc) == Some(Fold(acc, items, offsets))
    decreases items
  {
    if |items| > 0 {
      hide EncRow, RowAt, RowOf, HasAt;
      HasAtConcat(buf, p, EncRow(items[0], offsets[0]), EncRows(items[1..], offsets[1..]));
      RowReads(buf, p, items[0], offsets[0]);
      assert RowAt(buf, p).name == items[0].name by { RowName(items[0], offsets[0]); }
      TableReads(buf, p + ROW_SIZE, items[1..], offsets[1..], acc[items[0].name := RowOf(items[0], offsets[0])]);
    }
  }

  lemma RowName(n: Named, offset: nat)
    ensures RowOf(n, offset).name == n.name
  {
  }

  // ----- looking tensors up -----

  lemma {:induction false} FoldKeeps(acc: map<Bytes, Row>, items: seq<Named>, offsets: seq<nat>, name: Bytes)
    requires |items| == |offsets| && forall k :: 0 <= k < |items| ==> items[k].name != name
    ensures name in Fold(acc, items, offsets) <==> name in acc
    ensures name in acc ==> Fold(acc, items, offsets)[name] == acc[name]
    decreases items
  {
    if |items| > 0 {
      hide RowOf;
      FoldKeeps(acc[items[0].name := RowOf(items[0], offsets[0])], items[1..], offsets[1..], name);
    }
  }

  lemma {:induction false} FoldFinds(acc: map<Bytes, Row>, items: seq<Named>, offsets: seq<nat>, k: nat)
    requires |items| == |offsets| && k < |items| && Distinct(items)
    ensures items[k].name in Fold(acc, items, offsets)
    ensures Fold(acc, items, offsets)[items[k].name] == RowOf(items[k], offsets[k])
    decreases items
  {
    hide RowOf;
    var acc' := acc[items[0].name := RowOf(items[0], offsets[0])];
    if k == 0 {
      FoldKeeps(acc', items[1..], offsets[1..], items[0].name);
    } else {
      FoldFinds(acc', items[1..], offsets[1..], k - 1);
    }
  }

  /** Every item is a present tensor under its own name. */
  lemma {:induction false} ItemsAre(ws: seq<Tensor>, n: nat, k: nat) returns (j: nat)
    requires n <= |ws| && k < |Items(ws, n)|
    ensures j < n && Present(ws[j]) && Items(ws, n)[k] == Named(Name(j), ws[j])
    ensures |Items(ws, j)| == k
  {
    if k < |Items(ws, n - 1)| { j := ItemsAre(ws, n - 1, k); } else { j := n - 1; }
  }

  lemma {:induction false} ItemsHave(ws: seq<Tensor>, n: nat, i: nat)
    requires i < n <= |ws| && Present(ws[i])
    ensures |Items(ws, i)| < |Items(ws, n)| && Items(ws, n)[|Items(ws, i)|] == Named(Name(i), ws[i])
  {
    if i < n - 1 { ItemsHave(ws, n - 1, i); }
  }

  lemma ItemsDistinct(ws: seq<Tensor>)
    ensures Distinct(Items(ws, |ws|))
  {
    hide Name;
    var items := Items(ws, |ws|);
    forall a, b | 0 <= a < b < |items| ensures items[a].name != items[b].name {
      var i := ItemsAre(ws, |ws|, a);
      var j := ItemsAre(ws, |ws|, b);
      if i < j { NameInjective(i, j); }
      if j < i { NameInjective(j, i); }
    }
  }

  /** An absent tensor has no row. */
  lemma AbsentHasNoRow(ws: seq<Tensor>, i: nat)
    requires i < |ws| && !Present(ws[i])
    ensures forall k :: 0 <= k < |Items(ws, |ws|)| ==> Items(ws, |ws|)[k].name != Name(i)
  {
    hide Name;
    forall k | 0 <= k < |Items(ws, |ws|)| ensures Items(ws, |ws|)[k].name != Name(i) {
      var j := ItemsAre(ws, |ws|, k);
      if i < j { NameInjective(i, j); }
      if j < i { NameInjective(j, i); }
    }
  }

  // ----- save, then load -----

  function SaveFile(ws: seq<Tensor>, key: Key, alpha: Float32, rank: nat): Bytes {
    EncFile(Items(ws, |ws|), key, alpha, rank)
  }

  ghost predicate Savable(ws: seq<Tensor>) {
    |ws| < 0x8000_0000 && forall i :: 0 <= i < |ws| && Present(ws[i]) ==> Storable(ws[i])
  }

  /** Present tensors as saved, absent ones as they were in the model loaded into. */
  function Merged(ws: seq<Tensor>, was: seq<Tensor>): (r: seq<Tensor>)
    requires |ws| == |was|
    ensures |r| == |ws|
  {
    seq(|ws|, i requires 0 <= i < |ws| => if Present(ws[i]) then ws[i] else was[i])
  }

  ghost predicate FourDims(ws: seq<Tensor>) {
    forall i :: 0 <= i < |ws| && Present(ws[i]) ==> |ws[i].shape| <= 4
  }

  lemma HeaderReads(buf: Bytes, key: Key, alpha: Float32, rank: nat, n: nat, dataOff: nat, total: nat)
    requires HasAt(buf, 0, EncHeader(key, alpha, rank, n, dataOff, total))
    requires rank < 0x1_0000_0000 && n < 0x1_0000_0000 && dataOff < 0x1_0000_0000_0000_0000
    ensures |buf| >= HEADER_SIZE && buf[..8] == MAGIC && FromLE(buf[8..12]) == VERSION
    ensures buf[96..100] == alpha && FromLE(buf[100..104]) == rank && FromLE(buf[104..108]) == n
    ensures FromLE(buf[108..116]) == HEADER_SIZE && FromLE(buf[116..124]) == dataOff
  {
    HeaderFields(buf, key, alpha, rank, n, dataOff, total);
    hide LE, FromLE, EncHeader;
    WidthOf4();
    WidthOf8();
    FieldReads(buf, 8, VERSION, 4);
    FieldReads(buf, 100, rank, 4);
    FieldReads(buf, 104, n, 4);
    FieldReads(buf, 108, HEADER_SIZE, 8);
    FieldReads(buf, 116, dataOff, 8);
    assert buf[0..8] == buf[..8];
  }

  lemma HeaderFields(buf: Bytes, key: Key, alpha: Float32, rank: nat, n: nat, dataOff: nat, total: nat)
    requires HasAt(buf, 0, EncHeader(key, alpha, rank, n, dataOff, total))
    ensures HasAt(buf, 0, MAGIC) && HasAt(buf, 8, LE(VERSION, 4)) && HasAt(buf, 96, alpha)
    ensures HasAt(buf, 100, LE(rank, 4)) && HasAt(buf, 104, LE(n, 4)) && HasAt(buf, 108, LE(HEADER_SIZE, 8))
    ensures HasAt(buf, 116, LE(dataOff, 8)) && HEADER_SIZE <= |buf|
  {
    var h := LE(VERSION, 4) + (LE(1, 4) + (Zeros(8) + (key.baseSha + (Zeros(8) + key.loraSha))));
    var last := LE(total, 8) + Zeros(124);
    var a, b, c, d, e: Bytes := alpha, LE(rank, 4), LE(n, 4), LE(HEADER_SIZE, 8), LE(dataOff, 8);
    assert EncHeader(key, alpha, rank, n, dataOff, total) == (MAGIC + h) + (a + (b + (c + (d + (e + last)))));
    assert |MAGIC + h| == 96;
    HasAtConcat(buf, 0, MAGIC + h, a + (b + (c + (d + (e + last)))));
    HasAtConcat(buf, 0, MAGIC, h);
    HasAtConcat(buf, 8, LE(VERSION, 4), LE(1, 4) + (Zeros(8) + (key.baseSha + (Zeros(8) + key.loraSha))));
    hide EncHeader, LE;
    HasAtConcat(buf, 96, a, b + (c + (d + (e + last))));
    HasAtConcat(buf, 100, b, c + (d + (e + last)));
    HasAtConcat(buf, 104, c, d + (e + last));
    HasAtConcat(buf, 108, d, e + last);
    HasAtConcat(buf, 116, e, last);
  }

  /** Where the parts of the file lie. */
  lemma FileParts(items: seq<Named>, key: Key, alpha: Float32, rank: nat)
    ensures var buf := EncFile(items, key, alpha, rank);
      && HasAt(buf, 0, HeaderOf(items, key, alpha, rank)) && HasAt(buf, HEADER_SIZE, EncRows(items, RowOffsets(items)))
      && HasAt(buf, DataOffset(|items|), Section(items))
  {
    hide HeaderOf, EncRows, Section, Padded, HasAt, RowOffsets, AlignUp;
    var head, rows := HeaderOf(items, key, alpha, rank), EncRows(items, RowOffsets(items));
    assert |head| + |rows| == HEADER_SIZE + ROW_SIZE * |items|;
    assert EncFile(items, key, alpha, rank) == Padded(head + rows, SECTION_ALIGN) + Section(items);
    ThreeParts(head, rows, Section(items), SECTION_ALIGN);
  }

  /** Each item's data lies at its recorded place. */
  lemma DataPlaced(items: seq<Named>, key: Key, alpha: Float32, rank: nat, k: nat)
    requires k < |items|
    ensures HasAt(EncFile(items, key, alpha, rank), DataOffset(|items|) + RowOffsets(items)[k], items[k].t.data)
  {
    FileParts(items, key, alpha, rank);
    hide EncFile;
    RegionAt(EncFile(items, key, alpha, rank), DataOffset(|items|), Datas(items), 0, DATA_ALIGN, k);
  }

  lemma ItemGood(ws: seq<Tensor>, key: Key, alpha: Float32, rank: nat, k: nat)
    requires Savable(ws) && k < |Items(ws, |ws|)|
    ensures GoodItem(SaveFile(ws, key, alpha, rank), Items(ws, |ws|)[k], RowOffsets(Items(ws, |ws|))[k])
  {
    var items := Items(ws, |ws|);
    hide EncFile, Name, Items;
    DataPlaced(items, key, alpha, rank, k);
    var i := ItemsAre(ws, |ws|, k);
    NameFits(i);
  }

  /** The table read back, by name. */
  function SavedTable(ws: seq<Tensor>): map<Bytes, Row> {
    Fold(map[], Items(ws, |ws|), RowOffsets(Items(ws, |ws|)))
  }

  lemma SavedTableReads(ws: seq<Tensor>, key: Key, alpha: Float32, rank: nat)
    requires Savable(ws) && FitsU64(SaveFile(ws, key, alpha, rank))
    ensures TableAt(SaveFile(ws, key, alpha, rank), HEADER_SIZE, |Items(ws, |ws|)|, map[]) == Some(SavedTable(ws))
  {
    var items := Items(ws, |ws|);
    var buf := SaveFile(ws, key, alpha, rank);
    forall k | 0 <= k < |items| ensures GoodItem(buf, items[k], RowOffsets(items)[k]) {
      ItemGood(ws, key, alpha, rank, k);
    }
    FileParts(items, key, alpha, rank);
    hide EncFile, Items, GoodItem, HeaderOf, Section;
    TableReads(buf, HEADER_SIZE, items, RowOffsets(items), map[]);
  }

  lemma PresentRow(ws: seq<Tensor>, i: nat)
    requires i < |ws| && Present(ws[i])
    ensures var items := Items(ws, |ws|);
      && |Items(ws, i)| < |items| && items[|Items(ws, i)|].t == ws[i]
      && Name(i) in SavedTable(ws)
      && SavedTable(ws)[Name(i)] == RowOf(Named(Name(i), ws[i]), RowOffsets(items)[|Items(ws, i)|])
  {
    hide Name, RowOf;
    ItemsHave(ws, |ws|, i);
    ItemsDistinct(ws);
    FoldFinds(map[], Items(ws, |ws|), RowOffsets(Items(ws, |ws|)), |Items(ws, i)|);
  }

  lemma ShapeTruncates(shape: seq<nat>)
    ensures var dims := [Dim(shape, 0), Dim(shape, 1), Dim(shape, 2), Dim(shape, 3)];
      dims[..Min(Min(|shape|, 4), |dims|)] == shape <==> |shape| <= 4
  {
  }

  /** Loading one row of the saved file gives the tensor back exactly when it has at most four dimensions. */
  lemma RowLoads(buf: Bytes, dataOff: nat, table: map<Bytes, Row>, name: Bytes, t: Tensor, offset: nat, was: Tensor)
    requires Present(t) && Storable(t) && HasAt(buf, dataOff + offset, t.data)
    requires name in table && table[name] == RowOf(Named(name, t), offset)
    ensures LoadOne(buf, dataOff, table, name, was) == Got(t) <==> |t.shape| <= 4
  {
    ShapeTruncates(t.shape);
    hide StorageSize, FromLE;
    assert t.data + Zeros(0) == t.data;
  }

  lemma {:induction false} TensorLoads(ws: seq<Tensor>, key: Key, alpha: Float32, rank: nat, i: nat, was: Tensor)
    requires Savable(ws) && i < |ws|
    ensures var one := LoadOne(SaveFile(ws, key, alpha, rank), DataOffset(|Items(ws, |ws|)|), SavedTable(ws), Name(i),
                               was);
      && (Present(ws[i]) ==> (one == Got(ws[i]) <==> |ws[i].shape| <= 4))
      && (!Present(ws[i]) ==> one == Got(was))
  {
    var items, buf := Items(ws, |ws|), SaveFile(ws, key, alpha, rank);
    if Present(ws[i]) {
      PresentRow(ws, i);
      var k := |Items(ws, i)|;
      DataPlaced(items, key, alpha, rank, k);
      hide EncFile, Items, Name, SavedTable, LoadOne, RowOf, HasAt;
      RowLoads(buf, DataOffset(|items|), SavedTable(ws), Name(i), ws[i], RowOffsets(items)[k], was);
    } else {
      AbsentHasNoRow(ws, i);
      FoldKeeps(map[], items, RowOffsets(items), Name(i));
    }
  }

  lemma {:induction false} LoadFromKeeps(buf: Bytes, dataOff: nat, table: map<Bytes, Row>, ws: seq<Tensor>, i: nat,
                                         j: nat)
    requires j < i <= |ws|
    ensures LoadFrom(buf, dataOff, table, ws, i).1[j] == ws[j]
    decreases |ws| - i
  {
    hide LoadOne, Name;
    if i < |ws| {
      var one := LoadOne(buf, dataOff, table, Name(i), ws[i]);
      if one.Got? {
        var next := ws[i := one.t];
        assert next[j] == ws[j];
        LoadFromKeeps(buf, dataOff, table, next, i + 1, j);
      }
    }
  }

  ghost predicate FourDimsFrom(ws: seq<Tensor>, i: nat) {
    forall j :: i <= j < |ws| && Present(ws[j]) ==> |ws[j].shape| <= 4
  }

  /** The loading loop, from the i-th tensor on. */
  lemma {:induction false} LoopLoads(ws: seq<Tensor>, was: seq<Tensor>, key: Key, alpha: Float32, rank: nat, i: nat)
    requires Savable(ws) && |was| == |ws| && i <= |ws|
    ensures var now := Merged(ws, was)[..i] + was[i..];
      var r := LoadFrom(SaveFile(ws, key, alpha, rank), DataOffset(|Items(ws, |ws|)|), SavedTable(ws), now, i);
      r == (Complete, Merged(ws, was)) <==> FourDimsFrom(ws, i)
    decreases |ws| - i
  {
    hide SaveFile, SavedTable, LoadOne, Name, Items, Savable, Present;
    var buf, off, table := SaveFile(ws, key, alpha, rank), DataOffset(|Items(ws, |ws|)|), SavedTable(ws);
    var goal := Merged(ws, was);
    var now := goal[..i] + was[i..];
    if i == |ws| {
      assert now == goal;
    } else {
      TensorLoads(ws, key, alpha, rank, i, was[i]);
      var one := LoadOne(buf, off, table, Name(i), was[i]);
      assert now[i] == was[i];
      if one.Got? {
        LoadFromKeeps(buf, off, table, now[i := one.t], i + 1, i);
        assert one.t == goal[i] ==> now[i := one.t] == goal[..i + 1] + was[i + 1..];
      }
      LoopLoads(ws, was, key, alpha, rank, i + 1);
      assert FourDimsFrom(ws, i) <==> (Present(ws[i]) ==> |ws[i].shape| <= 4) && FourDimsFrom(ws, i + 1);
    }
  }

  /** Loading what was saved restores every saved tensor's shape, type and bytes, leaves absent tensors as they were,
      and restores the adapter settings, if and only if no saved tensor has more than four dimensions. */
  lemma {:induction false} SaveThenLoad(ws: seq<Tensor>, was: seq<Tensor>, key: Key, alpha: Float32, rank: nat,
                                        lora: Lora)
    requires Savable(ws) && |was| == |ws| && rank < 0x1_0000_0000 && FitsU64(SaveFile(ws, key, alpha, rank))
    ensures var r := Load(SaveFile(ws, key, alpha, rank), was, lora);
      r == Outcome(Complete, Merged(ws, was), Lora(alpha, Signed32(rank), rank > 0)) <==> FourDims(ws)
  {
    hide EncFile, Items, LoadFrom, TableAt, EncHeader, FromLE, Present, HasAt, EncRows, Section, RowOffsets, Merged,
      FitsU64;
    var items, buf := Items(ws, |ws|), SaveFile(ws, key, alpha, rank);
    ItemsFew(ws, |ws|);
    FileParts(items, key, alpha, rank);
    HeaderReads(buf, key, alpha, rank, |items|, DataOffset(|items|),
                DataOffset(|items|) + EndOffset(Datas(items), 0, DATA_ALIGN));
    SavedTableReads(ws, key, alpha, rank);
    LoopLoads(ws, was, key, alpha, rank, 0);
    assert Merged(ws, was)[..0] + was[0..] == was;
  }

  lemma {:induction false} ItemsFew(ws: seq<Tensor>, n: nat)
    requires n <= |ws|
    ensures |Items(ws, n)| <= n
  {
    if n > 0 { ItemsFew(ws, n - 1); }
  }
}
