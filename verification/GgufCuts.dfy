/** Truncated files. */
module GgufCuts {
  // A written file of which only the first L bytes arrived, cut inside or behind the tensor table: exactly which cuts
  // make the parser read past its buffer.

  import opened Prelude
  import opened Bytes
  import opened Encoding
  import opened Layout
  import opened Tensors
  import opened GgufValues
  import opened GgufFormat

  lemma CutHas(whole: Bytes, p: nat, x: Bytes, L: nat)
    requires HasAt(whole, p, x) && p + |x| <= L <= |whole|
    ensures HasAt(whole[..L], p, x)
  {
    assert whole[..L][p..p + |x|] == whole[p..p + |x|];
  }

  /** A string is read whole or not at all. */
  lemma StringOfCut(whole: Bytes, p: nat, s: Bytes, L: nat)
    requires HasAt(whole, p, EncString(s)) && FitsU64(whole) && p <= L <= |whole|
    ensures if L >= p + |EncString(s)| then StringAt(whole[..L], p) == (Some(s), p + |EncString(s)|)
            else StringAt(whole[..L], p).0.None?
  {
    if L >= p + |EncString(s)| {
      CutHas(whole, p, EncString(s), L);
      StringReads(whole[..L], p, s);
    } else if L >= p + 8 {
      HasAtConcat(whole, p, LE(|s|, 8), s);
      CutHas(whole, p, LE(|s|, 8), L);
      WidthOf8();
      FieldReads(whole[..L], p, |s|, 8);
    }
  }

  /** One row: whole once its last byte is there, read past the end in the last four bytes before, given up before
      that. */
  lemma {:induction false} RowOfCut(whole: Bytes, p: nat, n: Named, offset: nat, L: nat)
    requires HasAt(whole, p, EncEntry(n, offset)) && FitsU64(whole) && ShapeFits(n) && offset < 0x1_0000_0000_0000_0000
    requires |n.t.shape| <= MAX_DIMS && p <= L <= |whole|
    ensures var e := p + |EncEntry(n, offset)|;
      if L >= e then RowAt(whole[..L], p) == Row(InfoOf(n, offset), e)
      else if L >= e - 4 then RowAt(whole[..L], p) == PastEnd
      else RowAt(whole[..L], p).Stopped?
  {
    hide EncEntry, EncString, HasAt, StringAt, DimsAt, FromLE, LE, EncDims;
    var e, q, d := p + |EncEntry(n, offset)|, p + |EncString(n.name)|, |n.t.shape|;
    EntryFields(whole, p, n, offset);
    if L >= e {
      CutHas(whole, p, EncEntry(n, offset), L);
      EntryReads(whole[..L], p, n, offset);
    } else {
      StringOfCut(whole, p, n.name, L);
      if L >= q + 4 {
        CutHas(whole, q, LE(d, 4), L);
        WidthOf4();
        FieldReads(whole[..L], q, d, 4);
      }
    }
  }

  /** Where row i of a table at p ends. */
  function RowEnd(p: nat, items: seq<Named>, offsets: seq<nat>, i: nat): (e: nat)
    requires |items| == |offsets| && i < |items|
    ensures e >= p
    decreases i
  {
    var first := p + |EncEntry(items[0], offsets[0])|;
    if i == 0 then first else RowEnd(first, items[1..], offsets[1..], i - 1)
  }

  /** The cut falls into the last four bytes of some row. */
  ghost predicate CutsRow(p: nat, items: seq<Named>, offsets: seq<nat>, L: nat)
    requires |items| == |offsets|
  {
    exists i: nat :: i < |items| && RowEnd(p, items, offsets, i) - 4 <= L < RowEnd(p, items, offsets, i)
  }

  lemma CutsRowStep(p: nat, items: seq<Named>, offsets: seq<nat>, L: nat)
    requires |items| == |offsets| > 0
    ensures var first := p + |EncEntry(items[0], offsets[0])|;
      CutsRow(p, items, offsets, L) <==> first - 4 <= L < first || CutsRow(first, items[1..], offsets[1..], L)
  {
    hide EncEntry;
    var first := p + |EncEntry(items[0], offsets[0])|;
    if i: nat :| i < |items| && RowEnd(p, items, offsets, i) - 4 <= L < RowEnd(p, items, offsets, i) {
      if i > 0 { assert RowEnd(first, items[1..], offsets[1..], i - 1) == RowEnd(p, items, offsets, i); }
    }
    var rest, later := items[1..], offsets[1..];
    if i: nat :| i < |rest| && RowEnd(first, rest, later, i) - 4 <= L < RowEnd(first, rest, later, i) {
      assert RowEnd(p, items, offsets, i + 1) == RowEnd(first, rest, later, i);
    }
    assert RowEnd(p, items, offsets, 0) == first;
  }

  /** Rows behind the cut end well behind it. */
  lemma {:induction false} LaterRows(p: nat, items: seq<Named>, offsets: seq<nat>, L: nat)
    requires |items| == |offsets| && L <= p
    ensures !CutsRow(p, items, offsets, L)
  {
    forall i: nat | i < |items| ensures RowEnd(p, items, offsets, i) > L + 4 { RowIsLong(p, items, offsets, i); }
  }

  lemma {:induction false} RowIsLong(p: nat, items: seq<Named>, offsets: seq<nat>, i: nat)
    requires |items| == |offsets| && i < |items|
    ensures RowEnd(p, items, offsets, i) >= p + 16
    decreases i
  {
    if i > 0 { RowIsLong(p + |EncEntry(items[0], offsets[0])|, items[1..], offsets[1..], i - 1); }
  }

  lemma NoRows(p: nat, items: seq<Named>, offsets: seq<nat>, L: nat)
    requires |items| == |offsets| == 0
    ensures !CutsRow(p, items, offsets, L)
  {
  }

  lemma TableStep(buf: Bytes, p: nat, n: nat)
    requires p < |buf|
    ensures RowAt(buf, p).PastEnd? ==> TableAt(buf, p, n + 1).None?
    ensures RowAt(buf, p).Stopped? ==> TableAt(buf, p, n + 1).Some?
    ensures RowAt(buf, p).Row? ==> (TableAt(buf, p, n + 1).None? <==> TableAt(buf, RowAt(buf, p).next, n).None?)
  {
    hide RowAt;
  }

  lemma {:induction false} TableOfCut(whole: Bytes, p: nat, items: seq<Named>, offsets: seq<nat>, L: nat)
    requires |items| == |offsets| && HasAt(whole, p, EncTable(items, offsets)) && FitsU64(whole)
    requires Storable(items) && FewDims(items) && p <= L <= |whole|
    requires forall i :: 0 <= i < |offsets| ==> offsets[i] < 0x1_0000_0000_0000_0000
    ensures TableAt(whole[..L], p, |items|).None? <==> CutsRow(p, items, offsets, L)
    decreases items
  {
    hide RowAt, EncEntry, EncString, HasAt, CutsRow, RowEnd;
    if |items| == 0 {
      NoRows(p, items, offsets, L);
    } else {
      if p == L {
        LaterRows(p, items, offsets, L);
      } else {
        var e, rest := EncEntry(items[0], offsets[0]), EncTable(items[1..], offsets[1..]);
        assert EncTable(items, offsets) == e + rest;
        var first := p + |e|;
        hide EncTable, TableAt;
        HasAtConcat(whole, p, e, rest);
        FewDimsStep(items);
        RowOfCut(whole, p, items[0], offsets[0], L);
        CutsRowStep(p, items, offsets, L);
        TableStep(whole[..L], p, |items| - 1);
        if L >= first {
          EntryFields(whole, p, items[0], offsets[0]);
          TableOfCut(whole, first, items[1..], offsets[1..], L);
        } else {
          LaterRows(first, items[1..], offsets[1..], L);
        }
      }
    }
  }

  lemma CutHeader(kvs: seq<KeyValue>, items: seq<Named>, L: nat)
    requires AllWritable(kvs) && FitsU64(EncFile(kvs, items))
    requires 24 + |EncPairs(kvs)| <= L <= |EncFile(kvs, items)|
    ensures var buf := EncFile(kvs, items)[..L];
      && |buf| >= 24 && FromLE(buf[0..4]) == MAGIC && FromLE(buf[4..8]) == VERSION
      && FromLE(buf[8..16]) == |items| && FromLE(buf[16..24]) == |kvs| && HasAt(buf, 24, EncPairs(kvs))
  {
    hide EncHeader, EncPairs, EncTable, EncFile, EncFront, FromLE, HasAt, Packed;
    FileParts(kvs, items);
    PairsLonger(kvs);
    TableLonger(items, PlanOffsets(items));
    CutHas(EncFile(kvs, items), 0, EncHeader(|items|, |kvs|), L);
    CutHas(EncFile(kvs, items), 24, EncPairs(kvs), L);
    HeaderReads(EncFile(kvs, items)[..L], |items|, |kvs|);
  }

  /** Cutting a written file anywhere at or behind the end of its metadata makes the parser read past the buffer if and
      only if the cut falls into the last four bytes of a row of the tensor table; otherwise it loads a shorter file. */
  lemma {:induction false} CutCrashes(kvs: seq<KeyValue>, items: seq<Named>, L: nat)
    requires AllWellFormed(kvs) && AllWritable(kvs) && Storable(items) && FewDims(items) && FitsU64(EncFile(kvs, items))
    requires ALIGNMENT_KEY !in Fold(map[], kvs) && 24 + |EncPairs(kvs)| <= L <= |EncFile(kvs, items)|
    ensures var p := 24 + |EncPairs(kvs)|;
      && (Parse(EncFile(kvs, items)[..L]) == Crashed <==> CutsRow(p, items, PlanOffsets(items), L))
      && !Parse(EncFile(kvs, items)[..L]).Rejected?
  {
    hide EncPairs, EncTable, EncFront, EncFile, MetadataAt, TableAt, HasAt, AllWellFormed, AllWritable, Fold, FromLE,
      FewDims, Storable, PlanOffsets, CutsRow, Packed;
    var whole, p := EncFile(kvs, items), 24 + |EncPairs(kvs)|;
    CutHeader(kvs, items, L);
    PairsRead(whole[..L], 24, kvs, map[]);
    FileParts(kvs, items);
    AllOffsetsFit(kvs, items);
    TableOfCut(whole, p, items, PlanOffsets(items), L);
  }

  /** Every non-empty table has such a cut. */
  lemma SomeCutCrashes(kvs: seq<KeyValue>, items: seq<Named>)
    requires AllWellFormed(kvs) && AllWritable(kvs) && Storable(items) && FewDims(items) && FitsU64(EncFile(kvs, items))
    requires ALIGNMENT_KEY !in Fold(map[], kvs) && items != []
    ensures exists L: nat :: L <= |EncFile(kvs, items)| && Parse(EncFile(kvs, items)[..L]) == Crashed
  {
    hide EncFront, EncFile, Parse, AllWellFormed, AllWritable, Fold, FewDims, Storable, EncPairs, EncEntry, EncTable;
    var p, offsets := 24 + |EncPairs(kvs)|, PlanOffsets(items);
    var L := RowEnd(p, items, offsets, 0) - 1;
    RowIsLong(p, items, offsets, 0);
    FileParts(kvs, items);
    FirstRowInside(p, items, offsets);
    CutCrashes(kvs, items, L);
  }

  lemma FirstRowInside(p: nat, items: seq<Named>, offsets: seq<nat>)
    requires |items| == |offsets| > 0
    ensures RowEnd(p, items, offsets, 0) <= p + |EncTable(items, offsets)|
  {
  }
}
