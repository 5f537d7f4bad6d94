/** GGUF metadata values, written and read. */
module GgufValues {
  // The recursive writer, the recursive bounds-checked reader, and when they are inverse.

  import opened Prelude
  import opened Bytes
  import opened Encoding
  import opened Layout

  const STRING: nat := 8
  const ARRAY: nat := 9

  /** One metadata value. Scalars live in `raw`; a string is kept both in `str` and in `raw`. */
  datatype Value = Value(ty: nat, raw: Bytes, str: Bytes, arr: seq<Value>)

  predicate Known(ty: nat) { ty < 13 }

  function ScalarSize(ty: nat): nat {
    if ty in [0, 1, 7] then 1
    else if ty in [2, 3] then 2
    else if ty in [4, 5, 6] then 4
    else if ty in [10, 11, 12] then 8
    else 0
  }

  /** What the writer may be handed: it copies a fixed number of bytes out of `raw`. */
  predicate Writable(v: Value) {
    && Known(v.ty) && |v.raw| >= ScalarSize(v.ty)
    && forall i :: 0 <= i < |v.arr| ==> Writable(v.arr[i])
  }

  /** Only the field that belongs to the type is filled, and array elements share one type. */
  predicate WellFormed(v: Value) {
    && Known(v.ty)
    && (if v.ty == STRING then v.raw == v.str && v.arr == []
        else if v.ty == ARRAY then v.raw == [] && v.str == []
        else |v.raw| == ScalarSize(v.ty) && v.str == [] && v.arr == [])
    && forall i :: 0 <= i < |v.arr| ==> WellFormed(v.arr[i]) && v.arr[i].ty == v.arr[0].ty
  }

  lemma {:induction false} WellFormedWritable(v: Value)
    requires WellFormed(v)
    ensures Writable(v)
  {
    forall i | 0 <= i < |v.arr| ensures Writable(v.arr[i]) { WellFormedWritable(v.arr[i]); }
  }

  // ----- writer -----

  function EncString(s: Bytes): Bytes {
    LE(|s|, 8) + s
  }

  function EncArrayHead(arr: seq<Value>): Bytes {
    if |arr| == 0 then LE(0, 4) + LE(0, 8) else LE(arr[0].ty, 4) + LE(|arr|, 8)
  }

  function Enc(v: Value): Bytes
    requires Writable(v)
  {
    if v.ty == STRING then EncString(v.str)
    else if v.ty == ARRAY then EncArrayHead(v.arr) + EncAll(v.arr)
    else v.raw[..ScalarSize(v.ty)]
  }

  function EncAll(arr: seq<Value>): Bytes
    requires forall i :: 0 <= i < |arr| ==> Writable(arr[i])
  {
    if |arr| == 0 then [] else Enc(arr[0]) + EncAll(arr[1..])
  }

  lemma {:induction false} EncAllAppend(arr: seq<Value>, v: Value)
    requires (forall i :: 0 <= i < |arr| ==> Writable(arr[i])) && Writable(v)
    ensures EncAll(arr + [v]) == EncAll(arr) + Enc(v)
  {
    if |arr| == 0 {
      assert (arr + [v])[1..] == [];
    } else {
      assert (arr + [v])[1..] == arr[1..] + [v];
      EncAllAppend(arr[1..], v);
      Assoc(Enc(arr[0]), EncAll(arr[1..]), Enc(v));
    }
  }

  lemma {:induction false} EncAllLonger(arr: seq<Value>)
    requires forall i :: 0 <= i < |arr| ==> Writable(arr[i])
    ensures |EncAll(arr)| >= |arr|
  {
    if |arr| > 0 { EncAllLonger(arr[1..]); }
  }

  /** A typed value as it follows its key. */
  function EncTyped(v: Value): Bytes
    requires Writable(v)
  {
    LE(v.ty, 4) + Enc(v)
  }

  /** The output file: every write appends. */
  class FileWriter {
    var out: Bytes

    constructor ()
      ensures out == []
    {
      out := [];
    }

    method Wbytes(b: Bytes)
      modifies this
      ensures out == old(out) + b
    {
      out := out + b;
    }

    /** Fill up to a multiple of the alignment with zeros. */
    method Wpad(a: nat)
      requires a > 0
      modifies this
      ensures out == Padded(old(out), a)
    {
      var rem := |out| % a;
      PadLength(|out|, a);
      if rem == 0 {
        assert out + Zeros(0) == out;
        return;
      }
      Wbytes(Zeros(a - rem));
    }

    /** Two writes in a row. */
    method Wpair(a: Bytes, b: Bytes)
      modifies this
      ensures out == old(out) + (a + b)
    {
      Assoc(out, a, b);
      Wbytes(a);
      Wbytes(b);
    }

    method Wstring(s: Bytes)
      modifies this
      ensures out == old(out) + EncString(s)
    {
      Wpair(LE(|s|, 8), s);
    }

    method WriteValue(v: Value)
      requires Writable(v)
      modifies this
      ensures out == old(out) + Enc(v)
      decreases v, 0
    {
      if v.ty == STRING {
        Wstring(v.str);
      } else if v.ty == ARRAY {
        ghost var start := out;
        if |v.arr| == 0 { Wpair(LE(0, 4), LE(0, 8)); } else { Wpair(LE(v.arr[0].ty, 4), LE(|v.arr|, 8)); }
        WriteElements(v.arr);
        Assoc(start, EncArrayHead(v.arr), EncAll(v.arr));
      } else {
        Wbytes(v.raw[..ScalarSize(v.ty)]);
      }
    }

    method WriteElements(arr: seq<Value>)
      requires forall i :: 0 <= i < |arr| ==> Writable(arr[i])
      modifies this
      ensures out == old(out) + EncAll(arr)
      decreases arr
    {
      for i := 0 to |arr|
        invariant out == old(out) + EncAll(arr[..i])
      {
        ghost var start := old(out);
        WriteValue(arr[i]);
        EncAllAppend(arr[..i], arr[i]);
        Assoc(start, EncAll(arr[..i]), Enc(arr[i]));
        assert arr[..i] + [arr[i]] == arr[..i + 1];
      }
      assert arr[..|arr|] == arr;
    }
  }

  // ----- reader -----

  /** A length-prefixed string at p, and where reading stopped. */
  function StringAt(buf: Bytes, p: nat): (r: (Option<Bytes>, nat))
    requires p <= |buf|
    ensures p <= r.1 <= |buf|
  {
    if |buf| - p < 8 then (None, p)
    else
      var len := FromLE(buf[p..p + 8]);
      if |buf| - (p + 8) < len then (None, p + 8) else (Some(buf[p + 8..p + 8 + len]), p + 8 + len)
  }

  /** One value of a given type at p; None when the bytes run out. */
  function ItemAt(buf: Bytes, p: nat, ty: nat): (r: (Option<Value>, nat))
    requires p <= |buf|
    ensures p <= r.1 <= |buf|
    ensures r.0.Some? ==> r.0.value.ty == ty
    decreases |buf| - p, 1, 0
  {
    if ty == STRING then
      var (s, q) := StringAt(buf, p);
      (if s.Some? then Some(Value(ty, s.value, s.value, [])) else None, q)
    else if ty == ARRAY then
      var (v, q) := ArrayAt(buf, p);
      (Some(v), q)
    else if |buf| - p < ScalarSize(ty) then (None, p)
    else (Some(Value(ty, buf[p..p + ScalarSize(ty)], [], [])), p + ScalarSize(ty))
  }

  function ArrayAt(buf: Bytes, p: nat): (r: (Value, nat))
    requires p <= |buf|
    ensures p <= r.1 <= |buf| && r.0.ty == ARRAY
    decreases |buf| - p, 0, 0
  {
    if |buf| - p < 12 then (Value(ARRAY, [], [], []), p)
    else
      var (items, q) := ItemsAt(buf, p + 12, FromLE(buf[p..p + 4]), FromLE(buf[p + 4..p + 12]));
      (Value(ARRAY, [], [], items), q)
  }

  /** Up to n items; reading stops early at the end of the buffer. */
  function ItemsAt(buf: Bytes, p: nat, ty: nat, n: nat): (r: (seq<Value>, nat))
    requires p <= |buf|
    ensures p <= r.1 <= |buf|
    decreases |buf| - p, 2, n
  {
    if n == 0 || p >= |buf| then ([], p)
    else
      var (v, q) := ItemAt(buf, p, ty);
      if v.None? then ([], q)
      else
        var (vs, q') := ItemsAt(buf, q, ty, n - 1);
        ([v.value] + vs, q')
  }

  /** The type an unreadable value is left with; the code leaves it unset. */
  const UNSET: Value := Value(0, [], [], [])

  /** A type tag and a value; a value cut short keeps its tag and stays empty. */
  function ValueAt(buf: Bytes, p: nat): (r: (Value, nat))
    requires p <= |buf|
    ensures p <= r.1 <= |buf|
  {
    if |buf| - p < 4 then (UNSET, p)
    else
      var ty := FromLE(buf[p..p + 4]);
      var (v, q) := ItemAt(buf, p + 4, ty);
      (if v.Some? then v.value else Value(ty, [], [], []), q)
  }

  /** The parser's cursor over a buffer. */
  class Reader {
    const buf: Bytes
    var p: nat

    constructor (b: Bytes)
      ensures buf == b && p == 0
    {
      buf := b;
      p := 0;
    }

    ghost predicate Valid() reads this { p <= |buf| }

    /** A fixed-width integer; the caller has checked that it fits. */
    method ReadInt(n: nat) returns (v: nat)
      requires Valid() && n <= |buf| - p
      modifies this`p
      ensures Valid() && p == old(p) + n && v == FromLE(buf[old(p)..old(p) + n])
    {
      v := FromLE(buf[p..p + n]);
      p := p + n;
    }

    method ReadString() returns (s: Option<Bytes>)
      requires Valid()
      modifies this`p
      ensures Valid() && (s, p) == StringAt(buf, old(p))
    {
      if |buf| - p < 8 { return None; }
      var len := ReadInt(8);
      if |buf| - p < len { return None; }
      s := Some(buf[p..p + len]);
      p := p + len;
    }

    method ReadItem(ty: nat) returns (v: Option<Value>)
      requires Valid()
      modifies this`p
      ensures Valid() && (v, p) == ItemAt(buf, old(p), ty)
      decreases |buf| - p, 1, 0
    {
      if ty == STRING {
        var s := ReadString();
        return if s.Some? then Some(Value(ty, s.value, s.value, [])) else None;
      }
      if ty == ARRAY {
        var a := ReadMetadataArray();
        return Some(a);
      }
      var n := ScalarSize(ty);
      if |buf| - p < n { return None; }
      v := Some(Value(ty, buf[p..p + n], [], []));
      p := p + n;
    }

    method ReadMetadataArray() returns (a: Value)
      requires Valid()
      modifies this`p
      ensures Valid() && (a, p) == ArrayAt(buf, old(p))
      decreases |buf| - p, 0, 0
    {
      if |buf| - p < 12 { return Value(ARRAY, [], [], []); }
      var ty := ReadInt(4);
      var n := ReadInt(8);
      var items := ReadItems(ty, n);
      return Value(ARRAY, [], [], items);
    }

    method ReadItems(ty: nat, n: nat) returns (items: seq<Value>)
      requires Valid()
      modifies this`p
      ensures Valid() && (items, p) == ItemsAt(buf, old(p), ty, n)
      decreases |buf| - p, 2, n
    {
      items := [];
      ghost var goal := ItemsAt(buf, p, ty, n);
      for i := 0 to n
        invariant Valid() && p >= old(p)
        invariant goal.0 == items + ItemsAt(buf, p, ty, n - i).0 && goal.1 == ItemsAt(buf, p, ty, n - i).1
      {
        assert items + [] == items;
        if p >= |buf| { return; }
        var v := ReadItem(ty);
        if v.None? { return; }
        items := items + [v.value];
      }
    }

    method ReadMetadataValue() returns (v: Value)
      requires Valid()
      modifies this`p
      ensures Valid() && (v, p) == ValueAt(buf, old(p))
    {
      if |buf| - p < 4 { return UNSET; }
      var ty := ReadInt(4);
      var item := ReadItem(ty);
      return if item.Some? then item.value else Value(ty, [], [], []);
    }
  }

  // ----- round trip -----

  lemma StringReads(buf: Bytes, p: nat, s: Bytes)
    requires HasAt(buf, p, EncString(s)) && FitsU64(buf)
    ensures p <= |buf| && StringAt(buf, p) == (Some(s), p + |EncString(s)|)
  {
    HasAtConcat(buf, p, LE(|s|, 8), s);
    WidthOf8();
    FieldReads(buf, p, |s|, 8);
  }

  lemma HeadReads(buf: Bytes, p: nat, ty: nat, n: nat)
    requires HasAt(buf, p, LE(ty, 4) + LE(n, 8)) && Known(ty) && n <= |buf| && FitsU64(buf)
    ensures p + 12 <= |buf| && FromLE(buf[p..p + 4]) == ty && FromLE(buf[p + 4..p + 12]) == n
  {
    HasAtConcat(buf, p, LE(ty, 4), LE(n, 8));
    WidthOf4();
    WidthOf8();
    FieldReads(buf, p, ty, 4);
    FieldReads(buf, p + 4, n, 8);
  }

  /** Reading a written value gives it back exactly when it is well formed; then all its bytes are consumed. */
  lemma {:induction false} ItemReads(buf: Bytes, p: nat, v: Value)
    requires Writable(v) && HasAt(buf, p, Enc(v)) && FitsU64(buf)
    ensures p <= |buf| && ItemAt(buf, p, v.ty).0.Some?
    ensures ItemAt(buf, p, v.ty).0.value == v <==> WellFormed(v)
    ensures WellFormed(v) ==> ItemAt(buf, p, v.ty).1 == p + |Enc(v)|
    decreases v
  {
    if v.ty == STRING {
      StringReads(buf, p, v.str);
    } else if v.ty == ARRAY {
      var t := if |v.arr| == 0 then 0 else v.arr[0].ty;
      HasAtConcat(buf, p, EncArrayHead(v.arr), EncAll(v.arr));
      EncAllLonger(v.arr);
      HeadReads(buf, p, t, |v.arr|);
      ItemsRead(buf, p + 12, t, v.arr);
    }
  }

  lemma {:induction false} ItemsRead(buf: Bytes, p: nat, ty: nat, arr: seq<Value>)
    requires (forall i :: 0 <= i < |arr| ==> Writable(arr[i])) && HasAt(buf, p, EncAll(arr)) && FitsU64(buf)
    ensures p <= |buf|
    ensures ItemsAt(buf, p, ty, |arr|).0 == arr <==> AllFit(arr, ty)
    ensures AllFit(arr, ty) ==> ItemsAt(buf, p, ty, |arr|).1 == p + |EncAll(arr)|
    decreases arr
  {
    hide Enc, EncAll, ItemAt, ItemsAt, ArrayAt, WellFormed, Writable, AllFit, HasAt;
    HasAtFits(buf, p, EncAll(arr));
    if |arr| == 0 {
      NoItems(buf, p, ty, arr);
    } else {
      var v, rest := arr[0], arr[1..];
      EncAllFront(arr);
      HasAtConcat(buf, p, Enc(v), EncAll(rest));
      AllFitStep(arr, ty);
      HeadOfItems(buf, p, ty, |arr|);
      ItemReads(buf, p, v);
      if v.ty == ty && WellFormed(v) {
        var q := p + |Enc(v)|;
        ItemsRead(buf, q, ty, rest);
        EncNonEmpty(v);
        ItemsStep(buf, p, v, q, |arr|);
        PrependIs(v, rest, ItemsAt(buf, q, ty, |rest|).0);
      }
    }
  }

  lemma NoItems(buf: Bytes, p: nat, ty: nat, arr: seq<Value>)
    requires arr == [] && HasAt(buf, p, EncAll(arr))
    ensures p <= |buf| && ItemsAt(buf, p, ty, 0) == ([], p) && AllFit(arr, ty) && |EncAll(arr)| == 0
  {
  }

  lemma EncAllFront(arr: seq<Value>)
    requires |arr| > 0 && forall i :: 0 <= i < |arr| ==> Writable(arr[i])
    ensures EncAll(arr) == Enc(arr[0]) + EncAll(arr[1..])
  {
  }

  lemma PrependIs<T>(v: T, a: seq<T>, b: seq<T>)
    ensures [v] + a == [v] + b <==> a == b
  {
    assert ([v] + a)[1..] == a && ([v] + b)[1..] == b;
  }

  lemma EncNonEmpty(v: Value)
    requires Writable(v)
    ensures |Enc(v)| > 0
  {
  }

  ghost predicate AllFit(arr: seq<Value>, ty: nat) {
    forall i :: 0 <= i < |arr| ==> WellFormed(arr[i]) && arr[i].ty == ty
  }

  lemma AllFitStep(arr: seq<Value>, ty: nat)
    requires |arr| > 0
    ensures AllFit(arr, ty) <==> WellFormed(arr[0]) && arr[0].ty == ty && AllFit(arr[1..], ty)
  {
    var rest := arr[1..];
    assert forall i :: 0 < i < |arr| ==> arr[i] == rest[i - 1];
  }

  /** What the first item read can be. */
  lemma HeadOfItems(buf: Bytes, p: nat, ty: nat, n: nat)
    requires p <= |buf| && n > 0
    ensures var read, (v, q) := ItemsAt(buf, p, ty, n).0, ItemAt(buf, p, ty);
      read != [] ==> read[0].ty == ty && v == Some(read[0])
  {
  }

  lemma ItemsStep(buf: Bytes, p: nat, v: Value, q: nat, n: nat)
    requires p < |buf| && n > 0 && ItemAt(buf, p, v.ty) == (Some(v), q)
    ensures ItemsAt(buf, p, v.ty, n) == ([v] + ItemsAt(buf, q, v.ty, n - 1).0, ItemsAt(buf, q, v.ty, n - 1).1)
  {
  }

  lemma ValueReads(buf: Bytes, p: nat, v: Value)
    requires Writable(v) && HasAt(buf, p, EncTyped(v)) && FitsU64(buf)
    ensures p <= |buf| && (ValueAt(buf, p).0 == v <==> WellFormed(v))
    ensures WellFormed(v) ==> ValueAt(buf, p).1 == p + |EncTyped(v)|
  {
    HasAtConcat(buf, p, LE(v.ty, 4), Enc(v));
    WidthOf4();
    FieldReads(buf, p, v.ty, 4);
    ItemReads(buf, p + 4, v);
  }

  /** Write, then read: the value comes back if and only if it is well formed. */
  lemma ValueRoundTrip(v: Value, pre: Bytes, post: Bytes)
    requires Writable(v) && FitsU64(pre + EncTyped(v) + post)
    ensures ValueAt(pre + EncTyped(v) + post, |pre|).0 == v <==> WellFormed(v)
  {
    HasAtMiddle(pre, EncTyped(v), post);
    ValueReads(pre + EncTyped(v) + post, |pre|, v);
  }

  // ----- values the parser reads -----

  /** No unknown type tag anywhere. */
  predicate TypesKnown(v: Value) {
    Known(v.ty) && forall i :: 0 <= i < |v.arr| ==> TypesKnown(v.arr[i])
  }

  /** Whatever the bytes are, a value the reader completes is well formed once its type tags are known, so it can be
      written again and read back. */
  lemma {:induction false} ReadIsWellFormed(buf: Bytes, p: nat, ty: nat)
    requires p <= |buf| && ItemAt(buf, p, ty).0.Some? && TypesKnown(ItemAt(buf, p, ty).0.value)
    ensures WellFormed(ItemAt(buf, p, ty).0.value)
    decreases |buf| - p, 1, 0
  {
    if ty == ARRAY && |buf| - p >= 12 {
      ItemsAreWellFormed(buf, p + 12, FromLE(buf[p..p + 4]), FromLE(buf[p + 4..p + 12]));
    }
  }

  lemma {:induction false} ItemsAreWellFormed(buf: Bytes, p: nat, ty: nat, n: nat)
    requires p <= |buf| && forall i :: 0 <= i < |ItemsAt(buf, p, ty, n).0| ==> TypesKnown(ItemsAt(buf, p, ty, n).0[i])
    ensures AllFit(ItemsAt(buf, p, ty, n).0, ty)
    decreases |buf| - p, 2, n
  {
    var items := ItemsAt(buf, p, ty, n).0;
    if |items| > 0 {
      var (v, q) := ItemAt(buf, p, ty);
      var rest := ItemsAt(buf, q, ty, n - 1).0;
      assert items == [v.value] + rest;
      assert items[0] == v.value && TypesKnown(items[0]);
      assert forall i :: 0 <= i < |rest| ==> rest[i] == items[i + 1];
      ReadIsWellFormed(buf, p, ty);
      ItemsAreWellFormed(buf, q, ty, n - 1);
      AllFitStep(items, ty);
      assert items[1..] == rest;
    }
  }
}
