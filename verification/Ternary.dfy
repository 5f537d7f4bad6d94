/** Packed ternary tensors, type I2_S. */
module Ternary {
  // One scale and 2-bit codes, four interleaved groups of 32 in every block of 128.

  import Arith
  import opened Gemm
  import opened Reals
  import opened Reduce
  import opened Rows

  const BLOCK: nat := 128
  const GROUP: nat := 32
  const TINY: real := 0.000001

  type Code = c: nat | c < 4
  type Octet = b: nat | b < 256

  /** n elements in whole blocks; `stored` is the scale kept after the blocks. */
  datatype Packed = Packed(n: nat, bytes: seq<Octet>, stored: real, scale: real)

  function Blocks(n: nat): nat { (n + 127) / 128 }

  ghost predicate ValidPacked(p: Packed) { |p.bytes| == GROUP * Blocks(p.n) }

  // ----- quantization: what each element becomes -----

  function ScaleOf(x: seq<real>): (s: real)
    ensures s >= TINY
  {
    var m := MaxAbs(x, |x|);
    if m < TINY then TINY else m
  }

  function CodeOf(v: real): Code {
    if Abs(v) < TINY then 1 else if v > 0.0 then 2 else 0
  }

  /** The value a code stands for, in units of the scale. */
  function Level(c: Code): real {
    if c == 0 then -1.0 else if c == 2 then 1.0 else 0.0
  }

  function Sign(v: real): real {
    if Abs(v) < TINY then 0.0 else if v > 0.0 then 1.0 else -1.0
  }

  // ----- packing: where each code lies -----

  function Weight(group: nat): nat
    requires group < 4
  {
    if group == 0 then 64 else if group == 1 then 16 else if group == 2 then 4 else 1
  }

  /** Element i as a 2-bit field, 0 past the end. */
  function Field(q: seq<Code>, i: nat): Code {
    if i < |q| then q[i] else 0
  }

  /** Byte gp of a block holds the elements gp, gp + 32, gp + 64 and gp + 96 of the block, the first one on top. */
  function ByteOf(q: seq<Code>, start: nat, gp: nat): Octet {
    64 * Field(q, start + gp) + 16 * Field(q, start + gp + 32) + 4 * Field(q, start + gp + 64)
        + Field(q, start + gp + 96)
  }

  function FieldOf(b: Octet, group: nat): Code
    requires group < 4
  {
    b / Weight(group) % 4
  }

  /** The code of element i. */
  function CodeAt(bytes: seq<Octet>, i: nat): Code
    requires i / BLOCK * GROUP + i % GROUP < |bytes|
  {
    FieldOf(bytes[i / BLOCK * GROUP + i % GROUP], i % BLOCK / GROUP)
  }

  lemma InBounds(n: nat, i: nat)
    requires i < BLOCK * Blocks(n)
    ensures i / BLOCK * GROUP + i % GROUP < GROUP * Blocks(n)
  {
  }

  lemma {:induction false} FourFields(a: Code, b: Code, c: Code, d: Code, group: nat)
    requires group < 4
    ensures FieldOf(64 * a + 16 * b + 4 * c + d, group) == [a, b, c, d][group]
  {
    var v := 64 * a + 16 * b + 4 * c + d;
    Arith.DivIs(v, 64, a, 16 * b + 4 * c + d);
    Arith.DivIs(v, 16, 4 * a + b, 4 * c + d);
    Arith.DivIs(v, 4, 16 * a + 4 * b + c, d);
    Arith.DivIs(4 * a + b, 4, a, b);
    Arith.DivIs(16 * a + 4 * b + c, 4, 4 * a + b, c);
  }

  lemma {:induction false} FieldsAreSeparate(q: seq<Code>, start: nat, gp: nat, group: nat)
    requires group < 4
    ensures FieldOf(ByteOf(q, start, gp), group) == Field(q, start + gp + 32 * group)
  {
    hide FieldOf, Field;
    FourFields(Field(q, start + gp), Field(q, start + gp + 32), Field(q, start + gp + 64), Field(q, start + gp + 96),
               group);
  }

  /** Packing loses nothing: every code is found again at its place. */
  lemma {:induction false} UnpackPacked(q: seq<Code>, bytes: seq<Octet>, i: nat)
    requires |bytes| == GROUP * Blocks(|q|) && i < |q|
    requires forall k :: 0 <= k < |bytes| ==> bytes[k] == ByteOf(q, k / GROUP * BLOCK, k % GROUP)
    ensures i / BLOCK * GROUP + i % GROUP < |bytes|
    ensures CodeAt(bytes, i) == q[i]
  {
    hide ByteOf, FieldOf;
    InBounds(|q|, i);
    IndexParts(i);
    var k, group := i / BLOCK * GROUP + i % GROUP, i % BLOCK / GROUP;
    assert bytes[k] == ByteOf(q, i / BLOCK * BLOCK, i % GROUP);
    FieldsAreSeparate(q, i / BLOCK * BLOCK, i % GROUP, group);
  }

  /** Block, byte within the block and group of an element. */
  lemma {:induction false} IndexParts(i: nat)
    ensures var k, group := i / BLOCK * GROUP + i % GROUP, i % BLOCK / GROUP;
      && k / GROUP == i / BLOCK && k % GROUP == i % GROUP && group < 4
      && i == i / BLOCK * BLOCK + i % GROUP + 32 * group
  {
    var block, r := i / BLOCK, i % BLOCK;
    var group, gp := r / GROUP, r % GROUP;
    Arith.DivIs(i, GROUP, 4 * block + group, gp);
    Arith.DivIs(block * GROUP + gp, GROUP, block, gp);
  }

  function Unpacked(bytes: seq<Octet>, scale: real, i: nat): real
    requires i / BLOCK * GROUP + i % GROUP < |bytes|
  {
    scale * Level(CodeAt(bytes, i))
  }

  /** The scale in use; a zero one is looked up after the blocks. */
  function ScaleIn(p: Packed): real { if p.scale == 0.0 then p.stored else p.scale }

  function Dequantized(p: Packed): (r: seq<real>)
    requires ValidPacked(p)
    ensures |r| == p.n
  {
    seq(p.n, i requires 0 <= i < p.n => (InBounds(p.n, i); Unpacked(p.bytes, ScaleIn(p), i)))
  }

  ghost predicate IsQuantized(x: seq<real>, p: Packed) {
    && p.n == |x| && ValidPacked(p) && p.scale == p.stored == ScaleOf(x)
    && forall k :: 0 <= k < |p.bytes| ==> p.bytes[k] == ByteOf(Codes(x), k / GROUP * BLOCK, k % GROUP)
  }

  function Codes(x: seq<real>): (q: seq<Code>)
    ensures |q| == |x|
  {
    seq(|x|, i requires 0 <= i < |x| => CodeOf(x[i]))
  }

  /** Unpacking a quantized tensor of any length gives the scale times the sign of each element. */
  lemma {:induction false} DequantizeGivesSigns(x: seq<real>, p: Packed, i: nat)
    requires IsQuantized(x, p) && i < |x|
    ensures Dequantized(p)[i] == ScaleOf(x) * Sign(x[i])
  {
    UnpackPacked(Codes(x), p.bytes, i);
  }

  /** It is exact if and only if every non-zero element has the magnitude of the scale. */
  lemma {:induction false} ExactOnTernary(x: seq<real>, p: Packed)
    requires IsQuantized(x, p)
    ensures Dequantized(p) == x <==> forall i :: 0 <= i < |x| ==> x[i] == 0.0 || Abs(x[i]) == ScaleOf(x)
  {
    PackedSize(x, p);
    hide IsQuantized, ScaleOf, Dequantized, ValidPacked;
    forall i | 0 <= i < |x|
      ensures Dequantized(p)[i] == x[i] <==> x[i] == 0.0 || Abs(x[i]) == ScaleOf(x)
    {
      DequantizeGivesSigns(x, p, i);
    }
  }

  lemma PackedSize(x: seq<real>, p: Packed)
    requires IsQuantized(x, p)
    ensures ValidPacked(p) && p.n == |x|
  {
  }

  /** All non-zero elements share the magnitude c. */
  ghost predicate TernaryWith(x: seq<real>, c: real) {
    c >= TINY && forall i :: 0 <= i < |x| ==> x[i] == 0.0 || x[i] == c || x[i] == -c
  }

  lemma ScaleIsCommon(x: seq<real>, c: real)
    requires TernaryWith(x, c) && exists i :: 0 <= i < |x| && x[i] != 0.0
    ensures ScaleOf(x) == c
  {
  }

  /** The tensors that survive quantization unchanged are the ternary ones: zeros and plus or minus one magnitude that
      is not below the threshold. */
  lemma ExactIffTernary(x: seq<real>, p: Packed)
    requires IsQuantized(x, p)
    ensures ValidPacked(p) && (Dequantized(p) == x <==> exists c: real :: TernaryWith(x, c))
  {
    PackedSize(x, p);
    ExactOnTernary(x, p);
    hide IsQuantized, Dequantized, ValidPacked;
    if forall i :: 0 <= i < |x| ==> x[i] == 0.0 || Abs(x[i]) == ScaleOf(x) {
      assert TernaryWith(x, ScaleOf(x));
    }
    if c: real :| TernaryWith(x, c) {
      if exists i :: 0 <= i < |x| && x[i] != 0.0 { ScaleIsCommon(x, c); }
    }
  }

  // ----- the quantize and dequantize loops -----

  method Quantize(x: seq<real>) returns (p: Packed)
    ensures IsQuantized(x, p)
  {
    var scale := FindScale(x);
    var q := new Code[|x|];
    for i := 0 to |x|
      invariant forall j :: 0 <= j < i ==> q[j] == CodeOf(x[j])
    {
      if Abs(x[i]) < TINY { q[i] := 1; } else if x[i] > 0.0 { q[i] := 2; } else { q[i] := 0; }
    }
    assert q[..] == Codes(x);
    var bytes := PackCodes(q[..]);
    p := Packed(|x|, bytes, scale, scale);
  }

  method FindScale(x: seq<real>) returns (scale: real)
    ensures scale == ScaleOf(x)
  {
    scale := 0.0;
    for i := 0 to |x|
      invariant scale == MaxAbs(x, i)
    {
      if scale < Abs(x[i]) { scale := Abs(x[i]); }
    }
    if scale < TINY { scale := TINY; }
  }

  method PackCodes(q: seq<Code>) returns (bytes: seq<Octet>)
    ensures |bytes| == GROUP * Blocks(|q|)
    ensures forall k :: 0 <= k < |bytes| ==> bytes[k] == ByteOf(q, k / GROUP * BLOCK, k % GROUP)
  {
    bytes := [];
    for block := 0 to Blocks(|q|)
      invariant |bytes| == GROUP * block
      invariant forall k :: 0 <= k < |bytes| ==> bytes[k] == ByteOf(q, k / GROUP * BLOCK, k % GROUP)
    {
      var start := block * BLOCK;
      var blockN := if |q| - start < BLOCK then |q| - start else BLOCK;
      for gp := 0 to GROUP
        invariant |bytes| == GROUP * block + gp
        invariant forall k :: 0 <= k < |bytes| ==> bytes[k] == ByteOf(q, k / GROUP * BLOCK, k % GROUP)
      {
        var packed := PackByte(q, start, blockN, gp);
        Arith.DivIs(|bytes|, GROUP, block, gp);
        bytes := bytes + [packed];
      }
    }
  }

  /** How many elements of a block of n fall into a group. */
  function GroupSize(n: nat, group: nat): nat {
    if n >= 32 * group + 32 then 32 else if n > 32 * group then n - 32 * group else 0
  }

  method PackByte(q: seq<Code>, start: nat, n: nat, gp: nat) returns (packed: Octet)
    requires gp < GROUP && start + n <= |q| && (n == BLOCK || start + n == |q|)
    ensures packed == ByteOf(q, start, gp)
  {
    packed := 0;
    if gp < GroupSize(n, 0) { var c: int := q[start + gp]; packed := packed + 64 * c; }
    if gp < GroupSize(n, 1) { var c: int := q[start + gp + 32]; packed := packed + 16 * c; }
    if gp < GroupSize(n, 2) { var c: int := q[start + gp + 64]; packed := packed + 4 * c; }
    if gp < GroupSize(n, 3) { var c: int := q[start + gp + 96]; packed := packed + c; }
  }

  /** v is element i of the tensor that starts at block `from`. */
  ghost predicate Holds(bytes: seq<Octet>, scale: real, from: nat, v: real, i: nat) {
    (from + i / BLOCK) * GROUP + i % GROUP < |bytes| && v == UnpackedFrom(bytes, scale, from, i)
  }

  function UnpackedFrom(bytes: seq<Octet>, scale: real, from: nat, i: nat): real
    requires (from + i / BLOCK) * GROUP + i % GROUP < |bytes|
  {
    scale * Level(FieldOf(bytes[(from + i / BLOCK) * GROUP + i % GROUP], i % BLOCK / GROUP))
  }

  method Dequantize(p: Packed) returns (out: array<real>)
    requires ValidPacked(p)
    ensures fresh(out) && out[..] == Dequantized(p)
  {
    var scale := ScaleIn(p);
    out := new real[p.n];
    var done, block := 0, 0;
    while done < p.n
      invariant done <= p.n && block <= Blocks(p.n) && (done == BLOCK * block || done == p.n)
      invariant forall i :: 0 <= i < done ==> Holds(p.bytes, scale, 0, out[i], i)
      decreases p.n - done
    {
      hide Holds;
      var n := if p.n - done >= BLOCK then BLOCK else p.n - done;
      UnpackBlock(p.bytes, scale, 0, out, block, n);
      done := done + n;
      block := block + 1;
    }
    assert forall i :: 0 <= i < p.n ==> Holds(p.bytes, scale, 0, out[i], i);
  }

  /** Unpack the first n elements of a block into their place. */
  method UnpackBlock(bytes: seq<Octet>, scale: real, from: nat, out: array<real>, block: nat, n: nat)
    requires (from + block + 1) * GROUP <= |bytes| && n <= BLOCK && BLOCK * block + n <= out.Length
    modifies out
    ensures forall i :: BLOCK * block <= i < BLOCK * block + n ==> Holds(bytes, scale, from, out[i], i)
    ensures forall i :: 0 <= i < out.Length && !(BLOCK * block <= i < BLOCK * block + n) ==> out[i] == old(out[i])
  {
    var start := BLOCK * block;
    for gp := 0 to GROUP
      invariant forall i :: start <= i < start + n && i % GROUP < gp ==> Holds(bytes, scale, from, out[i], i)
      invariant forall i :: 0 <= i < out.Length && !(start <= i < start + n) ==> out[i] == old(out[i])
    {
      hide Holds;
      UnpackByte(bytes, scale, from, out, block, n, gp);
    }
  }

  method UnpackByte(bytes: seq<Octet>, scale: real, from: nat, out: array<real>, block: nat, n: nat, gp: nat)
    requires gp < GROUP && (from + block) * GROUP + gp < |bytes| && n <= BLOCK && BLOCK * block + n <= out.Length
    modifies out
    ensures forall i :: 0 <= i < out.Length ==>
      if BLOCK * block <= i < BLOCK * block + n && i % GROUP == gp then Holds(bytes, scale, from, out[i], i)
      else out[i] == old(out[i])
  {
    var b, at := bytes[(from + block) * GROUP + gp], BLOCK * block + gp;
    WriteGroups(out, b, scale, at, gp, n);
    hide Holds, Written;
    forall i | 0 <= i < out.Length
      ensures if BLOCK * block <= i < BLOCK * block + n && i % GROUP == gp then Holds(bytes, scale, from, out[i], i)
              else out[i] == old(out[i])
    {
      WrittenHolds(bytes, scale, from, block, n, gp, i, old(out[i]));
    }
  }

  lemma WrittenHolds(bytes: seq<Octet>, scale: real, from: nat, block: nat, n: nat, gp: nat, i: nat, was: real)
    requires gp < GROUP && (from + block) * GROUP + gp < |bytes| && n <= BLOCK
    ensures var v := Written(bytes[(from + block) * GROUP + gp], scale, BLOCK * block + gp, gp, n, i, was);
      if BLOCK * block <= i < BLOCK * block + n && i % GROUP == gp then Holds(bytes, scale, from, v, i) else v == was
  {
    hide Holds, ValueOf;
    Grouped(bytes, scale, from, block, gp, 0);
    Grouped(bytes, scale, from, block, gp, 1);
    Grouped(bytes, scale, from, block, gp, 2);
    Grouped(bytes, scale, from, block, gp, 3);
    InGroup(block, gp, i);
    var b, at := bytes[(from + block) * GROUP + gp], BLOCK * block + gp;
    assert Holds(bytes, scale, from, ValueOf(b, scale, 0), at)
      && Holds(bytes, scale, from, ValueOf(b, scale, 1), at + 32);
    assert Holds(bytes, scale, from, ValueOf(b, scale, 2), at + 64);
    assert Holds(bytes, scale, from, ValueOf(b, scale, 3), at + 96);
  }

  /** The elements of a block found in byte gp. */
  lemma InGroup(block: nat, gp: nat, i: nat)
    requires gp < GROUP
    ensures var at := BLOCK * block + gp;
      BLOCK * block <= i < BLOCK * block + BLOCK && i % GROUP == gp
      <==> i == at || i == at + 32 || i == at + 64 || i == at + 96
  {
  }

  function ValueOf(b: Octet, scale: real, group: nat): real
    requires group < 4
  {
    scale * Level(FieldOf(b, group))
  }

  /** Entry i after the four elements of a byte are written, as far as the block reaches. */
  function Written(b: Octet, scale: real, at: nat, gp: nat, n: nat, i: nat, was: real): real {
    if i == at && gp < n then ValueOf(b, scale, 0)
    else if i == at + 32 && gp + 32 < n then ValueOf(b, scale, 1)
    else if i == at + 64 && gp + 64 < n then ValueOf(b, scale, 2)
    else if i == at + 96 && gp + 96 < n then ValueOf(b, scale, 3)
    else was
  }

  method WriteGroups(out: array<real>, b: Octet, scale: real, at: nat, gp: nat, n: nat)
    requires gp < GROUP && gp <= at && n <= BLOCK && at - gp + n <= out.Length
    modifies out
    ensures forall i :: 0 <= i < out.Length ==> out[i] == Written(b, scale, at, gp, n, i, old(out[i]))
  {
    hide ValueOf;
    if gp < GroupSize(n, 0) { out[at] := ValueOf(b, scale, 0); }
    if gp < GroupSize(n, 1) { out[at + 32] := ValueOf(b, scale, 1); }
    if gp < GroupSize(n, 2) { out[at + 64] := ValueOf(b, scale, 2); }
    if gp < GroupSize(n, 3) { out[at + 96] := ValueOf(b, scale, 3); }
  }

  lemma Grouped(bytes: seq<Octet>, scale: real, from: nat, block: nat, gp: nat, g: nat)
    requires gp < GROUP && (from + block) * GROUP + gp < |bytes| && g < 4
    ensures Holds(bytes, scale, from, ValueOf(bytes[(from + block) * GROUP + gp], scale, g),
                  BLOCK * block + gp + 32 * g)
  {
    hide FieldOf, Level;
    var i := BLOCK * block + gp + 32 * g;
    Arith.DivIs(i, BLOCK, block, gp + 32 * g);
    Arith.DivIs(i, GROUP, 4 * block + g, gp);
    Arith.DivIs(gp + 32 * g, GROUP, g, gp);
  }

  // ----- the GEMM on packed weights -----

  /** Column n as the GEMM sees it: whole blocks are unpacked into the reused buffer, anything after them is what the
      buffer held before. */
  function Column(p: Packed, k: nat, n: nat, stale: seq<real>): (w: seq<real>)
    requires (n + 1) * (k / BLOCK) * GROUP <= |p.bytes| && k <= |stale|
    ensures |w| == k
  {
    seq(k, i requires 0 <= i < k =>
      if i < k / BLOCK * BLOCK then (ColumnBounds(p, k, n, i); UnpackedFrom(p.bytes, ScaleIn(p), n * (k / BLOCK), i))
      else stale[i])
  }

  lemma ColumnBounds(p: Packed, k: nat, n: nat, i: nat)
    requires (n + 1) * (k / BLOCK) * GROUP <= |p.bytes| && i < k / BLOCK * BLOCK
    ensures (n * (k / BLOCK) + i / BLOCK) * GROUP + i % GROUP < |p.bytes|
  {
    var q := k / BLOCK;
    assert (n + 1) * q == n * q + q;
    assert i / BLOCK < q;
  }

  lemma ColumnsFit(k: nat, n: nat, cols: nat)
    requires n < cols
    ensures (n + 1) * (k / BLOCK) * GROUP <= GROUP * Blocks(k * cols)
  {
    var q := k / BLOCK;
    Arith.Monotone(n + 1, cols, q);
    assert BLOCK * (cols * q) <= k * cols by {
      Arith.Monotone(BLOCK * q, k, cols);
      assert BLOCK * q * cols == BLOCK * (cols * q);
    }
  }

  /** When the depth is a whole number of blocks, the column is the dequantized one. */
  lemma {:induction false} ColumnIsDequantized(p: Packed, k: nat, n: nat, cols: nat, stale: seq<real>, i: nat)
    requires ValidPacked(p) && p.n == k * cols && n < cols && k % BLOCK == 0 && k <= |stale| && i < k
    ensures (n + 1) * (k / BLOCK) * GROUP <= |p.bytes| && n * k + i < p.n
    ensures Column(p, k, n, stale)[i] == Dequantized(p)[n * k + i]
  {
    ColumnsFit(k, n, cols);
    Arith.RowsApart(n, cols, k);
    var q := k / BLOCK;
    var c := n * q;
    assert n * k == BLOCK * c by { assert k == BLOCK * q; }
    SameField(p.bytes, ScaleIn(p), c, i, n * k + i);
    InBounds(p.n, n * k + i);
  }

  /** Element i from block c on is element 128 c + i of the whole. */
  lemma SameField(bytes: seq<Octet>, scale: real, c: nat, i: nat, at: nat)
    requires at == BLOCK * c + i && (c + i / BLOCK) * GROUP + i % GROUP < |bytes|
    ensures at / BLOCK * GROUP + at % GROUP < |bytes|
    ensures UnpackedFrom(bytes, scale, c, i) == Unpacked(bytes, scale, at)
  {
    FieldPlace(c, i);
    hide FieldOf, Level;
  }

  lemma FieldPlace(c: nat, i: nat)
    ensures (BLOCK * c + i) / BLOCK == c + i / BLOCK && (BLOCK * c + i) % BLOCK == i % BLOCK
    ensures (BLOCK * c + i) % GROUP == i % GROUP
  {
    Arith.DivIs(BLOCK * c + i, BLOCK, c + i / BLOCK, i % BLOCK);
    Arith.DivIs(BLOCK * c + i, GROUP, 4 * c + i / GROUP, i % GROUP);
  }

  /** What the GEMM computes for row m and column n. */
  function GemmAt(a: seq<real>, k: nat, p: Packed, stale: seq<real>, m: nat, n: nat): real
    requires m * k + k <= |a| && (n + 1) * (k / BLOCK) * GROUP <= |p.bytes| && k <= |stale|
  {
    DotAt(a, m * k, Column(p, k, n, stale), 0, k)
  }

  ghost predicate IsGemm(a: seq<real>, k: nat, p: Packed, stale: seq<real>, v: real, m: nat, n: nat) {
    && m * k + k <= |a| && (n + 1) * (k / BLOCK) * GROUP <= |p.bytes| && k <= |stale|
    && v == GemmAt(a, k, p, stale, m, n)
  }

  /** Entry i of the flat output. */
  ghost predicate IsEntry(a: seq<real>, k: nat, cols: nat, p: Packed, stale: seq<real>, v: real, i: nat) {
    cols > 0 && IsGemm(a, k, p, stale, v, i / cols, i % cols)
  }

  /** For every depth that is a whole number of blocks, the GEMM is the naive product over the dequantized weights. */
  lemma {:induction false} GemmIsNaive(a: seq<real>, k: nat, cols: nat, p: Packed, stale: seq<real>, m: nat, n: nat)
    requires ValidPacked(p) && p.n == k * cols && n < cols && m * k + k <= |a| && k <= |stale| && k % BLOCK == 0
    ensures (n + 1) * (k / BLOCK) * GROUP <= |p.bytes| && n * k + k <= p.n
    ensures GemmAt(a, k, p, stale, m, n) == DotAt(a, m * k, Dequantized(p), n * k, k)
  {
    hide Column, Dequantized, DotAt;
    ColumnsFit(k, n, cols);
    Arith.RowsApart(n, cols, k);
    var w, v, vo := Column(p, k, n, stale), Dequantized(p), n * k;
    var slice := v[vo..vo + k];
    forall i | 0 <= i < k ensures w[i] == slice[i] { ColumnIsDequantized(p, k, n, cols, stale, i); }
    assert w[0..0 + k] == w == slice;
    DotSame(a, m * k, w, 0, v, vo, k);
  }

  lemma {:induction false} DotLast(x: seq<real>, xo: nat, w: seq<real>, v: seq<real>, n: nat)
    requires n > 0 && xo + n <= |x| && n <= |w| && n <= |v| && forall i :: 0 <= i < n - 1 ==> w[i] == v[i]
    ensures DotAt(x, xo, w, 0, n) - DotAt(x, xo, v, 0, n) == (w[n - 1] - v[n - 1]) * x[xo + n - 1]
  {
    assert w[0..0 + (n - 1)] == v[0..0 + (n - 1)];
    DotSame(x, xo, w, 0, v, 0, n - 1);
  }

  /** For every other depth it is not: the result depends on what the reused buffer held before. */
  lemma GemmReadsStaleBuffer(a: seq<real>, k: nat, p: Packed, stale: seq<real>, m: nat, n: nat)
    requires (n + 1) * (k / BLOCK) * GROUP <= |p.bytes| && m * k + k <= |a| && k <= |stale|
    requires k % BLOCK != 0 && a[m * k + (k - 1)] == 1.0
    ensures var other := stale[k - 1 := stale[k - 1] + 1.0];
      GemmAt(a, k, p, other, m, n) == GemmAt(a, k, p, stale, m, n) + 1.0
  {
    var other := stale[k - 1 := stale[k - 1] + 1.0];
    var w, v := Column(p, k, n, other), Column(p, k, n, stale);
    assert k / BLOCK * BLOCK <= k - 1;
    assert forall i :: 0 <= i < k - 1 ==> w[i] == v[i];
    assert w[k - 1] == stale[k - 1] + 1.0 && v[k - 1] == stale[k - 1];
    hide Column, DotAt;
    DotLast(a, m * k, w, v, k);
  }

  /** Unpack the whole blocks of column n into the buffer. */
  method LoadColumn(p: Packed, k: nat, n: nat, temp: array<real>, ghost stale: seq<real>) returns (w: seq<real>)
    requires (n + 1) * (k / BLOCK) * GROUP <= |p.bytes| && k <= temp.Length == |stale|
    requires forall i :: k / BLOCK * BLOCK <= i < temp.Length ==> temp[i] == stale[i]
    modifies temp
    ensures w == Column(p, k, n, stale)
    ensures forall i :: k / BLOCK * BLOCK <= i < temp.Length ==> temp[i] == stale[i]
  {
    var q := k / BLOCK;
    var from, scale := n * q, ScaleIn(p);
    assert (n + 1) * q == from + q;
    for block := 0 to q
      invariant forall i :: 0 <= i < BLOCK * block ==> Holds(p.bytes, scale, from, temp[i], i)
      invariant forall i :: BLOCK * block <= i < temp.Length ==> temp[i] == old(temp[i])
    {
      hide Holds;
      UnpackBlock(p.bytes, scale, from, temp, block, BLOCK);
    }
    w := temp[..k];
  }

  /** All rows and columns, one column at a time. */
  method MatmulI2S(a: seq<real>, rows: nat, k: nat, cols: nat, p: Packed, temp: array<real>) returns (out: array<real>)
    requires ValidPacked(p) && p.n == k * cols && |a| == rows * k && temp.Length >= k
    modifies temp
    ensures out.Length == rows * cols
    ensures forall i :: 0 <= i < out.Length ==>
      IsEntry(a, k, cols, p, old(temp[..]), out[i], i)
  {
    hide IsEntry, Column;
    ghost var stale := temp[..];
    out := new real[rows * cols];
    for n := 0 to cols
      invariant forall i :: k / BLOCK * BLOCK <= i < temp.Length ==> temp[i] == stale[i]
      invariant forall i :: 0 <= i < out.Length && i % cols < n ==> IsEntry(a, k, cols, p, stale, out[i], i)
    {
      ColumnsFit(k, n, cols);
      var w := LoadColumn(p, k, n, temp, stale);
      GemmColumn(a, rows, k, cols, p, stale, n, w, out);
    }
  }

  /** One output column: the dot products of all rows with it. */
  method GemmColumn(a: seq<real>, rows: nat, k: nat, cols: nat, p: Packed, ghost stale: seq<real>, n: nat, w: seq<real>,
                    out: array<real>)
    requires ValidPacked(p) && p.n == k * cols && |a| == rows * k && k <= |stale| && n < cols
      && out.Length == rows * cols
    requires (n + 1) * (k / BLOCK) * GROUP <= |p.bytes| && w == Column(p, k, n, stale)
    requires forall i :: 0 <= i < out.Length && i % cols < n ==> IsEntry(a, k, cols, p, stale, out[i], i)
    modifies out
    ensures forall i :: 0 <= i < out.Length && i % cols < n + 1 ==> IsEntry(a, k, cols, p, stale, out[i], i)
  {
    hide IsEntry, IsGemm, Column, ValidPacked, Earlier;
    forall i | 0 <= i < out.Length ensures Earlier(i, cols, n, 0) <==> i % cols < n { EarlierEnds(i, rows, cols, n); }
    for m := 0 to rows
      invariant forall i :: 0 <= i < out.Length && Earlier(i, cols, n, m) ==> IsEntry(a, k, cols, p, stale, out[i], i)
    {
      Arith.RowBounds(m, cols, rows);
      var sum := RowTimesColumn(a, rows, k, p, stale, m, n, w);
      EntryFrom(a, k, cols, p, stale, sum, m, n);
      out[m * cols + n] := sum;
      forall i | 0 <= i < out.Length ensures Earlier(i, cols, n, m + 1)
          <==> Earlier(i, cols, n, m) || i == m * cols + n {
        EarlierNext(i, cols, n, m);
      }
    }
    forall i | 0 <= i < out.Length ensures Earlier(i, cols, n, rows) <==> i % cols < n + 1 {
      EarlierEnds(i, rows, cols, n);
    }
  }

  /** Entry i lies in a column before n, or in column n and a row before m. */
  predicate Earlier(i: nat, cols: nat, n: nat, m: nat)
    requires cols > 0
  {
    i % cols < n || (i % cols == n && i / cols < m)
  }

  lemma {:induction false} EarlierNext(i: nat, cols: nat, n: nat, m: nat)
    requires n < cols
    ensures Earlier(i, cols, n, m + 1) <==> Earlier(i, cols, n, m) || i == m * cols + n
  {
    Arith.DivIs(m * cols + n, cols, m, n);
    assert i == i / cols * cols + i % cols;
  }

  lemma {:induction false} EarlierEnds(i: nat, rows: nat, cols: nat, n: nat)
    requires n < cols && i < rows * cols
    ensures Earlier(i, cols, n, 0) <==> i % cols < n
    ensures Earlier(i, cols, n, rows) <==> i % cols < n + 1
  {
    Arith.DivBelow(i, cols, rows);
  }

  lemma {:induction false} EntryFrom(a: seq<real>, k: nat, cols: nat, p: Packed, stale: seq<real>, v: real, m: nat,
                                     n: nat)
    requires n < cols && IsGemm(a, k, p, stale, v, m, n)
    ensures IsEntry(a, k, cols, p, stale, v, m * cols + n) && (m * cols + n) % cols == n
  {
    Arith.DivIs(m * cols + n, cols, m, n);
  }

  method RowTimesColumn(a: seq<real>, rows: nat, k: nat, p: Packed, ghost stale: seq<real>, m: nat, n: nat,
                        w: seq<real>)
    returns (sum: real)
    requires m < rows && |a| == rows * k && k <= |stale|
    requires (n + 1) * (k / BLOCK) * GROUP <= |p.bytes| && w == Column(p, k, n, stale)
    ensures IsGemm(a, k, p, stale, sum, m, n)
  {
    hide Column, DotAt;
    Arith.RowBounds(m, k, rows);
    sum := DotLanes(a, m * k, w);
  }
}
