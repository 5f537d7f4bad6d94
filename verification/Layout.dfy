/** Byte regions placed one after the other, each start rounded up to an alignment: offsets, disjointness, and where
    each region's bytes are found again. */
module Layout {
  import Arith
  import opened Bytes
  import opened Encoding

  function AlignUp(x: nat, a: nat): (r: nat)
    requires a > 0
    ensures x <= r < x + a
    ensures r % a == 0
    ensures x % a == 0 ==> r == x
  {
    Aligned(x, a);
    (x + a - 1) / a * a
  }

  lemma {:induction false} Aligned(x: nat, a: nat)
    requires a > 0
    ensures var r := (x + a - 1) / a * a; x <= r < x + a && r % a == 0 && (x % a == 0 ==> r == x)
  {
    var y := x + a - 1;
    assert y == y / a * a + y % a;
    Multiple(y / a, a);
    if x % a == 0 {
      assert x == x / a * a;
      Nearest(x / a, y / a, a);
    }
  }

  lemma {:induction false} Multiple(q: nat, a: nat)
    requires a > 0
    ensures q * a % a == 0
  {
    Arith.DivIs(q * a, a, q, 0);
  }

  lemma {:induction false} Nearest(p: nat, q: nat, a: nat)
    requires a > 0 && p * a <= q * a < p * a + a
    ensures p == q
  {
    if p < q { Arith.RowsApart(p, q, a); }
    if q < p { Arith.RowsApart(q, p, a); }
  }

  lemma {:induction false} SumAligned(x: nat, y: nat, a: nat)
    requires a > 0 && x % a == 0 && y % a == 0
    ensures (x + y) % a == 0
  {
    var p, q := x / a, y / a;
    assert x + y == (p + q) * a;
    Multiple(p + q, a);
  }

  /** The writers compute the padding from the remainder. */
  lemma {:induction false} PadLength(x: nat, a: nat)
    requires a > 0
    ensures AlignUp(x, a) == if x % a == 0 then x else x + (a - x % a)
  {
    if x % a != 0 {
      var r := x + (a - x % a);
      assert r == (x / a + 1) * a;
      Multiple(x / a + 1, a);
      Between(r, AlignUp(x, a), a);
    }
  }

  function Zeros(n: nat): (z: Bytes)
    ensures |z| == n
  {
    seq(n, _ => 0)
  }

  function Padded(x: Bytes, a: nat): (r: Bytes)
    requires a > 0
    ensures |r| == AlignUp(|x|, a)
  {
    x + Zeros(AlignUp(|x|, a) - |x|)
  }

  /** A front of two parts, padded, and what follows it. */
  lemma ThreeParts(a: Bytes, b: Bytes, c: Bytes, align: nat)
    requires align > 0
    ensures var buf := Padded(a + b, align) + c;
      HasAt(buf, 0, a) && HasAt(buf, |a|, b) && HasAt(buf, AlignUp(|a| + |b|, align), c)
  {
    var buf, front := Padded(a + b, align) + c, a + b;
    assert HasAt(buf, 0, buf);
    HasAtConcat(buf, 0, Padded(front, align), c);
    HasAtConcat(buf, 0, front, Zeros(AlignUp(|front|, align) - |front|));
    HasAtConcat(buf, 0, a, b);
  }

  /** The regions laid out in order, each padded with zeros to the alignment. */
  function Packed(parts: seq<Bytes>, a: nat): Bytes
    requires a > 0
  {
    if |parts| == 0 then [] else Padded(parts[0], a) + Packed(parts[1..], a)
  }

  /** Where each region starts when the first one starts at off. */
  function Offsets(parts: seq<Bytes>, off: nat, a: nat): (os: seq<nat>)
    requires a > 0
    ensures |os| == |parts|
  {
    if |parts| == 0 then [] else [off] + Offsets(parts[1..], AlignUp(off + |parts[0]|, a), a)
  }

  lemma {:induction false} StepIsPadding(off: nat, x: Bytes, a: nat)
    requires a > 0 && off % a == 0
    ensures AlignUp(off + |x|, a) == off + |Padded(x, a)|
  {
    var r := AlignUp(|x|, a);
    SumAligned(off, r, a);
    var s := AlignUp(off + |x|, a);
    assert off + r == (off + r) / a * a && s == s / a * a;
    Between(off + r, s, a);
  }

  lemma {:induction false} Between(x: nat, y: nat, a: nat)
    requires a > 0 && x % a == 0 && y % a == 0 && x < y + a && y < x + a
    ensures x == y
  {
    assert x == x / a * a && y == y / a * a;
    if x <= y { Nearest(x / a, y / a, a); } else { Nearest(y / a, x / a, a); }
  }

  lemma {:induction false} OffsetsAligned(parts: seq<Bytes>, off: nat, a: nat, i: nat)
    requires a > 0 && off % a == 0 && i < |parts|
    ensures Offsets(parts, off, a)[i] % a == 0 && Offsets(parts, off, a)[i] >= off
  {
    if i > 0 { OffsetsAligned(parts[1..], AlignUp(off + |parts[0]|, a), a, i - 1); }
  }

  /** Regions do not overlap. */
  lemma {:induction false} RegionsDisjoint(parts: seq<Bytes>, off: nat, a: nat, i: nat, j: nat)
    requires a > 0 && off % a == 0 && i < j < |parts|
    ensures Offsets(parts, off, a)[i] + |parts[i]| <= Offsets(parts, off, a)[j]
  {
    var next := AlignUp(off + |parts[0]|, a);
    if i > 0 { RegionsDisjoint(parts[1..], next, a, i - 1, j - 1); }
    else { OffsetsAligned(parts[1..], next, a, j - 1); }
  }

  /** Padding the whole file pads its last region. */
  lemma {:induction false} PadTail(front: Bytes, x: Bytes, a: nat)
    requires a > 0 && |front| % a == 0
    ensures Padded(front + x, a) == front + Padded(x, a)
  {
    StepIsPadding(|front|, x, a);
    Assoc(front, x, Zeros(AlignUp(|x|, a) - |x|));
  }

  /** If packed regions lie at base + off, then each region lies at base plus its offset. */
  lemma {:induction false} RegionAt(buf: Bytes, base: nat, parts: seq<Bytes>, off: nat, a: nat, i: nat)
    requires a > 0 && off % a == 0 && i < |parts|
    requires HasAt(buf, base + off, Packed(parts, a))
    ensures HasAt(buf, base + Offsets(parts, off, a)[i], parts[i])
  {
    var rest := Packed(parts[1..], a);
    HasAtConcat(buf, base + off, Padded(parts[0], a), rest);
    if i == 0 {
      HasAtConcat(buf, base + off, parts[0], Zeros(AlignUp(|parts[0]|, a) - |parts[0]|));
    } else {
      StepIsPadding(off, parts[0], a);
      RegionAt(buf, base, parts[1..], off + |Padded(parts[0], a)|, a, i - 1);
    }
  }

  /** The end of the last region, rounded up. */
  function EndOffset(parts: seq<Bytes>, off: nat, a: nat): nat
    requires a > 0
  {
    if |parts| == 0 then off else EndOffset(parts[1..], AlignUp(off + |parts[0]|, a), a)
  }

  lemma {:induction false} EndIsLength(parts: seq<Bytes>, off: nat, a: nat)
    requires a > 0 && off % a == 0
    ensures EndOffset(parts, off, a) == off + |Packed(parts, a)|
  {
    if |parts| > 0 {
      StepIsPadding(off, parts[0], a);
      EndIsLength(parts[1..], AlignUp(off + |parts[0]|, a), a);
    }
  }

  // ----- appending one region, the way the planning loops proceed -----

  lemma {:induction false} OffsetsAppend(parts: seq<Bytes>, x: Bytes, off: nat, a: nat)
    requires a > 0
    ensures Offsets(parts + [x], off, a) == Offsets(parts, off, a) + [EndOffset(parts, off, a)]
    ensures EndOffset(parts + [x], off, a) == AlignUp(EndOffset(parts, off, a) + |x|, a)
  {
    if |parts| == 0 {
      assert parts + [x] == [x];
      assert EndOffset([x], off, a) == EndOffset([], AlignUp(off + |x|, a), a);
    } else {
      assert (parts + [x])[1..] == parts[1..] + [x];
      OffsetsAppend(parts[1..], x, AlignUp(off + |parts[0]|, a), a);
    }
  }

  lemma {:induction false} PackedAppend(parts: seq<Bytes>, x: Bytes, a: nat)
    requires a > 0
    ensures Packed(parts + [x], a) == Packed(parts, a) + Padded(x, a)
  {
    if |parts| == 0 {
      assert parts + [x] == [x] && [x][1..] == [];
      assert Packed([x], a) == Padded(x, a) + Packed([], a);
    } else {
      assert (parts + [x])[1..] == parts[1..] + [x];
      PackedAppend(parts[1..], x, a);
      Assoc(Padded(parts[0], a), Packed(parts[1..], a), Padded(x, a));
    }
  }
}
