/** Little-endian integers, decimal numerals, and the predicate that some bytes lie at some position, which is how
    both file formats are read back. */
module Encoding {
  import Arith
  import opened Bytes

  function Pow256(n: nat): (p: nat)
    ensures p > 0
  {
    if n == 0 then 1 else 256 * Pow256(n - 1)
  }

  /** The n low-order bytes of v, lowest first. */
  function LE(v: nat, n: nat): (b: Bytes)
    ensures |b| == n
  {
    if n == 0 then [] else [v % 256] + LE(v / 256, n - 1)
  }

  function FromLE(b: Bytes): nat {
    if |b| == 0 then 0 else b[0] + 256 * FromLE(b[1..])
  }

  lemma {:induction false} FromLEBound(b: Bytes)
    ensures FromLE(b) < Pow256(|b|)
  {
    if |b| > 0 { FromLEBound(b[1..]); }
  }

  lemma {:induction false} IntegerRoundTrip(v: nat, n: nat)
    requires v < Pow256(n)
    ensures FromLE(LE(v, n)) == v
  {
    if n > 0 {
      IntegerRoundTrip(v / 256, n - 1);
      assert LE(v, n)[1..] == LE(v / 256, n - 1);
    }
  }

  /** Byte i holds the bits 8 * i and up. */
  lemma {:induction false} ByteOrder(v: nat, n: nat, i: nat)
    requires i < n
    ensures LE(v, n)[i] == v / Pow256(i) % 256
  {
    if i > 0 {
      ByteOrder(v / 256, n - 1, i - 1);
      DivTwice(v, 256, Pow256(i - 1));
    }
  }

  lemma DivTwice(v: nat, a: nat, b: nat)
    requires a > 0 && b > 0
    ensures a * b > 0 && v / a / b == v / (a * b)
  {
    var q, t := v / a, v % a;
    var r, s := q / b, q % b;
    assert a * b > 0;
    Recompose(v, a, b, q, r, s, t);
    Arith.DivIs(v, a * b, r, s * a + t);
  }

  lemma Recompose(v: nat, a: nat, b: nat, q: nat, r: nat, s: nat, t: nat)
    requires v == q * a + t && q == r * b + s && t < a && s < b
    ensures v == r * (a * b) + (s * a + t) && 0 <= s * a + t < a * b
  {
    assert q * a == r * (a * b) + s * a;
    assert s * a <= (b - 1) * a;
    assert (b - 1) * a == a * b - a;
  }

  lemma WidthOf4()
    ensures Pow256(4) == 0x1_0000_0000
  {
    assert Pow256(2) == 0x1_0000;
  }

  lemma WidthOf8()
    ensures Pow256(8) == 0x1_0000_0000_0000_0000
  {
    WidthOf4();
    assert Pow256(6) == 0x1_0000_0000_0000;
  }

  // ----- bytes at a position -----

  predicate HasAt(buf: Bytes, p: nat, x: Bytes) {
    p + |x| <= |buf| && buf[p..p + |x|] == x
  }

  lemma HasAtFits(buf: Bytes, p: nat, x: Bytes)
    requires HasAt(buf, p, x)
    ensures p + |x| <= |buf|
  {
  }

  lemma HasAtConcat(buf: Bytes, p: nat, a: Bytes, b: Bytes)
    ensures HasAt(buf, p, a + b) <==> HasAt(buf, p, a) && HasAt(buf, p + |a|, b)
  {
    var q, r := p + |a|, p + |a| + |b|;
    if r <= |buf| {
      assert buf[p..r] == buf[p..q] + buf[q..r];
      if HasAt(buf, p, a + b) {
        assert buf[p..q] == buf[p..r][..|a|] == a && buf[q..r] == buf[p..r][|a|..] == b;
      }
    }
  }

  lemma HasAtMiddle(pre: Bytes, x: Bytes, post: Bytes)
    ensures HasAt(pre + x + post, |pre|, x)
  {
  }

  /** Reading back a little-endian field. */
  lemma FieldReads(buf: Bytes, p: nat, v: nat, n: nat)
    requires HasAt(buf, p, LE(v, n)) && v < Pow256(n)
    ensures p + n <= |buf| && FromLE(buf[p..p + n]) == v
  {
    IntegerRoundTrip(v, n);
  }

  /** The bit pattern of a float. */
  type Float32 = b: Bytes | |b| == 4 witness [0, 0, 0, 0]

  /** The sizes written fit their fields when the buffer is smaller than 2^64 bytes. */
  ghost predicate FitsU64(buf: Bytes) { |buf| < 0x1_0000_0000_0000_0000 }

  // ----- decimal numerals -----

  const DOT: byte := 46

  function Digit(d: nat): byte
    requires d < 10
  {
    48 + d
  }

  /** std::to_string of a non-negative number. */
  function Decimal(n: nat): (s: Bytes)
    ensures |s| > 0 && DOT !in s
  {
    if n < 10 then [Digit(n)] else Decimal(n / 10) + [Digit(n % 10)]
  }

  lemma {:induction false} DecimalInjective(a: nat, b: nat)
    requires Decimal(a) == Decimal(b)
    ensures a == b
  {
    var s, t := Decimal(a), Decimal(b);
    assert s[|s| - 1] == Digit(a % 10) && t[|t| - 1] == Digit(b % 10);
    if a >= 10 && b >= 10 {
      assert s[..|s| - 1] == Decimal(a / 10) && t[..|t| - 1] == Decimal(b / 10);
      DecimalInjective(a / 10, b / 10);
    }
  }

  /** The bytes of an ASCII literal. */
  function Ascii(s: string): (b: Bytes)
    ensures |b| == |s|
    ensures forall i :: 0 <= i < |s| ==> b[i] == s[i] as int % 256
  {
    seq(|s|, i requires 0 <= i < |s| => (s[i] as int % 256) as byte)
  }
}
