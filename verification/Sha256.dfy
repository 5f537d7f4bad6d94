/** Streaming SHA-256 as in RFC 6234. */
module Sha256 {
  // Padding in section 4.1, functions in section 5.1, processing in section 6.2.

  import Arith
  import opened Bytes

  type Octet = bv8
  type Word = bv32

  const BLOCK: nat := 64

  // ----- section 5.1: functions and constants -----

  function Rotr(x: Word, n: nat): Word
    requires 0 < n < 32
  {
    (x >> n) | (x << (32 - n))
  }

  /** Addition modulo 2^32. */
  function Add(x: Word, y: Word): Word { x + y }

  function Ch(x: Word, y: Word, z: Word): Word { (x & y) ^ (!x & z) }
  function Maj(x: Word, y: Word, z: Word): Word { (x & y) ^ (x & z) ^ (y & z) }
  function BSig0(x: Word): Word { Rotr(x, 2) ^ Rotr(x, 13) ^ Rotr(x, 22) }
  function BSig1(x: Word): Word { Rotr(x, 6) ^ Rotr(x, 11) ^ Rotr(x, 25) }
  function SSig0(x: Word): Word { Rotr(x, 7) ^ Rotr(x, 18) ^ (x >> 3) }
  function SSig1(x: Word): Word { Rotr(x, 17) ^ Rotr(x, 19) ^ (x >> 10) }

  const K0: seq<Word> :=
    [0x428a2f98, 0x71374491, 0xb5c0fbcf, 0xe9b5dba5, 0x3956c25b, 0x59f111f1, 0x923f82a4, 0xab1c5ed5]
  const K1: seq<Word> :=
    [0xd807aa98, 0x12835b01, 0x243185be, 0x550c7dc3, 0x72be5d74, 0x80deb1fe, 0x9bdc06a7, 0xc19bf174]
  const K2: seq<Word> :=
    [0xe49b69c1, 0xefbe4786, 0x0fc19dc6, 0x240ca1cc, 0x2de92c6f, 0x4a7484aa, 0x5cb0a9dc, 0x76f988da]
  const K3: seq<Word> :=
    [0x983e5152, 0xa831c66d, 0xb00327c8, 0xbf597fc7, 0xc6e00bf3, 0xd5a79147, 0x06ca6351, 0x14292967]
  const K4: seq<Word> :=
    [0x27b70a85, 0x2e1b2138, 0x4d2c6dfc, 0x53380d13, 0x650a7354, 0x766a0abb, 0x81c2c92e, 0x92722c85]
  const K5: seq<Word> :=
    [0xa2bfe8a1, 0xa81a664b, 0xc24b8b70, 0xc76c51a3, 0xd192e819, 0xd6990624, 0xf40e3585, 0x106aa070]
  const K6: seq<Word> :=
    [0x19a4c116, 0x1e376c08, 0x2748774c, 0x34b0bcb5, 0x391c0cb3, 0x4ed8aa4a, 0x5b9cca4f, 0x682e6ff3]
  const K7: seq<Word> :=
    [0x748f82ee, 0x78a5636f, 0x84c87814, 0x8cc70208, 0x90befffa, 0xa4506ceb, 0xbef9a3f7, 0xc67178f2]

  const K: seq<Word> := K0 + K1 + K2 + K3 + K4 + K5 + K6 + K7

  /** The hash value H0..H7, or the working variables a..h. */
  datatype Regs = Regs(a: Word, b: Word, c: Word, d: Word, e: Word, f: Word, g: Word, h: Word)

  const IV: Regs := Regs(0x6a09e667, 0xbb67ae85, 0x3c6ef372, 0xa54ff53a, 0x510e527f, 0x9b05688c, 0x1f83d9ab, 0x5be0cd19)

  // ----- section 6.2: processing one block -----

  function Be32(b: seq<Octet>, p: nat): Word
    requires p + 4 <= |b|
  {
    ((b[p] as Word) << 24) | ((b[p + 1] as Word) << 16) | ((b[p + 2] as Word) << 8) | (b[p + 3] as Word)
  }

  /** The message schedule. */
  function W(blk: seq<Octet>, t: nat): Word
    requires |blk| == BLOCK && t < 64
  {
    if t < 16 then Be32(blk, 4 * t)
    else Add(Add(Add(SSig1(W(blk, t - 2)), W(blk, t - 7)), SSig0(W(blk, t - 15))), W(blk, t - 16))
  }

  lemma ScheduleHead(blk: seq<Octet>, t: nat)
    requires |blk| == BLOCK && t < 16
    ensures W(blk, t) == Be32(blk, 4 * t)
  {
  }

  lemma ScheduleTail(blk: seq<Octet>, t: nat)
    requires |blk| == BLOCK && 16 <= t < 64
    ensures W(blk, t) == Add(Add(Add(SSig1(W(blk, t - 2)), W(blk, t - 7)), SSig0(W(blk, t - 15))), W(blk, t - 16))
  {
    hide SSig0, SSig1, Be32, Add;
  }

  /** The bit counter wraps at 2^64. */
  lemma AddBits(a: nat, b: nat)
    ensures (8 * a % TWO64 + b * 8) % TWO64 == 8 * (a + b) % TWO64
  {
  }

  function Round(r: Regs, k: Word, w: Word): Regs {
    var t1 := Add(Add(Add(Add(r.h, BSig1(r.e)), Ch(r.e, r.f, r.g)), k), w);
    var t2 := Add(BSig0(r.a), Maj(r.a, r.b, r.c));
    Regs(Add(t1, t2), r.a, r.b, r.c, Add(r.d, t1), r.e, r.f, r.g)
  }

  function Rounds(r: Regs, blk: seq<Octet>, t: nat): Regs
    requires |blk| == BLOCK && t <= 64
  {
    if t == 0 then r else Round(Rounds(r, blk, t - 1), K[t - 1], W(blk, t - 1))
  }

  function AddRegs(x: Regs, y: Regs): Regs {
    Regs(Add(x.a, y.a), Add(x.b, y.b), Add(x.c, y.c), Add(x.d, y.d),
         Add(x.e, y.e), Add(x.f, y.f), Add(x.g, y.g), Add(x.h, y.h))
  }

  function CompressSpec(h: Regs, blk: seq<Octet>): Regs
    requires |blk| == BLOCK
  {
    AddRegs(h, Rounds(h, blk, 64))
  }

  /** The hash value after all complete blocks. */
  function Blocks(h: Regs, m: seq<Octet>): Regs
    decreases |m|
  {
    if |m| < BLOCK then h else Blocks(CompressSpec(h, m[..BLOCK]), m[BLOCK..])
  }

  lemma {:induction false} BlocksAppend(h: Regs, m: seq<Octet>, blk: seq<Octet>)
    requires |m| % BLOCK == 0 && |blk| == BLOCK
    ensures Blocks(h, m + blk) == CompressSpec(Blocks(h, m), blk)
    decreases |m|
  {
    hide CompressSpec;
    if |m| == 0 {
      assert m + blk == blk && blk[..BLOCK] == blk && |blk[BLOCK..]| == 0;
    } else {
      assert (m + blk)[..BLOCK] == m[..BLOCK] && (m + blk)[BLOCK..] == m[BLOCK..] + blk;
      BlocksAppend(CompressSpec(h, m[..BLOCK]), m[BLOCK..], blk);
    }
  }

  // ----- section 4.1: padding -----

  function ZeroOctets(n: nat): (z: seq<Octet>)
    ensures |z| == n
  {
    seq(n, _ => 0)
  }

  /** The number of zero octets after the marker. */
  function PadZeros(n: nat): (k: nat)
    ensures k < BLOCK
  {
    (119 - n % BLOCK) % BLOCK
  }

  /** It is the least number that leaves room for exactly the length field. */
  lemma {:induction false} PadZerosLeast(n: nat, k: nat)
    ensures (n + 1 + PadZeros(n)) % BLOCK == 56
    ensures (n + 1 + k) % BLOCK == 56 ==> k >= PadZeros(n)
    ensures (n + 1 + k) % BLOCK == 56 && k < BLOCK ==> k == PadZeros(n)
  {
    var q, r := (n + 1) / BLOCK, (n + 1) % BLOCK;
    var z := PadZeros(n);
    ResidueOf(n + 1 + z, if r <= 56 then q else q + 1);
    var j, s := (n + 1 + k) / BLOCK, (n + 1 + k) % BLOCK;
    assert n + 1 == BLOCK * q + r && n + 1 + k == BLOCK * j + s;
  }

  lemma ResidueOf(x: nat, q: nat)
    requires x == BLOCK * q + 56
    ensures x % BLOCK == 56
  {
  }

  /** n octets, most significant first. */
  function BigEndian(v: nat, n: nat): (b: seq<Octet>)
    ensures |b| == n
  {
    if n == 0 then [] else BigEndian(v / 256, n - 1) + [(v % 256) as Octet]
  }

  const TWO64: nat := 0x1_0000_0000_0000_0000

  function Pad(m: seq<Octet>): seq<Octet> {
    m + [0x80] + ZeroOctets(PadZeros(|m|)) + BigEndian(8 * |m| % TWO64, 8)
  }

  /** The padded message is a whole number of blocks. */
  lemma {:induction false} PadIsBlocks(m: seq<Octet>)
    ensures |Pad(m)| % BLOCK == 0 && |m| + 9 <= |Pad(m)| < |m| + 9 + BLOCK
  {
    WholeBlocks(|m| + 1 + PadZeros(|m|), |m|);
    hide PadZeros, BigEndian, ZeroOctets;
    assert |Pad(m)| == |m| + 1 + PadZeros(|m|) + 8;
  }

  lemma WholeBlocks(n: nat, of: nat)
    requires n == of + 1 + PadZeros(of)
    ensures (n + 8) % BLOCK == 0
  {
    PadZerosLeast(of, 0);
    Arith.DivIs(n + 8, BLOCK, n / BLOCK + 1, 0);
  }

  function WordOctets(w: Word): (b: seq<Octet>)
    ensures |b| == 4
  {
    [((w >> 24) & 0xff) as Octet, ((w >> 16) & 0xff) as Octet, ((w >> 8) & 0xff) as Octet, (w & 0xff) as Octet]
  }

  function RegsOctets(r: Regs): (b: seq<Octet>)
    ensures |b| == 32
  {
    WordOctets(r.a) + WordOctets(r.b) + WordOctets(r.c) + WordOctets(r.d)
    + WordOctets(r.e) + WordOctets(r.f) + WordOctets(r.g) + WordOctets(r.h)
  }

  /** The digest of a message. */
  function Digest(m: seq<Octet>): (b: seq<Octet>)
    ensures |b| == 32
  {
    RegsOctets(Blocks(IV, Pad(m)))
  }

  // ----- the streaming context -----

  /** `full` remembers the blocks already compressed. */
  class Ctx {
    var h: Regs
    const buf: array<Octet>
    var bits: nat
    var blen: nat
    ghost var full: seq<Octet>

    ghost predicate Valid()
      reads this, buf
    {
      && buf.Length == BLOCK && blen < BLOCK && |full| % BLOCK == 0
      && h == Blocks(IV, full) && bits == 8 * (|full| + blen) % TWO64
    }

    /** Everything fed in so far. */
    ghost function Message(): seq<Octet>
      reads this, buf
      requires Valid()
    {
      full + buf[..blen]
    }

    constructor ()
      ensures Valid() && Message() == [] && fresh(buf)
    {
      h := IV;
      buf := new Octet[BLOCK];
      bits, blen, full := 0, 0, [];
    }

    /** One block into the hash value. */
    method Compress()
      requires buf.Length == BLOCK
      modifies this`h
      ensures h == CompressSpec(old(h), buf[..])
    {
      hide Round, W, AddRegs;
      var start, blk := h, buf[..];
      var w := Schedule(blk);
      var r := start;
      for i := 0 to 64
        invariant h == start && r == Rounds(start, blk, i)
        invariant forall t :: 0 <= t < 64 ==> w[t] == W(blk, t)
      {
        r := NextRound(r, K[i], w[i]);
      }
      h := AddRegs(start, r);
    }

    static method NextRound(r: Regs, k: Word, w: Word) returns (r': Regs)
      ensures r' == Round(r, k, w)
    {
      hide BSig0, BSig1, Ch, Maj, Add;
      var t1 := Add(Add(Add(Add(r.h, BSig1(r.e)), Ch(r.e, r.f, r.g)), k), w);
      var t2 := Add(BSig0(r.a), Maj(r.a, r.b, r.c));
      r' := r.(h := r.g, g := r.f, f := r.e, e := Add(r.d, t1), d := r.c, c := r.b, b := r.a, a := Add(t1, t2));
    }

    static method Schedule(blk: seq<Octet>) returns (w: array<Word>)
      requires |blk| == BLOCK
      ensures w.Length == 64 && forall t :: 0 <= t < 64 ==> w[t] == W(blk, t)
    {
      hide W, SSig0, SSig1, Be32, Add;
      w := new Word[64];
      for i := 0 to 16
        invariant forall t :: 0 <= t < i ==> w[t] == W(blk, t)
      {
        ScheduleHead(blk, i);
        w[i] := Be32(blk, 4 * i);
      }
      for i := 16 to 64
        invariant forall t :: 0 <= t < i ==> w[t] == W(blk, t)
      {
        ScheduleTail(blk, i);
        var two, seven, fifteen, sixteen := i - 2, i - 7, i - 15, i - 16;
        w[i] := Add(Add(Add(SSig1(w[two]), w[seven]), SSig0(w[fifteen])), w[sixteen]);
      }
    }

    /** Feed more data: buffer it, compressing each time 64 octets are there. */
    method Update(data: seq<Octet>)
      requires Valid()
      modifies this, buf
      ensures Valid() && Message() == old(Message()) + data
    {
      hide Blocks;
      bits := (bits + |data| * 8) % TWO64;
      AddBits(|full| + blen, |data|);
      ghost var total := |full| + blen + |data|;
      TakeAll(data);
      assert |full + buf[..blen]| == total;
    }

    /** As many octets at a time as the buffer has room for. */
    method TakeAll(data: seq<Octet>)
      requires Filled()
      modifies this`h, this`blen, this`full, buf
      ensures Filled() && full + buf[..blen] == old(full + buf[..blen]) + data
    {
      hide Filled;
      ghost var before := full + buf[..blen];
      var p := 0;
      while p < |data|
        invariant p <= |data| && Filled() && full + buf[..blen] == before + data[..p]
      {
        var cp := Room();
        if cp > |data| - p { cp := |data| - p; }
        Take(data[p..p + cp]);
        TakeMore(data, p, cp);
        Assoc(before, data[..p], data[p..p + cp]);
        p := p + cp;
      }
      assert data[..p] == data;
    }

    method Room() returns (n: nat)
      requires Filled()
      ensures 0 < n == BLOCK - blen
    {
      n := BLOCK - blen;
    }

    ghost predicate Filled()
      reads this, buf
      ensures Filled() ==> buf.Length == BLOCK && blen < BLOCK
    {
      buf.Length == BLOCK && blen < BLOCK && |full| % BLOCK == 0 && h == Blocks(IV, full)
    }

    /** Buffer a piece that fits; a full buffer is compressed at once. */
    method Take(piece: seq<Octet>)
      requires Filled() && |piece| <= BLOCK - blen
      modifies this`h, this`blen, this`full, buf
      ensures Filled() && full + buf[..blen] == old(full + buf[..blen]) + piece
    {
      hide Blocks, CompressSpec;
      Copy(piece);
      blen := blen + |piece|;
      if blen == BLOCK {
        assert buf[..blen] == buf[..];
        Compress();
        BlocksAppend(IV, full, buf[..]);
        full := full + buf[..];
        blen := 0;
        assert full + buf[..0] == full;
      }
    }

    /** memcpy into the buffer at its fill level. */
    method Copy(piece: seq<Octet>)
      requires buf.Length == BLOCK && blen + |piece| <= BLOCK
      modifies buf
      ensures buf[..blen + |piece|] == old(buf[..blen]) + piece
      ensures full + buf[..blen + |piece|] == old(full + buf[..blen]) + piece
    {
      forall i | 0 <= i < |piece| { buf[blen + i] := piece[i]; }
      Assoc(full, old(buf[..blen]), piece);
    }

    lemma FillIsResidue()
      requires Valid()
      ensures blen == |Message()| % BLOCK
      ensures blen == 0 ==> h == Blocks(IV, Message())
    {
      Arith.DivIs(|Message()|, BLOCK, |full| / BLOCK, blen);
      assert blen == 0 ==> Message() == full;
    }

    /** Pad and emit the digest. */
    method Finalize() returns (out: seq<Octet>)
      requires Valid()
      modifies this, buf
      ensures out == Digest(old(Message()))
    {
      hide Blocks, BigEndian, Valid, PadZeros, Message, Add, AddRegs, ZeroOctets;
      ghost var m := Message();
      var length := Bits();
      Update([0x80]);
      PadLoop(m);
      Update(BigEndian(length, 8));
      PadIsBlocks(m);
      FillIsResidue();
      out := RegsOctets(h);
    }

    /** Zeros until exactly the length field is missing. */
    method PadLoop(ghost m: seq<Octet>)
      requires Valid() && Message() == m + [0x80]
      modifies this, buf
      ensures Valid() && Message() == m + [0x80] + ZeroOctets(PadZeros(|m|))
    {
      hide Blocks, BigEndian, Valid, PadZeros, Message, Add, AddRegs;
      assert m + [0x80] + ZeroOctets(0) == m + [0x80];
      FillIsResidue();
      ghost var zeros := 0;
      while blen != 56
        invariant Valid() && Message() == m + [0x80] + ZeroOctets(zeros)
        invariant blen == (|m| + 1 + zeros) % BLOCK && zeros <= PadZeros(|m|)
        decreases PadZeros(|m|) - zeros
      {
        PadZerosLeast(|m|, zeros);
        Update([0]);
        assert ZeroOctets(zeros) + [0] == ZeroOctets(zeros + 1);
        Assoc(m + [0x80], ZeroOctets(zeros), [0]);
        zeros := zeros + 1;
        FillIsResidue();
      }
      PadZerosLeast(|m|, zeros);
    }

    method Bits() returns (n: nat)
      requires Valid()
      ensures n == 8 * |Message()| % TWO64
    {
      n := bits;
    }
  }

  /** However the message is cut into pieces, the digest is the one of the whole. */
  method HashPieces(pieces: seq<seq<Octet>>) returns (out: seq<Octet>)
    ensures out == Digest(Flatten(pieces))
  {
    hide Digest;
    var c := new Ctx();
    for i := 0 to |pieces|
      invariant c.Valid() && fresh(c) && fresh(c.buf) && c.Message() == Flatten(pieces[..i])
    {
      c.Update(pieces[i]);
      assert pieces[..i + 1] == pieces[..i] + [pieces[i]];
      FlattenConcat(pieces[..i], [pieces[i]]);
      FlattenOne(pieces[i]);
    }
    assert pieces[..|pieces|] == pieces;
    out := c.Finalize();
  }

  /** A file is hashed in chunks of at most 65536 bytes. */
  method HashFile(file: seq<Octet>) returns (out: seq<Octet>)
    ensures out == Digest(file)
  {
    hide Digest, Blocks, Ctx.Valid, Ctx.Message;
    var c := new Ctx();
    var p := 0;
    while p < |file|
      invariant p <= |file| && c.Valid() && fresh(c) && fresh(c.buf) && c.Message() == file[..p]
    {
      var n := if |file| - p < 65536 then |file| - p else 65536;
      c.Update(file[p..p + n]);
      TakeMore(file, p, n);
      p := p + n;
    }
    assert file[..p] == file;
    out := c.Finalize();
  }

  lemma TakeMore(s: seq<Octet>, p: nat, n: nat)
    requires p + n <= |s|
    ensures s[..p] + s[p..p + n] == s[..p + n]
  {
  }
}
