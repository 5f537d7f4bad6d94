/** The GPT-2 alphabet, one character for every byte. */
module ByteLevel {
  // Every byte is spelled as one Unicode character, so that any byte string can be written as UTF-8 text without
  // spaces. Codepoints follow section 3 of RFC 3629.

  import opened Bytes

  // ----- UTF-8 -----

  function CpToUtf8(cp: nat): (s: Bytes)
    requires cp < 0x110000
    ensures 1 <= |s| <= 4
  {
    if cp < 0x80 then [cp]
    else if cp < 0x800 then [0xC0 + cp / 64, 0x80 + cp % 64]
    else if cp < 0x10000 then [0xE0 + cp / 4096, 0x80 + cp / 64 % 64, 0x80 + cp % 64]
    else [0xF0 + cp / 262144, 0x80 + cp / 4096 % 64, 0x80 + cp / 64 % 64, 0x80 + cp % 64]
  }

  /** The length utf8_decode and utf8_next report for the character at the head of s. Continuation bytes are
      not checked, and a character cut off by the end of the buffer counts as one byte. */
  function CharLen(s: Bytes): (n: nat)
    requires |s| > 0
    ensures 1 <= n <= |s|
  {
    if s[0] < 0x80 then 1
    else if s[0] < 0xE0 then (if 2 <= |s| then 2 else 1)
    else if s[0] < 0xF0 then (if 3 <= |s| then 3 else 1)
    else (if 4 <= |s| then 4 else 1)
  }

  // ----- the byte alphabet -----

  predicate Printable(b: int) {
    33 <= b <= 126 || 161 <= b <= 172 || 174 <= b <= 255
  }

  /** How many of the bytes below b are not printable. */
  function Rank(b: nat): (r: nat)
    ensures r <= b
  {
    if b == 0 then 0 else Rank(b - 1) + if Printable(b - 1) then 0 else 1
  }

  /** The codepoint that stands for byte b. */
  function ByteCp(b: byte): (cp: nat)
    ensures cp < 0x200
    ensures Printable(b) ==> cp == b
    ensures !Printable(b) ==> 0x100 <= cp
  {
    if Printable(b) then b else 0x100 + Rank(b)
  }

  function ByteChar(b: byte): (s: Bytes)
    ensures |s| == 1 || |s| == 2
    ensures |s| == 1 ==> s == [b] && 33 <= b <= 126
    ensures |s| == 2 ==> 0xC0 <= s[0] < 0xE0 && s[1] >= 0x80
  {
    CpToUtf8(ByteCp(b))
  }

  lemma {:induction false} RankIncreases(a: nat, b: nat)
    requires a < b && !Printable(a)
    ensures Rank(a) < Rank(b)
    decreases b
  {
    if a < b - 1 { RankIncreases(a, b - 1); }
  }

  /** No two bytes share a character. */
  lemma {:induction false} ByteCharInjective(a: byte, b: byte)
    requires ByteChar(a) == ByteChar(b)
    ensures a == b
  {
    var x, y := ByteCp(a), ByteCp(b);
    if x >= 0x80 && y >= 0x80 {
      var lead: int, tail: int := ByteChar(a)[0], ByteChar(a)[1];
      assert x == (lead - 0xC0) * 64 + (tail - 0x80) == y;
    }
    assert x == y;
    if !Printable(a) && !Printable(b) {
      if a < b { RankIncreases(a, b); }
      if b < a { RankIncreases(b, a); }
    }
  }

  lemma {:induction false} RankOf(b: nat)
    requires b <= 256
    ensures b <= 33 ==> Rank(b) == b
    ensures 33 <= b <= 127 ==> Rank(b) == 33
    ensures 127 <= b <= 161 ==> Rank(b) == b - 94
    ensures 161 <= b <= 173 ==> Rank(b) == 67
    ensures 174 <= b ==> Rank(b) == 68
  {
    if b > 0 { RankOf(b - 1); }
  }

  /** The alphabet by its ranges: the space is U+0120, the line feed U+010A, and U+0143 is the last one used. */
  lemma Alphabet(b: byte)
    ensures ByteCp(b) ==
      if b <= 32 then 0x100 + b
      else if b <= 126 then b
      else if b <= 160 then 0x121 + (b - 127)
      else if b == 173 then 0x143
      else b
  {
    RankOf(b);
  }

  /** The text that spells a byte string. */
  function Chars(bs: Bytes): Bytes {
    if |bs| == 0 then [] else ByteChar(bs[0]) + Chars(bs[1..])
  }

  lemma {:induction false} CharsConcat(a: Bytes, b: Bytes)
    ensures Chars(a + b) == Chars(a) + Chars(b)
  {
    hide ByteChar;
    if |a| == 0 {
      assert a + b == b;
    } else {
      CharsConcat(a[1..], b);
      assert (a + b)[1..] == a[1..] + b;
      Assoc(ByteChar(a[0]), Chars(a[1..]), Chars(b));
    }
  }

  /** The head of a spelled string is found whole by the character walk, whatever follows it. */
  lemma HeadChar(b: byte, rest: Bytes)
    ensures CharLen(ByteChar(b) + rest) == |ByteChar(b)|
    ensures (ByteChar(b) + rest)[..|ByteChar(b)|] == ByteChar(b)
    ensures (ByteChar(b) + rest)[|ByteChar(b)|..] == rest
  {
  }

  // ----- decoding -----

  /** The two tables of init_byte_encoding as a value: character to byte. */
  ghost predicate ByteTable(table: map<Bytes, byte>) {
    && (forall b: byte :: ByteChar(b) in table && table[ByteChar(b)] == b)
    && (forall s :: s in table ==> exists b: byte :: s == ByteChar(b))
  }

  /** The character walk of `decode`: known characters become their byte, others pass through. */
  function DecodePiece(table: map<Bytes, byte>, s: Bytes): Bytes {
    if |s| == 0 then []
    else
      var n := CharLen(s);
      (if s[..n] in table then [table[s[..n]]] else s[..n]) + DecodePiece(table, s[n..])
  }

  lemma DecodeHead(table: map<Bytes, byte>, b: byte, tail: Bytes)
    requires ByteTable(table)
    ensures DecodePiece(table, ByteChar(b) + tail) == [b] + DecodePiece(table, tail)
  {
    HeadChar(b, tail);
  }

  /** Unique decodability: the walk inverts the spelling, with anything after it. */
  lemma {:induction false} DecodeChars(table: map<Bytes, byte>, bs: Bytes, rest: Bytes)
    requires ByteTable(table)
    ensures DecodePiece(table, Chars(bs) + rest) == bs + DecodePiece(table, rest)
    decreases |bs|
  {
    if |bs| == 0 {
      assert Chars(bs) + rest == rest;
    } else {
      var tail := Chars(bs[1..]) + rest;
      Assoc(ByteChar(bs[0]), Chars(bs[1..]), rest);
      DecodeHead(table, bs[0], tail);
      DecodeChars(table, bs[1..], rest);
      assert bs == [bs[0]] + bs[1..];
      Assoc([bs[0]], bs[1..], DecodePiece(table, rest));
    }
  }

  /** ASCII text stays as it is: a printable character stands for itself, the others are in no table. */
  lemma {:induction false} AsciiDecodesToItself(table: map<Bytes, byte>, s: Bytes)
    requires ByteTable(table) && forall i :: 0 <= i < |s| ==> s[i] < 0x80
    ensures DecodePiece(table, s) == s
  {
    if |s| > 0 {
      AsciiDecodesToItself(table, s[1..]);
      var key := s[..1];
      if key in table {
        var b: byte :| key == ByteChar(b);
        assert table[key] == b == s[0];
      }
    }
  }

  // ----- no spaces -----

  const SPACE: byte := 0x20

  ghost predicate NoSpace(s: Bytes) {
    forall i :: 0 <= i < |s| ==> s[i] != SPACE
  }

  lemma {:induction false} CharsHaveNoSpace(bs: Bytes)
    ensures NoSpace(Chars(bs))
  {
    if |bs| > 0 { CharsHaveNoSpace(bs[1..]); }
  }

  // ----- init_byte_encoding -----

  /** Both tables filled for exactly the bytes in `mapped`. */
  ghost predicate Filled(toChar: seq<Bytes>, toByte: map<Bytes, byte>, mapped: set<int>) {
    && |toChar| == 256
    && (forall b: byte :: b in mapped ==> toChar[b] == ByteChar(b) && ByteChar(b) in toByte && toByte[ByteChar(b)] == b)
    && (forall s :: s in toByte ==> exists b: byte :: b in mapped && s == ByteChar(b))
  }

  lemma FillOne(toChar: seq<Bytes>, toByte: map<Bytes, byte>, mapped: set<int>, b: byte)
    requires Filled(toChar, toByte, mapped)
    ensures Filled(toChar[b := ByteChar(b)], toByte[ByteChar(b) := b], mapped + {b})
  {
    forall c: byte | c in mapped && ByteChar(c) == ByteChar(b) ensures c == b {
      ByteCharInjective(c, b);
    }
  }

  class Tables {
    const toChar: array<Bytes>
    var toByte: map<Bytes, byte>
    var mapped: set<int>

    /** init_byte_encoding: three printable ranges, then the other bytes on codepoints 256, 257, ... */
    constructor ()
      ensures ByteTable(toByte)
      ensures toChar.Length == 256 && forall b: byte :: toChar[b] == ByteChar(b)
    {
      toChar := new Bytes[256](i => []);
      toByte := map[];
      mapped := {};
      new;
      hide ByteChar;
      AddRange(33, 126);
      AddRange(161, 172);
      AddRange(174, 255);
      AddRest();
    }

    /** The bytes not mapped yet, in order, on codepoints 256, 257, ... */
    method AddRest()
      requires Valid() && forall b: byte :: b in mapped <==> Printable(b)
      modifies this, toChar
      ensures Valid() && forall b: byte :: b in mapped
    {
      hide ByteChar, Filled;
      var n := 0;
      for i := 0 to 256
        invariant n == Rank(i) && Valid()
        invariant forall b: byte :: b in mapped <==> Printable(b) || b < i
      {
        if i !in mapped {
          Add(i, 0x100 + n);
          n := n + 1;
        }
      }
    }

    ghost predicate Valid()
      reads this, toChar
    {
      Filled(toChar[..], toByte, mapped)
    }

    method Add(b: byte, cp: nat)
      requires Valid() && cp == ByteCp(b)
      modifies this, toChar
      ensures Valid() && mapped == old(mapped) + {b}
    {
      FillOne(toChar[..], toByte, mapped, b);
      toChar[b] := CpToUtf8(cp);
      toByte := toByte[toChar[b] := b];
      mapped := mapped + {b};
    }

    method AddRange(lo: byte, hi: byte)
      requires Valid() && lo <= hi && forall b: byte :: lo <= b <= hi ==> Printable(b)
      modifies this, toChar
      ensures Valid() && forall b: int :: b in mapped <==> b in old(mapped) || lo <= b <= hi
    {
      for i := lo to hi + 1
        invariant Valid() && forall b: int :: b in mapped <==> b in old(mapped) || lo <= b < i
      {
        Add(i, i);
      }
    }
  }
}
