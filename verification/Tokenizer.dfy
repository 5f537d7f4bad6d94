/** The tokenizer's round trip. */
module Tokenizers {
  // Encoding and decoding of `Tokenizer`, on every byte string.

  import opened Bytes
  import opened ByteLevel
  import opened Bpe
  import opened PreTokenizer
  import opened Prelude

  datatype Vocab = Vocab(idToToken: seq<Bytes>, tokenToId: map<Bytes, int>, merges: Merges,
                         special: map<Bytes, int>, specialIds: set<int>, table: map<Bytes, byte>)

  /** What `load` establishes. */
  ghost predicate Loaded(v: Vocab) {
    && ByteTable(v.table)
    && (forall s :: s in v.tokenToId ==> IdOf(v, s, v.tokenToId[s]))
    && (forall s :: s in v.special ==> IdOf(v, s, v.special[s]))
  }

  ghost predicate IdOf(v: Vocab, s: Bytes, id: int) {
    0 <= id < |v.idToToken| && v.idToToken[id] == s
  }

  /** The vocabulary has a token for each of the 256 byte characters. */
  ghost predicate ByteComplete(v: Vocab) {
    forall b: byte :: ByteChar(b) in v.tokenToId
  }

  // ----- decode -----

  function DecodeId(v: Vocab, id: int, skip: bool): Bytes {
    if !(0 <= id < |v.idToToken|) || (skip && id in v.specialIds) then []
    else DecodePiece(v.table, v.idToToken[id])
  }

  function DecodeIds(v: Vocab, ids: seq<int>, skip: bool): Bytes {
    if |ids| == 0 then [] else DecodeId(v, ids[0], skip) + DecodeIds(v, ids[1..], skip)
  }

  lemma {:induction false} DecodeConcat(v: Vocab, a: seq<int>, b: seq<int>, skip: bool)
    ensures DecodeIds(v, a + b, skip) == DecodeIds(v, a, skip) + DecodeIds(v, b, skip)
  {
    hide DecodeId;
    if |a| == 0 {
      assert a + b == b;
    } else {
      DecodeConcat(v, a[1..], b, skip);
      assert (a + b)[1..] == a[1..] + b;
      Assoc(DecodeId(v, a[0], skip), DecodeIds(v, a[1..], skip), DecodeIds(v, b, skip));
    }
  }

  /** The ids that are not special. */
  function Ordinary(v: Vocab, ids: seq<int>): seq<int> {
    if |ids| == 0 then [] else (if ids[0] in v.specialIds then [] else [ids[0]]) + Ordinary(v, ids[1..])
  }

  /** Skipping drops exactly the special tokens. */
  lemma {:induction false} SkippingDropsSpecials(v: Vocab, ids: seq<int>)
    ensures DecodeIds(v, ids, true) == DecodeIds(v, Ordinary(v, ids), false)
  {
    if |ids| > 0 {
      hide DecodePiece;
      var one := if ids[0] in v.specialIds then [] else [ids[0]];
      SkippingDropsSpecials(v, ids[1..]);
      DecodeConcat(v, one, Ordinary(v, ids[1..]), false);
      assert one == [] || one[1..] == [];
    }
  }

  lemma DecodeOne(v: Vocab, id: int, skip: bool)
    ensures DecodeIds(v, [id], skip) == DecodeId(v, id, skip)
  {
    assert DecodeIds(v, [id][1..], skip) == [];
  }

  // ----- one piece -----

  /** The fallback for a symbol that is no token: its characters one by one, unknown ones dropped. */
  function CharIds(v: Vocab, s: Bytes): seq<int> {
    if |s| == 0 then []
    else
      var n := CharLen(s);
      (if s[..n] in v.tokenToId then [v.tokenToId[s[..n]]] else []) + CharIds(v, s[n..])
  }

  function SymIds(v: Vocab, s: Bytes): seq<int> {
    if s in v.tokenToId then [v.tokenToId[s]] else CharIds(v, s)
  }

  function SymsIds(v: Vocab, syms: seq<Bytes>): seq<int> {
    if |syms| == 0 then [] else SymIds(v, syms[0]) + SymsIds(v, syms[1..])
  }

  function ByteSyms(piece: Bytes): (r: seq<Bytes>)
    ensures |r| == |piece|
  {
    seq(|piece|, i requires 0 <= i < |piece| => ByteChar(piece[i]))
  }

  ghost function PieceIds(v: Vocab, piece: Bytes): seq<int> {
    SymsIds(v, Greedy(v.merges, ByteSyms(piece)))
  }

  ghost function PiecesIds(v: Vocab, pieces: seq<Bytes>): seq<int> {
    if |pieces| == 0 then [] else PieceIds(v, pieces[0]) + PiecesIds(v, pieces[1..])
  }

  /** Ordinary text: pre-tokenized, each piece merged. */
  ghost function TextIds(v: Vocab, t: Bytes): seq<int> {
    PiecesIds(v, PiecesFrom(t, 0))
  }

  // ----- the special-token scan -----

  /** Some special token starts with this byte. */
  ghost predicate IsLead(v: Vocab, b: byte) {
    exists s :: s in v.special && |s| > 0 && s[0] == b
  }

  /** The longest special token that the text has at its head. */
  ghost predicate IsLongest(v: Vocab, t: Bytes, s: Bytes) {
    && s in v.special && s <= t
    && forall r :: r in v.special && r <= t ==> |r| <= |s|
  }

  ghost function SpecialAt(v: Vocab, t: Bytes): (o: Option<Bytes>)
    ensures o.Some? ==> IsLongest(v, t, o.value)
    ensures o.None? ==> forall s :: !IsLongest(v, t, s)
  {
    if exists s :: IsLongest(v, t, s) then
      var s :| IsLongest(v, t, s); Some(s)
    else None
  }

  ghost function NextLead(v: Vocab, t: Bytes, i: nat): (e: nat)
    requires i <= |t|
    ensures i <= e <= |t|
    decreases |t| - i
  {
    if i < |t| && !IsLead(v, t[i]) then NextLead(v, t, i + 1) else i
  }

  ghost predicate NoEmptySpecial(v: Vocab) {
    [] !in v.special
  }

  /** `encode` from position i: a special token where one matches, otherwise the text up to the next byte that
      could start one. */
  ghost function EncodeFrom(v: Vocab, t: Bytes, i: nat): seq<int>
    requires i <= |t| && NoEmptySpecial(v)
    decreases |t| - i
  {
    if i == |t| then []
    else match SpecialAt(v, t[i..])
      case Some(s) => [v.special[s]] + EncodeFrom(v, t, i + |s|)
      case None => TextIds(v, t[i..NextLead(v, t, i + 1)]) + EncodeFrom(v, t, NextLead(v, t, i + 1))
  }

  lemma LongestIsUnique(v: Vocab, t: Bytes, r: Bytes, s: Bytes)
    requires IsLongest(v, t, r) && IsLongest(v, t, s)
    ensures r == s
  {
    assert r == t[..|r|] && s == t[..|s|];
  }

  // ----- round trip -----

  ghost predicate SpellsBytes(s: Bytes) {
    exists bs: Bytes :: s == Chars(bs)
  }

  ghost predicate AllSpell(syms: seq<Bytes>) {
    forall i :: 0 <= i < |syms| ==> SpellsBytes(syms[i])
  }

  lemma {:induction false} CharIdsDecode(v: Vocab, bs: Bytes)
    requires Loaded(v) && ByteComplete(v)
    ensures DecodeIds(v, CharIds(v, Chars(bs)), false) == bs
  {
    hide Loaded, ByteComplete, DecodeIds;
    if |bs| > 0 {
      var c, rest := ByteChar(bs[0]), Chars(bs[1..]);
      HeadChar(bs[0], rest);
      CharIdsDecode(v, bs[1..]);
      OneCharDecodes(v, bs[0]);
      DecodeConcat(v, [v.tokenToId[c]], CharIds(v, rest), false);
      assert bs == [bs[0]] + bs[1..];
    } else {
      NothingDecodes(v);
    }
  }

  lemma NothingDecodes(v: Vocab)
    ensures DecodeIds(v, [], false) == []
  {
  }

  lemma OneCharDecodes(v: Vocab, b: byte)
    requires Loaded(v) && ByteComplete(v)
    ensures ByteChar(b) in v.tokenToId && DecodeIds(v, [v.tokenToId[ByteChar(b)]], false) == [b]
  {
    var c := ByteChar(b);
    DecodeOne(v, v.tokenToId[c], false);
    DecodeChars(v.table, [b], []);
    assert Chars([b]) + [] == c;
  }

  lemma SymIdsDecode(v: Vocab, s: Bytes)
    requires Loaded(v) && ByteComplete(v) && SpellsBytes(s)
    ensures DecodeIds(v, SymIds(v, s), false) == DecodePiece(v.table, s)
  {
    if s in v.tokenToId {
      DecodeOne(v, v.tokenToId[s], false);
    } else {
      var bs: Bytes :| s == Chars(bs);
      CharIdsDecode(v, bs);
      DecodeChars(v.table, bs, []);
      assert s + [] == s;
    }
  }

  lemma {:induction false} SymsIdsDecode(v: Vocab, syms: seq<Bytes>)
    requires Loaded(v) && ByteComplete(v) && AllSpell(syms)
    ensures DecodeIds(v, SymsIds(v, syms), false) == DecodePiece(v.table, Flatten(syms))
  {
    if |syms| > 0 {
      SymsIdsDecode(v, syms[1..]);
      SymIdsDecode(v, syms[0]);
      DecodeConcat(v, SymIds(v, syms[0]), SymsIds(v, syms[1..]), false);
      var bs: Bytes :| syms[0] == Chars(bs);
      DecodeChars(v.table, bs, Flatten(syms[1..]));
      DecodeChars(v.table, bs, []);
      assert Chars(bs) + [] == Chars(bs);
      assert bs + [] == bs;
    }
  }

  lemma MergeSpells(syms: seq<Bytes>, i: int)
    requires AllSpell(syms) && 0 <= i && i + 1 < |syms|
    ensures AllSpell(MergeAt(syms, i))
  {
    var r := MergeAt(syms, i);
    var a: Bytes :| syms[i] == Chars(a);
    var b: Bytes :| syms[i + 1] == Chars(b);
    CharsConcat(a, b);
    assert r[i] == Chars(a + b);
    forall j | 0 <= j < |r| ensures SpellsBytes(r[j]) {
      if j < i { assert r[j] == syms[j]; } else if j > i { assert r[j] == syms[j + 1]; }
    }
  }

  lemma {:induction false} GreedySpells(m: Merges, syms: seq<Bytes>)
    requires AllSpell(syms)
    ensures AllSpell(Greedy(m, syms))
    decreases |syms|
  {
    if exists i :: IsBest(m, syms, i) {
      var i :| IsBest(m, syms, i);
      GreedyStep(m, syms, i);
      MergeSpells(syms, i);
      GreedySpells(m, MergeAt(syms, i));
    }
  }

  lemma {:induction false} ByteSymsSpell(piece: Bytes)
    ensures AllSpell(ByteSyms(piece)) && AllNoSpace(ByteSyms(piece))
    ensures Flatten(ByteSyms(piece)) == Chars(piece)
  {
    if |piece| > 0 {
      ByteSymsSpell(piece[1..]);
      assert ByteSyms(piece)[1..] == ByteSyms(piece[1..]);
    }
    forall i | 0 <= i < |piece| ensures SpellsBytes(ByteSyms(piece)[i]) {
      assert Chars([piece[i]]) == ByteChar(piece[i]) + Chars([piece[i]][1..]) == ByteChar(piece[i]);
    }
  }

  /** A piece decodes to itself, whatever the merges and whichever merged symbols are tokens. */
  lemma PieceRoundTrip(v: Vocab, piece: Bytes)
    requires Loaded(v) && ByteComplete(v)
    ensures DecodeIds(v, PieceIds(v, piece), false) == piece
  {
    ByteSymsSpell(piece);
    GreedySpells(v.merges, ByteSyms(piece));
    SymsIdsDecode(v, Greedy(v.merges, ByteSyms(piece)));
    GreedyKeepsText(v.merges, ByteSyms(piece));
    DecodeChars(v.table, piece, []);
    assert Chars(piece) + [] == Chars(piece) && piece + DecodePiece(v.table, []) == piece;
  }

  lemma {:induction false} PiecesRoundTrip(v: Vocab, pieces: seq<Bytes>)
    requires Loaded(v) && ByteComplete(v)
    ensures DecodeIds(v, PiecesIds(v, pieces), false) == Flatten(pieces)
  {
    if |pieces| > 0 {
      PiecesRoundTrip(v, pieces[1..]);
      PieceRoundTrip(v, pieces[0]);
      DecodeConcat(v, PieceIds(v, pieces[0]), PiecesIds(v, pieces[1..]), false);
    }
  }

  lemma TextRoundTrip(v: Vocab, t: Bytes)
    requires Loaded(v) && ByteComplete(v)
    ensures DecodeIds(v, TextIds(v, t), false) == t
  {
    PiecesRoundTrip(v, PiecesFrom(t, 0));
    PiecesPartition(t, 0);
  }

  /** Every special token survives the decoder's character walk. */
  ghost predicate SpecialsDecode(v: Vocab) {
    forall s :: s in v.special ==> DecodePiece(v.table, s) == s
  }

  lemma EncodeSpecial(v: Vocab, t: Bytes, i: nat, s: Bytes)
    requires i < |t| && NoEmptySpecial(v) && IsLongest(v, t[i..], s)
    ensures SpecialAt(v, t[i..]) == Some(s)
    ensures 0 < |s| <= |t| - i && t[i..] == s + t[i + |s|..]
    ensures EncodeFrom(v, t, i) == [v.special[s]] + EncodeFrom(v, t, i + |s|)
  {
    hide TextIds, NextLead, SpecialAt, IsLongest, NoEmptySpecial;
    LongestIsFound(v, t[i..], s);
    LongestIsPrefix(v, t[i..], s);
    PrefixSplits(t, i, s);
  }

  lemma LongestIsPrefix(v: Vocab, t: Bytes, s: Bytes)
    requires NoEmptySpecial(v) && IsLongest(v, t, s)
    ensures 0 < |s| && s <= t && s in v.special
  {
  }

  lemma LongestIsFound(v: Vocab, t: Bytes, s: Bytes)
    requires IsLongest(v, t, s)
    ensures SpecialAt(v, t) == Some(s)
  {
    LongestIsUnique(v, t, SpecialAt(v, t).value, s);
  }

  lemma PrefixSplits(t: Bytes, i: nat, s: Bytes)
    requires i <= |t| && s <= t[i..]
    ensures |s| <= |t| - i && t[i..] == s + t[i + |s|..]
  {
  }

  lemma EncodeEnd(v: Vocab, t: Bytes)
    requires NoEmptySpecial(v)
    ensures EncodeFrom(v, t, |t|) == [] && t[0..] == t
  {
  }

  lemma EncodeText(v: Vocab, t: Bytes, i: nat)
    requires i < |t| && NoEmptySpecial(v) && SpecialAt(v, t[i..]) == None
    ensures var e := NextLead(v, t, i + 1);
      t[i..] == t[i..e] + t[e..] && EncodeFrom(v, t, i) == TextIds(v, t[i..e]) + EncodeFrom(v, t, e)
  {
  }

  lemma SpecialDecodes(v: Vocab, t: Bytes, s: Bytes)
    requires Loaded(v) && SpecialsDecode(v) && IsLongest(v, t, s)
    ensures s in v.special && DecodeIds(v, [v.special[s]], false) == s
  {
    DecodeOne(v, v.special[s], false);
  }

  lemma SpecialStep(v: Vocab, t: Bytes, i: nat, s: Bytes)
    requires Loaded(v) && SpecialsDecode(v) && NoEmptySpecial(v) && i < |t| && IsLongest(v, t[i..], s)
    requires DecodeIds(v, EncodeFrom(v, t, i + |s|), false) == t[i + |s|..]
    ensures DecodeIds(v, EncodeFrom(v, t, i), false) == t[i..]
  {
    hide EncodeFrom, DecodeIds;
    EncodeSpecial(v, t, i, s);
    SpecialDecodes(v, t[i..], s);
    DecodeConcat(v, [v.special[s]], EncodeFrom(v, t, i + |s|), false);
  }

  lemma TextStep(v: Vocab, t: Bytes, i: nat, e: nat)
    requires Loaded(v) && ByteComplete(v) && NoEmptySpecial(v) && i < |t| && SpecialAt(v, t[i..]) == None
    requires e == NextLead(v, t, i + 1) && DecodeIds(v, EncodeFrom(v, t, e), false) == t[e..]
    ensures DecodeIds(v, EncodeFrom(v, t, i), false) == t[i..]
  {
    hide EncodeFrom, DecodeIds, TextIds;
    EncodeText(v, t, i);
    TextRoundTrip(v, t[i..e]);
    DecodeConcat(v, TextIds(v, t[i..e]), EncodeFrom(v, t, e), false);
  }

  lemma {:induction false} EncodeFromRoundTrip(v: Vocab, t: Bytes, i: nat)
    requires Loaded(v) && ByteComplete(v) && NoEmptySpecial(v) && SpecialsDecode(v) && i <= |t|
    ensures DecodeIds(v, EncodeFrom(v, t, i), false) == t[i..]
    decreases |t| - i
  {
    hide EncodeFrom, DecodeIds, ByteComplete, Loaded, SpecialsDecode, IsLongest, NextLead, NoEmptySpecial;
    if i == |t| {
      EncodeEnd(v, t);
      DecodeNothing(v);
    } else {
      match SpecialAt(v, t[i..])
      case Some(s) =>
        EncodeSpecial(v, t, i, s);
        EncodeFromRoundTrip(v, t, i + |s|);
        SpecialStep(v, t, i, s);
      case None =>
        EncodeFromRoundTrip(v, t, NextLead(v, t, i + 1));
        TextStep(v, t, i, NextLead(v, t, i + 1));
    }
  }

  lemma DecodeNothing(v: Vocab)
    ensures DecodeIds(v, [], false) == []
  {
  }

  /** Encoding then decoding returns every byte string, malformed UTF-8 included, exactly when each special
      token decodes to itself. */
  lemma {:induction false} RoundTripExactly(v: Vocab)
    requires Loaded(v) && ByteComplete(v) && NoEmptySpecial(v)
    ensures (forall t: Bytes :: DecodeIds(v, EncodeFrom(v, t, 0), false) == t) <==> SpecialsDecode(v)
  {
    if SpecialsDecode(v) {
      forall t: Bytes ensures DecodeIds(v, EncodeFrom(v, t, 0), false) == t {
        EncodeFromRoundTrip(v, t, 0);
        assert t[0..] == t;
      }
    } else {
      var s :| s in v.special && DecodePiece(v.table, s) != s;
      SpecialAlone(v, s);
      assert DecodeIds(v, EncodeFrom(v, s, 0), false) != s;
    }
  }

  lemma SpecialAlone(v: Vocab, s: Bytes)
    requires Loaded(v) && NoEmptySpecial(v) && s in v.special
    ensures DecodeIds(v, EncodeFrom(v, s, 0), false) == DecodePiece(v.table, s)
  {
    assert s[0..] == s;
    EncodeSpecial(v, s, 0, s);
    assert EncodeFrom(v, s, |s|) == [];
    DecodeOne(v, v.special[s], false);
  }

  /** ASCII special tokens, such as Llama's <|...|>, meet the condition. */
  lemma AsciiSpecialsDecode(v: Vocab)
    requires Loaded(v) && forall s, i :: s in v.special && 0 <= i < |s| ==> s[i] < 0x80
    ensures SpecialsDecode(v)
  {
    forall s | s in v.special ensures DecodePiece(v.table, s) == s {
      AsciiDecodesToItself(v.table, s);
    }
  }

  /** With a pair table for the merges, a piece is encoded by greedy merging of pairs. */
  lemma PieceMergesPairs(v: Vocab, piece: Bytes)
    ensures PieceIds(v, piece) == SymsIds(v, GreedyPairs(PairTable(v.merges), ByteSyms(piece)))
  {
    PairTableIsSame(v.merges);
    ByteSymsSpell(piece);
    forall i | 0 <= i < |piece| ensures NoSpace(ByteSyms(piece)[i]) {
    }
    GreedyIsPairGreedy(v.merges, PairTable(v.merges), ByteSyms(piece));
  }

  // ----- the class -----

  /** The map takes each string at positions from..to-1 to the last such position, and no other string. */
  ghost predicate LastPositions(words: seq<Bytes>, from: nat, to: nat, m: map<Bytes, int>)
    requires to <= |words|
  {
    && (forall s :: s in m ==> from <= m[s] < to && words[m[s]] == s)
    && (forall i :: from <= i < to ==> words[i] in m && i <= m[words[i]])
  }

  lemma NextPosition(words: seq<Bytes>, from: nat, to: nat, m: map<Bytes, int>)
    requires from <= to < |words| && LastPositions(words, from, to, m)
    ensures LastPositions(words, from, to + 1, m[words[to] := to])
  {
  }

  lemma NoPositions(words: seq<Bytes>, from: nat, to: nat)
    requires to <= from && to <= |words|
    ensures LastPositions(words, from, to, map[])
  {
  }

  method Positions(words: seq<Bytes>) returns (m: map<Bytes, int>)
    ensures LastPositions(words, 0, |words|, m)
  {
    hide LastPositions;
    m := map[];
    NoPositions(words, 0, 0);
    for i := 0 to |words|
      invariant LastPositions(words, 0, i, m)
    {
      NextPosition(words, 0, i, m);
      m := m[words[i] := i];
    }
  }

  method SpecialTables(tokens: seq<Bytes>) returns (m: map<Bytes, int>, ids: set<int>)
    ensures LastPositions(tokens, FIRST_SPECIAL, SpecialEnd(tokens), m)
    ensures forall i :: i in ids <==> FIRST_SPECIAL <= i < SpecialEnd(tokens)
  {
    hide LastPositions;
    m, ids := map[], {};
    var id := FIRST_SPECIAL;
    NoPositions(tokens, FIRST_SPECIAL, if id <= |tokens| then id else |tokens|);
    while id < |tokens| && id < END_SPECIAL
      invariant FIRST_SPECIAL <= id <= END_SPECIAL && (id == FIRST_SPECIAL || id <= |tokens|)
      invariant LastPositions(tokens, FIRST_SPECIAL, if id <= |tokens| then id else |tokens|, m)
      invariant forall i :: i in ids <==> FIRST_SPECIAL <= i < id
    {
      NextPosition(tokens, FIRST_SPECIAL, id, m);
      ids := ids + {id};
      m := m[tokens[id] := id];
      id := id + 1;
    }
  }

  /** The special tokens end with the vocabulary or at 128256. */
  function SpecialEnd(tokens: seq<Bytes>): nat {
    if |tokens| < END_SPECIAL then |tokens| else END_SPECIAL
  }

  lemma LoadedFrom(tokens: seq<Bytes>, ids: map<Bytes, int>, ranks: Merges, specials: map<Bytes, int>,
                   special: set<int>, table: map<Bytes, byte>)
    requires ByteTable(table) && LastPositions(tokens, 0, |tokens|, ids)
    requires LastPositions(tokens, FIRST_SPECIAL, SpecialEnd(tokens), specials)
    ensures Loaded(Vocab(tokens, ids, ranks, specials, special, table))
  {
  }

  class Tokenizer {
    const tables: Tables
    const idToToken: seq<Bytes>
    const tokenToId: map<Bytes, int>
    const mergeRank: Merges
    const specialTokenMap: map<Bytes, int>
    const specialIds: set<int>
    const bosId: int
    const charToByte: map<Bytes, byte>

    ghost function V(): Vocab {
      Vocab(idToToken, tokenToId, mergeRank, specialTokenMap, specialIds, charToByte)
    }

    ghost predicate Valid()
      reads tables.toChar
    {
      Loaded(V()) && tables.toChar.Length == 256 && forall b: byte :: tables.toChar[b] == ByteChar(b)
    }

    /** The table-building part of `load`: token ids by position (a repeated token keeps its last id), merge ranks by
        position (a repeated merge keeps its last rank), special tokens from id 128000 on, and the control tokens of the
        type array. */
    constructor (tokens: seq<Bytes>, merges: seq<Bytes>, control: set<int>, bos: int)
      ensures Valid() && idToToken == tokens && bosId == bos
      ensures LastPositions(tokens, 0, |tokens|, tokenToId) && LastPositions(merges, 0, |merges|, mergeRank)
      ensures LastPositions(tokens, FIRST_SPECIAL, SpecialEnd(tokens), specialTokenMap)
      ensures forall i :: i in specialIds <==> 0 <= i < |tokens| && (FIRST_SPECIAL <= i < END_SPECIAL || i in control)
    {
      hide LastPositions;
      var t := new Tables();
      var ids := Positions(tokens);
      var ranks := Positions(merges);
      var specials, special := SpecialTables(tokens);
      LoadedFrom(tokens, ids, ranks, specials, special + (set i | i in control && 0 <= i < |tokens|), t.toByte);
      tables := t;
      charToByte := t.toByte;
      idToToken, tokenToId, mergeRank := tokens, ids, ranks;
      specialTokenMap, bosId := specials, bos;
      specialIds := special + set i | i in control && 0 <= i < |tokens|;
    }

    /** `decode`: ids outside the vocabulary and, on request, special ids are skipped. */
    method Decode(ids: seq<int>, skip: bool) returns (text: Bytes)
      ensures text == DecodeIds(V(), ids, skip)
    {
      text := [];
      for i := 0 to |ids|
        invariant text == DecodeIds(V(), ids[..i], skip)
      {
        var id := ids[i];
        assert ids[..i + 1] == ids[..i] + [id];
        DecodeConcat(V(), ids[..i], [id], skip);
        DecodeOne(V(), id, skip);
        if 0 <= id < |idToToken| && !(skip && id in specialIds) {
          text := DecodeWalk(text, idToToken[id]);
        }
      }
      assert ids[..|ids|] == ids;
    }

    method DecodeWalk(start: Bytes, piece: Bytes) returns (text: Bytes)
      ensures text == start + DecodePiece(charToByte, piece)
    {
      text := start;
      var p := 0;
      while p < |piece|
        invariant p <= |piece| && text + DecodePiece(charToByte, piece[p..]) == start + DecodePiece(charToByte, piece)
      {
        var n := CharLen(piece[p..]);
        var key := piece[p..][..n];
        var out := if key in charToByte then [charToByte[key]] else key;
        assert piece[p..][n..] == piece[p + n..];
        Assoc(text, out, DecodePiece(charToByte, piece[p + n..]));
        text := text + out;
        p := p + n;
      }
    }

    /** The ids of one symbol: its token, or its characters one by one. */
    method SymbolIds(sym: Bytes) returns (ids: seq<int>)
      ensures ids == SymIds(V(), sym)
    {
      if sym in tokenToId {
        return [tokenToId[sym]];
      }
      ids := [];
      var q := 0;
      while q < |sym|
        invariant q <= |sym| && ids + CharIds(V(), sym[q..]) == CharIds(V(), sym)
      {
        var n := CharLen(sym[q..]);
        var ch := sym[q..][..n];
        var out := if ch in tokenToId then [tokenToId[ch]] else [];
        assert sym[q..][n..] == sym[q + n..];
        Assoc(ids, out, CharIds(V(), sym[q + n..]));
        ids := ids + out;
        q := q + n;
      }
    }

    method BpeEncodePiece(piece: Bytes) returns (ids: seq<int>)
      requires Valid()
      ensures ids == PieceIds(V(), piece)
    {
      hide SymIds, ByteChar;
      var syms: seq<Bytes> := [];
      for i := 0 to |piece|
        invariant syms == ByteSyms(piece)[..i]
      {
        syms := syms + [tables.toChar[piece[i]]];
      }
      assert syms == ByteSyms(piece);
      syms := MergeLoop(mergeRank, syms);
      ids := [];
      for i := 0 to |syms|
        invariant ids + SymsIds(V(), syms[i..]) == SymsIds(V(), syms)
      {
        var out := SymbolIds(syms[i]);
        Assoc(ids, out, SymsIds(V(), syms[i + 1..]));
        ids := ids + out;
      }
    }

    method EncodeSegment(seg: Bytes) returns (ids: seq<int>)
      requires Valid()
      ensures ids == TextIds(V(), seg)
    {
      var pieces := PreTokenize(seg);
      ids := [];
      for i := 0 to |pieces|
        invariant ids + PiecesIds(V(), pieces[i..]) == PiecesIds(V(), pieces)
      {
        var out := BpeEncodePiece(pieces[i]);
        Assoc(ids, out, PiecesIds(V(), pieces[i + 1..]));
        ids := ids + out;
      }
    }

    /** The special tokens, longest first; tokens of equal length come in any order. */
    method SortSpecials() returns (r: seq<Bytes>)
      ensures forall s :: s in r <==> s in specialTokenMap
      ensures forall i, j :: 0 <= i < j < |r| ==> |r[i]| >= |r[j]|
    {
      var rest := specialTokenMap.Keys;
      r := [];
      while rest != {}
        invariant rest <= specialTokenMap.Keys
        invariant forall s :: s in specialTokenMap <==> s in rest || s in r
        invariant forall i, j :: 0 <= i < j < |r| ==> |r[i]| >= |r[j]|
        invariant forall i, s :: 0 <= i < |r| && s in rest ==> |r[i]| >= |s|
        decreases |rest|
      {
        var longest := LongestOf(rest);
        var s :| s in rest && forall q :: q in rest ==> |q| <= |s|;
        r := r + [s];
        rest := rest - {s};
      }
    }

    method Leads(specials: seq<Bytes>) returns (leads: set<byte>)
      requires forall s :: s in specials <==> s in specialTokenMap
      ensures forall b: byte :: b in leads <==> IsLead(V(), b)
    {
      leads := {};
      for i := 0 to |specials|
        invariant forall b: byte :: b in leads <==> exists j :: 0 <= j < i && |specials[j]| > 0 && specials[j][0] == b
      {
        if |specials[i]| > 0 { leads := leads + {specials[i][0]}; }
      }
    }

    /** The first entry of the sorted list that matches at i is the longest match. */
    method MatchSpecial(specials: seq<Bytes>, t: Bytes, i: nat) returns (k: int)
      requires i <= |t| && forall s :: s in specials <==> s in specialTokenMap
      requires forall a, b :: 0 <= a < b < |specials| ==> |specials[a]| >= |specials[b]|
      ensures k < 0 ==> SpecialAt(V(), t[i..]) == None
      ensures k >= 0 ==> k < |specials| && IsLongest(V(), t[i..], specials[k])
    {
      k := 0;
      while k < |specials|
        invariant 0 <= k <= |specials| && forall j :: 0 <= j < k ==> !(specials[j] <= t[i..])
      {
        var s := specials[k];
        PrefixAt(s, t, i);
        if |s| <= |t| - i && t[i..i + |s|] == s {
          return;
        }
        k := k + 1;
      }
      k := -1;
    }

    method ScanToLead(leads: set<byte>, t: Bytes, i: nat) returns (e: nat)
      requires i <= |t| && forall b: byte :: b in leads <==> IsLead(V(), b)
      ensures e == NextLead(V(), t, i)
    {
      e := i;
      while e < |t| && t[e] !in leads
        invariant i <= e <= |t| && NextLead(V(), t, e) == NextLead(V(), t, i)
      {
        e := e + 1;
      }
    }

    /** `encode`, with the fast path for bytes that start no special token. The result decodes to the input. */
    method Encode(t: Bytes, addBos: bool) returns (ids: seq<int>)
      requires Valid() && NoEmptySpecial(V())
      ensures ids == (if addBos then [bosId] else []) + EncodeFrom(V(), t, 0)
      ensures !addBos && ByteComplete(V()) && SpecialsDecode(V()) ==> DecodeIds(V(), ids, false) == t
    {
      hide EncodeFrom, TextIds, NextLead, IsLongest, DecodeIds, Loaded;
      var bos := if addBos then [bosId] else [];
      ids := bos;
      var specials := SortSpecials();
      var leads := Leads(specials);
      var i := 0;
      while i < |t|
        invariant i <= |t| && ids + EncodeFrom(V(), t, i) == bos + EncodeFrom(V(), t, 0)
      {
        var k := FindSpecial(specials, leads, t, i);
        ids, i := Advance(specials, leads, t, ids, i, k);
      }
      EncodeEnd(V(), t);
      if ByteComplete(V()) && SpecialsDecode(V()) {
        EncodeFromRoundTrip(V(), t, 0);
        assert ids + [] == ids && [] + EncodeFrom(V(), t, 0) == EncodeFrom(V(), t, 0);
      }
    }

    /** The lead-byte test before the list is searched. */
    method FindSpecial(specials: seq<Bytes>, leads: set<byte>, t: Bytes, i: nat) returns (k: int)
      requires i < |t| && NoEmptySpecial(V()) && forall b: byte :: b in leads <==> IsLead(V(), b)
      requires forall s :: s in specials <==> s in specialTokenMap
      requires forall a, b :: 0 <= a < b < |specials| ==> |specials[a]| >= |specials[b]|
      ensures k < 0 ==> SpecialAt(V(), t[i..]) == None
      ensures k >= 0 ==> k < |specials| && IsLongest(V(), t[i..], specials[k])
    {
      k := -1;
      MatchHasLead(V(), t, i);
      if t[i] in leads {
        k := MatchSpecial(specials, t, i);
      }
    }

    /** One round of the scan: emit the matched special token, or encode text up to the next candidate. */
    method Advance(specials: seq<Bytes>, leads: set<byte>, t: Bytes, before: seq<int>, i: nat, k: int)
      returns (ids: seq<int>, j: nat)
      requires Valid() && NoEmptySpecial(V()) && i < |t| && forall b: byte :: b in leads <==> IsLead(V(), b)
      requires k < 0 ==> SpecialAt(V(), t[i..]) == None
      requires k >= 0 ==> k < |specials| && IsLongest(V(), t[i..], specials[k])
      ensures i < j <= |t|
      ensures ids + EncodeFrom(V(), t, j) == before + EncodeFrom(V(), t, i)
    {
      hide EncodeFrom, TextIds, Loaded, NextLead;
      if k >= 0 {
        var s := specials[k];
        EncodeSpecial(V(), t, i, s);
        j := i + |s|;
        ids := before + [specialTokenMap[s]];
        Assoc(before, [specialTokenMap[s]], EncodeFrom(V(), t, j));
      } else {
        EncodeText(V(), t, i);
        j := ScanToLead(leads, t, i + 1);
        var out := EncodeSegment(t[i..j]);
        ids := before + out;
        Assoc(before, out, EncodeFrom(V(), t, j));
      }
    }
  }

  lemma PrefixAt(s: Bytes, t: Bytes, i: nat)
    requires i <= |t|
    ensures s <= t[i..] <==> |s| <= |t| - i && t[i..i + |s|] == s
  {
    if |s| <= |t| - i { assert t[i..][..|s|] == t[i..i + |s|]; }
  }

  /** Only a lead byte can start a special token. */
  lemma MatchHasLead(v: Vocab, t: Bytes, i: nat)
    requires i < |t| && NoEmptySpecial(v)
    ensures SpecialAt(v, t[i..]).Some? ==> IsLead(v, t[i])
  {
    var o := SpecialAt(v, t[i..]);
    if o.Some? { assert o.value[0] == t[i..][0]; }
  }

  const FIRST_SPECIAL := 128000
  const END_SPECIAL := 128256

  lemma LongestOf(rest: set<Bytes>) returns (s: Bytes)
    requires rest != {}
    ensures s in rest && forall q :: q in rest ==> |q| <= |s|
    decreases |rest|
  {
    s :| s in rest;
    if rest != {s} {
      var r := LongestOf(rest - {s});
      if |r| >= |s| { s := r; }
    }
  }
}
