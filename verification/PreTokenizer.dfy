/** The pre-tokenizer: cuts the text into words, short digit groups, punctuation and white space, as pure functions
    on positions and as the pointer loop. */
module PreTokenizer {
  import opened Bytes
  import opened ByteLevel

  datatype Class = Newline | Blank | Digit | Letter | Punctuation

  /** byte_cls: every byte from 0x80 on counts as a letter. */
  function ClassOf(b: byte): Class {
    if b == 10 || b == 13 then Newline
    else if b == 32 || b == 9 then Blank
    else if 48 <= b <= 57 then Digit
    else if 97 <= b <= 122 || 65 <= b <= 90 || b >= 0x80 then Letter
    else Punctuation
  }

  function Lower(b: byte): byte {
    if 65 <= b <= 90 then b + 32 else b
  }

  predicate Is(t: Bytes, i: nat, c: Class) {
    i < |t| && ClassOf(t[i]) == c
  }

  /** utf8_next on the text from position i. */
  function NextChar(t: Bytes, i: nat): (n: nat)
    requires i < |t|
    ensures i < n <= |t|
  {
    i + CharLen(t[i..])
  }

  /** The end of a letter run; a multi-byte character is stepped over whole. */
  function LettersEnd(t: Bytes, i: nat): (e: nat)
    requires i <= |t|
    ensures i <= e <= |t| && (Is(t, i, Letter) ==> i < e)
    decreases |t| - i
  {
    if Is(t, i, Letter) then LettersEnd(t, NextChar(t, i)) else i
  }

  /** The end of a run of bytes whose class is in cs, at most `most` bytes long. */
  function RunEnd(t: Bytes, i: nat, cs: set<Class>, most: nat): (e: nat)
    requires i <= |t|
    ensures i <= e <= |t| && e <= i + most
    ensures i < |t| && ClassOf(t[i]) in cs && most > 0 ==> i < e
    decreases |t| - i
  {
    if i < |t| && ClassOf(t[i]) in cs && most > 0 then RunEnd(t, i + 1, cs, most - 1) else i
  }

  /** Length of an English contraction at i, 0 if there is none. */
  function Contraction(t: Bytes, i: nat): (n: nat)
    requires i < |t|
    ensures i + n <= |t|
  {
    if t[i] == 39 && i + 1 < |t| then
      var a := Lower(t[i + 1]);
      if a in {115, 116, 109, 100} then 2
      else if i + 2 < |t| && (a, Lower(t[i + 2])) in {(114, 101), (118, 101), (108, 108)} then 3
      else 0
    else 0
  }

  /** Where the piece that starts at i ends: the rules in the order they are tried. */
  function PieceEnd(t: Bytes, i: nat): (e: nat)
    requires i < |t|
    ensures i < e <= |t|
  {
    var q := if t[i] == SPACE then i + 1 else i;
    if Contraction(t, i) > 0 then i + Contraction(t, i)
    else if Is(t, q, Letter) then LettersEnd(t, q)
    else if Is(t, i, Digit) then RunEnd(t, i, {Digit}, 3)
    else if Is(t, i, Newline) then RunEnd(t, i, {Newline, Blank}, |t|)
    else if Is(t, q, Punctuation) then RunEnd(t, RunEnd(t, q, {Punctuation}, |t|), {Newline}, |t|)
    else if Is(t, i, Blank) then RunEnd(t, i, {Blank}, |t|)
    else i + 1
  }

  function PiecesFrom(t: Bytes, i: nat): seq<Bytes>
    requires i <= |t|
    decreases |t| - i
  {
    if i == |t| then [] else [t[i..PieceEnd(t, i)]] + PiecesFrom(t, PieceEnd(t, i))
  }

  /** The pieces are a partition of the text: nothing is dropped, added or reordered. */
  lemma {:induction false} PiecesPartition(t: Bytes, i: nat)
    requires i <= |t|
    ensures Flatten(PiecesFrom(t, i)) == t[i..]
    ensures forall k :: 0 <= k < |PiecesFrom(t, i)| ==> |PiecesFrom(t, i)[k]| > 0
    decreases |t| - i
  {
    if i < |t| {
      PiecesPartition(t, PieceEnd(t, i));
      assert t[i..] == t[i..PieceEnd(t, i)] + t[PieceEnd(t, i)..];
    }
  }

  // ----- the loops -----

  method ScanLetters(t: Bytes, start: nat) returns (q: nat)
    requires start <= |t|
    ensures q == LettersEnd(t, start)
  {
    q := start;
    while q < |t| && ClassOf(t[q]) == Letter
      invariant q <= |t| && LettersEnd(t, q) == LettersEnd(t, start)
    {
      q := NextChar(t, q);
    }
  }

  method ScanRun(t: Bytes, start: nat, cs: set<Class>, most: nat) returns (q: nat)
    requires start <= |t|
    ensures q == RunEnd(t, start, cs, most)
  {
    q := start;
    var n := 0;
    while q < |t| && ClassOf(t[q]) in cs && n < most
      invariant q <= |t| && n <= most && RunEnd(t, q, cs, most - n) == RunEnd(t, start, cs, most)
    {
      q := q + 1;
      n := n + 1;
    }
  }

  /** One round of the loop of pre_tokenize. */
  method ScanPiece(t: Bytes, p: nat) returns (q: nat)
    requires p < |t|
    ensures q == PieceEnd(t, p)
  {
    var c := Contraction(t, p);
    if c > 0 {
      return p + c;
    }
    q := p + 1;  // the single-byte fallback; the classes below leave nothing for it
    var afterSpace := if t[p] == SPACE then p + 1 else p;
    if afterSpace < |t| && ClassOf(t[afterSpace]) == Letter {
      q := ScanLetters(t, afterSpace);
    } else if ClassOf(t[p]) == Digit {
      q := ScanRun(t, p, {Digit}, 3);
    } else if ClassOf(t[p]) == Newline {
      q := ScanRun(t, p, {Newline, Blank}, |t|);
    } else if afterSpace < |t| && ClassOf(t[afterSpace]) == Punctuation {
      q := ScanRun(t, afterSpace, {Punctuation}, |t|);
      q := ScanRun(t, q, {Newline}, |t|);
    } else if ClassOf(t[p]) == Blank {
      q := ScanRun(t, p, {Blank}, |t|);
    }
  }

  method PreTokenize(t: Bytes) returns (pieces: seq<Bytes>)
    ensures pieces == PiecesFrom(t, 0)
    ensures Flatten(pieces) == t
  {
    pieces := [];
    var p := 0;
    while p < |t|
      invariant p <= |t| && pieces + PiecesFrom(t, p) == PiecesFrom(t, 0)
    {
      var q := ScanPiece(t, p);
      Assoc(pieces, [t[p..q]], PiecesFrom(t, q));
      pieces := pieces + [t[p..q]];
      p := q;
    }
    PiecesPartition(t, 0);
  }
}
