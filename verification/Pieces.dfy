/** What the pieces are. */
module Pieces {
  // The rules of the pre-tokenizer said about the bytes of a piece and the byte after it, and the cut they determine.

  import opened Bytes
  import opened ByteLevel
  import opened PreTokenizer
  import opened Encoding

  // ----- classes -----

  const LOWER := "abcdefghijklmnopqrstuvwxyz"
  const UPPER := "ABCDEFGHIJKLMNOPQRSTUVWXYZ"

  predicate OneOf(b: byte, s: string) { b as char in s }

  ghost predicate Consecutive(s: string, first: int) { forall k :: 0 <= k < |s| ==> s[k] as int == first + k }

  lemma InConsecutive(b: byte, s: string, first: int)
    requires Consecutive(s, first)
    ensures OneOf(b, s) <==> first <= b < first + |s|
  {
    assert first <= b < first + |s| ==> s[b - first] == b as char;
  }

  lemma InLower(b: byte)
    ensures OneOf(b, LOWER) <==> 97 <= b <= 122
  {
    hide OneOf;
    InConsecutive(b, LOWER, 97);
  }

  lemma InUpper(b: byte)
    ensures OneOf(b, UPPER) <==> 65 <= b <= 90
  {
    hide OneOf;
    InConsecutive(b, UPPER, 65);
  }

  /** The five classes by their characters. */
  lemma Classes(b: byte)
    ensures ClassOf(b) == Newline <==> OneOf(b, "\r\n")
    ensures ClassOf(b) == Blank <==> OneOf(b, " \t")
    ensures ClassOf(b) == Digit <==> OneOf(b, "0123456789")
    ensures ClassOf(b) == Letter <==> OneOf(b, LOWER) || OneOf(b, UPPER) || b >= 0x80
  {
    hide LOWER, UPPER;
    InLower(b);
    InUpper(b);
    InConsecutive(b, "0123456789", 48);
  }

  // ----- runs -----

  ghost predicate AllIn(t: Bytes, a: nat, b: nat, cs: set<Class>)
    requires b <= |t|
  {
    forall k :: a <= k < b ==> ClassOf(t[k]) in cs
  }

  predicate Follows(t: Bytes, i: nat, cs: set<Class>) { i < |t| && ClassOf(t[i]) in cs }

  /** All the bytes of these classes from a on. */
  ghost predicate WholeRun(t: Bytes, a: nat, b: nat, cs: set<Class>) {
    a <= b <= |t| && AllIn(t, a, b, cs) && !Follows(t, b, cs)
  }

  /** The longest run of at most `most` bytes. */
  ghost predicate CappedRun(t: Bytes, a: nat, b: nat, cs: set<Class>, most: nat) {
    a <= b <= |t| && AllIn(t, a, b, cs) && b - a <= most && (b - a < most ==> !Follows(t, b, cs))
  }

  lemma {:induction false} RunEndIff(t: Bytes, a: nat, cs: set<Class>, most: nat, b: nat)
    requires a <= |t|
    ensures CappedRun(t, a, b, cs, most) <==> b == RunEnd(t, a, cs, most)
    decreases most
  {
    if Follows(t, a, cs) && most > 0 {
      RunEndIff(t, a + 1, cs, most - 1, b);
    }
  }

  lemma WholeRunIff(t: Bytes, a: nat, cs: set<Class>, b: nat)
    requires a <= |t|
    ensures WholeRun(t, a, b, cs) <==> b == RunEnd(t, a, cs, |t|)
  {
    RunEndIff(t, a, cs, |t|, b);
  }

  // ----- letters, character by character -----

  ghost predicate LetterStep(t: Bytes, cuts: seq<nat>, k: nat)
    requires k + 1 < |cuts|
  {
    Is(t, cuts[k], Letter) && cuts[k + 1] == NextChar(t, cuts[k])
  }

  ghost predicate LetterSteps(t: Bytes, cuts: seq<nat>) {
    |cuts| > 0 && forall k: nat :: k + 1 < |cuts| ==> LetterStep(t, cuts, k)
  }

  ghost predicate Joins(cuts: seq<nat>, a: nat, b: nat) { |cuts| > 0 && cuts[0] == a && cuts[|cuts| - 1] == b }

  /** Whole characters, each headed by a letter byte, as many as there are. */
  ghost predicate LetterRun(t: Bytes, a: nat, b: nat) {
    a < b <= |t| && !Is(t, b, Letter) && exists cuts: seq<nat> :: LetterSteps(t, cuts) && Joins(cuts, a, b)
  }

  lemma {:induction false} StepsTo(t: Bytes, a: nat) returns (cuts: seq<nat>)
    requires a <= |t|
    ensures LetterSteps(t, cuts) && Joins(cuts, a, LettersEnd(t, a))
    ensures !Is(t, LettersEnd(t, a), Letter)
    decreases |t| - a
  {
    cuts := [a];
    if Is(t, a, Letter) {
      var rest := StepsTo(t, NextChar(t, a));
      cuts := [a] + rest;
      forall k: nat | k + 1 < |cuts| ensures LetterStep(t, cuts, k) {
        if k > 0 { assert LetterStep(t, rest, k - 1); }
      }
    }
  }

  lemma {:induction false} StepsEnd(t: Bytes, cuts: seq<nat>, a: nat, b: nat)
    requires LetterSteps(t, cuts) && Joins(cuts, a, b) && a <= |t| && !Is(t, b, Letter)
    ensures b == LettersEnd(t, a) && (a < b ==> Is(t, a, Letter))
    decreases |cuts|
  {
    if |cuts| > 1 {
      assert LetterStep(t, cuts, 0);
      forall k: nat | k + 1 < |cuts[1..]| ensures LetterStep(t, cuts[1..], k) { assert LetterStep(t, cuts, k + 1); }
      StepsEnd(t, cuts[1..], cuts[1], b);
    }
  }

  lemma LetterRunIff(t: Bytes, a: nat, b: nat)
    requires a <= |t|
    ensures LetterRun(t, a, b) <==> Is(t, a, Letter) && b == LettersEnd(t, a)
  {
    hide LetterSteps;
    if LetterRun(t, a, b) {
      var cuts: seq<nat> :| LetterSteps(t, cuts) && Joins(cuts, a, b);
      StepsEnd(t, cuts, a, b);
    }
    if Is(t, a, Letter) { var cuts := StepsTo(t, a); }
  }

  // ----- pieces -----

  function Lowered(w: Bytes): (r: Bytes)
    ensures |r| == |w|
  {
    seq(|w|, i requires 0 <= i < |w| => Lower(w[i]))
  }

  predicate IsContraction(w: Bytes) {
    Lowered(w) in {Ascii("'s"), Ascii("'t"), Ascii("'m"), Ascii("'d"), Ascii("'re"), Ascii("'ve"), Ascii("'ll")}
  }

  /** An apostrophe followed by one of the seven endings, in either case. */
  predicate Contracted(t: Bytes, i: nat, e: nat) {
    i < e <= |t| && IsContraction(t[i..e])
  }

  /** One space may stand before letters and before punctuation. */
  function AfterSpace(t: Bytes, i: nat): (q: nat)
    requires i < |t|
    ensures q <= |t|
  {
    if t[i] as char == ' ' then i + 1 else i
  }

  ghost predicate Word(t: Bytes, i: nat, e: nat)
    requires i < |t|
  {
    LetterRun(t, AfterSpace(t, i), e)
  }

  /** One to three digits, fewer than three only where the digits end. */
  ghost predicate Number(t: Bytes, i: nat, e: nat) { i < e && CappedRun(t, i, e, {Digit}, 3) }

  ghost predicate Lines(t: Bytes, i: nat, e: nat)
    requires i < |t|
  {
    OneOf(t[i], "\r\n") && WholeRun(t, i, e, {Newline, Blank})
  }

  /** All the punctuation and then all the newlines. */
  ghost predicate Symbols(t: Bytes, i: nat, e: nat)
    requires i < |t|
  {
    exists m: nat ::
      AfterSpace(t, i) < m && WholeRun(t, AfterSpace(t, i), m, {Punctuation}) && WholeRun(t, m, e, {Newline})
  }

  /** Blanks up to the first other byte; a single space with a word or symbol behind it is not one of these. */
  ghost predicate Spaces(t: Bytes, i: nat, e: nat)
    requires i < |t|
  {
    i < e && WholeRun(t, i, e, {Blank}) && (t[i] as char == ' ' ==> !Follows(t, i + 1, {Letter, Punctuation}))
  }

  ghost predicate IsPiece(t: Bytes, i: nat, e: nat) {
    && i < e <= |t|
    && (Contracted(t, i, e) || (
          (forall m: nat :: !Contracted(t, i, m))
          && (Word(t, i, e) || Number(t, i, e) || Lines(t, i, e) || Symbols(t, i, e) || Spaces(t, i, e))))
  }

  lemma IsLowered(w: Bytes, s: string)
    requires forall k :: 0 <= k < |s| ==> s[k] as int < 256
    ensures Lowered(w) == Ascii(s) <==> |w| == |s| && forall k :: 0 <= k < |s| ==> Lower(w[k]) == s[k] as int
  {
    if Lowered(w) == Ascii(s) {
      forall k | 0 <= k < |s| ensures Lower(w[k]) == s[k] as int { assert Lowered(w)[k] == Ascii(s)[k]; }
    }
  }

  lemma Endings(w: Bytes)
    ensures |w| == 2 ==> (IsContraction(w) <==> Lower(w[0]) == 39 && Lower(w[1]) in {115, 116, 109, 100})
    ensures |w| == 3 ==> (IsContraction(w) <==>
      Lower(w[0]) == 39 && (Lower(w[1]), Lower(w[2])) in {(114, 101), (118, 101), (108, 108)})
    ensures IsContraction(w) ==> |w| in {2, 3}
  {
    hide Lower;
    IsLowered(w, "'s"); IsLowered(w, "'t"); IsLowered(w, "'m"); IsLowered(w, "'d");
    IsLowered(w, "'re"); IsLowered(w, "'ve"); IsLowered(w, "'ll");
  }

  lemma ContractedIff(t: Bytes, i: nat, e: nat)
    requires i < |t|
    ensures Contracted(t, i, e) <==> Contraction(t, i) > 0 && e == i + Contraction(t, i)
  {
    hide IsContraction;
    if i < e <= |t| { Endings(t[i..e]); }
  }

  lemma WordIff(t: Bytes, i: nat, e: nat)
    requires i < |t|
    ensures Word(t, i, e) <==> Is(t, AfterSpace(t, i), Letter) && e == LettersEnd(t, AfterSpace(t, i))
  {
    LetterRunIff(t, AfterSpace(t, i), e);
  }

  lemma NumberIff(t: Bytes, i: nat, e: nat)
    requires i < |t|
    ensures Number(t, i, e) <==> Is(t, i, Digit) && e == RunEnd(t, i, {Digit}, 3)
  {
    RunEndIff(t, i, {Digit}, 3, e);
  }

  lemma LinesIff(t: Bytes, i: nat, e: nat)
    requires i < |t|
    ensures Lines(t, i, e) <==> Is(t, i, Newline) && e == RunEnd(t, i, {Newline, Blank}, |t|)
  {
    Classes(t[i]);
    WholeRunIff(t, i, {Newline, Blank}, e);
  }

  lemma SymbolsIff(t: Bytes, i: nat, e: nat)
    requires i < |t|
    ensures Symbols(t, i, e) <==>
      && Is(t, AfterSpace(t, i), Punctuation)
      && e == RunEnd(t, RunEnd(t, AfterSpace(t, i), {Punctuation}, |t|), {Newline}, |t|)
  {
    hide WholeRun, RunEnd;
    var q := AfterSpace(t, i);
    forall m: nat ensures WholeRun(t, q, m, {Punctuation}) <==> m == RunEnd(t, q, {Punctuation}, |t|) {
      WholeRunIff(t, q, {Punctuation}, m);
    }
    var m := RunEnd(t, q, {Punctuation}, |t|);
    WholeRunIff(t, m, {Newline}, e);
    assert q < m <==> Is(t, q, Punctuation) by { RunStarts(t, q, {Punctuation}); }
  }

  lemma RunStarts(t: Bytes, a: nat, cs: set<Class>)
    requires a <= |t|
    ensures a < RunEnd(t, a, cs, |t|) <==> Follows(t, a, cs)
  {
  }

  lemma SpacesIff(t: Bytes, i: nat, e: nat)
    requires i < |t|
    ensures Spaces(t, i, e) <==>
      && Is(t, i, Blank) && e == RunEnd(t, i, {Blank}, |t|)
      && !Is(t, AfterSpace(t, i), Letter) && !Is(t, AfterSpace(t, i), Punctuation)
  {
    RunStarts(t, i, {Blank});
    WholeRunIff(t, i, {Blank}, e);
  }

  /** The rules leave exactly one end for the piece at every position. */
  lemma {:induction false} PieceIff(t: Bytes, i: nat, e: nat)
    requires i < |t|
    ensures IsPiece(t, i, e) <==> e == PieceEnd(t, i)
  {
    hide Contracted, Word, Number, Lines, Symbols, Spaces, RunEnd, LettersEnd, Contraction;
    forall m: nat ensures Contracted(t, i, m) <==> Contraction(t, i) > 0 && m == i + Contraction(t, i) {
      ContractedIff(t, i, m);
    }
    ContractedIff(t, i, i + Contraction(t, i));
    WordIff(t, i, e);
    NumberIff(t, i, e);
    LinesIff(t, i, e);
    SymbolsIff(t, i, e);
    SpacesIff(t, i, e);
  }

  // ----- the cut -----

  function Start(pieces: seq<Bytes>, k: nat): nat
    requires k <= |pieces|
  {
    |Flatten(pieces[..k])|
  }

  ghost predicate PieceAt(t: Bytes, i: nat, pieces: seq<Bytes>, k: nat)
    requires k < |pieces|
  {
    IsPiece(t, i + Start(pieces, k), i + Start(pieces, k + 1))
  }

  /** A list of pieces that spells the text from i on, each one a piece where it stands. */
  ghost predicate IsCut(t: Bytes, i: nat, pieces: seq<Bytes>)
    requires i <= |t|
  {
    Flatten(pieces) == t[i..] && AllPieces(t, i, pieces)
  }

  ghost predicate AllPieces(t: Bytes, i: nat, pieces: seq<Bytes>) {
    forall k: nat :: k < |pieces| ==> PieceAt(t, i, pieces, k)
  }

  lemma StartOfRest(pieces: seq<Bytes>, k: nat)
    requires k < |pieces|
    ensures Start(pieces, k + 1) == |pieces[0]| + Start(pieces[1..], k)
  {
    assert pieces[..k + 1][1..] == pieces[1..][..k];
  }

  lemma Shifted(t: Bytes, i: nat, next: nat, pieces: seq<Bytes>, rest: seq<Bytes>)
    requires |pieces| > 0 && rest == pieces[1..] && next == i + |pieces[0]|
    ensures AllPieces(t, i, pieces) <==> IsPiece(t, i, next) && AllPieces(t, next, rest)
  {
    hide IsPiece, Start;
    forall k: nat | k < |pieces|
      ensures PieceAt(t, i, pieces, k) <==> if k == 0 then IsPiece(t, i, next) else PieceAt(t, next, rest, k - 1)
    {
      if k == 0 { Starts(pieces); } else {
        StartOfRest(pieces, k - 1);
        StartOfRest(pieces, k);
      }
    }
    if AllPieces(t, i, pieces) {
      assert PieceAt(t, i, pieces, 0);
      forall k: nat | k < |rest| ensures PieceAt(t, next, rest, k) { assert PieceAt(t, i, pieces, k + 1); }
    }
  }

  lemma Starts(pieces: seq<Bytes>)
    requires |pieces| > 0
    ensures Start(pieces, 0) == 0 && Start(pieces, 1) == |pieces[0]|
  {
    assert pieces[..1] == [pieces[0]];
    FlattenOne(pieces[0]);
  }

  lemma FirstPiece(t: Bytes, i: nat, pieces: seq<Bytes>)
    requires i <= |t| && |pieces| > 0 && Flatten(pieces) == t[i..]
    ensures i + |pieces[0]| <= |t| && pieces[0] == t[i..i + |pieces[0]|]
    ensures Flatten(pieces[1..]) == t[i + |pieces[0]|..]
  {
    var n := |pieces[0]|;
    assert |Flatten(pieces)| == |t[i..]|;
    assert t[i..i + n] == t[i..][..n] && t[i + n..] == t[i..][n..];
  }

  lemma NotEmpty(t: Bytes, i: nat, e: nat)
    ensures IsPiece(t, i, e) ==> i < e <= |t|
  {
  }

  lemma SamePieces(pieces: seq<Bytes>, first: seq<Bytes>, rest: seq<Bytes>)
    requires |pieces| > 0 && |first| == 1
    ensures pieces == first + rest <==> pieces[0] == first[0] && pieces[1..] == rest
  {
    if pieces[0] == first[0] && pieces[1..] == rest { assert pieces == [pieces[0]] + pieces[1..]; }
  }

  /** The text has exactly one cut into pieces, and the pre-tokenizer finds it. */
  lemma {:induction false} CutIff(t: Bytes, i: nat, pieces: seq<Bytes>)
    requires i <= |t|
    ensures IsCut(t, i, pieces) <==> pieces == PiecesFrom(t, i)
    decreases |pieces|
  {
    hide IsPiece, PieceEnd, PieceAt;
    PiecesPartition(t, i);
    if |pieces| > 0 && Flatten(pieces) == t[i..] {
      FirstPiece(t, i, pieces);
      var n := |pieces[0]|;
      Shifted(t, i, i + n, pieces, pieces[1..]);
      NotEmpty(t, i, i + n);
      if i < |t| {
        PieceIff(t, i, i + n);
        CutIff(t, i + n, pieces[1..]);
        assert |t[i..PieceEnd(t, i)]| == PieceEnd(t, i) - i;
        SamePieces(pieces, [t[i..PieceEnd(t, i)]], PiecesFrom(t, PieceEnd(t, i)));
      }
    }
  }
}
