/** Pieces of well-formed text. */
module WellFormed {
  // On UTF-8 text no piece splits a character, and a run of letter characters is a plain run of letter bytes.

  import opened Bytes
  import opened ByteLevel
  import opened PreTokenizer
  import opened Pieces

  type Codepoint = c: nat | c < 0x110000

  function Text(cps: seq<Codepoint>): Bytes {
    if |cps| == 0 then [] else CpToUtf8(cps[0]) + Text(cps[1..])
  }

  lemma {:induction false} TextConcat(a: seq<Codepoint>, b: seq<Codepoint>)
    ensures Text(a + b) == Text(a) + Text(b)
  {
    hide CpToUtf8;
    if |a| == 0 {
      assert a + b == b;
    } else {
      TextConcat(a[1..], b);
      assert (a + b)[1..] == a[1..] + b;
      Assoc(CpToUtf8(a[0]), Text(a[1..]), Text(b));
    }
  }

  /** The character walk finds the end of the character at the head of a text. */
  lemma HeadIsWhole(c: Codepoint, rest: Bytes)
    ensures CharLen(CpToUtf8(c) + rest) == |CpToUtf8(c)|
    ensures |CpToUtf8(c)| > 1 ==> forall k :: 0 <= k < |CpToUtf8(c)| ==> CpToUtf8(c)[k] >= 0x80
    ensures |CpToUtf8(c)| == 1 ==> CpToUtf8(c)[0] < 0x80
  {
  }

  /** One character further. */
  lemma OneCharacter(t: Bytes, i: nat, cps: seq<Codepoint>)
    requires i < |t| && t[i..] == Text(cps)
    ensures |cps| > 0 && t[NextChar(t, i)..] == Text(cps[1..])
    ensures t[i] < 0x80 ==> NextChar(t, i) == i + 1
    ensures t[i] >= 0x80 ==> forall k :: i <= k < NextChar(t, i) ==> t[k] >= 0x80
  {
    hide CpToUtf8, CharLen;
    assert |t[i..]| > 0;
    var c, n := CpToUtf8(cps[0]), NextChar(t, i);
    HeadIsWhole(cps[0], Text(cps[1..]));
    assert t[n..] == t[i..][|c|..];
    forall k | i <= k < n ensures t[k] == c[k - i] { assert t[i..][k - i] == c[k - i]; }
  }

  /** The rest of the text from e on is again whole characters of cps. */
  ghost predicate Boundary(t: Bytes, e: nat, cps: seq<Codepoint>) {
    e <= |t| && exists k: nat :: k <= |cps| && RestIs(t, e, cps, k)
  }

  ghost predicate RestIs(t: Bytes, e: nat, cps: seq<Codepoint>, k: nat)
    requires e <= |t| && k <= |cps|
  {
    t[e..] == Text(cps[k..])
  }

  lemma Further(t: Bytes, e: nat, cps: seq<Codepoint>)
    requires |cps| > 0 && Boundary(t, e, cps[1..])
    ensures Boundary(t, e, cps)
  {
    var k: nat :| k <= |cps[1..]| && RestIs(t, e, cps[1..], k);
    assert cps[1..][k..] == cps[k + 1..];
    assert RestIs(t, e, cps, k + 1);
  }

  lemma Here(t: Bytes, i: nat, cps: seq<Codepoint>)
    requires i <= |t| && t[i..] == Text(cps)
    ensures Boundary(t, i, cps)
  {
    assert cps[0..] == cps;
    assert RestIs(t, i, cps, 0);
  }

  lemma {:induction false} LettersOfText(t: Bytes, i: nat, cps: seq<Codepoint>)
    requires i <= |t| && t[i..] == Text(cps)
    ensures Boundary(t, LettersEnd(t, i), cps) && WholeRun(t, i, LettersEnd(t, i), {Letter})
    decreases |cps|
  {
    hide CharLen, NextChar, Text, Boundary;
    if Is(t, i, Letter) {
      OneCharacter(t, i, cps);
      LettersOfText(t, NextChar(t, i), cps[1..]);
      Further(t, LettersEnd(t, i), cps);
    } else {
      Here(t, i, cps);
    }
  }

  lemma {:induction false} RunOfText(t: Bytes, i: nat, cs: set<Class>, most: nat, cps: seq<Codepoint>)
    requires i <= |t| && t[i..] == Text(cps) && Letter !in cs
    ensures Boundary(t, RunEnd(t, i, cs, most), cps)
    decreases |cps|
  {
    if i < |t| && ClassOf(t[i]) in cs && most > 0 {
      OneCharacter(t, i, cps);
      RunOfText(t, i + 1, cs, most - 1, cps[1..]);
      Further(t, RunEnd(t, i, cs, most), cps);
    } else {
      Here(t, i, cps);
    }
  }

  /** A boundary of what follows a boundary. */
  lemma Onward(t: Bytes, e: nat, cps: seq<Codepoint>, k: nat, e': nat)
    requires e <= |t| && k <= |cps| && RestIs(t, e, cps, k) && Boundary(t, e', cps[k..])
    ensures Boundary(t, e', cps)
  {
    var n: nat :| n <= |cps[k..]| && RestIs(t, e', cps[k..], n);
    assert cps[k..][n..] == cps[k + n..];
    assert RestIs(t, e', cps, k + n);
  }

  lemma AsciiStep(t: Bytes, i: nat, cps: seq<Codepoint>)
    requires i < |t| && t[i] < 0x80 && Boundary(t, i, cps)
    ensures Boundary(t, i + 1, cps)
  {
    var k: nat :| k <= |cps| && RestIs(t, i, cps, k);
    OneCharacter(t, i, cps[k..]);
    Here(t, i + 1, cps[k..][1..]);
    Further(t, i + 1, cps[k..]);
    Onward(t, i, cps, k, i + 1);
  }

  lemma RunOn(t: Bytes, i: nat, cs: set<Class>, most: nat, cps: seq<Codepoint>)
    requires Boundary(t, i, cps) && Letter !in cs
    ensures Boundary(t, RunEnd(t, i, cs, most), cps)
  {
    var k: nat :| k <= |cps| && RestIs(t, i, cps, k);
    RunOfText(t, i, cs, most, cps[k..]);
    Onward(t, i, cps, k, RunEnd(t, i, cs, most));
  }

  lemma LettersOn(t: Bytes, i: nat, cps: seq<Codepoint>)
    requires Boundary(t, i, cps)
    ensures Boundary(t, LettersEnd(t, i), cps) && WholeRun(t, i, LettersEnd(t, i), {Letter})
  {
    var k: nat :| k <= |cps| && RestIs(t, i, cps, k);
    LettersOfText(t, i, cps[k..]);
    Onward(t, i, cps, k, LettersEnd(t, i));
  }

  lemma ContractionOn(t: Bytes, i: nat, cps: seq<Codepoint>)
    requires i < |t| && Boundary(t, i, cps)
    ensures Boundary(t, i + Contraction(t, i), cps)
  {
    hide Boundary;
    if Contraction(t, i) > 0 {
      AsciiStep(t, i, cps);
      AsciiStep(t, i + 1, cps);
      if Contraction(t, i) == 3 { AsciiStep(t, i + 2, cps); }
    }
  }

  lemma SingleByteOn(t: Bytes, i: nat, cps: seq<Codepoint>)
    requires i < |t| && Boundary(t, i, cps)
    ensures Boundary(t, AfterSpace(t, i), cps) && (!Is(t, i, Letter) ==> Boundary(t, i + 1, cps))
  {
    hide Boundary;
    if t[i] < 0x80 { AsciiStep(t, i, cps); }
  }

  lemma PieceEndsAtBoundary(t: Bytes, i: nat, cps: seq<Codepoint>)
    requires i < |t| && Boundary(t, i, cps)
    ensures Boundary(t, PieceEnd(t, i), cps)
  {
    hide Boundary, RunEnd, LettersEnd, Contraction;
    var q := AfterSpace(t, i);
    ContractionOn(t, i, cps);
    SingleByteOn(t, i, cps);
    LettersOn(t, q, cps);
    RunOn(t, i, {Digit}, 3, cps);
    RunOn(t, i, {Newline, Blank}, |t|, cps);
    RunOn(t, i, {Blank}, |t|, cps);
    RunOn(t, q, {Punctuation}, |t|, cps);
    RunOn(t, RunEnd(t, q, {Punctuation}, |t|), {Newline}, |t|, cps);
  }

  ghost predicate IsText(b: Bytes) { exists cps: seq<Codepoint> :: b == Text(cps) }

  lemma BetweenBoundaries(t: Bytes, i: nat, e: nat, cps: seq<Codepoint>)
    requires i <= e <= |t| && t[i..] == Text(cps) && Boundary(t, e, cps)
    ensures IsText(t[i..e]) && IsText(t[e..])
  {
    hide Text;
    var k: nat :| k <= |cps| && RestIs(t, e, cps, k);
    TextConcat(cps[..k], cps[k..]);
    assert cps[..k] + cps[k..] == cps;
    Split(t, i, e);
    SamePrefix(t[i..e], Text(cps[..k]), t[e..]);
  }

  lemma Split(t: Bytes, i: nat, e: nat)
    requires i <= e <= |t|
    ensures t[i..] == t[i..e] + t[e..]
  {
  }

  lemma SamePrefix(a: Bytes, b: Bytes, c: Bytes)
    requires a + c == b + c
    ensures a == b
  {
    assert |a| == |b|;
    assert a == (a + c)[..|a|] && b == (b + c)[..|b|];
  }

  /** The pieces of a well-formed text are well-formed: no character is split between two of them. */
  lemma {:induction false} PiecesAreText(t: Bytes, i: nat)
    requires i <= |t| && IsText(t[i..])
    ensures forall k :: 0 <= k < |PiecesFrom(t, i)| ==> IsText(PiecesFrom(t, i)[k])
    decreases |t| - i
  {
    hide Boundary, PieceEnd, IsText;
    if i < |t| {
      TextPiece(t, i);
      PiecesAreText(t, PieceEnd(t, i));
    }
  }

  lemma TextPiece(t: Bytes, i: nat)
    requires i < |t| && IsText(t[i..])
    ensures IsText(t[i..PieceEnd(t, i)]) && IsText(t[PieceEnd(t, i)..])
  {
    hide PieceEnd, Boundary;
    var cps: seq<Codepoint> :| t[i..] == Text(cps);
    Here(t, i, cps);
    PieceEndsAtBoundary(t, i, cps);
    BetweenBoundaries(t, i, PieceEnd(t, i), cps);
  }

  /** On well-formed text a word's letters are all the letter bytes from there on, as for the other kinds of runs. */
  lemma {:induction false} WordsAreByteRuns(t: Bytes, i: nat, e: nat)
    requires i < |t| && IsText(t[i..])
    ensures Word(t, i, e) <==> Is(t, AfterSpace(t, i), Letter) && WholeRun(t, AfterSpace(t, i), e, {Letter})
  {
    hide Boundary, LettersEnd;
    var cps: seq<Codepoint> :| t[i..] == Text(cps);
    var q := AfterSpace(t, i);
    Here(t, i, cps);
    SingleByteOn(t, i, cps);
    LettersOn(t, q, cps);
    WordIff(t, i, e);
    OneEnd(t, q, e, LettersEnd(t, q), {Letter});
  }

  lemma OneEnd(t: Bytes, a: nat, b: nat, e: nat, cs: set<Class>)
    requires a <= |t| && WholeRun(t, a, e, cs)
    ensures WholeRun(t, a, b, cs) <==> b == e
  {
    hide WholeRun, RunEnd;
    WholeRunIff(t, a, cs, b);
    WholeRunIff(t, a, cs, e);
  }
}
