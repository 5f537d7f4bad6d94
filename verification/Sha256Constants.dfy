/** Where SHA-256 takes its constants from. */
module Sha256Constants {
  // Sections 5.1 and 6.1 of RFC 6234: the first 32 bits of the fractional parts of the cube and square roots of the
  // first primes.

  import opened Sha256

  const P0: seq<nat> := [2, 3, 5, 7, 11, 13, 17, 19]
  const P1: seq<nat> := [23, 29, 31, 37, 41, 43, 47, 53]
  const P2: seq<nat> := [59, 61, 67, 71, 73, 79, 83, 89]
  const P3: seq<nat> := [97, 101, 103, 107, 109, 113, 127, 131]
  const P4: seq<nat> := [137, 139, 149, 151, 157, 163, 167, 173]
  const P5: seq<nat> := [179, 181, 191, 193, 197, 199, 211, 223]
  const P6: seq<nat> := [227, 229, 233, 239, 241, 251, 257, 263]
  const P7: seq<nat> := [269, 271, 277, 281, 283, 293, 307, 311]

  const PRIMES: seq<nat> := P0 + P1 + P2 + P3 + P4 + P5 + P6 + P7

  const TWO32: nat := 0x1_0000_0000

  function Cube(v: nat): nat { v * v * v }

  function Square(v: nat): nat { v * v }

  /** k is the first 32 bits of the fractional part of the cube root of p, whose integer part is a. */
  predicate CubeRootBits(p: nat, a: nat, k: nat) {
    k < TWO32 && Cube(a * TWO32 + k) <= p * Cube(TWO32) < Cube(a * TWO32 + k + 1)
  }

  predicate SquareRootBits(p: nat, a: nat, k: nat) {
    k < TWO32 && Square(a * TWO32 + k) <= p * Square(TWO32) < Square(a * TWO32 + k + 1)
  }

  /** The integer part of the cube root of a number below 343. */
  function Whole(p: nat): nat {
    if p < 8 then 1 else if p < 27 then 2 else if p < 64 then 3 else if p < 125 then 4 else if p < 216 then 5 else 6
  }

  predicate RootAt(ps: seq<nat>, ks: seq<Word>, i: nat)
    requires i < |ps| && i < |ks|
  {
    CubeRootBits(ps[i], Whole(ps[i]), ks[i] as nat)
  }

  predicate AreRoots(ps: seq<nat>, ks: seq<Word>) {
    |ks| == |ps| && forall i: nat :: i < |ps| ==> RootAt(ps, ks, i)
  }

  lemma Roots0()
    ensures AreRoots(P0, K0) && |P0| == 8
  {
    assert RootAt(P0, K0, 0) && RootAt(P0, K0, 1) && RootAt(P0, K0, 2) && RootAt(P0, K0, 3);
    assert RootAt(P0, K0, 4) && RootAt(P0, K0, 5) && RootAt(P0, K0, 6) && RootAt(P0, K0, 7);
    hide RootAt;
  }

  lemma Roots1()
    ensures AreRoots(P1, K1) && |P1| == 8
  {
    assert RootAt(P1, K1, 0) && RootAt(P1, K1, 1) && RootAt(P1, K1, 2) && RootAt(P1, K1, 3);
    assert RootAt(P1, K1, 4) && RootAt(P1, K1, 5) && RootAt(P1, K1, 6) && RootAt(P1, K1, 7);
    hide RootAt;
  }

  lemma Roots2()
    ensures AreRoots(P2, K2) && |P2| == 8
  {
    assert RootAt(P2, K2, 0) && RootAt(P2, K2, 1) && RootAt(P2, K2, 2) && RootAt(P2, K2, 3);
    assert RootAt(P2, K2, 4) && RootAt(P2, K2, 5) && RootAt(P2, K2, 6) && RootAt(P2, K2, 7);
    hide RootAt;
  }

  lemma Roots3()
    ensures AreRoots(P3, K3) && |P3| == 8
  {
    assert RootAt(P3, K3, 0) && RootAt(P3, K3, 1) && RootAt(P3, K3, 2) && RootAt(P3, K3, 3);
    assert RootAt(P3, K3, 4) && RootAt(P3, K3, 5) && RootAt(P3, K3, 6) && RootAt(P3, K3, 7);
    hide RootAt;
  }

  lemma Roots4()
    ensures AreRoots(P4, K4) && |P4| == 8
  {
    assert RootAt(P4, K4, 0) && RootAt(P4, K4, 1) && RootAt(P4, K4, 2) && RootAt(P4, K4, 3);
    assert RootAt(P4, K4, 4) && RootAt(P4, K4, 5) && RootAt(P4, K4, 6) && RootAt(P4, K4, 7);
    hide RootAt;
  }

  lemma Roots5()
    ensures AreRoots(P5, K5) && |P5| == 8
  {
    assert RootAt(P5, K5, 0) && RootAt(P5, K5, 1) && RootAt(P5, K5, 2) && RootAt(P5, K5, 3);
    assert RootAt(P5, K5, 4) && RootAt(P5, K5, 5) && RootAt(P5, K5, 6) && RootAt(P5, K5, 7);
    hide RootAt;
  }

  lemma Roots6()
    ensures AreRoots(P6, K6) && |P6| == 8
  {
    assert RootAt(P6, K6, 0) && RootAt(P6, K6, 1) && RootAt(P6, K6, 2) && RootAt(P6, K6, 3);
    assert RootAt(P6, K6, 4) && RootAt(P6, K6, 5) && RootAt(P6, K6, 6) && RootAt(P6, K6, 7);
    hide RootAt;
  }

  lemma Roots7()
    ensures AreRoots(P7, K7) && |P7| == 8
  {
    assert RootAt(P7, K7, 0) && RootAt(P7, K7, 1) && RootAt(P7, K7, 2) && RootAt(P7, K7, 3);
    assert RootAt(P7, K7, 4) && RootAt(P7, K7, 5) && RootAt(P7, K7, 6) && RootAt(P7, K7, 7);
    hide RootAt;
  }

  lemma Joined(ps: seq<nat>, ks: seq<Word>, qs: seq<nat>, ls: seq<Word>)
    requires AreRoots(ps, ks) && AreRoots(qs, ls)
    ensures AreRoots(ps + qs, ks + ls)
  {
    hide CubeRootBits, Whole;
    forall i: nat | i < |ps + qs| ensures RootAt(ps + qs, ks + ls, i) {
      if i < |ps| { assert RootAt(ps, ks, i); } else { assert RootAt(qs, ls, i - |ps|); }
    }
  }

  lemma AllRoots()
    ensures AreRoots(PRIMES, K) && |PRIMES| == 64
  {
    hide AreRoots, P0, P1, P2, P3, P4, P5, P6, P7, K0, K1, K2, K3, K4, K5, K6, K7;
    Roots0(); Roots1(); Roots2(); Roots3(); Roots4(); Roots5(); Roots6(); Roots7();
    Joined(P0, K0, P1, K1);
    Joined(P0 + P1, K0 + K1, P2, K2);
    Joined(P0 + P1 + P2, K0 + K1 + K2, P3, K3);
    Joined(P0 + P1 + P2 + P3, K0 + K1 + K2 + K3, P4, K4);
    Joined(P0 + P1 + P2 + P3 + P4, K0 + K1 + K2 + K3 + K4, P5, K5);
    Joined(P0 + P1 + P2 + P3 + P4 + P5, K0 + K1 + K2 + K3 + K4 + K5, P6, K6);
    Joined(P0 + P1 + P2 + P3 + P4 + P5 + P6, K0 + K1 + K2 + K3 + K4 + K5 + K6, P7, K7);
  }

  /** Each of the 64 round constants. */
  lemma RoundConstants(t: nat)
    requires t < 64
    ensures t < |PRIMES| && t < |K| && CubeRootBits(PRIMES[t], Whole(PRIMES[t]), K[t] as nat)
  {
    hide PRIMES, K, CubeRootBits, Whole;
    AllRoots();
    assert RootAt(PRIMES, K, t);
  }

  /** The initial hash value. */
  lemma InitialHash()
    ensures SquareRootBits(2, 1, IV.a as nat) && SquareRootBits(3, 1, IV.b as nat)
    ensures SquareRootBits(5, 2, IV.c as nat) && SquareRootBits(7, 2, IV.d as nat)
    ensures SquareRootBits(11, 3, IV.e as nat) && SquareRootBits(13, 3, IV.f as nat)
    ensures SquareRootBits(17, 4, IV.g as nat) && SquareRootBits(19, 4, IV.h as nat)
  {
  }

  /** The bits on which the four functions of section 5.1 place one bit: rotations to the right and shifts. */
  lemma BigSigma0()
    ensures BSig0(1) == 0x40080400
  {
  }

  lemma BigSigma1()
    ensures BSig1(1) == 0x04200080
  {
  }

  lemma SmallSigma0()
    ensures SSig0(8) == 0x10020001
  {
  }

  lemma SmallSigma1()
    ensures SSig1(1024) == 0x02800001
  {
  }

  /** x chooses bit by bit between y and z. */
  lemma Choice(x: Word, y: Word, z: Word)
    ensures Ch(x, y, z) & x == y & x && Ch(x, y, z) & !x == z & !x
  {
  }

  /** A bit is set when it is set in two of the three. */
  lemma Majority(x: Word, y: Word, z: Word)
    ensures Maj(x, y, z) == (x & y) | (x & z) | (y & z)
  {
  }
}
