/** Stop sequences. */
module StopMatchers {
  // The class `StopMatcher` and what its hold-back guarantees.

  import opened Bytes

  ghost predicate OccursAt(t: Bytes, p: Bytes, i: int) {
    0 <= i && i + |p| <= |t| && t[i..i + |p|] == p
  }

  ghost predicate Contains(t: Bytes, p: Bytes) {
    exists i :: OccursAt(t, p, i)
  }

  ghost predicate Hit(pats: seq<Bytes>, t: Bytes) {
    exists k :: 0 <= k < |pats| && Contains(t, pats[k])
  }

  /** std::string::find from position i; -1 for npos. */
  function FindFrom(t: Bytes, p: Bytes, i: nat): (r: int)
    ensures r >= 0 ==> i <= r && OccursAt(t, p, r)
    ensures forall j :: i <= j < (if r >= 0 then r else |t| + 1) ==> !OccursAt(t, p, j)
    decreases |t| - i
  {
    if i + |p| > |t| then -1 else if t[i..i + |p|] == p then i else FindFrom(t, p, i + 1)
  }

  /** The first pattern, in list order from k, that occurs in t; |pats| if none does. */
  function FirstPattern(pats: seq<Bytes>, t: Bytes, k: nat): (r: nat)
    requires k <= |pats|
    ensures k <= r <= |pats|
    ensures r < |pats| ==> Contains(t, pats[r])
    ensures forall j :: k <= j < r ==> !Contains(t, pats[j])
    decreases |pats| - k
  {
    if k < |pats| && FindFrom(t, pats[k], 0) < 0 then FirstPattern(pats, t, k + 1) else k
  }

  /** The text before the first occurrence of the first pattern that occurs. */
  function Cut(pats: seq<Bytes>, t: Bytes): Bytes
    requires FirstPattern(pats, t, 0) < |pats|
  {
    t[..FindFrom(t, pats[FirstPattern(pats, t, 0)], 0)]
  }

  // ----- how much of the text is safe -----

  /** A stop sequence may have started at s: the rest of the text is a prefix of some pattern. */
  ghost predicate Pending(pats: seq<Bytes>, t: Bytes, s: int) {
    0 <= s < |t| && exists k :: 0 <= k < |pats| && t[s..] <= pats[k]
  }

  /** The safe length: the first position where a stop sequence may have started. */
  ghost predicate IsSafeLength(pats: seq<Bytes>, t: Bytes, s: int) {
    && 0 <= s <= |t|
    && (forall i :: 0 <= i < s ==> !Pending(pats, t, i))
    && (s < |t| ==> Pending(pats, t, s))
  }

  ghost function SafeLength(pats: seq<Bytes>, t: Bytes, i: nat): (s: nat)
    requires i <= |t| && forall j :: 0 <= j < i ==> !Pending(pats, t, j)
    ensures IsSafeLength(pats, t, s)
    decreases |t| - i
  {
    if i == |t| || Pending(pats, t, i) then i else SafeLength(pats, t, i + 1)
  }

  /** How many bytes of the piece may be sent on: those of the accumulated text below its safe length. */
  ghost function Emit(pats: seq<Bytes>, buf: Bytes, piece: Bytes): (r: nat)
    ensures r <= |piece|
  {
    var s := SafeLength(pats, buf + piece, 0);
    if s < |buf| then 0 else s - |buf|
  }

  lemma SliceOfPrefix(t: Bytes, more: Bytes, i: nat, j: nat)
    requires i <= j <= |t|
    ensures (t + more)[i..j] == t[i..j]
  {
  }

  /** Sound: as long as no pattern occurs in the text, whatever comes later, a stop sequence completed then
      starts at or after the safe length. */
  lemma SafeLengthIsSound(pats: seq<Bytes>, t: Bytes, s: int, more: Bytes, k: int, i: int)
    requires !Hit(pats, t) && IsSafeLength(pats, t, s)
    requires 0 <= k < |pats| && OccursAt(t + more, pats[k], i)
    ensures s <= i
  {
    var p, whole := pats[k], t + more;
    assert i + |p| > |t| by {
      if i + |p| <= |t| {
        SliceOfPrefix(t, more, i, i + |p|);
        assert OccursAt(t, p, i);
        assert Contains(t, p);
      }
    }
    if i < |t| {
      SliceOfPrefix(t, more, i, |t|);
      assert whole[i..i + |p|][..|t| - i] == whole[i..|t|];
      assert t[i..] == whole[i..i + |p|][..|t| - i];
      assert Pending(pats, t, i);
    }
  }

  /** Tight: if anything is held back, some continuation completes a stop sequence exactly there. */
  lemma SafeLengthIsTight(pats: seq<Bytes>, t: Bytes, s: int)
    requires IsSafeLength(pats, t, s) && s < |t|
    ensures exists k, more: Bytes :: 0 <= k < |pats| && OccursAt(t + more, pats[k], s)
  {
    var k :| 0 <= k < |pats| && t[s..] <= pats[k];
    var more := pats[k][|t| - s..];
    assert (t + more)[s..s + |pats[k]|] == t[s..] + more == pats[k];
    assert OccursAt(t + more, pats[k], s);
  }

  lemma SafeLengthIsUnique(pats: seq<Bytes>, t: Bytes, a: int, b: int)
    requires IsSafeLength(pats, t, a) && IsSafeLength(pats, t, b)
    ensures a == b
  {
  }

  /** Positions below s are not the start of a partial match of p; |t| - s bytes at the end may be one. */
  ghost predicate SafeFor(p: Bytes, t: Bytes, s: int) {
    && 0 <= s <= |t|
    && (forall i :: 0 <= i < s ==> !(t[i..] <= p))
    && (s < |t| ==> t[s..] <= p)
  }

  /** The candidate loop for one pattern: the longest suffix of the text that is a prefix of p. */
  method LongestPartial(t: Bytes, p: Bytes) returns (s: nat)
    ensures SafeFor(p, t, s)
  {
    var cand := if |t| < |p| then |t| else |p|;
    while cand > 0
      invariant 0 <= cand <= |t| && cand <= |p|
      invariant forall i :: 0 <= i < |t| - cand ==> !(t[i..] <= p)
    {
      if t[|t| - cand..] == p[..cand] {
        return |t| - cand;
      }
      assert !(t[|t| - cand..] <= p);
      cand := cand - 1;
    }
    s := |t|;
  }

  method SafeLoop(pats: seq<Bytes>, t: Bytes) returns (safe: nat)
    ensures IsSafeLength(pats, t, safe)
  {
    safe := |t|;
    for k := 0 to |pats|
      invariant IsSafeLength(pats[..k], t, safe)
    {
      var s := LongestPartial(t, pats[k]);
      SafeMin(pats, k, t, safe, s);
      safe := if s < safe then s else safe;
    }
    assert pats[..|pats|] == pats;
  }

  lemma SafeMin(pats: seq<Bytes>, k: nat, t: Bytes, a: int, s: int)
    requires k < |pats| && IsSafeLength(pats[..k], t, a) && SafeFor(pats[k], t, s)
    ensures IsSafeLength(pats[..k + 1], t, if s < a then s else a)
  {
    var all := pats[..k + 1];
    forall i | 0 <= i < |t| ensures Pending(all, t, i) <==> Pending(pats[..k], t, i) || t[i..] <= pats[k] {
      if t[i..] <= pats[k] { assert all[k] == pats[k]; }
      if j :| 0 <= j < |pats[..k]| && t[i..] <= pats[..k][j] { assert all[j] == pats[..k][j]; }
    }
  }

  // ----- the class -----

  class StopMatcher {
    const pats: seq<Bytes>
    var buf: Bytes

    constructor (patterns: seq<Bytes>)
      ensures pats == patterns && buf == []
    {
      pats := patterns;
      buf := [];
    }

    /** `feed`: -1 once a pattern occurs in the accumulated text, which is then cut before it; otherwise the
        number of bytes of the piece that lie before the safe length. */
    method Feed(piece: Bytes) returns (r: int)
      modifies this
      ensures pats == [] ==> r == |piece| && buf == old(buf)
      ensures pats != [] ==> (r == -1 <==> Hit(pats, old(buf) + piece))
      ensures pats != [] && r == -1 ==>
        FirstPattern(pats, old(buf) + piece, 0) < |pats| && buf == Cut(pats, old(buf) + piece)
      ensures pats != [] && r != -1 ==>
        buf == old(buf) + piece && r == Emit(pats, old(buf), piece) && 0 <= r <= |piece|
    {
      if pats == [] {
        return |piece|;
      }
      buf := buf + piece;
      for k := 0 to |pats|
        invariant buf == old(buf) + piece
        invariant FirstPattern(pats, buf, 0) == FirstPattern(pats, buf, k)
      {
        var pos := FindFrom(buf, pats[k], 0);
        if pos >= 0 {
          assert Contains(buf, pats[k]);
          buf := buf[..pos];
          return -1;
        }
      }
      var safe := SafeLoop(pats, buf);
      SafeLengthIsUnique(pats, buf, safe, SafeLength(pats, buf, 0));
      var prev := |buf| - |piece|;
      r := if safe < prev then 0 else safe - prev;
    }

    method FlushBuffer() returns (out: Bytes)
      modifies this
      ensures out == old(buf) && buf == []
    {
      out := buf;
      buf := [];
    }
  }

  // ----- whole runs -----

  /** Feeding pieces until the first -1. `kept` is the buffer at the end. */
  datatype Outcome = Outcome(stopped: bool, kept: Bytes, used: nat)

  ghost function Run(pats: seq<Bytes>, buf: Bytes, pieces: seq<Bytes>): (o: Outcome)
    requires pats != []
    ensures o.used <= |pieces|
    decreases |pieces|
  {
    if |pieces| == 0 then Outcome(false, buf, 0)
    else
      var t := buf + pieces[0];
      if FirstPattern(pats, t, 0) < |pats| then Outcome(true, Cut(pats, t), 1)
      else
        var o := Run(pats, t, pieces[1..]);
        o.(used := o.used + 1)
  }

  lemma HitIsFirstPattern(pats: seq<Bytes>, t: Bytes)
    ensures Hit(pats, t) <==> FirstPattern(pats, t, 0) < |pats|
  {
  }

  lemma HitStays(pats: seq<Bytes>, t: Bytes, more: Bytes)
    requires Hit(pats, t)
    ensures Hit(pats, t + more)
  {
    var k :| 0 <= k < |pats| && Contains(t, pats[k]);
    var i :| OccursAt(t, pats[k], i);
    assert (t + more)[i..i + |pats[k]|] == t[i..i + |pats[k]|];
    assert OccursAt(t + more, pats[k], i);
  }

  lemma PrefixText(buf: Bytes, pieces: seq<Bytes>, j: nat)
    requires 0 < j <= |pieces|
    ensures buf + Flatten(pieces[..j]) == (buf + pieces[0]) + Flatten(pieces[1..][..j - 1])
  {
    assert pieces[..j][1..] == pieces[1..][..j - 1];
    Assoc(buf, pieces[0], Flatten(pieces[1..][..j - 1]));
  }

  /** The run stops at exactly the first piece whose accumulated text contains a pattern, and otherwise the
      buffer is the whole text. */
  lemma {:induction false} StopsAtFirstHit(pats: seq<Bytes>, buf: Bytes, pieces: seq<Bytes>)
    requires pats != [] && !Hit(pats, buf)
    ensures var o := Run(pats, buf, pieces);
      && (forall j :: 0 <= j < o.used ==> !Hit(pats, buf + Flatten(pieces[..j])))
      && (o.stopped <==> Hit(pats, buf + Flatten(pieces)))
      && (o.stopped ==> Hit(pats, buf + Flatten(pieces[..o.used])))
      && (!o.stopped ==> o.used == |pieces| && o.kept == buf + Flatten(pieces))
    decreases |pieces|
  {
    if |pieces| == 0 {
      assert buf + Flatten(pieces) == buf;
    } else {
      var t := buf + pieces[0];
      var o := Run(pats, buf, pieces);
      HitIsFirstPattern(pats, t);
      assert buf + Flatten(pieces[..0]) == buf;
      assert pieces[..|pieces|] == pieces && pieces[1..][..|pieces| - 1] == pieces[1..];
      PrefixText(buf, pieces, |pieces|);
      if Hit(pats, t) {
        HitStays(pats, t, Flatten(pieces[1..]));
        PrefixText(buf, pieces, 1);
        assert t + Flatten(pieces[1..][..0]) == t;
      } else {
        StopsAtFirstHit(pats, t, pieces[1..]);
        forall j | 0 <= j < o.used ensures !Hit(pats, buf + Flatten(pieces[..j])) {
          if j > 0 { PrefixText(buf, pieces, j); }
        }
        PrefixText(buf, pieces, o.used);
      }
    }
  }

  /** An occurrence that starts first is found first: with one pattern, growing the text does not move it. */
  lemma FirstOccurrenceStays(t: Bytes, more: Bytes, p: Bytes)
    requires Contains(t, p)
    ensures FindFrom(t + more, p, 0) == FindFrom(t, p, 0) >= 0
  {
    var i := FindFrom(t, p, 0);
    var whole := t + more;
    assert whole[i..i + |p|] == t[i..i + |p|];
    assert OccursAt(whole, p, i);
    var j := FindFrom(whole, p, 0);
    assert 0 <= j <= i;
    assert t[j..j + |p|] == whole[j..j + |p|];
    assert OccursAt(t, p, j);
  }

  lemma {:induction false} SingleStopFrom(p: Bytes, buf: Bytes, pieces: seq<Bytes>)
    requires !Contains(buf, p) && Contains(buf + Flatten(pieces), p)
    ensures Run([p], buf, pieces).stopped
    ensures var whole := buf + Flatten(pieces);
      FindFrom(whole, p, 0) >= 0 && Run([p], buf, pieces).kept == whole[..FindFrom(whole, p, 0)]
    decreases |pieces|
  {
    assert |pieces| == 0 ==> buf + Flatten(pieces) == buf;
    if |pieces| > 0 {
      var t, rest := buf + pieces[0], Flatten(pieces[1..]);
      Assoc(buf, pieces[0], rest);
      if Contains(t, p) {
        FirstOccurrenceStays(t, rest, p);
        assert FirstPattern([p], t, 0) == 0;
        var i := FindFrom(t, p, 0);
        assert (t + rest)[..i] == t[..i];
      } else {
        assert FirstPattern([p], t, 0) == 1;
        SingleStopFrom(p, t, pieces[1..]);
      }
    }
  }

  /** With a single pattern the text kept before the stop does not depend on how the text was cut into pieces:
      it is always the text before the first occurrence. */
  lemma {:induction false} SingleStopIgnoresSplit(p: Bytes, pieces: seq<Bytes>)
    requires |pieces| > 0 && Contains(Flatten(pieces), p)
    ensures Run([p], [], pieces).stopped
    ensures var whole := Flatten(pieces);
      FindFrom(whole, p, 0) >= 0 && Run([p], [], pieces).kept == whole[..FindFrom(whole, p, 0)]
  {
    assert [] + Flatten(pieces) == Flatten(pieces);
    if |p| == 0 {
      assert FindFrom([] + pieces[0], p, 0) == 0 && FindFrom(Flatten(pieces), p, 0) == 0;
    } else {
      SingleStopFrom(p, [], pieces);
    }
  }

  /** What a run sends on, piece by piece, without the final flush. */
  ghost function Sent(pats: seq<Bytes>, buf: Bytes, pieces: seq<Bytes>): Bytes
    decreases |pieces|
  {
    if |pieces| == 0 then []
    else if pats == [] then pieces[0] + Sent(pats, buf, pieces[1..])
    else
      var t := buf + pieces[0];
      if FirstPattern(pats, t, 0) < |pats| then []
      else pieces[0][..Emit(pats, buf, pieces[0])] + Sent(pats, t, pieces[1..])
  }

  lemma {:induction false} SentWithoutPatterns(buf: Bytes, pieces: seq<Bytes>)
    ensures Sent([], buf, pieces) == Flatten(pieces)
    decreases |pieces|
  {
    if |pieces| > 0 { SentWithoutPatterns(buf, pieces[1..]); }
  }

  /** A stop sequence that starts in the text before the piece, or with it, may still be completed. */
  ghost predicate HeldBack(pats: seq<Bytes>, before: Bytes, piece: Bytes) {
    exists s :: 0 <= s <= |before| && Pending(pats, before + piece, s)
  }

  lemma EmitsNothing(pats: seq<Bytes>, before: Bytes, piece: Bytes)
    ensures Emit(pats, before, piece) == 0 <==> piece == [] || HeldBack(pats, before, piece)
  {
    var t := before + piece;
    var safe := SafeLength(pats, t, 0);
    if s :| 0 <= s <= |before| && Pending(pats, t, s) { assert safe <= s; }
    if piece != [] && safe <= |before| { assert Pending(pats, t, safe); }
  }

  /** If piece j is not empty and completes no pattern, it ends in a possible start, at or before its own start. */
  ghost predicate HeldAt(pats: seq<Bytes>, buf: Bytes, pieces: seq<Bytes>, j: nat)
    requires j < |pieces|
  {
    pieces[j] != [] && !Hit(pats, buf + Flatten(pieces[..j + 1])) ==>
      HeldBack(pats, buf + Flatten(pieces[..j]), pieces[j])
  }

  /** Every piece before the stop has to be held back whole. */
  ghost predicate NothingSafe(pats: seq<Bytes>, buf: Bytes, pieces: seq<Bytes>) {
    forall j: nat :: j < |pieces| ==> HeldAt(pats, buf, pieces, j)
  }

  lemma HeldAtFirst(pats: seq<Bytes>, buf: Bytes, pieces: seq<Bytes>)
    requires |pieces| > 0
    ensures HeldAt(pats, buf, pieces, 0) <==>
            (pieces[0] != [] && !Hit(pats, buf + pieces[0]) ==> HeldBack(pats, buf, pieces[0]))
  {
    hide Hit, HeldBack;
    FlattenOne(pieces[0]);
    assert pieces[..1] == [pieces[0]];
    assert buf + Flatten(pieces[..0]) == buf;
  }

  lemma HeldAtShift(pats: seq<Bytes>, buf: Bytes, pieces: seq<Bytes>, j: nat)
    requires j + 1 < |pieces|
    ensures HeldAt(pats, buf + pieces[0], pieces[1..], j) <==> HeldAt(pats, buf, pieces, j + 1)
  {
    hide Hit, HeldBack;
    PrefixText(buf, pieces, j + 1);
    PrefixText(buf, pieces, j + 2);
  }

  /** The first piece on its own, the others from the text after it. */
  lemma NothingSafeStep(pats: seq<Bytes>, buf: Bytes, pieces: seq<Bytes>)
    requires |pieces| > 0
    ensures NothingSafe(pats, buf, pieces) <==>
            HeldAt(pats, buf, pieces, 0) && NothingSafe(pats, buf + pieces[0], pieces[1..])
  {
    hide HeldAt;
    var rest, t := pieces[1..], buf + pieces[0];
    if NothingSafe(pats, buf, pieces) {
      forall j: nat | j < |rest| ensures HeldAt(pats, t, rest, j) { HeldAtShift(pats, buf, pieces, j); }
    }
    if HeldAt(pats, buf, pieces, 0) && NothingSafe(pats, t, rest) {
      forall j: nat | j < |pieces| ensures HeldAt(pats, buf, pieces, j) {
        if j > 0 { HeldAtShift(pats, buf, pieces, j - 1); }
      }
    }
  }

  lemma NothingSafeAfterHit(pats: seq<Bytes>, t: Bytes, pieces: seq<Bytes>)
    requires Hit(pats, t)
    ensures NothingSafe(pats, t, pieces)
  {
    hide Hit;
    forall j: nat | j < |pieces| ensures HeldAt(pats, t, pieces, j) { HitStays(pats, t, Flatten(pieces[..j + 1])); }
  }

  lemma {:induction false} SendsNothing(pats: seq<Bytes>, buf: Bytes, pieces: seq<Bytes>)
    requires pats != []
    ensures Sent(pats, buf, pieces) == [] <==> NothingSafe(pats, buf, pieces)
    decreases |pieces|
  {
    if |pieces| == 0 {
      assert NothingSafe(pats, buf, pieces);
    } else {
      hide NothingSafe, HeldAt, HeldBack, Hit;
      var t := buf + pieces[0];
      NothingSafeStep(pats, buf, pieces);
      HeldAtFirst(pats, buf, pieces);
      HitIsFirstPattern(pats, t);
      if Hit(pats, t) {
        NothingSafeAfterHit(pats, t, pieces[1..]);
      } else {
        EmitsNothing(pats, buf, pieces[0]);
        SendsNothing(pats, t, pieces[1..]);
      }
    }
  }

  /** The buffer is never drained by `feed`, so the final flush repeats the kept text. For every run, stopped or not,
      what was sent and the flush together are the text kept exactly when there are no patterns or every piece had to
      be held back whole. */
  lemma {:induction false} FlushRepeatsTheText(pats: seq<Bytes>, pieces: seq<Bytes>)
    ensures var kept := if pats == [] then Flatten(pieces) else Run(pats, [], pieces).kept;
      var flushed := if pats == [] then [] else kept;
      Sent(pats, [], pieces) + flushed == kept <==> pats == [] || NothingSafe(pats, [], pieces)
  {
    hide NothingSafe;
    if pats == [] {
      SentWithoutPatterns([], pieces);
      assert Flatten(pieces) + [] == Flatten(pieces);
    } else {
      SendsNothing(pats, [], pieces);
      var sent, kept := Sent(pats, [], pieces), Run(pats, [], pieces).kept;
      assert |sent + kept| == |sent| + |kept|;
      if sent == [] { assert sent + kept == kept; }
    }
  }

  // ----- several patterns -----

  /** The kept text depends on the whole text only, not on how it was cut. */
  ghost predicate SplitIndependent(pats: seq<Bytes>)
    requires pats != []
  {
    forall a, b :: |a| > 0 && |b| > 0 && Flatten(a) == Flatten(b) ==> Run(pats, [], a).kept == Run(pats, [], b).kept
  }

  /** Every pattern contains the first one, which a caller can check from the list alone. */
  ghost predicate FirstInAll(pats: seq<Bytes>)
    requires pats != []
  {
    forall j :: 0 <= j < |pats| ==> Contains(pats[j], pats[0])
  }

  lemma SliceOfSlice(t: Bytes, i: nat, k: nat, a: nat, b: nat)
    requires i <= k <= |t| && a <= b <= k - i
    ensures t[i..k][a..b] == t[i + a..i + b]
  {
    var x, y := t[i..k][a..b], t[i + a..i + b];
    assert forall j :: 0 <= j < b - a ==> x[j] == y[j];
  }

  lemma ContainsTrans(t: Bytes, q: Bytes, p: Bytes)
    requires Contains(t, q) && Contains(q, p)
    ensures Contains(t, p)
  {
    var i :| OccursAt(t, q, i);
    var j :| OccursAt(q, p, j);
    SliceOfSlice(t, i, i + |q|, j, j + |p|);
    assert OccursAt(t, p, i + j);
  }

  lemma FirstDecides(pats: seq<Bytes>, t: Bytes)
    requires pats != [] && FirstInAll(pats)
    ensures FirstPattern(pats, t, 0) == (if Contains(t, pats[0]) then 0 else |pats|)
    ensures FirstPattern([pats[0]], t, 0) == (if Contains(t, pats[0]) then 0 else 1)
  {
    var k := FirstPattern(pats, t, 0);
    if k < |pats| { ContainsTrans(t, pats[k], pats[0]); }
  }

  lemma {:induction false} RunsAsFirst(pats: seq<Bytes>, buf: Bytes, pieces: seq<Bytes>)
    requires pats != [] && FirstInAll(pats)
    ensures Run(pats, buf, pieces) == Run([pats[0]], buf, pieces)
    decreases |pieces|
  {
    if |pieces| > 0 {
      FirstDecides(pats, buf + pieces[0]);
      RunsAsFirst(pats, buf + pieces[0], pieces[1..]);
    }
  }

  /** With one pattern the whole text decides. */
  lemma {:induction false} SingleKept(p: Bytes, a: seq<Bytes>, b: seq<Bytes>)
    requires |a| > 0 && |b| > 0 && Flatten(a) == Flatten(b)
    ensures Run([p], [], a).kept == Run([p], [], b).kept
  {
    if Contains(Flatten(a), p) {
      SingleStopIgnoresSplit(p, a);
      SingleStopIgnoresSplit(p, b);
    } else {
      NeverStops(p, a);
      NeverStops(p, b);
    }
  }

  lemma HitOfOne(p: Bytes, t: Bytes)
    ensures Hit([p], t) <==> Contains(t, p)
  {
    if Contains(t, p) { assert [p][0] == p; }
  }

  lemma {:induction false} NeverStops(p: Bytes, pieces: seq<Bytes>)
    requires !Contains(Flatten(pieces), p)
    ensures Run([p], [], pieces).kept == Flatten(pieces)
  {
    var whole := Flatten(pieces);
    assert [] + whole == whole;
    HitOfOne(p, whole);
    if Hit([p], []) { HitStays([p], [], whole); }
    StopsAtFirstHit([p], [], pieces);
  }

  /** Between q and p stand as many separators as p is long, and p does not end in a separator. */
  function Apart(q: Bytes, p: Bytes, sep: byte): Bytes {
    q + seq(|p|, _ => sep) + p
  }

  lemma ApartAt(q: Bytes, p: Bytes, sep: byte, i: nat)
    requires i < |q| + 2 * |p|
    ensures |Apart(q, p, sep)| == |q| + 2 * |p|
    ensures Apart(q, p, sep)[i] == if i < |q| then q[i] else if i < |q| + |p| then sep else p[i - |q| - |p|]
  {
  }

  lemma OccursAtLast(t: Bytes, p: Bytes, i: nat)
    requires OccursAt(t, p, i) && p != []
    ensures t[i + |p| - 1] == p[|p| - 1]
  {
    assert t[i..i + |p|][|p| - 1] == t[i + |p| - 1];
  }

  /** No occurrence of p starts inside q or right after it. */
  lemma NotUpTo(q: Bytes, p: Bytes, sep: byte, r: nat)
    requires p != [] && sep != p[|p| - 1] && OccursAt(Apart(q, p, sep), p, r) && r <= |q|
    ensures Contains(q, p)
  {
    var t, e := Apart(q, p, sep), r + |p| - 1;
    OccursAtLast(t, p, r);
    assert |t| == |q| + 2 * |p|;
    ApartAt(q, p, sep, e);
    assert t == q + (seq(|p|, _ => sep) + p);
    SliceOfPrefix(q, seq(|p|, _ => sep) + p, r, r + |p|);
    assert OccursAt(q, p, r);
  }

  lemma FoundAfter(q: Bytes, p: Bytes, sep: byte)
    requires p != [] && sep != p[|p| - 1] && !Contains(q, p)
    ensures FindFrom(Apart(q, p, sep), p, 0) > |q|
  {
    hide Contains;
    var t := Apart(q, p, sep);
    assert OccursAt(t, p, |q| + |p|);
    var r := FindFrom(t, p, 0);
    if r <= |q| { NotUpTo(q, p, sep, r); }
  }

  lemma EmptyEverywhere(q: Bytes)
    ensures Contains(q, [])
  {
    assert OccursAt(q, [], 0);
  }

  lemma StopsOnFirstPiece(pats: seq<Bytes>, pieces: seq<Bytes>)
    requires |pieces| > 0 && pats != [] && Hit(pats, pieces[0])
    ensures FirstPattern(pats, pieces[0], 0) < |pats|
    ensures Run(pats, [], pieces).kept == Cut(pats, pieces[0])
  {
    hide Hit, FirstPattern;
    HitIsFirstPattern(pats, pieces[0]);
    assert [] + pieces[0] == pieces[0];
  }

  /** A text that is itself pattern j cannot be cut beyond its end; one where the first pattern occurs is cut there. */
  lemma CutWithin(pats: seq<Bytes>, q: Bytes, j: nat)
    requires j < |pats| && pats[j] == q
    ensures Hit(pats, q) && FirstPattern(pats, q, 0) < |pats| && |Cut(pats, q)| <= |q|
  {
    assert OccursAt(q, q, 0);
    assert Contains(q, pats[j]);
    HitIsFirstPattern(pats, q);
  }

  lemma CutAtFirst(pats: seq<Bytes>, t: Bytes)
    requires pats != [] && FindFrom(t, pats[0], 0) >= 0
    ensures Hit(pats, t) && FirstPattern(pats, t, 0) == 0 && |Cut(pats, t)| == FindFrom(t, pats[0], 0)
  {
    assert Contains(t, pats[0]);
  }

  /** Some pattern without the first one in it gives a text and two ways to cut it that keep different text. */
  lemma {:induction false} CutsDiffer(pats: seq<Bytes>, j: nat) returns (a: seq<Bytes>, b: seq<Bytes>)
    requires j < |pats| && !Contains(pats[j], pats[0])
    ensures |a| > 0 && |b| > 0 && Flatten(a) == Flatten(b) && Run(pats, [], a).kept != Run(pats, [], b).kept
  {
    hide Contains, Hit, FindFrom, FirstPattern, Run, Cut;
    var q, p := pats[j], pats[0];
    EmptyEverywhere(q);
    var sep: byte := if p[|p| - 1] == 0 then 1 else 0;
    var t, tail: Bytes := Apart(q, p, sep), seq(|p|, _ => sep) + p;
    a, b := [t], [q, tail];
    assert t == q + tail;
    FlattenOne(t);
    FlattenOne(tail);
    assert b[1..] == [tail];
    FoundAfter(q, p, sep);
    CutAtFirst(pats, t);
    StopsOnFirstPiece(pats, a);
    CutWithin(pats, q, j);
    StopsOnFirstPiece(pats, b);
  }

  /** The kept text is the same for every way of cutting a text into pieces if and only if every pattern contains the
      first one of the list. */
  lemma {:induction false} SplitMattersUnlessFirstInAll(pats: seq<Bytes>)
    requires pats != []
    ensures SplitIndependent(pats) <==> FirstInAll(pats)
  {
    if FirstInAll(pats) {
      forall a, b | |a| > 0 && |b| > 0 && Flatten(a) == Flatten(b)
        ensures Run(pats, [], a).kept == Run(pats, [], b).kept {
        RunsAsFirst(pats, [], a);
        RunsAsFirst(pats, [], b);
        SingleKept(pats[0], a, b);
      }
    } else {
      var j :| 0 <= j < |pats| && !Contains(pats[j], pats[0]);
      var a, b := CutsDiffer(pats, j);
    }
  }

  /** For illustration: the list order decides which match counts. */
  lemma TwoStopsTwoCuts()
    ensures Run([[99], [97, 98]], [], [[97, 98, 99]]).kept != Run([[99], [97, 98]], [], [[97, 98], [99]]).kept
  {
    var pats: seq<Bytes> := [[99], [97, 98]];
    var abc: Bytes, ab: Bytes := [97, 98, 99], [97, 98];
    assert [] + abc == abc && [] + ab == ab;
    assert abc[0..1] == [97] && abc[1..2] == [98] && abc[2..3] == [99];
    assert ab[0..1] == [97] && ab[1..2] == [98] && ab[0..2] == ab;
    assert OccursAt(abc, [99], 2) && !OccursAt(abc, [99], 0) && !OccursAt(abc, [99], 1);
    assert FindFrom(abc, [99], 0) == 2;
    assert FirstPattern(pats, abc, 0) == 0;
    assert Run(pats, [], [abc]).kept == abc[..2];
    assert !OccursAt(ab, [99], 0) && !OccursAt(ab, [99], 1) && OccursAt(ab, [97, 98], 0);
    assert FindFrom(ab, [99], 0) < 0 && FindFrom(ab, [97, 98], 0) == 0;
    assert FirstPattern(pats, ab, 1) == 1;
    assert FirstPattern(pats, ab, 0) == 1;
    assert Run(pats, [], [ab, [99]]).kept == ab[..0];
  }
}
