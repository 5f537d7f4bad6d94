/** The chat worker. */
module Workers {
  // The loop of `Worker::process` that serves chat requests on the shared caches: stop tokens, cancellation, stop
  // sequences, streamed pieces and the text of a block answer.

  import opened Prelude
  import opened Bytes
  import opened Rows
  import opened Chain
  import opened Decode
  import opened Mixed
  import opened StopMatchers
  import opened Tokenizers
  import N = Net
  import Gpu = GpuModel
  import opened Channels
  import opened GpuCache

  /** `cancel(i)` is what iteration i reads from the flag the connection handler sets. */
  datatype Chat = Chat(prompt: seq<int>, maxTokens: int, stops: seq<Bytes>, stream: bool, cancel: int -> bool,
                       sample: Sampler)

  /** The two end tokens of the tokenizer. */
  datatype Ends = Ends(eot: int, eos: int)

  /** The pieces sent on the channel, the finish reason, and the text of a block answer. */
  datatype Reply = Reply(pieces: seq<Bytes>, reason: string, text: Bytes)

  predicate IsEnd(k: Ends, t: int) { t == k.eot || t == k.eos }

  /** Each token decoded on its own, as the streaming branch does. */
  function Decoded(v: Vocab, gen: seq<int>): (r: seq<Bytes>)
    ensures |r| == |gen|
  {
    seq(|gen|, i requires 0 <= i < |gen| => DecodeIds(v, [gen[i]], false))
  }

  // ----- process as a decoding loop -----

  /** The new token is an end token, or completes a stop sequence of a streamed answer. */
  ghost predicate Stops(q: Chat, k: Ends, v: Vocab, toks: seq<int>) {
    && |toks| > |q.prompt|
    && (IsEnd(k, toks[|toks| - 1])
        || (q.stream && q.stops != [] && Hit(q.stops, Flatten(Decoded(v, toks[|q.prompt|..])))))
  }

  ghost function RequestOf(q: Chat, k: Ends, v: Vocab): Request {
    Request(q.prompt, q.maxTokens, toks => Stops(q, k, v, toks), q.cancel, q.sample)
  }

  /** The tokens that count as generated: an end token does not, nor does one sampled when the context is full. */
  function Generated(q: Chat, k: Ends, cap: nat, toks: seq<int>): seq<int>
    requires |q.prompt| <= |toks|
  {
    if |toks| > |q.prompt| && (IsEnd(k, toks[|toks| - 1]) || |toks| > cap) then toks[|q.prompt|..|toks| - 1]
    else toks[|q.prompt|..]
  }

  // ----- what is sent -----

  function NonEmpty(b: Bytes): seq<Bytes> { if b == [] then [] else [b] }

  /** What one piece sends, given the text before it. */
  ghost function Sends(pats: seq<Bytes>, buf: Bytes, piece: Bytes): Bytes {
    if pats == [] then piece
    else if FirstPattern(pats, buf + piece, 0) < |pats| then []
    else piece[..Emit(pats, buf, piece)]
  }

  /** The token events of a streamed answer, without the final flush. */
  ghost function Events(pats: seq<Bytes>, buf: Bytes, pieces: seq<Bytes>): seq<Bytes>
    decreases |pieces|
  {
    if |pieces| == 0 then []
    else if pats == [] then NonEmpty(pieces[0]) + Events(pats, buf, pieces[1..])
    else
      var t := buf + pieces[0];
      NonEmpty(Sends(pats, buf, pieces[0]))
      + if FirstPattern(pats, t, 0) < |pats| then [] else Events(pats, t, pieces[1..])
  }

  /** What the stop matcher still holds at the end. */
  ghost function Kept(pats: seq<Bytes>, pieces: seq<Bytes>): Bytes {
    if pats == [] then [] else Run(pats, [], pieces).kept
  }

  function Singles(raw: Bytes): (r: seq<Bytes>)
    ensures |r| == |raw|
  {
    seq(|raw|, i requires 0 <= i < |raw| => [raw[i]])
  }

  /** The text of a block answer: the bytes that were safe one by one, and the kept text once more if a stop sequence
      was found. */
  ghost function BlockText(pats: seq<Bytes>, raw: Bytes): Bytes {
    Sent(pats, [], Singles(raw))
    + if pats != [] && Run(pats, [], Singles(raw)).stopped then Kept(pats, Singles(raw)) else []
  }

  ghost function Report(q: Chat, k: Ends, v: Vocab, cap: nat, toks: seq<int>): Reply
    requires |q.prompt| <= |toks|
  {
    var gen := Generated(q, k, cap, toks);
    var reason := if |toks| > |q.prompt| && (IsEnd(k, toks[|toks| - 1]) || (|toks| <= cap && Stops(q, k, v, toks)))
                  then "stop" else "length";
    if q.stream then
      Reply(Events(q.stops, [], Decoded(v, gen)) + NonEmpty(Kept(q.stops, Decoded(v, gen))), reason, [])
    else
      Reply([], reason, BlockText(q.stops, DecodeIds(v, gen, true)))
  }

  // ----- appending one piece -----

  lemma HitFromFirst(pats: seq<Bytes>, buf: Bytes, pieces: seq<Bytes>)
    requires |pieces| > 0 && !Hit(pats, buf + Flatten(pieces))
    ensures FirstPattern(pats, buf + pieces[0], 0) == |pats|
    ensures !Hit(pats, (buf + pieces[0]) + Flatten(pieces[1..]))
  {
    hide Hit;
    Assoc(buf, pieces[0], Flatten(pieces[1..]));
    if Hit(pats, buf + pieces[0]) { HitStays(pats, buf + pieces[0], Flatten(pieces[1..])); }
    HitIsFirstPattern(pats, buf + pieces[0]);
  }

  lemma FirstAndRest(pieces: seq<Bytes>, last: Bytes)
    requires |pieces| > 0
    ensures (pieces + [last])[0] == pieces[0] && (pieces + [last])[1..] == pieces[1..] + [last]
  {
  }

  lemma OnlyOne(pats: seq<Bytes>, buf: Bytes, last: Bytes)
    requires pats != []
    ensures Events(pats, buf, [last]) == NonEmpty(Sends(pats, buf, last))
    ensures var t := buf + last;
      Run(pats, buf, [last])
          == if FirstPattern(pats, t, 0) < |pats| then Outcome(true, Cut(pats, t), 1) else Outcome(false, t, 1)
  {
    hide FirstPattern, Emit, Cut;
    assert [last][1..] == [];
    assert Run(pats, buf + last, []) == Outcome(false, buf + last, 0);
  }

  /** A run that has not stopped takes one more piece. */
  lemma {:induction false} EventsSnoc(pats: seq<Bytes>, buf: Bytes, pieces: seq<Bytes>, last: Bytes)
    requires pats != [] && (pieces == [] || !Hit(pats, buf + Flatten(pieces)))
    ensures Events(pats, buf, pieces + [last]) == Events(pats, buf, pieces)
      + NonEmpty(Sends(pats, buf + Flatten(pieces), last))
    decreases |pieces|
  {
    hide Hit, FirstPattern, Emit, Sends, NonEmpty;
    if |pieces| == 0 {
      OnlyOne(pats, buf, last);
      assert buf + Flatten(pieces) == buf && pieces + [last] == [last];
    } else {
      var e, t := NonEmpty(Sends(pats, buf, pieces[0])), buf + pieces[0];
      HitFromFirst(pats, buf, pieces);
      Assoc(buf, pieces[0], Flatten(pieces[1..]));
      FirstAndRest(pieces, last);
      EventsSnoc(pats, t, pieces[1..], last);
      Assoc(e, Events(pats, t, pieces[1..]), NonEmpty(Sends(pats, buf + Flatten(pieces), last)));
    }
  }

  lemma {:induction false} SentSnoc(pats: seq<Bytes>, buf: Bytes, pieces: seq<Bytes>, last: Bytes)
    requires pats != [] && (pieces == [] || !Hit(pats, buf + Flatten(pieces)))
    ensures Sent(pats, buf, pieces + [last]) == Sent(pats, buf, pieces) + Sends(pats, buf + Flatten(pieces), last)
  {
    EventsAreSent(pats, buf, pieces);
    EventsAreSent(pats, buf, pieces + [last]);
    EventsSnoc(pats, buf, pieces, last);
    hide Events, Sent, Sends, Hit;
    FlattenConcat(Events(pats, buf, pieces), NonEmpty(Sends(pats, buf + Flatten(pieces), last)));
    FlattenNonEmpty(Sends(pats, buf + Flatten(pieces), last));
  }

  lemma FlattenNonEmpty(b: Bytes)
    ensures Flatten(NonEmpty(b)) == b
  {
    if b != [] { FlattenOne(b); }
  }

  lemma {:induction false} RunSnoc(pats: seq<Bytes>, buf: Bytes, pieces: seq<Bytes>, last: Bytes)
    requires pats != [] && (pieces == [] || !Hit(pats, buf + Flatten(pieces)))
    ensures var t := (buf + Flatten(pieces)) + last;
      Run(pats, buf, pieces + [last])
      == if FirstPattern(pats, t, 0) < |pats| then Outcome(true, Cut(pats, t), |pieces| + 1)
         else Outcome(false, t, |pieces| + 1)
    decreases |pieces|
  {
    hide Hit, FirstPattern, Cut;
    if |pieces| == 0 {
      OnlyOne(pats, buf, last);
      assert buf + Flatten(pieces) == buf && pieces + [last] == [last];
    } else {
      HitFromFirst(pats, buf, pieces);
      Assoc(buf, pieces[0], Flatten(pieces[1..]));
      FirstAndRest(pieces, last);
      RunSnoc(pats, buf + pieces[0], pieces[1..], last);
    }
  }

  /** Without patterns every piece is sent. */
  lemma {:induction false} EventsSnocFree(buf: Bytes, pieces: seq<Bytes>, last: Bytes)
    ensures Events([], buf, pieces + [last]) == Events([], buf, pieces) + NonEmpty(last)
    decreases |pieces|
  {
    var all := pieces + [last];
    if |pieces| == 0 {
      assert all[0] == last && all[1..] == [];
    } else {
      assert all[0] == pieces[0] && all[1..] == pieces[1..] + [last];
      EventsSnocFree(buf, pieces[1..], last);
    }
  }

  /** What follows a stop changes nothing. */
  lemma {:induction false} AfterStop(pats: seq<Bytes>, buf: Bytes, a: seq<Bytes>, b: seq<Bytes>)
    requires pats != [] && Run(pats, buf, a).stopped
    ensures Run(pats, buf, a + b) == Run(pats, buf, a) && Sent(pats, buf, a + b) == Sent(pats, buf, a)
    decreases |a|
  {
    hide FirstPattern, Emit, Cut;
    assert |a| > 0;
    assert (a + b)[0] == a[0] && (a + b)[1..] == a[1..] + b;
    if FirstPattern(pats, buf + a[0], 0) == |pats| { AfterStop(pats, buf + a[0], a[1..], b); }
  }

  lemma {:induction false} EventsAreSent(pats: seq<Bytes>, buf: Bytes, pieces: seq<Bytes>)
    ensures Flatten(Events(pats, buf, pieces)) == Sent(pats, buf, pieces)
    decreases |pieces|
  {
    hide FirstPattern, Emit;
    if |pieces| > 0 {
      var e := Sends(pats, buf, pieces[0]);
      FlattenNonEmpty(e);
      var t := if pats == [] then buf else buf + pieces[0];
      EventsAreSent(pats, t, pieces[1..]);
      FlattenConcat(NonEmpty(e), Events(pats, t, pieces[1..]));
      FlattenConcat(NonEmpty(e), []);
    }
  }

  lemma DecodedSnoc(v: Vocab, gen: seq<int>, t: int)
    ensures Decoded(v, gen + [t]) == Decoded(v, gen) + [DecodeIds(v, [t], false)]
  {
  }

  lemma FlattenSnoc(pieces: seq<Bytes>, last: Bytes)
    ensures Flatten(pieces + [last]) == Flatten(pieces) + last
  {
    FlattenConcat(pieces, [last]);
    FlattenOne(last);
  }

  lemma {:induction false} FlattenSingles(raw: Bytes)
    ensures Flatten(Singles(raw)) == raw
    decreases |raw|
  {
    if |raw| > 0 {
      assert Singles(raw)[1..] == Singles(raw[1..]);
      FlattenSingles(raw[1..]);
    }
  }

  lemma SinglesSnoc(raw: Bytes, j: nat)
    requires j < |raw|
    ensures Singles(raw[..j + 1]) == Singles(raw[..j]) + [[raw[j]]] && raw[..j + 1] == raw[..j] + [raw[j]]
    ensures Singles(raw) == Singles(raw[..j + 1]) + Singles(raw[j + 1..])
  {
  }

  // ----- the loops -----

  /** The matcher between two tokens of a streamed answer: all text so far, no stop sequence in it. */
  ghost predicate Streaming(pats: seq<Bytes>, buf: Bytes, events: seq<Bytes>, pieces: seq<Bytes>) {
    && events == Events(pats, [], pieces)
    && (if pats == [] then buf == [] else buf == Flatten(pieces) && (pieces == [] || !Hit(pats, buf)))
  }

  lemma {:induction false} StreamingKept(pats: seq<Bytes>, buf: Bytes, events: seq<Bytes>, pieces: seq<Bytes>)
    requires Streaming(pats, buf, events, pieces)
    ensures buf == Kept(pats, pieces)
  {
    if pats != [] && |pieces| > 0 {
      var most, last := pieces[..|pieces| - 1], pieces[|pieces| - 1];
      assert pieces == most + [last];
      FlattenSnoc(most, last);
      assert [] + Flatten(most) == Flatten(most);
      if Hit(pats, Flatten(most)) { HitStays(pats, Flatten(most), last); }
      RunSnoc(pats, [], most, last);
      HitIsFirstPattern(pats, buf);
    }
  }

  /** One streamed token: fed, and its safe bytes sent. */
  method StreamOne(sm: StopMatcher, piece: Bytes, events: seq<Bytes>, ghost pieces: seq<Bytes>)
    returns (stop: bool, out: seq<Bytes>)
    requires Streaming(sm.pats, sm.buf, events, pieces)
    modifies sm
    ensures stop <==> sm.pats != [] && Hit(sm.pats, Flatten(pieces + [piece]))
    ensures stop ==> sm.buf == Kept(sm.pats, pieces + [piece]) && out == Events(sm.pats, [], pieces + [piece])
    ensures !stop ==> Streaming(sm.pats, sm.buf, out, pieces + [piece])
  {
    ghost var pats, text := sm.pats, Flatten(pieces);
    assert [] + text == text;
    FlattenSnoc(pieces, piece);
    HitIsFirstPattern(pats, text + piece);
    if pats == [] {
      EventsSnocFree([], pieces, piece);
    } else {
      EventsSnoc(pats, [], pieces, piece);
      RunSnoc(pats, [], pieces, piece);
    }
    hide Hit, FirstPattern, Emit, Cut, Events, Run;
    var safe := sm.Feed(piece);
    if safe < 0 {
      return true, events;
    }
    stop, out := false, if safe > 0 then events + [piece[..safe]] else events;
    assert Sends(pats, text, piece) == piece[..safe];
  }

  /** The bytes of a block answer, one by one. */
  method BlockLoop(sm: StopMatcher, raw: Bytes) returns (text: Bytes)
    requires sm.buf == []
    modifies sm
    ensures text == BlockText(sm.pats, raw)
  {
    ghost var pats := sm.pats;
    text := [];
    FlattenSingles(raw);
    SentWithoutPatterns([], Singles(raw));
    for j := 0 to |raw|
      invariant if pats == [] then sm.buf == [] && text == raw[..j]
                else sm.buf == raw[..j] && (j == 0 || !Hit(pats, raw[..j])) && text == Sent(pats, [], Singles(raw[..j]))
      invariant pats != [] ==> !Run(pats, [], Singles(raw[..j])).stopped
    {
      OneByte(pats, raw, j);
      hide Hit, FirstPattern, Emit, Cut, Run, Sent;
      var r := sm.Feed([raw[j]]);
      if r < 0 {
        var tail := sm.FlushBuffer();
        text := text + tail;
        return;
      }
      if r > 0 {
        assert [raw[j]][..r] == [raw[j]];
        text := text + [raw[j]];
      }
    }
    assert raw[..|raw|] == raw;
  }

  /** Feeding byte j when no stop sequence has been found before. */
  lemma OneByte(pats: seq<Bytes>, raw: Bytes, j: nat)
    requires pats != [] && j < |raw| ==> j == 0 || !Hit(pats, raw[..j])
    requires j < |raw|
    ensures raw[..j] + [raw[j]] == raw[..j + 1]
    ensures pats != []
      ==> Sent(pats, [], Singles(raw[..j + 1])) == Sent(pats, [], Singles(raw[..j])) + Sends(pats, raw[..j], [raw[j]])
    ensures pats != [] && !Hit(pats, raw[..j + 1]) ==> !Run(pats, [], Singles(raw[..j + 1])).stopped
    ensures pats != [] && Hit(pats, raw[..j + 1]) ==>
      FirstPattern(pats, raw[..j + 1], 0) < |pats|
      && BlockText(pats, raw) == Sent(pats, [], Singles(raw[..j])) + Cut(pats, raw[..j + 1])
  {
    hide Hit, FirstPattern, Emit, Cut, Run, Sent, Sends, BlockText, Singles;
    SinglesSnoc(raw, j);
    if pats != [] {
      OneMore(pats, raw, j);
      if Hit(pats, raw[..j + 1]) { BlockHit(pats, raw, j); }
    }
  }

  lemma OneMore(pats: seq<Bytes>, raw: Bytes, j: nat)
    requires pats != [] && j < |raw| && (j == 0 || !Hit(pats, raw[..j]))
    ensures var t := raw[..j + 1];
      && Sent(pats, [], Singles(t)) == Sent(pats, [], Singles(raw[..j])) + Sends(pats, raw[..j], [raw[j]])
      && Run(pats, [], Singles(t)) == (if FirstPattern(pats, t, 0) < |pats| then Outcome(true, Cut(pats, t), j + 1)
                                       else Outcome(false, t, j + 1))
      && (Hit(pats, t) <==> FirstPattern(pats, t, 0) < |pats|)
  {
    hide Hit, FirstPattern, Emit, Cut, Run, Sent, Sends;
    SinglesSnoc(raw, j);
    FlattenSingles(raw[..j]);
    assert [] + raw[..j] == raw[..j];
    SentSnoc(pats, [], Singles(raw[..j]), [raw[j]]);
    RunSnoc(pats, [], Singles(raw[..j]), [raw[j]]);
    HitIsFirstPattern(pats, raw[..j + 1]);
  }

  lemma BlockHit(pats: seq<Bytes>, raw: Bytes, j: nat)
    requires pats != [] && j < |raw| && (j == 0 || !Hit(pats, raw[..j])) && Hit(pats, raw[..j + 1])
    ensures FirstPattern(pats, raw[..j + 1], 0) < |pats|
    ensures BlockText(pats, raw) == Sent(pats, [], Singles(raw[..j])) + Cut(pats, raw[..j + 1])
  {
    hide Hit, FirstPattern, Emit, Cut, Run, Sent, Sends, Singles, BlockText;
    var head, more := Singles(raw[..j + 1]), Singles(raw[j + 1..]);
    OneMore(pats, raw, j);
    SinglesSnoc(raw, j);
    AfterStop(pats, [], head, more);
    SendsAtHit(pats, raw[..j], [raw[j]]);
    BlockTextIs(pats, raw);
    assert Sent(pats, [], Singles(raw)) == Sent(pats, [], head) == Sent(pats, [], Singles(raw[..j]));
  }

  lemma BlockTextIs(pats: seq<Bytes>, raw: Bytes)
    requires pats != [] && Run(pats, [], Singles(raw)).stopped
    ensures BlockText(pats, raw) == Sent(pats, [], Singles(raw)) + Run(pats, [], Singles(raw)).kept
  {
    hide Run, Sent, Singles;
  }

  lemma SendsAtHit(pats: seq<Bytes>, buf: Bytes, piece: Bytes)
    requires pats != [] && FirstPattern(pats, buf + piece, 0) < |pats|
    ensures Sends(pats, buf, piece) == []
  {
  }

  /** What the matcher holds and what has been sent after these tokens, none of which stopped the loop. */
  ghost predicate Between(q: Chat, v: Vocab, gen: seq<int>, buf: Bytes, events: seq<Bytes>) {
    if q.stream then Streaming(q.stops, buf, events, Decoded(v, gen)) else buf == [] && events == []
  }

  /** Between two iterations: everything sampled so far is generated text without a stop. */
  ghost predicate Running(q: Chat, k: Ends, v: Vocab, cap: nat, toks: seq<int>, gen: seq<int>, buf: Bytes,
                          events: seq<Bytes>) {
    && toks == q.prompt + gen && |toks| <= cap
    && (gen != [] ==> !Stops(q, k, v, toks))
    && Between(q, v, gen, buf, events)
  }

  /** The loop ended with these tokens, and these are the values the rest of `process` works on. */
  ghost predicate Ended(q: Chat, k: Ends, v: Vocab, cap: nat, toks: seq<int>, gen: seq<int>, reason: string, buf: Bytes,
                        events: seq<Bytes>)
  {
    && |q.prompt| <= |toks| && gen == Generated(q, k, cap, toks) && reason == Report(q, k, v, cap, toks).reason
    && (if q.stream then events == Events(q.stops, [], Decoded(v, gen)) && buf == Kept(q.stops, Decoded(v, gen))
        else buf == [] && events == [])
  }

  lemma OneMoreToken(q: Chat, k: Ends, v: Vocab, cap: nat, gen: seq<int>, t: int)
    ensures var toks := q.prompt + gen + [t];
      && toks[|q.prompt|..] == gen + [t] && toks[|toks| - 1] == t && toks[|q.prompt|..|toks| - 1] == gen
      && toks == q.prompt + (gen + [t])
      && Decoded(v, gen + [t]) == Decoded(v, gen) + [DecodeIds(v, [t], false)]
  {
    DecodedSnoc(v, gen, t);
  }

  /** No further token: the limit or the cancel flag. */
  lemma EndsByCount(q: Chat, k: Ends, v: Vocab, cap: nat, toks: seq<int>, gen: seq<int>, buf: Bytes, events: seq<Bytes>)
    requires Running(q, k, v, cap, toks, gen, buf, events)
    ensures Ended(q, k, v, cap, toks, gen, "length", buf, events)
  {
    hide Events, Kept, Decoded, BlockText, Streaming;
    if q.stream { StreamingParts(q.stops, buf, events, Decoded(v, gen)); }
    assert toks[|q.prompt|..] == gen;
    if gen != [] { assert toks[|toks| - 1] == gen[|gen| - 1]; }
  }

  lemma StreamingParts(pats: seq<Bytes>, buf: Bytes, events: seq<Bytes>, pieces: seq<Bytes>)
    requires Streaming(pats, buf, events, pieces)
    ensures buf == Kept(pats, pieces) && events == Events(pats, [], pieces)
  {
    StreamingKept(pats, buf, events, pieces);
  }

  /** An end token, or no room left: the new token is not generated text. */
  lemma EndsByToken(q: Chat, k: Ends, v: Vocab, cap: nat, toks: seq<int>, gen: seq<int>, buf: Bytes, events: seq<Bytes>,
                    t: int)
    requires Running(q, k, v, cap, toks, gen, buf, events) && (IsEnd(k, t) || |toks| >= cap)
    ensures Ended(q, k, v, cap, toks + [t], gen, if IsEnd(k, t) then "stop" else "length", buf, events)
  {
    hide Events, Kept, Decoded, BlockText, Streaming;
    if q.stream { StreamingParts(q.stops, buf, events, Decoded(v, gen)); }
    OneMoreToken(q, k, v, cap, gen, t);
  }

  /** A stop sequence: the token that completes it is generated text. */
  lemma EndsByHit(q: Chat, k: Ends, v: Vocab, cap: nat, toks: seq<int>, gen: seq<int>, buf: Bytes, events: seq<Bytes>,
                  t: int)
    requires toks == q.prompt + gen && |toks| < cap && !IsEnd(k, t)
    requires q.stream && q.stops != [] && Hit(q.stops, Flatten(Decoded(v, gen + [t])))
    requires events == Events(q.stops, [], Decoded(v, gen + [t])) && buf == Kept(q.stops, Decoded(v, gen + [t]))
    ensures Ended(q, k, v, cap, toks + [t], gen + [t], "stop", buf, events)
  {
    hide Events, Kept, Decoded, BlockText, Hit;
    OneMoreToken(q, k, v, cap, gen, t);
  }

  lemma RunsOn(q: Chat, k: Ends, v: Vocab, cap: nat, toks: seq<int>, gen: seq<int>, buf: Bytes, events: seq<Bytes>,
               t: int)
    requires toks == q.prompt + gen && |toks| < cap && !IsEnd(k, t)
    requires Between(q, v, gen + [t], buf, events)
    ensures Running(q, k, v, cap, toks + [t], gen + [t], buf, events)
  {
    hide Events, Decoded, Hit;
    OneMoreToken(q, k, v, cap, gen, t);
  }

  class Worker {
    const gpu: Gpu.GpuModel
    const tok: Tokenizer
    const ends: Ends

    constructor (gpu: Gpu.GpuModel, tok: Tokenizer, ends: Ends)
      ensures this.gpu == gpu && this.tok == tok && this.ends == ends
    {
      this.gpu, this.tok, this.ends := gpu, tok, ends;
    }

    /** What is left of the decoding loop from iteration i, started from the present caches. */
    ghost function Rest(r: Request, toks: seq<int>, logits: Row, i: nat): (seq<int>, Split)
      requires gpu.Valid()
      reads gpu.kc, gpu.vc, gpu.cpu.kv.Buffers()
    {
      GpuLoop(N.Of(gpu.cpu.net), gpu.nGpu, r, toks, logits, gpu.Caches(), |toks|, GPU_MAX_SEQ, gpu.cpu.kv.capacity, i)
    }

    lemma RestEnds(r: Request, toks: seq<int>, logits: Row, i: nat)
      requires gpu.Valid()
      ensures !Goes(r, i) ==> Rest(r, toks, logits, i) == (toks, gpu.Caches())
      ensures var t := r.sample(logits, toks, i);
        Goes(r, i) && (r.ends(toks + [t]) || |toks| >= gpu.cpu.kv.capacity) ==>
        Rest(r, toks, logits, i) == (toks + [t], gpu.Caches())
    {
      hide N.Of, Dispatch;
    }

    /** `forward` on a token that does not end the loop. */
    method Advance(ghost r: Request, toks: seq<int>, logits: Row, t: nat, ghost i: nat) returns (y: Row)
      requires gpu.Valid() && t < |gpu.cpu.net.embed| && |toks| == gpu.cpu.kv.seqLen < gpu.cpu.kv.capacity
      requires Goes(r, i) && t == r.sample(logits, toks, i) && !r.ends(toks + [t])
      modifies gpu.dx, gpu.dnrm, gpu.dq, gpu.dk, gpu.dv, gpu.dgt, gpu.dup, gpu.kc, gpu.vc, gpu.cpu.kv`seqLen
      modifies gpu.cpu.kv.Buffers()
      ensures gpu.cpu.kv.seqLen == |toks| + 1
      ensures Rest(r, toks + [t], y, i + 1) == old(Rest(r, toks, logits, i))
    {
      hide N.Of, Dispatch, GpuLoop;
      GpuLoopStep(N.Of(gpu.cpu.net), gpu.nGpu, r, toks, logits, gpu.Caches(), |toks|, GPU_MAX_SEQ, gpu.cpu.kv.capacity,
                  i);
      y := gpu.Feed(t);
    }

    /** The state of the loop between two iterations. */
    ghost predicate InLoop(q: Chat, toks: seq<int>, gen: seq<int>, buf: Bytes, events: seq<Bytes>)
      reads gpu.cpu.kv
    {
      gpu.cpu.kv.seqLen == |toks| && Running(q, ends, tok.V(), gpu.cpu.kv.capacity, toks, gen, buf, events)
    }

    /** One iteration that samples. */
    method Round(q: Chat, sm: StopMatcher, i: nat, was: seq<int>, text: seq<int>, sent: seq<Bytes>, last: Row)
      returns (done: bool, toks: seq<int>, gen: seq<int>, reason: string, events: seq<Bytes>, logits: Row)
      requires gpu.Valid() && Gpu.InVocabulary(q.sample, |gpu.cpu.net.embed|)
      requires i < q.maxTokens && !q.cancel(i) && sm.pats == q.stops && InLoop(q, was, text, sm.buf, sent)
      modifies gpu.dx, gpu.dnrm, gpu.dq, gpu.dk, gpu.dv, gpu.dgt, gpu.dup, gpu.kc, gpu.vc, gpu.cpu.kv`seqLen
      modifies gpu.cpu.kv.Buffers(), sm
      ensures done ==> (toks, gpu.Caches()) == old(Rest(RequestOf(q, ends, tok.V()), was, last, i))
      ensures done ==> Ended(q, ends, tok.V(), gpu.cpu.kv.capacity, toks, gen, reason, sm.buf, events)
      ensures !done ==> InLoop(q, toks, gen, sm.buf, events)
      ensures !done
        ==> Rest(RequestOf(q, ends, tok.V()), toks, logits, i + 1)
            == old(Rest(RequestOf(q, ends, tok.V()), was, last, i))
    {
      hide Gpu.GpuModel.Valid, Rest, Between, Ended, Stops, Events, Kept, Hit, Decoded;
      ghost var r, v, cap := RequestOf(q, ends, tok.V()), tok.V(), gpu.cpu.kv.capacity;
      RestEnds(r, was, last, i);
      var t := q.sample(last, was, i);
      toks, gen, reason, events, logits := was + [t], text, "length", sent, last;
      if IsEnd(ends, t) || gpu.cpu.kv.seqLen >= gpu.cpu.kv.capacity {
        EndsByToken(q, ends, v, cap, was, text, sm.buf, sent, t);
        StopsByToken(q, ends, v, was, text, t);
        if IsEnd(ends, t) { reason := "stop"; }
        return true, toks, gen, reason, events, logits;
      }
      gen := text + [t];
      done, events := Emit(q, sm, text, t, sent);
      if done {
        EndsByHit(q, ends, v, cap, was, text, sm.buf, events, t);
        StopsByHit(q, ends, v, was, text, t);
        reason := "stop";
      } else {
        RunsOn(q, ends, v, cap, was, text, sm.buf, events, t);
        GoesOn(q, ends, v, cap, was, text, sm.buf, events, t);
        logits := Advance(r, was, last, t, i);
      }
    }

    /** The sampling loop of `process`. */
    method Loop(q: Chat, first: Row, sm: StopMatcher)
      returns (toks: seq<int>, gen: seq<int>, reason: string, events: seq<Bytes>)
      requires gpu.Valid() && Gpu.InVocabulary(q.sample, |gpu.cpu.net.embed|)
      requires gpu.cpu.kv.seqLen == |q.prompt| <= gpu.cpu.kv.capacity && sm.pats == q.stops && sm.buf == []
      modifies gpu.dx, gpu.dnrm, gpu.dq, gpu.dk, gpu.dv, gpu.dgt, gpu.dup, gpu.kc, gpu.vc, gpu.cpu.kv`seqLen
      modifies gpu.cpu.kv.Buffers(), sm
      ensures (toks, gpu.Caches()) == old(Rest(RequestOf(q, ends, tok.V()), q.prompt, first, 0))
      ensures Ended(q, ends, tok.V(), gpu.cpu.kv.capacity, toks, gen, reason, sm.buf, events)
    {
      hide Gpu.GpuModel.Valid, Rest, Running, Ended;
      ghost var r := RequestOf(q, ends, tok.V());
      toks, gen, reason, events := q.prompt, [], "length", [];
      var logits := first;
      var i := 0;
      StartsRunning(q, ends, tok.V(), gpu.cpu.kv.capacity);
      while i < q.maxTokens && !q.cancel(i)
        invariant sm.pats == q.stops && reason == "length" && InLoop(q, toks, gen, sm.buf, events)
        invariant Rest(r, toks, logits, i) == old(Rest(r, q.prompt, first, 0))
      {
        var done;
        done, toks, gen, reason, events, logits := Round(q, sm, i, toks, gen, events, logits);
        if done { return; }
        reason := "length";
        i := i + 1;
      }
      RestEnds(r, toks, logits, i);
      EndsByCount(q, ends, tok.V(), gpu.cpu.kv.capacity, toks, gen, sm.buf, events);
    }

    /** The streaming branch of one iteration; a block answer sends nothing here. */
    method Emit(q: Chat, sm: StopMatcher, gen: seq<int>, t: int, events: seq<Bytes>)
      returns (stop: bool, out: seq<Bytes>)
      requires sm.pats == q.stops
      requires Between(q, tok.V(), gen, sm.buf, events)
      modifies sm
      ensures stop <==> q.stream && q.stops != [] && Hit(q.stops, Flatten(Decoded(tok.V(), gen + [t])))
      ensures stop
        ==> out == Events(q.stops, [], Decoded(tok.V(), gen + [t]))
            && sm.buf == Kept(q.stops, Decoded(tok.V(), gen + [t]))
      ensures !stop ==> Between(q, tok.V(), gen + [t], sm.buf, out)
    {
      hide Streaming, Events, Kept, Hit, Decoded;
      DecodedSnoc(tok.V(), gen, t);
      stop, out := false, events;
      if q.stream {
        var piece := tok.Decode([t], false);
        stop, out := StreamOne(sm, piece, events, Decoded(tok.V(), gen));
      }
    }

    /** What decoding the request from the present host cache gives. */
    ghost function Decoding(q: Chat): (seq<int>, Split)
      requires gpu.Valid() && 1 <= |q.prompt| <= gpu.cpu.kv.capacity
      reads gpu.cpu.kv.Buffers()
    {
      GpuGenerate(N.Of(gpu.cpu.net), gpu.nGpu, RequestOf(q, ends, tok.V()), Split(gpu.Zeroed(), gpu.cpu.kv.Value()),
                  GPU_MAX_SEQ, gpu.cpu.kv.capacity)
    }

    method Start(q: Chat) returns (logits: Row)
      requires gpu.Valid() && 1 <= |q.prompt| <= gpu.cpu.kv.capacity
      modifies gpu.kc, gpu.vc, gpu.cpu.kv`seqLen, gpu.cpu.kv.Buffers()
      ensures gpu.cpu.kv.seqLen == |q.prompt|
      ensures Rest(RequestOf(q, ends, tok.V()), q.prompt, logits, 0) == old(Decoding(q))
    {
      hide N.Of, GpuLoop, Prefill, SyncIfFits;
      logits := gpu.Begin(q.prompt);
    }

    /** `process` with a prompt. */
    method Answer(q: Chat) returns (reply: Reply, ghost toks: seq<int>)
      requires gpu.Valid() && Gpu.InVocabulary(q.sample, |gpu.cpu.net.embed|) && 1 <= |q.prompt| <= gpu.cpu.kv.capacity
      modifies gpu.dx, gpu.dnrm, gpu.dq, gpu.dk, gpu.dv, gpu.dgt, gpu.dup, gpu.kc, gpu.vc, gpu.cpu.kv`seqLen
      modifies gpu.cpu.kv.Buffers()
      ensures (toks, gpu.Caches()) == old(Decoding(q))
      ensures |q.prompt| <= |toks| && reply == Report(q, ends, tok.V(), gpu.cpu.kv.capacity, toks)
    {
      hide Decoding, Rest, Ended, Report, Gpu.GpuModel.Valid;
      var sm := new StopMatcher(q.stops);
      var logits := Start(q);
      var all, gen, reason, events := Loop(q, logits, sm);
      toks := all;
      EndedLength(q, ends, tok.V(), gpu.cpu.kv.capacity, toks, gen, reason, sm.buf, events);
      reply := Finish(q, sm, toks, gen, reason, events);
    }

    /** `process`: the reply is that of the decoding loop's tokens, and the caches are those it leaves. */
    method Process(q: Chat) returns (reply: Reply)
      requires gpu.Valid() && Gpu.InVocabulary(q.sample, |gpu.cpu.net.embed|) && |q.prompt| <= gpu.cpu.kv.capacity
      modifies gpu.dx, gpu.dnrm, gpu.dq, gpu.dk, gpu.dv, gpu.dgt, gpu.dup, gpu.kc, gpu.vc, gpu.cpu.kv`seqLen
      modifies gpu.cpu.kv.Buffers()
      ensures (reply, gpu.cpu.kv.Value())
           == ChatOnce(N.Of(gpu.cpu.net), gpu.nGpu, ends, tok.V(), q, gpu.Zeroed(), old(gpu.cpu.kv.Value()),
                       GPU_MAX_SEQ, gpu.cpu.kv.capacity)
    {
      hide N.Of, GpuGenerate, Report;
      if q.prompt == [] {
        return Reply([], "stop", []);
      }
      ghost var toks;
      reply, toks := Answer(q);
    }

    ghost predicate Admissible(q: Chat) {
      Gpu.InVocabulary(q.sample, |gpu.cpu.net.embed|) && |q.prompt| <= gpu.cpu.kv.capacity
    }

    /** Serving the first j requests from a host cache. */
    ghost function Served(qs: seq<Chat>, j: nat, host: Cache): (seq<Reply>, Cache)
      requires gpu.Valid() && Sized(N.Of(gpu.cpu.net), host, gpu.cpu.kv.capacity)
      requires j <= |qs| && forall i :: 0 <= i < |qs| ==> Admissible(qs[i])
    {
      assert forall i :: 0 <= i < j ==> qs[..j][i] == qs[i] && Admissible(qs[i]);
      ServeChats(N.Of(gpu.cpu.net), gpu.nGpu, ends, tok.V(), qs[..j], gpu.Zeroed(), host, GPU_MAX_SEQ,
                 gpu.cpu.kv.capacity)
    }

    lemma ServedNext(qs: seq<Chat>, j: nat, host: Cache)
      requires gpu.Valid() && Sized(N.Of(gpu.cpu.net), host, gpu.cpu.kv.capacity)
      requires j < |qs| && forall i :: 0 <= i < |qs| ==> Admissible(qs[i])
      ensures Sized(N.Of(gpu.cpu.net), Served(qs, j, host).1, gpu.cpu.kv.capacity)
      ensures var o := ChatOnce(N.Of(gpu.cpu.net), gpu.nGpu, ends, tok.V(), qs[j], gpu.Zeroed(), Served(qs, j, host).1,
                                GPU_MAX_SEQ, gpu.cpu.kv.capacity);
        Served(qs, j + 1, host) == (Served(qs, j, host).0 + [o.0], o.1)
    {
      hide ChatOnce, Gpu.InVocabulary;
      assert qs[..j + 1][..j] == qs[..j] && qs[..j + 1][j] == qs[j];
    }

    /** `run` on a queue that is shut down: every request still queued is served, in order, on the shared caches. */
    method Run(queue: RequestQueue<Chat>) returns (replies: seq<Reply>)
      requires gpu.Valid() && queue.stopped && forall i :: 0 <= i < |queue.q| ==> Admissible(queue.q[i])
      modifies gpu.dx, gpu.dnrm, gpu.dq, gpu.dk, gpu.dv, gpu.dgt, gpu.dup, gpu.kc, gpu.vc, gpu.cpu.kv`seqLen
      modifies gpu.cpu.kv.Buffers(), queue`q
      ensures queue.q == []
      ensures (replies, gpu.cpu.kv.Value()) == Served(old(queue.q), |old(queue.q)|, old(gpu.cpu.kv.Value()))
    {
      hide Served, ChatOnce, Gpu.InVocabulary;
      ghost var qs, host, done := queue.q, gpu.cpu.kv.Value(), 0;
      replies := [];
      ServedNone(qs, host);
      while true
        invariant done + |queue.q| == |qs| && queue.q == qs[done..]
        invariant (replies, gpu.cpu.kv.Value()) == Served(qs, done, host)
        decreases |queue.q|
      {
        var q := queue.WaitPop();
        if q == None { return; }
        ServedNext(qs, done, host);
        var reply := Process(q.value);
        replies, done := replies + [reply], done + 1;
      }
    }

    lemma ServedNone(qs: seq<Chat>, host: Cache)
      requires gpu.Valid() && Sized(N.Of(gpu.cpu.net), host, gpu.cpu.kv.capacity)
      requires forall i :: 0 <= i < |qs| ==> Admissible(qs[i])
      ensures Served(qs, 0, host) == ([], host)
    {
    }

    /** The end of `process`: the flush of a streamed answer, or the text of a block answer. */
    method Finish(q: Chat, sm: StopMatcher, ghost toks: seq<int>, gen: seq<int>, reason: string, events: seq<Bytes>)
      returns (reply: Reply)
      requires Ended(q, ends, tok.V(), gpu.cpu.kv.capacity, toks, gen, reason, sm.buf, events) && sm.pats == q.stops
      modifies sm
      ensures |q.prompt| <= |toks| && reply == Report(q, ends, tok.V(), gpu.cpu.kv.capacity, toks)
    {
      hide Events, Kept, BlockText, Decoded, Stops, Generated;
      if q.stream {
        var tail := sm.FlushBuffer();
        reply := Reply(events + NonEmpty(tail), reason, []);
      } else {
        var raw := tok.Decode(gen, true);
        var text := BlockLoop(sm, raw);
        reply := Reply([], reason, text);
      }
    }
  }

  lemma StartsRunning(q: Chat, k: Ends, v: Vocab, cap: nat)
    requires |q.prompt| <= cap
    ensures Running(q, k, v, cap, q.prompt, [], [], [])
  {
    assert q.prompt + [] == q.prompt;
    assert Decoded(v, []) == [];
  }

  lemma StopsByToken(q: Chat, k: Ends, v: Vocab, toks: seq<int>, gen: seq<int>, t: int)
    requires toks == q.prompt + gen
    ensures IsEnd(k, t) ==> Stops(q, k, v, toks + [t])
  {
  }

  lemma StopsByHit(q: Chat, k: Ends, v: Vocab, toks: seq<int>, gen: seq<int>, t: int)
    requires toks == q.prompt + gen && q.stream && q.stops != [] && Hit(q.stops, Flatten(Decoded(v, gen + [t])))
    ensures Stops(q, k, v, toks + [t])
  {
    hide Hit, Decoded;
    assert (toks + [t])[|q.prompt|..] == gen + [t];
  }

  lemma EndedLength(q: Chat, k: Ends, v: Vocab, cap: nat, toks: seq<int>, gen: seq<int>, reason: string, buf: Bytes,
                    events: seq<Bytes>)
    requires Ended(q, k, v, cap, toks, gen, reason, buf, events)
    ensures |q.prompt| <= |toks|
  {
  }

  lemma GoesOn(q: Chat, k: Ends, v: Vocab, cap: nat, toks: seq<int>, gen: seq<int>, buf: Bytes, events: seq<Bytes>,
               t: int)
    requires toks == q.prompt + gen && Running(q, k, v, cap, toks + [t], gen + [t], buf, events)
    ensures !Stops(q, k, v, toks + [t])
  {
  }

  // ----- replies without caches -----

  /** One request on the present host cache; the device cache is cleared first. */
  ghost function ChatOnce(c: Decoder, n: nat, k: Ends, v: Vocab, q: Chat, zero: Cache, host: Cache, gpuCap: nat,
                          cap: nat)
    : (o: (Reply, Cache))
    requires n <= c.nLayers && Sized(c, zero, gpuCap) && Sized(c, host, cap) && |q.prompt| <= cap
    ensures Sized(c, o.1, cap)
  {
    if q.prompt == [] then (Reply([], "stop", []), host)
    else
      var (toks, after) := GpuGenerate(c, n, RequestOf(q, k, v), Split(zero, host), gpuCap, cap);
      (Report(q, k, v, cap, toks), after.cpu)
  }

  /** Requests served one after the other. */
  ghost function ServeChats(c: Decoder, n: nat, k: Ends, v: Vocab, qs: seq<Chat>, zero: Cache, host: Cache, gpuCap: nat,
                            cap: nat): (o: (seq<Reply>, Cache))
    requires n <= c.nLayers && Sized(c, zero, gpuCap) && Sized(c, host, cap)
    requires forall i :: 0 <= i < |qs| ==> |qs[i].prompt| <= cap
    ensures |o.0| == |qs| && Sized(c, o.1, cap)
  {
    if |qs| == 0 then ([], host)
    else
      var (replies, mid) := ServeChats(c, n, k, v, qs[..|qs| - 1], zero, host, gpuCap, cap);
      var (reply, after) := ChatOnce(c, n, k, v, qs[|qs| - 1], zero, mid, gpuCap, cap);
      (replies + [reply], after)
  }

  /** The reply computed from the request alone. With layers on the device every token attends to itself, unless the
      prompt fills the device cache; otherwise only prompt tokens do. */
  ghost function FreeReply(c: Decoder, n: nat, k: Ends, v: Vocab, q: Chat, gpuCap: nat, cap: nat): Reply {
    if q.prompt == [] then Reply([], "stop", [])
    else
      var p := if n > 0 && |q.prompt| < gpuCap then cap else |q.prompt|;
      Report(q, k, v, cap, MixedLoop(c, RequestOf(q, k, v), q.prompt, p, cap, 0))
  }

  /** No position of the run falls between the device cache and the host cache. */
  ghost predicate Safe(c: Decoder, n: nat, k: Ends, v: Vocab, q: Chat, gpuCap: nat, cap: nat) {
    q.prompt == [] || n == 0 || |q.prompt| >= gpuCap || StaysBelow(c, RequestOf(q, k, v), q.prompt, gpuCap, cap, 0)
  }

  lemma ChatIsFree(c: Decoder, n: nat, k: Ends, v: Vocab, q: Chat, zero: Cache, host: Cache, gpuCap: nat, cap: nat)
    requires n <= c.nLayers && Sized(c, zero, gpuCap) && Sized(c, host, cap) && |q.prompt| <= cap
    requires Safe(c, n, k, v, q, gpuCap, cap)
    ensures ChatOnce(c, n, k, v, q, zero, host, gpuCap, cap).0 == FreeReply(c, n, k, v, q, gpuCap, cap)
  {
    hide GpuGenerate, MixedLoop, IdealLoop, StaysBelow, Report;
    if q.prompt != [] {
      var r, s := RequestOf(q, k, v), Split(zero, host);
      if n == 0 || |q.prompt| >= gpuCap {
        GpuGenerateIsMixed(c, n, r, s, gpuCap, cap);
      } else {
        GpuGenerateIsIdeal(c, n, r, s, gpuCap, cap);
        MixedLoopIsIdeal(c, r, q.prompt, cap, cap, 0);
      }
    }
  }

  /** In any series of chat requests on shared caches, a request that stays within the device cache, or never uses it,
      is answered as it would be alone: tokens, finish reason, streamed pieces and text. */
  lemma {:induction false} ChatsDoNotLeak(c: Decoder, n: nat, k: Ends, v: Vocab, qs: seq<Chat>, zero: Cache,
                                          host: Cache, gpuCap: nat, cap: nat, i: nat)
    requires n <= c.nLayers && Sized(c, zero, gpuCap) && Sized(c, host, cap) && i < |qs|
    requires forall j :: 0 <= j < |qs| ==> |qs[j].prompt| <= cap
    requires Safe(c, n, k, v, qs[i], gpuCap, cap)
    ensures ServeChats(c, n, k, v, qs, zero, host, gpuCap, cap).0[i] == FreeReply(c, n, k, v, qs[i], gpuCap, cap)
    decreases |qs|
  {
    hide ChatOnce, FreeReply, Safe;
    var most := qs[..|qs| - 1];
    if i == |qs| - 1 {
      ChatIsFree(c, n, k, v, qs[i], zero, ServeChats(c, n, k, v, most, zero, host, gpuCap, cap).1, gpuCap, cap);
    } else {
      ChatsDoNotLeak(c, n, k, v, most, zero, host, gpuCap, cap, i);
    }
  }

  // ----- what the client reads -----

  lemma {:induction false} DecodedText(v: Vocab, gen: seq<int>)
    ensures Flatten(Decoded(v, gen)) == DecodeIds(v, gen, false)
    decreases |gen|
  {
    hide DecodeId;
    if |gen| > 0 {
      DecodeOne(v, gen[0], false);
      assert Decoded(v, gen)[1..] == Decoded(v, gen[1..]);
      DecodedText(v, gen[1..]);
    }
  }

  /** The text of a streamed answer: everything decoded, up to the stop if there was one. */
  ghost function AnswerText(pats: seq<Bytes>, pieces: seq<Bytes>): Bytes {
    if pats == [] then Flatten(pieces) else Run(pats, [], pieces).kept
  }

  /** The pieces a client receives make up the answer's text exactly when there are no stop sequences or no piece had
      any byte that was safe to send before the flush. */
  lemma StreamedText(q: Chat, k: Ends, v: Vocab, cap: nat, toks: seq<int>)
    requires q.stream && |q.prompt| <= |toks|
    ensures var pieces := Decoded(v, Generated(q, k, cap, toks));
      Flatten(Report(q, k, v, cap, toks).pieces) == AnswerText(q.stops, pieces)
      <==> q.stops == [] || NothingSafe(q.stops, [], pieces)
  {
    hide Run, NothingSafe, Sent, Events, Decoded, Stops;
    var pieces := Decoded(v, Generated(q, k, cap, toks));
    var tail := Kept(q.stops, pieces);
    EventsAreSent(q.stops, [], pieces);
    FlattenNonEmpty(tail);
    FlattenConcat(Events(q.stops, [], pieces), NonEmpty(tail));
    FlushRepeatsTheText(q.stops, pieces);
  }

  /** No byte of the text is the first byte of a pattern. */
  ghost predicate StartsNone(pats: seq<Bytes>, t: Bytes) {
    forall i, j :: 0 <= i < |t| && 0 <= j < |pats| && pats[j] != [] ==> t[i] != pats[j][0]
  }

  lemma PendingFirst(pats: seq<Bytes>, t: Bytes, s: int)
    requires Pending(pats, t, s)
    ensures !StartsNone(pats, t)
  {
    var j :| 0 <= j < |pats| && t[s..] <= pats[j];
    assert t[s..][0] == pats[j][0];
  }

  lemma FirstPending(pats: seq<Bytes>, t: Bytes, j: nat)
    requires t != [] && j < |pats| && pats[j] != [] && t[|t| - 1] == pats[j][0]
    ensures Pending(pats, t, |t| - 1)
  {
    assert t[|t| - 1..] <= pats[j];
  }

  /** One byte is sent if and only if neither it nor any byte before it can have started a pattern that is still
      open. */
  lemma ByteSent(pats: seq<Bytes>, t: Bytes, b: byte)
    requires pats != [] && !Hit(pats, t + [b])
    ensures StartsNone(pats, t + [b]) ==> Sends(pats, t, [b]) == [b]
    ensures StartsNone(pats, t) && !StartsNone(pats, t + [b]) ==> Sends(pats, t, [b]) == []
    ensures |Sends(pats, t, [b])| <= 1
  {
    hide Hit;
    var all := t + [b];
    HitIsFirstPattern(pats, all);
    var safe := SafeLength(pats, all, 0);
    if StartsNone(pats, all) {
      if safe < |all| { PendingFirst(pats, all, safe); }
    } else if StartsNone(pats, t) {
      var j :| 0 <= j < |pats| && pats[j] != [] && all[|t|] == pats[j][0];
      FirstPending(pats, all, j);
    }
  }

  lemma {:induction false} BytesSent(pats: seq<Bytes>, raw: Bytes)
    requires pats != [] && (raw == [] || !Hit(pats, raw))
    ensures |Sent(pats, [], Singles(raw))| <= |raw|
    ensures Sent(pats, [], Singles(raw)) == raw <==> StartsNone(pats, raw)
    decreases |raw|
  {
    if |raw| > 0 {
      hide Hit, Sends, Sent, FirstPattern, Singles;
      var j := |raw| - 1;
      var t := raw[..j];
      assert raw[..j + 1] == raw && raw == t + [raw[j]];
      if Hit(pats, t) { HitStays(pats, t, [raw[j]]); }
      BytesSent(pats, t);
      OneMore(pats, raw, j);
      ByteSent(pats, t, raw[j]);
      assert StartsNone(pats, raw) ==> StartsNone(pats, t);
      if |Sent(pats, [], Singles(raw))| == |raw| { assert |Sent(pats, [], Singles(t))| == |t|; }
    }
  }

  /** A block answer is the decoded text when there are no stop sequences. With stop sequences none of which occurs,
      it is the decoded text if and only if no byte of it is the first byte of one: a byte held back is never added
      later. */
  lemma {:induction false} BlockWithoutStop(pats: seq<Bytes>, raw: Bytes)
    requires pats == [] || raw == [] || !Hit(pats, raw)
    ensures BlockText(pats, raw) == raw <==> pats == [] || StartsNone(pats, raw)
  {
    hide Sent, Run, Hit, StartsNone, Singles;
    if pats == [] {
      SentWithoutPatterns([], Singles(raw));
      FlattenSingles(raw);
    } else {
      BytesSent(pats, raw);
      NotStopped(pats, raw);
    }
  }

  lemma NotStopped(pats: seq<Bytes>, raw: Bytes)
    requires pats != [] && (raw == [] || !Hit(pats, raw))
    ensures !Run(pats, [], Singles(raw)).stopped
  {
    if |raw| > 0 {
      hide Hit, Sends, Sent, FirstPattern;
      var j := |raw| - 1;
      assert raw[..j + 1] == raw && raw == raw[..j] + [raw[j]];
      if Hit(pats, raw[..j]) { HitStays(pats, raw[..j], [raw[j]]); }
      OneMore(pats, raw, j);
    }
  }

  /** When a stop sequence occurs, a block answer is the text before the stop if and only if every byte of that text was
      held back when it came. */
  lemma BlockAtStop(pats: seq<Bytes>, raw: Bytes)
    requires pats != [] && Run(pats, [], Singles(raw)).stopped
    ensures BlockText(pats, raw) == Run(pats, [], Singles(raw)).kept <==> NothingSafe(pats, [], Singles(raw))
  {
    hide NothingSafe, Run, Sent, Singles;
    FlushRepeatsTheText(pats, Singles(raw));
  }
}
