/** What a chat answer holds. */
module Answers {
  // Which of the sampled tokens are text, how many there are, and what the finish reason says about them.

  import opened Bytes
  import opened Rows
  import opened Chain
  import opened Decode
  import opened StopMatchers
  import opened Tokenizers
  import opened Workers

  ghost predicate EndsNowhere(r: Request, toks: seq<int>, from: nat) {
    forall m: nat :: from < m < |toks| ==> !EndsAt(r, toks, m)
  }

  ghost predicate EndsAt(r: Request, toks: seq<int>, m: nat)
    requires m <= |toks|
  {
    r.ends(toks[..m])
  }

  /** The loop only appends, stops at the first token that ends it, and respects both limits. */
  lemma {:induction false} LoopEnds(c: Decoder, n: nat, r: Request, toks: seq<int>, logits: Row, s: Split, gpuCap: nat,
                                    cap: nat, i: nat)
    requires n <= c.nLayers && SplitSized(c, s, gpuCap, cap) && |toks| <= cap
    ensures var o := GpuLoop(c, n, r, toks, logits, s, |toks|, gpuCap, cap, i).0;
      && toks <= o && |o| <= cap + 1 && EndsNowhere(r, o, |toks|)
      && |o| - |toks| <= if i < r.maxNew then r.maxNew - i else 0
    decreases r.maxNew - i
  {
    hide Dispatch;
    if Goes(r, i) {
      var t := r.sample(logits, toks, i);
      var more := toks + [t];
      if !r.ends(more) && |toks| < cap {
        var (y, after) := Dispatch(c, n, s, t, |toks|, gpuCap, cap);
        LoopEnds(c, n, r, more, y, after, gpuCap, cap, i + 1);
        var o := GpuLoop(c, n, r, more, y, after, |more|, gpuCap, cap, i + 1).0;
        assert o[..|more|] == more;
      }
    }
  }

  /** The tokens of a chat request, prompt included. */
  ghost predicate Sampled(q: Chat, k: Ends, v: Vocab, cap: nat, toks: seq<int>) {
    && q.prompt <= toks && |toks| <= cap + 1 && EndsNowhere(RequestOf(q, k, v), toks, |q.prompt|)
    && |toks| - |q.prompt| <= if q.maxTokens > 0 then q.maxTokens else 0
  }

  lemma ChatSamples(c: Decoder, n: nat, k: Ends, v: Vocab, q: Chat, s: Split, gpuCap: nat, cap: nat)
    requires n <= c.nLayers && SplitSized(c, s, gpuCap, cap) && 1 <= |q.prompt| <= cap
    ensures Sampled(q, k, v, cap, GpuGenerate(c, n, RequestOf(q, k, v), s, gpuCap, cap).0)
  {
    hide GpuLoop, EndsNowhere;
    var r := RequestOf(q, k, v);
    var (rows, warm) := Prefill(c, s.cpu, q.prompt);
    LoopEnds(c, n, r, q.prompt, rows[|rows| - 1], SyncIfFits(c, n, Split(s.gpu, warm), |q.prompt|, gpuCap, cap), gpuCap,
             cap, 0);
  }

  lemma NotAnEnd(q: Chat, k: Ends, v: Vocab, cap: nat, toks: seq<int>, m: nat)
    requires Sampled(q, k, v, cap, toks) && |q.prompt| < m < |toks|
    ensures !IsEnd(k, toks[m - 1]) && !Stops(q, k, v, toks[..m])
  {
    assert !EndsAt(RequestOf(q, k, v), toks, m);
  }

  /** Which tokens count: all that were sampled, but not an end token and not one for which the context has no room.
      Neither of the two end tokens is among them. */
  lemma GeneratedTokens(q: Chat, k: Ends, v: Vocab, cap: nat, toks: seq<int>)
    requires Sampled(q, k, v, cap, toks) && |q.prompt| <= cap
    ensures var gen := Generated(q, k, cap, toks);
      && (forall j :: 0 <= j < |gen| ==> gen[j] != k.eot && gen[j] != k.eos)
      && q.prompt + gen <= toks && |q.prompt + gen| <= cap && |gen| <= (if q.maxTokens > 0 then q.maxTokens else 0)
      && (q.prompt + gen != toks ==>
            |toks| == |q.prompt + gen| + 1 && (toks[|toks| - 1] in {k.eot, k.eos} || |toks| == cap + 1))
  {
    hide Stops, Sampled;
    SampledParts(q, k, v, cap, toks);
    var gen := Generated(q, k, cap, toks);
    forall j | 0 <= j < |gen| ensures gen[j] != k.eot && gen[j] != k.eos {
      if |q.prompt| + j + 1 < |toks| { NotAnEnd(q, k, v, cap, toks, |q.prompt| + j + 1); }
      assert gen[j] == toks[|q.prompt| + j];
    }
  }

  lemma SampledParts(q: Chat, k: Ends, v: Vocab, cap: nat, toks: seq<int>)
    requires Sampled(q, k, v, cap, toks)
    ensures q.prompt <= toks && |toks| <= cap + 1
    ensures |toks| - |q.prompt| <= if q.maxTokens > 0 then q.maxTokens else 0
  {
  }

  /** The finish reason is "stop" exactly when an end token was sampled or the streamed text holds a stop sequence, and
      "length" otherwise: the limit, cancellation, or a full context. */
  lemma ReasonIff(q: Chat, k: Ends, v: Vocab, cap: nat, toks: seq<int>)
    requires Sampled(q, k, v, cap, toks) && |q.prompt| <= cap
    ensures var gen, reason := Generated(q, k, cap, toks), Report(q, k, v, cap, toks).reason;
      && reason in {"stop", "length"}
      && (reason == "stop" <==>
            || (|toks| > |q.prompt| && toks[|toks| - 1] in {k.eot, k.eos})
            || (q.stream && gen != [] && q.stops != [] && Hit(q.stops, Flatten(Decoded(v, gen)))))
  {
    hide Hit, Decoded, Events, Kept, BlockText, Sampled;
    SampledParts(q, k, v, cap, toks);
    var gen := Generated(q, k, cap, toks);
    if |toks| > |q.prompt| && !IsEnd(k, toks[|toks| - 1]) && |toks| == cap + 1 && gen != [] {
      NotAnEnd(q, k, v, cap, toks, |toks| - 1);
      assert toks[..|toks| - 1][|q.prompt|..] == gen;
    }
  }

  /** The reply to a chat request, prompt to finish reason. */
  lemma ChatReply(c: Decoder, n: nat, k: Ends, v: Vocab, q: Chat, zero: Cache, host: Cache, gpuCap: nat, cap: nat)
    returns (toks: seq<int>, gen: seq<int>)
    requires n <= c.nLayers && Sized(c, zero, gpuCap) && Sized(c, host, cap) && 1 <= |q.prompt| <= cap
    ensures |q.prompt| <= |toks| && gen == Generated(q, k, cap, toks)
    ensures ChatOnce(c, n, k, v, q, zero, host, gpuCap, cap).0 == Report(q, k, v, cap, toks)
    ensures forall j :: 0 <= j < |gen| ==> gen[j] != k.eot && gen[j] != k.eos
    ensures |gen| <= (if q.maxTokens > 0 then q.maxTokens else 0) && |q.prompt| + |gen| <= cap
    ensures Report(q, k, v, cap, toks).reason == "stop" <==>
      || (|toks| > |q.prompt| && toks[|toks| - 1] in {k.eot, k.eos})
      || (q.stream && gen != [] && q.stops != [] && Hit(q.stops, Flatten(Decoded(v, gen))))
  {
    hide GpuGenerate, Report, Generated, Sampled, Hit, Decoded;
    var s := Split(zero, host);
    ChatSamples(c, n, k, v, q, s, gpuCap, cap);
    toks := GpuGenerate(c, n, RequestOf(q, k, v), s, gpuCap, cap).0;
    gen := Generated(q, k, cap, toks);
    GeneratedTokens(q, k, v, cap, toks);
    ReasonIff(q, k, v, cap, toks);
  }
}
