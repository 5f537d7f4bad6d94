/** What the sampler draws. */
module SamplerLaws {
  // From the raw logits to the draws: which tokens can come out, and how much of the unit interval each one has.

  import opened Rows
  import opened Reduce
  import opened Sampler
  import NetLaws

  // ----- temperature and penalty -----

  /** A temperature that is not positive scales nothing. */
  function Heat(cfg: Config): (t: real)
    ensures t > 0.0
  {
    if cfg.temperature > 0.0 then cfg.temperature else 1.0
  }

  function Factor(cfg: Config, seen: bool): (c: real)
    ensures c > 0.0
  {
    if seen && cfg.penalty > 1.0 then cfg.penalty else 1.0
  }

  function LogitOf(logits: Row, cfg: Config, prompt: seq<int>, i: nat): real
    requires i < |logits|
  {
    logits[i] / (Heat(cfg) * Factor(cfg, i in prompt))
  }

  lemma Quotients(v: real, a: real, b: real)
    requires a > 0.0 && b > 0.0
    ensures a * b > 0.0 && (v / a) / b == v / (a * b)
  {
    var x, y := (v / a) / b, v / (a * b);
    assert (x * b) * a == v;
    assert x * (a * b) == (x * b) * a;
    NetLaws.SameQuotient(x, y, a * b, v);
  }

  /** Every logit enters divided by the temperature, a seen token's also by the penalty, however often it was seen. */
  lemma AdjustedIs(logits: Row, cfg: Config, prompt: seq<int>, i: nat)
    requires i < |logits|
    ensures Adjusted(logits, cfg, prompt)[i] == LogitOf(logits, cfg, prompt, i)
  {
    Quotients(logits[i], Heat(cfg), Factor(cfg, i in prompt));
  }

  /** The softmax stage: any two tokens' probabilities stand in the ratio of the exponentials of their scaled logits. */
  lemma ProbabilitiesInRatio(f: Fns, logits: Row, cfg: Config, prompt: seq<int>, i: nat, j: nat)
    requires ExpLaw(f) && i < |logits| && j < |logits|
    ensures var q := SoftmaxFromFirst(f, Adjusted(logits, cfg, prompt));
      q[i] * f.exp(LogitOf(logits, cfg, prompt, j)) == q[j] * f.exp(LogitOf(logits, cfg, prompt, i))
  {
    hide SoftmaxFromFirst, Softmax, Adjusted, LogitOf;
    var s := Adjusted(logits, cfg, prompt);
    SoftmaxFromFirstIsSoftmax(f, s);
    NetLaws.SoftmaxInRatio(f, s);
    assert NetLaws.RatioAt(f, s, Softmax(f, s), i, j);
    AdjustedIs(logits, cfg, prompt, i);
    AdjustedIs(logits, cfg, prompt, j);
  }

  lemma SmallerQuotient(v: real, a: real, b: real)
    requires v <= 0.0 && 0.0 < a <= b
    ensures v / a <= v / b
  {
    var x, y := v / a, v / b;
    assert x * a == v && y * b == v;
    NetLaws.Quotient(-v, b, -y);
    assert -y * (b - a) >= 0.0;
    NetLaws.Quotient(-y * (b - a), a, y - x);
  }

  lemma Difference(v: real, w: real, t: real)
    requires t > 0.0
    ensures v / t - w / t == (v - w) / t
  {
    var x, y, z := v / t, w / t, (v - w) / t;
    assert x * t == v && y * t == w && z * t == v - w;
    assert (x - y) * t == x * t - y * t;
    NetLaws.SameQuotient(x - y, z, t, v - w);
  }

  /** A lower temperature sharpens: with nothing penalized, the token with the largest logit is at least as probable as
      at a higher temperature. */
  lemma ColderIsSharper(f: Fns, logits: Row, cold: Config, warm: Config, prompt: seq<int>, i: nat)
    requires ExpLaw(f) && ExpGrows(f) && i < |logits| && forall j :: 0 <= j < |logits| ==> logits[j] <= logits[i]
    requires 0.0 < cold.temperature <= warm.temperature && cold.penalty <= 1.0 && warm.penalty <= 1.0
    ensures SoftmaxFromFirst(f, Adjusted(logits, cold, prompt))[i]
         >= SoftmaxFromFirst(f, Adjusted(logits, warm, prompt))[i]
  {
    hide SoftmaxFromFirst, Softmax, Adjusted, ExpLaw, ExpGrows;
    var s, t := Adjusted(logits, warm, prompt), Adjusted(logits, cold, prompt);
    SoftmaxFromFirstIsSoftmax(f, s);
    SoftmaxFromFirstIsSoftmax(f, t);
    AdjustedIs(logits, cold, prompt, i);
    AdjustedIs(logits, warm, prompt, i);
    forall j | 0 <= j < |logits| ensures t[j] - t[i] <= s[j] - s[i] {
      AdjustedIs(logits, cold, prompt, j);
      AdjustedIs(logits, warm, prompt, j);
      Difference(logits[j], logits[i], cold.temperature);
      Difference(logits[j], logits[i], warm.temperature);
      SmallerQuotient(logits[j] - logits[i], cold.temperature, warm.temperature);
    }
    NetLaws.LargerLeadWeighsMore(f, s, t, i);
  }

  // ----- the draw -----

  function Stage(f: Fns, logits: Row, cfg: Config, prompt: seq<int>): (q: Row)
    ensures |q| == |logits|
  {
    SoftmaxFromFirst(f, Adjusted(logits, cfg, prompt))
  }

  /** The share of the unit interval that each token has. */
  function Shares(f: Fns, logits: Row, cfg: Config, prompt: seq<int>): (w: Row)
    ensures |w| == |logits|
  {
    Renormalized(Kept(Stage(f, logits, cfg, prompt), cfg))
  }

  lemma {:induction false} PickEnds(r: Row, u: real, i: nat)
    requires NonNegative(r) && i < |r| && SumTo(r, i) < u <= SumTo(r, |r|)
    ensures var k := PickFrom(r, u, i);
      SumTo(r, k) < u <= SumTo(r, k + 1)
    decreases |r| - i
  {
    if u > SumTo(r, i + 1) && i < |r| - 1 { PickEnds(r, u, i + 1); }
  }

  lemma PickIff(r: Row, u: real, k: nat)
    requires NonNegative(r) && k < |r| && 0.0 < u <= SumTo(r, |r|)
    ensures PickFrom(r, u, 0) == k <==> SumTo(r, k) < u <= SumTo(r, k + 1)
  {
    PickEnds(r, u, 0);
    if SumTo(r, k) < u <= SumTo(r, k + 1) { PickIsInterval(r, u, 0, k); }
  }

  lemma SharesAddUp(f: Fns, logits: Row, cfg: Config, prompt: seq<int>)
    requires ExpLaw(f) && |logits| > 0
    ensures var w, kept := Shares(f, logits, cfg, prompt), Kept(Stage(f, logits, cfg, prompt), cfg);
      && NonNegative(w) && SumTo(w, |w|) == 1.0 && SumTo(kept, |kept|) > 0.0
      && forall i :: 0 <= i < |w| ==> (w[i] > 0.0 <==> kept[i] > 0.0)
  {
    SampleSurvives(f, logits, cfg, prompt, 0.5);
    SoftmaxPositive(f, Adjusted(logits, cfg, prompt));
    KeptNonNegative(Stage(f, logits, cfg, prompt), cfg);
    hide Kept, SoftmaxFromFirst, Adjusted, Renormalized;
    RenormalizedIsDistribution(Kept(Stage(f, logits, cfg, prompt), cfg));
  }

  /** The draws between 0 and 1 that return token k form an interval whose length is the token's share. */
  lemma SampleIsInterval(f: Fns, logits: Row, cfg: Config, prompt: seq<int>, draw: real, k: nat)
    requires ExpLaw(f) && 0.0 < draw < 1.0 && k < |logits|
    ensures var w := Shares(f, logits, cfg, prompt);
      Sample(f, logits, cfg, prompt, draw) == k <==> SumTo(w, k) < draw <= SumTo(w, k) + w[k]
  {
    hide Kept, SoftmaxFromFirst, Adjusted, Renormalized;
    SharesAddUp(f, logits, cfg, prompt);
    PickIff(Shares(f, logits, cfg, prompt), draw, k);
  }

  lemma RatioScales(a: real, b: real, x: real, y: real, c: real, u: real, v: real)
    requires a * x == b * y && (u > 0.0 ==> u == a * c) && (v > 0.0 ==> v == b * c)
    ensures u > 0.0 && v > 0.0 ==> u * x == v * y
  {
    assert (a * c) * x == (a * x) * c && (b * c) * y == (b * y) * c;
  }

  lemma KeptIs(q: Row, cfg: Config, i: nat)
    requires Probabilities(q) && i < |q|
    ensures Kept(q, cfg)[i] == q[i] || Kept(q, cfg)[i] == 0.0
  {
  }

  /** The sampling law: the shares add up to one, and those of any two tokens that can come out stand in the ratio of
      the exponentials of their logits, each divided by the temperature and, for a seen token, by the penalty. */
  lemma SharesInRatio(f: Fns, logits: Row, cfg: Config, prompt: seq<int>, i: nat, j: nat)
    requires ExpLaw(f) && i < |logits| && j < |logits|
    ensures SumTo(Shares(f, logits, cfg, prompt), |logits|) == 1.0
    ensures var w := Shares(f, logits, cfg, prompt);
      w[i] > 0.0 && w[j] > 0.0 ==>
        w[i] * f.exp(LogitOf(logits, cfg, prompt, j)) == w[j] * f.exp(LogitOf(logits, cfg, prompt, i))
  {
    hide Kept, SoftmaxFromFirst, Adjusted, LogitOf, SumTo, Inverse, Shares, ExpLaw, NonNegative, Probabilities;
    var q, w := Stage(f, logits, cfg, prompt), Shares(f, logits, cfg, prompt);
    var x, y := LogitOf(logits, cfg, prompt, j), LogitOf(logits, cfg, prompt, i);
    ProbabilitiesInRatio(f, logits, cfg, prompt, i, j);
    SharesAddUp(f, logits, cfg, prompt);
    SoftmaxPositive(f, Adjusted(logits, cfg, prompt));
    var c := Inverse(SumTo(Kept(q, cfg), |q|));
    ShareIs(f, logits, cfg, prompt, i, c);
    ShareIs(f, logits, cfg, prompt, j, c);
    RatioScales(q[i], q[j], f.exp(x), f.exp(y), c, w[i], w[j]);
  }

  lemma ShareIs(f: Fns, logits: Row, cfg: Config, prompt: seq<int>, i: nat, c: real)
    requires i < |logits| && Probabilities(Stage(f, logits, cfg, prompt))
    requires var kept := Kept(Stage(f, logits, cfg, prompt), cfg);
      c == Inverse(SumTo(kept, |kept|)) && (Shares(f, logits, cfg, prompt)[i] > 0.0 <==> kept[i] > 0.0)
    ensures Shares(f, logits, cfg, prompt)[i] > 0.0 ==>
      Shares(f, logits, cfg, prompt)[i] == Stage(f, logits, cfg, prompt)[i] * c
  {
    hide Stage, Kept, SumTo, Inverse;
    KeptIs(Stage(f, logits, cfg, prompt), cfg, i);
  }

  // ----- which tokens come out -----

  /** Some draw strictly between 0 and 1 returns the token. */
  ghost predicate CanReturn(f: Fns, logits: Row, cfg: Config, prompt: seq<int>, k: nat)
    requires k < |logits|
  {
    exists draw: real :: Returns(f, logits, cfg, prompt, k, draw)
  }

  ghost predicate Returns(f: Fns, logits: Row, cfg: Config, prompt: seq<int>, k: nat, draw: real)
    requires k < |logits|
  {
    0.0 < draw < 1.0 && Sample(f, logits, cfg, prompt, draw) == k
  }

  /** Exactly the tokens that pass both filters come out. */
  lemma CanReturnIff(f: Fns, logits: Row, cfg: Config, prompt: seq<int>, k: nat)
    requires ExpLaw(f) && k < |logits|
    ensures CanReturn(f, logits, cfg, prompt, k) <==> Kept(Stage(f, logits, cfg, prompt), cfg)[k] > 0.0
  {
    var w := Shares(f, logits, cfg, prompt);
    hide Kept, SoftmaxFromFirst, Adjusted, Shares, Stage, Sample;
    SharesAddUp(f, logits, cfg, prompt);
    if CanReturn(f, logits, cfg, prompt, k) {
      var draw: real :| Returns(f, logits, cfg, prompt, k, draw);
      SampleIsInterval(f, logits, cfg, prompt, draw, k);
    }
    if w[k] > 0.0 {
      var draw := SumTo(w, k) + w[k] / 2.0;
      SumHasPart(w, k, k);
      SumGrows(w, k + 1, |w|);
      SampleIsInterval(f, logits, cfg, prompt, draw, k);
      assert Returns(f, logits, cfg, prompt, k, draw);
    }
  }

  /** The tokens top-k lets through. */
  function Survivors(q: Row, cfg: Config): (m: Mask)
    ensures |m| == |q|
  {
    if 0 < cfg.topK < |q| then TopK(q, cfg.topK) else seq(|q|, _ => true)
  }

  ghost predicate Smallest(q: Row, among: Mask, m: Mask, t: real)
    requires |among| == |m| == |q|
  {
    && Within(m, among) && (Mass(q, m, |q|) >= t || m == among)
    && forall s: Mask :: Within(s, among) && Count(s, |q|) < Count(m, |q|) ==> Mass(q, s, |q|) < t
  }

  lemma {:induction false} SameMass(p: Row, q: Row, m: Mask, n: nat)
    requires n <= |m| == |p| == |q| && forall i :: 0 <= i < |m| ==> m[i] ==> p[i] == q[i]
    ensures Mass(p, m, n) == Mass(q, m, n)
  {
    if n > 0 { SameMass(p, q, m, n - 1); }
  }

  /** Nothing in the nucleus lies below its level, so if it falls short of the mass it holds all possible tokens. */
  lemma NucleusShort(p: Row, t: real)
    requires t > 0.0 && NonNegative(p) && Mass(p, Nucleus(p, t), |p|) < t
    ensures forall i :: 0 <= i < |p| && p[i] > 0.0 ==> Nucleus(p, t)[i]
  {
    hide Mass;
    forall i | 0 <= i < |p| && p[i] > 0.0 ensures Nucleus(p, t)[i] {
      var k := FirstReaching(p, t, 0);
      RankedPrefixIsNucleus(p, t, k);
      RankedToken(p, t, k, i);
      RankingHas(p, |p|, i);
      assert k == |Ranking(p, |p|)|;
      assert Ranking(p, |p|)[..k] == Ranking(p, |p|);
    }
  }

  /** With 0 < top_p < 1 the filters leave the smallest set of top-k survivors that reaches top_p, or all of them when
      even they do not. */
  lemma KeptIsSmallest(q: Row, cfg: Config, m: Mask)
    requires Probabilities(q) && 0.0 < cfg.topP < 1.0
    requires |m| == |q| && forall i :: 0 <= i < |q| ==> (m[i] <==> Kept(q, cfg)[i] > 0.0)
    ensures Smallest(q, Survivors(q, cfg), m, cfg.topP)
  {
    var p, t, among := TopKStage(q, cfg), cfg.topP, Survivors(q, cfg);
    assert forall i :: 0 <= i < |q| ==> p[i] == if among[i] then q[i] else 0.0;
    assert forall i :: 0 <= i < |q| ==> (m[i] <==> Nucleus(p, t)[i]);
    assert m == Nucleus(p, t);
    hide Nucleus, TopK, Mass, Count;
    forall s: Mask | Within(s, among) && Count(s, |q|) < Count(m, |q|) ensures Mass(q, s, |q|) < t {
      NucleusIsSmallest(p, t, s);
      SameMass(p, q, s, |q|);
    }
    InNucleus(p, t);
    SameMass(p, q, m, |q|);
    if Mass(q, m, |q|) < t { NucleusShort(p, t); }
  }

  lemma InNucleus(p: Row, t: real)
    ensures forall i :: 0 <= i < |p| && Nucleus(p, t)[i] ==> p[i] > 0.0
  {
  }

  /** Top-p on the sampler's results: the tokens that can come out are the smallest set of top-k survivors whose
      probabilities reach top_p. */
  lemma SampleIsNucleus(f: Fns, logits: Row, cfg: Config, prompt: seq<int>, m: Mask)
    requires ExpLaw(f) && 0.0 < cfg.topP < 1.0 && |m| == |logits| > 0
    requires forall k :: 0 <= k < |m| ==> (m[k] <==> CanReturn(f, logits, cfg, prompt, k))
    ensures var q := Stage(f, logits, cfg, prompt);
      Smallest(q, Survivors(q, cfg), m, cfg.topP)
  {
    SoftmaxPositive(f, Adjusted(logits, cfg, prompt));
    hide Kept, SoftmaxFromFirst, Adjusted, CanReturn, Smallest, Survivors;
    forall k | 0 <= k < |m| ensures m[k] <==> Kept(Stage(f, logits, cfg, prompt), cfg)[k] > 0.0 {
      CanReturnIff(f, logits, cfg, prompt, k);
    }
    KeptIsSmallest(Stage(f, logits, cfg, prompt), cfg, m);
  }

  /** Without top-p exactly the top-k survivors come out. */
  lemma SampleIsTopK(f: Fns, logits: Row, cfg: Config, prompt: seq<int>, k: nat)
    requires ExpLaw(f) && !(0.0 < cfg.topP < 1.0) && k < |logits|
    ensures CanReturn(f, logits, cfg, prompt, k) <==> Survivors(Stage(f, logits, cfg, prompt), cfg)[k]
  {
    SoftmaxPositive(f, Adjusted(logits, cfg, prompt));
    hide CanReturn, SoftmaxFromFirst, Adjusted, TopK;
    CanReturnIff(f, logits, cfg, prompt, k);
  }
}
