/** The attention loops of the CPU path on flat cache buffers: scores, softmax in place, weighted values, proved
    against `Net.HeadOut`. */
module Attention {
  import opened Arith
  import opened Rows
  import opened Chain
  import opened Net
  import opened KvCaches

  /** Head counts the engine accepts: the query heads split evenly over the key/value heads, so every
      h / (n_heads / n_kv_heads) is a key/value head. */
  ghost predicate Heads(c: Config) {
    c.nKv > 0 && c.headDim > 0 && c.nHeads >= c.nKv && c.nHeads % c.nKv == 0
  }

  lemma KvHead(c: Config, h: nat)
    requires Heads(c) && h < c.nHeads
    ensures Group(c) == c.nHeads / c.nKv
    ensures h / Group(c) < c.nKv
  {
    assert c.nHeads == c.nHeads / c.nKv * c.nKv;
    DivBelow(h, c.nHeads / c.nKv, c.nKv);
  }

  /** Offsets of one head: inside its query row and inside a key/value row. */
  lemma {:induction false} HeadOffsets(c: Config, h: nat)
    requires Heads(c) && h < c.nHeads
    ensures 0 <= h / Group(c) * c.headDim <= c.nKv * c.headDim - c.headDim
    ensures 0 <= h * c.headDim <= c.nHeads * c.headDim - c.headDim
  {
    KvHead(c, h);
    RowBounds(h / Group(c), c.headDim, c.nKv);
    RowBounds(h, c.headDim, c.nHeads);
  }

  /** The rows 0..n-1 held by two flat layer buffers. */
  ghost function Past(c: Config, kf: array<real>, vf: array<real>, cap: nat, n: nat): (r: seq<KV>)
    requires kf.Length == vf.Length == cap * (c.nKv * c.headDim) && n <= cap
    reads kf, vf
    ensures |r| == n
  {
    LayerOf(kf[..], vf[..], c.nKv * c.headDim, cap)[..n]
  }

  lemma {:induction false} FlatAt(flat: seq<real>, w: nat, cap: nat, t: nat, j: nat)
    requires |flat| == cap * w && t < cap && j < w
    ensures 0 <= t * w && t * w + j < |flat| && At(RowOf(flat, w, cap, t), j) == flat[t * w + j]
  {
    RowBounds(t, w, cap);
  }

  lemma {:induction false} DotInRow(q: Row, qo: nat, flat: seq<real>, w: nat, cap: nat, t: nat, o: nat, n: nat)
    requires |flat| == cap * w && t < cap && o + n <= w
    ensures 0 <= t * w && DotAt(q, qo, flat, t * w + o, n) == DotAt(q, qo, RowOf(flat, w, cap, t), o, n)
  {
    RowBounds(t, w, cap);
    if n > 0 {
      DotInRow(q, qo, flat, w, cap, t, o, n - 1);
      FlatAt(flat, w, cap, t, o + n - 1);
      assert At(flat, t * w + o + (n - 1)) == At(RowOf(flat, w, cap, t), o + (n - 1));
    }
  }

  method DotLoop(q: Row, qo: nat, flat: array<real>, fo: nat, n: nat) returns (dot: real)
    requires qo + n <= |q| && fo + n <= flat.Length
    ensures dot == DotAt(q, qo, flat[..], fo, n)
  {
    dot := 0.0;
    for d := 0 to n
      invariant dot == DotAt(q, qo, flat[..], fo, d)
    {
      assert At(q, qo + d) == q[qo + d] && At(flat[..], fo + d) == flat[fo + d];
      dot := dot + q[qo + d] * flat[fo + d];
    }
  }

  /** q . k_t over one head, the key read at its flat offset. */
  method HeadDot(c: Config, q: Row, flat: array<real>, cap: nat, t: nat, h: nat) returns (dot: real)
    requires Heads(c) && h < c.nHeads && |q| == c.nHeads * c.headDim
    requires flat.Length == cap * (c.nKv * c.headDim) && t < cap
    ensures dot == DotAt(q, h * c.headDim, RowOf(flat[..], c.nKv * c.headDim, cap, t),
                         h / Group(c) * c.headDim, c.headDim)
  {
    KvHead(c, h);
    HeadOffsets(c, h);
    var w := c.nKv * c.headDim;
    var o := h / (c.nHeads / c.nKv) * c.headDim;
    RowBounds(t, w, cap);
    DotInRow(q, h * c.headDim, flat[..], w, cap, t, o, c.headDim);
    dot := DotLoop(q, h * c.headDim, flat, t * w + o, c.headDim);
  }

  /** One scaled score. */
  method OneScore(net: Net, q: Row, kf: array<real>, vf: array<real>, cap: nat, n: nat, t: nat, h: nat)
    returns (x: real)
    requires Heads(net.cfg) && h < net.cfg.nHeads && |q| == net.cfg.nHeads * net.cfg.headDim
    requires kf.Length == vf.Length == cap * (net.cfg.nKv * net.cfg.headDim) && t < n <= cap
    ensures x == Score(net, q, Past(net.cfg, kf, vf, cap, n)[t], h)
  {
    hide DotAt, RowOf, Heads;
    var dot := HeadDot(net.cfg, q, kf, cap, t, h);
    x := dot * net.cfg.scale;
  }

  lemma ScoresAre(net: Net, q: Row, kvs: seq<KV>, h: nat, s: Row)
    requires |s| == |kvs| && forall t :: 0 <= t < |s| ==> s[t] == Score(net, q, kvs[t], h)
    ensures s == Scores(net, q, kvs, h)
  {
    hide Score;
  }

  method ScoreLoop(net: Net, q: Row, kf: array<real>, vf: array<real>, cap: nat, n: nat, h: nat)
    returns (s: array<real>)
    requires Heads(net.cfg) && h < net.cfg.nHeads && |q| == net.cfg.nHeads * net.cfg.headDim
    requires kf.Length == vf.Length == cap * (net.cfg.nKv * net.cfg.headDim) && n <= cap
    ensures fresh(s) && s[..] == Scores(net, q, Past(net.cfg, kf, vf, cap, n), h)
  {
    hide Past, Score, Scores, Heads;
    s := new real[n];
    ghost var past := Past(net.cfg, kf, vf, cap, n);
    for t := 0 to n
      invariant forall i :: 0 <= i < t ==> s[i] == Score(net, q, past[i], h)
    {
      s[t] := OneScore(net, q, kf, vf, cap, n, t, h);
    }
    ScoresAre(net, q, past, h, s[..]);
  }

  method MaxLoop(a: array<real>, m0: real) returns (m: real)
    ensures m == MaxFrom(m0, a[..], a.Length)
  {
    m := m0;
    for t := 0 to a.Length
      invariant m == MaxFrom(m0, a[..], t)
    {
      if a[t] > m { m := a[t]; }
    }
  }

  method ExpLoop(f: Fns, a: array<real>, m: real) returns (sum: real)
    modifies a
    ensures sum == ExpSum(f, old(a[..]), m, a.Length)
    ensures forall i :: 0 <= i < a.Length ==> a[i] == f.exp(old(a[i]) - m)
  {
    ghost var s := a[..];
    sum := 0.0;
    for t := 0 to a.Length
      invariant sum == ExpSum(f, s, m, t)
      invariant forall i :: 0 <= i < t ==> a[i] == f.exp(s[i] - m)
      invariant forall i :: t <= i < a.Length ==> a[i] == s[i]
    {
      a[t] := f.exp(a[t] - m);
      sum := sum + a[t];
    }
  }

  method ScaleLoop(a: array<real>, inv: real)
    modifies a
    ensures forall i :: 0 <= i < a.Length ==> a[i] == old(a[i]) * inv
  {
    for t := 0 to a.Length
      invariant forall i :: 0 <= i < t ==> a[i] == old(a[i]) * inv
      invariant forall i :: t <= i < a.Length ==> a[i] == old(a[i])
    {
      a[t] := a[t] * inv;
    }
  }

  lemma SoftmaxSteps(f: Fns, s: Row, m: real, e: Row, r: Row)
    requires |r| == |e| == |s|
    requires forall i :: 0 <= i < |s| ==> e[i] == f.exp(s[i] - m)
    requires forall i :: 0 <= i < |s| ==> r[i] == e[i] * Inverse(ExpSum(f, s, m, |s|))
    ensures r == SoftmaxAt(f, s, m)
  {
    var inv := Inverse(ExpSum(f, s, m, |s|));
    forall i | 0 <= i < |s| ensures r[i] == SoftmaxAt(f, s, m)[i] {
      assert e[i] == f.exp(At(s, i) - m);
    }
  }

  /** Softmax in place: maximum, exponentials with their sum, then the scaling pass. */
  method SoftmaxInPlace(f: Fns, a: array<real>, m0: real)
    modifies a
    ensures a[..] == SoftmaxAt(f, old(a[..]), MaxFrom(m0, old(a[..]), a.Length))
  {
    hide MaxFrom, ExpSum, SoftmaxAt, Inverse;
    ghost var s := a[..];
    var m := MaxLoop(a, m0);
    var sum := ExpLoop(f, a, m);
    ghost var e := a[..];
    ScaleLoop(a, Inverse(sum));
    SoftmaxSteps(f, s, m, e, a[..]);
  }

  /** One step t of the value sum: out[d] += w * v_t[d] for every d of the head. */
  method AddValueRow(out: array<real>, w: real, vf: array<real>, fo: nat)
    requires out != vf && fo + out.Length <= vf.Length
    modifies out
    ensures forall d :: 0 <= d < out.Length ==> out[d] == old(out[d]) + w * vf[fo + d]
  {
    for d := 0 to out.Length
      invariant forall i :: 0 <= i < d ==> out[i] == old(out[i]) + w * vf[fo + i]
      invariant forall i :: d <= i < out.Length ==> out[i] == old(out[i])
    {
      out[d] := out[d] + w * vf[fo + d];
    }
  }

  method ValueLoop(w: array<real>, vf: array<real>, cap: nat, width: nat, o: nat, hd: nat, ghost kvs: seq<KV>)
    returns (out: array<real>)
    requires vf.Length == cap * width && o + hd <= width && w.Length == |kvs| <= cap
    requires forall t :: 0 <= t < |kvs| ==> kvs[t].v == RowOf(vf[..], width, cap, t)
    ensures fresh(out) && out.Length == hd
    ensures forall d :: 0 <= d < hd ==> out[d] == Mix(w[..], kvs, o + d, |kvs|)
  {
    var ws := w[..];
    ghost var vs := vf[..];
    out := new real[hd](d => 0.0);
    for t := 0 to w.Length
      invariant w[..] == ws && vf[..] == vs
      invariant forall d :: 0 <= d < hd ==> out[d] == Mix(ws, kvs, o + d, t)
    {
      ValueStep(out, ws, vf, cap, width, t, o, kvs);
    }
  }

  method ValueStep(out: array<real>, ws: Row, vf: array<real>, cap: nat, width: nat, t: nat, o: nat, ghost kvs: seq<KV>)
    requires vf.Length == cap * width && o + out.Length <= width && out != vf
    requires t < |kvs| <= cap && |ws| == |kvs| && kvs[t].v == RowOf(vf[..], width, cap, t)
    requires forall d :: 0 <= d < out.Length ==> out[d] == Mix(ws, kvs, o + d, t)
    modifies out
    ensures forall d :: 0 <= d < out.Length ==> out[d] == Mix(ws, kvs, o + d, t + 1)
  {
    hide RowOf, Mix;
    ghost var was, vs := out[..], vf[..];
    RowBounds(t, width, cap);
    AddValueRow(out, ws[t], vf, t * width + o);
    forall d | 0 <= d < out.Length ensures out[d] == Mix(ws, kvs, o + d, t + 1) {
      MixStep(ws, vs, width, cap, kvs, t, o + d);
      assert out[d] == was[d] + ws[t] * vs[t * width + o + d];
    }
  }

  lemma {:induction false} MixStep(ws: Row, vs: seq<real>, width: nat, cap: nat, kvs: seq<KV>, t: nat, j: nat)
    requires |vs| == cap * width && t < |kvs| <= cap && |ws| == |kvs| && j < width
    requires kvs[t].v == RowOf(vs, width, cap, t)
    ensures 0 <= t * width && t * width + j < |vs|
    ensures Mix(ws, kvs, j, t + 1) == Mix(ws, kvs, j, t) + ws[t] * vs[t * width + j]
  {
    FlatAt(vs, width, cap, t, j);
  }

  /** Scores, softmax and value sum of query head h over the first n cached positions. */
  method HeadAttention(net: Net, q: Row, kf: array<real>, vf: array<real>, cap: nat, n: nat, h: nat) returns (r: Row)
    requires Heads(net.cfg) && h < net.cfg.nHeads && |q| == net.cfg.nHeads * net.cfg.headDim
    requires kf.Length == vf.Length == cap * (net.cfg.nKv * net.cfg.headDim) && n <= cap
    ensures |r| == net.cfg.headDim
    ensures forall d :: 0 <= d < |r| ==> r[d] == HeadOut(net, q, Past(net.cfg, kf, vf, cap, n), h, d)
  {
    hide Scores, SoftmaxAt, MaxFrom, Mix, Heads;
    var w := ScoreLoop(net, q, kf, vf, cap, n, h);
    SoftmaxInPlace(net.fns, w, FLOOR);
    var out := HeadValues(net.cfg, w, kf, vf, cap, n, h);
    r := out[..];
  }

  /** The value sum of head h, its columns found at the head's offset in the rows. */
  method HeadValues(c: Config, w: array<real>, kf: array<real>, vf: array<real>, cap: nat, n: nat, h: nat)
    returns (out: array<real>)
    requires Heads(c) && h < c.nHeads && kf.Length == vf.Length == cap * (c.nKv * c.headDim) && w.Length == n <= cap
    ensures fresh(out) && out.Length == c.headDim
    ensures forall d :: 0 <= d < c.headDim ==>
      out[d] == Mix(w[..], Past(c, kf, vf, cap, n), h / Group(c) * c.headDim + d, n)
  {
    hide Mix, RowOf;
    KvHead(c, h);
    HeadOffsets(c, h);
    out := ValueLoop(w, vf, cap, c.nKv * c.headDim, h / (c.nHeads / c.nKv) * c.headDim, c.headDim,
                     Past(c, kf, vf, cap, n));
  }

  lemma {:induction false} AttendHead(net: Net, q: Row, kvs: seq<KV>, h: nat, d: nat)
    requires h < net.cfg.nHeads && d < net.cfg.headDim
    ensures h * net.cfg.headDim + d < |Attend(net, q, kvs)|
    ensures Attend(net, q, kvs)[h * net.cfg.headDim + d] == HeadOut(net, q, kvs, h, d)
  {
    Monotone(h + 1, net.cfg.nHeads, net.cfg.headDim);
    DivIs(h * net.cfg.headDim + d, net.cfg.headDim, h, d);
  }

  /** The output of the heads before h, extended by head h. */
  lemma {:induction false} PrefixGrows(net: Net, q: Row, kvs: seq<KV>, h: nat, row: Row, head: Row)
    requires h < net.cfg.nHeads && |head| == net.cfg.headDim
    requires |row| == h * net.cfg.headDim && row <= Attend(net, q, kvs)
    requires forall d :: 0 <= d < |head| ==> head[d] == HeadOut(net, q, kvs, h, d)
    ensures |row + head| == (h + 1) * net.cfg.headDim && row + head <= Attend(net, q, kvs)
  {
    var want := Attend(net, q, kvs);
    var off := |row|;
    RowBounds(h, net.cfg.headDim, net.cfg.nHeads);
    forall d | 0 <= d < |head| ensures head[d] == want[off + d] {
      AttendHead(net, q, kvs, h, d);
    }
  }
}
