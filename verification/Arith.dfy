/** Small facts about products and integer division that the solver does not find by itself, stated once and used
    wherever flat offsets are computed from row and column numbers. */
module Arith {

  lemma Monotone(a: nat, b: nat, w: nat)
    requires a <= b
    ensures a * w <= b * w
  {
  }

  lemma {:induction false} DivIs(x: nat, m: nat, q: nat, r: nat)
    requires x == q * m + r && r < m
    ensures x / m == q && x % m == r
  {
    var q', r' := x / m, x % m;
    assert x == q' * m + r' && 0 <= r' < m;
    if q' < q { Monotone(q' + 1, q, m); }
    if q' > q { Monotone(q + 1, q', m); }
  }

  lemma DivBelow(h: nat, g: nat, n: nat)
    requires g > 0 && h < g * n
    ensures h / g < n
  {
    assert h / g * g <= h;
    if h / g >= n { Monotone(n, h / g, g); }
  }

  lemma {:induction false} ModStep(k: nat, m: nat)
    requires m > 0
    ensures (k + m) % m == k % m && (k + m) / m == k / m + 1
  {
    DivIs(k + m, m, k / m + 1, k % m);
  }

  /** Two numbers closer than m differ in their residue. */
  lemma {:induction false} ModNext(k: nat, j: nat, m: nat)
    requires 0 < j < m
    ensures (k + j) % m != k % m
  {
    var q, r := k / m, k % m;
    if r + j < m {
      DivIs(k + j, m, q, r + j);
    } else {
      DivIs(k + j, m, q + 1, r + j - m);
    }
  }

  /** The p-th block of width w among cap blocks. */
  lemma RowBounds(p: nat, w: nat, cap: nat)
    requires p < cap
    ensures 0 <= p * w <= (p + 1) * w <= cap * w
    ensures (p + 1) * w == p * w + w
  {
    Monotone(0, p, w);
    Monotone(p + 1, cap, w);
  }

  lemma {:induction false} RowsApart(p: nat, q: nat, w: nat)
    requires p < q
    ensures p * w + w <= q * w
  {
    Monotone(p + 1, q, w);
  }
}
