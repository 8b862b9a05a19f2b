/** Facts about products, quotients and ascending numbers that the solver does not find on its own. */
module Arithmetic {
  lemma DivUnique(x: nat, d: nat, q: nat, r: nat)
    requires r < d && x == d * q + r
    ensures x / d == q && x % d == r
  {
    var q', r' := x / d, x % d;
    assert x == d * q' + r';
    if q > q' {
      AtLeast(d, q, q');
    } else if q < q' {
      AtLeast(d, q', q);
    }
  }

  lemma {:induction false} AtLeast(d: nat, a: nat, b: nat)
    requires a > b
    ensures d * a >= d * b + d
    decreases a
  {
    if a > b + 1 {
      AtLeast(d, a - 1, b);
      assert d * a == d * (a - 1) + d;
    } else {
      assert d * a == d * b + d;
    }
  }

  lemma DivOfMultiple(d: nat, p: nat, x: nat)
    requires d > 0
    ensures (d * p + x) / d == p + x / d && (d * p + x) % d == x % d
  {
    var q, r := x / d, x % d;
    assert x == d * q + r;
    assert d * (p + q) == d * p + d * q;
    DivUnique(d * p + x, d, p + q, r);
  }

  lemma DivMonotone(x: nat, y: nat, d: nat)
    requires d > 0 && x <= y
    ensures x / d <= y / d
  {
    if x / d > y / d {
      AtLeast(d, x / d, y / d);
    }
  }

  lemma DivNonNegative(x: nat, d: nat)
    requires d > 0
    ensures x / d >= 0
  {
  }

  lemma QuotientBelow(x: nat, d: nat, n: nat)
    requires d > 0 && x < d * n
    ensures x / d < n
  {
    if x / d > n {
      AtLeast(d, x / d, n);
    }
  }

  lemma {:induction false} MulMonotone(x: int, y: int, k: nat)
    requires x <= y
    ensures x * k <= y * k
  {
    if k > 0 {
      MulMonotone(x, y, k - 1);
      assert x * k == x * (k - 1) + x && y * k == y * (k - 1) + y;
    }
  }

  lemma SameQuotient(x: nat, y: nat, d: nat)
    requires d > 0 && x <= y && x / d == y / d
    ensures x % d <= y % d
  {
    assert x == d * (x / d) + x % d && y == d * (y / d) + y % d;
  }

  predicate Ascending(s: seq<nat>, lo: nat, hi: nat) {
    && (forall i, j | 0 <= i < j < |s| :: s[i] < s[j])
    && (forall i | 0 <= i < |s| :: lo <= s[i] < hi)
  }

  /** Leaving out a stretch keeps a sequence ascending. */
  lemma AscendingWithout(a: seq<nat>, b: seq<nat>, c: seq<nat>, lo: nat, hi: nat)
    requires Ascending(a + (b + c), lo, hi)
    ensures Ascending(a + c, lo, hi)
  {
    var s := a + (b + c);
    forall i | 0 <= i < |a + c| ensures (a + c)[i] == s[if i < |a| then i else i + |b|] {}
  }
}
