/** Linear resampling, at once and in streamed blocks (`ResamplePCM16`, `ResampleBlockBytes`, the read loop of
    `Synthesize`). Positions between samples are exact rationals with the output rate as denominator. */
module Resample {
  import opened Bytes
  import opened Arithmetic

  // ---------------------------------------------------------------------------
  // Rounding
  // ---------------------------------------------------------------------------

  /** Conversion to an integer drops the fraction, towards zero. */
  function TruncDiv(x: int, d: nat): int
    requires d > 0
  {
    if x >= 0 then x / d else -((-x) / d)
  }

  lemma TruncMonotone(x: int, y: int, d: nat)
    requires d > 0 && x <= y
    ensures TruncDiv(x, d) <= TruncDiv(y, d)
  {
    if x >= 0 {
      assert TruncDiv(x, d) == x / d && TruncDiv(y, d) == y / d;
      DivMonotone(x, y, d);
    } else if y < 0 {
      assert TruncDiv(x, d) == -((-x) / d) && TruncDiv(y, d) == -((-y) / d);
      DivMonotone(-y, -x, d);
    } else {
      DivNonNegative(-x, d);
      DivNonNegative(y, d);
    }
  }

  lemma TruncOfMultiple(c: int, d: nat)
    requires d > 0
    ensures TruncDiv(c * d, d) == c
  {
    if c >= 0 {
      DivUnique(c * d, d, c, 0);
    } else {
      assert -(c * d) == d * (-c);
      assert d * (-c) > 0 by { AtLeast(d, -c, 0); }
      DivUnique(-(c * d), d, -c, 0);
    }
  }

  /** It is the one integer next to the quotient on the side of zero. */
  lemma RoundsToZero(x: int, d: nat)
    requires d > 0
    ensures var v := TruncDiv(x, d); if x >= 0 then v * d <= x < v * d + d else v * d - d < x <= v * d
  {
    var q := (if x >= 0 then x else -x) / d;
    assert q * d == d * q;
    assert (-q) * d == -(q * d);
  }

  // ---------------------------------------------------------------------------
  // One signal
  // ---------------------------------------------------------------------------

  function OutCount(n: nat, from: nat, to: nat): nat
    requires from > 0
  {
    n * to / from
  }

  /** The input sample at or before output position `i`, and how far past it, in `to`-ths. */
  function Left(i: nat, from: nat, to: nat): nat
    requires to > 0
  {
    i * from / to
  }

  function Past(i: nat, from: nat, to: nat): nat
    requires to > 0
  {
    i * from % to
  }

  /** Linear interpolation between two samples. */
  function Between(a: int, b: int, past: nat, to: nat): int
    requires to > 0
  {
    TruncDiv(a * to + past * (b - a), to)
  }

  lemma LeftInRange(n: nat, i: nat, from: nat, to: nat)
    requires from > 0 && to > 0 && i < OutCount(n, from, to)
    ensures Left(i, from, to) < n
  {
    var out := OutCount(n, from, to);
    assert n * to >= from * out;
    AtLeast(from, out, i);
    assert i * from == from * i && n * to == to * n;
    QuotientBelow(i * from, to, n);
  }

  function Right(s: seq<int>, j: nat): int
    requires j < |s|
  {
    if j + 1 < |s| then s[j + 1] else s[j]
  }

  function OutSample(s: seq<int>, i: nat, from: nat, to: nat): int
    requires from > 0 && to > 0 && i < OutCount(|s|, from, to)
  {
    LeftInRange(|s|, i, from, to);
    var j := Left(i, from, to);
    Between(s[j], Right(s, j), Past(i, from, to), to)
  }

  function Signal(s: seq<int>, from: nat, to: nat): (r: seq<int>)
    requires from > 0 && to > 0
    ensures |r| == OutCount(|s|, from, to)
  {
    seq(OutCount(|s|, from, to), i requires 0 <= i < OutCount(|s|, from, to) => OutSample(s, i, from, to))
  }

  /** `v` is what linear interpolation makes of output position `i`: with the neighbours weighted by their distances, in
      `to`-ths, the sum rounded towards zero; the last sample stands where there is no right neighbour. */
  predicate Interpolated(s: seq<int>, i: nat, from: nat, to: nat, v: int)
    requires to > 0
  {
    var j, p := i * from / to, i * from % to;
    && j < |s|
    && if j + 1 == |s| then v == s[j]
       else
         var x := s[j] * (to - p) + s[j + 1] * p;
         if x >= 0 then v * to <= x < v * to + to else v * to - to < x <= v * to
  }

  lemma SampleInterpolated(s: seq<int>, i: nat, from: nat, to: nat)
    requires from > 0 && to > 0 && i < |s| * to / from
    ensures Interpolated(s, i, from, to, OutSample(s, i, from, to))
  {
    LeftInRange(|s|, i, from, to);
    var j, p := i * from / to, i * from % to;
    var a, b := s[j], Right(s, j);
    WeightedSum(a, b, p, to);
    RoundsToZero(a * to + p * (b - a), to);
    if j + 1 == |s| {
      assert p * (a - a) == 0;
      TruncOfMultiple(a, to);
    }
    hide TruncDiv;
  }

  lemma WeightedSum(a: int, b: int, p: nat, to: nat)
    ensures a * to + p * (b - a) == a * (to - p) + b * p
  {
    assert p * (b - a) == p * b - p * a && a * (to - p) == a * to - a * p;
  }

  /** Interpolated values stay between their neighbours, so nothing leaves the 16-bit range. */
  lemma StaysBetween(a: int, b: int, past: nat, to: nat)
    requires past < to
    ensures var v := Between(a, b, past, to);
      (a <= b ==> a <= v <= b) && (b <= a ==> b <= v <= a)
  {
    var x := a * to + past * (b - a);
    var rest := to - past;
    assert x == a * rest + b * past by {
      assert a * to == a * rest + a * past;
      assert past * (b - a) == b * past - a * past;
    }
    assert a * to == a * rest + a * past && b * to == b * rest + b * past;
    TruncOfMultiple(a, to);
    TruncOfMultiple(b, to);
    if a <= b {
      MulMonotone(a, b, past);
      MulMonotone(a, b, rest);
      TruncMonotone(a * to, x, to);
      TruncMonotone(x, b * to, to);
    }
    if b <= a {
      MulMonotone(b, a, past);
      MulMonotone(b, a, rest);
      TruncMonotone(b * to, x, to);
      TruncMonotone(x, a * to, to);
    }
  }

  predicate Ordered(s: seq<int>) {
    forall i, j | 0 <= i <= j < |s| :: s[i] <= s[j]
  }

  /** Ordered input gives ordered output. */
  lemma OrderKept(s: seq<int>, from: nat, to: nat, i: nat, k: nat)
    requires from > 0 && to > 0 && Ordered(s) && i <= k < OutCount(|s|, from, to)
    ensures OutSample(s, i, from, to) <= OutSample(s, k, from, to)
  {
    LeftInRange(|s|, i, from, to);
    LeftInRange(|s|, k, from, to);
    var ji, jk := Left(i, from, to), Left(k, from, to);
    var pi, pk := Past(i, from, to), Past(k, from, to);
    MulMonotone(i, k, from);
    DivMonotone(i * from, k * from, to);
    StaysBetween(s[ji], Right(s, ji), pi, to);
    StaysBetween(s[jk], Right(s, jk), pk, to);
    if ji == jk {
      SameQuotient(i * from, k * from, to);
      var d := Right(s, ji) - s[ji];
      MulMonotone(pi, pk, d);
      TruncMonotone(s[ji] * to + pi * d, s[jk] * to + pk * d, to);
    }
  }

  // ---------------------------------------------------------------------------
  // Blocks
  // ---------------------------------------------------------------------------

  function GcdOf(a: nat, b: nat): nat
    decreases b
  {
    if b == 0 then a else GcdOf(b, a % b)
  }

  method Gcd(x: nat, y: nat) returns (a: nat)
    ensures a == GcdOf(x, y)
  {
    a := x;
    var b: nat := y;
    while b != 0
      invariant GcdOf(a, b) == GcdOf(x, y)
      decreases b
    {
      a, b := b, a % b;
    }
  }

  /** The greatest common divisor divides both. */
  lemma {:induction false} GcdDivides(a: nat, b: nat) returns (x: nat, y: nat)
    ensures a == GcdOf(a, b) * x && b == GcdOf(a, b) * y
    decreases b
  {
    var g := GcdOf(a, b);
    if b == 0 {
      x, y := 1, 0;
    } else {
      var u, v := GcdDivides(b, a % b);
      var q := a / b;
      y := u;
      x := u * q + v;
      CommonFactor(a, b, q, a % b, g, u, v);
    }
  }

  /** And every common divisor divides it. */
  lemma {:induction false} GcdIsGreatest(a: nat, b: nat, d: nat, u: nat, v: nat) returns (w: nat)
    requires a == d * u && b == d * v
    ensures GcdOf(a, b) == d * w
    decreases b
  {
    if b == 0 {
      w := u;
    } else {
      var q := a / b;
      assert a == b * q + a % b;
      Remainder(d, u, v, q, a % b);
      w := GcdIsGreatest(b, a % b, d, v, u - q * v);
    }
  }

  lemma Remainder(d: nat, u: nat, v: nat, q: nat, r: nat)
    requires d * u == d * v * q + r && (d > 0 || r == 0)
    ensures d > 0 ==> u >= q * v && r == d * (u - q * v)
  {
    assert d * v * q == d * (q * v);
    assert r == d * (u - q * v);
    if d > 0 && u < q * v {
      AtLeast(d, q * v, u);
    }
  }

  lemma CommonFactor(a: nat, b: nat, q: nat, r: nat, g: nat, u: nat, v: nat)
    requires a == b * q + r && b == g * u && r == g * v
    ensures a == g * (u * q + v)
  {
    assert g * (u * q) == (g * u) * q;
    assert g * (u * q + v) == g * (u * q) + g * v;
  }

  /** `f` input samples become exactly `t` output samples: the rates are `f` and `t` times a common factor. */
  ghost predicate Ratio(from: nat, to: nat, f: nat, t: nat) {
    f > 0 && t > 0 && exists g: nat :: g > 0 && from == g * f && to == g * t
  }

  method ResampleBlockBytes(fromRate: int, toRate: int) returns (block: nat)
    ensures block > 0 && (fromRate <= 0 || toRate <= 0 ==> block == 2)
    ensures fromRate > 0 && toRate > 0 ==>
      block % 2 == 0 && exists t: nat :: Ratio(fromRate, toRate, block / 2, t)
  {
    if fromRate <= 0 || toRate <= 0 {
      return 2;
    }
    var g := Gcd(fromRate, toRate);
    ghost var f, t := GcdDivides(fromRate, toRate);
    PositiveFactors(fromRate, g, f);
    PositiveFactors(toRate, g, t);
    assert 2 * fromRate == g * (2 * f);
    DivUnique(2 * fromRate, g, 2 * f, 0);
    block := 2 * fromRate / g;
    assert Ratio(fromRate, toRate, f, t);
    assert block / 2 == f;
  }

  lemma PositiveFactors(x: nat, g: nat, f: nat)
    requires x > 0 && x == g * f
    ensures g > 0 && f > 0
  {
  }

  /** Where a whole number of blocks ends, positions start over: the next output position reads the next
      input sample, exactly. */
  lemma BlockBoundary(from: nat, to: nat, f: nat, t: nat, m: nat, i: nat)
    requires Ratio(from, to, f, t) && from > 0 && to > 0
    ensures Left(t * m + i, from, to) == f * m + Left(i, from, to)
    ensures Past(t * m + i, from, to) == Past(i, from, to)
  {
    var g :| g > 0 && from == g * f && to == g * t;
    assert (t * m + i) * from == to * (f * m) + i * from by {
      assert t * m * (g * f) == (g * t) * (f * m);
    }
    DivOfMultiple(to, f * m, i * from);
  }

  lemma BlockCount(from: nat, to: nat, f: nat, t: nat, m: nat, n: nat)
    requires Ratio(from, to, f, t) && from > 0 && to > 0
    ensures OutCount(f * m + n, from, to) == t * m + OutCount(n, from, to)
  {
    var g :| g > 0 && from == g * f && to == g * t;
    assert (f * m + n) * to == from * (t * m) + n * to by {
      assert f * m * (g * t) == (g * f) * (t * m);
    }
    DivOfMultiple(from, t * m, n * to);
  }

  // ---------------------------------------------------------------------------
  // A signal resampled in blocks
  // ---------------------------------------------------------------------------

  /** What the chunks become, each resampled on its own. */
  function Blocks(chunks: seq<seq<int>>, from: nat, to: nat): seq<int>
    requires from > 0 && to > 0
  {
    if chunks == [] then [] else Signal(chunks[0], from, to) + Blocks(chunks[1..], from, to)
  }

  /** Every chunk but the last holds whole blocks. */
  predicate Aligned(chunks: seq<seq<int>>, f: nat)
    requires f > 0
  {
    forall k | 0 <= k < |chunks| - 1 :: |chunks[k]| % f == 0
  }

  /** Output position `i` does not need a sample from beyond the chunk it falls into. */
  predicate Inside(chunks: seq<seq<int>>, from: nat, to: nat, i: nat)
    requires from > 0 && to > 0
    decreases |chunks|
  {
    if chunks == [] then true
    else
      var out := OutCount(|chunks[0]|, from, to);
      if i < out then Left(i, from, to) + 1 < |chunks[0]| || Flatten(chunks[1..]) == []
      else Inside(chunks[1..], from, to, i - out)
  }

  /** `v` is the input sample at or before output position `i`. */
  predicate AtLeft(s: seq<int>, i: nat, from: nat, to: nat, v: int)
    requires to > 0
  {
    Left(i, from, to) < |s| && v == s[Left(i, from, to)]
  }

  /** Without a right neighbour the last sample is repeated. */
  lemma EdgeSample(s: seq<int>, i: nat, from: nat, to: nat)
    requires from > 0 && to > 0 && i < OutCount(|s|, from, to) && Left(i, from, to) + 1 >= |s|
    ensures AtLeft(s, i, from, to, OutSample(s, i, from, to))
  {
    LeftInRange(|s|, i, from, to);
    var a := s[Left(i, from, to)];
    assert Past(i, from, to) * (a - a) == 0;
    TruncOfMultiple(a, to);
  }

  /** Streamed resampling has the length of whole-signal resampling, and the same sample everywhere except
      where interpolation would need the first sample of the next chunk; there it repeats the left neighbour. */
  lemma {:induction false} StreamAgrees(chunks: seq<seq<int>>, from: nat, to: nat, f: nat, t: nat)
    requires Ratio(from, to, f, t) && from > 0 && to > 0 && Aligned(chunks, f)
    ensures var r, w := Blocks(chunks, from, to), Signal(Flatten(chunks), from, to);
      && |r| == |w| && (forall i | 0 <= i < |r| && Inside(chunks, from, to, i) :: r[i] == w[i])
      && forall i | 0 <= i < |r| && !Inside(chunks, from, to, i) :: AtLeft(Flatten(chunks), i, from, to, r[i])
    decreases |chunks|
  {
    if chunks == [] {
      assert OutCount(0, from, to) == 0;
    } else {
      var head, rest := chunks[0], chunks[1..];
      var tail := Flatten(rest);
      forall k | 0 <= k < |rest| - 1 ensures |rest[k]| % f == 0 { assert rest[k] == chunks[k + 1]; }
      StreamAgrees(rest, from, to, f, t);
      if |chunks| == 1 {
        assert rest == [] && tail == [];
        assert head + tail == head;
        assert Blocks(chunks, from, to) == Signal(head, from, to) + [];
      } else {
        TwoParts(head, tail, from, to, f, t);
        hide OutSample, Ratio, Aligned;
        var r, w := Blocks(chunks, from, to), Signal(head + tail, from, to);
        var out := OutCount(|head|, from, to);
        forall i | 0 <= i < |r| && Inside(chunks, from, to, i) ensures r[i] == w[i] {
          if i < out {
            FirstPart(head, tail, from, to, i);
          } else {
            assert r[i] == Blocks(rest, from, to)[i - out];
          }
        }
        forall i | 0 <= i < |r| && !Inside(chunks, from, to, i) ensures AtLeft(head + tail, i, from, to, r[i]) {
          if i < out {
            EdgeSample(head, i, from, to);
          } else {
            assert r[i] == Blocks(rest, from, to)[i - out];
            assert AtLeft(tail, i - out, from, to, r[i]);
            assert Left(out + (i - out), from, to) == |head| + Left(i - out, from, to);
          }
        }
      }
    }
  }

  lemma FirstPart(head: seq<int>, tail: seq<int>, from: nat, to: nat, i: nat)
    requires from > 0 && to > 0 && i < OutCount(|head|, from, to)
    requires Left(i, from, to) + 1 < |head| || tail == []
    ensures i < OutCount(|head + tail|, from, to) ==>
            OutSample(head, i, from, to) == OutSample(head + tail, i, from, to)
  {
    LeftInRange(|head|, i, from, to);
    if tail == [] {
      assert head + tail == head;
    }
  }

  /** Behind whole blocks the rest of the signal is resampled as if it stood alone. */
  lemma TwoParts(head: seq<int>, tail: seq<int>, from: nat, to: nat, f: nat, t: nat)
    requires Ratio(from, to, f, t) && from > 0 && to > 0 && |head| % f == 0
    ensures var out := OutCount(|head|, from, to);
      && OutCount(|head + tail|, from, to) == out + OutCount(|tail|, from, to)
      && Signal(head + tail, from, to)[out..] == Signal(tail, from, to)
      && forall i: nat :: Left(out + i, from, to) == |head| + Left(i, from, to)
  {
    var m := |head| / f;
    assert |head| == f * m;
    BlockCount(from, to, f, t, m, |tail|);
    BlockCount(from, to, f, t, m, 0);
    assert OutCount(0, from, to) == 0;
    var out := OutCount(|head|, from, to);
    assert out == t * m;
    var s := head + tail;
    forall i: nat ensures Left(out + i, from, to) == |head| + Left(i, from, to) {
      BlockBoundary(from, to, f, t, m, i);
    }
    forall i | 0 <= i < OutCount(|tail|, from, to)
      ensures OutSample(s, out + i, from, to) == OutSample(tail, i, from, to)
    {
      BlockBoundary(from, to, f, t, m, i);
      LeftInRange(|tail|, i, from, to);
      LeftInRange(|s|, out + i, from, to);
    }
  }
}
