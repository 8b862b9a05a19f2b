/** Bytes as small integers, with the few operations the engine applies to them. */
module Bytes {
  import opened Arithmetic

  /** One octet. Shifts and masks of the source become `/` and `%`, which agree on non-negative numbers. */
  type byte = x: int | 0 <= x < 256

  datatype Option<+T> = None | Some(value: T)

  /** Exclusive or of the low `bits` bits of `a` and `k`. */
  function XorBits(a: nat, k: nat, bits: nat): (r: nat)
  {
    if bits == 0 then 0 else (a % 2 + k % 2) % 2 + 2 * XorBits(a / 2, k / 2, bits - 1)
  }

  function Pow2(n: nat): (r: nat)
    ensures r > 0
  {
    if n == 0 then 1 else 2 * Pow2(n - 1)
  }

  lemma LowBit(b: nat, rest: nat)
    requires b < 2
    ensures (b + 2 * rest) % 2 == b && (b + 2 * rest) / 2 == rest
  {
  }

  /** The lowest bit apart. */
  lemma XorLowBit(b: nat, rest: nat, k: nat, bits: nat)
    requires b < 2 && bits > 0
    ensures XorBits(b + 2 * rest, k, bits) == (b + k % 2) % 2 + 2 * XorBits(rest, k / 2, bits - 1)
  {
    LowBit(b, rest);
  }

  lemma BitTwice(b: nat, c: nat)
    requires b < 2 && c < 2
    ensures (b + c) % 2 < 2 && ((b + c) % 2 + c) % 2 == b
  {
    if b == 0 && c == 0 {} else if b == 1 && c == 1 {}
  }

  lemma {:induction false} XorBitsInvolution(a: nat, k: nat, bits: nat)
    requires a < Pow2(bits)
    ensures XorBits(a, k, bits) < Pow2(bits)
    ensures XorBits(XorBits(a, k, bits), k, bits) == a
  {
    if bits > 0 {
      var b, c, rest := a % 2, k % 2, a / 2;
      assert a == b + 2 * rest && b < 2 && c < 2;
      var low := (b + c) % 2;
      BitTwice(b, c);
      XorBitsInvolution(rest, k / 2, bits - 1);
      hide XorBits;
      XorLowBit(b, rest, k, bits);
      XorLowBit(low, XorBits(rest, k / 2, bits - 1), k, bits);
    }
  }

  lemma XorBitsRange(a: nat, k: nat, bits: nat)
    ensures XorBits(a, k, bits) < Pow2(bits)
  {
  }

  function Xor(a: byte, k: byte): byte {
    XorBitsRange(a, k, 8);
    assert Pow2(8) == 256 by { assert Pow2(4) == 16; }
    XorBits(a, k, 8)
  }

  /** Masking twice with the same key octet restores the octet. */
  lemma XorInvolution(a: byte, k: byte)
    ensures Xor(Xor(a, k), k) == a
  {
    assert Pow2(8) == 256 by { assert Pow2(4) == 16; }
    XorBitsInvolution(a, k, 8);
  }

  /** Bit `i` of a number, the lowest being bit 0. */
  function Bit(x: nat, i: nat): nat { x / Pow2(i) % 2 }

  lemma NextBit(x: nat, i: nat)
    ensures Bit(x, i + 1) == Bit(x / 2, i)
  {
    var p := Pow2(i);
    var q, r := x / 2 / p, x / 2 % p;
    assert x == 2 * (p * q + r) + x % 2;
    assert 2 * (p * q) == (2 * p) * q;
    DivUnique(x, 2 * p, q, 2 * r + x % 2);
  }

  /** Each bit of the exclusive or is one exactly when the bits of its arguments differ. */
  lemma {:induction false} XorBitsAt(a: nat, k: nat, bits: nat, i: nat)
    requires i < bits
    ensures Bit(XorBits(a, k, bits), i) == 1 <==> Bit(a, i) != Bit(k, i)
    decreases bits
  {
    var low, rest := (a % 2 + k % 2) % 2, XorBits(a / 2, k / 2, bits - 1);
    var x := XorBits(a, k, bits);
    assert x == low + 2 * rest;
    LowBit(low, rest);
    if i > 0 {
      XorBitsAt(a / 2, k / 2, bits - 1, i - 1);
      NextBit(x, i - 1);
      NextBit(a, i - 1);
      NextBit(k, i - 1);
    } else {
      assert Pow2(0) == 1;
    }
  }

  predicate IsXor(x: byte, a: byte, k: byte) {
    forall i | 0 <= i < 8 :: Bit(x, i) == 1 <==> Bit(a, i) != Bit(k, i)
  }

  lemma XorIsXor(a: byte, k: byte)
    ensures IsXor(Xor(a, k), a, k)
  {
    forall i | 0 <= i < 8 ensures Bit(Xor(a, k), i) == 1 <==> Bit(a, i) != Bit(k, i) {
      XorBitsAt(a, k, 8, i);
    }
  }

  lemma ConcatAssoc<T>(a: seq<T>, b: seq<T>, c: seq<T>)
    ensures (a + b) + c == a + (b + c)
  {
  }

  /** Concatenation of a list of sequences. */
  function Flatten<T>(parts: seq<seq<T>>): seq<T> {
    if parts == [] then [] else parts[0] + Flatten(parts[1..])
  }

  lemma {:induction false} FlattenConcat<T>(a: seq<seq<T>>, b: seq<seq<T>>)
    ensures Flatten(a + b) == Flatten(a) + Flatten(b)
  {
    if a == [] {
      assert a + b == b;
    } else {
      assert (a + b)[1..] == a[1..] + b;
      FlattenConcat(a[1..], b);
    }
  }

  /** Big-endian value of a run of octets (network byte order). */
  function BigEndian(s: seq<byte>): nat {
    if s == [] then 0 else BigEndian(s[..|s| - 1]) * 256 + s[|s| - 1]
  }

  /** The low `n` octets of `v`, most significant first. */
  function ToBigEndian(v: nat, n: nat): (s: seq<byte>)
    ensures |s| == n
  {
    if n == 0 then [] else ToBigEndian(v / 256, n - 1) + [v % 256]
  }

  function Pow256(n: nat): (r: nat)
    ensures r > 0
  {
    if n == 0 then 1 else 256 * Pow256(n - 1)
  }

  lemma {:induction false} BigEndianRoundTrip(v: nat, n: nat)
    requires v < Pow256(n)
    ensures BigEndian(ToBigEndian(v, n)) == v
  {
    if n > 0 {
      BigEndianRoundTrip(v / 256, n - 1);
      var s := ToBigEndian(v, n);
      assert s[..n - 1] == ToBigEndian(v / 256, n - 1);
    }
  }

  /** The first octet counts most. */
  lemma {:induction false} BigEndianFirst(s: seq<byte>)
    requires s != []
    ensures BigEndian(s) == s[0] * Pow256(|s| - 1) + BigEndian(s[1..])
    decreases |s|
  {
    var n := |s| - 1;
    if n > 0 {
      BigEndianFirst(s[..n]);
      var tail := s[1..];
      assert s[..n][1..] == tail[..n - 1] && tail[n - 1] == s[n];
      assert BigEndian(tail) == BigEndian(tail[..n - 1]) * 256 + s[n];
      assert BigEndian(s) == BigEndian(s[..n]) * 256 + s[n];
      Scaled(s[0], Pow256(n - 1));
    }
  }

  lemma Scaled(x: nat, p: nat)
    ensures x * p * 256 == x * (256 * p)
  {
  }

  lemma BigEndianTwo(a: byte, b: byte)
    ensures BigEndian([a, b]) == 256 * a + b
  {
    BigEndianFirst([a, b]);
    assert [a, b][1..] == [b] && BigEndian([b]) == b;
  }

  lemma ToBigEndianTwo(v: nat)
    ensures ToBigEndian(v, 2) == [v / 256 % 256, v % 256]
  {
    assert ToBigEndian(v / 256, 1) == [v / 256 % 256];
  }
}
