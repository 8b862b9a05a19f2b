/** Base64 with both alphabets, lenient decoding and line breaks (RFC 4648, sections 4 and 5; RFC 2045, section 6.8). */
module Base64 {
  import opened Bytes
  import opened Arithmetic

  datatype Result<+T> = Ok(value: T) | OutOfRange | InvalidData

  // ---------------------------------------------------------------------------
  // Alphabets
  // ---------------------------------------------------------------------------

  /** The character for a six-bit value. */
  function CharOf(v: int, url: bool): char
    requires 0 <= v < 64
  {
    if v < 26 then (v + 65) as char
    else if v < 52 then (v + 71) as char
    else if v < 62 then (v - 4) as char
    else if v == 62 then (if url then '-' else '+')
    else if url then '_' else '/'
  }

  /** The value of a character of either alphabet. */
  function PosOfChar(c: char): (r: Option<int>)
    ensures r.Some? ==> 0 <= r.value < 64
  {
    if 'A' <= c <= 'Z' then Some(c as int - 65)
    else if 'a' <= c <= 'z' then Some(c as int - 71)
    else if '0' <= c <= '9' then Some(c as int + 4)
    else if c == '+' || c == '-' then Some(62)
    else if c == '/' || c == '_' then Some(63)
    else None
  }

  predicate IsPad(c: char) { c == '=' || c == '.' }

  lemma CharRoundTrip(v: int, url: bool)
    requires 0 <= v < 64
    ensures PosOfChar(CharOf(v, url)) == Some(v)
    ensures !IsPad(CharOf(v, url)) && CharOf(v, url) != '\n'
  {
  }

  function Pad(url: bool): char { if url then '.' else '=' }

  const UPPER := "ABCDEFGHIJKLMNOPQRSTUVWXYZ"
  const LOWER := "abcdefghijklmnopqrstuvwxyz"
  const DIGITS := "0123456789"

  /** The tables of RFC 4648: section 4, and section 5 for `url`. */
  function Table(url: bool): string { UPPER + LOWER + DIGITS + if url then "-_" else "+/" }

  lemma CharInTable(v: int, url: bool)
    requires 0 <= v < 64
    ensures |Table(url)| == 64 && CharOf(v, url) == Table(url)[v]
  {
    Letters();
    assert |UPPER| == 26 && |LOWER| == 26 && |DIGITS| == 10;
    hide UPPER, LOWER, DIGITS;
  }

  lemma Letters()
    ensures forall v | 0 <= v < 26 :: UPPER[v] == (v + 65) as char && LOWER[v] == (v + 97) as char
    ensures forall v | 0 <= v < 10 :: DIGITS[v] == (v + 48) as char
  {
  }

  // ---------------------------------------------------------------------------
  // Encoding and decoding as functions of one group
  // ---------------------------------------------------------------------------

  /** The four characters of up to three octets. */
  function EncodeGroup(g: seq<byte>, url: bool): (s: string)
    requires 1 <= |g| <= 3
    ensures |s| == 4
  {
    var c0 := CharOf(g[0] / 4, url);
    if |g| == 1 then [c0, CharOf(g[0] % 4 * 16, url), Pad(url), Pad(url)]
    else
      var c1 := CharOf(g[0] % 4 * 16 + g[1] / 16, url);
      if |g| == 2 then [c0, c1, CharOf(g[1] % 16 * 4, url), Pad(url)]
      else [c0, c1, CharOf(g[1] % 16 * 4 + g[2] / 64, url), CharOf(g[2] % 64, url)]
  }

  function Encode(bs: seq<byte>, url: bool): (s: string)
    ensures |s| == (|bs| + 2) / 3 * 4
    decreases |bs|
  {
    if |bs| == 0 then []
    else if |bs| <= 3 then EncodeGroup(bs, url)
    else EncodeGroup(bs[..3], url) + Encode(bs[3..], url)
  }

  /** Bit `k` of a run of octets, from the highest bit of the first octet on; zero behind the end. */
  function BitAt(bs: seq<byte>, k: nat): nat {
    if k / 8 < |bs| then Bit(bs[k / 8], 7 - k % 8) else 0
  }

  /** The value of the `n` bits from bit `k` on, the first counting most. */
  function Field(bs: seq<byte>, k: nat, n: nat): nat {
    if n == 0 then 0 else 2 * Field(bs, k, n - 1) + BitAt(bs, k + n - 1)
  }

  function Sextet(bs: seq<byte>, i: nat): nat { Field(bs, 6 * i, 6) }

  /** Character `i` of an encoding (RFC 4648, section 4): the six-bit value's entry in the table, then padding. */
  predicate IsEncoded(c: char, bs: seq<byte>, i: nat, url: bool) {
    if 6 * i < 8 * |bs| then Sextet(bs, i) < 64 == |Table(url)| && c == Table(url)[Sextet(bs, i)]
    else c == if url then '.' else '='
  }

  lemma FieldNext(bs: seq<byte>, k: nat, n: nat)
    ensures Field(bs, k, 0) == 0
    ensures Field(bs, k, n + 1) == 2 * Field(bs, k, n) + BitAt(bs, k + n)
  {
    hide BitAt;
  }

  lemma {:induction false} FieldSplit(bs: seq<byte>, k: nat, m: nat, n: nat)
    ensures Field(bs, k, m + n) == Field(bs, k, m) * Pow2(n) + Field(bs, k + m, n)
    decreases n
  {
    hide BitAt, Field, Pow2;
    if n > 0 {
      FieldSplit(bs, k, m, n - 1);
      FieldNext(bs, k, m + n - 1);
      FieldNext(bs, k + m, n - 1);
      PowNext(n - 1);
      var x, p := Field(bs, k, m), Pow2(n - 1);
      assert x * (2 * p) == 2 * (x * p);
    } else {
      FieldNext(bs, k + m, 0);
      PowNext(0);
    }
  }

  lemma Halve(x: nat, p: nat)
    requires p > 0
    ensures x / p == 2 * (x / (2 * p)) + x / p % 2
  {
    var q, r := x / p, x % p;
    assert x == p * q + r;
    var h := q / 2;
    assert (2 * p) * h == p * (2 * h);
    if q % 2 == 0 {
      DivUnique(x, 2 * p, h, r);
    } else {
      assert p * (2 * h + 1) == p * (2 * h) + p;
      DivUnique(x, 2 * p, h, p + r);
    }
  }

  lemma HalfAt(x: nat, i: nat)
    ensures x / Pow2(i) == 2 * (x / Pow2(i + 1)) + Bit(x, i)
  {
    PowNext(i);
    Halve(x, Pow2(i));
    hide Pow2;
  }

  lemma DoubledMod(y: nat, p: nat)
    requires p > 0
    ensures y % (2 * p) == 2 * (y / 2 % p) + y % 2
  {
    var q, r := y / 2 / p, y / 2 % p;
    assert y / 2 == p * q + r;
    assert (2 * p) * q == 2 * (p * q);
    DivUnique(y, 2 * p, q, 2 * r + y % 2);
  }

  /** Bits within one octet are those of a shift and a mask. */
  lemma {:induction false} FieldOfOctet(bs: seq<byte>, j: nat, a: nat, n: nat)
    requires j < |bs| && a + n <= 8
    ensures Field(bs, 8 * j + a, n) == bs[j] / Pow2(8 - a - n) % Pow2(n)
    decreases n
  {
    hide BitAt, Field, Pow2;
    PowNext(0);
    if n == 0 {
      FieldNext(bs, 8 * j + a, 0);
    } else {
      FieldOfOctet(bs, j, a, n - 1);
      FieldNext(bs, 8 * j + a, n - 1);
      BitOfOctet(bs, j, a + n - 1);
      LastOfField(bs[j], 8 - a - n, n - 1);
    }
  }

  /** One more bit of a shifted and masked number. */
  lemma LastOfField(x: nat, i: nat, n: nat)
    ensures x / Pow2(i) % Pow2(n + 1) == 2 * (x / Pow2(i + 1) % Pow2(n)) + Bit(x, i)
  {
    hide Pow2;
    var y := x / Pow2(i);
    HalfAt(x, i);
    assert x / Pow2(i + 1) == y / 2;
    DoubledMod(y, Pow2(n));
    PowNext(n);
  }

  lemma PowNext(n: nat)
    ensures Pow2(0) == 1 && Pow2(n + 1) == 2 * Pow2(n)
  {
  }

  lemma BitOfOctet(bs: seq<byte>, j: nat, k: nat)
    requires j < |bs| && k < 8
    ensures BitAt(bs, 8 * j + k) == Bit(bs[j], 7 - k)
  {
    DivUnique(8 * j + k, 8, j, k);
    hide Bit;
  }

  /** Behind the end there are zeros only. */
  lemma {:induction false} FieldBehind(bs: seq<byte>, k: nat, n: nat)
    requires k >= 8 * |bs|
    ensures Field(bs, k, n) == 0
    decreases n
  {
    if n > 0 { FieldBehind(bs, k, n - 1); }
  }

  lemma Powers()
    ensures Pow2(0) == 1 && Pow2(2) == 4 && Pow2(4) == 16 && Pow2(6) == 64
  {
  }

  lemma FrontSextets(g: seq<byte>)
    requires 1 <= |g| <= 3
    ensures Sextet(g, 0) == g[0] / 4
    ensures Sextet(g, 1) == g[0] % 4 * 16 + if |g| > 1 then g[1] / 16 else 0
  {
    hide Field;
    Powers();
    FieldOfOctet(g, 0, 0, 6);
    FieldOfOctet(g, 0, 6, 2);
    FieldSplit(g, 6, 2, 4);
    if |g| > 1 { FieldOfOctet(g, 1, 0, 4); } else { FieldBehind(g, 8, 4); }
    hide Pow2;
  }

  lemma BackSextets(g: seq<byte>)
    requires 2 <= |g| <= 3
    ensures Sextet(g, 2) == g[1] % 16 * 4 + if |g| > 2 then g[2] / 64 else 0
    ensures |g| > 2 ==> Sextet(g, 3) == g[2] % 64
  {
    hide Field;
    Powers();
    FieldOfOctet(g, 1, 4, 4);
    FieldSplit(g, 12, 4, 2);
    if |g| > 2 {
      FieldOfOctet(g, 2, 0, 2);
      FieldOfOctet(g, 2, 2, 6);
    } else {
      FieldBehind(g, 16, 2);
    }
    hide Pow2;
  }

  lemma GroupSextets(g: seq<byte>)
    requires 1 <= |g| <= 3
    ensures Sextet(g, 0) == g[0] / 4
    ensures Sextet(g, 1) == g[0] % 4 * 16 + if |g| > 1 then g[1] / 16 else 0
    ensures |g| > 1 ==> Sextet(g, 2) == g[1] % 16 * 4 + if |g| > 2 then g[2] / 64 else 0
    ensures |g| > 2 ==> Sextet(g, 3) == g[2] % 64
  {
    FrontSextets(g);
    if |g| > 1 { BackSextets(g); }
    hide Sextet;
  }

  lemma GroupIsEncoded(g: seq<byte>, i: nat, url: bool)
    requires 1 <= |g| <= 3 && i < 4
    ensures IsEncoded(EncodeGroup(g, url)[i], g, i, url)
  {
    GroupSextets(g);
    forall v | 0 <= v < 64 ensures |Table(url)| == 64 && CharOf(v, url) == Table(url)[v] { CharInTable(v, url); }
    hide Sextet, CharOf, Table;
  }

  lemma {:induction false} FieldOfFront(bs: seq<byte>, k: nat, n: nat)
    requires |bs| > 3 && k + n <= 24
    ensures Field(bs, k, n) == Field(bs[..3], k, n)
    decreases n
  {
    hide BitAt, Field;
    FieldNext(bs, k, if n > 0 then n - 1 else 0);
    FieldNext(bs[..3], k, if n > 0 then n - 1 else 0);
    if n > 0 {
      FieldOfFront(bs, k, n - 1);
      BitOfFront(bs, k + n - 1);
    }
  }

  lemma {:induction false} FieldOfRest(bs: seq<byte>, k: nat, n: nat)
    requires |bs| > 3
    ensures Field(bs, k + 24, n) == Field(bs[3..], k, n)
    decreases n
  {
    hide BitAt, Field;
    FieldNext(bs, k + 24, if n > 0 then n - 1 else 0);
    FieldNext(bs[3..], k, if n > 0 then n - 1 else 0);
    if n > 0 {
      FieldOfRest(bs, k, n - 1);
      BitOfFront(bs, k + 24 + n - 1);
    }
  }

  lemma BitOfFront(bs: seq<byte>, k: nat)
    requires |bs| > 3
    ensures BitAt(bs, k) == if k < 24 then BitAt(bs[..3], k) else BitAt(bs[3..], k - 24)
  {
    hide Bit;
  }

  /** Every character of an encoding is the one of its six bits, or padding. */
  lemma {:induction false} EncodesBits(bs: seq<byte>, i: nat, url: bool)
    requires i < (|bs| + 2) / 3 * 4
    ensures IsEncoded(Encode(bs, url)[i], bs, i, url)
    decreases |bs|
  {
    hide EncodeGroup, Field, Table;
    if |bs| <= 3 {
      GroupIsEncoded(bs, i, url);
    } else if i < 4 {
      FieldOfFront(bs, 6 * i, 6);
      GroupIsEncoded(bs[..3], i, url);
    } else {
      FieldOfRest(bs, 6 * (i - 4), 6);
      assert 6 * (i - 4) + 24 == 6 * i;
      EncodesBits(bs[3..], i - 4, url);
    }
  }

  /** Up to three octets from a group of at most four characters, which may be padded or just short. */
  function DecodeGroup(s: string): Result<seq<byte>>
    requires 1 <= |s| <= 4
  {
    if |s| == 1 then OutOfRange
    else
      var (p0, p1) := (PosOfChar(s[0]), PosOfChar(s[1]));
      if p0.None? || p1.None? then InvalidData
      else
        var b0 := p0.value * 4 + p1.value / 16;
        if |s| < 3 || IsPad(s[2]) then Ok([b0])
        else
          var p2 := PosOfChar(s[2]);
          if p2.None? then InvalidData
          else
            var b1 := p1.value % 16 * 16 + p2.value / 4;
            if |s| < 4 || IsPad(s[3]) then Ok([b0, b1])
            else
              var p3 := PosOfChar(s[3]);
              if p3.None? then InvalidData else Ok([b0, b1, p2.value % 4 * 64 + p3.value])
  }

  /** The positions known are those of the characters in either table. */
  lemma PosIffInTable(c: char, v: int)
    requires 0 <= v < 64
    ensures PosOfChar(c) == Some(v) <==> c == Table(false)[v] || c == Table(true)[v]
  {
    CharInTable(v, false);
    CharInTable(v, true);
    hide Table;
  }

  /** How many octets a group of characters gives. */
  function Octets(s: string): nat
    requires 1 <= |s| <= 4
  {
    if |s| < 3 || IsPad(s[2]) then 1 else if |s| < 4 || IsPad(s[3]) then 2 else 3
  }

  /** A lone character is out of range. Otherwise exactly the characters that carry bits need to be in a table, and the
      octets have the bits of their positions, but for those of the last that do not fill an octet. */
  lemma GroupDecodes(s: string)
    requires 1 <= |s| <= 4
    ensures var r, n := DecodeGroup(s), Octets(s);
      && (r.OutOfRange? <==> |s| == 1)
      && (r.Ok? <==> |s| > 1 && forall i | 0 <= i <= n :: PosOfChar(s[i]).Some?)
      && (r.Ok? ==> |r.value| == n)
  {
    hide PosOfChar, IsPad;
  }

  /** Positions and octets, back and forth. */
  lemma Regroup(p0: int, p1: int, p2: int, p3: int)
    requires 0 <= p0 < 64 && 0 <= p1 < 64 && 0 <= p2 < 64 && 0 <= p3 < 64
    ensures var b0, b1, b2 := p0 * 4 + p1 / 16, p1 % 16 * 16 + p2 / 4, p2 % 4 * 64 + p3;
      && b0 / 4 == p0 && b0 % 4 * 16 == p1 - p1 % 16 && b0 % 4 * 16 + b1 / 16 == p1
      && b1 % 16 * 4 == p2 - p2 % 4 && b1 % 16 * 4 + b2 / 64 == p2 && b2 % 64 == p3
  {
  }

  lemma GroupDecodesBits(s: string)
    requires 1 <= |s| <= 4 && DecodeGroup(s).Ok?
    ensures var g, n := DecodeGroup(s).value, Octets(s);
      && |g| == n && |s| > n && (forall i | 0 <= i < n :: PosOfChar(s[i]) == Some(Sextet(g, i)))
      && var last := PosOfChar(s[n]);
      && last.Some? && Sextet(g, n) == last.value - last.value % (if n == 1 then 16 else if n == 2 then 4 else 1)
  {
    GroupDecodes(s);
    var n := Octets(s);
    var p0, p1 := PosOfChar(s[0]).value, PosOfChar(s[1]).value;
    var p2 := if n > 1 then PosOfChar(s[2]).value else 0;
    var p3 := if n > 2 then PosOfChar(s[3]).value else 0;
    hide PosOfChar, IsPad, Sextet, DecodeGroup, Octets;
    GroupOctets(s, p0, p1, p2, p3);
    BitsBack(DecodeGroup(s).value, p0, p1, p2, p3);
  }

  lemma BitsBack(g: seq<byte>, p0: int, p1: int, p2: int, p3: int)
    requires 0 <= p0 < 64 && 0 <= p1 < 64 && 0 <= p2 < 64 && 0 <= p3 < 64
    requires 1 <= |g| <= 3 && g[0] == p0 * 4 + p1 / 16
    requires (|g| > 1 ==> g[1] == p1 % 16 * 16 + p2 / 4) && (|g| > 2 ==> g[2] == p2 % 4 * 64 + p3)
    ensures Sextet(g, 0) == p0 && Sextet(g, 1) == (if |g| == 1 then p1 - p1 % 16 else p1)
    ensures |g| > 1 ==> Sextet(g, 2) == if |g| == 2 then p2 - p2 % 4 else p2
    ensures |g| > 2 ==> Sextet(g, 3) == p3
  {
    GroupSextets(g);
    hide Sextet;
    Regroup(p0, p1, p2, p3);
  }

  lemma GroupOctets(s: string, p0: int, p1: int, p2: int, p3: int)
    requires 1 <= |s| <= 4 && DecodeGroup(s).Ok? && 0 <= p2 < 64 && 0 <= p3 < 64
    requires |s| > Octets(s) && PosOfChar(s[0]) == Some(p0) && PosOfChar(s[1]) == Some(p1)
    requires (Octets(s) > 1 ==> PosOfChar(s[2]) == Some(p2)) && (Octets(s) > 2 ==> PosOfChar(s[3]) == Some(p3))
    ensures var g, n := DecodeGroup(s).value, Octets(s);
      && |g| == n && g[0] == p0 * 4 + p1 / 16
      && (n > 1 ==> g[1] == p1 % 16 * 16 + p2 / 4) && (n > 2 ==> g[2] == p2 % 4 * 64 + p3)
  {
    hide PosOfChar, IsPad;
  }

  function Decode(s: string): Result<seq<byte>>
    decreases |s|
  {
    if s == [] then Ok([])
    else
      var n := if |s| < 4 then |s| else 4;
      match DecodeGroup(s[..n])
      case Ok(g) =>
        (match Decode(s[n..])
         case Ok(rest) => Ok(g + rest)
         case OutOfRange => OutOfRange
         case InvalidData => InvalidData)
      case OutOfRange => OutOfRange
      case InvalidData => InvalidData
  }

  lemma Recombine(g0: byte, g1: byte, g2: byte)
    ensures g0 / 4 * 4 + (g0 % 4 * 16) / 16 == g0
    ensures g0 / 4 * 4 + (g0 % 4 * 16 + g1 / 16) / 16 == g0
    ensures (g0 % 4 * 16 + g1 / 16) % 16 * 16 + (g1 % 16 * 4) / 4 == g1
    ensures (g0 % 4 * 16 + g1 / 16) % 16 * 16 + (g1 % 16 * 4 + g2 / 64) / 4 == g1
    ensures (g1 % 16 * 4 + g2 / 64) % 4 * 64 + g2 % 64 == g2
  {
  }

  /** Decoding four characters of known values, with as much padding as `pads` says. */
  lemma GroupOfValues(s: string, v0: int, v1: int, v2: int, v3: int, pads: nat)
    requires |s| == 4 && pads <= 2
    requires PosOfChar(s[0]) == Some(v0) && PosOfChar(s[1]) == Some(v1)
    requires if pads == 2 then IsPad(s[2]) else !IsPad(s[2]) && PosOfChar(s[2]) == Some(v2)
    requires if pads >= 1 then IsPad(s[3]) else !IsPad(s[3]) && PosOfChar(s[3]) == Some(v3)
    ensures DecodeGroup(s) == Ok(if pads == 2 then [v0 * 4 + v1 / 16]
                                 else if pads == 1 then [v0 * 4 + v1 / 16, v1 % 16 * 16 + v2 / 4]
                                 else [v0 * 4 + v1 / 16, v1 % 16 * 16 + v2 / 4, v2 % 4 * 64 + v3])
  {
    hide PosOfChar, IsPad;
  }

  lemma GroupOfOne(g0: byte, url: bool)
    ensures DecodeGroup(EncodeGroup([g0], url)) == Ok([g0])
  {
    var v0, v1 := g0 / 4, g0 % 4 * 16;
    CharRoundTrip(v0, url);
    CharRoundTrip(v1, url);
    assert IsPad(Pad(url));
    hide CharOf, PosOfChar, DecodeGroup, IsPad;
    GroupOfValues(EncodeGroup([g0], url), v0, v1, 0, 0, 2);
    Recombine(g0, 0, 0);
  }

  lemma GroupOfTwo(g0: byte, g1: byte, url: bool)
    ensures DecodeGroup(EncodeGroup([g0, g1], url)) == Ok([g0, g1])
  {
    var v0, v1, v2 := g0 / 4, g0 % 4 * 16 + g1 / 16, g1 % 16 * 4;
    CharRoundTrip(v0, url);
    CharRoundTrip(v1, url);
    CharRoundTrip(v2, url);
    assert IsPad(Pad(url));
    GroupOfValues(EncodeGroup([g0, g1], url), v0, v1, v2, 0, 1);
    hide CharOf, PosOfChar, DecodeGroup, IsPad, EncodeGroup;
    assert v0 * 4 + v1 / 16 == g0 && v1 % 16 * 16 + v2 / 4 == g1 by { Recombine(g0, g1, 0); }
  }

  lemma GroupOfThree(g0: byte, g1: byte, g2: byte, url: bool)
    ensures DecodeGroup(EncodeGroup([g0, g1, g2], url)) == Ok([g0, g1, g2])
  {
    var v0, v1, v2, v3 := g0 / 4, g0 % 4 * 16 + g1 / 16, g1 % 16 * 4 + g2 / 64, g2 % 64;
    CharRoundTrip(v0, url);
    CharRoundTrip(v1, url);
    CharRoundTrip(v2, url);
    CharRoundTrip(v3, url);
    hide CharOf, PosOfChar, DecodeGroup, IsPad;
    GroupOfValues(EncodeGroup([g0, g1, g2], url), v0, v1, v2, v3, 0);
    Recombine(g0, g1, g2);
  }

  lemma GroupRoundTrip(g: seq<byte>, url: bool)
    requires 1 <= |g| <= 3
    ensures DecodeGroup(EncodeGroup(g, url)) == Ok(g)
  {
    hide DecodeGroup, EncodeGroup;
    if |g| == 1 {
      GroupOfOne(g[0], url);
      assert g == [g[0]];
    } else if |g| == 2 {
      GroupOfTwo(g[0], g[1], url);
      assert g == [g[0], g[1]];
    } else {
      GroupOfThree(g[0], g[1], g[2], url);
      assert g == [g[0], g[1], g[2]];
    }
  }

  /** Decoding undoes encoding, for every octet string and both alphabets. */
  lemma {:induction false} RoundTrip(bs: seq<byte>, url: bool)
    ensures Decode(Encode(bs, url)) == Ok(bs)
    decreases |bs|
  {
    hide EncodeGroup, DecodeGroup;
    if |bs| == 0 {
    } else if |bs| <= 3 {
      GroupRoundTrip(bs, url);
      var s := Encode(bs, url);
      assert s[..4] == s && s[4..] == [];
      assert bs + [] == bs;
    } else {
      GroupRoundTrip(bs[..3], url);
      RoundTrip(bs[3..], url);
      var s := Encode(bs, url);
      assert s[..4] == EncodeGroup(bs[..3], url) && s[4..] == Encode(bs[3..], url);
      assert bs == bs[..3] + bs[3..];
    }
  }

  /** Two octet strings never share an encoding. */
  lemma EncodeInjective(a: seq<byte>, b: seq<byte>, urlA: bool, urlB: bool)
    requires Encode(a, urlA) == Encode(b, urlB)
    ensures a == b
  {
    RoundTrip(a, urlA);
    RoundTrip(b, urlB);
  }

  predicate NoNewlines(s: string) {
    forall i | 0 <= i < |s| :: s[i] != '\n'
  }

  lemma GroupHasNoNewlines(g: seq<byte>, url: bool)
    requires 1 <= |g| <= 3
    ensures NoNewlines(EncodeGroup(g, url))
  {
  }

  lemma {:induction false} EncodedHasNoNewlines(bs: seq<byte>, url: bool)
    ensures NoNewlines(Encode(bs, url))
    decreases |bs|
  {
    hide EncodeGroup;
    if 0 < |bs| <= 3 {
      GroupHasNoNewlines(bs, url);
    } else if |bs| > 3 {
      GroupHasNoNewlines(bs[..3], url);
      EncodedHasNoNewlines(bs[3..], url);
    }
  }

  // ---------------------------------------------------------------------------
  // The loops
  // ---------------------------------------------------------------------------

  function UpToThree(s: seq<byte>): (g: seq<byte>)
    ensures |g| == if |s| < 3 then |s| else 3
  {
    if |s| <= 3 then s else s[..3]
  }

  function UpToFour(s: string): (g: string)
    ensures |g| == if |s| < 4 then |s| else 4
  {
    if |s| <= 4 then s else s[..4]
  }

  /** The body of the encoding loop. */
  method EncodeOne(bytes: seq<byte>, pos: nat, url: bool) returns (group: string)
    requires pos < |bytes|
    ensures group == EncodeGroup(UpToThree(bytes[pos..]), url)
  {
    hide CharOf;
    ghost var octets := UpToThree(bytes[pos..]);
    assert forall i | 0 <= i < |octets| :: octets[i] == bytes[pos + i];
    var trailing := if url then '.' else '=';
    group := [CharOf(bytes[pos] / 4, url)];
    if pos + 1 < |bytes| {
      group := group + [CharOf(bytes[pos] % 4 * 16 + bytes[pos + 1] / 16, url)];
      if pos + 2 < |bytes| {
        group := group + [CharOf(bytes[pos + 1] % 16 * 4 + bytes[pos + 2] / 64, url)];
        group := group + [CharOf(bytes[pos + 2] % 64, url)];
      } else {
        group := group + [CharOf(bytes[pos + 1] % 16 * 4, url)];
        group := group + [trailing];
      }
    } else {
      group := group + [CharOf(bytes[pos] % 4 * 16, url)];
      group := group + [trailing, trailing];
    }
  }

  method Base64Encode(bytes: seq<byte>, url: bool) returns (ret: string)
    ensures ret == Encode(bytes, url)
    ensures |ret| == (|bytes| + 2) / 3 * 4 && forall i | 0 <= i < |ret| :: IsEncoded(ret[i], bytes, i, url)
  {
    forall i | 0 <= i < (|bytes| + 2) / 3 * 4 ensures IsEncoded(Encode(bytes, url)[i], bytes, i, url) {
      EncodesBits(bytes, i, url);
    }
    hide EncodeGroup, Encode, UpToThree, IsEncoded;
    ret := [];
    var pos := 0;
    ghost var rest := bytes;
    Finished(bytes, url);
    while pos < |bytes|
      invariant rest == From(bytes, pos) && ret + Encode(rest, url) == Encode(bytes, url)
    {
      var group := EncodeOne(bytes, pos, url);
      FirstGroup(rest, url);
      ConcatAssoc(ret, group, Encode(From(rest, 3), url));
      ret := ret + group;
      rest := From(rest, 3);
      pos := pos + 3;
    }
    Finished(ret, url);
  }

  /** What follows position `pos`, if anything does. */
  ghost function From<T>(s: seq<T>, pos: nat): seq<T> {
    if pos < |s| then s[pos..] else []
  }

  lemma Finished<T>(ret: seq<T>, url: bool)
    ensures Encode([], url) == [] && [] + ret == ret == ret + []
  {
  }

  lemma FirstGroup(rest: seq<byte>, url: bool)
    requires rest != []
    ensures Encode(rest, url) == EncodeGroup(UpToThree(rest), url) + Encode(From(rest, 3), url)
  {
    if |rest| <= 3 {
      Finished(EncodeGroup(rest, url), url);
    }
  }

  method Base64Decode(s: string, removeLinebreaks: bool) returns (ret: Result<seq<byte>>)
    ensures ret == Decode(if removeLinebreaks then WithoutNewlines(s) else s)
    decreases removeLinebreaks
  {
    if s == [] { return Ok([]); }
    if removeLinebreaks {
      ret := Base64Decode(WithoutNewlines(s), false);
      return;
    }
    hide DecodeGroup, Decode, Prepend, UpToFour;
    var out: seq<byte> := [];
    var pos := 0;
    ghost var rest := s;
    PrependTwice([], [], Decode(s));
    while pos < |s|
      invariant rest == From(s, pos) && Prepend(out, Decode(rest)) == Decode(s)
    {
      DecodeFirst(rest);
      PrependFails(out);
      var group := DecodeOne(s, pos);
      match group {
        case OutOfRange => return OutOfRange;
        case InvalidData => return InvalidData;
        case Ok(g) =>
          PrependTwice(out, g, Decode(From(rest, 4)));
          out := out + g;
          rest := From(rest, 4);
          pos := pos + 4;
      }
    }
    NothingMore(out);
    return Ok(out);
  }

  lemma PrependFails(out: seq<byte>)
    ensures Prepend(out, OutOfRange) == OutOfRange && Prepend(out, InvalidData) == InvalidData
  {
  }

  lemma NothingMore(out: seq<byte>)
    ensures Prepend(out, Decode([])) == Ok(out)
  {
    assert out + [] == out;
  }

  /** The body of the decoding loop; the two error values stand for the exceptions it throws. */
  method DecodeOne(s: string, pos: nat) returns (ret: Result<seq<byte>>)
    requires pos < |s|
    ensures ret == DecodeGroup(UpToFour(s[pos..]))
  {
    hide PosOfChar;
    ghost var t := UpToFour(s[pos..]);
    assert forall i | 0 <= i < |t| :: t[i] == s[pos + i];
    if pos + 1 >= |s| { return OutOfRange; }
    var p1 := PosOfChar(s[pos + 1]);
    if p1.None? { return InvalidData; }
    var p0 := PosOfChar(s[pos]);
    if p0.None? { return InvalidData; }
    var group: seq<byte> := [p0.value * 4 + p1.value / 16];
    if pos + 2 < |s| && !IsPad(s[pos + 2]) {
      var p2 := PosOfChar(s[pos + 2]);
      if p2.None? { return InvalidData; }
      group := group + [p1.value % 16 * 16 + p2.value / 4];
      assert group == [p0.value * 4 + p1.value / 16, p1.value % 16 * 16 + p2.value / 4];
      if pos + 3 < |s| && !IsPad(s[pos + 3]) {
        var p3 := PosOfChar(s[pos + 3]);
        if p3.None? { return InvalidData; }
        group := group + [p2.value % 4 * 64 + p3.value];
        GroupOfValues(t, p0.value, p1.value, p2.value, p3.value, 0);
        assert group == [p0.value * 4 + p1.value / 16, p1.value % 16 * 16 + p2.value / 4, p2.value % 4 * 64 + p3.value];
      }
    }
    return Ok(group);
  }

  function Prepend(g: seq<byte>, r: Result<seq<byte>>): Result<seq<byte>> {
    match r
    case Ok(rest) => Ok(g + rest)
    case OutOfRange => OutOfRange
    case InvalidData => InvalidData
  }

  lemma PrependTwice(a: seq<byte>, b: seq<byte>, r: Result<seq<byte>>)
    ensures Prepend(a, Prepend(b, r)) == Prepend(a + b, r)
    ensures Prepend([], r) == r
  {
    if r.Ok? {
      ConcatAssoc(a, b, r.value);
      assert [] + r.value == r.value;
    }
  }

  lemma DecodeFirst(s: string)
    requires s != []
    ensures Decode(s) == match DecodeGroup(UpToFour(s))
                         case Ok(g) => Prepend(g, Decode(From(s, 4)))
                         case OutOfRange => OutOfRange
                         case InvalidData => InvalidData
  {
    hide DecodeGroup;
    var n := if |s| < 4 then |s| else 4;
    assert s[..n] == UpToFour(s) && s[n..] == From(s, 4);
  }

  // ---------------------------------------------------------------------------
  // Line breaks
  // ---------------------------------------------------------------------------

  /** A newline after every full line that is followed by something. */
  function InLines(s: string, width: nat): string
    requires width > 0
    decreases |s|
  {
    if |s| <= width then s else s[..width] + ['\n'] + InLines(s[width..], width)
  }

  function WithoutNewlines(s: string): string {
    if s == [] then [] else if s[0] == '\n' then WithoutNewlines(s[1..]) else [s[0]] + WithoutNewlines(s[1..])
  }

  /** Insertion at growing positions of the growing string. */
  method InsertLinebreaks(str: string, distance: nat) returns (r: string)
    requires distance > 0
    ensures r == InLines(str, distance)
  {
    if |str| == 0 { return ""; }
    r := str;
    var pos := distance;
    ghost var rest := str;
    while pos < |r|
      invariant distance <= pos && |rest| == |r| - (pos - distance)
      invariant r[..pos - distance] + InLines(rest, distance) == InLines(str, distance)
      invariant r[pos - distance..] == rest
      decreases |r| - pos
    {
      ghost var start := pos - distance;
      ghost var old_r := r;
      r := r[..pos] + ['\n'] + r[pos..];
      InsertOne(old_r[..start], rest, distance);
      rest := rest[distance..];
      pos := pos + distance + 1;
      assert r[..pos - distance] == old_r[..start] + (old_r[start..][..distance] + ['\n']);
    }
    assert r == r[..pos - distance] + rest;
  }

  lemma InsertOne(front: string, rest: string, distance: nat)
    requires 0 < distance < |rest|
    ensures front + InLines(rest, distance) ==
            front + (rest[..distance] + ['\n']) + InLines(rest[distance..], distance)
  {
    ConcatAssoc(front, rest[..distance] + ['\n'], InLines(rest[distance..], distance));
  }

  lemma {:induction false} WithoutNewlinesConcat(a: string, b: string)
    ensures WithoutNewlines(a + b) == WithoutNewlines(a) + WithoutNewlines(b)
  {
    if a == [] {
      assert a + b == b;
    } else {
      assert (a + b)[1..] == a[1..] + b;
      WithoutNewlinesConcat(a[1..], b);
    }
  }

  lemma {:induction false} NothingToRemove(s: string)
    requires NoNewlines(s)
    ensures WithoutNewlines(s) == s
  {
    if s != [] {
      assert NoNewlines(s[1..]);
      NothingToRemove(s[1..]);
      assert s == [s[0]] + s[1..];
    }
  }

  lemma {:induction false} LinesRoundTrip(s: string, width: nat)
    requires width > 0 && NoNewlines(s)
    ensures WithoutNewlines(InLines(s, width)) == s
    decreases |s|
  {
    if |s| <= width {
      NothingToRemove(s);
    } else {
      var line, rest := s[..width], s[width..];
      WithoutNewlinesConcat(line + ['\n'], InLines(rest, width));
      WithoutNewlinesConcat(line, ['\n']);
      assert WithoutNewlines(['\n']) == [] by { assert ['\n'][1..] == []; }
      NothingToRemove(line);
      LinesRoundTrip(rest, width);
      assert line + [] == line && s == line + rest;
    }
  }

  lemma ModSmall(n: nat, m: nat)
    requires n < m
    ensures n % m == n
  {
  }

  lemma ModStep(n: nat, m: nat)
    requires 0 < m <= n
    ensures n % m == (n - m) % m
  {
    var q, r := (n - m) / m, (n - m) % m;
    assert n == m * (q + 1) + r;
    DivUnique(n, m, q + 1, r);
  }

  /** Newlines stand exactly behind every `width` characters, so no line is longer than `width`. */
  lemma {:induction false} LinesHaveWidth(s: string, width: nat, i: nat)
    requires width > 0 && NoNewlines(s) && i < |InLines(s, width)|
    ensures InLines(s, width)[i] == '\n' <==> i % (width + 1) == width
    decreases |s|
  {
    if |s| > width && i > width {
      LinesHaveWidth(s[width..], width, i - (width + 1));
      ModStep(i, width + 1);
    } else {
      ModSmall(i, width + 1);
    }
  }

  method EncodePem(bytes: seq<byte>) returns (s: string)
    ensures s == InLines(Encode(bytes, false), 64)
  {
    var flat := Base64Encode(bytes, false);
    s := InsertLinebreaks(flat, 64);
  }

  method EncodeMime(bytes: seq<byte>) returns (s: string)
    ensures s == InLines(Encode(bytes, false), 76)
  {
    var flat := Base64Encode(bytes, false);
    s := InsertLinebreaks(flat, 76);
  }

  /** Decoding with line-break removal undoes the PEM and MIME forms, and any other width. */
  lemma WrappedRoundTrip(bs: seq<byte>, url: bool, width: nat)
    requires width > 0
    ensures Decode(WithoutNewlines(InLines(Encode(bs, url), width))) == Ok(bs)
  {
    EncodedHasNoNewlines(bs, url);
    LinesRoundTrip(Encode(bs, url), width);
    RoundTrip(bs, url);
  }
}
