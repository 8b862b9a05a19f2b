/** SHA-1: FIPS 180-4 as a specification, and the unrolled, streaming implementation that meets it. */
module Sha1 {
  type octet = bv8
  type word = bv32

  // ---------------------------------------------------------------------------
  // FIPS 180-4
  // ---------------------------------------------------------------------------

  /** Section 3.2: circular left shift. */
  function RotL(x: word, n: nat): word
    requires n <= 32
  {
    (x << n) | (x >> (32 - n))
  }

  /** Section 4.1.1. */
  function Ch(x: word, y: word, z: word): word { (x & y) ^ (!x & z) }

  function Parity(x: word, y: word, z: word): word { x ^ y ^ z }

  function Maj(x: word, y: word, z: word): word { (x & y) ^ (x & z) ^ (y & z) }

  function F(t: nat, x: word, y: word, z: word): word {
    if t < 20 then Ch(x, y, z) else if t < 40 then Parity(x, y, z) else if t < 60 then Maj(x, y, z) else Parity(x, y, z)
  }

  /** Section 4.2.1. */
  function K(t: nat): word {
    if t < 20 then 0x5a827999 else if t < 40 then 0x6ed9eba1 else if t < 60 then 0x8f1bbcdc else 0xca62c1d6
  }

  /** The working variables, or a hash value. */
  datatype Five = Five(a: word, b: word, c: word, d: word, e: word)

  /** Section 5.3.1. */
  const IV := Five(0x67452301, 0xefcdab89, 0x98badcfe, 0x10325476, 0xc3d2e1f0)

  /** Section 6.1.2, step 1: the message schedule. */
  function Schedule(m: seq<word>, t: nat): word
    requires |m| == 16
  {
    if t < 16 then m[t]
    else RotL(Schedule(m, t - 3) ^ Schedule(m, t - 8) ^ Schedule(m, t - 14) ^ Schedule(m, t - 16), 1)
  }

  /** The sum T of step 3, modulo 2^32. */
  function Temp(rotated: word, f: word, e: word, k: word, w: word): word {
    rotated + f + e + k + w
  }

  /** Step 3: one round. */
  function Round(s: Five, t: nat, w: word): Five {
    Five(Temp(RotL(s.a, 5), F(t, s.b, s.c, s.d), s.e, K(t), w), s.a, RotL(s.b, 30), s.c, s.d)
  }

  function Rounds(h: Five, m: seq<word>, t: nat): Five
    requires |m| == 16
  {
    if t == 0 then h else Round(Rounds(h, m, t - 1), t - 1, Schedule(m, t - 1))
  }

  /** Addition modulo 2^32. */
  function Plus(x: word, y: word): word { x + y }

  function Add(h: Five, s: Five): Five {
    Five(Plus(h.a, s.a), Plus(h.b, s.b), Plus(h.c, s.c), Plus(h.d, s.d), Plus(h.e, s.e))
  }

  /** Steps 2 to 4. */
  function Compress(h: Five, m: seq<word>): Five
    requires |m| == 16
  {
    Add(h, Rounds(h, m, 80))
  }

  function WordOf(b0: octet, b1: octet, b2: octet, b3: octet): word {
    (b0 as word << 24) | (b1 as word << 16) | (b2 as word << 8) | b3 as word
  }

  /** Section 5.2.1: a block of 64 octets as 16 words. */
  function Words(bs: seq<octet>): (m: seq<word>)
    requires |bs| == 64
    ensures |m| == 16
  {
    seq(16, i requires 0 <= i < 16 => WordOf(bs[4 * i], bs[4 * i + 1], bs[4 * i + 2], bs[4 * i + 3]))
  }

  function HashBlocks(h: Five, bs: seq<octet>): Five
    requires |bs| % 64 == 0
    decreases |bs|
  {
    if bs == [] then h else HashBlocks(Compress(h, Words(bs[..64])), bs[64..])
  }

  /** The 64-bit length, most significant octet first. */
  function BitLengthOctets(bits: bv64): (s: seq<octet>)
    ensures |s| == 8
  {
    [((bits >> 56) & 0xff) as octet, ((bits >> 48) & 0xff) as octet,
     ((bits >> 40) & 0xff) as octet, ((bits >> 32) & 0xff) as octet,
     ((bits >> 24) & 0xff) as octet, ((bits >> 16) & 0xff) as octet,
     ((bits >> 8) & 0xff) as octet, (bits & 0xff) as octet]
  }

  function Zeros(n: nat): (s: seq<octet>)
    ensures |s| == n
  {
    seq(n, i => 0)
  }

  const MAX_OCTETS: nat := 0x2000_0000_0000_0000

  function BitLength(octets: nat): bv64
    requires octets < MAX_OCTETS
  {
    (octets * 8) as bv64
  }

  /** Zero octets between the one bit and the length. */
  function ZeroCount(octets: nat): nat {
    (119 - octets % 64) % 64
  }

  lemma PaddingFits(octets: nat)
    ensures (octets + 1 + ZeroCount(octets) + 8) % 64 == 0
  {
    var r := octets % 64;
    assert octets == 64 * (octets / 64) + r;
    assert (r + 1 + ZeroCount(octets) + 8) % 64 == 0;
  }

  /** Section 5.1.1: a one bit, the fewest zero bits that fill up to 448 modulo 512, the length. */
  function Padding(octets: nat): (p: seq<octet>)
    requires octets < MAX_OCTETS
    ensures (octets + |p|) % 64 == 0
  {
    PaddingFits(octets);
    [0x80] + Zeros(ZeroCount(octets)) + BitLengthOctets(BitLength(octets))
  }

  /** SHA-1 of a message, which the standard limits to fewer than 2^64 bits. */
  function Hash(message: seq<octet>): Five
    requires |message| < MAX_OCTETS
  {
    HashBlocks(IV, message + Padding(|message|))
  }

  // ---------------------------------------------------------------------------
  // The circular schedule and the rotated registers
  // ---------------------------------------------------------------------------

  /** Before round `t` the sixteen words of the block are the sixteen latest words of the schedule, word `s`
      in place `s % 16`. */
  ghost predicate Circular(block: seq<word>, m: seq<word>, t: nat)
    requires |m| == 16
  {
    && |block| == 16
    && var lo := if t <= 16 then 0 else t - 16;
       forall s {:trigger Schedule(m, s)} | lo <= s < lo + 16 :: block[s % 16] == Schedule(m, s)
  }

  function Blk(block: seq<word>, i: nat): word
    requires |block| == 16 && i < 16
  {
    RotL(block[(i + 13) % 16] ^ block[(i + 8) % 16] ^ block[(i + 2) % 16] ^ block[i], 1)
  }

  lemma Mod16(x: nat, q: nat, r: nat)
    requires x == 16 * q + r && r < 16
    ensures x % 16 == r
  {
  }

  /** Going back `d` words in a circle of sixteen is going on `16 - d`. */
  lemma PlaceBack(t: nat, d: nat)
    requires t >= 16 && 0 < d <= 16
    ensures (t % 16 + (16 - d)) % 16 == (t - d) % 16
  {
    var q, i := t / 16, t % 16;
    assert t == 16 * q + i;
    if i >= d {
      Mod16(t - d, q, i - d);
      Mod16(i + 16 - d, 1, i - d);
    } else {
      Mod16(t - d, q - 1, i + 16 - d);
      Mod16(i + 16 - d, 0, i + 16 - d);
    }
  }

  lemma PlacesDiffer(s: nat, t: nat)
    requires s < t < s + 16
    ensures s % 16 != t % 16
  {
    var q, i := s / 16, s % 16;
    assert s == 16 * q + i;
    var n := t - s + i;
    if n < 16 {
      Mod16(t, q, n);
    } else {
      Mod16(t, q + 1, n - 16);
    }
  }

  lemma ScheduleStep(m: seq<word>, t: nat)
    requires |m| == 16 && t >= 16
    ensures Schedule(m, t) ==
            RotL(Schedule(m, t - 3) ^ Schedule(m, t - 8) ^ Schedule(m, t - 14) ^ Schedule(m, t - 16), 1)
  {
  }

  lemma CircularAt(block: seq<word>, m: seq<word>, t: nat, s: nat)
    requires |m| == 16 && t >= 16 && Circular(block, m, t) && t - 16 <= s < t
    ensures block[s % 16] == Schedule(m, s)
  {
  }

  lemma NextScheduleWord(block: seq<word>, m: seq<word>, t: nat)
    requires |m| == 16 && t >= 16 && Circular(block, m, t)
    ensures Blk(block, t % 16) == Schedule(m, t)
  {
    hide Schedule, RotL, Circular;
    PlaceBack(t, 3);
    PlaceBack(t, 8);
    PlaceBack(t, 14);
    PlaceBack(t, 16);
    Mod16(t % 16, 0, t % 16);
    CircularAt(block, m, t, t - 3);
    CircularAt(block, m, t, t - 8);
    CircularAt(block, m, t, t - 14);
    CircularAt(block, m, t, t - 16);
    ScheduleStep(m, t);
  }

  lemma CircularNext(block: seq<word>, m: seq<word>, t: nat)
    requires |m| == 16 && t >= 16 && Circular(block, m, t)
    ensures Circular(block[t % 16 := Schedule(m, t)], m, t + 1)
  {
    hide Schedule;
    var b' := block[t % 16 := Schedule(m, t)];
    forall s | t - 15 <= s < t + 1 ensures b'[s % 16] == Schedule(m, s) {
      if s < t { PlacesDiffer(s, t); }
    }
  }

  lemma ChFast(w: word, x: word, y: word)
    ensures ((w & (x ^ y)) ^ y) == Ch(w, x, y)
  {
  }

  lemma MajFast(w: word, x: word, y: word)
    ensures (((w | x) & y) | (w & x)) == Maj(w, x, y)
  {
  }

  /** The same sum in the order the implementation adds, `z += f + block + k + rotated`. */
  function Mix(z: word, f: word, b: word, k: word, rotated: word): word {
    z + (((f + b) + k) + rotated)
  }

  lemma SumOrder(z: word, f: word, b: word, k: word, rotated: word)
    ensures Mix(z, f, b, k, rotated) == Temp(rotated, f, z, k, b)
  {
  }

  /** The registers under their rotated names are the working variables before round `t`. */
  ghost predicate InRound(h: Five, m: seq<word>, t: nat, v: word, w: word, x: word, y: word, z: word)
    requires |m| == 16
  {
    Five(v, w, x, y, z) == Rounds(h, m, t)
  }

  function FiveOf(d: seq<word>): Five
    requires |d| == 5
  {
    Five(d[0], d[1], d[2], d[3], d[4])
  }

  lemma StartOfRounds(h: Five, m: seq<word>)
    requires |m| == 16
    ensures Circular(m, m, 0) && InRound(h, m, 0, h.a, h.b, h.c, h.d, h.e)
  {
  }

  lemma FinishRounds(h: Five, m: seq<word>, a: word, b: word, c: word, d: word, e: word)
    requires |m| == 16 && InRound(h, m, 80, a, b, c, d, e)
    ensures Compress(h, m) == Add(h, Five(a, b, c, d, e))
  {
    hide Rounds;
  }

  /** One round turns the registers (v, w, x, y, z) into (z', v, w', x, y). */
  lemma RoundStep(h: Five, m: seq<word>, t: nat, v: word, w: word, x: word, y: word, z: word)
    requires |m| == 16 && InRound(h, m, t, v, w, x, y, z)
    ensures InRound(h, m, t + 1, Mix(z, F(t, w, x, y), Schedule(m, t), K(t), RotL(v, 5)), v, RotL(w, 30), x, y)
  {
    SumOrder(z, F(t, w, x, y), Schedule(m, t), K(t), RotL(v, 5));
    hide Mix, Temp, F, K, RotL, Schedule;
  }

  method R0(block: array<word>, v: word, w: word, x: word, y: word, z: word, i: nat,
            ghost h: Five, ghost m: seq<word>, ghost t: nat) returns (w': word, z': word)
    requires block.Length == 16 && |m| == 16 && t < 16 && i == t
    requires Circular(block[..], m, t) && InRound(h, m, t, v, w, x, y, z)
    ensures Circular(block[..], m, t + 1) && InRound(h, m, t + 1, z', v, w', x, y)
  {
    assert block[..][t % 16] == Schedule(m, t);
    ChFast(w, x, y);
    RoundStep(h, m, t, v, w, x, y, z);
    hide Schedule, Ch, Mix, RotL, Rounds;
    z' := Mix(z, ((w & (x ^ y)) ^ y), block[i], 0x5a827999, RotL(v, 5));
    w' := RotL(w, 30);
  }

  /** The schedule step shared by R1 to R4. */
  method Advance(block: array<word>, i: nat, ghost m: seq<word>, ghost t: nat)
    requires block.Length == 16 && |m| == 16 && t >= 16 && i == t % 16 && Circular(block[..], m, t)
    modifies block
    ensures Circular(block[..], m, t + 1) && block[i] == Schedule(m, t)
  {
    NextScheduleWord(block[..], m, t);
    CircularNext(block[..], m, t);
    hide Schedule, Circular;
    block[i] := Blk(block[..], i);
    assert block[..] == old(block[..])[i := Schedule(m, t)];
  }

  method R1(block: array<word>, v: word, w: word, x: word, y: word, z: word, i: nat,
            ghost h: Five, ghost m: seq<word>, ghost t: nat) returns (w': word, z': word)
    requires block.Length == 16 && |m| == 16 && 16 <= t < 20 && i == t % 16
    requires Circular(block[..], m, t) && InRound(h, m, t, v, w, x, y, z)
    modifies block
    ensures Circular(block[..], m, t + 1) && InRound(h, m, t + 1, z', v, w', x, y)
  {
    Advance(block, i, m, t);
    ChFast(w, x, y);
    RoundStep(h, m, t, v, w, x, y, z);
    hide Schedule, Ch, Mix, RotL, Rounds;
    z' := Mix(z, ((w & (x ^ y)) ^ y), block[i], 0x5a827999, RotL(v, 5));
    w' := RotL(w, 30);
  }

  method R2(block: array<word>, v: word, w: word, x: word, y: word, z: word, i: nat,
            ghost h: Five, ghost m: seq<word>, ghost t: nat) returns (w': word, z': word)
    requires block.Length == 16 && |m| == 16 && 20 <= t < 40 && i == t % 16
    requires Circular(block[..], m, t) && InRound(h, m, t, v, w, x, y, z)
    modifies block
    ensures Circular(block[..], m, t + 1) && InRound(h, m, t + 1, z', v, w', x, y)
  {
    Advance(block, i, m, t);
    RoundStep(h, m, t, v, w, x, y, z);
    hide Schedule, Mix, RotL, Rounds;
    z' := Mix(z, (w ^ x ^ y), block[i], 0x6ed9eba1, RotL(v, 5));
    w' := RotL(w, 30);
  }

  method R3(block: array<word>, v: word, w: word, x: word, y: word, z: word, i: nat,
            ghost h: Five, ghost m: seq<word>, ghost t: nat) returns (w': word, z': word)
    requires block.Length == 16 && |m| == 16 && 40 <= t < 60 && i == t % 16
    requires Circular(block[..], m, t) && InRound(h, m, t, v, w, x, y, z)
    modifies block
    ensures Circular(block[..], m, t + 1) && InRound(h, m, t + 1, z', v, w', x, y)
  {
    Advance(block, i, m, t);
    MajFast(w, x, y);
    RoundStep(h, m, t, v, w, x, y, z);
    hide Schedule, Maj, Mix, RotL, Rounds;
    z' := Mix(z, (((w | x) & y) | (w & x)), block[i], 0x8f1bbcdc, RotL(v, 5));
    w' := RotL(w, 30);
  }

  method R4(block: array<word>, v: word, w: word, x: word, y: word, z: word, i: nat,
            ghost h: Five, ghost m: seq<word>, ghost t: nat) returns (w': word, z': word)
    requires block.Length == 16 && |m| == 16 && 60 <= t < 80 && i == t % 16
    requires Circular(block[..], m, t) && InRound(h, m, t, v, w, x, y, z)
    modifies block
    ensures Circular(block[..], m, t + 1) && InRound(h, m, t + 1, z', v, w', x, y)
  {
    Advance(block, i, m, t);
    RoundStep(h, m, t, v, w, x, y, z);
    hide Schedule, Mix, RotL, Rounds;
    z' := Mix(z, (w ^ x ^ y), block[i], 0xca62c1d6, RotL(v, 5));
    w' := RotL(w, 30);
  }

  method FirstTwenty(block: array<word>, a0: word, b0: word, c0: word, d0: word, e0: word, ghost h: Five, ghost m: seq<word>)
    returns (a: word, b: word, c: word, d: word, e: word)
    requires block.Length == 16 && |m| == 16
    requires Circular(block[..], m, 0) && InRound(h, m, 0, a0, b0, c0, d0, e0)
    modifies block
    ensures Circular(block[..], m, 20) && InRound(h, m, 20, a, b, c, d, e)
  {
    hide Schedule, Rounds, Circular, InRound;
    a, b, c, d, e := a0, b0, c0, d0, e0;
    b, e := R0(block, a, b, c, d, e, 0, h, m, 0);
    a, d := R0(block, e, a, b, c, d, 1, h, m, 1);
    e, c := R0(block, d, e, a, b, c, 2, h, m, 2);
    d, b := R0(block, c, d, e, a, b, 3, h, m, 3);
    c, a := R0(block, b, c, d, e, a, 4, h, m, 4);
    b, e := R0(block, a, b, c, d, e, 5, h, m, 5);
    a, d := R0(block, e, a, b, c, d, 6, h, m, 6);
    e, c := R0(block, d, e, a, b, c, 7, h, m, 7);
    d, b := R0(block, c, d, e, a, b, 8, h, m, 8);
    c, a := R0(block, b, c, d, e, a, 9, h, m, 9);
    b, e := R0(block, a, b, c, d, e, 10, h, m, 10);
    a, d := R0(block, e, a, b, c, d, 11, h, m, 11);
    e, c := R0(block, d, e, a, b, c, 12, h, m, 12);
    d, b := R0(block, c, d, e, a, b, 13, h, m, 13);
    c, a := R0(block, b, c, d, e, a, 14, h, m, 14);
    b, e := R0(block, a, b, c, d, e, 15, h, m, 15);
    a, d := R1(block, e, a, b, c, d, 0, h, m, 16);
    e, c := R1(block, d, e, a, b, c, 1, h, m, 17);
    d, b := R1(block, c, d, e, a, b, 2, h, m, 18);
    c, a := R1(block, b, c, d, e, a, 3, h, m, 19);
  }

  method SecondTwenty(block: array<word>, a0: word, b0: word, c0: word, d0: word, e0: word, ghost h: Five, ghost m: seq<word>)
    returns (a: word, b: word, c: word, d: word, e: word)
    requires block.Length == 16 && |m| == 16
    requires Circular(block[..], m, 20) && InRound(h, m, 20, a0, b0, c0, d0, e0)
    modifies block
    ensures Circular(block[..], m, 40) && InRound(h, m, 40, a, b, c, d, e)
  {
    hide Schedule, Rounds, Circular, InRound;
    a, b, c, d, e := a0, b0, c0, d0, e0;
    b, e := R2(block, a, b, c, d, e, 4, h, m, 20);
    a, d := R2(block, e, a, b, c, d, 5, h, m, 21);
    e, c := R2(block, d, e, a, b, c, 6, h, m, 22);
    d, b := R2(block, c, d, e, a, b, 7, h, m, 23);
    c, a := R2(block, b, c, d, e, a, 8, h, m, 24);
    b, e := R2(block, a, b, c, d, e, 9, h, m, 25);
    a, d := R2(block, e, a, b, c, d, 10, h, m, 26);
    e, c := R2(block, d, e, a, b, c, 11, h, m, 27);
    d, b := R2(block, c, d, e, a, b, 12, h, m, 28);
    c, a := R2(block, b, c, d, e, a, 13, h, m, 29);
    b, e := R2(block, a, b, c, d, e, 14, h, m, 30);
    a, d := R2(block, e, a, b, c, d, 15, h, m, 31);
    e, c := R2(block, d, e, a, b, c, 0, h, m, 32);
    d, b := R2(block, c, d, e, a, b, 1, h, m, 33);
    c, a := R2(block, b, c, d, e, a, 2, h, m, 34);
    b, e := R2(block, a, b, c, d, e, 3, h, m, 35);
    a, d := R2(block, e, a, b, c, d, 4, h, m, 36);
    e, c := R2(block, d, e, a, b, c, 5, h, m, 37);
    d, b := R2(block, c, d, e, a, b, 6, h, m, 38);
    c, a := R2(block, b, c, d, e, a, 7, h, m, 39);
  }

  method ThirdTwenty(block: array<word>, a0: word, b0: word, c0: word, d0: word, e0: word, ghost h: Five, ghost m: seq<word>)
    returns (a: word, b: word, c: word, d: word, e: word)
    requires block.Length == 16 && |m| == 16
    requires Circular(block[..], m, 40) && InRound(h, m, 40, a0, b0, c0, d0, e0)
    modifies block
    ensures Circular(block[..], m, 60) && InRound(h, m, 60, a, b, c, d, e)
  {
    hide Schedule, Rounds, Circular, InRound;
    a, b, c, d, e := a0, b0, c0, d0, e0;
    b, e := R3(block, a, b, c, d, e, 8, h, m, 40);
    a, d := R3(block, e, a, b, c, d, 9, h, m, 41);
    e, c := R3(block, d, e, a, b, c, 10, h, m, 42);
    d, b := R3(block, c, d, e, a, b, 11, h, m, 43);
    c, a := R3(block, b, c, d, e, a, 12, h, m, 44);
    b, e := R3(block, a, b, c, d, e, 13, h, m, 45);
    a, d := R3(block, e, a, b, c, d, 14, h, m, 46);
    e, c := R3(block, d, e, a, b, c, 15, h, m, 47);
    d, b := R3(block, c, d, e, a, b, 0, h, m, 48);
    c, a := R3(block, b, c, d, e, a, 1, h, m, 49);
    b, e := R3(block, a, b, c, d, e, 2, h, m, 50);
    a, d := R3(block, e, a, b, c, d, 3, h, m, 51);
    e, c := R3(block, d, e, a, b, c, 4, h, m, 52);
    d, b := R3(block, c, d, e, a, b, 5, h, m, 53);
    c, a := R3(block, b, c, d, e, a, 6, h, m, 54);
    b, e := R3(block, a, b, c, d, e, 7, h, m, 55);
    a, d := R3(block, e, a, b, c, d, 8, h, m, 56);
    e, c := R3(block, d, e, a, b, c, 9, h, m, 57);
    d, b := R3(block, c, d, e, a, b, 10, h, m, 58);
    c, a := R3(block, b, c, d, e, a, 11, h, m, 59);
  }

  method FourthTwenty(block: array<word>, a0: word, b0: word, c0: word, d0: word, e0: word, ghost h: Five, ghost m: seq<word>)
    returns (a: word, b: word, c: word, d: word, e: word)
    requires block.Length == 16 && |m| == 16
    requires Circular(block[..], m, 60) && InRound(h, m, 60, a0, b0, c0, d0, e0)
    modifies block
    ensures Circular(block[..], m, 80) && InRound(h, m, 80, a, b, c, d, e)
  {
    hide Schedule, Rounds, Circular, InRound;
    a, b, c, d, e := a0, b0, c0, d0, e0;
    b, e := R4(block, a, b, c, d, e, 12, h, m, 60);
    a, d := R4(block, e, a, b, c, d, 13, h, m, 61);
    e, c := R4(block, d, e, a, b, c, 14, h, m, 62);
    d, b := R4(block, c, d, e, a, b, 15, h, m, 63);
    c, a := R4(block, b, c, d, e, a, 0, h, m, 64);
    b, e := R4(block, a, b, c, d, e, 1, h, m, 65);
    a, d := R4(block, e, a, b, c, d, 2, h, m, 66);
    e, c := R4(block, d, e, a, b, c, 3, h, m, 67);
    d, b := R4(block, c, d, e, a, b, 4, h, m, 68);
    c, a := R4(block, b, c, d, e, a, 5, h, m, 69);
    b, e := R4(block, a, b, c, d, e, 6, h, m, 70);
    a, d := R4(block, e, a, b, c, d, 7, h, m, 71);
    e, c := R4(block, d, e, a, b, c, 8, h, m, 72);
    d, b := R4(block, c, d, e, a, b, 9, h, m, 73);
    c, a := R4(block, b, c, d, e, a, 10, h, m, 74);
    b, e := R4(block, a, b, c, d, e, 11, h, m, 75);
    a, d := R4(block, e, a, b, c, d, 12, h, m, 76);
    e, c := R4(block, d, e, a, b, c, 13, h, m, 77);
    d, b := R4(block, c, d, e, a, b, 14, h, m, 78);
    c, a := R4(block, b, c, d, e, a, 15, h, m, 79);
  }

  /** Hash one block: four rounds of twenty operations each, unrolled; the registers change names instead of
      contents. */
  method Transform(digest: array<word>, block: array<word>)
    requires digest.Length == 5 && block.Length == 16 && digest != block
    modifies digest, block
    ensures FiveOf(digest[..]) == Compress(old(FiveOf(digest[..])), old(block[..]))
  {
    ghost var h, m := FiveOf(digest[..]), block[..];
    var a, b, c, d, e := digest[0], digest[1], digest[2], digest[3], digest[4];
    StartOfRounds(h, m);
    hide Schedule, Rounds, Circular, InRound, Compress, Plus;
    a, b, c, d, e := FirstTwenty(block, a, b, c, d, e, h, m);
    a, b, c, d, e := SecondTwenty(block, a, b, c, d, e, h, m);
    a, b, c, d, e := ThirdTwenty(block, a, b, c, d, e, h, m);
    a, b, c, d, e := FourthTwenty(block, a, b, c, d, e, h, m);
    FinishRounds(h, m, a, b, c, d, e);
    digest[0] := Plus(digest[0], a);
    digest[1] := Plus(digest[1], b);
    digest[2] := Plus(digest[2], c);
    digest[3] := Plus(digest[3], d);
    digest[4] := Plus(digest[4], e);
  }
}
