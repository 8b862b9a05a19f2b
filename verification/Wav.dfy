/** The stereo recording: caller on the left, agent on the right, written in chunks through reused buffers
    (`finalizeWAV`, `writeWAVHeader`). */
module Wav {
  import opened Bytes
  import opened Arithmetic

  const BUF: nat := 65536

  const U32: nat := 0x1_0000_0000

  // ---------------------------------------------------------------------------
  // The header
  // ---------------------------------------------------------------------------

  /** `v` in `n` octets, least significant first. */
  function LittleEndian(v: nat, n: nat): (s: seq<byte>)
    ensures |s| == n
  {
    if n == 0 then [] else [v % 256] + LittleEndian(v / 256, n - 1)
  }

  function ReadLittleEndian(s: seq<byte>): nat {
    if s == [] then 0 else s[0] + 256 * ReadLittleEndian(s[1..])
  }

  lemma {:induction false} LittleEndianRoundTrip(v: nat, n: nat)
    requires v < Pow256(n)
    ensures ReadLittleEndian(LittleEndian(v, n)) == v
  {
    if n > 0 {
      LittleEndianRoundTrip(v / 256, n - 1);
      assert LittleEndian(v, n)[1..] == LittleEndian(v / 256, n - 1);
    }
  }

  /** Octet `i` of a value. */
  lemma {:induction false} LittleEndianAt(v: nat, n: nat, i: nat)
    requires i < n
    ensures LittleEndian(v, n)[i] == v / Pow256(i) % 256
    decreases n
  {
    if i > 0 {
      LittleEndianAt(v / 256, n - 1, i - 1);
      QuotientTwice(v, Pow256(i - 1));
    } else {
      assert v / Pow256(0) == v;
    }
  }

  lemma QuotientTwice(v: nat, p: nat)
    requires p > 0
    ensures v / 256 / p == v / (256 * p)
  {
    var q, r := v / 256 / p, v / 256 % p;
    assert v / 256 == p * q + r;
    assert (256 * p) * q == 256 * (p * q);
    DivUnique(v, 256 * p, q, 256 * r + v % 256);
  }

  method PutU16(h: array<byte>, at: nat, v: nat)
    requires at + 2 <= h.Length && v < 65536
    modifies h
    ensures h[..at + 2] == old(h[..at]) + LittleEndian(v, 2) && h[at + 2..] == old(h[at + 2..])
  {
    assert LittleEndian(v, 2) == [v % 256, v / 256 % 256];
    h[at], h[at + 1] := v % 256, v / 256 % 256;
  }

  method PutU32(h: array<byte>, at: nat, v: nat)
    requires at + 4 <= h.Length && v < U32
    modifies h
    ensures h[..at + 4] == old(h[..at]) + LittleEndian(v, 4) && h[at + 4..] == old(h[at + 4..])
  {
    FourOctets(v);
    h[at], h[at + 1], h[at + 2], h[at + 3] := v % 256, v / 256 % 256, v / 65536 % 256, v / 16777216 % 256;
  }

  lemma FourOctets(v: nat)
    ensures LittleEndian(v, 4) == [v % 256, v / 256 % 256, v / 65536 % 256, v / 16777216 % 256]
  {
    var v1, v2, v3 := v / 256, v / 65536, v / 16777216;
    assert v1 / 256 == v2 && v2 / 256 == v3;
    assert LittleEndian(v3, 1) == [v3 % 256];
    assert LittleEndian(v2, 2) == [v2 % 256, v3 % 256];
    assert LittleEndian(v1, 3) == [v1 % 256, v2 % 256, v3 % 256];
  }

  const RIFF: seq<byte> := [82, 73, 70, 70]
  const WAVE: seq<byte> := [87, 65, 86, 69]
  const FMT: seq<byte> := [102, 109, 116, 32]
  const DATA: seq<byte> := [100, 97, 116, 97]

  /** The header up to the sample rate: PCM, two channels. */
  function HeaderFront(dataLen: nat): (s: seq<byte>)
    ensures |s| == 24
  {
    RIFF + LittleEndian((36 + dataLen) % U32, 4) + WAVE + FMT + LittleEndian(16, 4) + LittleEndian(1, 2)
    + LittleEndian(2, 2)
  }

  /** Octets a second, in 32-bit arithmetic from left to right. */
  function ByteRate(rate: nat): nat { rate * 2 % U32 * 16 % U32 / 8 }

  /** A header from the sample rate on, `front` being what stands before: rates, block align, bits, data length. */
  function HeaderWith(front: seq<byte>, dataLen: nat, rate: nat): (s: seq<byte>)
    ensures |s| == |front| + 20
  {
    front + LittleEndian(rate, 4) + LittleEndian(ByteRate(rate), 4) + LittleEndian(4, 2) + LittleEndian(16, 2)
    + DATA + LittleEndian(dataLen, 4)
  }

  /** A PCM header for two channels of 16 bits. */
  function Header(dataLen: nat, rate: nat): (s: seq<byte>)
    ensures |s| == 44
  {
    HeaderWith(HeaderFront(dataLen), dataLen, rate)
  }

  /** Where a reader finds the lengths and the rate in a canonical header. */
  lemma HeaderFields(dataLen: nat, rate: nat)
    requires dataLen < U32 && rate < U32
    ensures var h := Header(dataLen, rate);
      && ReadLittleEndian(h[4..8]) == (36 + dataLen) % U32
      && ReadLittleEndian(h[24..28]) == rate
      && ReadLittleEndian(h[40..44]) == dataLen
  {
    assert Pow256(4) == U32;
    LittleEndianRoundTrip((36 + dataLen) % U32, 4);
    LittleEndianRoundTrip(rate, 4);
    LittleEndianRoundTrip(dataLen, 4);
    HeaderParts(dataLen, rate);
    hide Header, ReadLittleEndian, LittleEndian;
  }

  /** The octets at `at` are those of the text. */
  predicate Spells(h: seq<byte>, at: nat, text: string) {
    at + |text| <= |h| && forall i | 0 <= i < |text| :: h[at + i] == text[i] as int
  }

  function U16At(h: seq<byte>, at: nat): nat
    requires at + 2 <= |h|
  {
    h[at] + 256 * h[at + 1] as int
  }

  function U32At(h: seq<byte>, at: nat): nat
    requires at + 4 <= |h|
  {
    h[at] + 256 * h[at + 1] as int + 65536 * h[at + 2] as int + 16777216 * h[at + 3] as int
  }

  /** A reader of the format finds 16-bit PCM in two channels. The announced octets a second are right for all rates
      below 2^27 and wrong for all others. */
  lemma HeaderFormat(dataLen: nat, rate: nat)
    requires dataLen < U32 && rate < U32
    ensures var h := Header(dataLen, rate);
      && Spells(h, 0, "RIFF") && Spells(h, 8, "WAVE") && Spells(h, 12, "fmt ") && Spells(h, 36, "data")
      && U32At(h, 4) == (36 + dataLen) % 0x1_0000_0000 && U32At(h, 24) == rate && U32At(h, 40) == dataLen
      && U32At(h, 16) == 16 && U16At(h, 20) == 1 && U16At(h, 22) == 2 && U16At(h, 32) == 4 && U16At(h, 34) == 16
      && (U32At(h, 28) == rate * 4 <==> rate < 0x0800_0000)
  {
    HeaderParts(dataLen, rate);
    var h := Header(dataLen, rate);
    hide Header, LittleEndian;
    TwoAt(h, 20, 1);
    TwoAt(h, 22, 2);
    TwoAt(h, 32, 4);
    TwoAt(h, 34, 16);
    FourAt(h, 4, (36 + dataLen) % U32);
    FourAt(h, 16, 16);
    FourAt(h, 24, rate);
    FourAt(h, 28, ByteRate(rate));
    FourAt(h, 40, dataLen);
    ByteRateIff(rate);
    SpellsAt(h);
    hide U16At, U32At, Spells, ByteRate;
  }

  lemma ByteRateIff(rate: nat)
    requires rate < U32
    ensures ByteRate(rate) < U32 && (ByteRate(rate) == rate * 4 <==> rate < 0x0800_0000)
  {
  }

  lemma TwoAt(h: seq<byte>, at: nat, v: nat)
    requires at + 2 <= |h| && h[at..at + 2] == LittleEndian(v, 2) && v < 65536
    ensures U16At(h, at) == v
  {
    assert LittleEndian(v / 256, 1) == [v / 256];
    assert LittleEndian(v, 2) == [v % 256, v / 256];
    hide LittleEndian;
    assert h[at..at + 2] == [h[at], h[at + 1]];
    assert v == v % 256 + 256 * (v / 256);
  }

  lemma FourAt(h: seq<byte>, at: nat, v: nat)
    requires at + 4 <= |h| && h[at..at + 4] == LittleEndian(v, 4) && v < U32
    ensures U32At(h, at) == v
  {
    FourOctets(v);
    FourDigits(v);
    hide LittleEndian;
    assert h[at..at + 4] == [h[at], h[at + 1], h[at + 2], h[at + 3]];
  }

  lemma FourDigits(v: nat)
    requires v < U32
    ensures v == v % 256 + 256 * (v / 256 % 256) + 65536 * (v / 65536 % 256) + 16777216 * (v / 16777216 % 256)
  {
    var v1, v2, v3 := v / 256, v / 65536, v / 16777216;
    assert v == v % 256 + 256 * v1;
    assert v1 == v1 % 256 + 256 * v2;
    assert v2 == v2 % 256 + 256 * v3;
    assert v3 < 256;
  }

  lemma SpellsAt(h: seq<byte>)
    requires |h| == 44 && h[0..4] == RIFF && h[8..12] == WAVE && h[12..16] == FMT && h[36..40] == DATA
    ensures Spells(h, 0, "RIFF") && Spells(h, 8, "WAVE") && Spells(h, 12, "fmt ") && Spells(h, 36, "data")
  {
    assert h[0..4] == [h[0], h[1], h[2], h[3]] && h[8..12] == [h[8], h[9], h[10], h[11]];
    assert h[12..16] == [h[12], h[13], h[14], h[15]] && h[36..40] == [h[36], h[37], h[38], h[39]];
  }

  lemma HeaderParts(dataLen: nat, rate: nat)
    ensures var h := Header(dataLen, rate);
      && h[0..4] == RIFF && h[4..8] == LittleEndian((36 + dataLen) % U32, 4) && h[8..12] == WAVE && h[12..16] == FMT
      && h[16..20] == LittleEndian(16, 4) && h[20..22] == LittleEndian(1, 2) && h[22..24] == LittleEndian(2, 2)
      && h[24..28] == LittleEndian(rate, 4) && h[28..32] == LittleEndian(ByteRate(rate), 4)
      && h[32..34] == LittleEndian(4, 2) && h[34..36] == LittleEndian(16, 2)
      && h[36..40] == DATA && h[40..44] == LittleEndian(dataLen, 4)
  {
    var front, h := HeaderFront(dataLen), Header(dataLen, rate);
    FrontParts(dataLen);
    TailFields(front, dataLen, rate);
    hide HeaderFront, HeaderWith, LittleEndian, ByteRate;
    assert h[0..4] == front[0..4] && h[4..8] == front[4..8] && h[8..12] == front[8..12] && h[12..16] == front[12..16];
    assert h[16..20] == front[16..20] && h[20..22] == front[20..22] && h[22..24] == front[22..24];
  }

  lemma FrontParts(dataLen: nat)
    ensures var h := HeaderFront(dataLen);
      && h[0..4] == RIFF && h[4..8] == LittleEndian((36 + dataLen) % U32, 4) && h[8..12] == WAVE && h[12..16] == FMT
      && h[16..20] == LittleEndian(16, 4) && h[20..22] == LittleEndian(1, 2) && h[22..24] == LittleEndian(2, 2)
  {
    hide LittleEndian;
  }

  lemma TailFields(front: seq<byte>, dataLen: nat, rate: nat)
    requires |front| == 24
    ensures var h := HeaderWith(front, dataLen, rate);
      && h[..24] == front && h[24..28] == LittleEndian(rate, 4) && h[28..32] == LittleEndian(ByteRate(rate), 4)
      && h[32..34] == LittleEndian(4, 2) && h[34..36] == LittleEndian(16, 2)
      && h[36..40] == DATA && h[40..44] == LittleEndian(dataLen, 4)
  {
    hide LittleEndian, ByteRate;
  }

  // ---------------------------------------------------------------------------
  // The interleaved tracks
  // ---------------------------------------------------------------------------

  /** Whole 16-bit samples of two tracks, taken in turn. */
  function Interleave(left: seq<byte>, right: seq<byte>): (s: seq<byte>)
    requires |left| == |right| && |left| % 2 == 0
    ensures |s| == 2 * |left|
    decreases |left|
  {
    if left == [] then [] else left[..2] + right[..2] + Interleave(left[2..], right[2..])
  }

  lemma {:induction false} InterleaveConcat(l1: seq<byte>, r1: seq<byte>, l2: seq<byte>, r2: seq<byte>)
    requires |l1| == |r1| && |l2| == |r2| && |l1| % 2 == 0 && |l2| % 2 == 0
    ensures Interleave(l1 + l2, r1 + r2) == Interleave(l1, r1) + Interleave(l2, r2)
    decreases |l1|
  {
    if l1 == [] {
      assert l1 + l2 == l2 && r1 + r2 == r2;
    } else {
      assert (l1 + l2)[..2] == l1[..2] && (l1 + l2)[2..] == l1[2..] + l2;
      assert (r1 + r2)[..2] == r1[..2] && (r1 + r2)[2..] == r1[2..] + r2;
      InterleaveConcat(l1[2..], r1[2..], l2, r2);
      ConcatAssoc(l1[..2] + r1[..2], Interleave(l1[2..], r1[2..]), Interleave(l2, r2));
    }
  }

  /** Splitting the channels again recovers both tracks. */
  lemma {:induction false} ChannelsAt(left: seq<byte>, right: seq<byte>, i: nat)
    requires |left| == |right| && |left| % 2 == 0 && i < |left| && i % 2 == 0
    ensures Interleave(left, right)[2 * i..2 * i + 4] == [left[i], left[i + 1], right[i], right[i + 1]]
    decreases |left|
  {
    var s := Interleave(left, right);
    if i > 0 {
      ChannelsAt(left[2..], right[2..], i - 2);
      assert s[4..] == Interleave(left[2..], right[2..]);
      assert s[2 * i..2 * i + 4] == s[4..][2 * (i - 2)..2 * (i - 2) + 4];
    }
  }

  /** What the right channel holds at position `p`: the agent track while it lasts, then what the buffer kept
      from an earlier chunk, and silence only where no chunk has put anything. */
  function RightAt(agent: seq<byte>, p: nat): byte
    decreases p
  {
    if p < |agent| then agent[p] else if p >= BUF then RightAt(agent, p - BUF) else 0
  }

  function RightTrack(agent: seq<byte>, from: nat, n: nat): (s: seq<byte>)
    ensures |s| == n
  {
    seq<byte>(n, i requires 0 <= i < n => RightAt(agent, from + i))
  }

  /** The agent track padded with silence, as the source's comment has it. */
  function Padded(agent: seq<byte>, n: nat): (s: seq<byte>)
    ensures |s| == n
  {
    seq(n, i requires 0 <= i < n => if i < |agent| then agent[i] else 0)
  }

  /** Bytes of the caller track that make whole samples. */
  function Even(n: nat): nat { n - n % 2 }

  // ---------------------------------------------------------------------------
  // What the recording is, and when it is what it should be
  // ---------------------------------------------------------------------------

  lemma Announced(callerBytes: nat)
    ensures var dataLen := callerBytes * 2 % U32; var follow := 2 * Even(callerBytes);
      dataLen == follow && (36 + dataLen) % U32 == 36 + follow <==> callerBytes % 2 == 0 && 36 + 2 * callerBytes < U32
  {
  }

  /** Both size fields announce as many octets as follow them exactly for even caller lengths that leave the RIFF size
      below 2^32: the last nine even lengths below 2^31 already wrap it. */
  lemma HeaderAnnouncesIff(callerBytes: nat, rate: nat, data: seq<byte>)
    requires rate < U32 && |data| == 2 * Even(callerBytes)
    ensures var file := Header(callerBytes * 2 % U32, rate) + data;
      ReadLittleEndian(file[4..8]) == |file| - 8 && ReadLittleEndian(file[40..44]) == |file| - 44 <==>
      callerBytes % 2 == 0 && 36 + 2 * callerBytes < U32
  {
    var dataLen := callerBytes * 2 % U32;
    var h := Header(dataLen, rate);
    var file := h + data;
    assert file[4..8] == h[4..8] && file[40..44] == h[40..44];
    HeaderFields(dataLen, rate);
    Announced(callerBytes);
    hide ReadLittleEndian, Header, Even;
  }

  /** A stale octet comes from the last buffer's worth of the agent track. */
  lemma {:induction false} RightIsStale(agent: seq<byte>, p: nat) returns (q: nat)
    requires p >= |agent|
    ensures q <= p && (q < |agent| ==> q + BUF >= |agent| && q + BUF <= p && RightAt(agent, p) == agent[q])
    ensures q >= |agent| ==> RightAt(agent, p) == 0
    decreases p
  {
    if p < BUF {
      q := p;
    } else if p - BUF < |agent| {
      q := p - BUF;
    } else {
      q := RightIsStale(agent, p - BUF);
    }
  }

  /** The right channel is the agent track padded with silence exactly when the octets of its last 64 KiB
      that lie a whole buffer before the end of the recording are silent themselves. */
  lemma PaddedIff(agent: seq<byte>, n: nat)
    ensures RightTrack(agent, 0, n) == Padded(agent, n) <==>
            forall q | 0 <= q < |agent| && |agent| <= q + BUF < n :: agent[q] == 0
  {
    var r, s := RightTrack(agent, 0, n), Padded(agent, n);
    if forall q | 0 <= q < |agent| && |agent| <= q + BUF < n :: agent[q] == 0 {
      forall p | 0 <= p < n ensures r[p] == s[p] {
        if p >= |agent| {
          var q := RightIsStale(agent, p);
        }
      }
    }
    if r == s {
      forall q | 0 <= q < |agent| && |agent| <= q + BUF < n ensures agent[q] == 0 {
        assert r[q + BUF] == s[q + BUF];
        assert RightAt(agent, q + BUF) == RightAt(agent, q);
      }
    }
  }

  /** Whatever the agent says, padding is right exactly for recordings of at most one buffer, agent tracks at
      least as long as the caller's, and empty ones. */
  lemma PaddedForAllIff(agentLength: nat, n: nat)
    ensures (forall agent: seq<byte> | |agent| == agentLength :: RightTrack(agent, 0, n) == Padded(agent, n))
            <==> n <= 65536 || agentLength >= n || agentLength == 0
  {
    if n <= BUF || agentLength >= n || agentLength == 0 {
      forall agent: seq<byte> | |agent| == agentLength ensures RightTrack(agent, 0, n) == Padded(agent, n) {
        PaddedIff(agent, n);
      }
    } else {
      var loud: seq<byte> := seq(agentLength, i => 1);
      var q := if agentLength <= BUF then 0 else agentLength - BUF;
      PaddedIff(loud, n);
      assert loud[q] == 1;
    }
  }

  // ---------------------------------------------------------------------------
  // The loop
  // ---------------------------------------------------------------------------

  method WriteHeaderFront(h: array<byte>, dataLen: nat)
    requires dataLen < U32 && h.Length == 44
    modifies h
    ensures h[..24] == HeaderFront(dataLen)
  {
    hide LittleEndian;
    Copy(h, 0, RIFF);
    assert h[..4] == RIFF;
    PutU32(h, 4, (36 + dataLen) % U32);
    Copy(h, 8, WAVE);
    Copy(h, 12, FMT);
    PutU32(h, 16, 16);
    PutU16(h, 20, 1);
    PutU16(h, 22, 2);
  }

  method WriteHeader(dataLen: nat, rate: nat) returns (s: seq<byte>)
    requires dataLen < U32 && rate < U32
    ensures s == Header(dataLen, rate)
  {
    hide LittleEndian, HeaderFront;
    var h := new byte[44](i => 0);
    WriteHeaderFront(h, dataLen);
    PutU32(h, 24, rate);
    PutU32(h, 28, rate * 2 % U32 * 16 % U32 / 8);
    PutU16(h, 32, 4);
    PutU16(h, 34, 16);
    Copy(h, 36, DATA);
    PutU32(h, 40, dataLen);
    s := h[..];
  }

  method Copy(h: array<byte>, at: nat, bytes: seq<byte>)
    requires at + |bytes| <= h.Length
    modifies h
    ensures h[..at + |bytes|] == old(h[..at]) + bytes && h[at + |bytes|..] == old(h[at + |bytes|..])
  {
    for i := 0 to |bytes|
      invariant h[..at + i] == old(h[..at]) + bytes[..i] && h[at + i..] == old(h[at + i..])
    {
      h[at + i] := bytes[i];
    }
  }

  /** Reading into the front of a buffer: as much as there is, the rest of the buffer stays as it was. */
  method ReadInto(file: seq<byte>, at: nat, buf: array<byte>, n: nat) returns (got: nat)
    requires n <= buf.Length
    modifies buf
    ensures got == if at >= |file| then 0 else if |file| - at < n then |file| - at else n
    ensures forall i | 0 <= i < buf.Length :: buf[i] == if i < got then file[at + i] else old(buf[i])
  {
    got := 0;
    while got < n && at + got < |file|
      invariant got <= n && (got > 0 ==> at + got <= |file|)
      invariant forall i | 0 <= i < buf.Length :: buf[i] == if i < got then file[at + i] else old(buf[i])
    {
      buf[got] := file[at + got];
      got := got + 1;
    }
  }

  /** The sample loop over one chunk. */
  method InterleaveChunk(cbuf: array<byte>, abuf: array<byte>, ibuf: array<byte>, n: nat)
    requires n % 2 == 0 && n <= cbuf.Length && n <= abuf.Length && 2 * n <= ibuf.Length
    requires ibuf != cbuf && ibuf != abuf
    modifies ibuf
    ensures ibuf[..2 * n] == Interleave(cbuf[..n], abuf[..n])
  {
    ghost var l, r := cbuf[..n], abuf[..n];
    var i := 0;
    while i < n
      invariant 0 <= i <= n && i % 2 == 0 && cbuf[..n] == l && abuf[..n] == r
      invariant ibuf[..2 * i] == Interleave(l[..i], r[..i])
    {
      hide Interleave;
      assert (i + 2) % 2 == 0;
      OneMoreSample(l, r, i);
      InterleaveSample(cbuf, abuf, ibuf, i);
      i := i + 2;
    }
    assert l[..n] == l && r[..n] == r;
  }

  method InterleaveSample(cbuf: array<byte>, abuf: array<byte>, ibuf: array<byte>, i: nat)
    requires i + 2 <= cbuf.Length && i + 2 <= abuf.Length && 2 * i + 4 <= ibuf.Length
    requires ibuf != cbuf && ibuf != abuf
    modifies ibuf
    ensures ibuf[..2 * i + 4] == old(ibuf[..2 * i]) + [cbuf[i], cbuf[i + 1], abuf[i], abuf[i + 1]]
  {
    ibuf[2 * i] := cbuf[i];
    ibuf[2 * i + 1] := cbuf[i + 1];
    ibuf[2 * i + 2] := abuf[i];
    ibuf[2 * i + 3] := abuf[i + 1];
  }

  lemma OneMoreSample(l: seq<byte>, r: seq<byte>, i: nat)
    requires i % 2 == 0 && i + 2 <= |l| && i + 2 <= |r|
    ensures Interleave(l[..i + 2], r[..i + 2]) == Interleave(l[..i], r[..i]) + [l[i], l[i + 1], r[i], r[i + 1]]
  {
    var l2, r2 := l[i..i + 2], r[i..i + 2];
    InterleaveConcat(l[..i], r[..i], l2, r2);
    assert l[..i] + l2 == l[..i + 2] && r[..i] + r2 == r[..i + 2];
    assert l2[2..] == [] && r2[2..] == [];
    assert Interleave(l2, r2) == [l[i], l[i + 1], r[i], r[i + 1]];
  }

  /** The agent buffer after a read shows the right channel of the chunk. */
  lemma ChunkIsRight(agent: seq<byte>, at: nat, abuf: seq<byte>, n: nat)
    requires n <= BUF == |abuf| && at % BUF == 0
    requires forall i | 0 <= i < n :: abuf[i] == if at + i < |agent| then agent[at + i] else Kept(agent, at, i)
    ensures abuf[..n] == RightTrack(agent, at, n)
    ensures n == BUF ==> forall i | 0 <= i < BUF :: abuf[i] == Kept(agent, at + n, i)
  {
    forall i | 0 <= i < n ensures abuf[i] == RightAt(agent, at + i) {
      if at >= BUF { assert at - BUF + i == at + i - BUF; }
    }
  }

  /** All chunks before position `done` were full ones, but for a last one that leaves no whole sample. */
  predicate OnTrack(done: nat, remaining: nat) {
    done % 2 == 0 && (remaining > 1 ==> done % BUF == 0)
  }

  lemma Onward(done: nat, remaining: nat)
    requires OnTrack(done, remaining)
    ensures var n := Even(if remaining < BUF then remaining else BUF);
      && OnTrack(done + n, remaining - n)
      && (n > 0 ==> done % BUF == 0)
  {
  }

  lemma EvenPart(done: nat, remaining: nat)
    requires done % 2 == 0 && remaining <= 1
    ensures Even(done + remaining) == done
  {
  }

  lemma NextChunk(caller: seq<byte>, agent: seq<byte>, done: nat, n: nat)
    requires done % 2 == 0 && n % 2 == 0 && done + n <= |caller|
    ensures Interleave(caller[..done + n], RightTrack(agent, 0, done + n)) ==
            Interleave(caller[..done], RightTrack(agent, 0, done))
            + Interleave(caller[done..done + n], RightTrack(agent, done, n))
  {
    InterleaveConcat(caller[..done], RightTrack(agent, 0, done), caller[done..done + n], RightTrack(agent, done, n));
    assert caller[..done] + caller[done..done + n] == caller[..done + n];
    assert RightTrack(agent, 0, done) + RightTrack(agent, done, n) == RightTrack(agent, 0, done + n);
  }

  /** The recording: None when the caller track is shorter than `callerBytes` says. */
  method FinalizeWav(caller: seq<byte>, agent: seq<byte>, callerBytes: nat, rate: nat) returns (out: Option<seq<byte>>)
    requires rate < U32
    ensures out.Some? <==> Even(callerBytes) <= |caller|
    ensures out.Some? ==>
      out.value == Header(callerBytes * 2 % U32, rate)
                   + Interleave(caller[..Even(callerBytes)], RightTrack(agent, 0, Even(callerBytes)))
  {
    hide Header, Interleave, RightTrack;
    var file := WriteHeader(callerBytes * 2 % U32, rate);
    ghost var header := file;
    var cbuf := new byte[BUF](i => 0);
    var abuf := new byte[BUF](i => 0);
    var ibuf := new byte[2 * BUF](i => 0);
    var remaining: nat := callerBytes;
    var done: nat := 0;  // how far both files have been read
    while remaining > 0
      invariant done + remaining == callerBytes && done <= |caller| && OnTrack(done, remaining)
      invariant remaining > 1 ==> Holds(abuf[..], agent, done)
      invariant file == header + Interleave(caller[..done], RightTrack(agent, 0, done))
    {
      hide Interleave, RightTrack, Holds;
      Onward(done, remaining);
      hide OnTrack;
      var n := BUF;
      if remaining < n { n := remaining; }
      n := n - n % 2;
      if n <= 0 { break; }
      if |caller| - done < n {  // a short read of the caller track is an error
        return None;
      }
      ReadAndInterleave(caller, agent, done, n, cbuf, abuf, ibuf);
      NextChunk(caller, agent, done, n);
      ConcatAssoc(header, Interleave(caller[..done], RightTrack(agent, 0, done)), ibuf[..2 * n]);
      file := file + ibuf[..2 * n];
      remaining := remaining - n;
      done := done + n;
    }
    EvenPart(done, remaining);
    return Some(file);
  }

  /** The agent buffer shows what is left in it once the chunks before position `done` are through. */
  ghost predicate Holds(abuf: seq<byte>, agent: seq<byte>, done: nat) {
    |abuf| == BUF && forall i | 0 <= i < BUF :: abuf[i] == Kept(agent, done, i)
  }

  /** Both reads of one chunk and its interleaving. */
  method ReadAndInterleave(caller: seq<byte>, agent: seq<byte>, done: nat, n: nat,
                           cbuf: array<byte>, abuf: array<byte>, ibuf: array<byte>)
    requires cbuf.Length == abuf.Length == BUF && ibuf.Length == 2 * BUF
    requires cbuf != abuf && ibuf != cbuf && ibuf != abuf
    requires 0 < n <= BUF && n % 2 == 0 && done % BUF == 0 && done + n <= |caller|
    requires Holds(abuf[..], agent, done)
    modifies cbuf, abuf, ibuf
    ensures ibuf[..2 * n] == Interleave(caller[done..done + n], RightTrack(agent, done, n))
    ensures n == BUF ==> Holds(abuf[..], agent, done + n)
  {
    hide Interleave, RightTrack;
    var got := ReadInto(caller, done, cbuf, n);
    assert cbuf[..n] == caller[done..done + n];
    var _ := ReadInto(agent, done, abuf, n);
    ChunkIsRight(agent, done, abuf[..], n);
    assert abuf[..][..n] == abuf[..n];
    InterleaveChunk(cbuf, abuf, ibuf, n);
  }

  /** What the agent buffer holds at offset `i` once the chunks before position `done` are through. */
  function Kept(agent: seq<byte>, done: nat, i: nat): byte {
    if done == 0 then 0 else RightAt(agent, if done >= BUF then done - BUF + i else 0)
  }
}
