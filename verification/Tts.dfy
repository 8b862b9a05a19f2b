/** PCM octets in and out of the resampler, and the read loop that streams speech through it (`Synthesize`). */
module Tts {
  import opened Bytes
  import opened Arithmetic
  import opened Resample

  // ---------------------------------------------------------------------------
  // 16-bit samples
  // ---------------------------------------------------------------------------

  predicate Int16(v: int) { -32768 <= v < 32768 }

  /** The 16-bit value that is the octets' own modulo 65536. */
  function SampleOf(lo: byte, hi: byte): (v: int)
    ensures Int16(v) && (v - (lo + 256 * hi)) % 65536 == 0
  {
    var u := lo + 256 * hi;
    if u >= 32768 then u - 65536 else u
  }

  /** The whole samples of a run of octets; an odd last octet is ignored. */
  function Samples(bs: seq<byte>): (s: seq<int>)
    ensures |s| == |bs| / 2
  {
    seq(|bs| / 2, i requires 0 <= i < |bs| / 2 => SampleOf(bs[2 * i], bs[2 * i + 1]))
  }

  /** Low octet and high octet of the two's complement. */
  function LowOctet(v: int): byte { v % 256 }

  function HighOctet(v: int): byte { v / 256 % 256 }

  function PcmOctets(s: seq<int>): (bs: seq<byte>)
    ensures |bs| == 2 * |s|
  {
    seq(2 * |s|, k requires 0 <= k < 2 * |s| => if k % 2 == 0 then LowOctet(s[k / 2]) else HighOctet(s[k / 2]))
  }

  lemma SampleRoundTrip(v: int)
    requires Int16(v)
    ensures SampleOf(LowOctet(v), HighOctet(v)) == v
  {
  }

  lemma SamplesOfOctets(s: seq<int>)
    requires forall i | 0 <= i < |s| :: Int16(s[i])
    ensures Samples(PcmOctets(s)) == s
  {
    hide SampleOf, LowOctet, HighOctet, PcmOctets;
    forall i | 0 <= i < |s| ensures Samples(PcmOctets(s))[i] == s[i] {
      OctetsAt(s, i);
      SampleRoundTrip(s[i]);
    }
  }

  lemma SamplesConcat(a: seq<byte>, b: seq<byte>)
    requires |a| % 2 == 0
    ensures Samples(a + b) == Samples(a) + Samples(b)
  {
    forall i | 0 <= i < |a + b| / 2 ensures Samples(a + b)[i] == (Samples(a) + Samples(b))[i] {
      if i >= |a| / 2 {
        assert (a + b)[2 * i] == b[2 * (i - |a| / 2)] && (a + b)[2 * i + 1] == b[2 * (i - |a| / 2) + 1];
      }
    }
  }

  // ---------------------------------------------------------------------------
  // Resampling octets
  // ---------------------------------------------------------------------------

  predicate SameRate(from: int, to: int) { from <= 0 || to <= 0 || from == to }

  function Pcm(bs: seq<byte>, from: int, to: int): seq<byte> {
    if |bs| < 2 then []
    else if SameRate(from, to) then bs[..|bs| - |bs| % 2]
    else PcmOctets(Signal(Samples(bs), from, to))
  }

  /** Every resampled value is a 16-bit value again, so the octets carry it exactly. */
  lemma SignalIsInt16(s: seq<int>, from: nat, to: nat, i: nat)
    requires from > 0 && to > 0 && i < OutCount(|s|, from, to)
    requires forall k | 0 <= k < |s| :: Int16(s[k])
    ensures Int16(OutSample(s, i, from, to))
  {
    LeftInRange(|s|, i, from, to);
    var j := Left(i, from, to);
    StaysBetween(s[j], Right(s, j), Past(i, from, to), to);
  }

  lemma PcmCarriesSignal(bs: seq<byte>, from: int, to: int)
    requires !SameRate(from, to)
    ensures Samples(Pcm(bs, from, to)) == Signal(Samples(bs), from, to)
  {
    var s := Samples(bs);
    if |bs| < 2 {
      assert OutCount(0, from, to) == 0;
    } else {
      forall i | 0 <= i < OutCount(|s|, from, to) ensures Int16(Signal(s, from, to)[i]) {
        SignalIsInt16(s, from, to, i);
      }
      SamplesOfOctets(Signal(s, from, to));
    }
  }

  /** What the samples read back from the octets are. */
  lemma PcmInterpolates(bs: seq<byte>, from: nat, to: nat)
    requires from > 0 && to > 0 && from != to && |bs| >= 2
    ensures var r := Pcm(bs, from, to);
      && |r| == 2 * (|bs| / 2 * to / from)
      && forall i | 0 <= i < |r| / 2 :: Interpolated(Samples(bs), i, from, to, Samples(r)[i])
  {
    PcmCarriesSignal(bs, from, to);
    var r := Pcm(bs, from, to);
    forall i | 0 <= i < |r| / 2 ensures Interpolated(Samples(bs), i, from, to, Samples(r)[i]) {
      SampleInterpolated(Samples(bs), i, from, to);
      hide Interpolated, OutSample, Samples;
    }
  }

  lemma OctetsAt(s: seq<int>, i: nat)
    requires i < |s|
    ensures PcmOctets(s)[2 * i] == LowOctet(s[i]) && PcmOctets(s)[2 * i + 1] == HighOctet(s[i])
  {
  }

  method DecodeSamples(bs: seq<byte>) returns (samples: array<int>)
    ensures fresh(samples) && samples[..] == Samples(bs)
  {
    hide SampleOf;
    var n := |bs| / 2;
    samples := new int[n];
    for i := 0 to n
      invariant samples[..i] == Samples(bs)[..i]
    {
      samples[i] := SampleOf(bs[2 * i], bs[2 * i + 1]);
    }
  }

  /** The body of the interpolation loop. */
  method Interpolate(samples: array<int>, i: nat, from: nat, to: nat) returns (v: int)
    requires from > 0 && to > 0 && i < OutCount(samples.Length, from, to)
    ensures v == OutSample(samples[..], i, from, to)
  {
    hide TruncDiv;
    LeftInRange(samples.Length, i, from, to);
    var j := i * from / to;
    var past := i * from % to;
    var a := samples[j];
    var b := a;
    if j + 1 < samples.Length {
      b := samples[j + 1];
    }
    v := TruncDiv(a * to + past * (b - a), to);
  }

  /** The output loop. */
  method Render(samples: array<int>, from: nat, to: nat) returns (r: seq<byte>)
    requires from > 0 && to > 0
    ensures r == PcmOctets(Signal(samples[..], from, to))
  {
    var outN := samples.Length * to / from;
    assert outN == OutCount(samples.Length, from, to);
    if outN == 0 { return []; }
    ghost var signal := Signal(samples[..], from, to);
    hide OutSample, LowOctet, HighOctet, PcmOctets, OutCount;
    var out := new byte[outN * 2](i => 0);
    for i := 0 to outN
      invariant forall k | 0 <= k < 2 * i :: out[k] == PcmOctets(signal)[k]
      invariant samples[..] == old(samples[..])
    {
      var v := Interpolate(samples, i, from, to);
      OctetsAt(signal, i);
      out[2 * i] := LowOctet(v);
      out[2 * i + 1] := HighOctet(v);
    }
    r := out[..];
  }

  /** Whole samples are copied where there is nothing to convert; otherwise each output sample is interpolated. */
  method ResamplePcm16(bs: seq<byte>, fromRate: int, toRate: int) returns (r: seq<byte>)
    ensures r == Pcm(bs, fromRate, toRate)
    ensures fromRate <= 0 || toRate <= 0 || fromRate == toRate ==> |r| == |bs| / 2 * 2 && r <= bs
    ensures fromRate > 0 && toRate > 0 && fromRate != toRate ==>
      && |r| == 2 * (|bs| / 2 * toRate / fromRate)
      && forall i | 0 <= i < |r| / 2 :: Interpolated(Samples(bs), i, fromRate, toRate, Samples(r)[i])
  {
    if |bs| >= 2 && fromRate > 0 && toRate > 0 && fromRate != toRate {
      PcmInterpolates(bs, fromRate, toRate);
    }
    hide Interpolated;
    if |bs| < 2 { return []; }
    if fromRate <= 0 || toRate <= 0 || fromRate == toRate {
      return bs[..|bs| - |bs| % 2];
    }
    var samples := DecodeSamples(bs);
    r := Render(samples, fromRate, toRate);
  }

  // ---------------------------------------------------------------------------
  // The read loop
  // ---------------------------------------------------------------------------

  /** One read of the response body; `last` says that it came with an error, usually the end of the stream. */
  datatype Read = Read(data: seq<byte>, last: bool)

  /** How many of the pending octets a read lets out: whole blocks, or everything at the end. */
  function Usable(n: nat, r: Read, block: nat): (u: nat)
    requires block > 0
    ensures u <= n && (!r.last ==> u % block == 0)
  {
    WholePart(n, block);
    if r.data == [] then 0 else if r.last then n else n - n % block
  }

  lemma WholePart(n: nat, block: nat)
    requires block > 0
    ensures n % block <= n && (n - n % block) % block == 0
  {
    assert n == block * (n / block) + n % block;
    DivUnique(n - n % block, block, n / block, 0);
  }

  function Emitted(all: seq<byte>, usable: nat): seq<seq<byte>>
    requires usable <= |all|
  {
    if usable > 0 then [all[..usable]] else []
  }

  /** The chunks handed to the emitter, before resampling. */
  function Chunks(pending: seq<byte>, cuts: seq<Read>, block: nat): seq<seq<byte>>
    requires block > 0
    decreases |cuts|
  {
    if cuts == [] then []
    else
      var all := pending + cuts[0].data;
      var usable := Usable(|all|, cuts[0], block);
      Emitted(all, usable) + if cuts[0].last then [] else Chunks(all[usable..], cuts[1..], block)
  }

  function Data(cuts: seq<Read>): seq<byte> {
    if cuts == [] then [] else cuts[0].data + Data(cuts[1..])
  }

  /** The body ends with a read that brings data together with the error. */
  predicate EndsWithData(cuts: seq<Read>) {
    cuts != [] && cuts[|cuts| - 1].last && cuts[|cuts| - 1].data != []
    && forall i | 0 <= i < |cuts| - 1 :: !cuts[i].last
  }

  predicate WholeBlocks(chunks: seq<seq<byte>>, block: nat)
    requires block > 0
  {
    forall k | 0 <= k < |chunks| - 1 :: |chunks[k]| % block == 0
  }

  lemma EmittedFlat(all: seq<byte>, usable: nat)
    requires usable <= |all|
    ensures Flatten(Emitted(all, usable)) == all[..usable]
  {
    if usable > 0 {
      assert Flatten([all[..usable]]) == all[..usable] + [];
    }
  }

  lemma LaterReads(cuts: seq<Read>)
    requires EndsWithData(cuts) && !cuts[0].last
    ensures EndsWithData(cuts[1..])
  {
    assert cuts[1..][|cuts| - 2] == cuts[|cuts| - 1];
  }

  /** Nothing is lost and every chunk but the last holds whole blocks. */
  lemma {:induction false} ChunksAreTheStream(pending: seq<byte>, cuts: seq<Read>, block: nat)
    requires block > 0 && EndsWithData(cuts)
    ensures Flatten(Chunks(pending, cuts, block)) == pending + Data(cuts)
    ensures WholeBlocks(Chunks(pending, cuts, block), block)
    decreases |cuts|
  {
    var r := cuts[0];
    var all := pending + r.data;
    var usable := Usable(|all|, r, block);
    EmittedFlat(all, usable);
    if r.last {
      assert |cuts| == 1 && all[..|all|] == all && Data(cuts) == r.data + [];
      assert Chunks(pending, cuts, block) == Emitted(all, usable);
    } else {
      LaterReads(cuts);
      hide Usable, EndsWithData;
      ChunksAreTheStream(all[usable..], cuts[1..], block);
      var rest := Chunks(all[usable..], cuts[1..], block);
      FlattenConcat(Emitted(all, usable), rest);
      SplitStream(pending, r.data, Data(cuts[1..]), usable);
      BlocksInFront(all, usable, rest, block);
      hide WholeBlocks;
    }
  }

  lemma BlocksInFront(all: seq<byte>, usable: nat, rest: seq<seq<byte>>, block: nat)
    requires block > 0 && usable <= |all| && usable % block == 0 && WholeBlocks(rest, block)
    ensures WholeBlocks(Emitted(all, usable) + rest, block)
  {
  }

  lemma SplitStream(pending: seq<byte>, data: seq<byte>, later: seq<byte>, usable: nat)
    requires usable <= |pending + data|
    ensures var all := pending + data; all[..usable] + (all[usable..] + later) == pending + (data + later)
  {
    var all := pending + data;
    ConcatAssoc(pending, data, later);
    ConcatAssoc(all[..usable], all[usable..], later);
    assert all == all[..usable] + all[usable..];
  }

  /** What arrives at the caller's channel: each chunk resampled, empty results skipped. */
  function Sent(chunks: seq<seq<byte>>, sourceRate: int, rate: int): seq<seq<byte>> {
    if chunks == [] then []
    else
      var pcm := if rate != sourceRate then Pcm(chunks[0], sourceRate, rate) else chunks[0];
      (if pcm == [] then [] else [pcm]) + Sent(chunks[1..], sourceRate, rate)
  }

  const SOURCE_RATE: nat := 24000

  method Emit(chunk: seq<byte>, rate: int) returns (out: seq<seq<byte>>)
    ensures out == Sent([chunk], SOURCE_RATE, rate)
  {
    SentOne(chunk, SOURCE_RATE, rate);
    var pcm := chunk;
    if rate != SOURCE_RATE {
      pcm := ResamplePcm16(pcm, SOURCE_RATE, rate);
    }
    if pcm == [] { return []; }
    return [pcm];
  }

  method Synthesize(cuts: seq<Read>, sampleRate: int) returns (sent: seq<seq<byte>>, block: nat)
    ensures block > 0
    ensures var rate := if sampleRate == 0 then 16000 else sampleRate;
      && sent == Sent(Chunks([], cuts, block), SOURCE_RATE, rate)
      && (rate > 0 ==> block % 2 == 0 && exists t: nat :: Ratio(SOURCE_RATE, rate, block / 2, t))
      && (rate <= 0 ==> block == 2)
  {
    var rate := if sampleRate == 0 then 16000 else sampleRate;
    block := ResampleBlockBytes(SOURCE_RATE, rate);
    hide Ratio, Sent, Chunks, Usable;
    var pending: seq<byte> := [];
    sent := [];
    for i := 0 to |cuts|
      invariant sent + Sent(Chunks(pending, cuts[i..], block), SOURCE_RATE, rate)
                == Sent(Chunks([], cuts, block), SOURCE_RATE, rate)
    {
      var r := cuts[i];
      assert cuts[i..][0] == r && cuts[i..][1..] == cuts[i + 1..];
      SentStep(sent, pending, cuts[i..], block, rate);
      pending := pending + r.data;
      var usable := 0;
      if |r.data| > 0 {
        usable := |pending|;
        if !r.last {
          usable := usable - usable % block;
        }
      }
      LetOut(|pending|, r, block);
      if usable > 0 {
        var chunk := pending[..usable];
        pending := pending[usable..];
        var out := Emit(chunk, rate);
        sent := sent + out;
      } else {
        assert pending[usable..] == pending;
      }
      if r.last {
        return;
      }
    }
    assert cuts[|cuts|..] == [];
    NothingLeft(pending, block, rate);
    assert sent + [] == sent;
  }

  lemma NothingLeft(pending: seq<byte>, block: nat, rate: int)
    requires block > 0
    ensures Sent(Chunks(pending, [], block), SOURCE_RATE, rate) == []
  {
  }

  lemma LetOut(n: nat, r: Read, block: nat)
    requires block > 0 && n >= |r.data|
    ensures Usable(n, r, block) == if |r.data| == 0 then 0 else if r.last then n else n - n % block
  {
  }

  /** One pass of the loop sends the chunk it lets out and leaves the rest for later passes. */
  lemma SentStep(sent: seq<seq<byte>>, pending: seq<byte>, cuts: seq<Read>, block: nat, rate: int)
    requires cuts != [] && block > 0
    ensures var all := pending + cuts[0].data;
      var usable := Usable(|all|, cuts[0], block);
      var now := if usable > 0 then sent + Sent([all[..usable]], SOURCE_RATE, rate) else sent;
      sent + Sent(Chunks(pending, cuts, block), SOURCE_RATE, rate) ==
      if cuts[0].last then now else now + Sent(Chunks(all[usable..], cuts[1..], block), SOURCE_RATE, rate)
  {
    hide Usable, Pcm;
    var all := pending + cuts[0].data;
    var usable := Usable(|all|, cuts[0], block);
    var emitted := Emitted(all, usable);
    var later := if cuts[0].last then [] else Chunks(all[usable..], cuts[1..], block);
    assert Chunks(pending, cuts, block) == emitted + later;
    SentConcat(emitted, later, SOURCE_RATE, rate);
    ConcatAssoc(sent, Sent(emitted, SOURCE_RATE, rate), Sent(later, SOURCE_RATE, rate));
    hide Chunks;
    assert sent + [] == sent;
    var now := sent + Sent(emitted, SOURCE_RATE, rate);
    assert now + [] == now;
  }

  lemma {:induction false} SentConcat(a: seq<seq<byte>>, b: seq<seq<byte>>, sourceRate: int, rate: int)
    ensures Sent(a + b, sourceRate, rate) == Sent(a, sourceRate, rate) + Sent(b, sourceRate, rate)
    decreases |a|
  {
    if a == [] {
      assert a + b == b;
    } else {
      assert (a + b)[1..] == a[1..] + b;
      SentConcat(a[1..], b, sourceRate, rate);
    }
  }

  lemma SentOne(chunk: seq<byte>, sourceRate: int, rate: int)
    ensures var pcm := if rate != sourceRate then Pcm(chunk, sourceRate, rate) else chunk;
      Sent([chunk], sourceRate, rate) == if pcm == [] then [] else [pcm]
  {
    assert [chunk][1..] == [];
  }

  // ---------------------------------------------------------------------------
  // The stream as a whole
  // ---------------------------------------------------------------------------

  function SampleChunks(chunks: seq<seq<byte>>): (r: seq<seq<int>>)
    ensures |r| == |chunks|
  {
    seq(|chunks|, i requires 0 <= i < |chunks| => Samples(chunks[i]))
  }

  lemma {:induction false} SampleChunksFlatten(chunks: seq<seq<byte>>, block: nat)
    requires block > 0 && block % 2 == 0 && WholeBlocks(chunks, block)
    ensures Flatten(SampleChunks(chunks)) == Samples(Flatten(chunks))
    decreases |chunks|
  {
    if chunks != [] {
      var rest := chunks[1..];
      assert SampleChunks(chunks)[1..] == SampleChunks(rest);
      forall k | 0 <= k < |rest| - 1 ensures |rest[k]| % block == 0 { assert rest[k] == chunks[k + 1]; }
      SampleChunksFlatten(rest, block);
      if |chunks| == 1 {
        assert Flatten(rest) == [] && chunks[0] + [] == chunks[0];
      } else {
        EvenMultiple(|chunks[0]|, block);
        SamplesConcat(chunks[0], Flatten(rest));
      }
    }
  }

  lemma EvenMultiple(n: nat, block: nat)
    requires block > 0 && block % 2 == 0 && n % block == 0
    ensures n % 2 == 0 && n / 2 % (block / 2) == 0
  {
    var k, h := n / block, block / 2;
    assert n == block * k && block == 2 * h;
    assert block * k == 2 * (h * k);
    DivUnique(n / 2, h, k, 0);
  }

  /** One chunk of the stream carries one block of the signal. */
  lemma OneBlock(chunk: seq<byte>, later: seq<byte>, rate: nat)
    requires !SameRate(SOURCE_RATE, rate)
    ensures var now := Flatten(Sent([chunk], SOURCE_RATE, rate));
      && |now| % 2 == 0
      && Samples(now + later) == Signal(Samples(chunk), SOURCE_RATE, rate) + Samples(later)
  {
    var pcm := Pcm(chunk, SOURCE_RATE, rate);
    SentOne(chunk, SOURCE_RATE, rate);
    PcmCarriesSignal(chunk, SOURCE_RATE, rate);
    assert Flatten([pcm]) == pcm by { assert pcm + [] == pcm; }
    hide Pcm, Sent;
    SamplesConcat(pcm, later);
  }

  lemma SentHead(chunks: seq<seq<byte>>, rate: int)
    requires chunks != []
    ensures Flatten(Sent(chunks, SOURCE_RATE, rate)) ==
            Flatten(Sent([chunks[0]], SOURCE_RATE, rate)) + Flatten(Sent(chunks[1..], SOURCE_RATE, rate))
  {
    hide Sent, Flatten;
    SentConcat([chunks[0]], chunks[1..], SOURCE_RATE, rate);
    assert [chunks[0]] + chunks[1..] == chunks;
    FlattenConcat(Sent([chunks[0]], SOURCE_RATE, rate), Sent(chunks[1..], SOURCE_RATE, rate));
  }

  lemma {:induction false} SentCarriesBlocks(chunks: seq<seq<byte>>, rate: nat)
    requires !SameRate(SOURCE_RATE, rate)
    ensures Samples(Flatten(Sent(chunks, SOURCE_RATE, rate))) == Blocks(SampleChunks(chunks), SOURCE_RATE, rate)
    ensures |Flatten(Sent(chunks, SOURCE_RATE, rate))| % 2 == 0
    decreases |chunks|
  {
    if chunks != [] {
      hide Samples, Signal, Sent, Flatten, Blocks, SampleChunks;
      SentCarriesBlocks(chunks[1..], rate);
      SentHead(chunks, rate);
      OneBlock(chunks[0], Flatten(Sent(chunks[1..], SOURCE_RATE, rate)), rate);
      BlocksHead(chunks, rate);
    }
  }

  lemma BlocksHead(chunks: seq<seq<byte>>, rate: nat)
    requires chunks != [] && rate > 0
    ensures Blocks(SampleChunks(chunks), SOURCE_RATE, rate) ==
            Signal(Samples(chunks[0]), SOURCE_RATE, rate) + Blocks(SampleChunks(chunks[1..]), SOURCE_RATE, rate)
  {
    hide Samples, Signal;
    assert SampleChunks(chunks)[1..] == SampleChunks(chunks[1..]);
    assert SampleChunks(chunks)[0] == Samples(chunks[0]);
  }

  /** At the source's own rate the chunks are sent as they are. */
  lemma {:induction false} SentAsIs(chunks: seq<seq<byte>>)
    ensures Flatten(Sent(chunks, SOURCE_RATE, SOURCE_RATE)) == Flatten(chunks)
    decreases |chunks|
  {
    if chunks != [] {
      SentAsIs(chunks[1..]);
      SentHead(chunks, SOURCE_RATE);
      SentOne(chunks[0], SOURCE_RATE, SOURCE_RATE);
      assert Flatten([chunks[0]]) == chunks[0] + [];
    }
  }

  function Evened(s: seq<byte>): seq<byte> { s[..|s| - |s| % 2] }

  /** Without a usable rate they are copied, but for an odd last octet. */
  lemma {:induction false} SentCopied(chunks: seq<seq<byte>>, rate: int)
    requires rate <= 0 && WholeBlocks(chunks, 2)
    ensures Flatten(Sent(chunks, SOURCE_RATE, rate)) == Evened(Flatten(chunks))
    decreases |chunks|
  {
    if chunks != [] {
      var head, rest := chunks[0], chunks[1..];
      forall k | 0 <= k < |rest| - 1 ensures |rest[k]| % 2 == 0 { assert rest[k] == chunks[k + 1]; }
      SentCopied(rest, rate);
      SentHead(chunks, rate);
      SentOne(head, SOURCE_RATE, rate);
      assert Pcm(head, SOURCE_RATE, rate) == Evened(head);
      assert Flatten([Evened(head)]) == Evened(head) + [] == Evened(head);
      if rest == [] {
        assert head + [] == head;
      } else {
        EvenFront(head, Flatten(rest));
      }
    }
  }

  lemma EvenFront(a: seq<byte>, b: seq<byte>)
    requires |a| % 2 == 0
    ensures Evened(a + b) == a + Evened(b) && Evened(a) == a
  {
  }

  /** However the body is cut into reads, if the last of its octets arrive together with the end: what is sent is the
      body itself at the source's own rate, and its whole samples for a rate that cannot be. At any other rate it is as
      long as the whole body resampled at once, and agrees with it at every sample whose right neighbour lies in the
      same chunk; at the others it repeats the left one. */
  lemma StreamedSpeech(cuts: seq<Read>, rate: int, block: nat, t: nat)
    requires EndsWithData(cuts) && block > 0
    requires if rate > 0 then block % 2 == 0 && Ratio(SOURCE_RATE, rate, block / 2, t) else block == 2
    ensures var chunks := Chunks([], cuts, block);
      var sent := Flatten(Sent(chunks, SOURCE_RATE, rate));
      if rate == SOURCE_RATE then sent == Data(cuts)
      else if rate <= 0 then sent == Evened(Data(cuts))
      else
        var r, w := Samples(sent), Signal(Samples(Data(cuts)), SOURCE_RATE, rate);
        && |r| == |w| == |Data(cuts)| / 2 * rate / 24000
        && (forall i | 0 <= i < |r| && Inside(SampleChunks(chunks), SOURCE_RATE, rate, i) :: r[i] == w[i])
        && forall i | 0 <= i < |r| && !Inside(SampleChunks(chunks), SOURCE_RATE, rate, i) ::
             AtLeft(Samples(Data(cuts)), i, SOURCE_RATE, rate, r[i])
  {
    var chunks := Chunks([], cuts, block);
    ChunksAreTheStream([], cuts, block);
    assert [] + Data(cuts) == Data(cuts);
    if rate == SOURCE_RATE {
      SentAsIs(chunks);
    } else if rate <= 0 {
      SentCopied(chunks, rate);
    } else {
      ResampledSpeech(chunks, rate, block, t);
    }
  }

  lemma ResampledSpeech(chunks: seq<seq<byte>>, rate: nat, block: nat, t: nat)
    requires rate > 0 && rate != SOURCE_RATE && block > 0 && WholeBlocks(chunks, block)
    requires block % 2 == 0 && Ratio(SOURCE_RATE, rate, block / 2, t)
    ensures var r := Samples(Flatten(Sent(chunks, SOURCE_RATE, rate)));
      var all := Samples(Flatten(chunks));
      var w := Signal(all, SOURCE_RATE, rate);
      && |r| == |w|
      && (forall i | 0 <= i < |r| && Inside(SampleChunks(chunks), SOURCE_RATE, rate, i) :: r[i] == w[i])
      && forall i | 0 <= i < |r| && !Inside(SampleChunks(chunks), SOURCE_RATE, rate, i) ::
           AtLeft(all, i, SOURCE_RATE, rate, r[i])
  {
    SampleChunksFlatten(chunks, block);
    SentCarriesBlocks(chunks, rate);
    var s := SampleChunks(chunks);
    forall k | 0 <= k < |s| - 1 ensures |s[k]| % (block / 2) == 0 {
      EvenMultiple(|chunks[k]|, block);
    }
    StreamAgrees(s, SOURCE_RATE, rate, block / 2, t);
  }

  // ---------------------------------------------------------------------------
  // When the carried remainder is lost
  // ---------------------------------------------------------------------------

  /** The body ends with its first read that reports an error. */
  predicate EndsOnce(cuts: seq<Read>) {
    cuts != [] && cuts[|cuts| - 1].last && forall i | 0 <= i < |cuts| - 1 :: !cuts[i].last
  }

  /** The octets of `s` that fill whole blocks. */
  function InBlocks(s: seq<byte>, block: nat): (r: seq<byte>)
    requires block > 0
  {
    WholePart(|s|, block);
    s[..|s| - |s| % block]
  }

  lemma InBlocksAfter(a: seq<byte>, b: seq<byte>, block: nat)
    requires block > 0 && |a| % block == 0
    ensures InBlocks(a + b, block) == a + InBlocks(b, block)
  {
    var q := |a| / block;
    assert |a| == block * q;
    DivOfMultiple(block, q, |b|);
    WholePart(|b|, block);
  }

  lemma LessThanABlock(s: seq<byte>, block: nat)
    requires |s| < block
    ensures InBlocks(s, block) == []
  {
    DivUnique(|s|, block, 0, |s|);
  }

  /** With less than a block carried along, an end without data leaves the last partial block behind. */
  lemma {:induction false} BareEnd(pending: seq<byte>, cuts: seq<Read>, block: nat)
    requires block > 0 && EndsOnce(cuts) && cuts[|cuts| - 1].data == [] && |pending| < block
    ensures Flatten(Chunks(pending, cuts, block)) == InBlocks(pending + Data(cuts), block)
    decreases |cuts|
  {
    var r := cuts[0];
    if |cuts| == 1 {
      assert Data(cuts) == [] + [] && pending + [] == pending;
      assert Chunks(pending, cuts, block) == [];
      LessThanABlock(pending, block);
    } else {
      var all, later := pending + r.data, Data(cuts[1..]);
      var usable := Usable(|all|, r, block);
      var carried := all[usable..];
      CarryIsShort(pending, r, block);
      assert EndsOnce(cuts[1..]) by { assert cuts[1..][|cuts| - 2] == cuts[|cuts| - 1]; }
      hide Usable, InBlocks, EndsOnce;
      BareEnd(carried, cuts[1..], block);
      EmittedFlat(all, usable);
      FlattenConcat(Emitted(all, usable), Chunks(carried, cuts[1..], block));
      SplitStream(pending, r.data, later, usable);
      InBlocksAfter(all[..usable], carried + later, block);
    }
  }

  lemma CarryIsShort(pending: seq<byte>, r: Read, block: nat)
    requires block > 0 && !r.last && |pending| < block
    ensures |pending + r.data| - Usable(|pending + r.data|, r, block) < block
  {
  }

  /** The remainder is flushed at the end of the stream exactly when the end comes with data, or there is no
      remainder: an end reported by a read of its own loses the octets beyond the last whole block. */
  lemma FlushedIff(cuts: seq<Read>, block: nat)
    requires block > 0 && EndsOnce(cuts)
    ensures Flatten(Chunks([], cuts, block)) == Data(cuts) <==>
            cuts[|cuts| - 1].data != [] || |Data(cuts)| % block == 0
  {
    var all := Data(cuts);
    assert [] + all == all;
    if cuts[|cuts| - 1].data != [] {
      ChunksAreTheStream([], cuts, block);
    } else {
      BareEnd([], cuts, block);
      WholePart(|all|, block);
      assert all[..|all|] == all;
    }
  }
}
