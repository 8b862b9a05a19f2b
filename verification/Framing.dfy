/** The frame layout of RFC 6455, section 5.2, read and written independently of the engine. */
module Framing {
  import opened Bytes

  /** Everything one frame says. `payload` is the application's view, before masking. */
  datatype Frame = Frame(
    fin: bool, rsv1: bool, rsv2: bool, rsv3: bool,
    opcode: int,
    key: Option<seq<byte>>,
    payload: seq<byte>
  )

  const MAX_LENGTH: nat := 0x8000_0000_0000_0000

  predicate WellFormed(f: Frame) {
    && 0 <= f.opcode < 16
    && |f.payload| < MAX_LENGTH
    && (f.key.Some? ==> |f.key.value| == 4)
  }

  predicate AllWellFormed(fs: seq<Frame>) {
    forall i | 0 <= i < |fs| :: WellFormed(fs[i])
  }

  /** Section 5.3: octet i of the payload is combined with octet i modulo 4 of the key. */
  function Masked(payload: seq<byte>, key: seq<byte>): (r: seq<byte>)
    requires |key| == 4
    ensures |r| == |payload|
  {
    seq(|payload|, i requires 0 <= i < |payload| => Xor(payload[i], key[i % 4]))
  }

  lemma MaskedTwice(payload: seq<byte>, key: seq<byte>)
    requires |key| == 4
    ensures Masked(Masked(payload, key), key) == payload
  {
    var once := Masked(payload, key);
    forall i | 0 <= i < |payload| ensures Masked(once, key)[i] == payload[i] {
      XorInvolution(payload[i], key[i % 4]);
    }
  }

  /** `masked` is `payload` under the key: octet j differs from octet j of the payload in exactly the bits of octet j
      modulo 4 of the key. */
  predicate Under(masked: seq<byte>, payload: seq<byte>, key: seq<byte>)
    requires |key| == 4
  {
    |masked| == |payload| && forall j | 0 <= j < |payload| :: IsXor(masked[j], payload[j], key[j % 4])
  }

  lemma MaskedUnderKey(payload: seq<byte>, key: seq<byte>)
    requires |key| == 4
    ensures Under(Masked(payload, key), payload, key)
  {
    forall j | 0 <= j < |payload| ensures IsXor(Masked(payload, key)[j], payload[j], key[j % 4]) {
      XorIsXor(payload[j], key[j % 4]);
    }
  }

  // ---------------------------------------------------------------------------
  // Writing
  // ---------------------------------------------------------------------------

  function FirstOctet(f: Frame): byte
    requires 0 <= f.opcode < 16
  {
    (if f.fin then 128 else 0) + (if f.rsv1 then 64 else 0) + (if f.rsv2 then 32 else 0)
    + (if f.rsv3 then 16 else 0) + f.opcode
  }

  /** The second octet and the extended length, if any, in the shortest of the three forms. */
  function LengthOctets(n: nat, masked: bool): (s: seq<byte>)
    requires n < MAX_LENGTH
  {
    var bit := if masked then 128 else 0;
    if n <= 125 then [bit + n]
    else if n <= 65535 then [bit + 126] + ToBigEndian(n, 2)
    else [bit + 127] + ToBigEndian(n, 8)
  }

  /** What follows the length: the key, if any, and the octets as sent. */
  function Body(f: Frame): seq<byte>
    requires WellFormed(f)
  {
    match f.key
    case None => f.payload
    case Some(key) => key + Masked(f.payload, key)
  }

  function WriteFrame(f: Frame): seq<byte>
    requires WellFormed(f)
  {
    [FirstOctet(f)] + LengthOctets(|f.payload|, f.key.Some?) + Body(f)
  }

  // ---------------------------------------------------------------------------
  // Reading
  // ---------------------------------------------------------------------------

  /** Payload length and number of header octets up to and including the length, once they have all arrived. */
  function ReadLength(bs: seq<byte>): Option<(nat, nat)> {
    if |bs| < 2 then None
    else
      var len7 := bs[1] % 128;
      if len7 < 126 then Some((len7, 2))
      else if len7 == 126 then (if |bs| < 4 then None else Some((BigEndian(bs[2..4]), 4)))
      else if |bs| < 10 then None
      else Some((BigEndian(bs[2..10]), 10))
  }

  /** The frame whose first octet, key and unmasked payload are given. */
  function Assemble(first: byte, key: Option<seq<byte>>, payload: seq<byte>): Frame {
    Frame(first / 128 == 1, first / 64 % 2 == 1, first / 32 % 2 == 1, first / 16 % 2 == 1, first % 16, key, payload)
  }

  /** The first frame of an octet stream and how many octets it takes, once it is complete. */
  function ReadFrame(bs: seq<byte>): (r: Option<(Frame, nat)>)
    ensures r.Some? ==> 2 <= r.value.1 <= |bs|
  {
    match ReadLength(bs)
    case None => None
    case Some((len, h)) =>
      var masked := bs[1] / 128 == 1;
      var start := if masked then h + 4 else h;
      if len >= MAX_LENGTH || |bs| < start + len then None
      else
        var raw := bs[start..start + len];
        var key := if masked then Some(bs[h..h + 4]) else None;
        Some((Assemble(bs[0], key, if masked then Masked(raw, bs[h..h + 4]) else raw), start + len))
  }

  /** A whole octet stream as a list of frames, if nothing is left over. */
  function ReadFrames(bs: seq<byte>): Option<seq<Frame>>
    decreases |bs|
  {
    if bs == [] then Some([])
    else match ReadFrame(bs)
      case None => None
      case Some((f, n)) =>
        match ReadFrames(bs[n..])
        case None => None
        case Some(fs) => Some([f] + fs)
  }

  function WriteFrames(fs: seq<Frame>): seq<byte>
    requires AllWellFormed(fs)
  {
    if fs == [] then [] else WriteFrame(fs[0]) + WriteFrames(fs[1..])
  }

  // ---------------------------------------------------------------------------
  // Reading undoes writing
  // ---------------------------------------------------------------------------

  lemma Pow256Values()
    ensures Pow256(2) == 65536 && Pow256(8) == 2 * MAX_LENGTH
  {
    assert Pow256(4) == 0x1_0000_0000;
  }

  lemma ReadMediumLength(bs: seq<byte>, n: nat)
    requires n <= 65535 && |bs| >= 4 && bs[1] % 128 == 126 && bs[2..4] == ToBigEndian(n, 2)
    ensures ReadLength(bs) == Some((n, 4))
  {
    Pow256Values();
    BigEndianRoundTrip(n, 2);
    hide BigEndian, ToBigEndian;
  }

  lemma ReadLongLength(bs: seq<byte>, n: nat)
    requires n < MAX_LENGTH && |bs| >= 10 && bs[1] % 128 == 127 && bs[2..10] == ToBigEndian(n, 8)
    ensures ReadLength(bs) == Some((n, 10))
  {
    Pow256Values();
    BigEndianRoundTrip(n, 8);
    hide BigEndian, ToBigEndian;
  }

  lemma ReadLengthOfWritten(first: byte, n: nat, masked: bool, rest: seq<byte>)
    requires n < MAX_LENGTH
    ensures var lo := LengthOctets(n, masked);
      var bs := [first] + lo + rest;
      && ReadLength(bs) == Some((n, 1 + |lo|))
      && (bs[1] / 128 == 1 <==> masked)
  {
    hide BigEndian, ToBigEndian;
    var lo := LengthOctets(n, masked);
    var bs := [first] + lo + rest;
    assert bs[1] == lo[0];
    if n <= 125 {
    } else if n <= 65535 {
      assert bs[2..4] == ToBigEndian(n, 2);
      ReadMediumLength(bs, n);
    } else {
      assert bs[2..10] == ToBigEndian(n, 8);
      ReadLongLength(bs, n);
    }
  }

  lemma AssembleFirstOctet(f: Frame)
    requires 0 <= f.opcode < 16
    ensures Assemble(FirstOctet(f), f.key, f.payload) == f
  {
  }

  /** Reading back a frame whose length is known to occupy the octets before `h`. */
  lemma ReadBody(bs: seq<byte>, h: nat, f: Frame)
    requires WellFormed(f)
    requires ReadLength(bs) == Some((|f.payload|, h)) && 2 <= h
    requires bs[0] == FirstOctet(f) && (bs[1] / 128 == 1 <==> f.key.Some?)
    requires |bs| >= h + |Body(f)| && bs[h..h + |Body(f)|] == Body(f)
    ensures ReadFrame(bs) == Some((f, h + |Body(f)|))
  {
    hide Masked, BigEndian, ReadLength, FirstOctet, Assemble;
    AssembleFirstOctet(f);
    var b := Body(f);
    if f.key.Some? {
      var key := f.key.value;
      assert bs[h..h + 4] == b[..4] == key;
      assert bs[h + 4..h + 4 + |f.payload|] == b[4..] == Masked(f.payload, key);
      MaskedTwice(f.payload, key);
    }
  }

  lemma ReadFrameOfWritten(f: Frame, rest: seq<byte>)
    requires WellFormed(f)
    ensures ReadFrame(WriteFrame(f) + rest) == Some((f, |WriteFrame(f)|))
  {
    var lo := LengthOctets(|f.payload|, f.key.Some?);
    var bs := WriteFrame(f) + rest;
    var h := 1 + |lo|;
    assert bs == [FirstOctet(f)] + lo + (Body(f) + rest);
    ReadLengthOfWritten(FirstOctet(f), |f.payload|, f.key.Some?, Body(f) + rest);
    assert bs[h..h + |Body(f)|] == Body(f);
    ReadBody(bs, h, f);
  }

  lemma {:induction false} ReadFramesOfWritten(fs: seq<Frame>)
    requires AllWellFormed(fs)
    ensures ReadFrames(WriteFrames(fs)) == Some(fs)
  {
    if fs != [] {
      var rest := WriteFrames(fs[1..]);
      var head := WriteFrame(fs[0]);
      ReadFrameOfWritten(fs[0], rest);
      var bs := WriteFrames(fs);
      assert bs == head + rest && bs != [];
      assert bs[|head|..] == rest;
      assert ReadFrame(bs) == Some((fs[0], |head|));
      ReadFramesOfWritten(fs[1..]);
      assert [fs[0]] + fs[1..] == fs;
    }
  }

  lemma BigEndianBound(s: seq<byte>)
    ensures BigEndian(s) < Pow256(|s|)
  {
  }

  lemma ShortestLength(n: nat, len7: nat, masked: bool)
    requires n < MAX_LENGTH && len7 < 128
    requires if len7 < 126 then n == len7 else if len7 == 126 then n < 65536 else true
    ensures |LengthOctets(n, masked)| <= if len7 < 126 then 1 else if len7 == 126 then 3 else 9
  {
  }

  /** Nothing shorter than `WriteFrame(f)` says the same frame: every length is in its shortest form. */
  lemma WrittenIsShortest(bs: seq<byte>)
    requires ReadFrame(bs).Some?
    ensures var (f, n) := ReadFrame(bs).value;
      WellFormed(f) && |WriteFrame(f)| <= n
  {
    var (len, h) := ReadLength(bs).value;
    var len7 := bs[1] % 128;
    Pow256Values();
    if h == 4 {
      BigEndianBound(bs[2..4]);
    }
    ShortestLength(len, len7, bs[1] / 128 == 1);
    hide LengthOctets;
  }
}
