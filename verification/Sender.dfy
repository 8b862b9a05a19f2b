/** The framing encoder: one message in, one masked frame out (`send`). */
module Sender {
  import opened Bytes
  import opened EvBuffers
  import opened Framing

  datatype MessageType = TEXT | BINARY | CLOSE | PING | PONG

  predicate IsControl(t: MessageType) { t.CLOSE? || t.PING? || t.PONG? }

  function OpcodeOf(t: MessageType): (r: int)
    ensures 0 <= r < 16
  {
    match t
    case TEXT => 1
    case BINARY => 2
    case CLOSE => 8
    case PING => 9
    case PONG => 10
  }

  function TypeOf(opcode: int): Option<MessageType> {
    match opcode
    case 1 => Some(TEXT)
    case 2 => Some(BINARY)
    case 8 => Some(CLOSE)
    case 9 => Some(PING)
    case 10 => Some(PONG)
    case _ => None
  }

  /** One call of `send`. `deflated` is what the compressor makes of the payload, None when it is not in
      use or gives up; `key` is the mask the generator produced for this frame. */
  datatype Outgoing = Outgoing(kind: MessageType, payload: seq<byte>, deflated: Option<seq<byte>>, key: seq<byte>)

  predicate Sendable(o: Outgoing) {
    && |o.key| == 4
    && |o.payload| < MAX_LENGTH
    && (o.deflated.Some? ==> |o.deflated.value| < MAX_LENGTH)
  }

  predicate AllSendable(os: seq<Outgoing>) {
    forall i | 0 <= i < |os| :: Sendable(os[i])
  }

  /** Oversized control payloads are dropped without a word to the caller. */
  predicate Dropped(o: Outgoing) { IsControl(o.kind) && |o.payload| > 125 }

  predicate Compressed(o: Outgoing) { !IsControl(o.kind) && o.deflated.Some? }

  /** The one frame that carries the message: final, masked, RSV1 exactly when compressed. */
  function FrameFor(o: Outgoing): (f: Frame)
    requires Sendable(o)
    ensures WellFormed(f)
  {
    Frame(true, Compressed(o), false, false, OpcodeOf(o.kind), Some(o.key),
          if Compressed(o) then o.deflated.value else o.payload)
  }

  /** The frames of a list of calls, dropped calls leaving none. */
  function FramesFor(os: seq<Outgoing>): (fs: seq<Frame>)
    requires AllSendable(os)
    ensures AllWellFormed(fs)
  {
    if os == [] then []
    else (if Dropped(os[0]) then [] else [FrameFor(os[0])]) + FramesFor(os[1..])
  }

  /** The octets one call puts on the wire. */
  function Written(o: Outgoing): seq<byte>
    requires Sendable(o)
  {
    if Dropped(o) then [] else WriteFrame(FrameFor(o))
  }

  method MaskPayload(payload: seq<byte>, key: seq<byte>) returns (masked: seq<byte>)
    requires |key| == 4
    ensures masked == Masked(payload, key) && Under(masked, payload, key)
  {
    MaskedUnderKey(payload, key);
    hide Under;
    masked := [];
    var i := 0;
    while i < |payload|
      invariant 0 <= i <= |payload|
      invariant masked == Masked(payload, key)[..i]
    {
      masked := masked + [Xor(payload[i], key[i % 4])];
      i := i + 1;
    }
    assert masked == Masked(payload, key);
  }

  /** The parts of the frame, as `send` adds them to its output. */
  lemma WrittenParts(o: Outgoing, b1: byte, masked: seq<byte>)
    requires Sendable(o) && !Dropped(o)
    requires b1 == 0x80 + (if Compressed(o) then 0x40 else 0) + OpcodeOf(o.kind)
    requires masked == Masked(FrameFor(o).payload, o.key)
    ensures Written(o) == [b1] + LengthOctets(|FrameFor(o).payload|, true) + (o.key + masked)
  {
    assert FirstOctet(FrameFor(o)) == b1;
    assert Body(FrameFor(o)) == o.key + masked;
  }

  predicate Compresses(o: Outgoing) { (o.kind.TEXT? || o.kind.BINARY?) && o.deflated.Some? }

  /** What the call carries. */
  function Carried(o: Outgoing): seq<byte> {
    if Compresses(o) then o.deflated.value else o.payload
  }

  /** The length part of a masked frame: the mask bit and the length, in one, three or nine octets. */
  predicate LengthOnWire(lo: seq<byte>, n: nat) {
    if n <= 125 then lo == [128 + n]
    else if n <= 65535 then |lo| == 3 && lo[0] == 128 + 126 && lo[1] as int * 256 + lo[2] == n
    else |lo| == 9 && lo[0] == 128 + 127 && BigEndian(lo[1..]) == n
  }

  /** The octets of one call as RFC 6455, section 5.2, draws them: FIN, RSV1 and opcode; mask bit and length; the key;
      the payload under the key. */
  predicate OnWire(w: seq<byte>, o: Outgoing)
    requires Sendable(o)
  {
    var n := |Carried(o)|;
    var h := if n <= 125 then 2 else if n <= 65535 then 4 else 10;
    && |w| == h + 4 + n
    && w[0] == 128 + (if Compresses(o) then 64 else 0)
               + (match o.kind case TEXT => 1 case BINARY => 2 case CLOSE => 8 case PING => 9 case PONG => 10)
    && LengthOnWire(w[1..h], n)
    && w[h..h + 4] == o.key
    && Under(w[h + 4..], Carried(o), o.key)
  }

  lemma LengthIsOnWire(n: nat)
    requires n < MAX_LENGTH
    ensures LengthOnWire(LengthOctets(n, true), n)
  {
    var lo := LengthOctets(n, true);
    if 125 < n <= 65535 {
      ToBigEndianTwo(n);
    } else if 65535 < n {
      Pow256Values();
      BigEndianRoundTrip(n, 8);
      assert lo[1..] == ToBigEndian(n, 8);
    }
    hide BigEndian, ToBigEndian;
  }

  lemma FourParts(first: seq<byte>, lo: seq<byte>, key: seq<byte>, body: seq<byte>)
    requires |first| == 1 && |key| == 4
    ensures var w := first + lo + (key + body); var h := 1 + |lo|;
      w[..1] == first && w[1..h] == lo && w[h..h + 4] == key && w[h + 4..] == body
  {
  }

  lemma WrittenOnWire(o: Outgoing)
    requires Sendable(o) && !Dropped(o)
    ensures OnWire(Written(o), o)
  {
    var p := Carried(o);
    var lo, masked := LengthOctets(|p|, true), Masked(p, o.key);
    assert FrameFor(o).payload == p;
    assert Written(o) == [FirstOctet(FrameFor(o))] + lo + (o.key + masked);
    MaskedUnderKey(p, o.key);
    LengthIsOnWire(|p|);
    FourParts([FirstOctet(FrameFor(o))], lo, o.key, masked);
    hide Under, Masked, Written, Carried, ToBigEndian, BigEndian;
    assert Written(o)[0] == Written(o)[..1][0];
  }

  method Send(buf: EvBuffer, o: Outgoing)
    requires Sendable(o)
    modifies buf
    ensures buf.data == old(buf.data) + Written(o)
    ensures if Dropped(o) then Written(o) == [] else OnWire(Written(o), o)
  {
    hide OnWire, Masked, Under, LengthOctets;
    var isControl := o.kind.CLOSE? || o.kind.PING? || o.kind.PONG?;
    if isControl && |o.payload| > 125 {
      assert buf.data + [] == buf.data;
      return;
    }
    WrittenOnWire(o);
    hide Written;
    var payload := o.payload;
    var doCompress := false;
    if !isControl && o.deflated.Some? {
      payload := o.deflated.value;
      doCompress := true;
    }

    var b1 := 0x80;
    if doCompress { b1 := b1 + 0x40; }
    match o.kind {
      case TEXT => b1 := b1 + 0x01;
      case BINARY => b1 := b1 + 0x02;
      case CLOSE => b1 := b1 + 0x08;
      case PING => b1 := b1 + 0x09;
      case PONG => b1 := b1 + 0x0A;
    }

    ghost var start, head := buf.data, [b1] + LengthOctets(|payload|, true);
    AddHeader(buf, b1, |payload|);
    var masked := MaskPayload(payload, o.key);
    buf.Add(o.key);
    buf.Add(masked);
    WrittenParts(o, b1, masked);
    ConcatAssoc(start + head, o.key, masked);
    ConcatAssoc(start, head, o.key + masked);
  }

  /** The first octet and the length. */
  method AddHeader(buf: EvBuffer, b1: byte, n: nat)
    requires n < MAX_LENGTH
    modifies buf
    ensures buf.data == old(buf.data) + ([b1] + LengthOctets(n, true))
  {
    hide ToBigEndian;
    var b2 := 0x80;
    if n <= 125 {
      b2 := b2 + n;
    } else if n <= 65535 {
      b2 := b2 + 126;
    } else {
      b2 := b2 + 127;
    }
    ghost var start, length := buf.data, LengthOctets(n, true);
    buf.Add([b1]);
    buf.Add([b2]);
    if b2 % 128 == 126 {
      ConcatAssoc(start + [b1], [b2], ToBigEndian(n, 2));
      buf.Add(ToBigEndian(n, 2));
    } else if b2 % 128 == 127 {
      ConcatAssoc(start + [b1], [b2], ToBigEndian(n, 8));
      buf.Add(ToBigEndian(n, 8));
    }
    assert buf.data == (start + [b1]) + length;
    ConcatAssoc(start, [b1], length);
  }

  // ---------------------------------------------------------------------------
  // What the peer reads back
  // ---------------------------------------------------------------------------

  /** The message a frame carries, given the peer's decompressor. */
  function MessageOf(f: Frame, inflate: seq<byte> -> seq<byte>): Option<(MessageType, seq<byte>)> {
    match TypeOf(f.opcode)
    case None => None
    case Some(t) => Some((t, if f.rsv1 then inflate(f.payload) else f.payload))
  }

  function MessagesOf(fs: seq<Frame>, inflate: seq<byte> -> seq<byte>): seq<Option<(MessageType, seq<byte>)>> {
    seq(|fs|, i requires 0 <= i < |fs| => MessageOf(fs[i], inflate))
  }

  /** The messages of a list of calls that are not dropped, in order. */
  function Accepted(os: seq<Outgoing>): seq<Option<(MessageType, seq<byte>)>> {
    if os == [] then []
    else (if Dropped(os[0]) then [] else [Some((os[0].kind, os[0].payload))]) + Accepted(os[1..])
  }

  ghost predicate Inverse(os: seq<Outgoing>, inflate: seq<byte> -> seq<byte>) {
    forall o | o in os && o.deflated.Some? :: inflate(o.deflated.value) == o.payload
  }

  lemma FrameCarries(o: Outgoing, inflate: seq<byte> -> seq<byte>)
    requires Sendable(o) && (o.deflated.Some? ==> inflate(o.deflated.value) == o.payload)
    ensures MessageOf(FrameFor(o), inflate) == Some((o.kind, o.payload))
  {
  }

  lemma MessagesOfFirst(f: Frame, fs: seq<Frame>, inflate: seq<byte> -> seq<byte>)
    ensures MessagesOf([f] + fs, inflate) == [MessageOf(f, inflate)] + MessagesOf(fs, inflate)
  {
    hide MessageOf;
  }

  lemma {:induction false} FramesCarryMessages(os: seq<Outgoing>, inflate: seq<byte> -> seq<byte>)
    requires AllSendable(os)
    requires Inverse(os, inflate)
    ensures MessagesOf(FramesFor(os), inflate) == Accepted(os)
  {
    if os != [] {
      hide MessageOf, FrameFor;
      var o := os[0];
      assert o in os && Inverse(os[1..], inflate);
      FramesCarryMessages(os[1..], inflate);
      if Dropped(o) {
        assert FramesFor(os) == [] + FramesFor(os[1..]) == FramesFor(os[1..]);
        assert Accepted(os) == [] + Accepted(os[1..]) == Accepted(os[1..]);
      } else {
        FrameCarries(o, inflate);
        MessagesOfFirst(FrameFor(o), FramesFor(os[1..]), inflate);
      }
    }
  }

  function WrittenAll(os: seq<Outgoing>): seq<byte>
    requires AllSendable(os)
  {
    if os == [] then [] else Written(os[0]) + WrittenAll(os[1..])
  }

  lemma {:induction false} WrittenAllIsFrames(os: seq<Outgoing>)
    requires AllSendable(os)
    ensures WrittenAll(os) == WriteFrames(FramesFor(os))
  {
    if os != [] {
      WrittenAllIsFrames(os[1..]);
      if Dropped(os[0]) {
        assert FramesFor(os) == FramesFor(os[1..]);
      } else {
        assert FramesFor(os)[1..] == FramesFor(os[1..]);
      }
    }
  }

  /** Whatever is sent, in any number of calls, reads back with nothing left over as one masked final
      frame per call that was not dropped, and those frames carry the messages in order. */
  lemma RoundTrip(os: seq<Outgoing>, inflate: seq<byte> -> seq<byte>)
    requires AllSendable(os)
    requires Inverse(os, inflate)
    ensures ReadFrames(WrittenAll(os)) == Some(FramesFor(os))
    ensures MessagesOf(FramesFor(os), inflate) == Accepted(os)
  {
    WrittenAllIsFrames(os);
    ReadFramesOfWritten(FramesFor(os));
    FramesCarryMessages(os, inflate);
  }

  /** With every control payload within 125 octets nothing is dropped. */
  lemma {:induction false} NothingDropped(os: seq<Outgoing>)
    requires forall i | 0 <= i < |os| :: !Dropped(os[i])
    ensures |Accepted(os)| == |os|
    ensures forall i | 0 <= i < |os| :: Accepted(os)[i] == Some((os[i].kind, os[i].payload))
    decreases |os|
  {
    if os != [] {
      hide Dropped;
      var rest := os[1..];
      forall i | 0 <= i < |rest| ensures !Dropped(rest[i]) { assert rest[i] == os[i + 1]; }
      NothingDropped(rest);
      assert Accepted(os) == [Some((os[0].kind, os[0].payload))] + Accepted(rest);
    }
  }

  /** A run of calls appends what each of them writes, in order: the octets `RoundTrip` reads. */
  method SendAll(buf: EvBuffer, os: seq<Outgoing>)
    requires AllSendable(os)
    modifies buf
    ensures buf.data == old(buf.data) + WrittenAll(os)
    decreases |os|
  {
    if os != [] {
      ConcatAssoc(buf.data, Written(os[0]), WrittenAll(os[1..]));
      Send(buf, os[0]);
      SendAll(buf, os[1..]);
    }
  }

}
