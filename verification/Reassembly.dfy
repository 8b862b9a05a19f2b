/** Fragmented messages with control frames between the fragments come out whole (RFC 6455, section 5.4). */
module Reassembly {
  import opened Bytes
  import opened Utf8
  import opened Framing
  import opened Receiver
  import opened Chunking

  // ---------------------------------------------------------------------------
  // The parser reads frames as the RFC lays them out
  // ---------------------------------------------------------------------------

  /** The frames a client takes from a server. */
  predicate Acceptable(f: Frame, compression: bool) {
    && f.key.None? && !f.rsv2 && !f.rsv3
    && (f.rsv1 ==> compression)
    && (f.opcode / 8 == 1 ==> f.fin && |f.payload| <= 125)
  }

  function AsParsed(f: Frame, need: nat): Parsed {
    Complete(f.fin, f.rsv1, f.opcode, f.payload, need)
  }

  /** The receive loop has a frame to dispatch exactly when the stream starts with an acceptable one. */
  lemma ParseReadsFrames(bs: seq<byte>, compression: bool)
    ensures ReadFrame(bs).Some? && Acceptable(ReadFrame(bs).value.0, compression) <==>
            Parse(bs, compression).Complete? && |Parse(bs, compression).payload| < MAX_LENGTH
    ensures ReadFrame(bs).Some? && Acceptable(ReadFrame(bs).value.0, compression) ==>
            Parse(bs, compression) == AsParsed(ReadFrame(bs).value.0, ReadFrame(bs).value.1)
  {
  }

  predicate KnownOpcode(op: int) { op == 0 || op == 1 || op == 2 || op == 8 || op == 9 || op == 10 }

  predicate Servable(f: Frame, compression: bool) {
    WellFormed(f) && Acceptable(f, compression) && KnownOpcode(f.opcode)
  }

  predicate AllServable(fs: seq<Frame>, compression: bool) {
    forall i | 0 <= i < |fs| :: Servable(fs[i], compression)
  }

  function Step(cfg: Config, r: RState, f: Frame): (RState, Option<Event>) {
    Dispatch(cfg, r, AsParsed(f, 2)).0
  }

  /** What a list of frames makes of the receiver: its state, its events, and whether it stopped. */
  function RunFrames(cfg: Config, r: RState, fs: seq<Frame>): (RState, seq<Event>, bool)
    decreases |fs|
  {
    if fs == [] then (r, [], false)
    else
      var (r1, e) := Step(cfg, r, fs[0]);
      if Ends(e) then (r1, Opt(e), true)
      else
        var (r2, es, done) := RunFrames(cfg, r1, fs[1..]);
        (r2, Opt(e) + es, done)
  }

  lemma PassOneFrame(cfg: Config, r: RState, f: Frame, rest: seq<byte>, log: seq<Event>)
    requires Servable(f, cfg.compression)
    ensures Pass(cfg, Rx(r, WriteFrame(f) + rest, false, log)) ==
            var (r', e) := Step(cfg, r, f);
            Some(Rx(r', rest, Ends(e), log + Opt(e)))
  {
    var bs := WriteFrame(f) + rest;
    ReadFrameOfWritten(f, rest);
    ParseReadsFrames(bs, cfg.compression);
    assert bs[|WriteFrame(f)|..] == rest;
  }

  /** The receive loop over written frames is the run of the frames. */
  lemma {:induction false} DrainFrames(cfg: Config, r: RState, fs: seq<Frame>, rest: seq<byte>, log: seq<Event>)
    requires AllServable(fs, cfg.compression)
    ensures var (r', es, done) := RunFrames(cfg, r, fs);
      var x := Drain(cfg, Rx(r, WriteFrames(fs) + rest, false, log));
      if done then x.r == r' && x.done && x.log == log + es
      else x == Drain(cfg, Rx(r', rest, false, log + es))
    decreases |fs|
  {
    if fs == [] {
      assert WriteFrames(fs) + rest == rest;
      assert log + [] == log;
    } else {
      var tail := WriteFrames(fs[1..]) + rest;
      ConcatAssoc(WriteFrame(fs[0]), WriteFrames(fs[1..]), rest);
      PassOneFrame(cfg, r, fs[0], tail, log);
      var (r1, e) := Step(cfg, r, fs[0]);
      if !Ends(e) {
        DrainFrames(cfg, r1, fs[1..], rest, log + Opt(e));
        ConcatAssoc(log, Opt(e), RunFrames(cfg, r1, fs[1..]).1);
      }
    }
  }

  lemma {:induction false} RunFramesConcat(cfg: Config, r: RState, a: seq<Frame>, b: seq<Frame>)
    ensures RunFrames(cfg, r, a + b) ==
      var (r1, es, done) := RunFrames(cfg, r, a);
      if done then (r1, es, true)
      else var (r2, fs, done') := RunFrames(cfg, r1, b); (r2, es + fs, done')
    decreases |a|
  {
    if a == [] {
      assert a + b == b;
      assert [] + RunFrames(cfg, r, b).1 == RunFrames(cfg, r, b).1;
    } else {
      assert (a + b)[1..] == a[1..] + b;
      var (r1, e) := Step(cfg, r, a[0]);
      RunFramesConcat(cfg, r1, a[1..], b);
      var (r2, es, _) := RunFrames(cfg, r1, a[1..]);
      ConcatAssoc(Opt(e), es, RunFrames(cfg, r2, b).1);
      assert (a + b)[0] == a[0];
    }
  }

  // ---------------------------------------------------------------------------
  // Messages and how a server may cut them
  // ---------------------------------------------------------------------------

  datatype Control = PingFrame(payload: seq<byte>) | PongFrame(payload: seq<byte>)

  /** A piece of a message and the control frames sent just before it. */
  datatype Fragment = Fragment(before: seq<Control>, data: seq<byte>)

  datatype Message = Message(text: bool, compressed: bool, fragments: seq<Fragment>)

  predicate Sound(m: Message, compression: bool) {
    && m.fragments != []
    && SoundFragments(m.fragments)
    && (m.compressed ==> compression)
  }

  predicate AllSound(ms: seq<Message>, compression: bool) {
    forall i | 0 <= i < |ms| :: Sound(ms[i], compression)
  }

  predicate SoundFragments(fs: seq<Fragment>) {
    forall i | 0 <= i < |fs| ::
      |fs[i].data| < MAX_LENGTH && forall c | c in fs[i].before :: |c.payload| <= 125
  }

  function Payload(fs: seq<Fragment>): seq<byte> {
    if fs == [] then [] else fs[0].data + Payload(fs[1..])
  }

  function ControlFrames(cs: seq<Control>): seq<Frame> {
    if cs == [] then []
    else [Frame(true, false, false, false, if cs[0].PingFrame? then 9 else 10, None, cs[0].payload)] + ControlFrames(cs[1..])
  }

  function DataFrame(m: Message, i: nat): Frame
    requires i < |m.fragments|
  {
    Frame(i == |m.fragments| - 1, m.compressed && i == 0, false, false,
          if i > 0 then 0 else if m.text then 1 else 2, None, m.fragments[i].data)
  }

  /** The frames of a message from fragment `i` on. */
  function FramesFrom(m: Message, i: nat): seq<Frame>
    requires i <= |m.fragments|
    decreases |m.fragments| - i
  {
    if i == |m.fragments| then []
    else ControlFrames(m.fragments[i].before) + ([DataFrame(m, i)] + FramesFrom(m, i + 1))
  }

  function StreamFrames(ms: seq<Message>): seq<Frame> {
    if ms == [] then [] else FramesFrom(ms[0], 0) + StreamFrames(ms[1..])
  }

  // ---------------------------------------------------------------------------
  // What the owner should hear
  // ---------------------------------------------------------------------------

  function Pings(cs: seq<Control>): seq<Event> {
    if cs == [] then []
    else (if cs[0].PingFrame? then [Ping(cs[0].payload)] else []) + Pings(cs[1..])
  }

  function AllPings(fs: seq<Fragment>): seq<Event> {
    if fs == [] then [] else Pings(fs[0].before) + AllPings(fs[1..])
  }

  ghost function TextEvent(content: seq<byte>): Event {
    if ValidUtf8(content) then Text(content) else ProtocolError(1007, BAD_TEXT)
  }

  /** The one event a complete message gives rise to. */
  ghost function Outcome(cfg: Config, context: seq<seq<byte>>, m: Message, payload: seq<byte>): (e: Event)
    ensures e.Text? || e.Binary? || e.ProtocolError?
  {
    if !m.compressed then (if m.text then TextEvent(payload) else Binary(payload))
    else match cfg.inflate(if cfg.noTakeover then [] else context, payload)
      case None => ProtocolError(1007, "Decompression failed")
      case Some(content) => if m.text then TextEvent(content) else Binary(content)
  }

  /** The events of a message from fragment `i` on. An uncompressed text fails as soon as what has
      arrived is not the beginning of any valid text. */
  ghost function EventsFrom(cfg: Config, context: seq<seq<byte>>, m: Message, i: nat): seq<Event>
    requires i < |m.fragments|
    decreases |m.fragments| - i
  {
    var sofar := Payload(m.fragments[..i + 1]);
    Pings(m.fragments[i].before) +
    if i == |m.fragments| - 1 then [Outcome(cfg, context, m, sofar)]
    else if m.text && !m.compressed && !Viable(sofar) then [ProtocolError(1007, BAD_TEXT)]
    else EventsFrom(cfg, context, m, i + 1)
  }

  ghost predicate Fails(cfg: Config, context: seq<seq<byte>>, m: Message) {
    Outcome(cfg, context, m, Payload(m.fragments)).ProtocolError?
  }

  function NextContext(cfg: Config, context: seq<seq<byte>>, m: Message): seq<seq<byte>> {
    if !m.compressed then context
    else if cfg.noTakeover then [] else context + [Payload(m.fragments)]
  }

  /** The events of a list of messages; nothing is heard after one that fails. */
  ghost function StreamEvents(cfg: Config, context: seq<seq<byte>>, ms: seq<Message>): seq<Event>
    requires forall i | 0 <= i < |ms| :: ms[i].fragments != []
    decreases |ms|
  {
    if ms == [] then []
    else
      var es := EventsFrom(cfg, context, ms[0], 0);
      if Fails(cfg, context, ms[0]) then es
      else es + StreamEvents(cfg, NextContext(cfg, context, ms[0]), ms[1..])
  }

  ghost predicate AnyFails(cfg: Config, context: seq<seq<byte>>, ms: seq<Message>)
    decreases |ms|
  {
    ms != [] && (Fails(cfg, context, ms[0]) || AnyFails(cfg, NextContext(cfg, context, ms[0]), ms[1..]))
  }

  // ---------------------------------------------------------------------------
  // The specification says what it should
  // ---------------------------------------------------------------------------

  lemma {:induction false} PayloadSplit(fs: seq<Fragment>, i: nat)
    requires i <= |fs|
    ensures Payload(fs) == Payload(fs[..i]) + Payload(fs[i..])
  {
    if i > 0 {
      assert fs[1..][..i - 1] == fs[..i][1..];
      assert fs[1..][i - 1..] == fs[i..];
      PayloadSplit(fs[1..], i - 1);
    } else {
      assert fs[..0] == [] && fs[0..] == fs;
    }
  }

  lemma PayloadNext(fs: seq<Fragment>, i: nat)
    requires i < |fs|
    ensures Payload(fs[..i + 1]) == Payload(fs[..i]) + fs[i].data
  {
    PayloadSplit(fs[..i + 1], i);
    assert fs[..i + 1][..i] == fs[..i] && fs[..i + 1][i..] == [fs[i]];
    assert Payload([fs[i]]) == fs[i].data;
  }

  /** What begins with a hopeless text is not valid. */
  lemma HopelessPrefix(a: seq<byte>, b: seq<byte>)
    ensures !Viable(a) ==> !ValidUtf8(a + b)
  {
  }

  /** A message that does not fail gives its pings in order and then exactly one message, the whole payload. */
  lemma {:induction false} SoundMessageEvents(cfg: Config, context: seq<seq<byte>>, m: Message, i: nat)
    requires i < |m.fragments| && !Fails(cfg, context, m)
    ensures EventsFrom(cfg, context, m, i) ==
            AllPings(m.fragments[i..]) + [Outcome(cfg, context, m, Payload(m.fragments))]
    decreases |m.fragments| - i
  {
    var fs := m.fragments;
    var sofar := Payload(fs[..i + 1]);
    assert fs[i..][1..] == fs[i + 1..];
    if i == |fs| - 1 {
      assert fs[..i + 1] == fs;
      assert AllPings(fs[i + 1..]) == [];
      assert AllPings(fs[i..]) == Pings(fs[i].before);
    } else {
      PayloadSplit(fs, i + 1);
      HopelessPrefix(sofar, Payload(fs[i + 1..]));
      SoundMessageEvents(cfg, context, m, i + 1);
      ConcatAssoc(Pings(fs[i].before), AllPings(fs[i + 1..]), [Outcome(cfg, context, m, Payload(fs))]);
    }
  }

  predicate IsPing(e: Event) { e.Ping? }

  predicate OnlyPings(es: seq<Event>) {
    forall i | 0 <= i < |es| :: IsPing(es[i])
  }

  lemma PingsArePings(cs: seq<Control>)
    ensures OnlyPings(Pings(cs))
  {
  }

  predicate PingsThenError(es: seq<Event>) {
    es != [] && es[|es| - 1].ProtocolError? && OnlyPings(es[..|es| - 1])
  }

  lemma PingsBefore(ps: seq<Event>, es: seq<Event>)
    requires OnlyPings(ps) && PingsThenError(es)
    ensures PingsThenError(ps + es)
  {
    assert (ps + es)[..|ps + es| - 1] == ps + es[..|es| - 1];
  }

  /** A message that fails gives only pings and then one protocol error. */
  lemma {:induction false} FailedMessageEvents(cfg: Config, context: seq<seq<byte>>, m: Message, i: nat)
    requires i < |m.fragments| && Fails(cfg, context, m)
    ensures PingsThenError(EventsFrom(cfg, context, m, i))
    decreases |m.fragments| - i
  {
    var fs := m.fragments;
    var sofar := Payload(fs[..i + 1]);
    var ps := Pings(fs[i].before);
    PingsArePings(fs[i].before);
    if i == |fs| - 1 {
      assert fs[..i + 1] == fs;
      PingsBefore(ps, [Outcome(cfg, context, m, sofar)]);
    } else if m.text && !m.compressed && !Viable(sofar) {
      PingsBefore(ps, [ProtocolError(1007, BAD_TEXT)]);
    } else {
      FailedMessageEvents(cfg, context, m, i + 1);
      PingsBefore(ps, EventsFrom(cfg, context, m, i + 1));
    }
  }

  /** An uncompressed text is handed over exactly when its whole payload is valid UTF-8. */
  lemma TextDeliveredIffValid(cfg: Config, context: seq<seq<byte>>, m: Message)
    requires m.fragments != [] && m.text && !m.compressed
    ensures (exists k :: 0 <= k < |EventsFrom(cfg, context, m, 0)|
                      && EventsFrom(cfg, context, m, 0)[k] == Text(Payload(m.fragments)))
            <==> ValidUtf8(Payload(m.fragments))
  {
    var es := EventsFrom(cfg, context, m, 0);
    if ValidUtf8(Payload(m.fragments)) {
      SoundMessageEvents(cfg, context, m, 0);
      assert es[|es| - 1] == Text(Payload(m.fragments));
    } else {
      FailedMessageEvents(cfg, context, m, 0);
      forall k | 0 <= k < |es| ensures !es[k].Text? {
        if k < |es| - 1 { assert IsPing(es[..|es| - 1][k]); }
      }
    }
  }

  // ---------------------------------------------------------------------------
  // The receiver does what the specification says
  // ---------------------------------------------------------------------------

  lemma {:induction false} RunControls(cfg: Config, r: RState, cs: seq<Control>)
    requires forall c | c in cs :: |c.payload| <= 125
    ensures RunFrames(cfg, r, ControlFrames(cs)) == (r, Pings(cs), false)
    decreases |cs|
  {
    if cs != [] {
      RunControls(cfg, r, cs[1..]);
    }
  }

  /** The reassembly invariant: `fragmented_message` is the payload so far, and the validator has been fed it. */
  ghost predicate Reassembling(r: RState, context: seq<seq<byte>>, m: Message, i: nat)
    requires i <= |m.fragments|
  {
    var sofar := Payload(m.fragments[..i]);
    && r.context == context
    && if i == 0 then Idle(r)
       else
         && r.inProgress && r.compressed == m.compressed && r.opcode == (if m.text then 1 else 2)
         && r.message == sofar
         && (m.text && !m.compressed ==> Feed(START, sofar) == (r.utf8, true))
  }

  lemma TextEventIsAccepts(content: seq<byte>)
    ensures TextEvent(content) == if Accepts(content) then Text(content) else ProtocolError(1007, BAD_TEXT)
  {
    AcceptsIffValid(content);
  }

  /** The data frame of fragment `i`: the invariant moves on, or the message ends as it should. */
  lemma StepData(cfg: Config, r: RState, context: seq<seq<byte>>, m: Message, i: nat)
    requires Sound(m, cfg.compression) && i < |m.fragments| && Reassembling(r, context, m, i)
    ensures var sofar := Payload(m.fragments[..i + 1]);
      var (r', e) := Step(cfg, r, DataFrame(m, i));
      if i == |m.fragments| - 1 then
        && e == Some(Outcome(cfg, context, m, sofar))
        && (e.value.ProtocolError? || (Idle(r') && r'.context == NextContext(cfg, context, m)))
      else if m.text && !m.compressed && !Viable(sofar) then e == Some(ProtocolError(1007, BAD_TEXT))
      else e.None? && Reassembling(r', context, m, i + 1)
  {
    var fs := m.fragments;
    var data := fs[i].data;
    var before, sofar := Payload(fs[..i]), Payload(fs[..i + 1]);
    PayloadNext(fs, i);
    FeedConcat(START, before, data);
    FeedOkIffViable(sofar);
    TextEventIsAccepts(sofar);
    if i == |fs| - 1 {
      assert fs[..i + 1] == fs;
      match cfg.inflate(if cfg.noTakeover then [] else context, sofar) {
        case None =>
        case Some(content) => TextEventIsAccepts(content);
      }
    }
    if i == 0 {
      assert fs[..0] == [];
      assert sofar == data;
    }
  }

  lemma HopelessFails(cfg: Config, context: seq<seq<byte>>, m: Message, i: nat)
    requires i < |m.fragments| && m.text && !m.compressed && !Viable(Payload(m.fragments[..i + 1]))
    ensures Fails(cfg, context, m)
  {
    PayloadSplit(m.fragments, i + 1);
    HopelessPrefix(Payload(m.fragments[..i + 1]), Payload(m.fragments[i + 1..]));
  }

  lemma RunFirst(cfg: Config, r: RState, f: Frame, tail: seq<Frame>)
    ensures RunFrames(cfg, r, [f] + tail) ==
      var (r1, e) := Step(cfg, r, f);
      if Ends(e) then (r1, Opt(e), true)
      else var (r2, es, done) := RunFrames(cfg, r1, tail); (r2, Opt(e) + es, done)
    ensures RunFrames(cfg, r, []) == (r, [], false)
  {
    hide Step;
    assert ([f] + tail)[1..] == tail;
  }

  lemma {:induction false} RunMessage(cfg: Config, r: RState, context: seq<seq<byte>>, m: Message, i: nat)
    returns (r': RState)
    requires Sound(m, cfg.compression) && i < |m.fragments| && Reassembling(r, context, m, i)
    ensures RunFrames(cfg, r, FramesFrom(m, i)) == (r', EventsFrom(cfg, context, m, i), Fails(cfg, context, m))
    ensures !Fails(cfg, context, m) ==> Idle(r') && r'.context == NextContext(cfg, context, m)
    decreases |m.fragments| - i
  {
    hide Step, Outcome, Viable, Payload, Reassembling, RunFrames;
    var fs := m.fragments;
    var controls := ControlFrames(fs[i].before);
    var data := DataFrame(m, i);
    var tail := FramesFrom(m, i + 1);
    var sofar := Payload(fs[..i + 1]);
    RunControls(cfg, r, fs[i].before);
    RunFramesConcat(cfg, r, controls, [data] + tail);
    StepData(cfg, r, context, m, i);
    var (r1, e) := Step(cfg, r, data);
    RunFirst(cfg, r, data, tail);
    RunFirst(cfg, r1, data, []);
    assert Opt(e) + [] == Opt(e);
    if i == |fs| - 1 {
      assert fs[..i + 1] == fs;
      r' := r1;
    } else if e.Some? {
      HopelessFails(cfg, context, m, i);
      r' := r1;
    } else {
      r' := RunMessage(cfg, r1, context, m, i + 1);
      assert [] + EventsFrom(cfg, context, m, i + 1) == EventsFrom(cfg, context, m, i + 1);
    }
  }

  lemma {:induction false} RunMessages(cfg: Config, r: RState, ms: seq<Message>) returns (r': RState)
    requires AllSound(ms, cfg.compression)
    requires Idle(r)
    ensures RunFrames(cfg, r, StreamFrames(ms)) == (r', StreamEvents(cfg, r.context, ms), AnyFails(cfg, r.context, ms))
    ensures !AnyFails(cfg, r.context, ms) ==> Idle(r')
    decreases |ms|
  {
    if ms == [] {
      r' := r;
    } else {
      var r1 := RunMessage(cfg, r, r.context, ms[0], 0);
      RunFramesConcat(cfg, r, FramesFrom(ms[0], 0), StreamFrames(ms[1..]));
      if Fails(cfg, r.context, ms[0]) {
        r' := r1;
      } else {
        r' := RunMessages(cfg, r1, ms[1..]);
      }
    }
  }

  lemma {:induction false} ControlFramesServable(cs: seq<Control>, compression: bool)
    requires forall c | c in cs :: |c.payload| <= 125
    ensures AllServable(ControlFrames(cs), compression)
  {
    if cs != [] {
      ControlFramesServable(cs[1..], compression);
    }
  }

  lemma {:induction false} FramesServable(m: Message, i: nat, compression: bool)
    requires Sound(m, compression) && i <= |m.fragments|
    ensures AllServable(FramesFrom(m, i), compression)
    decreases |m.fragments| - i
  {
    if i < |m.fragments| {
      ControlFramesServable(m.fragments[i].before, compression);
      FramesServable(m, i + 1, compression);
    }
  }

  lemma {:induction false} StreamServable(ms: seq<Message>, compression: bool)
    requires AllSound(ms, compression)
    ensures AllServable(StreamFrames(ms), compression)
  {
    if ms != [] {
      FramesServable(ms[0], 0, compression);
      StreamServable(ms[1..], compression);
    }
  }

  /** Reassembly: for every list of messages, every way of fragmenting them, all control frames between the
      fragments, whatever octets follow and every way the network cuts the stream into reads, the owner of
      an idle receiver hears exactly the events of the messages; unless one fails, the receiver is then idle
      again and goes on with what follows. */
  lemma Reassembled(cfg: Config, x: Rx, ms: seq<Message>, rest: seq<byte>, cuts: seq<seq<byte>>) returns (r': RState)
    requires AllSound(ms, cfg.compression)
    requires Idle(x.r) && x.buf == [] && !x.done
    ensures AllWellFormed(StreamFrames(ms))
    ensures Flatten(cuts) == WriteFrames(StreamFrames(ms)) + rest ==>
      var y := Receive(cfg, x, cuts);
      if AnyFails(cfg, x.r.context, ms)
      then y.done && y.log == x.log + StreamEvents(cfg, x.r.context, ms)
      else Idle(r') && y == Drain(cfg, Rx(r', rest, false, x.log + StreamEvents(cfg, x.r.context, ms)))
  {
    StreamServable(ms, cfg.compression);
    r' := RunMessages(cfg, x.r, ms);
    if Flatten(cuts) == WriteFrames(StreamFrames(ms)) + rest {
      ChunkingIndependence(cfg, x, cuts);
      assert More(x, Flatten(cuts)) == Rx(x.r, WriteFrames(StreamFrames(ms)) + rest, false, x.log);
      DrainFrames(cfg, x.r, StreamFrames(ms), rest, x.log);
    }
  }

  // ---------------------------------------------------------------------------
  // The closing frame
  // ---------------------------------------------------------------------------

  function ClosingFrame(payload: seq<byte>): Frame {
    Frame(true, false, false, false, 8, None, payload)
  }

  /** One event more, and the receiver has stopped. */
  predicate EndsWith(x: Rx, log: seq<Event>, r: RState) {
    x.done && x.r == r && |x.log| == |log| + 1 && x.log[..|log|] == log
  }

  /** A close frame is reported as the RFC has it, and nothing after it is read. */
  lemma CloseEndsStream(cfg: Config, r: RState, payload: seq<byte>, rest: seq<byte>, log: seq<Event>)
    requires |payload| <= 125
    ensures var x := Drain(cfg, Rx(r, WriteFrame(ClosingFrame(payload)) + rest, false, log));
      EndsWith(x, log, r) && ReportsClose(payload, x.log[|log|]) && x.buf == rest
  {
    PassOneFrame(cfg, r, ClosingFrame(payload), rest, log);
    CloseIsReported(payload);
    hide HandleClose, ReportsClose;
    var y := Rx(r, rest, true, log + [HandleClose(payload)]);
    assert Pass(cfg, Rx(r, WriteFrame(ClosingFrame(payload)) + rest, false, log)) == Some(y);
    assert Drain(cfg, y) == y;
  }

  /** A legal code and a short UTF-8 reason come through as they were put in the payload. */
  lemma CloseComesThrough(code: nat, reason: seq<byte>, e: Event)
    requires 1000 <= code <= 1003 || 1007 <= code <= 1011 || 3000 <= code <= 4999
    requires |reason| <= 123 && ValidUtf8(reason) && ReportsClose(ToBigEndian(code, 2) + reason, e)
    ensures e == Close(code, reason)
  {
    ToBigEndianTwo(code);
    assert (ToBigEndian(code, 2) + reason)[2..] == reason;
    hide ValidUtf8;
  }

  /** Reassembly up to the end of the conversation: after messages that do not fail the close frame is reported as the
      RFC has it, however the stream is cut, and the owner hears nothing more. */
  lemma ReassembledAndClosed(cfg: Config, x: Rx, ms: seq<Message>, payload: seq<byte>, rest: seq<byte>, cuts: seq<seq<byte>>)
    requires AllSound(ms, cfg.compression) && |payload| <= 125
    requires Idle(x.r) && x.buf == [] && !x.done && !AnyFails(cfg, x.r.context, ms)
    ensures AllWellFormed(StreamFrames(ms))
    ensures Flatten(cuts) == WriteFrames(StreamFrames(ms)) + (WriteFrame(ClosingFrame(payload)) + rest) ==>
      var y := Receive(cfg, x, cuts);
      var heard := x.log + StreamEvents(cfg, x.r.context, ms);
      && y.done && |y.log| == |heard| + 1 && y.log[..|heard|] == heard && ReportsClose(payload, y.log[|heard|])
  {
    var r' := Reassembled(cfg, x, ms, WriteFrame(ClosingFrame(payload)) + rest, cuts);
    CloseEndsStream(cfg, r', payload, rest, x.log + StreamEvents(cfg, x.r.context, ms));
    hide StreamEvents, WriteFrame, WriteFrames, StreamFrames, Drain, Receive, ReportsClose, AnyFails;
  }

  // ---------------------------------------------------------------------------
  // Streams that break the rules
  // ---------------------------------------------------------------------------

  /** The first two octets are not those of a frame a client may get. */
  predicate BadHead(bs: seq<byte>, compression: bool)
    requires |bs| >= 2
  {
    || (bs[0] / 64 % 2 == 1 && !compression) || bs[0] / 32 % 2 == 1 || bs[0] / 16 % 2 == 1  // reserved bits
    || (bs[0] % 16 >= 8 && bs[0] < 128)                                                   // a fragmented control frame
    || bs[1] >= 128                                                                       // a masked frame
  }

  /** A control frame announces more than 125 octets. */
  predicate LongControl(bs: seq<byte>)
    requires |bs| >= 2
  {
    && bs[0] % 16 >= 8
    && ((bs[1] % 128 == 126 && |bs| >= 4 && bs[2] as int * 256 + bs[3] > 125)
        || (bs[1] % 128 == 127 && |bs| >= 10 && BigEndian(bs[2..10]) > 125))
  }

  /** A malformed head is found out as soon as its octets are there, and nothing else is. */
  lemma MalformedIff(bs: seq<byte>, compression: bool)
    ensures Parse(bs, compression).Malformed? <==> |bs| >= 2 && (BadHead(bs, compression) || LongControl(bs))
  {
    if |bs| >= 4 {
      assert bs[2..4] == [bs[2], bs[3]];
      BigEndianTwo(bs[2], bs[3]);
    }
    hide BigEndian;
  }

  predicate IsViolation(e: Event) { e.ProtocolError? && e.code == 1002 }

  /** It ends the stream with a protocol error, whatever follows. */
  lemma MalformedEndsStream(cfg: Config, x: Rx)
    requires !x.done && |x.buf| >= 2 && (BadHead(x.buf, cfg.compression) || LongControl(x.buf))
    ensures var y := Drain(cfg, x); EndsWith(y, x.log, x.r) && IsViolation(y.log[|x.log|])
  {
    MalformedIff(x.buf, cfg.compression);
    hide Parse;
    var y := Pass(cfg, x).value;
    assert Drain(cfg, y) == y;
  }

  /** A continuation of nothing, a new message inside another, or an opcode without meaning. */
  predicate OutOfPlace(r: RState, opcode: int) {
    || (opcode == 0 && !r.inProgress)
    || ((opcode == 1 || opcode == 2) && r.inProgress)
    || !KnownOpcode(opcode)
  }

  lemma OutOfPlaceRefused(cfg: Config, r: RState, p: Parsed)
    requires p.Complete? && OutOfPlace(r, p.opcode)
    ensures var (r', e) := Dispatch(cfg, r, p).0; r' == r && e.Some? && IsViolation(e.value)
  {
    hide HandleClose, Inflate, ContextAfter;
  }

  /** A frame out of place ends the stream with a protocol error. */
  lemma OutOfPlaceEndsStream(cfg: Config, r: RState, f: Frame, rest: seq<byte>, log: seq<Event>)
    requires WellFormed(f) && Acceptable(f, cfg.compression) && OutOfPlace(r, f.opcode)
    ensures var y := Drain(cfg, Rx(r, WriteFrame(f) + rest, false, log)); EndsWith(y, log, r) && IsViolation(y.log[|log|])
  {
    var x := Rx(r, WriteFrame(f) + rest, false, log);
    ReadFrameOfWritten(f, rest);
    ParseReadsFrames(x.buf, cfg.compression);
    OutOfPlaceRefused(cfg, r, AsParsed(f, |WriteFrame(f)|));
    hide Parse, WriteFrame, ReadFrame, Dispatch, OutOfPlace, Acceptable;
    var y := Pass(cfg, x).value;
    assert Drain(cfg, y) == y;
  }
}
