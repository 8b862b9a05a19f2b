/** The parts put together: the receiver feeds the connection, and the connection's frames reach the peer. */
module Engine {
  import opened Bytes
  import opened Framing
  import opened Sender
  import opened Connection
  import opened Protocol
  import R = Receiver

  // ---------------------------------------------------------------------------
  // Receiver events are connection steps, and stop the receiver as it assumes
  // ---------------------------------------------------------------------------

  /** The messages of the receiver are plain ASCII. */
  function AsciiOctets(s: string): (bs: seq<byte>)
    ensures |bs| == |s| && forall i | 0 <= i < |s| && s[i] as int < 128 :: bs[i] == s[i] as int
  {
    seq(|s|, i requires 0 <= i < |s| => s[i] as int % 128)
  }

  lemma AsciiFits(s: string)
    ensures FitReason(AsciiOctets(s))
  {
  }

  /** The texts the connection sends of its own accord. */
  lemma OwnTexts()
    ensures NORMAL_CLOSURE == AsciiOctets("Normal closure") && PING_PAYLOAD == AsciiOctets("ping")
  {
  }

  /** The step a receiver event is; text and binary messages go to the application only. */
  function StepOf(e: R.Event): Option<Action> {
    match e
    case Text(_) => None
    case Binary(_) => None
    case Ping(payload) => Some(RxPing(payload))
    case Close(code, reason) => Some(RxClose(code, reason))
    case ProtocolError(code, why) => Some(RxError(code, AsciiOctets(why)))
  }

  predicate CanHear(m: Mach, e: R.Event) {
    StepOf(e).Some? ==> Enabled(m, StepOf(e).value)
  }

  function Hear(m: Mach, e: R.Event): Mach
    requires CanHear(m, e)
  {
    if StepOf(e).Some? then Do(m, StepOf(e).value) else m
  }

  predicate Listening(m: Mach) {
    m.pc == Idle && m.c.upgraded && !Terminating(m.c)
  }

  /** The answers RFC 6455, section 5.5.3, wants to the pings among the events. */
  function Pongs(es: seq<R.Event>): seq<OutFrame> {
    if es == [] then []
    else (if es[0].Ping? then [OutFrame(PONG, es[0].payload, None)] else []) + Pongs(es[1..])
  }

  /** An event the connection can answer as it should: the encoder drops longer pongs without a word, and not every code
      and reason may be sent back. */
  predicate Answerable(e: R.Event) {
    match e
    case Ping(payload) => |payload| <= 125
    case Close(code, reason) => R.LegalCloseCode(code) && FitReason(reason)
    case ProtocolError(code, _) => R.LegalCloseCode(code)
    case _ => true
  }

  /** A listening connection can take any event, and goes on listening exactly when it was not terminal. */
  lemma TerminalEventsTerminate(m: Mach, e: R.Event)
    requires Inv(m) && Listening(m) && Answerable(e)
    ensures CanHear(m, e)
    ensures !e.Terminal() ==> Listening(Hear(m, e))
    ensures e.Terminal() ==> Terminating(Hear(m, e).c)
    ensures Hear(m, e).c.wire == m.c.wire + Pongs([e])
  {
    hide Do, Enabled;
    HeardStep(m, e);
    FlagsHold(m);
    hide Inv;
    assert Pongs([e]) == if e.Ping? then [OutFrame(PONG, e.payload, None)] else [] by { assert [e][1..] == []; }
    if e.Close? || e.ProtocolError? {
      CloseEffect(m.c.(closeReceived := m.c.closeReceived || e.Close?, protocolFailed := m.c.protocolFailed || !e.Close?),
                  e.code, if e.Close? then e.reason else AsciiOctets(e.why));
      hide CloseConn, AsciiOctets, ClosePayload;
    }
  }

  /** What hearing an event does to a listening connection. */
  lemma HeardStep(m: Mach, e: R.Event)
    requires Inv(m) && Listening(m) && Answerable(e)
    ensures CanHear(m, e)
    ensures Hear(m, e) == match e
      case Ping(payload) => m.(c := OnRxPing(m.c, payload))
      case Close(code, reason) => Mach(BeginRxClose(m.c, code, reason), ToFlush(FireClose))
      case ProtocolError(code, why) => m.(c := OnRxProtocolError(m.c, code, AsciiOctets(why)))
      case _ => m
  {
    FlagsHold(m);
    hide Inv, OnRxPing, BeginRxClose, OnRxProtocolError, AsciiOctets, FlushOne, OnTransport, CloseConn, StopNow, SendNow,
         SendData, Enqueue;
  }

  function HearAll(m: Mach, es: seq<R.Event>): Option<Mach>
    decreases |es|
  {
    if es == [] then Some(m)
    else if !CanHear(m, es[0]) then None
    else HearAll(Hear(m, es[0]), es[1..])
  }

  lemma HearKeepsInv(m: Mach, e: R.Event)
    requires Inv(m) && CanHear(m, e)
    ensures Inv(Hear(m, e))
  {
    if StepOf(e).Some? {
      StepKeepsInv(m, StepOf(e).value);
    }
  }

  /** The receive loop left after at most `n` passes. */
  function Passes(cfg: R.Config, x: R.Rx, n: nat): R.Rx
    decreases n
  {
    if n == 0 || R.Pass(cfg, x).None? then x else Passes(cfg, R.Pass(cfg, x).value, n - 1)
  }

  lemma {:induction false} DrainIsPasses(cfg: R.Config, x: R.Rx, n: nat)
    requires n > (if x.done then 0 else 1 + |x.buf|)
    ensures Passes(cfg, x, n) == R.Drain(cfg, x)
    decreases n
  {
    hide R.Pass;
    if R.Pass(cfg, x).Some? {
      DrainIsPasses(cfg, R.Pass(cfg, x).value, n - 1);
    }
  }

  /** What the passes of the receive loop tell their owner can be heard, event by event, by a listening connection; the
      loop is stopped exactly when the connection is terminating; and every ping is answered by a pong with the same
      payload, in order, and by nothing else. Another thread that asks for a stop between two passes stops the loop
      there: the connection is terminating, and the octets not yet read are those the loop would have gone on with. */
  lemma {:induction false} PassesDriveConnection(m: Mach, cfg: R.Config, x: R.Rx, n: nat)
    requires Inv(m) && Listening(m) && !x.done
    ensures var y := Passes(cfg, x, n);
      && x.log <= y.log && R.Drain(cfg, y) == R.Drain(cfg, x)
      && var m' := HearAll(m, y.log[|x.log|..]);
      && m'.Some? && (y.done <==> Terminating(m'.value.c))
      && m'.value.c.wire == m.c.wire + Pongs(y.log[|x.log|..])
      && Enabled(m'.value, RequestStop) && Terminating(Do(m'.value, RequestStop).c)
    decreases n
  {
    hide Inv, Do, Enabled, R.Pass;
    var z := R.Pass(cfg, x);
    if n == 0 || z.None? {
      assert x.log[|x.log|..] == [];
      assert m.c.wire + [] == m.c.wire;
      StopTerminates(m);
    } else {
      var x1 := z.value;
      var y := Passes(cfg, x1, n - 1);
      PassEvent(cfg, x);
      if x1.log == x.log {
        PassesDriveConnection(m, cfg, x1, n - 1);
      } else {
        var e := x1.log[|x.log|];
        TerminalEventsTerminate(m, e);
        HearKeepsInv(m, e);
        var m1 := Hear(m, e);
        if x1.done {
          StoppedStays(cfg, x1, n - 1);
          assert y.log[|x.log|..] == [e];
          assert [e][1..] == [];
          StopTerminates(m1);
        } else {
          PassesDriveConnection(m1, cfg, x1, n - 1);
          var rest := y.log[|x1.log|..];
          assert y.log[|x.log|..] == [e] + rest && ([e] + rest)[1..] == rest;
          PongsConcat([e], rest);
          ConcatAssoc(m.c.wire, Pongs([e]), Pongs(rest));
        }
      }
    }
  }

  lemma StoppedStays(cfg: R.Config, x: R.Rx, n: nat)
    requires x.done
    ensures Passes(cfg, x, n) == x
  {
  }

  lemma StopTerminates(m: Mach)
    ensures Enabled(m, RequestStop) && Terminating(Do(m, RequestStop).c)
  {
  }

  /** The same for the whole loop. */
  lemma ReceiverDrivesConnection(m: Mach, cfg: R.Config, x: R.Rx)
    requires Inv(m) && Listening(m) && !x.done
    ensures var y := R.Drain(cfg, x);
      && x.log <= y.log
      && var m' := HearAll(m, y.log[|x.log|..]);
      && m'.Some? && (y.done <==> Terminating(m'.value.c))
      && m'.value.c.wire == m.c.wire + Pongs(y.log[|x.log|..])
  {
    hide Inv, Do, Enabled, R.Pass, R.Drain, Passes;
    DrainIsPasses(cfg, x, |x.buf| + 2);
    PassesDriveConnection(m, cfg, x, |x.buf| + 2);
  }

  /** One pass of the loop notifies the owner at most once, and stops exactly on a terminal event; a ping it passes on
      is short enough for the pong not to be dropped. */
  lemma PassEvent(cfg: R.Config, x: R.Rx)
    requires R.Pass(cfg, x).Some?
    ensures var y := R.Pass(cfg, x).value;
      || (y.log == x.log && !y.done)
      || (y.log == x.log + [y.log[|y.log| - 1]] && (y.done <==> y.log[|y.log| - 1].Terminal())
          && Answerable(y.log[|y.log| - 1]))
  {
    var p := R.Parse(x.buf, cfg.compression);
    assert R.LegalCloseCode(1002) && R.LegalCloseCode(1007);
    if p.Complete? { ReportsAnswerable(cfg, x.r, p); }
    hide R.Dispatch, R.LegalCloseCode;
  }

  lemma ReportsAnswerable(cfg: R.Config, r: R.RState, p: R.Parsed)
    requires p.Complete?
    ensures var e := R.Dispatch(cfg, r, p).0.1; e.Some? ==> Answerable(e.value)
  {
    assert R.LegalCloseCode(1002) && R.LegalCloseCode(1007);
    hide R.LegalCloseCode, R.HandleClose, R.Inflate, R.ContextAfter;
  }

  /** The events of one run of the loop: only the last can be terminal, and then the loop has stopped. */
  predicate News(es: seq<R.Event>, stopped: bool) {
    && (forall i | 0 <= i < |es| :: Answerable(es[i]) && (es[i].Terminal() ==> i == |es| - 1))
    && (stopped <==> es != [] && es[|es| - 1].Terminal())
  }

  lemma {:induction false} DrainNews(cfg: R.Config, x: R.Rx)
    requires !x.done
    ensures var y := R.Drain(cfg, x); x.log <= y.log && News(y.log[|x.log|..], y.done)
    decreases |x.buf|
  {
    hide R.Pass;
    var z := R.Pass(cfg, x);
    var y := R.Drain(cfg, x);
    if z.None? {
      assert x.log[|x.log|..] == [];
    } else {
      PassEvent(cfg, x);
      var x1 := z.value;
      assert y == R.Drain(cfg, x1);
      if x1.done {
        assert y == x1 && y.log[|x.log|..] == [x1.log[|x.log|]];
      } else {
        DrainNews(cfg, x1);
        var later := y.log[|x1.log|..];
        if x1.log == x.log {
          assert y.log[|x.log|..] == later;
        } else {
          assert y.log[|x.log|..] == [x1.log[|x.log|]] + later;
        }
      }
    }
  }

  lemma DrainStopped(cfg: R.Config, x: R.Rx)
    requires x.done
    ensures R.Drain(cfg, x) == x
  {
  }

  /** The frames with which the connection answers the events of the receiver: a pong for every ping, and a CLOSE for
      the peer's if the queue has room. */
  function Answers(es: seq<R.Event>, room: bool): seq<OutFrame> {
    Pongs(es) +
    if room && es != [] && es[|es| - 1].Close?
    then [OutFrame(CLOSE, ClosePayload(es[|es| - 1].code, es[|es| - 1].reason), None)] else []
  }

  /** Answering one event after the other. */
  lemma AnswersNext(es: seq<R.Event>, i: nat, room: bool)
    requires i < |es| && forall k | 0 <= k < i :: !es[k].Terminal()
    ensures Answers(es[..i + 1], room) == Answers(es[..i], room) + Answers([es[i]], room)
  {
    var before := es[..i];
    assert es[..i + 1] == before + [es[i]];
    PongsConcat(before, [es[i]]);
    assert Answers(before, room) == Pongs(before) by {
      if i > 0 { assert before[i - 1] == es[i - 1]; }
      assert Pongs(before) + [] == Pongs(before);
    }
    var close := if room && es[i].Close? then [OutFrame(CLOSE, ClosePayload(es[i].code, es[i].reason), None)] else [];
    hide Pongs, ClosePayload;
    ConcatAssoc(Pongs(before), Pongs([es[i]]), close);
  }

  lemma {:induction false} PongsConcat(a: seq<R.Event>, b: seq<R.Event>)
    ensures Pongs(a + b) == Pongs(a) + Pongs(b)
    decreases |a|
  {
    if a == [] {
      assert a + b == b && [] + Pongs(b) == Pongs(b);
    } else {
      var first := if a[0].Ping? then [OutFrame(PONG, a[0].payload, None)] else [];
      assert (a + b)[0] == a[0] && (a + b)[1..] == a[1..] + b;
      assert Pongs(a) == first + Pongs(a[1..]) && Pongs(a + b) == first + Pongs(a[1..] + b);
      hide Pongs;
      PongsConcat(a[1..], b);
      ConcatAssoc(first, Pongs(a[1..]), Pongs(b));
    }
  }

  // ---------------------------------------------------------------------------
  // The octets on the wire
  // ---------------------------------------------------------------------------

  type Key = k: seq<byte> | |k| == 4 witness [0, 0, 0, 0]

  type Sized = s: seq<byte> | |s| < MAX_LENGTH

  /** What the encoder draws and makes for the n-th frame: its mask key, and the compressed payload if it compresses. */
  datatype Encoding = Encoding(key: nat -> Key, deflate: (nat, seq<byte>) -> Option<Sized>)

  predicate AllSized(wire: seq<OutFrame>) {
    forall i | 0 <= i < |wire| :: |wire[i].payload| < MAX_LENGTH
  }

  function Call(f: OutFrame, i: nat, e: Encoding): Outgoing {
    Outgoing(f.kind, f.payload, if IsControl(f.kind) then None else e.deflate(i, f.payload), e.key(i))
  }

  lemma CallSendable(f: OutFrame, i: nat, e: Encoding)
    requires |f.payload| < MAX_LENGTH
    ensures Sendable(Call(f, i, e))
  {
  }

  /** The encoder calls behind the frames of the wire. */
  function Calls(wire: seq<OutFrame>, e: Encoding): (os: seq<Outgoing>)
    requires AllSized(wire)
    ensures |os| == |wire| && AllSendable(os)
  {
    seq(|wire|, i requires 0 <= i < |wire| => Call(wire[i], i, e))
  }

  function WireOctets(wire: seq<OutFrame>, e: Encoding): seq<byte>
    requires AllSized(wire)
  {
    WrittenAll(Calls(wire, e))
  }

  lemma {:induction false} WrittenAllConcat(a: seq<Outgoing>, b: seq<Outgoing>)
    requires AllSendable(a) && AllSendable(b)
    ensures AllSendable(a + b) && WrittenAll(a + b) == WrittenAll(a) + WrittenAll(b)
    decreases |a|
  {
    hide Written, Sendable;
    assert AllSendable(a + b);
    if a == [] {
      assert a + b == b;
    } else {
      assert (a + b)[1..] == a[1..] + b;
      WrittenAllConcat(a[1..], b);
      ConcatAssoc(Written(a[0]), WrittenAll(a[1..]), WrittenAll(b));
    }
  }

  /** One more frame on the wire is one more encoder call. */
  lemma FrameAppended(wire: seq<OutFrame>, f: OutFrame, e: Encoding)
    requires AllSized(wire) && |f.payload| < MAX_LENGTH
    ensures AllSized(wire + [f])
    ensures WireOctets(wire + [f], e) == WireOctets(wire, e) + Written(Call(f, |wire|, e))
  {
    var call := Call(f, |wire|, e);
    assert Calls(wire + [f], e) == Calls(wire, e) + [call];
    hide Written, Calls;
    WrittenAllConcat(Calls(wire, e), [call]);
    assert WrittenAll([call]) == Written(call) by {
      assert [call][1..] == [] && Written(call) + [] == Written(call);
    }
  }

  lemma {:induction false} FramesOneToOne(os: seq<Outgoing>)
    requires AllSendable(os) && forall i | 0 <= i < |os| :: !Dropped(os[i])
    ensures |FramesFor(os)| == |os| && forall i | 0 <= i < |os| :: FramesFor(os)[i] == FrameFor(os[i])
    decreases |os|
  {
    if os != [] {
      FramesOneToOne(os[1..]);
      assert FramesFor(os) == [FrameFor(os[0])] + FramesFor(os[1..]);
    }
  }

  /** The peer has, for the n-th frame, what undoes its compression. */
  ghost predicate Undoes(inflate: (nat, seq<byte>) -> seq<byte>, e: Encoding) {
    forall i: nat, data :: e.deflate(i, data).Some? ==> inflate(i, e.deflate(i, data).value) == data
  }

  /** The peer's reading of a frame is the message behind it. */
  predicate Carries(f: Frame, i: nat, w: OutFrame, e: Encoding, inflate: (nat, seq<byte>) -> seq<byte>) {
    && f.fin && !f.rsv2 && !f.rsv3 && f.opcode == OpcodeOf(w.kind) && f.key == Some(e.key(i))
    && (f.rsv1 ==> !IsControl(w.kind))
    && (if f.rsv1 then inflate(i, f.payload) else f.payload) == w.payload
  }

  lemma PeerReads(c: Conn, e: Encoding, inflate: (nat, seq<byte>) -> seq<byte>)
    requires WireEndsWithClose(c) && AllSized(c.wire) && Undoes(inflate, e)
    ensures var fs := ReadFrames(WireOctets(c.wire, e));
      && fs.Some? && |fs.value| == |c.wire|
      && (forall i | 0 <= i < |c.wire| :: Carries(fs.value[i], i, c.wire[i], e, inflate))
      && (forall i | 0 <= i < |c.wire| - 1 :: fs.value[i].opcode != 8)
  {
    hide WrittenAll, ReadFrames, FramesFor, Carries, FrameFor, Undoes, Call;
    var os := Calls(c.wire, e);
    forall i | 0 <= i < |os| ensures !Dropped(os[i]) { NotDropped(c.wire[i], i, e); }
    FramesOneToOne(os);
    WrittenAllIsFrames(os);
    ReadFramesOfWritten(FramesFor(os));
    var fs := FramesFor(os);
    forall i | 0 <= i < |c.wire|
      ensures Carries(fs[i], i, c.wire[i], e, inflate) && (fs[i].opcode == 8 <==> c.wire[i].kind == CLOSE)
    {
      CallCarries(c.wire[i], i, e, inflate);
    }
  }

  lemma NotDropped(w: OutFrame, i: nat, e: Encoding)
    requires IsControl(w.kind) ==> |w.payload| <= 125
    ensures !Dropped(Call(w, i, e))
  {
  }

  lemma CallCarries(w: OutFrame, i: nat, e: Encoding, inflate: (nat, seq<byte>) -> seq<byte>)
    requires |w.payload| < MAX_LENGTH && Undoes(inflate, e)
    ensures Carries(FrameFor(Call(w, i, e)), i, w, e, inflate)
    ensures (FrameFor(Call(w, i, e)).opcode == 8) <==> w.kind == CLOSE
  {
  }

  /** After any run, whatever mask keys were drawn and whatever was compressed, the peer reads from the octets exactly
      the frames of the wire, masked and final, carrying their messages; a close frame among them can only be the last. */
  lemma PeerReadsWire(run: seq<Action>, e: Encoding, inflate: (nat, seq<byte>) -> seq<byte>)
    requires Exec(LAUNCH, run).Some? && AllSized(Exec(LAUNCH, run).value.c.wire) && Undoes(inflate, e)
    ensures var wire := Exec(LAUNCH, run).value.c.wire;
      var fs := ReadFrames(WireOctets(wire, e));
      && fs.Some? && |fs.value| == |wire|
      && (forall i | 0 <= i < |wire| :: Carries(fs.value[i], i, wire[i], e, inflate))
      && (forall i | 0 <= i < |wire| - 1 :: fs.value[i].opcode != 8)
  {
    hide Exec, Flags, ClosesPending, Tickets, Faithful, Opening, WireOctets, Carries, ReadFrames, Undoes;
    StartInv();
    RunKeepsInv(LAUNCH, run);
    PeerReads(Exec(LAUNCH, run).value.c, e, inflate);
  }
}
