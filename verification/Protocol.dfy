/** Every interleaving of producers, the event loop's callbacks, stop requests and timers. A flush is taken
    apart into its own steps, so other threads run between the swap of the queue and each frame written. */
module Protocol {
  import opened Bytes
  import opened Arithmetic
  import opened Sender
  import opened Connection
  import Utf8
  import R = Receiver

  predicate AllAscii(s: seq<byte>) {
    forall i :: 0 <= i < |s| ==> s[i] < 128
  }

  /** A reason that is UTF-8 and stays so when it is cut at 123 octets. */
  predicate FitReason(reason: seq<byte>) {
    (|reason| <= 123 && Utf8.Accepts(reason)) || AllAscii(reason)
  }

  /** What RFC 6455, sections 5.5.1 and 7.4, lets an endpoint put in a close frame. */
  predicate LegalClose(payload: seq<byte>) {
    |payload| >= 2 && R.LegalCloseCode(BigEndian(payload[..2])) && Utf8.Accepts(payload[2..])
  }

  lemma {:induction false} AsciiAccepted(s: seq<byte>)
    requires AllAscii(s)
    ensures Utf8.Feed(Utf8.START, s) == (Utf8.START, true)
  {
    if s != [] { AsciiAccepted(s[1..]); }
  }

  lemma ClosePayloadLegal(code: nat, reason: seq<byte>)
    requires R.LegalCloseCode(code) && FitReason(reason)
    ensures LegalClose(ClosePayload(code, reason))
  {
    var r := if |reason| > 123 then reason[..123] else reason;
    var p := ClosePayload(code, reason);
    assert p[..2] == ToBigEndian(code, 2) && p[2..] == r;
    assert Pow256(2) == 65536;
    BigEndianRoundTrip(code, 2);
    if AllAscii(reason) { AsciiAccepted(r); }
    hide BigEndian, ToBigEndian, ClosePayload;
  }

  /** What the event thread still has to do once a flush is through. */
  datatype After = Nothing | ClearPending | FireClose | Opened(atUpgrade: seq<Pending>)

  /** Where the event thread is. */
  datatype Pc =
    | NotStarted
    | Starting
    | Idle
    | ToFlush(then_: After)
    | Flushing(rest: seq<Pending>, canSendApp: bool, then_: After)
    | Done

  datatype Mach = Mach(c: Conn, pc: Pc)

  datatype Action =
    // other threads, at any time
    | Push(text: bool, data: seq<byte>)
    | RequestFlush
    | RequestStop
    // the event thread
    | StartConnecting
    | StartLoop
    | AppSend(kind: MessageType, data: seq<byte>)
    | SendEvent
    | Wakeup
    | ConnectTimeout
    | PingTick
    | CloseTimer
    | TransportEvent(t: Transport)
    | RxPing(payload: seq<byte>)
    | RxClose(code: nat, reason: seq<byte>)
    | RxError(code: nat, why: seq<byte>)
    | AcceptUpgrade
    | RefuseUpgrade
    | TakeBatch
    | WriteEntry
    | EndFlush
    | Cleanup

  const LAUNCH := Mach(INITIAL, NotStarted)

  /** Which callbacks the event loop may run now, besides finishing a flush it is in the middle of. */
  predicate Enabled(m: Mach, a: Action) {
    match a
    case Push(_, _) => true
    case RequestFlush => true
    case RequestStop => true
    case StartConnecting => m.pc == NotStarted
    case StartLoop => m.pc == Starting
    case TakeBatch => m.pc.ToFlush?
    case WriteEntry => m.pc.Flushing? && m.pc.rest != []
    case EndFlush => m.pc.Flushing? && m.pc.rest == []
    case CloseTimer => m.pc == Idle && m.c.timerArmed
    // the receive loop asks rxIsTerminating before every frame
    case RxPing(_) => m.pc == Idle && m.c.upgraded && !Terminating(m.c)
    case RxClose(code, reason) =>
      m.pc == Idle && m.c.upgraded && !Terminating(m.c) && R.LegalCloseCode(code) && FitReason(reason)
    case RxError(code, why) =>
      m.pc == Idle && m.c.upgraded && !Terminating(m.c) && R.LegalCloseCode(code) && FitReason(why)
    case AcceptUpgrade => m.pc == Idle && !m.c.upgraded
    case RefuseUpgrade => m.pc == Idle && !m.c.upgraded
    case _ => m.pc == Idle
  }

  function Finish(c: Conn, a: After): Conn {
    match a
    case Nothing => c
    case ClearPending => c.(sendFlushPending := false)
    case FireClose => CloseCallback(c)
    case Opened(_) => c
  }

  function Do(m: Mach, a: Action): Mach
    requires Enabled(m, a)
  {
    match a
    case Push(text, data) => m.(c := Enqueue(m.c, text, data).0)
    case RequestFlush => m.(c := RequestSendFlush(m.c))
    case RequestStop => m.(c := m.c.(stopRequested := true))
    case StartConnecting => Mach(m.c.(state := CONNECTING), Starting)
    case StartLoop => Mach(m.c.(alive := true), Idle)
    case AppSend(kind, data) => m.(c := SendData(m.c, data, kind, true).0)
    case SendEvent => m.(pc := ToFlush(ClearPending))
    case Wakeup => if m.c.stopRequested then m.(c := StopNow(m.c)) else m.(pc := ToFlush(Nothing))
    case ConnectTimeout => m.(c := OnTimeout(m.c))
    case PingTick => m.(c := OnPingTick(m.c))
    case CloseTimer => m.(c := OnCloseTimer(m.c))
    case TransportEvent(t) => m.(c := OnTransport(m.c, t))
    case RxPing(payload) => m.(c := OnRxPing(m.c, payload))
    case RxClose(code, reason) =>
      if m.c.closeSent then m.(c := CloseCallback(m.c.(closeReceived := true)))
      else Mach(BeginRxClose(m.c, code, reason), ToFlush(FireClose))
    case RxError(code, why) => m.(c := OnRxProtocolError(m.c, code, why))
    case AcceptUpgrade => Mach(Upgrade(m.c), ToFlush(Opened(m.c.sendQueue)))
    case RefuseUpgrade => m.(c := UpgradeRefused(m.c))
    case TakeBatch =>
      Mach(m.c.(sendQueue := []), Flushing(m.c.sendQueue, m.c.state == CONNECTED, m.pc.then_))
    case WriteEntry =>
      Mach(FlushOne(m.c, m.pc.rest[0], m.pc.canSendApp), m.pc.(rest := m.pc.rest[1..]))
    case EndFlush => Mach(Finish(m.c, m.pc.then_), Idle)
    case Cleanup => Mach(m.c.(alive := false), Done)
  }

  /** A run from `m`; None when some step of it is not possible. */
  function Exec(m: Mach, run: seq<Action>): Option<Mach>
    decreases |run|
  {
    if run == [] then Some(m)
    else if !Enabled(m, run[0]) then None
    else Exec(Do(m, run[0]), run[1..])
  }

  // ---------------------------------------------------------------------------
  // What every reachable state satisfies
  // ---------------------------------------------------------------------------

  function Rest(pc: Pc): seq<Pending> {
    if pc.Flushing? then pc.rest else []
  }

  /** Everything accepted and not yet dealt with: the batch being written, then the queue. */
  function Pipeline(m: Mach): seq<Pending> {
    Rest(m.pc) + m.c.sendQueue
  }

  predicate Flags(m: Mach) {
    var c := m.c;
    && (c.state == CONNECTED ==> c.upgraded)
    && (c.upgraded ==> c.state == CONNECTED || Closing(c.state))
    && (c.closeSent ==> Closing(c.state))
    && (c.upgraded && c.state == DISCONNECTED ==> c.closeSent)
    && (c.timerArmed ==> c.closeSent)
    && (!c.upgraded ==> c.wire == [] && !c.closeSent && !c.protocolFailed)
    && (c.protocolFailed ==> Closing(c.state))
    && |c.sendQueue| <= MAX_QUEUE_SIZE
    && c.closeCallbacks <= 1
    && (m.pc.Idle? || m.pc.ToFlush? || m.pc.Flushing? ==> c.alive)
    && (m.pc.NotStarted? || m.pc.Starting? ==> !c.upgraded)
    && (m.pc.Flushing? ==> (m.pc.canSendApp <==> c.state == CONNECTED))
  }

  /** CLOSE is on the wire exactly when `close_sent` says so, and then it is the last frame. */
  predicate WireEndsWithClose(c: Conn) {
    && (forall i :: 0 <= i < |c.wire| - 1 ==> c.wire[i].kind != CLOSE)
    && (c.closeSent <==> c.wire != [] && c.wire[|c.wire| - 1].kind == CLOSE)
    && (forall i :: 0 <= i < |c.wire| ==> IsControl(c.wire[i].kind) ==> |c.wire[i].payload| <= 125)
    && (forall i :: 0 <= i < |c.wire| && c.wire[i].kind == CLOSE ==> LegalClose(c.wire[i].payload))
  }

  /** A CLOSE waiting in the queue is short enough to be sent and means the connection is closing; it is the only
      one, and none has been sent. */
  predicate ClosesPending(m: Mach) {
    var ps := Pipeline(m);
    && (forall i :: 0 <= i < |ps| && ps[i].CloseFrame? ==>
          && m.c.upgraded && Closing(m.c.state) && !m.c.closeSent
          && |ps[i].payload| <= 125 && LegalClose(ps[i].payload))
    && (forall i, j :: 0 <= i < j < |ps| ==> !(ps[i].CloseFrame? && ps[j].CloseFrame?))
  }

  function WrittenTickets(wire: seq<OutFrame>): seq<nat> {
    if wire == [] then []
    else
      var f, before := wire[|wire| - 1], WrittenTickets(wire[..|wire| - 1]);
      if f.origin.Some? then before + [f.origin.value] else before
  }

  function WaitingTickets(ps: seq<Pending>): seq<nat> {
    if ps == [] then []
    else if ps[0].App? then [ps[0].ticket] + WaitingTickets(ps[1..])
    else WaitingTickets(ps[1..])
  }

  /** The tickets on the wire, then those in the batch, then those in the queue, ascend. */
  predicate Tickets(m: Mach) {
    Ascending(WrittenTickets(m.c.wire) + WaitingTickets(Pipeline(m)), 0, |m.c.accepted|)
  }

  /** A ticket stands for the message it was given to. */
  predicate Faithful(m: Mach) {
    var acc := m.c.accepted;
    && (forall i :: 0 <= i < |m.c.wire| && m.c.wire[i].origin.Some? ==>
          var f := m.c.wire[i];
          f.origin.value < |acc| && acc[f.origin.value] == (f.kind == TEXT, f.payload) && !IsControl(f.kind))
    && (forall i :: 0 <= i < |Pipeline(m)| && Pipeline(m)[i].App? ==>
          var p := Pipeline(m)[i];
          p.ticket < |acc| && acc[p.ticket] == (p.text, p.data))
  }

  /** The frames the entries of a batch become while the connection is up. */
  function FramesOf(ps: seq<Pending>): seq<OutFrame> {
    if ps == [] then []
    else
      (match ps[0]
       case App(text, data, ticket) => [OutFrame(if text then TEXT else BINARY, data, Some(ticket))]
       case CloseFrame(_) => [])
      + FramesOf(ps[1..])
  }

  /** Between the upgrade and the open callback, what was queued at the upgrade goes out first, in order. */
  predicate Opening(m: Mach) {
    match m.pc
    case ToFlush(Opened(q)) => m.c.state == CONNECTED && m.c.wire == [] && q <= m.c.sendQueue
    case Flushing(rest, _, Opened(q)) => m.c.state == CONNECTED && FramesOf(q) <= m.c.wire + FramesOf(rest)
    case _ => true
  }

  predicate Inv(m: Mach) {
    Flags(m) && WireEndsWithClose(m.c) && ClosesPending(m) && Tickets(m) && Faithful(m) && Opening(m)
  }

  // ---------------------------------------------------------------------------
  // Each step keeps it
  // ---------------------------------------------------------------------------

  /** No frame is written, no message accepted, nothing leaves or enters the queue. */
  predicate SameTraffic(m: Mach, m': Mach) {
    && m'.c.wire == m.c.wire && m'.c.accepted == m.c.accepted && m'.c.closeSent == m.c.closeSent
    && Pipeline(m') == Pipeline(m)
    && (m.c.upgraded && Closing(m.c.state) ==> m'.c.upgraded && Closing(m'.c.state))
  }

  lemma SameTrafficKeeps(m: Mach, m': Mach)
    requires Inv(m) && SameTraffic(m, m') && Flags(m') && Opening(m')
    ensures Inv(m')
  {
  }

  lemma WaitingSnoc(ps: seq<Pending>, p: Pending)
    ensures WaitingTickets(ps + [p]) == if p.App? then WaitingTickets(ps) + [p.ticket] else WaitingTickets(ps)
  {
    if ps != [] {
      assert (ps + [p])[1..] == ps[1..] + [p];
      WaitingSnoc(ps[1..], p);
    }
  }

  /** The ticket order survives a new entry at the end. */
  lemma EntryTickets(w: seq<nat>, ps: seq<Pending>, p: Pending, bound: nat)
    requires Ascending(w + WaitingTickets(ps), 0, bound)
    requires p.App? ==> p.ticket == bound
    ensures Ascending(w + WaitingTickets(ps + [p]), 0, if p.App? then bound + 1 else bound)
  {
    WaitingSnoc(ps, p);
    if p.App? {
      ConcatAssoc(w, WaitingTickets(ps), [p.ticket]);
    }
  }

  /** From `m` to `m'` there is a new entry at the end of the queue. */
  predicate Entered(m: Mach, m': Mach, p: Pending) {
    && m'.c.wire == m.c.wire && m'.c.closeSent == m.c.closeSent
    && (m.c.upgraded && Closing(m.c.state) ==> m'.c.upgraded && Closing(m'.c.state))
    && Pipeline(m') == Pipeline(m) + [p]
    && match p
       case App(text, data, ticket) =>
         ticket == |m.c.accepted| && m'.c.accepted == m.c.accepted + [(text, data)]
       case CloseFrame(payload) =>
         && m.c.state == CONNECTED && m'.c.accepted == m.c.accepted
         && m'.c.upgraded && Closing(m'.c.state) && |payload| <= 125 && LegalClose(payload)
  }

  lemma PipelineGrows(m: Mach, m': Mach, p: Pending)
    requires m'.pc == m.pc || (Rest(m'.pc) == [] && Rest(m.pc) == [])
    requires m'.c.sendQueue == m.c.sendQueue + [p]
    ensures Pipeline(m') == Pipeline(m) + [p]
  {
    ConcatAssoc(Rest(m.pc), m.c.sendQueue, [p]);
  }

  lemma EntryFaithful(m: Mach, m': Mach, p: Pending)
    requires Faithful(m) && Entered(m, m', p)
    ensures Faithful(m')
  {
    hide Pipeline;
  }

  lemma EntryClosing(m: Mach, m': Mach, p: Pending)
    requires Flags(m) && ClosesPending(m) && Entered(m, m', p)
    ensures ClosesPending(m')
  {
    hide Pipeline;
  }

  lemma EntryKeeps(m: Mach, m': Mach, p: Pending)
    requires Inv(m) && Entered(m, m', p) && Flags(m') && Opening(m')
    ensures Inv(m')
  {
    EntryFaithful(m, m', p);
    EntryClosing(m, m', p);
    EntryTickets(WrittenTickets(m.c.wire), Pipeline(m), p, |m.c.accepted|);
    hide WrittenTickets, WaitingTickets, Ascending, Flags, Opening, Pipeline, Faithful, ClosesPending;
  }

  /** A frame that did not come off the queue. */
  lemma FrameKeeps(m: Mach, m': Mach, f: OutFrame)
    requires Inv(m) && m.pc == Idle && m.c.state == CONNECTED
    requires f.origin.None? && f.kind != CLOSE && (IsControl(f.kind) ==> |f.payload| <= 125)
    requires m' == m.(c := m.c.(wire := m.c.wire + [f]))
    ensures Inv(m')
  {
    assert m'.c.wire[..|m'.c.wire| - 1] == m.c.wire;
  }

  lemma KeptByThreads(m: Mach, a: Action)
    requires Inv(m) && (a.Push? || a.RequestFlush? || a.RequestStop?)
    ensures Inv(Do(m, a))
  {
    if a.Push? && |m.c.sendQueue| < MAX_QUEUE_SIZE {
      PipelineGrows(m, Do(m, a), App(a.text, a.data, |m.c.accepted|));
      EntryKeeps(m, Do(m, a), App(a.text, a.data, |m.c.accepted|));
    } else {
      SameTrafficKeeps(m, Do(m, a));
    }
  }

  lemma KeptByStart(m: Mach, a: Action)
    requires Inv(m) && Enabled(m, a) && (a.StartConnecting? || a.StartLoop? || a.SendEvent? || a.Cleanup?)
    ensures Inv(Do(m, a))
  {
    SameTrafficKeeps(m, Do(m, a));
  }

  lemma KeptByTimers(m: Mach, a: Action)
    requires Inv(m) && Enabled(m, a) && (a.ConnectTimeout? || a.CloseTimer? || a.RefuseUpgrade?)
    ensures Inv(Do(m, a))
  {
    SameTrafficKeeps(m, Do(m, a));
  }

  lemma KeptByTransport(m: Mach, t: Transport)
    requires Inv(m) && Enabled(m, TransportEvent(t))
    ensures Inv(Do(m, TransportEvent(t)))
  {
    hide Do, Enabled;
    TransportStep(m, t);
    var m' := m.(c := OnTransport(m.c, t));
    hide WireEndsWithClose, ClosesPending, Tickets, Faithful;
    if m'.c.sendQueue == m.c.sendQueue {
      SameTrafficKeeps(m, m');
    } else {
      QueueGivenUp(m, m');
    }
  }

  /** Before the upgrade nothing is on the wire, and without a queue nothing is left to say. */
  lemma QueueGivenUp(m: Mach, m': Mach)
    requires Inv(m) && !m.c.upgraded && Flags(m') && Opening(m') && !m'.c.upgraded
    requires Pipeline(m') == [] && m'.c.accepted == m.c.accepted
    ensures Inv(m')
  {
    assert m'.c.wire == [] && !m'.c.closeSent;
    hide Flags, Opening, Pipeline;
  }

  lemma SentFrameKeeps(m: Mach, kind: MessageType, payload: seq<byte>)
    requires Inv(m) && m.pc == Idle && m.c.state == CONNECTED && kind != CLOSE
    ensures Inv(m.(c := SendFrame(m.c, kind, payload, None)))
  {
    var m' := m.(c := SendFrame(m.c, kind, payload, None));
    if IsControl(kind) && |payload| > 125 {
      assert m' == m;
    } else {
      FrameKeeps(m, m', OutFrame(kind, payload, None));
    }
  }

  lemma KeptByFrames(m: Mach, a: Action)
    requires Inv(m) && Enabled(m, a) && (a.AppSend? || a.PingTick? || a.RxPing?)
    ensures Inv(Do(m, a))
  {
    hide SendFrame, WireEndsWithClose, ClosesPending, Tickets, Faithful;
    var m' := Do(m, a);
    match a {
      case AppSend(kind, data) =>
        if m.c.state == CONNECTING && kind != CLOSE && |m.c.sendQueue| < MAX_QUEUE_SIZE {
          PipelineGrows(m, m', App(kind == TEXT, data, |m.c.accepted|));
          EntryKeeps(m, m', App(kind == TEXT, data, |m.c.accepted|));
        } else if m.c.state == CONNECTED && kind != CLOSE {
          SentFrameKeeps(m, kind, data);
        } else {
          assert m' == m;
        }
      case PingTick =>
        if m.c.state == CONNECTED {
          SentFrameKeeps(m, PING, PING_PAYLOAD);
        } else {
          assert m' == m;
        }
      case RxPing(payload) => SentFrameKeeps(m, PONG, payload);
    }
  }

  /** Closing a live connection either queues one short CLOSE and asks for a flush, or exits the loop. */
  lemma CloseEffect(c: Conn, code: nat, reason: seq<byte>)
    requires c.upgraded && c.alive && c.state == CONNECTED && !c.closeSent
    ensures var d := CloseConn(c, code, reason).0;
      var p := CloseFrame(ClosePayload(code, reason));
      && d == c.(state := DISCONNECTING, stopRequested := d.stopRequested, loopExit := d.loopExit,
                 sendFlushPending := d.sendFlushPending, sendQueue := d.sendQueue)
      && d.sendQueue == (if |c.sendQueue| >= MAX_QUEUE_SIZE then c.sendQueue else c.sendQueue + [p])
      && (if |c.sendQueue| >= MAX_QUEUE_SIZE then d.loopExit else d.sendFlushPending)
  {
  }

  /** From `m` to `m'` the event thread starts a close handshake on a connection that is up. */
  predicate StartsClosing(m: Mach, m': Mach, code: nat, reason: seq<byte>) {
    var d := CloseConn(m.c, code, reason).0;
    && m.pc == Idle && m.c.state == CONNECTED && m.c.upgraded && m.c.alive && !m.c.closeSent
    && m'.c == d.(closeReceived := m'.c.closeReceived, protocolFailed := m'.c.protocolFailed,
                  sendFlushPending := m'.c.sendFlushPending)
    && (d.sendFlushPending ==> m'.c.sendFlushPending)
    && (m'.pc == Idle || m'.pc == ToFlush(FireClose))
    && R.LegalCloseCode(code) && FitReason(reason)
  }

  // What single steps do, apart from all others.

  lemma WakeupStep(m: Mach)
    requires Enabled(m, Wakeup)
    ensures m.pc == Idle
    ensures Do(m, Wakeup) == if m.c.stopRequested then m.(c := StopNow(m.c)) else m.(pc := ToFlush(Nothing))
  {
    hide FlushOne, OnTransport, CloseConn, StopNow, BeginRxClose, OnRxProtocolError, SendNow, SendData, Enqueue,
         OnPingTick, OnRxPing, OnTimeout, OnCloseTimer, UpgradeRefused, Upgrade, CloseCallback, RequestSendFlush, Finish;
  }

  lemma RxCloseStep(m: Mach, code: nat, reason: seq<byte>)
    requires Enabled(m, RxClose(code, reason))
    ensures m.pc == Idle && m.c.upgraded && !Terminating(m.c) && R.LegalCloseCode(code) && FitReason(reason)
    ensures !m.c.closeSent ==>
            Do(m, RxClose(code, reason)) == Mach(BeginRxClose(m.c, code, reason), ToFlush(FireClose))
  {
    hide FlushOne, OnTransport, CloseConn, StopNow, BeginRxClose, OnRxProtocolError, SendNow, SendData, Enqueue,
         OnPingTick, OnRxPing, OnTimeout, OnCloseTimer, UpgradeRefused, Upgrade, CloseCallback, RequestSendFlush, Finish;
  }

  lemma RxErrorStep(m: Mach, code: nat, why: seq<byte>)
    requires Enabled(m, RxError(code, why))
    ensures m.pc == Idle && m.c.upgraded && !Terminating(m.c) && R.LegalCloseCode(code) && FitReason(why)
    ensures Do(m, RxError(code, why)) == m.(c := OnRxProtocolError(m.c, code, why))
  {
    hide FlushOne, OnTransport, CloseConn, StopNow, BeginRxClose, OnRxProtocolError, SendNow, SendData, Enqueue,
         OnPingTick, OnRxPing, OnTimeout, OnCloseTimer, UpgradeRefused, Upgrade, CloseCallback, RequestSendFlush, Finish;
  }

  lemma TransportStep(m: Mach, t: Transport)
    requires Enabled(m, TransportEvent(t))
    ensures m.pc == Idle && Do(m, TransportEvent(t)) == m.(c := OnTransport(m.c, t))
  {
    hide FlushOne, OnTransport, CloseConn, StopNow, BeginRxClose, OnRxProtocolError, SendNow, SendData, Enqueue,
         OnPingTick, OnRxPing, OnTimeout, OnCloseTimer, UpgradeRefused, Upgrade, CloseCallback, RequestSendFlush, Finish;
  }

  lemma EndFlushStep(m: Mach)
    requires Enabled(m, EndFlush)
    ensures m.pc.Flushing? && m.pc.rest == [] && Do(m, EndFlush) == Mach(Finish(m.c, m.pc.then_), Idle)
  {
    hide FlushOne, OnTransport, CloseConn, StopNow, BeginRxClose, OnRxProtocolError, SendNow, SendData, Enqueue,
         OnPingTick, OnRxPing, OnTimeout, OnCloseTimer, UpgradeRefused, Upgrade, CloseCallback, RequestSendFlush, Finish;
  }

  lemma FlagsHold(m: Mach)
    requires Inv(m)
    ensures Flags(m)
  {
    hide Flags;
  }

  lemma WakeupCloses(m: Mach)
    requires Flags(m) && Enabled(m, Wakeup) && m.c.stopRequested && m.c.state == CONNECTED
    ensures StartsClosing(m, Do(m, Wakeup), 1000, NORMAL_CLOSURE)
  {
    hide Do, Enabled, CloseConn;
    WakeupStep(m);
    assert AllAscii(NORMAL_CLOSURE);
  }

  lemma RxCloseCloses(m: Mach, code: nat, reason: seq<byte>)
    requires Flags(m) && Enabled(m, RxClose(code, reason))
    ensures StartsClosing(m, Do(m, RxClose(code, reason)), code, reason)
  {
    hide Do, Enabled, ClosePayload;
    RxCloseStep(m, code, reason);
  }

  lemma RxErrorCloses(m: Mach, code: nat, why: seq<byte>)
    requires Flags(m) && Enabled(m, RxError(code, why))
    ensures StartsClosing(m, Do(m, RxError(code, why)), code, why)
  {
    hide Do, Enabled, ClosePayload;
    RxErrorStep(m, code, why);
  }

  /** The three steps that start a close handshake. */
  lemma ClosingStep(m: Mach, a: Action) returns (code: nat, reason: seq<byte>)
    requires Flags(m) && Enabled(m, a)
    requires a.RxClose? || a.RxError? || (a.Wakeup? && m.c.stopRequested && m.c.state == CONNECTED)
    ensures StartsClosing(m, Do(m, a), code, reason)
    ensures a.Wakeup? ==> code == 1000 && reason == NORMAL_CLOSURE
    ensures a.RxClose? ==> code == a.code && reason == a.reason
    ensures a.RxError? ==> code == a.code && reason == a.why
  {
    hide Do, Enabled, Flags, StartsClosing;
    match a {
      case Wakeup =>
        code, reason := 1000, NORMAL_CLOSURE;
        WakeupCloses(m);
      case RxClose(k, r) =>
        code, reason := k, r;
        RxCloseCloses(m, k, r);
      case RxError(k, w) =>
        code, reason := k, w;
        RxErrorCloses(m, k, w);
    }
  }

  lemma ClosingKeeps(m: Mach, m': Mach, code: nat, reason: seq<byte>)
    requires Inv(m) && StartsClosing(m, m', code, reason)
    ensures Inv(m') && Forward(m.c, m'.c)
  {
    CloseEffect(m.c, code, reason);
    ClosePayloadLegal(code, reason);
    hide CloseConn, ClosePayload, LegalClose, FitReason;
    if |m.c.sendQueue| >= MAX_QUEUE_SIZE {
      SameTrafficKeeps(m, m');
    } else {
      PipelineGrows(m, m', CloseFrame(ClosePayload(code, reason)));
      EntryKeeps(m, m', CloseFrame(ClosePayload(code, reason)));
    }
  }

  lemma KeptByClosing(m: Mach, a: Action)
    requires Inv(m) && Enabled(m, a) && (a.Wakeup? || a.RxClose? || a.RxError?)
    ensures Inv(Do(m, a)) && Forward(m.c, Do(m, a).c)
  {
    if !a.Wakeup? || (m.c.stopRequested && m.c.state == CONNECTED) {
      var code, reason := ClosingStep(m, a);
      hide Do, Enabled, Inv, Forward, StartsClosing;
      ClosingKeeps(m, Do(m, a), code, reason);
    } else {
      KeptByIdleWakeup(m);
      hide Do, Enabled, Inv, Forward;
    }
  }

  /** A wake-up that finds nothing to close. */
  lemma KeptByIdleWakeup(m: Mach)
    requires Inv(m) && Enabled(m, Wakeup) && !(m.c.stopRequested && m.c.state == CONNECTED)
    ensures Inv(Do(m, Wakeup)) && Forward(m.c, Do(m, Wakeup).c)
  {
    hide Do, Enabled, CloseConn, WireEndsWithClose, ClosesPending, Tickets, Faithful;
    WakeupStep(m);
    SameTrafficKeeps(m, Do(m, Wakeup));
  }

  lemma FlushSteps(m: Mach)
    ensures Enabled(m, TakeBatch) ==>
      && m.pc.ToFlush?
      && Do(m, TakeBatch) == Mach(m.c.(sendQueue := []), Flushing(m.c.sendQueue, m.c.state == CONNECTED, m.pc.then_))
    ensures Enabled(m, AcceptUpgrade) ==>
      && m.pc == Idle && !m.c.upgraded
      && Do(m, AcceptUpgrade) == Mach(Upgrade(m.c), ToFlush(Opened(m.c.sendQueue)))
  {
    hide FlushOne, OnTransport, CloseConn, StopNow, BeginRxClose, OnRxProtocolError, SendNow, SendData, Enqueue,
         OnPingTick, OnRxPing, OnTimeout, OnCloseTimer, UpgradeRefused, Upgrade, CloseCallback, RequestSendFlush, Finish;
  }

  lemma KeptByBatch(m: Mach)
    requires Inv(m) && Enabled(m, TakeBatch)
    ensures Inv(Do(m, TakeBatch))
  {
    FlushSteps(m);
    hide Do, Enabled, WireEndsWithClose, ClosesPending, Tickets, Faithful;
    var m' := Do(m, TakeBatch);
    assert Pipeline(m') == Pipeline(m);
    if m.pc.then_.Opened? {
      FramesOfPrefix(m.pc.then_.atUpgrade, m.c.sendQueue);
    }
    SameTrafficKeeps(m, m');
  }

  lemma KeptByUpgrade(m: Mach)
    requires Inv(m) && Enabled(m, AcceptUpgrade)
    ensures Inv(Do(m, AcceptUpgrade))
  {
    FlushSteps(m);
    hide Do, Enabled, WireEndsWithClose, ClosesPending, Tickets, Faithful;
    SameTrafficKeeps(m, Do(m, AcceptUpgrade));
  }

  /** The end of a flush touches two flags at most. */
  predicate Settled(c: Conn, d: Conn) {
    d == c.(sendFlushPending := d.sendFlushPending, closeCallbacks := d.closeCallbacks)
    && c.closeCallbacks <= d.closeCallbacks && (c.closeCallbacks <= 1 ==> d.closeCallbacks <= 1)
  }

  lemma FinishSettles(c: Conn, a: After)
    ensures Settled(c, Finish(c, a))
  {
    match a { case Nothing => case ClearPending => case FireClose => case Opened(_) => }
  }

  lemma KeptByEnd(m: Mach)
    requires Inv(m) && Enabled(m, EndFlush)
    ensures Inv(Do(m, EndFlush))
  {
    EndFlushStep(m);
    FinishSettles(m.c, m.pc.then_);
    hide Do, Enabled, Finish, WireEndsWithClose, ClosesPending, Tickets, Faithful;
    SameTrafficKeeps(m, Do(m, EndFlush));
  }

  lemma {:induction false} FramesOfPrefix(q: seq<Pending>, ps: seq<Pending>)
    requires q <= ps
    ensures FramesOf(q) <= FramesOf(ps)
  {
    if q != [] {
      assert q[1..] <= ps[1..];
      FramesOfPrefix(q[1..], ps[1..]);
    }
  }

  lemma WrittenSnoc(wire: seq<OutFrame>, f: OutFrame)
    ensures WrittenTickets(wire + [f]) ==
            if f.origin.Some? then WrittenTickets(wire) + [f.origin.value] else WrittenTickets(wire)
  {
    assert (wire + [f])[..|wire|] == wire;
  }

  /** What writing one entry of the batch does: an application message goes out while connected, a CLOSE
      goes out if none has, anything else is dropped. */
  function AfterWrite(c: Conn, p: Pending): Conn {
    match p
    case App(text, data, ticket) =>
      if c.state == CONNECTED
      then c.(wire := c.wire + [OutFrame(if text then TEXT else BINARY, data, Some(ticket))]) else c
    case CloseFrame(payload) =>
      if c.closeSent || c.state != DISCONNECTING then c
      else c.(wire := c.wire + [OutFrame(CLOSE, payload, None)], closeSent := true, timerArmed := true)
  }

  lemma WriteEffect(m: Mach)
    requires Inv(m) && Enabled(m, WriteEntry)
    ensures m.pc.Flushing? && m.pc.rest != []
    ensures Do(m, WriteEntry) == Mach(AfterWrite(m.c, m.pc.rest[0]), m.pc.(rest := m.pc.rest[1..]))
    ensures Pipeline(m)[0] == m.pc.rest[0] && Pipeline(m)[1..] == Pipeline(Do(m, WriteEntry))
  {
    assert Pipeline(m)[0] == m.pc.rest[0];
  }

  lemma TicketsKeptByWrite(m: Mach)
    requires Inv(m) && Enabled(m, WriteEntry)
    ensures Tickets(Do(m, WriteEntry))
  {
    WriteEffect(m);
    hide Do, Enabled, Flags, WireEndsWithClose, ClosesPending, Faithful, Opening;
    var p, ps := m.pc.rest[0], Pipeline(m);
    var m' := Do(m, WriteEntry);
    var w := WrittenTickets(m.c.wire);
    match p {
      case App(text, data, ticket) =>
        WrittenSnoc(m.c.wire, OutFrame(if text then TEXT else BINARY, data, Some(ticket)));
        if m.c.state == CONNECTED {
          ConcatAssoc(w, [ticket], WaitingTickets(ps[1..]));
        } else {
          AscendingWithout(w, [ticket], WaitingTickets(ps[1..]), 0, |m.c.accepted|);
        }
      case CloseFrame(payload) =>
        WrittenSnoc(m.c.wire, OutFrame(CLOSE, payload, None));
    }
  }

  lemma OpeningKeptByWrite(m: Mach)
    requires Inv(m) && Enabled(m, WriteEntry)
    ensures Opening(Do(m, WriteEntry))
  {
    WriteEffect(m);
    hide Do, Enabled, WireEndsWithClose, Tickets, Faithful;
    var p := m.pc.rest[0];
    ConcatAssoc(m.c.wire, FramesOf([p]), FramesOf(m.pc.rest[1..]));
  }

  lemma FaithfulKeptByWrite(m: Mach)
    requires Inv(m) && Enabled(m, WriteEntry)
    ensures Faithful(Do(m, WriteEntry))
  {
    WriteEffect(m);
    hide Do, Enabled, Flags, WireEndsWithClose, ClosesPending, Tickets, Opening;
  }

  lemma CloseKeptByWrite(m: Mach)
    requires Inv(m) && Enabled(m, WriteEntry)
    ensures WireEndsWithClose(Do(m, WriteEntry).c)
  {
    WriteEffect(m);
    hide Do, Enabled, Tickets, Opening, Faithful;
  }

  /** One entry of the batch: written, or dropped because the connection is closing. */
  lemma KeptByWrite(m: Mach)
    requires Inv(m) && Enabled(m, WriteEntry)
    ensures Inv(Do(m, WriteEntry))
  {
    TicketsKeptByWrite(m);
    OpeningKeptByWrite(m);
    FaithfulKeptByWrite(m);
    CloseKeptByWrite(m);
    WriteEffect(m);
    hide Do, Enabled, Tickets, Opening, Faithful, WireEndsWithClose;
  }

  /** Every step of every thread keeps the invariant. */
  lemma StepKeepsInv(m: Mach, a: Action)
    requires Inv(m) && Enabled(m, a)
    ensures Inv(Do(m, a))
  {
    hide Do, Inv;
    match a {
      case Push(_, _) => KeptByThreads(m, a);
      case RequestFlush => KeptByThreads(m, a);
      case RequestStop => KeptByThreads(m, a);
      case StartConnecting => KeptByStart(m, a);
      case StartLoop => KeptByStart(m, a);
      case SendEvent => KeptByStart(m, a);
      case Cleanup => KeptByStart(m, a);
      case ConnectTimeout => KeptByTimers(m, a);
      case CloseTimer => KeptByTimers(m, a);
      case RefuseUpgrade => KeptByTimers(m, a);
      case TransportEvent(t) => KeptByTransport(m, t);
      case AppSend(_, _) => KeptByFrames(m, a);
      case PingTick => KeptByFrames(m, a);
      case RxPing(_) => KeptByFrames(m, a);
      case Wakeup => KeptByClosing(m, a);
      case RxClose(_, _) => KeptByClosing(m, a);
      case RxError(_, _) => KeptByClosing(m, a);
      case AcceptUpgrade => KeptByUpgrade(m);
      case TakeBatch => KeptByBatch(m);
      case EndFlush => KeptByEnd(m);
      case WriteEntry => KeptByWrite(m);
    }
  }

  lemma OneStep(m: Mach, a: Action, m': Mach, run: seq<Action>)
    requires Enabled(m, a) && Do(m, a) == m' && run != [] && run[0] == a
    ensures Exec(m, run) == Exec(m', run[1..])
  {
    hide Do, Enabled;
  }

  lemma {:induction false} ExecConcat(m: Mach, a: seq<Action>, b: seq<Action>)
    requires Exec(m, a).Some?
    ensures Exec(m, a + b) == Exec(Exec(m, a).value, b)
    decreases |a|
  {
    hide Do, Enabled;
    if a == [] {
      assert a + b == b;
    } else {
      assert (a + b)[1..] == a[1..] + b;
      ExecConcat(Do(m, a[0]), a[1..], b);
    }
  }

  lemma {:induction false} RunKeepsInv(m: Mach, run: seq<Action>)
    requires Inv(m) && Exec(m, run).Some?
    ensures Inv(Exec(m, run).value)
    decreases |run|
  {
    hide Inv, Enabled, Do;
    if run != [] {
      StepKeepsInv(m, run[0]);
      RunKeepsInv(Do(m, run[0]), run[1..]);
    }
  }

  // ---------------------------------------------------------------------------
  // What that means over whole runs
  // ---------------------------------------------------------------------------

  function Rank(s: CState): nat {
    match s
    case CONNECTED => 1
    case DISCONNECTING => 2
    case DISCONNECTED => 3
    case _ => 0
  }

  /** Histories only grow; once CLOSE is out the wire is silent; once upgraded, the state only moves from
      CONNECTED to DISCONNECTING to DISCONNECTED. */
  predicate Forward(c: Conn, d: Conn) {
    && c.wire <= d.wire && c.accepted <= d.accepted
    && (c.closeSent ==> d.closeSent && d.wire == c.wire)
    && (c.upgraded ==> d.upgraded && Rank(c.state) <= Rank(d.state))
    && c.closeCallbacks <= d.closeCallbacks
  }

  lemma TransportIsForward(m: Mach, t: Transport)
    requires Inv(m) && m.pc == Idle
    ensures Forward(m.c, Do(m, TransportEvent(t)).c)
  {
  }

  lemma WritingIsForward(m: Mach)
    requires Inv(m) && Enabled(m, WriteEntry)
    ensures Forward(m.c, Do(m, WriteEntry).c)
  {
    WriteEffect(m);
    hide Do, Enabled, ClosesPending, Tickets, Faithful, Opening;
  }

  /** What a step that sends or queues a message can do: nothing, one more frame while no CLOSE is out, or one
      more message in the queue. */
  predicate Sends(c: Conn, d: Conn) {
    || d == c
    || (!c.closeSent && d.wire != [] && d == c.(wire := d.wire) && d.wire[..|d.wire| - 1] == c.wire)
    || (d.accepted != [] && d == c.(sendQueue := d.sendQueue, accepted := d.accepted)
        && d.accepted[..|d.accepted| - 1] == c.accepted
        && d.sendQueue != [] && d.sendQueue[|d.sendQueue| - 1].App? && d.sendQueue[..|d.sendQueue| - 1] == c.sendQueue)
  }

  lemma SendNowSends(c: Conn, kind: MessageType, payload: seq<byte>)
    requires (c.closeSent ==> Closing(c.state)) && kind != CLOSE
    ensures Sends(c, SendNow(c, kind, payload, None).0)
  {
  }

  lemma EnqueueSends(c: Conn, text: bool, data: seq<byte>)
    ensures Sends(c, Enqueue(c, text, data).0)
  {
  }

  function SentBy(c: Conn, a: Action): Conn
    requires a.AppSend? || a.PingTick? || a.RxPing? || a.Push?
  {
    match a
    case Push(text, data) => Enqueue(c, text, data).0
    case AppSend(kind, data) => SendData(c, data, kind, true).0
    case PingTick => OnPingTick(c)
    case RxPing(payload) => OnRxPing(c, payload)
  }

  lemma SendingStep(m: Mach, a: Action)
    requires Enabled(m, a) && (a.AppSend? || a.PingTick? || a.RxPing? || a.Push?)
    ensures Do(m, a) == m.(c := SentBy(m.c, a))
    ensures a.RxPing? ==> m.c.upgraded && !Terminating(m.c)
  {
    hide FlushOne, OnTransport, CloseConn, StopNow, BeginRxClose, OnRxProtocolError, SendNow, SendData, Enqueue,
         OnPingTick, OnRxPing, OnTimeout, OnCloseTimer, UpgradeRefused, Upgrade, CloseCallback, RequestSendFlush, Finish;
  }

  lemma SentBySends(c: Conn, a: Action)
    requires (c.closeSent ==> Closing(c.state)) && (a.AppSend? || a.PingTick? || a.RxPing? || a.Push?)
    requires a.RxPing? ==> !c.closeSent
    ensures Sends(c, SentBy(c, a))
  {
    hide SendNow, Enqueue;
    match a {
      case Push(text, data) => EnqueueSends(c, text, data);
      case AppSend(kind, data) =>
        EnqueueSends(c, kind == TEXT, data);
        if kind != CLOSE { SendNowSends(c, kind, data); }
      case PingTick => SendNowSends(c, PING, PING_PAYLOAD);
      case RxPing(payload) =>
    }
  }

  lemma SendingIsForward(m: Mach, a: Action)
    requires Inv(m) && Enabled(m, a) && (a.AppSend? || a.PingTick? || a.RxPing? || a.Push?)
    ensures Forward(m.c, Do(m, a).c)
  {
    hide Do, Enabled, Inv, SentBy;
    SendingStep(m, a);
    FlagsHold(m);
    SentBySends(m.c, a);
  }

  lemma EndFlushIsForward(m: Mach)
    requires Enabled(m, EndFlush)
    ensures Forward(m.c, Do(m, EndFlush).c)
  {
    hide Do, Enabled;
    EndFlushStep(m);
    hide Forward;
    FinishIsForward(m.c, m.pc.then_);
  }

  lemma FinishIsForward(c: Conn, a: After)
    ensures Forward(c, Finish(c, a))
  {
    FinishSettles(c, a);
    hide Finish;
  }

  lemma QuietIsForward(m: Mach, a: Action)
    requires Inv(m) && Enabled(m, a)
    requires !(a.Wakeup? || a.RxClose? || a.RxError? || a.TransportEvent? || a.WriteEntry?)
    requires !(a.AppSend? || a.PingTick? || a.RxPing? || a.Push? || a.EndFlush?)
    ensures Forward(m.c, Do(m, a).c)
  {
    hide WireEndsWithClose, ClosesPending, Tickets, Faithful, Opening;
    hide FlushOne, OnTransport, CloseConn, StopNow, BeginRxClose, OnRxProtocolError, SendNow, SendData;
  }

  lemma StepIsForward(m: Mach, a: Action)
    requires Inv(m) && Enabled(m, a)
    ensures Forward(m.c, Do(m, a).c)
  {
    hide Forward;
    if a.Wakeup? || a.RxClose? || a.RxError? {
      KeptByClosing(m, a);
    } else if a.TransportEvent? {
      TransportIsForward(m, a.t);
    } else if a.WriteEntry? {
      WritingIsForward(m);
    } else if a.AppSend? || a.PingTick? || a.RxPing? || a.Push? {
      SendingIsForward(m, a);
    } else if a.EndFlush? {
      EndFlushIsForward(m);
    } else {
      QuietIsForward(m, a);
    }
  }

  lemma {:induction false} RunIsForward(m: Mach, run: seq<Action>)
    requires Inv(m) && Exec(m, run).Some?
    ensures Forward(m.c, Exec(m, run).value.c)
    decreases |run|
  {
    hide Inv, Enabled, Do;
    if run != [] {
      StepKeepsInv(m, run[0]);
      StepIsForward(m, run[0]);
      RunIsForward(Do(m, run[0]), run[1..]);
    }
  }

  lemma StartInv()
    ensures Inv(LAUNCH)
  {
  }

  /** Whatever happens, in any order: at most one CLOSE frame is written, nothing is written after it, and
      `close_sent` holds exactly when it is on the wire. */
  lemma CloseIsLast(run: seq<Action>, more: seq<Action>)
    requires Exec(LAUNCH, run).Some? && Exec(Exec(LAUNCH, run).value, more).Some?
    ensures var c, d := Exec(LAUNCH, run).value.c, Exec(Exec(LAUNCH, run).value, more).value.c;
      && (forall i :: 0 <= i < |c.wire| - 1 ==> c.wire[i].kind != CLOSE)
      && (c.closeSent <==> exists i :: 0 <= i < |c.wire| && c.wire[i].kind == CLOSE)
      && c.wire <= d.wire
      && (c.closeSent ==> d.wire == c.wire)
  {
    hide Exec, Flags, ClosesPending, Tickets, Faithful, Opening;
    StartInv();
    RunKeepsInv(LAUNCH, run);
    RunIsForward(Exec(LAUNCH, run).value, more);
  }

  /** Every CLOSE on the wire carries a code an endpoint may send and a reason in UTF-8. */
  lemma ClosesAreLegal(run: seq<Action>)
    requires Exec(LAUNCH, run).Some?
    ensures var wire := Exec(LAUNCH, run).value.c.wire;
      forall i :: 0 <= i < |wire| && wire[i].kind == CLOSE ==>
        && 2 <= |wire[i].payload| <= 125
        && R.LegalCloseCode(BigEndian(wire[i].payload[..2])) && Utf8.ValidUtf8(wire[i].payload[2..])
  {
    hide Exec, Flags, ClosesPending, Tickets, Faithful, Opening;
    StartInv();
    RunKeepsInv(LAUNCH, run);
    var wire := Exec(LAUNCH, run).value.c.wire;
    forall i | 0 <= i < |wire| && wire[i].kind == CLOSE
      ensures LegalClose(wire[i].payload) && Utf8.ValidUtf8(wire[i].payload[2..])
    {
      Utf8.AcceptsIffValid(wire[i].payload[2..]);
    }
  }

  /** Wire, batch and queue together never hold more than one CLOSE, and none before the connection closes. */
  lemma OnlyOneClose(run: seq<Action>)
    requires Exec(LAUNCH, run).Some?
    ensures var m := Exec(LAUNCH, run).value; var ps := Pipeline(m);
      && (forall i, j :: 0 <= i < j < |ps| ==> !(ps[i].CloseFrame? && ps[j].CloseFrame?))
      && (forall i, j :: 0 <= i < |ps| && 0 <= j < |m.c.wire| ==> !(ps[i].CloseFrame? && m.c.wire[j].kind == CLOSE))
      && (forall i :: 0 <= i < |ps| && ps[i].CloseFrame? ==> m.c.upgraded && Closing(m.c.state))
  {
    hide Exec, Flags, Tickets, Faithful, Opening, Pipeline;
    StartInv();
    RunKeepsInv(LAUNCH, run);
  }

  /** From the upgrade on the state only moves CONNECTED, DISCONNECTING, DISCONNECTED, in this order, and
      DISCONNECTED is reached only after a CLOSE frame went out. */
  lemma StateOnlyMovesForward(run: seq<Action>, more: seq<Action>)
    requires Exec(LAUNCH, run).Some? && Exec(Exec(LAUNCH, run).value, more).Some?
    requires Exec(LAUNCH, run).value.c.upgraded
    ensures var c, d := Exec(LAUNCH, run).value.c, Exec(Exec(LAUNCH, run).value, more).value.c;
      && d.upgraded && 1 <= Rank(c.state) <= Rank(d.state)
      && (c.state == DISCONNECTED ==> c.closeSent)
      && d.closeCallbacks <= 1
  {
    hide Exec, WireEndsWithClose, ClosesPending, Tickets, Faithful, Opening;
    StartInv();
    RunKeepsInv(LAUNCH, run);
    RunKeepsInv(Exec(LAUNCH, run).value, more);
    RunIsForward(Exec(LAUNCH, run).value, more);
  }

  lemma {:induction false} TicketOrder(wire: seq<OutFrame>, rest: seq<nat>, bound: nat, i: nat, j: nat)
    requires Ascending(WrittenTickets(wire) + rest, 0, bound)
    requires i < j < |wire| && wire[i].origin.Some? && wire[j].origin.Some?
    ensures wire[i].origin.value < wire[j].origin.value
    decreases |wire|
  {
    var n := |wire| - 1;
    var before := WrittenTickets(wire[..n]);
    assert wire == wire[..n] + [wire[n]];
    WrittenSnoc(wire[..n], wire[n]);
    var all := WrittenTickets(wire) + rest;
    assert Ascending(before + [], 0, bound) by {
      assert forall k :: 0 <= k < |before| ==> before[k] == all[k];
    }
    if j == n {
      TicketListed(wire[..n], i);
      var k :| 0 <= k < |before| && before[k] == wire[i].origin.value;
      assert all[k] == before[k] && all[|before|] == wire[n].origin.value;
    } else {
      TicketOrder(wire[..n], [], bound, i, j);
    }
  }

  lemma {:induction false} TicketListed(wire: seq<OutFrame>, i: nat)
    requires i < |wire| && wire[i].origin.Some?
    ensures exists k :: 0 <= k < |WrittenTickets(wire)| && WrittenTickets(wire)[k] == wire[i].origin.value
    decreases |wire|
  {
    var n := |wire| - 1;
    var before := WrittenTickets(wire[..n]);
    if i == n {
      assert WrittenTickets(wire)[|before|] == wire[i].origin.value;
    } else {
      TicketListed(wire[..n], i);
      var k :| 0 <= k < |before| && before[k] == wire[i].origin.value;
      assert WrittenTickets(wire)[k] == before[k];
    }
  }

  /** Queue conservation: the queue stays within its limit, and the frames written off it are messages that
      were accepted, unchanged, each at most once and in the order of acceptance. */
  lemma QueueConserved(run: seq<Action>)
    requires Exec(LAUNCH, run).Some?
    ensures var c := Exec(LAUNCH, run).value.c;
      && |c.sendQueue| <= MAX_QUEUE_SIZE
      && (forall i :: 0 <= i < |c.wire| && c.wire[i].origin.Some? ==>
            var t := c.wire[i].origin.value;
            t < |c.accepted| && c.accepted[t] == (c.wire[i].kind == TEXT, c.wire[i].payload))
      && (forall i, j :: 0 <= i < j < |c.wire| && c.wire[i].origin.Some? && c.wire[j].origin.Some? ==>
            c.wire[i].origin.value < c.wire[j].origin.value)
  {
    hide Exec, WireEndsWithClose, ClosesPending, Opening;
    StartInv();
    RunKeepsInv(LAUNCH, run);
    var m := Exec(LAUNCH, run).value;
    var wire := m.c.wire;
    forall i, j | 0 <= i < j < |wire| && wire[i].origin.Some? && wire[j].origin.Some?
      ensures wire[i].origin.value < wire[j].origin.value
    {
      TicketOrder(wire, WaitingTickets(Pipeline(m)), |m.c.accepted|, i, j);
    }
  }

  /** When the open callback is about to run, what was queued at the upgrade is on the wire, first and in order. */
  lemma QueuedBeforeOpen(run: seq<Action>, m: Mach, q: seq<Pending>)
    requires Exec(LAUNCH, run) == Some(m) && Enabled(m, EndFlush) && m.pc.then_ == Opened(q)
    ensures FramesOf(q) <= m.c.wire
  {
    hide Exec, Flags, WireEndsWithClose, ClosesPending, Tickets, Faithful;
    StartInv();
    RunKeepsInv(LAUNCH, run);
    assert m.c.wire + [] == m.c.wire;
  }

  /** Steps of a flush, and of other threads meanwhile. */
  predicate FlushStep(a: Action) {
    a.TakeBatch? || a.WriteEntry? || a.EndFlush? || a.Push? || a.RequestFlush? || a.RequestStop?
  }

  predicate AllFlushSteps(run: seq<Action>) {
    forall i :: 0 <= i < |run| ==> FlushStep(run[i])
  }

  /** A flush that nobody interrupts is the flush the callback performs. */
  lemma {:induction false} FlushInSteps(c: Conn, batch: seq<Pending>, canSendApp: bool, then_: After) returns (run: seq<Action>)
    ensures Exec(Mach(c, Flushing(batch, canSendApp, then_)), run) ==
            Some(Mach(Finish(FlushBatch(c, batch, canSendApp), then_), Idle))
    ensures AllFlushSteps(run)
    decreases |batch|
  {
    if batch == [] {
      run := [EndFlush];
    } else {
      var tail := FlushInSteps(FlushOne(c, batch[0], canSendApp), batch[1..], canSendApp, then_);
      run := [WriteEntry] + tail;
      assert run[1..] == tail;
    }
  }

  lemma WholeFlush(c: Conn, then_: After) returns (run: seq<Action>)
    ensures Exec(Mach(c, ToFlush(then_)), run) == Some(Mach(Finish(FlushQueue(c), then_), Idle))
    ensures AllFlushSteps(run)
  {
    var tail := FlushInSteps(c.(sendQueue := []), c.sendQueue, c.state == CONNECTED, then_);
    run := [TakeBatch] + tail;
    assert run[1..] == tail;
  }

  // ---------------------------------------------------------------------------
  // Flushes that write nothing
  // ---------------------------------------------------------------------------

  predicate OnlyApps(ps: seq<Pending>) {
    forall i :: 0 <= i < |ps| ==> ps[i].App?
  }

  lemma {:induction false} FlushNothing(c: Conn, apps: seq<Pending>)
    requires OnlyApps(apps)
    ensures FlushBatch(c, apps, false) == c
    decreases |apps|
  {
    if apps != [] {
      FlushNothing(c, apps[1..]);
    }
  }
}
