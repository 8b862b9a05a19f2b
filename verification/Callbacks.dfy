/** Whole callbacks, nothing coming in between: each is a run of the machine, so everything said of runs holds of
    them, and each means something for its caller. */
module Callbacks {
  import opened Bytes
  import opened Sender
  import opened Connection
  import opened Protocol
  import opened Shutdown
  import opened Answer

  /** The steps that are callbacks of the event loop or calls from outside it. */
  predicate IsCallback(a: Action) {
    !a.StartConnecting? && !a.StartLoop? && !a.TakeBatch? && !a.WriteEntry? && !a.EndFlush? && !a.Cleanup?
  }

  /** What a callback leaves behind, flush included. */
  function Effect(c: Conn, a: Action): Conn
    requires IsCallback(a)
  {
    match a
    case Push(text, data) => Enqueue(c, text, data).0
    case RequestFlush => RequestSendFlush(c)
    case RequestStop => c.(stopRequested := true)
    case AppSend(kind, data) => SendData(c, data, kind, true).0
    case SendEvent => FlushQueue(c).(sendFlushPending := false)
    case Wakeup => if c.stopRequested then StopNow(c) else FlushQueue(c)
    case ConnectTimeout => OnTimeout(c)
    case PingTick => OnPingTick(c)
    case CloseTimer => OnCloseTimer(c)
    case TransportEvent(t) => OnTransport(c, t)
    case RxPing(payload) => OnRxPing(c, payload)
    case RxClose(code, reason) => OnRxClose(c, code, reason)
    case RxError(code, why) => OnRxProtocolError(c, code, why)
    case AcceptUpgrade => FlushQueue(Upgrade(c))
    case RefuseUpgrade => UpgradeRefused(c)
  }

  /** The step with which a callback begins, and the flush it ends in, if any. */
  lemma FirstStep(c: Conn, a: Action)
    requires Enabled(Mach(c, Idle), a) && IsCallback(a)
    ensures var m := Do(Mach(c, Idle), a);
      if m.pc.ToFlush? then Effect(c, a) == Finish(FlushQueue(m.c), m.pc.then_) else m == Mach(Effect(c, a), Idle)
  {
    hide FlushQueue, OnTransport, CloseConn, StopNow, OnRxProtocolError, SendNow, SendData, Enqueue,
         OnPingTick, OnRxPing, OnTimeout, OnCloseTimer, UpgradeRefused, Upgrade, CloseCallback, RequestSendFlush;
  }

  /** A callback is a run from between callbacks to between callbacks. */
  lemma EffectIsRun(c: Conn, a: Action) returns (run: seq<Action>)
    requires Enabled(Mach(c, Idle), a) && IsCallback(a)
    ensures Exec(Mach(c, Idle), run) == Some(Mach(Effect(c, a), Idle))
  {
    var m := Do(Mach(c, Idle), a);
    FirstStep(c, a);
    hide Do, Enabled, Effect, Finish, FlushQueue;
    if m.pc.ToFlush? {
      var tail := WholeFlush(m.c, m.pc.then_);
      run := [a] + tail;
      OneStep(Mach(c, Idle), a, m, run);
      assert run[1..] == tail;
    } else {
      run := [a];
      OneStep(Mach(c, Idle), a, m, run);
      assert Exec(m, run[1..]) == Some(m);
    }
  }

  /** What is known of a state some run has reached. */
  lemma Reached(run: seq<Action>, m: Mach)
    requires Exec(LAUNCH, run) == Some(m)
    ensures Inv(m) && Bound(m)
  {
    StartInv();
    assert Bound(LAUNCH);
    RunKeepsInv(LAUNCH, run);
    RunBound(LAUNCH, run);
  }

  // ---------------------------------------------------------------------------
  // What a flush means
  // ---------------------------------------------------------------------------

  function ClosesOf(ps: seq<Pending>): seq<OutFrame> {
    if ps == [] then []
    else (if ps[0].CloseFrame? then [OutFrame(CLOSE, ps[0].payload, None)] else []) + ClosesOf(ps[1..])
  }

  /** What goes out with a flush: the messages while connected, the CLOSE while disconnecting. */
  function FlushedFrames(c: Conn): seq<OutFrame> {
    if c.state == CONNECTED then FramesOf(c.sendQueue)
    else if c.state == DISCONNECTING && !c.closeSent then ClosesOf(c.sendQueue)
    else []
  }

  lemma {:induction false} FlushConnected(c: Conn, batch: seq<Pending>)
    requires c.alive && c.upgraded && c.state == CONNECTED && OnlyApps(batch)
    ensures FlushBatch(c, batch, true) == c.(wire := c.wire + FramesOf(batch))
    decreases |batch|
  {
    if batch == [] {
      assert c.wire + [] == c.wire;
    } else {
      var p := batch[0];
      var f := OutFrame(if p.text then TEXT else BINARY, p.data, Some(p.ticket));
      assert FlushOne(c, p, true) == c.(wire := c.wire + [f]);
      FlushConnected(c.(wire := c.wire + [f]), batch[1..]);
      ConcatAssoc(c.wire, [f], FramesOf(batch[1..]));
    }
  }

  lemma {:induction false} NoCloses(ps: seq<Pending>)
    requires OnlyApps(ps)
    ensures ClosesOf(ps) == []
  {
    if ps != [] { NoCloses(ps[1..]); }
  }

  predicate OneClose(ps: seq<Pending>) {
    && (forall i, j :: 0 <= i < j < |ps| ==> !(ps[i].CloseFrame? && ps[j].CloseFrame?))
    && (forall i :: 0 <= i < |ps| && ps[i].CloseFrame? ==> |ps[i].payload| <= 125)
  }

  lemma {:induction false} FlushDisconnecting(c: Conn, batch: seq<Pending>)
    requires c.alive && c.state == DISCONNECTING && !c.closeSent && OneClose(batch)
    ensures var d := FlushBatch(c, batch, false);
      && d.wire == c.wire + ClosesOf(batch) && (d.closeSent <==> HasClose(batch)) && d.sendQueue == c.sendQueue
    decreases |batch|
  {
    if batch == [] {
      assert c.wire + [] == c.wire;
    } else if batch[0].CloseFrame? {
      var f := OutFrame(CLOSE, batch[0].payload, None);
      var d := c.(wire := c.wire + [f], closeSent := true, timerArmed := true);
      assert FlushOne(c, batch[0], false) == d;
      assert OnlyApps(batch[1..]) by {
        forall i | 0 <= i < |batch[1..]| ensures batch[1..][i].App? { assert batch[1..][i] == batch[i + 1]; }
      }
      FlushNothing(d, batch[1..]);
      NoCloses(batch[1..]);
      assert [f] + [] == [f];
    } else {
      assert OneClose(batch[1..]);
      assert HasClose(batch) <==> HasClose(batch[1..]) by { CloseLater(batch); }
      FlushDisconnecting(c, batch[1..]);
      assert [] + ClosesOf(batch[1..]) == ClosesOf(batch[1..]);
    }
  }

  lemma CloseLater(ps: seq<Pending>)
    requires ps != [] && ps[0].App?
    ensures HasClose(ps) <==> HasClose(ps[1..])
  {
    if HasClose(ps) {
      var i :| 0 <= i < |ps| && ps[i].CloseFrame?;
      assert ps[1..][i - 1].CloseFrame?;
    }
  }

  /** A flush between callbacks empties the queue and sends what `FlushedFrames` says. */
  lemma FlushMeans(c: Conn)
    requires Inv(Mach(c, Idle))
    ensures var d := FlushQueue(c);
      && d.sendQueue == [] && d.wire == c.wire + FlushedFrames(c)
      && (d.closeSent <==> c.closeSent || (c.state == DISCONNECTING && HasClose(c.sendQueue)))
  {
    var m := Mach(c, Idle);
    var e := c.(sendQueue := []);
    assert Pipeline(m) == c.sendQueue;
    FlagsHold(m);
    hide WireEndsWithClose, Tickets, Faithful, Opening;
    assert OneClose(c.sendQueue);
    if c.state == CONNECTED {
      FlushConnected(e, c.sendQueue);
    } else if c.state == DISCONNECTING && !c.closeSent {
      FlushDisconnecting(e, c.sendQueue);
    } else {
      assert OnlyApps(c.sendQueue);
      FlushNothing(e, c.sendQueue);
      assert c.wire + [] == c.wire;
    }
  }

  /** The peer's close, flush and application callback included. */
  lemma RxCloseMeans(c: Conn, code: nat, reason: seq<byte>)
    requires Inv(Mach(c, Idle)) && Enabled(Mach(c, Idle), RxClose(code, reason))
    ensures var d := OnRxClose(c, code, reason);
      && (d.closeSent <==> |c.sendQueue| < MAX_QUEUE_SIZE)
      && d.wire == c.wire + (if d.closeSent then [OutFrame(CLOSE, ClosePayload(code, reason), None)] else [])
      && (d.closeSent ==> ClosesWith(d.wire, code, reason))
      && d.closeCallbacks == 1 && d.state == DISCONNECTING && d.closeReceived
  {
    var a := RxClose(code, reason);
    var m := Do(Mach(c, Idle), a);
    FirstStep(c, a);
    assert Effect(c, a) == OnRxClose(c, code, reason);
    hide Do, Enabled, Inv, Effect, OnRxClose, Finish, FlushQueue, Exec;
    AtFlush(Mach(c, Idle), m, code, reason);
    var tail := WholeFlush(m.c, FireClose);
    PeerCloseAnsweredIff(Mach(c, Idle), code, reason, tail, Mach(OnRxClose(c, code, reason), Idle));
  }

  // ---------------------------------------------------------------------------
  // What each callback means
  // ---------------------------------------------------------------------------

  /** A connection that is closing has its CLOSE out, or queued with a flush coming, or its loop is exiting. */
  predicate CloseUnderWay(d: Conn) {
    d.upgraded ==> d.closeSent || d.loopExit || (HasClose(d.sendQueue) && d.sendFlushPending)
  }

  /** The queue is empty, what could go out has gone out, in order, and a queued CLOSE was sent. */
  predicate Flushed(c: Conn, d: Conn) {
    && d.sendQueue == [] && d.wire == c.wire + FlushedFrames(c) && d.state == c.state
    && (d.closeSent <==> c.closeSent || (c.state == DISCONNECTING && HasClose(c.sendQueue)))
  }

  /** When `sendData` takes a message: other threads need room in the queue, and so does everyone while the connection
      is being set up; the event thread needs the connection up. */
  predicate Takes(c: Conn, kind: MessageType, onEventThread: bool) {
    && kind != CLOSE
    && if c.state == CONNECTING || !onEventThread then |c.sendQueue| < 1024
       else c.alive && c.upgraded && c.state == CONNECTED
  }

  /** The message is the latest accepted one, and the last in the queue. */
  function Behind(c: Conn, text: bool, data: seq<byte>): Conn {
    c.(sendQueue := c.sendQueue + [App(text, data, |c.accepted|)], accepted := c.accepted + [(text, data)])
  }

  /** A message not taken leaves no trace. One that is queued is the latest accepted one and the last in the queue, and a
      live connection that is not being set up has a flush coming. One of the event thread is on the wire at once,
      unless it is a control payload the encoder drops. */
  predicate Taken(c: Conn, d: Conn, kind: MessageType, data: seq<byte>, onEventThread: bool) {
    if !Takes(c, kind, onEventThread) then d == c
    else if c.state == CONNECTING || !onEventThread then
      d == Behind(c, kind == TEXT, data).(sendFlushPending := c.sendFlushPending || (c.alive && c.state != CONNECTING))
    else
      d == c.(wire := c.wire + if kind == TEXT || kind == BINARY || |data| <= 125 then [OutFrame(kind, data, None)] else [])
  }

  /** What a failure or the end of the transport leaves behind. */
  predicate TornDown(c: Conn, t: Transport, d: Conn) {
    var stopping, broken := c.stopRequested || Closing(c.state), t.error || t.timeout;
    && d.loopExit && d.wire == c.wire && d.closeSent == c.closeSent
    // what waited for the upgrade is given up, unless the connection was stopping or TLS has an error of its own
    && d.sendQueue == (if c.upgraded || (broken && (stopping || (t.error && t.tlsError))) then c.sendQueue else [])
    && d.state == (if (if broken then !stopping else c.upgraded && !c.closeReceived && !c.closeSent) then DISCONNECTING
                   else c.state)
    // the application hears of the close when the stream ends after a close frame of either side
    && d.closeCallbacks == (if !broken && c.upgraded && (c.closeReceived || c.closeSent) then 1 else c.closeCallbacks)
  }

  /** A stop request that has been acted upon: the loop is left before the upgrade, and a connection that was up has its
      normal close queued unless the queue was full. */
  predicate Stopped(c: Conn, d: Conn) {
    && Closing(d.state) && d.wire == c.wire && CloseUnderWay(d)
    && (!c.upgraded && !Closing(c.state) ==> d.state == DISCONNECTED && d.loopExit)
    && (c.state == CONNECTED && |c.sendQueue| < 1024 ==> QueuesClose(d.sendQueue, 1000, NORMAL_CLOSURE))
  }

  /** What one callback does, for those who know nothing of its code. */
  predicate Means(c: Conn, a: Action, d: Conn) {
    match a
    case Push(text, data) => d == if |c.sendQueue| < 1024 then Behind(c, text, data) else c
    case AppSend(kind, data) => Taken(c, d, kind, data, true)
    case RequestFlush => d.sendFlushPending && d.wire == c.wire && d.sendQueue == c.sendQueue && d.state == c.state
    case RequestStop => d.stopRequested && d.wire == c.wire && d.sendQueue == c.sendQueue && d.state == c.state
    case SendEvent => Flushed(c, d) && !d.sendFlushPending
    case Wakeup => if c.stopRequested then Stopped(c, d) else Flushed(c, d)
    case ConnectTimeout =>
      (Closing(c.state) || d.loopExit) && d.wire == c.wire && d.sendQueue == c.sendQueue && d.state == c.state
    case PingTick => d.wire == c.wire + (if c.state == CONNECTED then [OutFrame(PING, PING_PAYLOAD, None)] else [])
    case CloseTimer =>
      if c.closeReceived then d == c
      else d.state == DISCONNECTED && d.loopExit && d.closeCallbacks == 1 && d.wire == c.wire && d.closeSent
    case TransportEvent(t) => if t.error || t.eof || t.timeout then TornDown(c, t, d) else d == c
    case RxPing(payload) =>
      d == c.(wire := c.wire + if |payload| <= 125 then [OutFrame(PONG, payload, None)] else [])
    case RxClose(code, reason) =>
      && (d.closeSent <==> |c.sendQueue| < MAX_QUEUE_SIZE)
      && d.wire == c.wire + (if d.closeSent then [OutFrame(CLOSE, ClosePayload(code, reason), None)] else [])
      && (d.closeSent ==> ClosesWith(d.wire, code, reason))
      && d.closeCallbacks == 1 && d.state == DISCONNECTING && d.closeReceived
    case RxError(code, why) =>
      && d.state == DISCONNECTING && d.protocolFailed && d.wire == c.wire && CloseUnderWay(d)
      && (|c.sendQueue| < 1024 ==> QueuesClose(d.sendQueue, code, why))
    case AcceptUpgrade => d.state == CONNECTED && d.upgraded && d.sendQueue == [] && d.wire == FramesOf(c.sendQueue)
    case RefuseUpgrade => d.loopExit && d.state == FAILED && !d.upgraded && d.wire == [] && d.sendQueue == c.sendQueue
    case _ => true
  }

  lemma SendsMean(c: Conn, a: Action)
    requires Flags(Mach(c, Idle)) && (a.Push? || a.AppSend? || a.PingTick? || a.RxPing?)
    ensures Means(c, a, Effect(c, a))
  {
    assert c.wire + [] == c.wire;
  }

  lemma RequestsMean(c: Conn, a: Action)
    requires Flags(Mach(c, Idle)) && (a.RequestFlush? || a.RequestStop? || a.ConnectTimeout? || a.RefuseUpgrade?)
    requires a.RefuseUpgrade? ==> !c.upgraded
    ensures Means(c, a, Effect(c, a))
  {
  }

  lemma TimerMeans(c: Conn)
    requires Flags(Mach(c, Idle)) && c.timerArmed
    ensures Means(c, CloseTimer, Effect(c, CloseTimer))
  {
  }

  lemma TransportMeans(c: Conn, t: Transport)
    requires Flags(Mach(c, Idle))
    ensures Means(c, TransportEvent(t), Effect(c, TransportEvent(t)))
  {
  }

  lemma SendEventMeans(c: Conn)
    requires Inv(Mach(c, Idle))
    ensures Means(c, SendEvent, Effect(c, SendEvent))
  {
    FlushMeans(c);
    KeepsState(c.(sendQueue := []), c.sendQueue, c.state == CONNECTED);
    hide Inv, FlushedFrames, HasClose;
  }

  predicate SameState(c: Conn, d: Conn) {
    d.state == c.state && d.upgraded == c.upgraded && d.stopRequested == c.stopRequested
  }

  lemma {:induction false} KeepsState(c: Conn, batch: seq<Pending>, canSendApp: bool)
    ensures SameState(c, FlushBatch(c, batch, canSendApp))
    decreases |batch|
  {
    if batch != [] {
      EntryKeepsState(c, batch[0], canSendApp);
      hide FlushOne;
      KeepsState(FlushOne(c, batch[0], canSendApp), batch[1..], canSendApp);
    }
  }

  lemma EntryKeepsState(c: Conn, p: Pending, canSendApp: bool)
    ensures SameState(c, FlushOne(c, p, canSendApp))
  {
    match p {
      case App(text, data, ticket) => SendKeepsState(c, if text then TEXT else BINARY, data, Some(ticket));
      case CloseFrame(payload) => SendKeepsState(c, CLOSE, payload, None);
    }
    hide SendNow;
  }

  lemma SendKeepsState(c: Conn, kind: MessageType, payload: seq<byte>, origin: Option<nat>)
    ensures SameState(c, SendNow(c, kind, payload, origin).0)
  {
    assert SameState(c, SendFrame(c, kind, payload, origin));
    hide SendFrame;
  }

  lemma UpgradeMeans(c: Conn)
    requires Inv(Mach(c, Idle)) && !c.upgraded
    ensures Means(c, AcceptUpgrade, Effect(c, AcceptUpgrade))
  {
    var d := Upgrade(c);
    assert OnlyApps(c.sendQueue) by {
      assert Pipeline(Mach(c, Idle)) == c.sendQueue;
    }
    FlushConnected(d.(sendQueue := []), c.sendQueue);
    assert [] + FramesOf(c.sendQueue) == FramesOf(c.sendQueue);
    hide WireEndsWithClose, ClosesPending, Tickets, Faithful, Opening;
  }

  /** A close handshake begun between callbacks. */
  lemma BeginningMeans(c: Conn, a: Action, d: Conn)
    requires Flags(Mach(c, Idle)) && Enabled(Mach(c, Idle), a) && Mach(d, Idle) == Do(Mach(c, Idle), a)
    requires a.RxError? || (a.Wakeup? && c.stopRequested && c.state == CONNECTED)
    ensures d.state == DISCONNECTING && d.wire == c.wire
    ensures |c.sendQueue| < 1024 ==>
      QueuesClose(d.sendQueue, if a.Wakeup? then 1000 else a.code, if a.Wakeup? then NORMAL_CLOSURE else a.why)
  {
    var code, reason := ClosingStep(Mach(c, Idle), a);
    CloseEffect(c, code, reason);
    ClosePayloadSays(code, reason);
    hide Do, Enabled, Flags, CloseConn, Says, ClosePayload, NORMAL_CLOSURE;
  }

  lemma WakeupMeans(c: Conn)
    requires Inv(Mach(c, Idle)) && Enabled(Mach(c, Idle), Wakeup)
    requires Bound(Mach(Effect(c, Wakeup), Idle)) && Flags(Mach(Effect(c, Wakeup), Idle))
    ensures Means(c, Wakeup, Effect(c, Wakeup))
  {
    if c.stopRequested {
      var d := Effect(c, Wakeup);
      assert Pipeline(Mach(d, Idle)) == d.sendQueue;
      FlagsHold(Mach(c, Idle));
      FirstStep(c, Wakeup);
      if c.state == CONNECTED { BeginningMeans(c, Wakeup, d); }
      hide Inv, Do, Enabled, CloseConn, HasClose, Pipeline, QueuesClose, NORMAL_CLOSURE;
    } else {
      FlushMeans(c);
      KeepsState(c.(sendQueue := []), c.sendQueue, c.state == CONNECTED);
      hide Inv, FlushedFrames, HasClose, Enabled, Bound, Flags;
    }
  }

  lemma ErrorMeans(c: Conn, code: nat, why: seq<byte>)
    requires Inv(Mach(c, Idle)) && Enabled(Mach(c, Idle), RxError(code, why))
    requires Bound(Mach(Effect(c, RxError(code, why)), Idle)) && Flags(Mach(Effect(c, RxError(code, why)), Idle))
    ensures Means(c, RxError(code, why), Effect(c, RxError(code, why)))
  {
    var a := RxError(code, why);
    var d := Effect(c, a);
    assert Pipeline(Mach(d, Idle)) == d.sendQueue;
    FlagsHold(Mach(c, Idle));
    FirstStep(c, a);
    BeginningMeans(c, a, d);
    hide Inv, Do, CloseConn, HasClose, Pipeline, QueuesClose;
  }

  lemma CloseMeans(c: Conn, code: nat, reason: seq<byte>)
    requires Inv(Mach(c, Idle)) && Enabled(Mach(c, Idle), RxClose(code, reason))
    ensures Means(c, RxClose(code, reason), Effect(c, RxClose(code, reason)))
  {
    var d := OnRxClose(c, code, reason);
    RxCloseMeans(c, code, reason);
    hide Inv, Enabled, OnRxClose, ClosePayload, ClosesWith;
  }

  lemma EffectMeans(c: Conn, a: Action)
    requires Inv(Mach(c, Idle)) && Enabled(Mach(c, Idle), a) && IsCallback(a)
    requires Bound(Mach(Effect(c, a), Idle)) && Flags(Mach(Effect(c, a), Idle))
    ensures Means(c, a, Effect(c, a))
  {
    FlagsHold(Mach(c, Idle));
    hide Inv, Means, Effect, Bound, Flags, Do;
    if a.Push? || a.AppSend? || a.PingTick? || a.RxPing? {
      SendsMean(c, a);
    } else if a.RequestFlush? || a.RequestStop? || a.ConnectTimeout? || a.RefuseUpgrade? {
      RequestsMean(c, a);
    } else {
      match a {
        case Wakeup => WakeupMeans(c);
        case RxError(code, why) => ErrorMeans(c, code, why);
        case SendEvent => SendEventMeans(c);
        case CloseTimer => TimerMeans(c);
        case TransportEvent(t) => TransportMeans(c, t);
        case RxClose(code, reason) => CloseMeans(c, code, reason);
        case AcceptUpgrade => UpgradeMeans(c);
      }
    }
  }

  /** A run goes on with a callback. */
  lemma GoesOn(before: seq<Action>, c: Conn, a: Action) returns (run: seq<Action>)
    requires Exec(LAUNCH, before) == Some(Mach(c, Idle)) && Enabled(Mach(c, Idle), a) && IsCallback(a)
    ensures before <= run && Exec(LAUNCH, run) == Some(Mach(Effect(c, a), Idle))
    ensures Forward(c, Effect(c, a)) && Means(c, a, Effect(c, a))
  {
    hide Do, Enabled, Effect, Inv, Bound, Forward, Means, Exec;
    var more := EffectIsRun(c, a);
    Reached(before, Mach(c, Idle));
    RunIsForward(Mach(c, Idle), more);
    run := before + more;
    ExecConcat(LAUNCH, before, more);
    Reached(run, Mach(Effect(c, a), Idle));
    FlagsHold(Mach(Effect(c, a), Idle));
    EffectMeans(c, a);
  }

  /** What other threads do at any time. */
  predicate IsOutside(a: Action) { a.Push? || a.RequestFlush? || a.RequestStop? }

  lemma GoesOnOutside(before: seq<Action>, m: Mach, a: Action) returns (run: seq<Action>)
    requires Exec(LAUNCH, before) == Some(m) && IsOutside(a)
    ensures before <= run && Exec(LAUNCH, run) == Some(m.(c := Effect(m.c, a)))
    ensures Forward(m.c, Effect(m.c, a))
  {
    OutsideStep(m, a);
    hide Do, Enabled, Effect, Inv, Bound, Forward;
    Reached(before, m);
    StepIsForward(m, a);
    run := before + [a];
    ExecConcat(LAUNCH, before, [a]);
    OneStep(m, a, Do(m, a), [a]);
    assert [a][1..] == [];
  }

  /** A message handed over by another thread: queued, and then a flush is asked for unless the connection is just
      being set up. */
  lemma SendsOutside(before: seq<Action>, m: Mach, data: seq<byte>, kind: MessageType) returns (run: seq<Action>)
    requires Exec(LAUNCH, before) == Some(m) && kind != CLOSE
    ensures var d := SendData(m.c, data, kind, false).0;
      before <= run && Exec(LAUNCH, run) == Some(m.(c := d)) && Forward(m.c, d)
  {
    var push := Push(kind == TEXT, data);
    SentOutside(m.c, data, kind);
    hide Effect, SendData, Enqueue, RequestSendFlush;
    run := GoesOnOutside(before, m, push);
    var m1 := m.(c := Effect(m.c, push));
    if SendData(m.c, data, kind, false).0 != m1.c {
      run := GoesOnOutside(run, m1, RequestFlush);
    }
  }

  lemma SentOutside(c: Conn, data: seq<byte>, kind: MessageType)
    requires kind != CLOSE
    ensures var d := SendData(c, data, kind, false).0; var e := Effect(c, Push(kind == TEXT, data));
      d == if c.state == CONNECTING || |c.sendQueue| >= 1024 then e else Effect(e, RequestFlush)
  {
    hide RequestSendFlush;
  }

  /** What `sendData` tells its caller. */
  predicate SendDataTells(c: Conn, d: Conn, ok: bool, data: seq<byte>, kind: MessageType, onEventThread: bool) {
    (ok <==> Takes(c, kind, onEventThread)) && Taken(c, d, kind, data, onEventThread)
  }

  lemma Queued(c: Conn, text: bool, data: seq<byte>)
    ensures Enqueue(c, text, data) == if |c.sendQueue| < 1024 then (Behind(c, text, data), true) else (c, false)
    ensures var e := Behind(c, text, data);
      e.(sendFlushPending := c.sendFlushPending) == e && RequestSendFlush(e) == e.(sendFlushPending := c.sendFlushPending || c.alive)
  {
  }

  lemma QueuedTells(c: Conn, data: seq<byte>, kind: MessageType, onEventThread: bool)
    requires kind != CLOSE && (c.state == CONNECTING || !onEventThread)
    ensures var (d, ok) := SendData(c, data, kind, onEventThread); SendDataTells(c, d, ok, data, kind, onEventThread)
  {
    Queued(c, kind == TEXT, data);
    hide SendNow, Enqueue, Behind, RequestSendFlush;
  }

  lemma SentTells(c: Conn, data: seq<byte>, kind: MessageType)
    requires kind != CLOSE && c.state != CONNECTING
    ensures var (d, ok) := SendNow(c, kind, data, None); SendDataTells(c, d, ok, data, kind, true)
  {
    assert c.wire + [] == c.wire;
  }

  lemma SendDataMeans(c: Conn, data: seq<byte>, kind: MessageType, onEventThread: bool)
    ensures var (d, ok) := SendData(c, data, kind, onEventThread); SendDataTells(c, d, ok, data, kind, onEventThread)
  {
    if kind == CLOSE {
      assert SendDataTells(c, c, false, data, kind, onEventThread);
    } else if c.state == CONNECTING || !onEventThread {
      QueuedTells(c, data, kind, onEventThread);
    } else {
      SentTells(c, data, kind);
    }
    hide SendDataTells, Enqueue, SendNow, RequestSendFlush;
  }

  /** `sendData` as part of a run, from whichever thread. */
  lemma SendDataGoesOn(before: seq<Action>, m: Mach, data: seq<byte>, kind: MessageType, onEventThread: bool)
    returns (run: seq<Action>)
    requires Exec(LAUNCH, before) == Some(m) && (onEventThread ==> m.pc == Idle)
    ensures var d := SendData(m.c, data, kind, onEventThread).0;
      before <= run && Exec(LAUNCH, run) == Some(m.(c := d)) && Forward(m.c, d)
  {
    if kind == CLOSE {
      run := before;
      assert Forward(m.c, m.c);
    } else if onEventThread {
      AppSendEffect(m.c, kind, data);
      hide SendData, Effect, Enabled, Do, Forward, Means;
      run := GoesOn(before, m.c, AppSend(kind, data));
    } else {
      hide SendData, Forward;
      run := SendsOutside(before, m, data, kind);
    }
  }

  lemma AppSendEffect(c: Conn, kind: MessageType, data: seq<byte>)
    ensures Enabled(Mach(c, Idle), AppSend(kind, data))
    ensures Effect(c, AppSend(kind, data)) == SendData(c, data, kind, true).0
  {
    hide SendData;
  }

  lemma OutsideStep(m: Mach, a: Action)
    requires IsOutside(a)
    ensures Enabled(m, a) && Do(m, a) == m.(c := Effect(m.c, a))
  {
    hide FlushQueue, OnTransport, CloseConn, StopNow, OnRxProtocolError, SendNow, SendData, Enqueue, BeginRxClose,
         OnPingTick, OnRxPing, OnTimeout, OnCloseTimer, UpgradeRefused, Upgrade, CloseCallback, RequestSendFlush;
  }

  /** The event loop comes up. */
  lemma Starts(before: seq<Action>, c: Conn) returns (run: seq<Action>)
    requires Exec(LAUNCH, before) == Some(Mach(c, NotStarted))
    ensures before <= run && Exec(LAUNCH, run) == Some(Mach(c.(state := CONNECTING, alive := true), Idle))
  {
    var c1 := c.(state := CONNECTING);
    var c2 := c1.(alive := true);
    StartSteps(c, c1, c2);
    hide Do, Enabled;
    var more := [StartConnecting, StartLoop];
    run := before + more;
    ExecConcat(LAUNCH, before, more);
    OneStep(Mach(c, NotStarted), StartConnecting, Mach(c1, Starting), more);
    OneStep(Mach(c1, Starting), StartLoop, Mach(c2, Idle), more[1..]);
  }

  lemma StartSteps(c: Conn, c1: Conn, c2: Conn)
    requires c1 == c.(state := CONNECTING) && c2 == c1.(alive := true)
    ensures Enabled(Mach(c, NotStarted), StartConnecting)
    ensures Do(Mach(c, NotStarted), StartConnecting) == Mach(c1, Starting)
    ensures Enabled(Mach(c1, Starting), StartLoop) && Do(Mach(c1, Starting), StartLoop) == Mach(c2, Idle)
  {
  }

  /** The event loop is left for good. */
  lemma Ends(before: seq<Action>, c: Conn) returns (run: seq<Action>)
    requires Exec(LAUNCH, before) == Some(Mach(c, Idle))
    ensures before <= run && Exec(LAUNCH, run) == Some(Mach(c.(alive := false), Done))
  {
    EndStep(c);
    hide Do, Enabled;
    run := before + [Cleanup];
    ExecConcat(LAUNCH, before, [Cleanup]);
    OneStep(Mach(c, Idle), Cleanup, Mach(c.(alive := false), Done), [Cleanup]);
  }

  lemma EndStep(c: Conn)
    ensures Enabled(Mach(c, Idle), Cleanup) && Do(Mach(c, Idle), Cleanup) == Mach(c.(alive := false), Done)
  {
  }
}
