/** The connection object (`WebSocketContext`). Its state is always one that a run of the machine reaches, so what
    holds over every run holds of the object, and its output buffer holds exactly the octets of the frames sent. */
module Context {
  import opened Bytes
  import opened EvBuffers
  import opened Framing
  import opened Sender
  import opened Connection
  import opened Protocol
  import opened Shutdown
  import opened Delivery
  import opened Callbacks
  import opened Engine
  import opened Handshake
  import R = Receiver

  predicate SmallQueue(ps: seq<Pending>) {
    forall i | 0 <= i < |ps| && ps[i].App? :: |ps[i].data| < MAX_LENGTH
  }

  class WebSocketContext {
    const receiver: R.WebSocketReceiver
    const input: EvBuffer
    const output: EvBuffer
    const negotiate: Negotiation
    const encoding: Encoding
    var state: CState
    var upgraded: bool
    var alive: bool
    var stopRequested: bool
    var loopExit: bool
    var closeSent: bool
    var closeReceived: bool
    var protocolFailed: bool
    var closeCallbacks: nat
    var timerArmed: bool
    var sendFlushPending: bool
    var sendQueue: seq<Pending>
    var accepted: seq<(bool, seq<byte>)>
    var wire: seq<OutFrame>
    ghost var run: seq<Action>  // the history of the object as a run of the machine
    ghost var pc: Pc

    function View(): Conn
      reads this
    {
      Conn(state, upgraded, alive, stopRequested, loopExit, closeSent, closeReceived, protocolFailed, closeCallbacks,
           timerArmed, sendFlushPending, sendQueue, accepted, wire)
    }

    /** The output holds the octets of the wire. */
    ghost predicate Valid()
      reads this, output
    {
      && input != output
      && SmallQueue(sendQueue) && AllSized(wire) && output.data == WireOctets(wire, encoding)
    }

    /** No callback is under way. */
    ghost predicate Ready()
      reads this, output
    {
      Valid() && Exec(LAUNCH, run) == Some(Mach(View(), pc)) && (if alive then pc == Idle else pc == NotStarted || pc == Done)
    }

    /** A callback has run: the history goes on and takes nothing back, and the callback did what it means. */
    twostate predicate Did(a: Action)
      requires IsCallback(a)
      reads this, output
    {
      && Ready() && pc == old(pc) && old(run) <= run && Forward(old(View()), View())
      && Means(old(View()), a, View()) && View() == Effect(old(View()), a)
    }

    /** Nothing has happened. */
    twostate predicate Nothing()
      reads this, output
    {
      Ready() && View() == old(View()) && run == old(run)
    }

    constructor (receiver: R.WebSocketReceiver, input: EvBuffer, negotiate: Negotiation, encoding: Encoding)
      ensures this.receiver == receiver && this.input == input && fresh(output)
      ensures this.negotiate == negotiate && this.encoding == encoding
      ensures Ready() && pc == NotStarted && View() == INITIAL && output.data == []
    {
      this.receiver, this.input, this.negotiate, this.encoding := receiver, input, negotiate, encoding;
      output := new EvBuffer();
      state, upgraded, alive, stopRequested, loopExit := DISCONNECTED, false, false, false, false;
      closeSent, closeReceived, protocolFailed, closeCallbacks := false, false, false, 0;
      timerArmed, sendFlushPending := false, false;
      sendQueue, accepted, wire := [], [], [];
      run, pc := [], NotStarted;
      new;
      assert Exec(LAUNCH, []) == Some(LAUNCH) by { hide Do, Enabled; }
    }

    // -------------------------------------------------------------------------
    // Parts of callbacks
    // -------------------------------------------------------------------------

    method Send(kind: MessageType, payload: seq<byte>, origin: Option<nat>)
      requires Valid() && |payload| < MAX_LENGTH
      modifies this`wire, output
      ensures Valid() && View() == SendFrame(old(View()), kind, payload, origin)
    {
      var f := OutFrame(kind, payload, origin);
      hide WireOctets, Written, AllSized, SmallQueue, Call;
      CallSendable(f, |wire|, encoding);
      Sender.Send(output, Call(f, |wire|, encoding));
      if IsControl(kind) && |payload| > 125 {
        DroppedOctets(f, |wire|, encoding);
        assert wire + [] == wire && old(output.data) + [] == old(output.data);
        return;
      }
      FrameAppended(wire, f, encoding);
      wire := wire + [f];
    }

    static lemma DroppedOctets(f: OutFrame, i: nat, e: Encoding)
      requires IsControl(f.kind) && 125 < |f.payload| < MAX_LENGTH
      ensures Sendable(Call(f, i, e)) && Written(Call(f, i, e)) == []
    {
    }

    method SendNow(kind: MessageType, payload: seq<byte>, origin: Option<nat>) returns (ok: bool)
      requires Valid() && |payload| < MAX_LENGTH
      modifies this`wire, output
      ensures Valid() && (View(), ok) == Connection.SendNow(old(View()), kind, payload, origin)
    {
      hide WireOctets, AllSized, SmallQueue, SendFrame;
      if !alive { return false; }
      var stateOk := state == CONNECTED || (kind == CLOSE && state == DISCONNECTING);
      if !stateOk { return false; }
      if kind != CLOSE && !upgraded { return false; }
      Send(kind, payload, origin);
      return true;
    }

    method RequestSendFlush()
      modifies this`sendFlushPending
      ensures View() == Connection.RequestSendFlush(old(View()))
    {
      if sendFlushPending { return; }
      sendFlushPending := true;
      if !alive { sendFlushPending := false; }
    }

    method RequestLoopExit()
      modifies this`stopRequested, this`loopExit
      ensures View() == Connection.RequestLoopExit(old(View()))
    {
      stopRequested := true;
      loopExit := true;
    }

    method Enqueue(text: bool, data: seq<byte>) returns (ok: bool)
      requires Valid() && |data| < MAX_LENGTH
      modifies this`sendQueue, this`accepted
      ensures Valid() && (View(), ok) == Connection.Enqueue(old(View()), text, data)
    {
      hide WireOctets, AllSized;
      if |sendQueue| >= MAX_QUEUE_SIZE { return false; }
      sendQueue := sendQueue + [App(text, data, |accepted|)];
      accepted := accepted + [(text, data)];
      return true;
    }

    method SendCloseCallback()
      modifies this`closeCallbacks
      ensures View() == CloseCallback(old(View()))
    {
      if closeCallbacks > 0 { return; }
      closeCallbacks := closeCallbacks + 1;
    }

    /** Afterwards the connection is closing, and nothing has been written: on a connection that was up, either one
        CLOSE with at most 123 octets of the reason is queued and a flush requested, or the loop is told to exit. */
    method Close(code: nat, reason: seq<byte>) returns (ok: bool)
      requires Valid()
      modifies this`state, this`stopRequested, this`loopExit, this`sendQueue, this`sendFlushPending
      ensures Valid() && (View(), ok) == CloseConn(old(View()), code, reason)
      ensures Closing(state) && wire == old(wire)
      ensures old(state == CONNECTED && upgraded && alive && !closeSent) ==>
        (ok <==> |old(sendQueue)| < MAX_QUEUE_SIZE)
        && (if ok then sendQueue == old(sendQueue) + [CloseFrame(ClosePayload(code, reason))] && sendFlushPending
            else sendQueue == old(sendQueue) && loopExit)
        && (ok ==> QueuesClose(sendQueue, code, reason))
    {
      hide WireOctets, AllSized, ClosePayload, Says;
      if state == DISCONNECTING || state == DISCONNECTED { return false; }
      if !upgraded || !alive {
        state := DISCONNECTED;
        RequestLoopExit();
        return true;
      }
      state := DISCONNECTING;
      if closeSent { return false; }
      var payload := CodeAndReason(code, reason);
      if |sendQueue| >= MAX_QUEUE_SIZE {
        RequestLoopExit();
        return false;
      }
      sendQueue := sendQueue + [CloseFrame(payload)];
      RequestSendFlush();
      return true;
    }

    method CodeAndReason(code: nat, reason: seq<byte>) returns (payload: seq<byte>)
      ensures payload == ClosePayload(code, reason) && Says(payload, code, reason)
    {
      ClosePayloadSays(code, reason);
      hide Says;
      var r := reason;
      if |r| > 123 { r := r[..123]; }
      payload := ToBigEndian(code, 2) + r;
    }

    method FlushSendQueue()
      requires Valid() && forall i | 0 <= i < |sendQueue| && sendQueue[i].CloseFrame? :: |sendQueue[i].payload| <= 125
      modifies this`sendQueue, this`wire, this`closeSent, this`timerArmed, output
      ensures Valid() && View() == FlushQueue(old(View()))
    {
      var local := sendQueue;
      sendQueue := [];
      var canSendApp := state == CONNECTED;
      var i := 0;
      hide WireOctets, AllSized, FlushOne, Connection.SendNow;
      while i < |local|
        invariant 0 <= i <= |local|
        invariant Valid()
        invariant FlushBatch(View(), local[i..], canSendApp) == FlushQueue(old(View()))
      {
        var p := local[i];
        assert local[i..][1..] == local[i + 1..];
        FlushEntry(p, canSendApp);
        i := i + 1;
      }
    }

    /** The body of the flush loop. */
    method FlushEntry(p: Pending, canSendApp: bool)
      requires Valid() && (if p.App? then |p.data| < MAX_LENGTH else |p.payload| < MAX_LENGTH)
      modifies this`wire, this`closeSent, this`timerArmed, output
      ensures Valid() && View() == FlushOne(old(View()), p, canSendApp)
    {
      hide WireOctets, AllSized, Connection.SendNow;
      match p {
        case App(text, data, ticket) =>
          if !canSendApp { return; }
          var _ := SendNow(if text then TEXT else BINARY, data, Some(ticket));
        case CloseFrame(payload) =>
          if closeSent { return; }
          var ok := SendNow(CLOSE, payload, None);
          if ok {
            closeSent := true;
            timerArmed := true;
          }
      }
    }

    // -------------------------------------------------------------------------
    // Callbacks of the event loop
    // -------------------------------------------------------------------------

    /** The history takes in the callback `a` that began at `c`. */
    ghost method Record(c: Conn, a: Action)
      requires Valid() && pc == Idle && Exec(LAUNCH, run) == Some(Mach(c, Idle))
      requires Enabled(Mach(c, Idle), a) && IsCallback(a) && View() == Effect(c, a)
      modifies this`run
      ensures Ready() && old(run) <= run && Forward(c, View()) && Means(c, a, View())
    {
      hide Exec, Inv, Bound, Effect, Means, Enabled, Do, Forward, WireOctets, AllSized, SmallQueue;
      run := GoesOn(run, c, a);
      Reached(run, Mach(View(), Idle));
      Running(View());
    }

    static lemma Running(c: Conn)
      requires Inv(Mach(c, Idle))
      ensures c.alive
    {
    }

    /** The flush other threads asked for. */
    method SendCallback()
      requires Ready()
      modifies this, output
      ensures if old(alive) then Did(SendEvent) else Nothing()
    {
      hide Exec, Inv, Bound, Effect, Means, Enabled, Do, Forward, FlushQueue, WireOctets, AllSized, SmallQueue;
      if !alive { return; }
      ghost var c := View();
      Reached(run, Mach(c, Idle));
      ShortCloses(c);
      FlushAndClear();
      SendEventEffect(c);
      Record(c, SendEvent);
    }

    method FlushAndClear()
      requires Valid() && forall i | 0 <= i < |sendQueue| && sendQueue[i].CloseFrame? :: |sendQueue[i].payload| <= 125
      modifies this`sendQueue, this`wire, this`closeSent, this`timerArmed, this`sendFlushPending, output
      ensures Valid() && View() == FlushQueue(old(View())).(sendFlushPending := false)
    {
      hide FlushQueue, WireOctets, AllSized, SmallQueue;
      FlushSendQueue();
      sendFlushPending := false;
    }

    static lemma SendEventEffect(c: Conn)
      ensures Enabled(Mach(c, Idle), SendEvent)
      ensures Effect(c, SendEvent) == FlushQueue(c).(sendFlushPending := false)
    {
      hide FlushQueue;
    }

    static lemma ShortCloses(c: Conn)
      requires Inv(Mach(c, Idle))
      ensures forall i | 0 <= i < |c.sendQueue| && c.sendQueue[i].CloseFrame? :: |c.sendQueue[i].payload| <= 125
    {
      assert Pipeline(Mach(c, Idle)) == c.sendQueue;
      hide Flags, WireEndsWithClose, Tickets, Faithful, Opening;
    }

    /** `stopNow`: the graceful close of a connection that is up, or none. */
    method StopNow()
      requires Valid()
      modifies this`state, this`stopRequested, this`loopExit, this`sendQueue, this`sendFlushPending
      ensures Valid() && View() == Connection.StopNow(old(View()))
    {
      hide WireOctets, AllSized, SmallQueue, CloseConn, NORMAL_CLOSURE;
      if state == DISCONNECTING || state == DISCONNECTED { return; }
      var canHandshake := upgraded && alive;
      if !canHandshake || state != CONNECTED {
        state := DISCONNECTED;
        RequestLoopExit();
        return;
      }
      var _ := Close(1000, NORMAL_CLOSURE);
    }

    /** A stop request starts the shutdown; otherwise the queue is flushed. */
    method WakeupCallback()
      requires Ready()
      modifies this, output
      ensures if old(alive) then Did(Wakeup) else Nothing()
    {
      hide Exec, Inv, Bound, Effect, Means, Enabled, Do, Forward, FlushQueue, WireOctets, AllSized, SmallQueue;
      if !alive { return; }
      ghost var c := View();
      WakeupEffect(c);
      if stopRequested {
        StopNow();
      } else {
        Reached(run, Mach(c, Idle));
        ShortCloses(c);
        FlushSendQueue();
      }
      Record(c, Wakeup);
    }

    static lemma WakeupEffect(c: Conn)
      ensures Enabled(Mach(c, Idle), Wakeup)
      ensures Effect(c, Wakeup) == if c.stopRequested then Connection.StopNow(c) else FlushQueue(c)
    {
      hide FlushQueue, Connection.StopNow;
    }

    /** The connection took too long to open. */
    method TimeoutCallback()
      requires Ready() && alive
      modifies this, output
      ensures Did(ConnectTimeout)
    {
      hide Exec, Inv, Bound, Effect, Means, Enabled, Do, Forward, FlushQueue, WireOctets, AllSized, SmallQueue;
      ghost var c := View();
      LoopEffects(c);
      if !(state == DISCONNECTING || state == DISCONNECTED) {
        RequestLoopExit();
      }
      Record(c, ConnectTimeout);
    }

    /** The ping timer. */
    method SendPing()
      requires Ready() && alive
      modifies this, output
      ensures Did(PingTick)
    {
      hide Exec, Inv, Bound, Effect, Means, Enabled, Do, Forward, FlushQueue, WireOctets, AllSized, SmallQueue;
      assert |PING_PAYLOAD| < MAX_LENGTH;
      hide Connection.SendNow, PING_PAYLOAD;
      ghost var c := View();
      LoopEffects(c);
      if upgraded {
        var _ := SendNow(PING, PING_PAYLOAD, None);
      }
      Record(c, PingTick);
    }

    /** The peer has had its time to answer the CLOSE. */
    method CloseTimerCb()
      requires Ready() && alive && timerArmed
      modifies this, output
      ensures Did(CloseTimer)
    {
      hide Exec, Inv, Bound, Effect, Means, Enabled, Do, Forward, FlushQueue, WireOctets, AllSized, SmallQueue;
      ghost var c := View();
      LoopEffects(c);
      GiveUpWaiting();
      Record(c, CloseTimer);
    }

    method GiveUpWaiting()
      requires Valid()
      modifies this`state, this`stopRequested, this`loopExit, this`closeCallbacks
      ensures Valid() && View() == OnCloseTimer(old(View()))
    {
      hide WireOctets, AllSized, SmallQueue;
      if closeReceived { return; }
      SendCloseCallback();
      state := DISCONNECTED;
      RequestLoopExit();
    }

    /** The effects of the loop's smaller callbacks. */
    static lemma LoopEffects(c: Conn)
      ensures Enabled(Mach(c, Idle), ConnectTimeout) && Effect(c, ConnectTimeout) == OnTimeout(c)
      ensures Enabled(Mach(c, Idle), PingTick) && Effect(c, PingTick) == OnPingTick(c)
      ensures c.timerArmed ==> Enabled(Mach(c, Idle), CloseTimer)
      ensures Effect(c, CloseTimer) == OnCloseTimer(c)
    {
      hide OnTimeout, OnPingTick, OnCloseTimer;
    }

    /** The transport fails or ends. */
    method HandleEvent(t: Transport)
      requires Ready() && alive
      modifies this, output
      ensures Did(TransportEvent(t))
    {
      hide Exec, Inv, Bound, Effect, Means, Enabled, Do, Forward, FlushQueue, WireOctets, AllSized, SmallQueue;
      hide OnTransport;
      ghost var c := View();
      TransportEffect(c, t);
      TearDown(t);
      Record(c, TransportEvent(t));
    }

    method TearDown(t: Transport)
      requires Valid()
      modifies this`state, this`stopRequested, this`loopExit, this`sendQueue, this`closeCallbacks
      ensures Valid() && View() == OnTransport(old(View()), t)
    {
      hide WireOctets, AllSized, SmallQueue, TransportLost, TransportEnded;
      if t.error || t.eof || t.timeout {
        var stoppingNow := stopRequested || state == DISCONNECTING || state == DISCONNECTED;
        RequestLoopExit();  // every branch below ends in it
        if stoppingNow && (t.error || t.timeout) { return; }
        if t.error || t.timeout {
          HandleFailure(t);
        } else {
          HandleEof();
        }
      }
    }

    /** An error or a timeout of the transport of a connection that is not closing. */
    method HandleFailure(t: Transport)
      requires Valid() && (t.error || t.timeout) && !Closing(state)
      modifies this`state, this`sendQueue
      ensures Valid() && View() == TransportLost(old(View()), t.error && t.tlsError)
    {
      hide WireOctets, AllSized;
      if t.error {
        if t.tlsError {
          state := DISCONNECTING;
          return;
        }
        if !upgraded { sendQueue := []; }
        if upgraded && state == DISCONNECTING {
          assert false;  // so the close callback of the source never runs here
        }
        state := DISCONNECTING;
      } else {
        if !upgraded { sendQueue := []; }
        state := DISCONNECTING;
      }
    }

    method HandleEof()
      requires Valid()
      modifies this`state, this`sendQueue, this`closeCallbacks
      ensures Valid() && View() == TransportEnded(old(View()))
    {
      hide WireOctets, AllSized;
      if !upgraded {
        sendQueue := [];
      } else if !(closeReceived || closeSent) {
        state := DISCONNECTING;
      } else {
        SendCloseCallback();
      }
    }

    static lemma TransportEffect(c: Conn, t: Transport)
      ensures Enabled(Mach(c, Idle), TransportEvent(t)) && Effect(c, TransportEvent(t)) == OnTransport(c, t)
    {
      hide OnTransport;
    }

    // -------------------------------------------------------------------------
    // What the receiver reports
    // -------------------------------------------------------------------------

    method RxPing(payload: seq<byte>)
      requires Ready() && Listening(Mach(View(), pc)) && |payload| < MAX_LENGTH
      modifies this, output
      ensures Did(Action.RxPing(payload))
    {
      hide Exec, Inv, Bound, Effect, Means, Enabled, Do, Forward, FlushQueue, WireOctets, AllSized, SmallQueue;
      ghost var c := View();
      RxEffects(c);
      Reached(run, Mach(c, Idle));
      Running(c);
      Send(PONG, payload, None);
      Record(c, Action.RxPing(payload));
    }

    method RxClose(code: nat, reason: seq<byte>)
      requires Ready() && Listening(Mach(View(), pc)) && R.LegalCloseCode(code) && FitReason(reason)
      modifies this, output
      ensures Did(Action.RxClose(code, reason))
    {
      hide Exec, Inv, Bound, Effect, Means, Enabled, Do, Forward, FlushQueue, WireOctets, AllSized, SmallQueue;
      hide OnRxClose;
      ghost var c := View();
      RxEffects(c);
      Reached(run, Mach(c, Idle));
      ShortCloses(c);
      AnswerClose(code, reason);
      Record(c, Action.RxClose(code, reason));
    }

    method AnswerClose(code: nat, reason: seq<byte>)
      requires Valid() && forall i | 0 <= i < |sendQueue| && sendQueue[i].CloseFrame? :: |sendQueue[i].payload| <= 125
      modifies this`state, this`stopRequested, this`loopExit, this`closeReceived, this`sendFlushPending
      modifies this`sendQueue, this`wire, this`closeSent, this`timerArmed, this`closeCallbacks, output
      ensures Valid() && View() == OnRxClose(old(View()), code, reason)
    {
      hide CloseConn, FlushQueue, CloseCallback, WireOctets, AllSized, SmallQueue;
      ghost var c := View();
      closeReceived := true;
      if !closeSent {
        var _ := Close(code, reason);
        ClosesStayShort(c.(closeReceived := true), code, reason);
        FlushSendQueue();
      }
      SendCloseCallback();
    }

    static lemma ClosesStayShort(c: Conn, code: nat, reason: seq<byte>)
      requires forall i | 0 <= i < |c.sendQueue| && c.sendQueue[i].CloseFrame? :: |c.sendQueue[i].payload| <= 125
      ensures var q := CloseConn(c, code, reason).0.sendQueue;
        forall i | 0 <= i < |q| && q[i].CloseFrame? :: |q[i].payload| <= 125
    {
    }

    method RxProtocolError(code: nat, why: seq<byte>)
      requires Ready() && Listening(Mach(View(), pc)) && R.LegalCloseCode(code) && FitReason(why)
      modifies this, output
      ensures Did(RxError(code, why))
    {
      hide Exec, Inv, Bound, Effect, Means, Enabled, Do, Forward, FlushQueue, WireOctets, AllSized, SmallQueue;
      hide OnRxProtocolError;
      ghost var c := View();
      RxEffects(c);
      FailProtocol(code, why);
      Record(c, RxError(code, why));
    }

    method FailProtocol(code: nat, why: seq<byte>)
      requires Valid()
      modifies this`state, this`stopRequested, this`loopExit, this`sendQueue, this`sendFlushPending, this`protocolFailed
      ensures Valid() && View() == OnRxProtocolError(old(View()), code, why)
    {
      hide CloseConn, WireOctets, AllSized, SmallQueue;
      if protocolFailed { return; }
      protocolFailed := true;
      var canHandshake := upgraded && alive;
      if canHandshake {
        var _ := Close(code, why);
        RequestSendFlush();
      } else {
        RequestLoopExit();
      }
    }

    static lemma RxEffects(c: Conn)
      requires Listening(Mach(c, Idle))
      ensures forall payload ::
        Enabled(Mach(c, Idle), Action.RxPing(payload)) && Effect(c, Action.RxPing(payload)) == OnRxPing(c, payload)
      ensures forall code, reason | R.LegalCloseCode(code) && FitReason(reason) ::
        && Enabled(Mach(c, Idle), Action.RxClose(code, reason))
        && Effect(c, Action.RxClose(code, reason)) == OnRxClose(c, code, reason)
      ensures forall code, why | R.LegalCloseCode(code) && FitReason(why) ::
        Enabled(Mach(c, Idle), RxError(code, why)) && Effect(c, RxError(code, why)) == OnRxProtocolError(c, code, why)
    {
      hide OnRxPing, OnRxClose, OnRxProtocolError;
    }

    // -------------------------------------------------------------------------
    // The upgrade
    // -------------------------------------------------------------------------

    method UpgradeAccepted()
      requires Ready() && alive && !upgraded
      modifies this, output
      ensures Did(AcceptUpgrade)
    {
      hide Exec, Inv, Bound, Effect, Means, Enabled, Do, Forward, FlushQueue, WireOctets, AllSized, SmallQueue;
      ghost var c := View();
      UpgradeEffects(c);
      Reached(run, Mach(c, Idle));
      ShortCloses(c);
      Open();
      Record(c, AcceptUpgrade);
    }

    method Open()
      requires Valid() && forall i | 0 <= i < |sendQueue| && sendQueue[i].CloseFrame? :: |sendQueue[i].payload| <= 125
      modifies this`upgraded, this`state, this`sendQueue, this`wire, this`closeSent, this`timerArmed, output
      ensures Valid() && View() == FlushQueue(Upgrade(old(View())))
    {
      hide FlushQueue, WireOctets, AllSized, SmallQueue;
      upgraded := true;
      state := CONNECTED;
      FlushSendQueue();
    }

    method UpgradeRefused()
      requires Ready() && alive && !upgraded
      modifies this, output
      ensures Did(RefuseUpgrade)
    {
      hide Exec, Inv, Bound, Effect, Means, Enabled, Do, Forward, FlushQueue, WireOctets, AllSized, SmallQueue;
      ghost var c := View();
      UpgradeEffects(c);
      state := FAILED;
      RequestLoopExit();
      Record(c, RefuseUpgrade);
    }

    static lemma UpgradeEffects(c: Conn)
      requires !c.upgraded
      ensures Enabled(Mach(c, Idle), AcceptUpgrade) && Effect(c, AcceptUpgrade) == FlushQueue(Upgrade(c))
      ensures Enabled(Mach(c, Idle), RefuseUpgrade) && Effect(c, RefuseUpgrade) == Connection.UpgradeRefused(c)
    {
      hide FlushQueue, Upgrade, Connection.UpgradeRefused;
    }

    // -------------------------------------------------------------------------
    // Calls from outside
    // -------------------------------------------------------------------------

    /** The history takes in what another thread did. */
    ghost method RecordOutside(c: Conn, a: Action)
      requires Valid() && Exec(LAUNCH, run) == Some(Mach(c, pc)) && IsOutside(a) && View() == Effect(c, a)
      requires if alive then pc == Idle else pc == NotStarted || pc == Done
      modifies this`run
      ensures Ready() && old(run) <= run && Forward(c, View())
    {
      hide Exec, Inv, Bound, Effect, Means, Enabled, Do, Forward, WireOctets, AllSized, SmallQueue;
      run := GoesOnOutside(run, Mach(c, pc), a);
    }

    /** Says whether the message was taken. One refused leaves no trace; one taken is the latest in the queue, with a flush
        coming once the connection is set up, or on the wire at once, but for a control payload the encoder drops. */
    method SendData(data: seq<byte>, kind: MessageType, onEventThread: bool) returns (ok: bool)
      requires Ready() && |data| < MAX_LENGTH && (onEventThread ==> alive)
      modifies this, output
      ensures Ready() && old(run) <= run && Forward(old(View()), View())
      ensures SendDataTells(old(View()), View(), ok, data, kind, onEventThread)
    {
      hide Exec, Inv, Bound, Effect, Means, Enabled, Do, Forward, FlushQueue, WireOctets, AllSized, SmallQueue;
      hide Connection.SendData, SendDataTells;
      ghost var c := View();
      SendDataMeans(c, data, kind, onEventThread);
      ok := SendOrQueue(data, kind, onEventThread);
      ghost var d := Connection.SendData(c, data, kind, onEventThread).0;
      assert View() == d;
      run := SendDataGoesOn(run, Mach(c, pc), data, kind, onEventThread);
      assert Exec(LAUNCH, run) == Some(Mach(View(), pc));
    }

    method SendOrQueue(data: seq<byte>, kind: MessageType, onEventThread: bool) returns (ok: bool)
      requires Valid() && |data| < MAX_LENGTH
      modifies this`sendQueue, this`accepted, this`wire, this`sendFlushPending, output
      ensures Valid() && (View(), ok) == Connection.SendData(old(View()), data, kind, onEventThread)
    {
      hide Connection.Enqueue, Connection.SendNow, Connection.RequestSendFlush, WireOctets, AllSized, SmallQueue;
      if kind == CLOSE { return false; }
      if state == CONNECTING {
        ok := Enqueue(kind == TEXT, data);
        return;
      }
      if onEventThread {
        ok := SendNow(kind, data, None);
        return;
      }
      ok := Enqueue(kind == TEXT, data);
      if !ok { return; }
      RequestSendFlush();
    }

    static lemma StopEffect(c: Conn)
      ensures Effect(c, RequestStop) == c.(stopRequested := true)
    {
    }

    static lemma ForwardRefl(c: Conn)
      ensures Forward(c, c)
    {
    }

    /** Only a request: the loop acts on it when it wakes up. */
    method Stop()
      requires Ready()
      modifies this
      ensures Ready() && old(run) <= run && stopRequested && View() == old(View()).(stopRequested := true)
    {
      hide Exec, Inv, Bound, Effect, Means, Enabled, Do, Forward, FlushQueue, WireOctets, AllSized, SmallQueue;
      ghost var c := View();
      StopEffect(c);
      stopRequested := true;
      RecordOutside(c, RequestStop);
    }

    method Start()
      requires Ready() && pc == NotStarted
      modifies this
      ensures Ready() && old(run) <= run && View() == old(View()).(state := CONNECTING, alive := true)
    {
      hide Exec, Inv, Bound, Effect, Means, Enabled, Do, Forward, FlushQueue, WireOctets, AllSized, SmallQueue;
      ghost var c := View();
      state := CONNECTING;
      alive := true;
      pc := Idle;
      run := Starts(run, c);
    }

    method Cleanup()
      requires Ready() && alive
      modifies this
      ensures Ready() && old(run) <= run && View() == old(View()).(alive := false)
    {
      hide Exec, Inv, Bound, Effect, Means, Enabled, Do, Forward, FlushQueue, WireOctets, AllSized, SmallQueue;
      ghost var c := View();
      alive := false;
      pc := Done;
      run := Ends(run, c);
    }

    // -------------------------------------------------------------------------
    // Reading
    // -------------------------------------------------------------------------

    /** `rxIsTerminating`. */
    function IsTerminating(): bool
      reads this
    {
      state == DISCONNECTING || state == DISCONNECTED || stopRequested
    }

    /** One event of the receiver: texts and binaries go to the application. */
    method Deliver(e: R.Event)
      requires Ready() && Listening(Mach(View(), pc)) && Answerable(e)
      modifies this, output
      ensures Ready() && pc == old(pc) && old(run) <= run && Forward(old(View()), View())
      ensures IsTerminating() == e.Terminal()
      ensures wire == old(wire) + Answers([e], |old(sendQueue)| < MAX_QUEUE_SIZE)
      ensures !e.Terminal() ==> sendQueue == old(sendQueue)
      ensures |old(sendQueue)| < MAX_QUEUE_SIZE ==>
        && (e.Close? ==> ClosesWith(wire, e.code, e.reason))
        && (e.ProtocolError? ==> QueuesClose(sendQueue, e.code, AsciiOctets(e.why)))
    {
      hide Exec, Inv, Bound, Effect, Means, Enabled, Do, Forward, FlushQueue, WireOctets, AllSized, SmallQueue;
      hide R.Drain, ClosePayload, ClosesWith, QueuesClose, AsciiOctets;
      ghost var c := View();
      OneEvent(e, |sendQueue| < MAX_QUEUE_SIZE);
      ForwardRefl(c);
      Told(c, e);
      assert wire + [] == wire;
      match e {
        case Ping(payload) => RxPing(payload);
        case Close(code, reason) => RxClose(code, reason);
        case ProtocolError(code, why) =>
          AsciiFits(why);
          RxProtocolError(code, AsciiOctets(why));
        case _ =>
      }
    }

    static lemma OneEvent(e: R.Event, room: bool)
      ensures e.Ping? ==> Answers([e], room) == [OutFrame(PONG, e.payload, None)]
      ensures e.Close? ==> Answers([e], room) == if room then [OutFrame(CLOSE, ClosePayload(e.code, e.reason), None)] else []
      ensures !e.Ping? && !e.Close? ==> Answers([e], room) == []
    {
      var pong := if e.Ping? then [OutFrame(PONG, e.payload, None)] else [];
      var close := if room && e.Close? then [OutFrame(CLOSE, ClosePayload(e.code, e.reason), None)] else [];
      assert [e][1..] == [] && Pongs([e]) == pong + [] == pong;
      assert Answers([e], room) == pong + close && pong + [] == pong && [] + close == close;
      hide ClosePayload;
    }

    /** What the meaning of the callback says for this event. */
    static lemma Told(c: Conn, e: R.Event)
      requires Listening(Mach(c, Idle)) && Answerable(e)
      ensures e.Ping? ==> var a := Action.RxPing(e.payload); var d := Effect(c, a);
        && d.sendQueue == c.sendQueue && d.stopRequested == c.stopRequested
        && (Means(c, a, d) ==> d.wire == c.wire + [OutFrame(PONG, e.payload, None)] && d.state == c.state)
      ensures e.Close? ==> var a := Action.RxClose(e.code, e.reason); var d := Effect(c, a);
        Means(c, a, d) ==>
          && Closing(d.state) && d.wire == c.wire + Answers([e], |c.sendQueue| < MAX_QUEUE_SIZE)
          && (|c.sendQueue| < MAX_QUEUE_SIZE ==> ClosesWith(d.wire, e.code, e.reason))
      ensures e.ProtocolError? ==> var a := RxError(e.code, AsciiOctets(e.why)); var d := Effect(c, a);
        Means(c, a, d) ==>
          && Closing(d.state) && d.wire == c.wire
          && (|c.sendQueue| < MAX_QUEUE_SIZE ==> QueuesClose(d.sendQueue, e.code, AsciiOctets(e.why)))
    {
      OneEvent(e, |c.sendQueue| < MAX_QUEUE_SIZE);
      hide OnRxClose, OnRxProtocolError, ClosePayload, AsciiOctets, CloseUnderWay, Answers, ClosesWith, QueuesClose;
    }

    /** What the receiver has reported since its log had `from` entries. */
    function NewsSince(from: nat): seq<R.Event>
      reads receiver.sinks
    {
      if from <= |receiver.sinks.log| then receiver.sinks.log[from..] else []
    }

    /** The receive loop with this object as the owner of the receiver: every ping is answered, the peer's close if the
        queue has room, and the loop has stopped exactly when the connection is terminating. */
    method Receive()
      requires Ready() && alive && upgraded && receiver.sinks.terminating == IsTerminating()
      modifies this, output, receiver, receiver.utf8Validator, receiver.sinks, input
      ensures Ready() && pc == old(pc) && old(run) <= run && Forward(old(View()), View())
      ensures upgraded && receiver.cfg == old(receiver.cfg)
      ensures receiver.View(input) == R.Drain(old(receiver.cfg), old(receiver.View(input)))
      ensures receiver.sinks.terminating == IsTerminating()
      ensures wire == old(wire) + Answers(NewsSince(|old(receiver.sinks.log)|), |old(sendQueue)| < MAX_QUEUE_SIZE)
    {
      hide Exec, Inv, Bound, Effect, Means, Enabled, Do, Forward, FlushQueue, WireOctets, AllSized, SmallQueue;
      hide R.Drain, Answers, Answerable;
      ghost var c, x := View(), receiver.View(input);
      ghost var room := |sendQueue| < MAX_QUEUE_SIZE;
      var from := |receiver.sinks.log|;
      receiver.OnData(input);
      Reported(receiver.cfg, x);
      var news := receiver.sinks.log[from..];
      ForwardRefl(c);
      NoAnswers(c.wire, room);
      var i := 0;
      while i < |news|
        invariant 0 <= i <= |news|
        invariant Ready() && pc == old(pc) && upgraded && old(run) <= run && Forward(c, View())
        invariant wire == c.wire + Answers(news[..i], room)
        invariant IsTerminating() == (i == |news| && receiver.sinks.terminating)
        invariant i < |news| ==> (|sendQueue| < MAX_QUEUE_SIZE <==> room)
        modifies this, output
      {
        ghost var d := View();
        Deliver(news[i]);
        AnswersNext(news, i, room);
        ConcatAssoc(c.wire, Answers(news[..i], room), Answers([news[i]], room));
        ForwardTrans(c, d, View());
        StaysUpgraded(d, View());
        i := i + 1;
      }
      assert news[..i] == news;
    }

    static lemma Reported(cfg: R.Config, x: R.Rx)
      ensures var y := R.Drain(cfg, x);
        x.log <= y.log && if x.done then y == x else News(y.log[|x.log|..], y.done)
    {
      hide R.Drain, News;
      if x.done { DrainStopped(cfg, x); } else { DrainNews(cfg, x); }
    }

    static lemma NoAnswers(wire: seq<OutFrame>, room: bool)
      ensures wire + Answers([], room) == wire
    {
    }

    static lemma ForwardTrans(c: Conn, d: Conn, e: Conn)
      requires Forward(c, d) && Forward(d, e)
      ensures Forward(c, e)
    {
    }

    static lemma StaysUpgraded(c: Conn, d: Conn)
      requires Forward(c, d) && c.upgraded
      ensures d.upgraded
    {
    }

    /** The receiving side: `cfg` is known from the upgrade on. */
    function ReadSide(): Session
      reads this, receiver, receiver.utf8Validator, receiver.sinks, input
    {
      Session(receiver.View(input), if upgraded then Some(receiver.cfg) else None)
    }

    /** What `rxIsTerminating` will answer once the connection is upgraded. */
    function WillNotListen(): bool
      reads this
    {
      stopRequested || (upgraded && IsTerminating())
    }

    /** Octets up to and including the first empty line; 0 when there is none yet. */
    method FindHeaders() returns (headerBytes: nat)
      ensures headerBytes == HeaderBytes(input.data, 0) && (headerBytes > 0 ==> HeadersEnd(input.data, headerBytes))
    {
      HeaderBytesIff(input.data, HeaderBytes(input.data, 0));
      hide HeadersEnd;
      var len := |input.data|;
      if len < 4 { return 0; }
      var i := 0;
      while i + 3 < len
        invariant 0 <= i <= len
        invariant HeaderBytes(input.data, i) == HeaderBytes(input.data, 0)
      {
        if input.data[i] == 13 && input.data[i + 1] == 10 && input.data[i + 2] == 13 && input.data[i + 3] == 10 {
          return i + 4;
        }
        i := i + 1;
      }
      return 0;
    }

    /** The read callback. The receiving side is what the function of the whole stream says; the messages queued before
        the upgrade go out before any answer. */
    method HandleRead()
      requires Ready() && alive && (!upgraded ==> receiver.State().context == [])
      modifies this, output, receiver, receiver.utf8Validator, receiver.sinks, input
      ensures Ready() && pc == old(pc) && old(run) <= run && Forward(old(View()), View())
      ensures ReadSide() ==
        Handshake.HandleRead(negotiate, Session(old(receiver.View(input)).(done := old(WillNotListen())), old(ReadSide()).cfg))
      ensures receiver.sinks.terminating == WillNotListen()
      ensures wire == old(wire) + (if upgraded && !old(upgraded) then FramesOf(old(sendQueue)) else [])
                      + Answers(NewsSince(|old(receiver.sinks.log)|), !old(upgraded) || |old(sendQueue)| < MAX_QUEUE_SIZE)
    {
      hide Exec, Inv, Bound, Effect, Means, Enabled, Do, Forward, FlushQueue, WireOctets, AllSized, SmallQueue;
      hide R.Drain, Answers, FramesOf, HeaderBytes;
      receiver.sinks.terminating := WillNotListen();
      if upgraded {
        assert wire + [] == wire;
        Receive();
      } else {
        ReadHeaders();
      }
    }

    /** Reading the response of the server. */
    method ReadHeaders()
      requires Ready() && alive && !upgraded && receiver.State().context == []
      requires receiver.sinks.terminating == stopRequested
      modifies this, output, receiver, receiver.utf8Validator, receiver.sinks, input
      ensures Ready() && pc == old(pc) && old(run) <= run && Forward(old(View()), View())
      ensures ReadSide() == Handshake.HandleRead(negotiate, old(ReadSide()))
      ensures receiver.sinks.terminating == WillNotListen()
      ensures wire == old(wire) + (if upgraded then FramesOf(old(sendQueue)) else [])
                      + Answers(NewsSince(|old(receiver.sinks.log)|), true)
    {
      hide Exec, Inv, Bound, Effect, Means, Enabled, Do, Forward, FlushQueue, WireOctets, AllSized, SmallQueue;
      hide R.Drain, Answers, FramesOf, HeaderBytes, Handshake.HandleRead;
      ghost var c := View();
      ForwardRefl(c);
      Reached(run, Mach(c, Idle));
      BeforeUpgrade(c);
      ReadCases(negotiate, ReadSide());
      NoAnswers([], true);
      assert NewsSince(|receiver.sinks.log|) == [];
      var headerBytes := FindHeaders();
      if headerBytes == 0 { return; }
      TakeResponse(headerBytes);
    }

    /** Complete headers are accepted or refused. */
    method TakeResponse(headerBytes: nat)
      requires Ready() && alive && !upgraded && receiver.State().context == []
      requires receiver.sinks.terminating == stopRequested && headerBytes <= |input.data|
      modifies this, output, receiver, receiver.utf8Validator, receiver.sinks, input
      ensures Ready() && pc == old(pc) && old(run) <= run && Forward(old(View()), View())
      ensures ReadSide() == match negotiate(old(input.data)[..headerBytes])
        case None => Session(old(receiver.View(input)).(buf := [], done := true), None)
        case Some(cfg) =>
          Session(R.Drain(cfg, old(receiver.View(input)).(buf := old(input.data)[headerBytes..])), Some(cfg))
      ensures receiver.sinks.terminating == WillNotListen()
      ensures wire == (if upgraded then FramesOf(old(sendQueue)) else [])
                      + Answers(NewsSince(|old(receiver.sinks.log)|), true)
    {
      hide Exec, Inv, Bound, Effect, Means, Enabled, Do, Forward, FlushQueue, WireOctets, AllSized, SmallQueue;
      hide R.Drain, Answers, FramesOf;
      Reached(run, Mach(View(), Idle));
      BeforeUpgrade(View());
      NoAnswers([], true);
      var answer := negotiate(input.data[..headerBytes]);
      if answer.None? {
        DropConnection();
        assert NewsSince(|receiver.sinks.log|) == [];
        return;
      }
      AcceptResponse(answer.value, headerBytes);
    }

    static lemma ReadCases(negotiate: Negotiation, s: Session)
      requires s.cfg.None?
      ensures var h := HeaderBytes(s.rx.buf, 0); var t := Handshake.HandleRead(negotiate, s);
        if h == 0 then t == s
        else match negotiate(s.rx.buf[..h])
             case None => t == s.(rx := s.rx.(buf := [], done := true))
             case Some(cfg) => t == Session(R.Drain(cfg, s.rx.(buf := s.rx.buf[h..])), Some(cfg))
    {
      hide HeaderBytes, R.Drain;
    }

    /** A refused upgrade throws away everything that has arrived. */
    method DropConnection()
      requires Ready() && alive && !upgraded
      modifies this, output, receiver.sinks`terminating, input
      ensures Ready() && pc == old(pc) && old(run) <= run && Forward(old(View()), View())
      ensures !upgraded && wire == old(wire) && input.data == [] && receiver.sinks.terminating && stopRequested
    {
      hide Exec, Inv, Bound, Effect, Means, Enabled, Do, Forward, FlushQueue, WireOctets, AllSized, SmallQueue;
      ghost var c := View();
      Reached(run, Mach(c, Idle));
      BeforeUpgrade(c);
      UpgradeRefused();
      input.Drain(|input.data|);
      assert input.data == [];
      receiver.sinks.terminating := true;
    }

    /** The headers are drained, and nothing else. */
    method AcceptResponse(cfg: R.Config, headerBytes: nat)
      requires Ready() && alive && !upgraded && receiver.sinks.terminating == stopRequested
      requires receiver.State().context == [] && headerBytes <= |input.data|
      modifies this, output, receiver, receiver.utf8Validator, receiver.sinks, input
      ensures Ready() && pc == old(pc) && old(run) <= run && Forward(old(View()), View())
      ensures upgraded && receiver.cfg == cfg && receiver.sinks.terminating == IsTerminating()
      ensures receiver.View(input) == R.Drain(cfg, old(receiver.View(input)).(buf := old(input.data)[headerBytes..]))
      ensures wire == FramesOf(old(sendQueue)) + Answers(NewsSince(|old(receiver.sinks.log)|), true)
    {
      hide Exec, Inv, Bound, Effect, Means, Enabled, Do, Forward, FlushQueue, WireOctets, AllSized, SmallQueue;
      hide R.Drain, Answers, FramesOf;
      receiver.InitializeCompression(cfg);
      input.Drain(headerBytes);
      ReadRest();
    }

    /** The upgrade, and the octets that came with it. */
    method ReadRest()
      requires Ready() && alive && !upgraded && receiver.sinks.terminating == stopRequested
      modifies this, output, receiver, receiver.utf8Validator, receiver.sinks, input
      ensures Ready() && pc == old(pc) && old(run) <= run && Forward(old(View()), View())
      ensures upgraded && receiver.cfg == old(receiver.cfg) && receiver.sinks.terminating == IsTerminating()
      ensures receiver.View(input) == R.Drain(old(receiver.cfg), old(receiver.View(input)))
      ensures wire == FramesOf(old(sendQueue)) + Answers(NewsSince(|old(receiver.sinks.log)|), true)
    {
      hide Exec, Inv, Bound, Effect, Means, Enabled, Do, Forward, FlushQueue, WireOctets, AllSized, SmallQueue;
      hide R.Drain, Answers, FramesOf;
      ghost var c := View();
      UpgradeAccepted();
      Upgraded(c);
      NoAnswers(wire, true);
      assert NewsSince(|receiver.sinks.log|) == [];
      ghost var d := View();
      if |input.data| > 0 {
        Receive();
        ForwardTrans(c, d, View());
      } else {
        NothingToRead(receiver.cfg, receiver.View(input));
      }
    }

    static lemma BeforeUpgrade(c: Conn)
      requires Inv(Mach(c, Idle)) && !c.upgraded
      ensures c.wire == []
      ensures var d := Effect(c, RefuseUpgrade); d.wire == [] && !d.upgraded && d.stopRequested
    {
    }

    static lemma Upgraded(c: Conn)
      requires !c.upgraded
      ensures var d := Effect(c, AcceptUpgrade);
        && d.stopRequested == c.stopRequested
        && (Means(c, AcceptUpgrade, d) ==> d.state == CONNECTED && d.upgraded && d.sendQueue == [] && d.wire == FramesOf(c.sendQueue))
    {
      var u := Upgrade(c);
      KeepsState(u.(sendQueue := []), u.sendQueue, true);
      hide FlushBatch, FramesOf;
    }

    static lemma NothingToRead(cfg: R.Config, x: R.Rx)
      requires x.buf == []
      ensures R.Drain(cfg, x) == x
    {
    }

    /** One network read after the other: the cuts are invisible in what is reported and in the receiver, and unless the
        upgrade is refused in what is left unread. */
    method ReadAll(cuts: seq<seq<byte>>)
      requires Ready() && alive && (!upgraded ==> receiver.State().context == [])
      requires receiver.sinks.terminating == WillNotListen()
      requires Handshake.HandleRead(negotiate, ReadSide()) == ReadSide() && !Refused(negotiate, ReadSide())
      modifies this, output, receiver, receiver.utf8Validator, receiver.sinks, input
      ensures Ready() && pc == old(pc) && old(run) <= run && Forward(old(View()), View())
      ensures var whole := Arrive(old(ReadSide()), Flatten(cuts)); var z := Handshake.HandleRead(negotiate, whole);
        && ReadSide().rx.log == z.rx.log && ReadSide().rx.r == z.rx.r && ReadSide().rx.done == z.rx.done
        && (!Refused(negotiate, whole) ==> ReadSide() == z)
    {
      hide Exec, Inv, Bound, Effect, Means, Enabled, Do, Forward, FlushQueue, WireOctets, AllSized, SmallQueue;
      hide Handshake.HandleRead, Refused, Answers, FramesOf;
      ghost var c, s := View(), ReadSide();
      ForwardRefl(c);
      HandshakeChunking(negotiate, s, cuts);
      var i := 0;
      while i < |cuts|
        invariant 0 <= i <= |cuts|
        invariant Ready() && pc == old(pc) && old(run) <= run && Forward(c, View())
        invariant !upgraded ==> receiver.State().context == []
        invariant receiver.sinks.terminating == WillNotListen()
        invariant ReceiveReads(negotiate, ReadSide(), cuts[i..]) == ReceiveReads(negotiate, s, cuts)
      {
        ghost var d, t := View(), ReadSide();
        assert cuts[i..][0] == cuts[i] && cuts[i..][1..] == cuts[i + 1..];
        input.Add(cuts[i]);
        StaysFresh(negotiate, Arrive(t, cuts[i]));
        HandleRead();
        ForwardTrans(c, d, View());
        if d.upgraded { StaysUpgraded(d, View()); }
        assert t.rx.r.context == [] || d.upgraded;
        assert ReadSide().rx.r == receiver.State();
        i := i + 1;
      }
    }

    /** Before the upgrade nothing reaches the receiver. */
    static lemma StaysFresh(negotiate: Negotiation, s: Session)
      ensures var t := Handshake.HandleRead(negotiate, s); t.cfg.None? ==> t.rx.r == s.rx.r
    {
      hide R.Drain, HeaderBytes;
    }
  }

  // ---------------------------------------------------------------------------
  // What holds of the object, whatever has been done with it
  // ---------------------------------------------------------------------------

  /** The peer reads from the octets of the output exactly the frames sent, masked and final, each carrying its message;
      at most one is a CLOSE, with a legal code and reason, and then it is the last; `closeSent` says whether it is there. */
  lemma PeerReadsOutput(ctx: WebSocketContext, inflate: (nat, seq<byte>) -> seq<byte>)
    requires ctx.Ready() && Undoes(inflate, ctx.encoding)
    ensures var fs := ReadFrames(ctx.output.data);
      && fs.Some? && |fs.value| == |ctx.wire|
      && (forall i | 0 <= i < |ctx.wire| :: Carries(fs.value[i], i, ctx.wire[i], ctx.encoding, inflate))
      && (forall i | 0 <= i < |ctx.wire| - 1 :: fs.value[i].opcode != 8)
      && (forall i | 0 <= i < |ctx.wire| && ctx.wire[i].kind == CLOSE :: LegalClose(ctx.wire[i].payload))
      && (ctx.closeSent <==> ctx.wire != [] && ctx.wire[|ctx.wire| - 1].kind == CLOSE)
  {
    hide Exec, WireOctets, Carries, ReadFrames, Undoes, Flags, ClosesPending, Tickets, Faithful, Opening, Bound;
    PeerReadsWire(ctx.run, ctx.encoding, inflate);
    Reached(ctx.run, Mach(ctx.View(), ctx.pc));
  }

  /** The queue is bounded and holds at most one CLOSE, which is on its way while the connection is closing unless the
      loop is exiting. As many accepted messages are missing as the steps of the object's history lost; so all are on the
      wire or in the queue, once and in order, if and only if none lost any. */
  lemma QueueOfObject(ctx: WebSocketContext)
    requires ctx.Ready()
    ensures |ctx.sendQueue| <= MAX_QUEUE_SIZE
    ensures forall i, j | 0 <= i < j < |ctx.sendQueue| :: !(ctx.sendQueue[i].CloseFrame? && ctx.sendQueue[j].CloseFrame?)
    ensures ctx.upgraded && Closing(ctx.state) ==> CloseUnderWay(ctx.View())
    ensures var accounted := WrittenTickets(ctx.wire) + WaitingTickets(ctx.sendQueue);
      && |accounted| + Lost(LAUNCH, ctx.run) == |ctx.accepted|
      && (accounted == AllTickets(|ctx.accepted|) <==> Lost(LAUNCH, ctx.run) == 0)
  {
    hide Exec, WireOctets, WireEndsWithClose, Tickets, Faithful, Opening, HasClose, Lost, WrittenTickets, WaitingTickets;
    var m := Mach(ctx.View(), ctx.pc);
    Reached(ctx.run, m);
    assert Pipeline(m) == ctx.sendQueue;
    DeliveredIff(ctx.run);
  }
}
