/** Which accepted messages are lost: exactly those a flush comes to while the connection is not up, and those a failing
    transport finds in the queue before the upgrade (`sendData`, `flushSendQueue`, `handleEvent`). */
module Delivery {
  import opened Bytes
  import opened Arithmetic
  import opened Sender
  import opened Connection
  import opened Protocol
  import opened Answer

  /** All ticket numbers handed out so far, in order. */
  function AllTickets(n: nat): (s: seq<nat>)
    ensures |s| == n
  {
    seq(n, i requires 0 <= i => i)
  }

  /** The tickets on the wire followed by those still waiting. */
  function Accounted(m: Mach): seq<nat> {
    WrittenTickets(m.c.wire) + WaitingTickets(Pipeline(m))
  }

  /** Accepted messages that are neither on the wire nor waiting. */
  function Missing(m: Mach): int {
    |m.c.accepted| - |Accounted(m)|
  }

  /** The transport events that give up what was queued before the upgrade. */
  predicate ClearsQueue(c: Conn, t: Transport) {
    && !c.upgraded
    && (if t.error || t.timeout then !c.stopRequested && !Closing(c.state) && !(t.error && t.tlsError) else t.eof)
  }

  /** The messages a step loses: the one a flush comes to while the connection is not up, and a queue given up. */
  function LostBy(m: Mach, a: Action): nat
    requires Enabled(m, a)
  {
    match a
    case WriteEntry => if m.pc.rest[0].App? && m.c.state != CONNECTED then 1 else 0
    case TransportEvent(t) => if ClearsQueue(m.c, t) then |m.c.sendQueue| else 0
    case _ => 0
  }

  /** The messages a run loses. */
  function Lost(m: Mach, run: seq<Action>): nat
    decreases |run|
  {
    if run == [] || !Enabled(m, run[0]) then 0 else LostBy(m, run[0]) + Lost(Do(m, run[0]), run[1..])
  }

  // ---------------------------------------------------------------------------
  // What each step does to the count
  // ---------------------------------------------------------------------------

  lemma Entered(rest: seq<Pending>, q: seq<Pending>, p: Pending)
    ensures |WaitingTickets(rest + (q + [p]))| == |WaitingTickets(rest + q)| + (if p.App? then 1 else 0)
  {
    ConcatAssoc(rest, q, [p]);
    WaitingSnoc(rest + q, p);
    hide WaitingTickets;
  }

  lemma EnqueueCounts(c: Conn, rest: seq<Pending>, text: bool, data: seq<byte>)
    ensures var d := Enqueue(c, text, data).0;
      && |d.accepted| - |WaitingTickets(rest + d.sendQueue)| == |c.accepted| - |WaitingTickets(rest + c.sendQueue)|
      && d.wire == c.wire && d.upgraded == c.upgraded
  {
    hide WaitingTickets;
    if |c.sendQueue| < MAX_QUEUE_SIZE {
      Entered(rest, c.sendQueue, App(text, data, |c.accepted|));
    }
  }

  lemma FrameCounts(c: Conn, kind: MessageType, payload: seq<byte>)
    ensures var d := SendFrame(c, kind, payload, None);
      && |WrittenTickets(d.wire)| == |WrittenTickets(c.wire)|
      && d.accepted == c.accepted && d.sendQueue == c.sendQueue && d.upgraded == c.upgraded
  {
    WrittenSnoc(c.wire, OutFrame(kind, payload, None));
    assert c.wire + [] == c.wire;
    hide WrittenTickets;
  }

  lemma SendsCount(m: Mach, a: Action)
    requires Enabled(m, a) && (a.Push? || a.AppSend? || a.PingTick? || a.RxPing?)
    ensures Missing(Do(m, a)) == Missing(m)
  {
    hide Do, Enabled;
    SendingStep(m, a);
    var c, rest := m.c, Rest(m.pc);
    hide WrittenTickets, WaitingTickets, SendFrame, Enqueue;
    match a {
      case Push(text, data) => EnqueueCounts(c, rest, text, data);
      case AppSend(kind, data) =>
        EnqueueCounts(c, rest, kind == TEXT, data);
        FrameCounts(c, kind, data);
      case PingTick => FrameCounts(c, PING, PING_PAYLOAD);
      case RxPing(payload) => FrameCounts(c, PONG, payload);
    }
  }

  /** An entry taken off the batch: a message is written while connected and lost otherwise. */
  lemma WriteCounts(m: Mach)
    requires Inv(m) && Enabled(m, WriteEntry)
    ensures Missing(Do(m, WriteEntry)) == Missing(m) + LostBy(m, WriteEntry)
  {
    WriteEffect(m);
    var p, ps := m.pc.rest[0], Pipeline(m);
    var f := if p.App? then OutFrame(if p.text then TEXT else BINARY, p.data, Some(p.ticket))
             else OutFrame(CLOSE, p.payload, None);
    WrittenSnoc(m.c.wire, f);
    assert ps[0] == p;
    hide Do, Enabled, Inv, WrittenTickets, Pipeline;
  }

  lemma {:induction false} AppsWait(ps: seq<Pending>)
    requires OnlyApps(ps)
    ensures |WaitingTickets(ps)| == |ps|
  {
    if ps != [] { AppsWait(ps[1..]); }
  }

  lemma EarlyQueue(m: Mach)
    requires Inv(m) && m.pc == Idle && !m.c.upgraded
    ensures Pipeline(m) == m.c.sendQueue && OnlyApps(m.c.sendQueue)
  {
    hide Flags, WireEndsWithClose, Tickets, Faithful, Opening;
    assert Pipeline(m) == m.c.sendQueue;
  }

  lemma BatchCounts(m: Mach)
    requires Enabled(m, TakeBatch)
    ensures Missing(Do(m, TakeBatch)) == Missing(m)
  {
    var m' := Do(m, TakeBatch);
    assert m'.c == m.c.(sendQueue := []) && m'.pc == Flushing(m.c.sendQueue, m.c.state == CONNECTED, m.pc.then_);
    hide Do, Enabled;
    assert Pipeline(m') == Pipeline(m);
    hide Pipeline;
  }

  /** Nothing is written or accepted; the queue stays, or it is cleared. */
  predicate Quiet(c: Conn, d: Conn, cleared: bool) {
    d.wire == c.wire && d.accepted == c.accepted && d.sendQueue == if cleared then [] else c.sendQueue
  }

  lemma LostQuiet(c: Conn, keepQueue: bool)
    ensures Quiet(c, TransportLost(c, keepQueue), !c.upgraded && !keepQueue)
  {
  }

  lemma EndedQuiet(c: Conn)
    ensures Quiet(c, TransportEnded(c), !c.upgraded)
  {
    assert Quiet(c, CloseCallback(c), false);
    hide CloseCallback;
  }

  lemma TransportQueue(c: Conn, t: Transport)
    ensures Quiet(c, OnTransport(c, t), ClearsQueue(c, t))
  {
    var exit := RequestLoopExit(c);
    LostQuiet(exit, t.error && t.tlsError);
    EndedQuiet(exit);
    hide TransportLost, TransportEnded;
  }

  lemma TransportCounts(m: Mach, t: Transport)
    requires Inv(m) && Enabled(m, TransportEvent(t))
    ensures Missing(Do(m, TransportEvent(t))) == Missing(m) + LostBy(m, TransportEvent(t))
  {
    hide Do, Enabled, Inv, OnTransport, WrittenTickets, OnlyApps;
    TransportStep(m, t);
    TransportQueue(m.c, t);
    if ClearsQueue(m.c, t) {
      EarlyQueue(m);
      AppsWait(m.c.sendQueue);
      assert Pipeline(m.(c := OnTransport(m.c, t))) == [];
    } else {
      assert Pipeline(m.(c := OnTransport(m.c, t))) == Pipeline(m);
    }
  }

  /** The queue, the batch and the wire stay as they are. */
  lemma QuietCounts(m: Mach, a: Action)
    requires Enabled(m, a)
    requires a.StartConnecting? || a.StartLoop? || a.Cleanup? || a.ConnectTimeout? || a.CloseTimer? || a.RefuseUpgrade?
             || a.SendEvent? || a.AcceptUpgrade? || a.RequestFlush? || a.RequestStop?
    ensures Missing(Do(m, a)) == Missing(m)
  {
    hide WrittenTickets, WaitingTickets;
    hide FlushOne, OnTransport, CloseConn, StopNow, BeginRxClose, OnRxProtocolError, SendNow, SendData, Enqueue;
    var m' := Do(m, a);
    assert m'.c.sendQueue == m.c.sendQueue && m'.c.wire == m.c.wire && m'.c.accepted == m.c.accepted;
    assert Rest(m'.pc) == Rest(m.pc);
    hide Do, Enabled;
  }

  lemma EndCounts(m: Mach)
    requires Enabled(m, EndFlush)
    ensures Missing(Do(m, EndFlush)) == Missing(m)
  {
    hide Do, Enabled, WrittenTickets, WaitingTickets;
    EndFlushStep(m);
    SameFields(m.c, m.pc.then_);
    hide Finish;
  }

  lemma SameFields(c: Conn, a: After)
    ensures var d := Finish(c, a);
      d.sendQueue == c.sendQueue && d.wire == c.wire && d.accepted == c.accepted
  {
    match a { case Nothing => case ClearPending => case FireClose => case Opened(_) => }
  }

  lemma ClosingCounts(m: Mach, a: Action)
    requires Inv(m) && Enabled(m, a) && (a.Wakeup? || a.RxClose? || a.RxError?)
    ensures Missing(Do(m, a)) == Missing(m)
  {
    FlagsHold(m);
    hide Inv, Do, Enabled, WrittenTickets, WaitingTickets;
    if !a.Wakeup? || (m.c.stopRequested && m.c.state == CONNECTED) {
      var code, reason := ClosingStep(m, a);
      CloseEffect(m.c, code, reason);
      hide Flags, CloseConn;
      Entered(Rest(m.pc), m.c.sendQueue, CloseFrame(ClosePayload(code, reason)));
    } else {
      WakeupStep(m);
      hide Flags, CloseConn;
    }
  }

  lemma StepCounts(m: Mach, a: Action)
    requires Inv(m) && Enabled(m, a)
    ensures Missing(Do(m, a)) == Missing(m) + LostBy(m, a)
  {
    hide Inv, Do, Enabled, Missing;
    match a {
      case Push(_, _) => SendsCount(m, a);
      case AppSend(_, _) => SendsCount(m, a);
      case PingTick => SendsCount(m, a);
      case RxPing(_) => SendsCount(m, a);
      case WriteEntry => WriteCounts(m);
      case TakeBatch => BatchCounts(m);
      case EndFlush => EndCounts(m);
      case Wakeup => ClosingCounts(m, a);
      case RxClose(_, _) => ClosingCounts(m, a);
      case RxError(_, _) => ClosingCounts(m, a);
      case TransportEvent(t) => TransportCounts(m, t);
      case _ => QuietCounts(m, a);
    }
  }

  // ---------------------------------------------------------------------------
  // Whole runs
  // ---------------------------------------------------------------------------

  lemma {:induction false} RunCounts(m: Mach, run: seq<Action>)
    requires Inv(m) && Exec(m, run).Some?
    ensures Missing(Exec(m, run).value) == Missing(m) + Lost(m, run)
    decreases |run|
  {
    hide Inv, Do, Enabled, Missing, LostBy;
    if run != [] {
      StepKeepsInv(m, run[0]);
      StepCounts(m, run[0]);
      RunCounts(Do(m, run[0]), run[1..]);
    }
  }

  /** Distinct numbers below their own count are all of them. */
  lemma {:induction false} NoneLeftOut(s: seq<nat>, n: nat)
    requires Ascending(s, 0, n) && |s| == n
    ensures s == AllTickets(n)
    decreases n
  {
    if n > 0 {
      var front := s[..n - 1];
      Squeezed(s, n);
      assert Ascending(front, 0, n - 1);
      NoneLeftOut(front, n - 1);
      assert s == front + [n - 1];
    }
  }

  lemma Squeezed(s: seq<nat>, n: nat)
    requires Ascending(s, 0, n) && |s| == n > 0
    ensures s[n - 1] == n - 1
    ensures forall i | 0 <= i < n - 1 :: s[i] < n - 1
  {
    AtLeastPlace(s, n, n - 1);
  }

  lemma {:induction false} AtLeastPlace(s: seq<nat>, n: nat, i: nat)
    requires Ascending(s, 0, n) && i < |s|
    ensures s[i] >= i
  {
    if i > 0 { AtLeastPlace(s, n, i - 1); }
  }

  /** After every run, as many accepted messages are missing as its steps lost. So all of them are on the wire or
      waiting, exactly once and in the order of acceptance, if and only if no flush came to a message while the
      connection was not up and no failing transport gave up a queue with messages in it. */
  lemma DeliveredIff(run: seq<Action>)
    requires Exec(LAUNCH, run).Some?
    ensures var m := Exec(LAUNCH, run).value;
      && |Accounted(m)| + Lost(LAUNCH, run) == |m.c.accepted|
      && (Accounted(m) == AllTickets(|m.c.accepted|) <==> Lost(LAUNCH, run) == 0)
  {
    StartInv();
    assert Missing(LAUNCH) == 0;
    RunKeepsInv(LAUNCH, run);
    RunCounts(LAUNCH, run);
    hide Exec, Flags, WireEndsWithClose, ClosesPending, Faithful, Opening;
    if Lost(LAUNCH, run) == 0 {
      NoneLeftOut(Accounted(Exec(LAUNCH, run).value), |Exec(LAUNCH, run).value.c.accepted|);
    }
  }

  /** A flush before the upgrade writes nothing and empties the queue. */
  lemma EarlyFlushDrops(m: Mach)
    requires Inv(m) && m.pc == Idle && !m.c.upgraded
    ensures FlushQueue(m.c) == m.c.(sendQueue := [])
  {
    EarlyQueue(m);
    FlagsHold(m);
    hide Inv;
    FlushNothing(m.c.(sendQueue := []), m.c.sendQueue);
  }

  /** Such a flush can happen: a producer queues a message before the connection starts and asks for the flush
      only when the event loop is up. The message was accepted, and is gone when the connection is open. */
  lemma AcceptedAndLost(text: bool, data: seq<byte>) returns (run: seq<Action>)
    ensures Exec(LAUNCH, run).Some?
    ensures var m := Exec(LAUNCH, run).value;
      m.c.state == CONNECTED && m.c.accepted == [(text, data)] && m.c.wire == [] && Pipeline(m) == []
  {
    var p := App(text, data, 0);
    var c1 := INITIAL.(sendQueue := [p], accepted := [(text, data)]);
    var c2 := c1.(state := CONNECTING);
    var c3 := c2.(alive := true);
    var c4 := c3.(sendFlushPending := true);
    var c5 := c4.(sendQueue := []);
    var c6 := c5.(sendFlushPending := false);
    run := [Push(text, data), StartConnecting, StartLoop, RequestFlush, SendEvent, TakeBatch, WriteEntry, EndFlush,
            AcceptUpgrade];
    QueuedTooEarly(text, data, run);
    FlushedTooEarly(c4, p, run[4..]);
    var m := Mach(Upgrade(c6), ToFlush(Opened([])));
    assert run[4..][5..] == [] by { hide *; }
    assert Exec(m, []) == Some(m) by { hide Do, Enabled; }
  }

  lemma QueuedTooEarly(text: bool, data: seq<byte>, run: seq<Action>)
    requires |run| >= 4 && run[..4] == [Push(text, data), StartConnecting, StartLoop, RequestFlush]
    ensures var c := INITIAL.(state := CONNECTING, alive := true, sendFlushPending := true,
                              sendQueue := [App(text, data, 0)], accepted := [(text, data)]);
      Exec(LAUNCH, run) == Exec(Mach(c, Idle), run[4..])
  {
    hide Exec;
    var c1 := INITIAL.(sendQueue := [App(text, data, 0)], accepted := [(text, data)]);
    var c2 := c1.(state := CONNECTING);
    var c3 := c2.(alive := true);
    assert forall i | 0 <= i < 4 :: run[i] == run[..4][i];
    OneStep(LAUNCH, Push(text, data), Mach(c1, NotStarted), run);
    OneStep(Mach(c1, NotStarted), StartConnecting, Mach(c2, Starting), run[1..]);
    OneStep(Mach(c2, Starting), StartLoop, Mach(c3, Idle), run[2..]);
    OneStep(Mach(c3, Idle), RequestFlush, Mach(c3.(sendFlushPending := true), Idle), run[3..]);
  }

  /** A batch of one message, taken while the connection is not up, is dropped. */
  lemma BatchDropped(c: Conn, p: Pending, then_: After)
    requires p.App?
    ensures var m := Mach(c, Flushing([p], false, then_));
      Enabled(m, WriteEntry) && Do(m, WriteEntry) == Mach(c, Flushing([], false, then_))
  {
    assert [p][1..] == [];
    hide SendNow;
  }

  lemma BatchTaken(c: Conn)
    requires c.state == CONNECTING
    ensures Enabled(Mach(c, Idle), SendEvent) && Do(Mach(c, Idle), SendEvent) == Mach(c, ToFlush(ClearPending))
    ensures var m := Mach(c, ToFlush(ClearPending));
      Enabled(m, TakeBatch) && Do(m, TakeBatch) == Mach(c.(sendQueue := []), Flushing(c.sendQueue, false, ClearPending))
  {
  }

  lemma BatchDone(d: Conn)
    requires !d.upgraded
    ensures var m, e := Mach(d, Flushing([], false, ClearPending)), d.(sendFlushPending := false);
      && Enabled(m, EndFlush) && Do(m, EndFlush) == Mach(e, Idle)
      && Enabled(Mach(e, Idle), AcceptUpgrade)
      && Do(Mach(e, Idle), AcceptUpgrade) == Mach(Upgrade(e), ToFlush(Opened(e.sendQueue)))
  {
    hide Upgrade, FlushOne, OnTransport, CloseConn, StopNow, BeginRxClose, OnRxProtocolError, SendData;
  }

  lemma FlushedTooEarly(c: Conn, p: Pending, run: seq<Action>)
    requires c.state == CONNECTING && c.alive && !c.upgraded && c.sendQueue == [p] && p.App?
    requires |run| >= 5 && run[..5] == [SendEvent, TakeBatch, WriteEntry, EndFlush, AcceptUpgrade]
    ensures Exec(Mach(c, Idle), run) ==
            Exec(Mach(Upgrade(c.(sendQueue := [], sendFlushPending := false)), ToFlush(Opened([]))), run[5..])
  {
    hide Exec;
    var d := c.(sendQueue := []);
    var e := d.(sendFlushPending := false);
    var m0, m1 := Mach(c, Idle), Mach(c, ToFlush(ClearPending));
    var m2, m3 := Mach(d, Flushing([p], false, ClearPending)), Mach(d, Flushing([], false, ClearPending));
    var m4, m5 := Mach(e, Idle), Mach(Upgrade(e), ToFlush(Opened([])));
    hide Enabled, Do;
    BatchTaken(c);
    BatchDropped(d, p, ClearPending);
    BatchDone(d);
    assert forall i | 0 <= i < 5 :: run[i] == run[..5][i];
    OneStep(m0, SendEvent, m1, run);
    OneStep(m1, TakeBatch, m2, run[1..]);
    OneStep(m2, WriteEntry, m3, run[2..]);
    OneStep(m3, EndFlush, m4, run[3..]);
    OneStep(m4, AcceptUpgrade, m5, run[4..]);
  }

  /** The other way to lose a message, on a connection that was up: the peer closes before the flush comes to it. */
  lemma AcceptedAndDropped(text: bool, data: seq<byte>) returns (run: seq<Action>)
    ensures Exec(LAUNCH, run).Some?
    ensures var m := Exec(LAUNCH, run).value;
      m.c.upgraded && m.c.accepted == [(text, data)] && m.c.wire == [] && Accounted(m) == [] && Lost(LAUNCH, run) == 1
  {
    var opening, m0 := Opens();
    var c := m0.c;
    var c1 := c.(sendQueue := [App(text, data, 0)], accepted := [(text, data)]);
    var c2 := BeginRxClose(c1, 1000, []);
    var close := c2.sendQueue[1];
    var late := [Push(text, data), RxClose(1000, []), TakeBatch, WriteEntry];
    DropSteps(c, text, data);
    hide Do, Enabled;
    var m3 := Mach(c2.(sendQueue := []), Flushing(c2.sendQueue, false, FireClose));
    var m4 := Mach(c2.(sendQueue := []), Flushing([close], false, FireClose));
    OneStep(m0, Push(text, data), Mach(c1, Idle), late);
    OneStep(Mach(c1, Idle), RxClose(1000, []), Mach(c2, ToFlush(FireClose)), late[1..]);
    OneStep(Mach(c2, ToFlush(FireClose)), TakeBatch, m3, late[2..]);
    OneStep(m3, WriteEntry, m4, late[3..]);
    assert Exec(m4, late[4..]) == Some(m4);
    run := opening + late;
    ExecConcat(LAUNCH, opening, late);
    assert Pipeline(m4) == [close] && [close][1..] == [];
    assert WaitingTickets([close]) == [];
    assert m4.c.wire == [] && WrittenTickets([]) == [];
    DeliveredIff(run);
  }

  lemma DropSteps(c: Conn, text: bool, data: seq<byte>)
    requires c == Upgrade(INITIAL.(alive := true))
    ensures var c1 := c.(sendQueue := [App(text, data, 0)], accepted := [(text, data)]);
      var c2 := BeginRxClose(c1, 1000, []);
      && Enabled(Mach(c, Idle), Push(text, data)) && Do(Mach(c, Idle), Push(text, data)) == Mach(c1, Idle)
      && Enabled(Mach(c1, Idle), RxClose(1000, [])) && Do(Mach(c1, Idle), RxClose(1000, [])) == Mach(c2, ToFlush(FireClose))
      && |c2.sendQueue| == 2 && c2.sendQueue[1].CloseFrame? && c2.wire == [] && c2.accepted == c1.accepted && c2.upgraded
      && var m2, m3 := Mach(c2, ToFlush(FireClose)), Mach(c2.(sendQueue := []), Flushing(c2.sendQueue, false, FireClose));
      && Enabled(m2, TakeBatch) && Do(m2, TakeBatch) == m3
      && Enabled(m3, WriteEntry) && Do(m3, WriteEntry) == m3.(pc := Flushing([c2.sendQueue[1]], false, FireClose))
  {
    var c1 := c.(sendQueue := [App(text, data, 0)], accepted := [(text, data)]);
    var c2 := BeginRxClose(c1, 1000, []);
    hide ClosePayload;
    assert c2.sendQueue[1..] == [c2.sendQueue[1]];
  }
}
