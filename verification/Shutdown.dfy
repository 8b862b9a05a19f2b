/** A close that has begun is never forgotten: its frame is on the wire, or on its way there, or the event loop
    has been told to exit. */
module Shutdown {
  import opened Bytes
  import opened Connection
  import opened Protocol

  predicate HasClose(ps: seq<Pending>) {
    exists i :: 0 <= i < |ps| && ps[i].CloseFrame?
  }

  predicate Bound(m: Mach) {
    var c := m.c;
    // the handshake that has begun is carried through
    && (c.upgraded && Closing(c.state) ==> c.closeSent || c.loopExit || HasClose(Pipeline(m)))
    // a queued CLOSE has a flush coming
    && (HasClose(c.sendQueue) ==> c.sendFlushPending || m.pc.ToFlush?)
    // only the event thread queues a CLOSE, and not in the middle of a flush
    && (m.pc.Flushing? ==> !HasClose(c.sendQueue))
    // every CLOSE starts the timer that bounds the wait for the peer's
    && (c.closeSent ==> c.timerArmed)
    // the timer ends the connection for the application and for the loop
    && (c.upgraded && c.state == DISCONNECTED ==> c.loopExit && c.closeCallbacks == 1)
  }

  lemma CloseBehind(ps: seq<Pending>, p: Pending)
    ensures HasClose(ps + [p]) <==> HasClose(ps) || p.CloseFrame?
  {
    var all := ps + [p];
    if HasClose(ps) {
      var i :| 0 <= i < |ps| && ps[i].CloseFrame?;
      assert all[i].CloseFrame?;
    }
    if p.CloseFrame? {
      assert all[|ps|].CloseFrame?;
    }
  }

  lemma CloseInPipeline(m: Mach)
    ensures HasClose(m.c.sendQueue) ==> HasClose(Pipeline(m))
    ensures Rest(m.pc) == [] ==> Pipeline(m) == m.c.sendQueue
  {
    if HasClose(m.c.sendQueue) {
      var i :| 0 <= i < |m.c.sendQueue| && m.c.sendQueue[i].CloseFrame?;
      assert Pipeline(m)[|Rest(m.pc)| + i].CloseFrame?;
    }
  }

  lemma ThreadsBound(m: Mach, a: Action)
    requires Inv(m) && Enabled(m, a) && Bound(m) && (a.Push? || a.AppSend? || a.PingTick? || a.RxPing?)
    ensures Bound(Do(m, a))
  {
    hide Do, Enabled, Inv;
    SendingStep(m, a);
    FlagsHold(m);
    hide HasClose, SentBy;
    assert (m.c.closeSent ==> Closing(m.c.state)) && (a.RxPing? ==> !m.c.closeSent);
    hide Flags;
    var m' := m.(c := SentBy(m.c, a));
    SentBySends(m.c, a);
    if m'.c.sendQueue != m.c.sendQueue {
      var p := m'.c.sendQueue[|m.c.sendQueue|];
      assert m'.c.sendQueue == m.c.sendQueue + [p];
      CloseBehind(m.c.sendQueue, p);
      CloseBehind(Pipeline(m), p);
      ConcatAssoc(Rest(m.pc), m.c.sendQueue, [p]);
    }
  }

  lemma RequestsBound(m: Mach, a: Action)
    requires Inv(m) && Enabled(m, a) && Bound(m) && (a.RequestFlush? || a.RequestStop?)
    ensures Bound(Do(m, a))
  {
    assert Do(m, a) == m.(c := if a.RequestStop? then m.c.(stopRequested := true) else RequestSendFlush(m.c));
    hide Do, Enabled, HasClose, Inv;
  }

  /** Closing a live connection leaves the CLOSE in the queue with a flush requested, or exits the loop. */
  lemma BeginsBound(m: Mach, m': Mach, code: nat, reason: seq<byte>)
    requires Inv(m) && Bound(m) && StartsClosing(m, m', code, reason)
    ensures Bound(m')
  {
    CloseEffect(m.c, code, reason);
    var p := CloseFrame(ClosePayload(code, reason));
    CloseBehind(m.c.sendQueue, p);
    CloseInPipeline(m');
    hide HasClose, ClosePayload, CloseConn, WireEndsWithClose, ClosesPending, Tickets, Faithful, Opening;
  }

  lemma ClosingBound(m: Mach, a: Action)
    requires Inv(m) && Enabled(m, a) && Bound(m) && (a.Wakeup? || a.RxClose? || a.RxError?)
    ensures Bound(Do(m, a))
  {
    if !a.Wakeup? || (m.c.stopRequested && m.c.state == CONNECTED) {
      var code, reason := ClosingStep(m, a);
      hide Do, Enabled, Inv, Bound, StartsClosing;
      BeginsBound(m, Do(m, a), code, reason);
    } else {
      IdleWakeupBound(m);
      hide Do, Enabled, Inv, Bound;
    }
  }

  lemma IdleWakeupBound(m: Mach)
    requires Inv(m) && Enabled(m, Wakeup) && Bound(m) && !(m.c.stopRequested && m.c.state == CONNECTED)
    ensures Bound(Do(m, Wakeup))
  {
    FlagsHold(m);
    hide Do, Enabled, Inv, HasClose, CloseConn, NORMAL_CLOSURE;
    WakeupStep(m);
    CloseInPipeline(m);
    CloseInPipeline(Do(m, Wakeup));
  }

  lemma BatchBound(m: Mach)
    requires Inv(m) && Enabled(m, TakeBatch) && Bound(m)
    ensures Bound(Do(m, TakeBatch))
  {
    var m' := Do(m, TakeBatch);
    assert m'.c == m.c.(sendQueue := []) && m'.pc == Flushing(m.c.sendQueue, m.c.state == CONNECTED, m.pc.then_);
    hide Do, Enabled, Inv;
    assert Pipeline(m') == Pipeline(m);
  }

  lemma FlushEndBound(m: Mach)
    requires Inv(m) && Enabled(m, EndFlush) && Bound(m)
    ensures Bound(Do(m, EndFlush))
  {
    hide Do, Enabled, Inv, HasClose;
    EndFlushStep(m);
    FlagsHold(m);
    CloseInPipeline(m);
    CloseInPipeline(Do(m, EndFlush));
  }

  /** The queue and the batch stay as they are, and so does everything about the close. */
  predicate SameClose(m: Mach, m': Mach) {
    && m'.c.sendQueue == m.c.sendQueue && Rest(m'.pc) == Rest(m.pc) && m'.c.sendFlushPending == m.c.sendFlushPending
    && m'.c.upgraded == m.c.upgraded && m'.c.closeSent == m.c.closeSent && m'.c.timerArmed == m.c.timerArmed
    && (m.c.loopExit ==> m'.c.loopExit)
    && (m.pc.ToFlush? <==> m'.pc.ToFlush?) && (m'.pc.Flushing? ==> m.pc.Flushing?)
  }

  lemma SameCloseBound(m: Mach, m': Mach)
    requires Inv(m) && Bound(m) && SameClose(m, m')
    requires m'.c.upgraded ==>
      || (m'.c.state == m.c.state && m'.c.closeCallbacks == m.c.closeCallbacks)
      || (m.c.closeSent && m'.c.loopExit && m'.c.closeCallbacks == 1)
    ensures Bound(m')
  {
    assert Pipeline(m') == Pipeline(m);
    hide HasClose, WireEndsWithClose, ClosesPending, Tickets, Faithful, Opening, Pipeline;
  }

  lemma LoopBound(m: Mach, a: Action)
    requires Inv(m) && Enabled(m, a) && Bound(m)
    requires a.StartConnecting? || a.StartLoop? || a.Cleanup? || a.ConnectTimeout? || a.CloseTimer? || a.RefuseUpgrade?
    ensures Bound(Do(m, a))
  {
    hide Bound, WireEndsWithClose, ClosesPending, Tickets, Faithful, Opening;
    hide FlushOne, OnTransport, CloseConn, StopNow, BeginRxClose, OnRxProtocolError, SendNow, SendData, Enqueue;
    SameCloseBound(m, Do(m, a));
  }

  /** A flush is about to start. */
  lemma ToFlushBound(m: Mach, a: Action)
    requires Inv(m) && Enabled(m, a) && Bound(m) && (a.SendEvent? || a.AcceptUpgrade?)
    ensures Bound(Do(m, a))
  {
    var m' := Do(m, a);
    assert m.pc == Idle && m'.pc.ToFlush? && m'.c == if a.SendEvent? then m.c else Upgrade(m.c);
    hide Do, Enabled, Inv, HasClose;
  }

  /** What a failing transport leaves of the close: an upgraded connection keeps its queue, and only the timer
      leads to DISCONNECTED. */
  predicate Torn(c: Conn, d: Conn) {
    && (d.sendQueue == c.sendQueue || (!c.upgraded && d.sendQueue == []))
    && d.upgraded == c.upgraded && d.closeSent == c.closeSent && d.timerArmed == c.timerArmed
    && d.sendFlushPending == c.sendFlushPending
    && (c.loopExit ==> d.loopExit)
    && (d.state == c.state || (d.state == DISCONNECTING && d.loopExit && !(c.upgraded && c.state == DISCONNECTED)))
    && (c.closeCallbacks <= 1 ==> c.closeCallbacks <= d.closeCallbacks <= 1)
  }

  lemma ExitTorn(c: Conn)
    ensures Torn(c, RequestLoopExit(c))
  {
  }

  lemma LostTorn(c: Conn, keepQueue: bool)
    requires c.loopExit && !(c.upgraded && c.state == DISCONNECTED)
    ensures Torn(c, TransportLost(c, keepQueue))
  {
  }

  lemma CallbackTorn(c: Conn)
    ensures Torn(c, CloseCallback(c))
  {
  }

  lemma EndedTorn(c: Conn)
    requires c.loopExit && (c.upgraded && c.state == DISCONNECTED ==> c.closeSent)
    ensures Torn(c, TransportEnded(c))
  {
    CallbackTorn(c);
    hide CloseCallback;
  }

  lemma TransportTorn(c: Conn, t: Transport)
    requires c.upgraded && c.state == DISCONNECTED ==> c.closeSent
    ensures Torn(c, OnTransport(c, t))
  {
    hide TransportLost, TransportEnded, CloseCallback;
    var exit := RequestLoopExit(c);
    ExitTorn(c);
    EndedTorn(exit);
    if !(c.upgraded && c.state == DISCONNECTED) {
      LostTorn(exit, t.error && t.tlsError);
    }
  }

  lemma TransportBound(m: Mach, t: Transport)
    requires Inv(m) && Enabled(m, TransportEvent(t)) && Bound(m)
    ensures Bound(Do(m, TransportEvent(t)))
  {
    hide Do, Enabled;
    TransportStep(m, t);
    var m' := m.(c := OnTransport(m.c, t));
    TransportTorn(m.c, t);
    hide OnTransport, HasClose, WireEndsWithClose, ClosesPending, Tickets, Faithful, Opening;
    if m'.c.sendQueue == [] {
      assert !HasClose([]) by { NoCloseInEmpty(); }
    }
  }

  lemma NoCloseInEmpty()
    ensures !HasClose([])
  {
  }

  /** The flush that reaches the CLOSE puts it on the wire. */
  lemma WriteBound(m: Mach)
    requires Inv(m) && Enabled(m, WriteEntry) && Bound(m)
    ensures Bound(Do(m, WriteEntry))
  {
    var m' := Do(m, WriteEntry);
    WriteEffect(m);
    if HasClose(Pipeline(m)) {
      var i :| 0 <= i < |Pipeline(m)| && Pipeline(m)[i].CloseFrame?;
      if i > 0 { assert Pipeline(m')[i - 1].CloseFrame?; }
    }
    hide Do, Enabled, HasClose, WireEndsWithClose, Tickets, Faithful, Opening;
  }

  lemma StepBound(m: Mach, a: Action)
    requires Inv(m) && Enabled(m, a) && Bound(m)
    ensures Bound(Do(m, a))
  {
    hide Inv, Do, Enabled, Bound;
    if a.Push? || a.AppSend? || a.PingTick? || a.RxPing? {
      ThreadsBound(m, a);
    } else if a.RequestFlush? || a.RequestStop? {
      RequestsBound(m, a);
    } else if a.Wakeup? || a.RxClose? || a.RxError? {
      ClosingBound(m, a);
    } else if a.WriteEntry? {
      WriteBound(m);
    } else if a.TransportEvent? {
      TransportBound(m, a.t);
    } else if a.TakeBatch? {
      BatchBound(m);
    } else if a.EndFlush? {
      FlushEndBound(m);
    } else if a.SendEvent? || a.AcceptUpgrade? {
      ToFlushBound(m, a);
    } else {
      LoopBound(m, a);
    }
  }

  lemma {:induction false} RunBound(m: Mach, run: seq<Action>)
    requires Inv(m) && Exec(m, run).Some? && Bound(m)
    ensures Bound(Exec(m, run).value)
    decreases |run|
  {
    hide Inv, Do, Enabled, Bound;
    if run != [] {
      StepBound(m, run[0]);
      StepKeepsInv(m, run[0]);
      RunBound(Do(m, run[0]), run[1..]);
    }
  }

  /** The next flush of a closing connection puts its queued CLOSE on the wire. */
  lemma {:induction false} FlushSendsClose(c: Conn, batch: seq<Pending>)
    requires c.alive && c.state == DISCONNECTING && (c.closeSent || HasClose(batch))
    requires forall i :: 0 <= i < |batch| && batch[i].CloseFrame? ==> |batch[i].payload| <= 125
    ensures FlushBatch(c, batch, false).closeSent
    decreases |batch|
  {
    if batch != [] {
      var d := FlushOne(c, batch[0], false);
      if !c.closeSent && !batch[0].CloseFrame? {
        var i :| 0 <= i < |batch| && batch[i].CloseFrame?;
        assert batch[1..][i - 1].CloseFrame?;
      }
      FlushSendsClose(d, batch[1..]);
    }
  }

  lemma ShortPending(m: Mach)
    requires Inv(m)
    ensures forall i :: 0 <= i < |Pipeline(m)| && Pipeline(m)[i].CloseFrame? ==> |Pipeline(m)[i].payload| <= 125
  {
    hide Flags, WireEndsWithClose, Tickets, Faithful, Opening, Pipeline, LegalClose;
  }

  lemma CloseInSight(m: Mach)
    requires Inv(m) && Bound(m) && m.c.upgraded && Closing(m.c.state) && !m.c.closeSent && !m.c.loopExit
    ensures HasClose(Rest(m.pc)) || (HasClose(m.c.sendQueue) && (m.c.sendFlushPending || m.pc.ToFlush?))
    ensures m.pc == Idle ==> FlushQueue(m.c).closeSent
  {
    CloseSomewhere(m);
    if m.pc == Idle {
      FlagsHold(m);
      ShortPending(m);
      assert Pipeline(m) == m.c.sendQueue;
      hide Inv, Bound, Pipeline, HasClose, FlushQueue, WireEndsWithClose;
      QueueSendsClose(m.c);
    }
  }

  lemma QueueSendsClose(c: Conn)
    requires c.alive && c.state == DISCONNECTING && HasClose(c.sendQueue)
    requires forall i :: 0 <= i < |c.sendQueue| && c.sendQueue[i].CloseFrame? ==> |c.sendQueue[i].payload| <= 125
    ensures FlushQueue(c).closeSent
  {
    FlushSendsClose(c.(sendQueue := []), c.sendQueue);
    hide FlushBatch, HasClose;
  }

  lemma CloseSomewhere(m: Mach)
    requires Bound(m) && HasClose(Pipeline(m))
    ensures HasClose(Rest(m.pc)) || (HasClose(m.c.sendQueue) && (m.c.sendFlushPending || m.pc.ToFlush?))
    ensures m.pc == Idle ==> HasClose(m.c.sendQueue)
  {
    var i :| 0 <= i < |Pipeline(m)| && Pipeline(m)[i].CloseFrame?;
    var n := |Rest(m.pc)|;
    if i < n {
      assert Rest(m.pc)[i].CloseFrame?;
    } else {
      assert m.c.sendQueue[i - n].CloseFrame?;
    }
  }

  /** After any run, once an upgraded connection is closing: unless the loop has been told to exit or the CLOSE is
      on the wire, it is in the batch being written or in a queue with a flush coming, and between callbacks that
      flush writes it. A CLOSE on the wire has its timer running, and once the timer has fired the application
      has heard of the close exactly once and the loop is told to exit. */
  lemma CloseNotForgotten(run: seq<Action>)
    requires Exec(LAUNCH, run).Some? && Exec(LAUNCH, run).value.c.upgraded
    ensures var m := Exec(LAUNCH, run).value; var c := m.c;
      && (Closing(c.state) && !c.closeSent && !c.loopExit ==>
            && (HasClose(Rest(m.pc)) || (HasClose(c.sendQueue) && (c.sendFlushPending || m.pc.ToFlush?)))
            && (m.pc == Idle ==> FlushQueue(c).closeSent))
      && (c.closeSent ==> c.timerArmed)
      && (c.state == DISCONNECTED ==> c.closeSent && c.loopExit && c.closeCallbacks == 1)
  {
    hide Exec, WireEndsWithClose, ClosesPending, Tickets, Faithful, Opening;
    StartInv();
    RunKeepsInv(LAUNCH, run);
    RunBound(LAUNCH, run);
    var m := Exec(LAUNCH, run).value;
    if Closing(m.c.state) && !m.c.closeSent && !m.c.loopExit {
      CloseInSight(m);
    }
  }
}
