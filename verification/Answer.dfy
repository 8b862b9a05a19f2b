/** Whether the peer's close is answered (RFC 6455, section 5.5.1; `onRxClose`). */
module Answer {
  import opened Bytes
  import opened Sender
  import opened Connection
  import opened Protocol
  import opened Shutdown
  import R = Receiver
  import Utf8

  /** The peer's close is being answered with `p` on top of the frames `before`, if there was room for the answer. */
  predicate InFlight(m: Mach, before: seq<OutFrame>, p: seq<byte>, room: bool) {
    var c, ps := m.c, Pipeline(m);
    && c.upgraded && c.state == DISCONNECTING && c.closeReceived
    && (m.pc == ToFlush(FireClose) || (m.pc.Flushing? && m.pc.then_ == FireClose) || (m.pc == Idle && c.closeCallbacks == 1))
    && (if c.closeSent then room && c.wire == before + [OutFrame(CLOSE, p, None)]
        else c.wire == before && (HasClose(ps) <==> room))
    && (forall i :: 0 <= i < |ps| && ps[i].CloseFrame? ==> ps[i].payload == p)
    && (!m.pc.ToFlush? ==> !HasClose(c.sendQueue))
  }

  lemma NoneSent(m: Mach)
    requires Inv(m) && m.c.closeSent
    ensures !HasClose(Pipeline(m))
  {
    hide Flags, WireEndsWithClose, Tickets, Faithful, Opening, Pipeline;
  }

  lemma PushInFlight(m: Mach, a: Action, before: seq<OutFrame>, p: seq<byte>, room: bool)
    requires Enabled(m, a) && (a.Push? || a.RequestFlush? || a.RequestStop?) && InFlight(m, before, p, room)
    ensures InFlight(Do(m, a), before, p, room)
  {
    var m' := Do(m, a);
    assert m' == m.(c := if a.Push? then Enqueue(m.c, a.text, a.data).0
                         else if a.RequestFlush? then RequestSendFlush(m.c) else m.c.(stopRequested := true));
    hide Do, Enabled;
    if a.Push? && |m.c.sendQueue| < MAX_QUEUE_SIZE {
      var e := App(a.text, a.data, |m.c.accepted|);
      PipelineGrows(m, m', e);
      CloseBehind(m.c.sendQueue, e);
      CloseBehind(Pipeline(m), e);
      hide HasClose, Pipeline;
    }
  }

  lemma BatchInFlight(m: Mach, before: seq<OutFrame>, p: seq<byte>, room: bool)
    requires Enabled(m, TakeBatch) && InFlight(m, before, p, room)
    ensures InFlight(Do(m, TakeBatch), before, p, room)
  {
    var m' := Do(m, TakeBatch);
    assert m'.c == m.c.(sendQueue := []) && m'.pc == Flushing(m.c.sendQueue, m.c.state == CONNECTED, m.pc.then_);
    hide Do, Enabled;
    assert Pipeline(m') == Pipeline(m);
  }

  lemma WriteInFlight(m: Mach, before: seq<OutFrame>, p: seq<byte>, room: bool)
    requires Inv(m) && Enabled(m, WriteEntry) && InFlight(m, before, p, room)
    ensures InFlight(Do(m, WriteEntry), before, p, room)
  {
    WriteEffect(m);
    var m' := Do(m, WriteEntry);
    var ps := Pipeline(m);
    if m.c.closeSent { NoneSent(m); }
    hide Do, Enabled, Inv;
    assert forall i :: 0 <= i < |Pipeline(m')| ==> Pipeline(m')[i] == ps[i + 1];
    assert ps == [ps[0]] + Pipeline(m');
    if HasClose(ps) {
      var i :| 0 <= i < |ps| && ps[i].CloseFrame?;
      if i > 0 { assert Pipeline(m')[i - 1].CloseFrame?; }
    }
    hide HasClose;
  }

  lemma EndInFlight(m: Mach, before: seq<OutFrame>, p: seq<byte>, room: bool)
    requires Inv(m) && Enabled(m, EndFlush) && InFlight(m, before, p, room)
    ensures InFlight(Do(m, EndFlush), before, p, room)
  {
    hide Do, Enabled;
    EndFlushStep(m);
    var m' := Do(m, EndFlush);
    FlagsHold(m);
    assert Pipeline(m') == Pipeline(m) == m.c.sendQueue;
    hide Inv, HasClose, Pipeline;
  }

  lemma {:induction false} StaysInFlight(m: Mach, before: seq<OutFrame>, p: seq<byte>, room: bool, run: seq<Action>)
    requires Inv(m) && InFlight(m, before, p, room) && Exec(m, run).Some? && AllFlushSteps(run)
    ensures InFlight(Exec(m, run).value, before, p, room)
    decreases |run|
  {
    hide Do, Enabled, Inv, InFlight;
    if run != [] {
      var a := run[0];
      assert FlushStep(a) && AllFlushSteps(run[1..]);
      StepKeepsInv(m, a);
      match a {
        case TakeBatch => BatchInFlight(m, before, p, room);
        case WriteEntry => WriteInFlight(m, before, p, room);
        case EndFlush => EndInFlight(m, before, p, room);
        case _ => PushInFlight(m, a, before, p, room);
      }
      StaysInFlight(Do(m, a), before, p, room, run[1..]);
    }
  }

  /** The close has arrived, and nothing is flushed yet. */
  lemma CloseArrives(m: Mach, code: nat, reason: seq<byte>)
    requires Inv(m) && Enabled(m, RxClose(code, reason))
    ensures InFlight(Do(m, RxClose(code, reason)), m.c.wire, ClosePayload(code, reason),
                     |m.c.sendQueue| < MAX_QUEUE_SIZE)
  {
    hide Do, Enabled, Inv;
    RxCloseStep(m, code, reason);
    FlagsHold(m);
    assert m.c.alive && m.c.state == CONNECTED && !m.c.closeSent;
    hide Flags;
    NothingPending(m);
    CloseEffect(m.c.(closeReceived := true), code, reason);
    Begun(m, BeginRxClose(m.c, code, reason), ClosePayload(code, reason));
    hide InFlight, BeginRxClose, ClosePayload;
  }

  lemma NothingPending(m: Mach)
    requires Inv(m) && m.c.state == CONNECTED
    ensures forall i :: 0 <= i < |Pipeline(m)| ==> !Pipeline(m)[i].CloseFrame?
  {
    hide Flags, WireEndsWithClose, Tickets, Faithful, Opening, Pipeline;
  }

  lemma Begun(m: Mach, d: Conn, p: seq<byte>)
    requires m.pc == Idle && m.c.upgraded && !m.c.closeSent
    requires forall i :: 0 <= i < |Pipeline(m)| ==> !Pipeline(m)[i].CloseFrame?
    requires d.upgraded && d.state == DISCONNECTING && d.closeReceived && !d.closeSent && d.wire == m.c.wire
    requires d.sendQueue == if |m.c.sendQueue| < MAX_QUEUE_SIZE then m.c.sendQueue + [CloseFrame(p)] else m.c.sendQueue
    ensures InFlight(Mach(d, ToFlush(FireClose)), m.c.wire, p, |m.c.sendQueue| < MAX_QUEUE_SIZE)
  {
    assert Pipeline(m) == m.c.sendQueue && Pipeline(Mach(d, ToFlush(FireClose))) == d.sendQueue;
    CloseBehind(m.c.sendQueue, CloseFrame(p));
  }

  /** RFC 6455, section 5.5.1, wants a close frame answered with one. Whatever other threads do before the callback
      is through, the answer is then on the wire, with the peer's code and reason and nothing else, exactly when the
      send queue was not full as the close arrived; and the application has been told. */
  lemma PeerCloseAnsweredIff(m: Mach, code: nat, reason: seq<byte>, run: seq<Action>, m': Mach)
    requires Inv(m) && Enabled(m, RxClose(code, reason)) && AllFlushSteps(run)
    requires Exec(Do(m, RxClose(code, reason)), run) == Some(m') && m'.pc == Idle
    ensures m'.c.closeSent <==> |m.c.sendQueue| < MAX_QUEUE_SIZE
    ensures m'.c.wire == m.c.wire + (if m'.c.closeSent then [OutFrame(CLOSE, ClosePayload(code, reason), None)] else [])
    ensures m'.c.closeSent ==> ClosesWith(m'.c.wire, code, reason)
    ensures m'.c.closeCallbacks == 1 && m'.c.state == DISCONNECTING && m'.c.closeReceived
  {
    CloseArrives(m, code, reason);
    ClosePayloadSays(code, reason);
    StepKeepsInv(m, RxClose(code, reason));
    StaysInFlight(Do(m, RxClose(code, reason)), m.c.wire, ClosePayload(code, reason),
                  |m.c.sendQueue| < MAX_QUEUE_SIZE, run);
    hide Do, Enabled, Inv, Exec, Says, ClosePayload;
    assert Pipeline(m') == m'.c.sendQueue;
  }

  /** A peer that reads the answer as this endpoint reads close frames hears its own code and reason again. */
  lemma PeerReadsAnswer(payload: seq<byte>, code: nat, reason: seq<byte>, e: R.Event)
    requires Says(payload, code, reason) && R.LegalCloseCode(code) && Utf8.Accepts(reason) && |reason| <= 123
    ensures R.ReportsClose(payload, e) ==> e == R.Close(code, reason)
  {
    assert payload[2..] == reason;
    Utf8.AcceptsIffValid(reason);
    hide Utf8.Accepts, Utf8.ValidUtf8;
  }

  // ---------------------------------------------------------------------------
  // A close that goes unanswered
  // ---------------------------------------------------------------------------

  function Pushes(n: nat, data: seq<byte>): seq<Action> {
    if n == 0 then [] else [Push(true, data)] + Pushes(n - 1, data)
  }

  /** Other threads fill the queue while the event thread is elsewhere. */
  lemma {:induction false} PushMany(m: Mach, n: nat, data: seq<byte>) returns (m': Mach)
    requires |m.c.sendQueue| + n <= MAX_QUEUE_SIZE
    ensures Exec(m, Pushes(n, data)) == Some(m')
    ensures m' == m.(c := m.c.(sendQueue := m'.c.sendQueue, accepted := m'.c.accepted))
    ensures |m'.c.sendQueue| == |m.c.sendQueue| + n
    decreases n
  {
    if n == 0 {
      m' := m;
    } else {
      var c := Enqueue(m.c, true, data).0;
      var m1 := m.(c := c);
      PushStep(m, data);
      hide Do, Enabled, Exec;
      OneStep(m, Push(true, data), m1, Pushes(n, data));
      assert Pushes(n, data)[1..] == Pushes(n - 1, data);
      m' := PushMany(m1, n - 1, data);
    }
  }

  lemma PushStep(m: Mach, data: seq<byte>)
    ensures Enabled(m, Push(true, data)) && Do(m, Push(true, data)) == m.(c := Enqueue(m.c, true, data).0)
  {
  }

  /** The connection just opened, with nothing queued. */
  lemma Opens() returns (run: seq<Action>, m: Mach)
    ensures Exec(LAUNCH, run) == Some(m) && m == Mach(Upgrade(INITIAL.(alive := true)), Idle)
  {
    var c := INITIAL.(state := CONNECTING);
    var d := c.(alive := true);
    var up := Upgrade(d);
    m := Mach(up, Idle);
    run := [StartConnecting, StartLoop, AcceptUpgrade, TakeBatch, EndFlush];
    OpeningSteps(c, d, up);
    hide Do, Enabled;
    var m3, m4 := Mach(up, ToFlush(Opened([]))), Mach(up, Flushing([], true, Opened([])));
    OneStep(LAUNCH, StartConnecting, Mach(c, Starting), run);
    OneStep(Mach(c, Starting), StartLoop, Mach(d, Idle), run[1..]);
    OneStep(Mach(d, Idle), AcceptUpgrade, m3, run[2..]);
    OneStep(m3, TakeBatch, m4, run[3..]);
    OneStep(m4, EndFlush, m, run[4..]);
  }

  lemma OpeningSteps(c: Conn, d: Conn, up: Conn)
    requires c == INITIAL.(state := CONNECTING) && d == c.(alive := true) && up == Upgrade(d)
    ensures Enabled(LAUNCH, StartConnecting) && Do(LAUNCH, StartConnecting) == Mach(c, Starting)
    ensures Enabled(Mach(c, Starting), StartLoop) && Do(Mach(c, Starting), StartLoop) == Mach(d, Idle)
    ensures Enabled(Mach(d, Idle), AcceptUpgrade) && Do(Mach(d, Idle), AcceptUpgrade) == Mach(up, ToFlush(Opened([])))
    ensures var m3, m4 := Mach(up, ToFlush(Opened([]))), Mach(up, Flushing([], true, Opened([])));
      && Enabled(m3, TakeBatch) && Do(m3, TakeBatch) == m4
      && Enabled(m4, EndFlush) && Do(m4, EndFlush) == Mach(up, Idle)
  {
  }

  /** It does happen: other threads fill the queue of an open connection between two flushes, and the peer's close,
      whatever its code and reason, is taken note of and not answered. */
  lemma CloseUnanswered(code: nat, reason: seq<byte>, data: seq<byte>) returns (run: seq<Action>, m: Mach)
    requires R.LegalCloseCode(code) && FitReason(reason)  // the receiver reports no others
    ensures Exec(LAUNCH, run) == Some(m) && m.pc == Idle
    ensures m.c.closeReceived && !m.c.closeSent && m.c.wire == [] && m.c.closeCallbacks == 1
  {
    var opening, m0 := Opens();
    var m1 := PushMany(m0, MAX_QUEUE_SIZE, data);
    var before := opening + Pushes(MAX_QUEUE_SIZE, data);
    ExecConcat(LAUNCH, opening, Pushes(MAX_QUEUE_SIZE, data));
    StartInv();
    RunKeepsInv(LAUNCH, before);
    var close := RxClose(code, reason);
    CloseEnabled(m1, code, reason);
    var m2 := Do(m1, close);
    hide Do, Enabled, Inv, Exec, InFlight;
    CloseArrives(m1, code, reason);
    StepKeepsInv(m1, close);
    AtFlush(m1, m2, code, reason);
    var tail := WholeFlush(m2.c, FireClose);
    m := Exec(m2, tail).value;
    PeerCloseAnsweredIff(m1, code, reason, tail, m);
    StaysInFlight(m2, m1.c.wire, ClosePayload(code, reason), false, tail);
    Noted(m, m1.c.wire, ClosePayload(code, reason));
    run := before + ([close] + tail);
    ExecConcat(LAUNCH, before, [close] + tail);
    OneStep(m1, close, m2, [close] + tail);
    assert ([close] + tail)[1..] == tail;
  }

  lemma CloseEnabled(m: Mach, code: nat, reason: seq<byte>)
    requires m.pc == Idle && m.c.upgraded && m.c.state == CONNECTED && !m.c.stopRequested
    requires R.LegalCloseCode(code) && FitReason(reason)
    ensures Enabled(m, RxClose(code, reason))
  {
  }

  lemma AtFlush(m: Mach, m': Mach, code: nat, reason: seq<byte>)
    requires Inv(m) && Enabled(m, RxClose(code, reason)) && m' == Do(m, RxClose(code, reason))
    ensures m' == Mach(m'.c, ToFlush(FireClose))
  {
    hide Do, Enabled, WireEndsWithClose, ClosesPending, Tickets, Faithful, Opening;
    RxCloseStep(m, code, reason);
  }

  lemma Noted(m: Mach, before: seq<OutFrame>, p: seq<byte>)
    requires InFlight(m, before, p, false)
    ensures m.c.closeReceived && !m.c.closeSent && m.c.wire == before
  {
    hide HasClose;
  }
}
