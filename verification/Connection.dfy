/** The connection as its callbacks see it: one function of the state per callback. */
module Connection {
  import opened Bytes
  import opened Sender

  datatype CState = DISCONNECTED | CONNECTING | CONNECTED | DISCONNECTING | FAILED

  /** An entry of the send queue. `ticket` numbers the application messages in the order they were accepted. */
  datatype Pending =
    | App(text: bool, data: seq<byte>, ticket: nat)
    | CloseFrame(payload: seq<byte>)

  /** A frame handed to the encoder; `origin` is the ticket when it came off the queue. */
  datatype OutFrame = OutFrame(kind: MessageType, payload: seq<byte>, origin: Option<nat>)

  const MAX_QUEUE_SIZE: nat := 1024

  /** `alive` says that the buffered event and the send event exist; `loopExit` that the event loop has been told to
      exit, which a stop request alone does not do; `accepted` and `wire` are histories. */
  datatype Conn = Conn(
    state: CState,
    upgraded: bool,
    alive: bool,
    stopRequested: bool,
    loopExit: bool,
    closeSent: bool,
    closeReceived: bool,
    protocolFailed: bool,
    closeCallbacks: nat,
    timerArmed: bool,
    sendFlushPending: bool,
    sendQueue: seq<Pending>,
    accepted: seq<(bool, seq<byte>)>,
    wire: seq<OutFrame>
  )

  const INITIAL := Conn(DISCONNECTED, false, false, false, false, false, false, false, 0, false, false, [], [], [])

  predicate Closing(s: CState) { s == DISCONNECTING || s == DISCONNECTED }

  /** `requestLoopExit`: it also sets the flag a stop request sets. */
  function RequestLoopExit(c: Conn): Conn {
    c.(stopRequested := true, loopExit := true)
  }

  predicate Terminating(c: Conn) { Closing(c.state) || c.stopRequested }

  // ---------------------------------------------------------------------------
  // Sending
  // ---------------------------------------------------------------------------

  /** The encoder drops oversized control payloads silently. */
  function SendFrame(c: Conn, kind: MessageType, payload: seq<byte>, origin: Option<nat>): Conn {
    c.(wire := c.wire + if IsControl(kind) && |payload| > 125 then [] else [OutFrame(kind, payload, origin)])
  }

  function SendNow(c: Conn, kind: MessageType, payload: seq<byte>, origin: Option<nat>): (Conn, bool) {
    if !c.alive then (c, false)
    else if !(c.state == CONNECTED || (kind == CLOSE && c.state == DISCONNECTING)) then (c, false)
    else if kind != CLOSE && !c.upgraded then (c, false)
    else (SendFrame(c, kind, payload, origin), true)
  }

  /** Appending to the queue under its lock. */
  function Enqueue(c: Conn, text: bool, data: seq<byte>): (Conn, bool) {
    if |c.sendQueue| >= MAX_QUEUE_SIZE then (c, false)
    else (c.(sendQueue := c.sendQueue + [App(text, data, |c.accepted|)], accepted := c.accepted + [(text, data)]), true)
  }

  function RequestSendFlush(c: Conn): Conn {
    c.(sendFlushPending := c.sendFlushPending || c.alive)
  }

  function SendData(c: Conn, data: seq<byte>, kind: MessageType, onEventThread: bool): (Conn, bool) {
    if kind == CLOSE then (c, false)
    else if c.state == CONNECTING then Enqueue(c, kind == TEXT, data)
    else if onEventThread then SendNow(c, kind, data, None)
    else
      var (d, ok) := Enqueue(c, kind == TEXT, data);
      (if ok then RequestSendFlush(d) else d, ok)
  }

  // ---------------------------------------------------------------------------
  // Closing
  // ---------------------------------------------------------------------------

  /** The code and at most 123 octets of the reason. */
  function ClosePayload(code: nat, reason: seq<byte>): (p: seq<byte>)
    ensures 2 <= |p| <= 125
  {
    ToBigEndian(code, 2) + if |reason| > 123 then reason[..123] else reason
  }

  /** A close payload with this code, in network byte order, and as much of the reason as fits. */
  predicate Says(p: seq<byte>, code: nat, reason: seq<byte>) {
    && |p| == 2 + (if |reason| > 123 then 123 else |reason|)
    && p[0] as int * 256 + p[1] == code % 65536
    && p[2..] == reason[..|p| - 2]
  }

  lemma ClosePayloadSays(code: nat, reason: seq<byte>)
    ensures Says(ClosePayload(code, reason), code, reason)
  {
    ToBigEndianTwo(code);
    assert code % 65536 == code / 256 % 256 * 256 + code % 256;
    var p := ClosePayload(code, reason);
    assert p[2..] == if |reason| > 123 then reason[..123] else reason;
    hide ToBigEndian;
  }

  /** The last frame closes with this code and reason. */
  predicate ClosesWith(wire: seq<OutFrame>, code: nat, reason: seq<byte>) {
    wire != [] && wire[|wire| - 1].kind == CLOSE && Says(wire[|wire| - 1].payload, code, reason)
  }

  /** The last entry of the queue closes with this code and reason. */
  predicate QueuesClose(queue: seq<Pending>, code: nat, reason: seq<byte>) {
    queue != [] && queue[|queue| - 1].CloseFrame? && Says(queue[|queue| - 1].payload, code, reason)
  }

  function CloseConn(c: Conn, code: nat, reason: seq<byte>): (Conn, bool) {
    if Closing(c.state) then (c, false)
    else if !c.upgraded || !c.alive then (RequestLoopExit(c.(state := DISCONNECTED)), true)
    else
      var d := c.(state := DISCONNECTING);
      if c.closeSent then (d, false)
      else if |c.sendQueue| >= MAX_QUEUE_SIZE then (RequestLoopExit(d), false)
      else (RequestSendFlush(d.(sendQueue := c.sendQueue + [CloseFrame(ClosePayload(code, reason))])), true)
  }

  function CloseCallback(c: Conn): Conn {
    c.(closeCallbacks := if c.closeCallbacks > 0 then c.closeCallbacks else 1)
  }

  // ---------------------------------------------------------------------------
  // Flushing
  // ---------------------------------------------------------------------------

  /** One entry of the batch taken off the queue. */
  function FlushOne(c: Conn, p: Pending, canSendApp: bool): Conn {
    match p
    case App(text, data, ticket) =>
      if !canSendApp then c else SendNow(c, if text then TEXT else BINARY, data, Some(ticket)).0
    case CloseFrame(payload) =>
      if c.closeSent then c
      else
        var (d, ok) := SendNow(c, CLOSE, payload, None);
        if ok then d.(closeSent := true, timerArmed := true) else d
  }

  function FlushBatch(c: Conn, batch: seq<Pending>, canSendApp: bool): Conn
    decreases |batch|
  {
    if batch == [] then c else FlushBatch(FlushOne(c, batch[0], canSendApp), batch[1..], canSendApp)
  }

  function FlushQueue(c: Conn): Conn {
    FlushBatch(c.(sendQueue := []), c.sendQueue, c.state == CONNECTED)
  }

  // ---------------------------------------------------------------------------
  // Callbacks of the event loop
  // ---------------------------------------------------------------------------

  function StopNow(c: Conn): Conn {
    if Closing(c.state) then c
    else if !(c.upgraded && c.alive) || c.state != CONNECTED then RequestLoopExit(c.(state := DISCONNECTED))
    else CloseConn(c, 1000, NORMAL_CLOSURE).0
  }

  /** "Normal closure" in ASCII. */
  const NORMAL_CLOSURE: seq<byte> := [78, 111, 114, 109, 97, 108, 32, 99, 108, 111, 115, 117, 114, 101]

  /** "ping" in ASCII. */
  const PING_PAYLOAD: seq<byte> := [112, 105, 110, 103]

  function OnTimeout(c: Conn): Conn {
    if Closing(c.state) then c else RequestLoopExit(c)
  }

  function OnPingTick(c: Conn): Conn {
    if !c.upgraded || !c.alive then c else SendNow(c, PING, PING_PAYLOAD, None).0
  }

  function OnCloseTimer(c: Conn): Conn {
    if c.closeReceived then c
    else RequestLoopExit(CloseCallback(c).(state := DISCONNECTED))
  }

  /** Flags of a transport event; `tlsError` says the TLS library has an error of its own to report. */
  datatype Transport = Transport(error: bool, eof: bool, timeout: bool, tlsError: bool)

  /** An error or a timeout; what was queued before the upgrade is given up, except after a TLS error. */
  function TransportLost(c: Conn, keepQueue: bool): Conn {
    c.(state := DISCONNECTING, sendQueue := if !c.upgraded && !keepQueue then [] else c.sendQueue)
  }

  /** The end of the stream, before the upgrade, without a close handshake, or after one. */
  function TransportEnded(c: Conn): Conn {
    if !c.upgraded then c.(sendQueue := [])
    else if !(c.closeReceived || c.closeSent) then c.(state := DISCONNECTING)
    else CloseCallback(c)
  }

  function OnTransport(c: Conn, t: Transport): Conn {
    if !(t.error || t.eof || t.timeout) then c
    else
      var stoppingNow := c.stopRequested || Closing(c.state);
      if stoppingNow && (t.error || t.timeout) then RequestLoopExit(c)
      else if t.error || t.timeout then TransportLost(RequestLoopExit(c), t.error && t.tlsError)
      else TransportEnded(RequestLoopExit(c))
  }

  // ---------------------------------------------------------------------------
  // Events from the receiver
  // ---------------------------------------------------------------------------

  /** The pong bypasses `sendNow` and its state check. */
  function OnRxPing(c: Conn, payload: seq<byte>): Conn {
    if !c.alive then c else SendFrame(c, PONG, payload, None)
  }

  /** Up to the flush that follows a close the peer started. */
  function BeginRxClose(c: Conn, code: nat, reason: seq<byte>): Conn {
    CloseConn(c.(closeReceived := true), code, reason).0
  }

  function OnRxClose(c: Conn, code: nat, reason: seq<byte>): Conn {
    if c.closeSent then CloseCallback(c.(closeReceived := true))
    else CloseCallback(FlushQueue(BeginRxClose(c, code, reason)))
  }

  function OnRxProtocolError(c: Conn, code: nat, why: seq<byte>): Conn {
    if c.protocolFailed then c
    else
      var d := c.(protocolFailed := true);
      if c.upgraded && c.alive then RequestSendFlush(CloseConn(d, code, why).0)
      else RequestLoopExit(d)
  }

  /** The accepted upgrade, up to the flush of what was queued meanwhile. */
  function Upgrade(c: Conn): Conn {
    c.(upgraded := true, state := CONNECTED)
  }

  function UpgradeRefused(c: Conn): Conn {
    RequestLoopExit(c.(state := FAILED))
  }
}
