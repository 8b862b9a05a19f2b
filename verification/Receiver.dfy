/** The incremental frame parser and its fragmentation state machine (`WebSocketReceiver`). */
module Receiver {
  import opened Bytes
  import opened EvBuffers
  import opened Utf8

  // ---------------------------------------------------------------------------
  // What the receiver tells its owner
  // ---------------------------------------------------------------------------

  datatype Event =
    | Text(message: seq<byte>)
    | Binary(message: seq<byte>)
    | Ping(payload: seq<byte>)
    | Close(code: nat, reason: seq<byte>)
    | ProtocolError(code: nat, why: string)
  {
    /** After these the owner reports `rxIsTerminating`. */
    predicate Terminal() { Close? || ProtocolError? }
  }

  function Opt(e: Option<Event>): seq<Event> {
    if e.Some? then [e.value] else []
  }

  predicate Ends(e: Option<Event>) { e.Some? && e.value.Terminal() }

  /** The owner of a receiver: it records events and stops the receiver after a terminal one. */
  class Sinks {
    var log: seq<Event>
    var terminating: bool

    constructor ()
      ensures log == [] && !terminating
    {
      log, terminating := [], false;
    }

    method Notify(e: Event)
      modifies this
      ensures log == old(log) + [e]
      ensures terminating == (old(terminating) || e.Terminal())
    {
      log := log + [e];
      terminating := terminating || e.Terminal();
    }
  }

  // ---------------------------------------------------------------------------
  // Receiver state and configuration
  // ---------------------------------------------------------------------------

  /** `inflate` is the peer's compressor undone: the compressed messages inflated since the last reset are
      its context, and it may fail. `noTakeover` is the negotiated `server_no_context_takeover`. */
  datatype Config = Config(
    compression: bool,
    noTakeover: bool,
    inflate: (seq<seq<byte>>, seq<byte>) -> Option<seq<byte>>
  )

  datatype RState = RState(
    inProgress: bool,
    compressed: bool,
    opcode: int,
    message: seq<byte>,
    utf8: VState,
    context: seq<seq<byte>>
  )

  /** Between messages. */
  predicate Idle(r: RState) {
    !r.inProgress && !r.compressed && r.opcode == 0 && r.message == []
  }

  const FRESH := RState(false, false, 0, [], START, [])

  function Inflate(cfg: Config, r: RState, data: seq<byte>): Option<seq<byte>> {
    cfg.inflate(if cfg.noTakeover then [] else r.context, data)
  }

  /** The decompressor's context after `data` has been inflated. */
  function ContextAfter(cfg: Config, r: RState, data: seq<byte>): seq<seq<byte>> {
    if cfg.noTakeover then [] else r.context + [data]
  }

  // ---------------------------------------------------------------------------
  // One frame
  // ---------------------------------------------------------------------------

  datatype Parsed =
    | Incomplete
    | Malformed(why: string)
    | Complete(fin: bool, rsv1: bool, opcode: int, payload: seq<byte>, need: nat)

  /** What the head of the buffer holds. */
  function Parse(bs: seq<byte>, compression: bool): (p: Parsed)
    ensures p.Complete? ==> 2 <= p.need <= |bs| && 0 <= p.opcode < 16
  {
    if |bs| < 2 then Incomplete
    else
      var fin, rsv1, opcode := bs[0] / 128 == 1, bs[0] / 64 % 2 == 1, bs[0] % 16;
      if (!compression && rsv1) || bs[0] / 32 % 2 == 1 || bs[0] / 16 % 2 == 1 then Malformed("Unexpected RSV bits")
      else if opcode / 8 == 1 && !fin then Malformed("Control frame fragmented")
      else if bs[1] / 128 == 1 then Malformed("Masked frame from server")
      else
        var len7 := bs[1] % 128;
        if (len7 == 126 && |bs| < 4) || (len7 == 127 && |bs| < 10) then Incomplete
        else
          var header := if len7 == 126 then 4 else if len7 == 127 then 10 else 2;
          var len := if len7 < 126 then len7 else BigEndian(bs[2..header]);
          if opcode / 8 == 1 && len > 125 then Malformed("Control frame payload too large")
          else if |bs| < header + len then Incomplete
          else Complete(fin, rsv1, opcode, bs[header..header + len], header + len)
  }

  const BAD_TEXT := "Invalid UTF-8 in text message"

  function HandleContinuation(cfg: Config, r: RState, payload: seq<byte>, fin: bool): (RState, Option<Event>) {
    if !r.inProgress then (r, Some(ProtocolError(1002, "continuation frame without initial frame")))
    else
      var r1 := r.(message := r.message + payload);
      var checkNow := !r.compressed && r.opcode == 1;
      var (u, ok) := if checkNow then Feed(r.utf8, payload) else (r.utf8, true);
      if !ok then (r1.(utf8 := START), Some(ProtocolError(1007, BAD_TEXT)))
      else
        var r2 := r1.(utf8 := u);
        if !fin then (r2, None)
        else if r.compressed then
          match Inflate(cfg, r2, r2.message)
          case None => (r2.(utf8 := START), Some(ProtocolError(1007, "Decompression failed")))
          case Some(out) => Deliver(r2.(message := out, context := ContextAfter(cfg, r2, r2.message)))
        else Deliver(r2)
  }

  /** The end of a fragmented message, once it is decompressed. */
  function Deliver(r: RState): (RState, Option<Event>) {
    var done := r.(inProgress := false, compressed := false, message := [], opcode := 0);
    if r.opcode == 1 then
      var ok := if r.compressed then Accepts(r.message) else r.utf8.expected == 0;
      if ok then (done.(utf8 := START), Some(Text(r.message)))
      else (r.(utf8 := START), Some(ProtocolError(1007, BAD_TEXT)))
    else if r.opcode == 2 then (done, Some(Binary(r.message)))
    else (r, Some(ProtocolError(1002, "Unknown fragmented opcode")))
  }

  function HandleData(cfg: Config, r: RState, payload: seq<byte>, fin: bool, opcode: int, rsv1: bool): (RState, Option<Event>) {
    if r.inProgress then (r, Some(ProtocolError(1002, "Received new data frame when expecting continuation frame")))
    else
      var compressed := rsv1 && cfg.compression;
      if !fin then
        var r1 := r.(inProgress := true, opcode := opcode, message := payload, compressed := compressed);
        if opcode == 1 && !compressed then
          var (u, ok) := Feed(START, payload);
          if ok then (r1.(utf8 := u), None)
          else (r1.(utf8 := START), Some(ProtocolError(1007, BAD_TEXT)))
        else (r1, None)
      else if compressed then
        match Inflate(cfg, r, payload)
        case None => (r, Some(ProtocolError(1007, "Decompression failed")))
        case Some(out) => Unfragmented(r.(context := ContextAfter(cfg, r, payload)), out, opcode)
      else Unfragmented(r, payload, opcode)
  }

  function Unfragmented(r: RState, data: seq<byte>, opcode: int): (RState, Option<Event>) {
    if opcode == 1 then
      if Accepts(data) then (r.(utf8 := START), Some(Text(data)))
      else (r.(utf8 := START), Some(ProtocolError(1007, BAD_TEXT)))
    else if opcode == 2 then (r, Some(Binary(data)))
    else (r, Some(ProtocolError(1002, "Unsupported opcode")))
  }

  /** Close codes an endpoint may put in a close frame (RFC 6455, section 7.4). */
  predicate LegalCloseCode(code: int) {
    || (1000 <= code <= 1011 && code != 1004 && code != 1005 && code != 1006)
    || 3000 <= code <= 4999
  }

  /** What RFC 6455, sections 5.5.1 and 7.4, makes of a close payload: its own code and reason when it may carry them, no
      particular code when it is empty, a protocol error otherwise. */
  ghost predicate ReportsClose(payload: seq<byte>, e: Event) {
    if |payload| == 0 then e == Close(1000, [])
    else if |payload| == 1 || |payload| > 125 then e == Close(1002, [])
    else
      var code := payload[0] as int * 256 + payload[1];
      if (1000 <= code <= 1003 || 1007 <= code <= 1011 || 3000 <= code <= 4999) && ValidUtf8(payload[2..])
      then e == Close(code, payload[2..])
      else e == Close(1002, [])
  }

  lemma CloseIsReported(payload: seq<byte>)
    ensures ReportsClose(payload, HandleClose(payload))
  {
    if |payload| >= 2 {
      assert payload[..2] == [payload[0], payload[1]];
      BigEndianTwo(payload[0], payload[1]);
      AcceptsIffValid(payload[2..]);
      hide BigEndian, Accepts, ValidUtf8;
    }
  }

  /** The close a payload asks for: its own code and reason when both are legal, 1002 otherwise. */
  function HandleClose(payload: seq<byte>): (e: Event)
    ensures e.Close? && LegalCloseCode(e.code) && Accepts(e.reason) && |e.reason| <= 123
  {
    if |payload| > 125 || |payload| == 1 then Close(1002, [])
    else if payload == [] then Close(1000, [])
    else
      var code := BigEndian(payload[..2]);
      if LegalCloseCode(code) && Accepts(payload[2..]) then Close(code, payload[2..]) else Close(1002, [])
  }

  /** What the switch on the opcode does; the last component tells whether the frame is drained. */
  function Dispatch(cfg: Config, r: RState, p: Parsed): ((RState, Option<Event>), bool)
    requires p.Complete?
  {
    if p.opcode == 0 then (HandleContinuation(cfg, r, p.payload, p.fin), true)
    else if p.opcode == 1 || p.opcode == 2 then (HandleData(cfg, r, p.payload, p.fin, p.opcode, p.rsv1), true)
    else if p.opcode == 8 then ((r, Some(HandleClose(p.payload))), true)
    else if p.opcode == 9 then
      ((r, Some(if |p.payload| > 125 then ProtocolError(1002, "Control frame payload too large") else Ping(p.payload))), true)
    else if p.opcode == 10 then ((r, None), true)
    else ((r, Some(ProtocolError(1002, "Unsupported opcode"))), false)
  }

  // ---------------------------------------------------------------------------
  // The receive loop as a function
  // ---------------------------------------------------------------------------

  /** Receiver, unread input, whether the owner is terminating, and the events so far. */
  datatype Rx = Rx(r: RState, buf: seq<byte>, done: bool, log: seq<Event>)

  /** One pass of the loop; None when the pass leaves without having done anything. */
  function Pass(cfg: Config, x: Rx): (y: Option<Rx>)
    ensures y.Some? ==> !x.done && (y.value.done || |y.value.buf| + 2 <= |x.buf|)
  {
    if x.done then None
    else
      var p := Parse(x.buf, cfg.compression);
      match p
      case Incomplete => None
      case Malformed(why) => Some(x.(done := true, log := x.log + [ProtocolError(1002, why)]))
      case Complete(_, _, _, _, need) =>
        var ((r, e), drained) := Dispatch(cfg, x.r, p);
        Some(Rx(r, if drained then x.buf[need..] else x.buf, Ends(e), x.log + Opt(e)))
  }

  function Drain(cfg: Config, x: Rx): Rx
    decreases if x.done then 0 else 1, |x.buf|
  {
    match Pass(cfg, x)
    case None => x
    case Some(y) => Drain(cfg, y)
  }

  // ---------------------------------------------------------------------------
  // The receiver object
  // ---------------------------------------------------------------------------

  class WebSocketReceiver {
    const sinks: Sinks
    var cfg: Config
    const utf8Validator: Utf8Validator
    var messageInProgress: bool
    var compressedMessageInProgress: bool
    var fragmentedOpcode: int
    var fragmentedMessage: seq<byte>
    var inflateContext: seq<seq<byte>>

    constructor (sinks: Sinks, cfg: Config)
      ensures this.sinks == sinks && this.cfg == cfg && fresh(utf8Validator)
      ensures State() == FRESH
    {
      this.sinks, this.cfg := sinks, cfg;
      utf8Validator := new Utf8Validator();
      messageInProgress, compressedMessageInProgress := false, false;
      fragmentedOpcode, fragmentedMessage, inflateContext := 0, [], [];
    }

    function State(): RState
      reads this, utf8Validator
    {
      RState(messageInProgress, compressedMessageInProgress, fragmentedOpcode, fragmentedMessage,
             utf8Validator.State(), inflateContext)
    }

    /** The outcome `out` of one frame is what this object and its owner now show. */
    twostate predicate Shows(new out: (RState, Option<Event>))
      reads this, utf8Validator, sinks
    {
      && cfg == old(cfg)
      && State() == out.0
      && sinks.log == old(sinks.log) + Opt(out.1)
      && sinks.terminating == (old(sinks.terminating) || Ends(out.1))
    }

    /** The outcome of the handshake's negotiation; the inflater starts afresh. */
    method InitializeCompression(cfg: Config)
      modifies this
      ensures this.cfg == cfg && State() == old(State()).(context := [])
    {
      this.cfg := cfg;
      inflateContext := [];
    }

    method DecompressMessage(data: seq<byte>) returns (out: Option<seq<byte>>)
      modifies this`inflateContext
      ensures out == Inflate(cfg, old(State()), data)
              == cfg.inflate(if cfg.noTakeover then [] else old(inflateContext), data)
      ensures out.Some? ==> inflateContext == if cfg.noTakeover then [] else old(inflateContext) + [data]
      ensures inflateContext == if out.Some? then ContextAfter(cfg, old(State()), data) else old(inflateContext)
    {
      out := cfg.inflate(if cfg.noTakeover then [] else inflateContext, data);
      if out.Some? {
        inflateContext := if cfg.noTakeover then [] else inflateContext + [data];
      }
    }

    method HandleContinuationFrame(payload: seq<byte>, fin: bool)
      modifies this, utf8Validator, sinks
      ensures Shows(HandleContinuation(cfg, old(State()), payload, fin))
    {
      if !messageInProgress {
        sinks.Notify(ProtocolError(1002, "continuation frame without initial frame"));
        return;
      }
      fragmentedMessage := fragmentedMessage + payload;
      if !compressedMessageInProgress && fragmentedOpcode == 1 {
        var ok := utf8Validator.ValidateChunk(payload);
        if !ok {
          utf8Validator.Reset();
          sinks.Notify(ProtocolError(1007, BAD_TEXT));
          return;
        }
      }
      if !fin { return; }
      if compressedMessageInProgress {
        var out := DecompressMessage(fragmentedMessage);
        if out.None? {
          utf8Validator.Reset();
          sinks.Notify(ProtocolError(1007, "Decompression failed"));
          return;
        }
        fragmentedMessage := out.value;
      }
      match fragmentedOpcode {
        case 1 =>
          var ok;
          if compressedMessageInProgress {
            utf8Validator.Reset();
            ok := utf8Validator.ValidateChunk(fragmentedMessage);
            if ok { ok := utf8Validator.ValidateFinal(); }
          } else {
            ok := utf8Validator.ValidateFinal();
          }
          if !ok {
            utf8Validator.Reset();
            sinks.Notify(ProtocolError(1007, BAD_TEXT));
            return;
          }
          utf8Validator.Reset();
          sinks.Notify(Text(fragmentedMessage));
        case 2 =>
          sinks.Notify(Binary(fragmentedMessage));
        case _ =>
          sinks.Notify(ProtocolError(1002, "Unknown fragmented opcode"));
          return;
      }
      messageInProgress := false;
      compressedMessageInProgress := false;
      fragmentedMessage := [];
      fragmentedOpcode := 0;
    }

    method HandleDataFrame(payload: seq<byte>, fin: bool, opcode: int, rsv1: bool)
      modifies this, utf8Validator, sinks
      ensures Shows(HandleData(cfg, old(State()), payload, fin, opcode, rsv1))
    {
      if messageInProgress {
        sinks.Notify(ProtocolError(1002, "Received new data frame when expecting continuation frame"));
        return;
      }
      var compressed := rsv1 && cfg.compression;
      if !fin {
        messageInProgress := true;
        fragmentedOpcode := opcode;
        fragmentedMessage := payload;
        compressedMessageInProgress := compressed;
        if opcode == 1 && !compressedMessageInProgress {
          utf8Validator.Reset();
          var ok := utf8Validator.ValidateChunk(payload);
          if !ok {
            utf8Validator.Reset();
            sinks.Notify(ProtocolError(1007, BAD_TEXT));
            return;
          }
        }
        return;
      }
      var data := payload;
      if compressed {
        var out := DecompressMessage(payload);
        if out.None? {
          sinks.Notify(ProtocolError(1007, "Decompression failed"));
          return;
        }
        data := out.value;
      }
      if opcode == 1 {
        utf8Validator.Reset();
        var ok := utf8Validator.ValidateChunk(data);
        if ok { ok := utf8Validator.ValidateFinal(); }
        if !ok {
          utf8Validator.Reset();
          sinks.Notify(ProtocolError(1007, BAD_TEXT));
          return;
        }
        FeedReachable(START, data);
        sinks.Notify(Text(data));
      } else if opcode == 2 {
        sinks.Notify(Binary(data));
      } else {
        sinks.Notify(ProtocolError(1002, "Unsupported opcode"));
      }
    }

    method HandleCloseFrame(payload: seq<byte>)
      modifies sinks
      ensures Shows((old(State()), Some(HandleClose(payload))))
      ensures sinks.log != [] && ReportsClose(payload, sinks.log[|sinks.log| - 1])
    {
      CloseIsReported(payload);
      hide ReportsClose;
      var closeCode := 1000;
      var closeReason: seq<byte> := [];
      var protocolError := false;
      if |payload| > 125 {
        closeCode := 1002;
        protocolError := true;
      } else if |payload| == 1 {
        closeCode := 1002;
        protocolError := true;
      } else if |payload| >= 2 {
        closeCode := BigEndian(payload[..2]);
        if !LegalCloseCode(closeCode) {
          closeCode := 1002;
          protocolError := true;
        }
        if |payload| > 2 {
          var reason := payload[2..];
          assert |reason| <= 123;  // so the source never cuts it there
          var ok := IsValidUtf8(reason);
          AcceptsIffValid(reason);
          if !ok {
            closeCode := 1002;
            protocolError := true;
          } else {
            closeReason := reason;
          }
        } else {
          assert payload[2..] == [];
        }
      }
      sinks.Notify(Close(if protocolError then 1002 else closeCode, if protocolError then [] else closeReason));
    }

    method HandlePingFrame(payload: seq<byte>)
      modifies sinks
      ensures Shows((old(State()), Some(if |payload| > 125 then ProtocolError(1002, "Control frame payload too large") else Ping(payload))))
    {
      if |payload| > 125 {
        sinks.Notify(ProtocolError(1002, "Control frame payload too large"));
        return;
      }
      sinks.Notify(Ping(payload));
    }

    /** Receiver, input and owner seen together. */
    function View(buf: EvBuffer): Rx
      reads this, utf8Validator, sinks, buf
    {
      Rx(State(), buf.data, sinks.terminating, sinks.log)
    }

    /** The checks a pass of the loop makes before it has a whole frame, in their order. */
    method ReadHead(buf: EvBuffer) returns (p: Parsed)
      ensures p == Parse(buf.data, cfg.compression)
    {
      var dataLen := |buf.data|;
      if dataLen < 2 { return Incomplete; }
      var fin := buf.data[0] / 128 == 1;
      var rsv1 := buf.data[0] / 64 % 2 == 1;
      var rsv2 := buf.data[0] / 32 % 2 == 1;
      var rsv3 := buf.data[0] / 16 % 2 == 1;
      var opcode := buf.data[0] % 16;
      var mask := buf.data[1] / 128 == 1;
      var payloadLen: nat := buf.data[1] % 128;
      if (!cfg.compression && rsv1) || rsv2 || rsv3 {
        return Malformed("Unexpected RSV bits");
      }
      if opcode / 8 == 1 && !fin {
        return Malformed("Control frame fragmented");
      }
      if mask {
        return Malformed("Masked frame from server");
      }
      var headerLen := 2;
      if payloadLen == 126 {
        if dataLen < headerLen + 2 { return Incomplete; }
        headerLen := headerLen + 2;
        payloadLen := BigEndian(buf.data[2..4]);
      } else if payloadLen == 127 {
        if dataLen < headerLen + 8 { return Incomplete; }
        headerLen := headerLen + 8;
        payloadLen := BigEndian(buf.data[2..10]);
      }
      if opcode / 8 == 1 && payloadLen > 125 {
        return Malformed("Control frame payload too large");
      }
      var need := headerLen + payloadLen;
      if dataLen < need { return Incomplete; }  // wait for the full frame
      return Complete(fin, rsv1, opcode, buf.data[headerLen..need], need);
    }

    /** The switch on the opcode. */
    method HandleFrame(p: Parsed) returns (drained: bool)
      requires p.Complete?
      modifies this, utf8Validator, sinks
      ensures Shows(Dispatch(cfg, old(State()), p).0)
      ensures drained == Dispatch(cfg, old(State()), p).1
    {
      drained := true;
      match p.opcode {
        case 0 => HandleContinuationFrame(p.payload, p.fin);
        case 1 => HandleDataFrame(p.payload, p.fin, p.opcode, p.rsv1);
        case 2 => HandleDataFrame(p.payload, p.fin, p.opcode, p.rsv1);
        case 8 => HandleCloseFrame(p.payload);
        case 9 => HandlePingFrame(p.payload);
        case 10 =>
        case _ =>
          sinks.Notify(ProtocolError(1002, "Unsupported opcode"));
          drained := false;
      }
    }

    /** The receive loop consumes as much of the buffer as it can. */
    method OnData(buf: EvBuffer)
      modifies this, utf8Validator, sinks, buf
      ensures cfg == old(cfg) && View(buf) == Drain(cfg, old(View(buf)))
    {
      while true
        invariant cfg == old(cfg)
        invariant Drain(cfg, View(buf)) == Drain(cfg, old(View(buf)))
        decreases if sinks.terminating then 0 else 1, |buf.data|
      {
        if sinks.terminating { return; }
        ghost var x := View(buf);
        var p := ReadHead(buf);
        match p {
          case Incomplete =>
            return;
          case Malformed(why) =>
            sinks.Notify(ProtocolError(1002, why));
            assert Pass(cfg, x) == Some(View(buf));
            return;
          case Complete(_, _, _, _, need) =>
            var drained := HandleFrame(p);
            if !drained {
              assert Pass(cfg, x) == Some(View(buf));
              return;
            }
            buf.Drain(need);
            assert Pass(cfg, x) == Some(View(buf));
        }
      }
    }
  }
}
