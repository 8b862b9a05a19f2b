/** The upgrade: the response headers are split off the stream and what follows is frame data (`handleRead`). */
module Handshake {
  import opened Bytes
  import opened Receiver
  import opened Chunking

  predicate BlankLineAt(bs: seq<byte>, i: nat) {
    i + 4 <= |bs| && bs[i] == 13 && bs[i + 1] == 10 && bs[i + 2] == 13 && bs[i + 3] == 10
  }

  /** Octets up to and including the first empty line, searching from `i`; 0 when there is none yet. */
  function HeaderBytes(bs: seq<byte>, i: nat): (h: nat)
    ensures h == 0 || i + 4 <= h <= |bs|
    decreases |bs| - i
  {
    if i + 4 > |bs| then 0
    else if BlankLineAt(bs, i) then i + 4
    else HeaderBytes(bs, i + 1)
  }

  /** CR LF CR LF ends before octet `h`. */
  predicate EmptyLineEnds(bs: seq<byte>, h: nat) {
    4 <= h <= |bs| && bs[h - 4..h] == [13, 10, 13, 10]
  }

  /** The headers take `h` octets. */
  predicate HeadersEnd(bs: seq<byte>, h: nat) {
    EmptyLineEnds(bs, h) && forall k | 0 <= k < h :: !EmptyLineEnds(bs, k)
  }

  lemma BlankLineIs(bs: seq<byte>, i: nat)
    ensures BlankLineAt(bs, i) <==> EmptyLineEnds(bs, i + 4)
  {
    if i + 4 <= |bs| {
      assert bs[i..i + 4] == [bs[i], bs[i + 1], bs[i + 2], bs[i + 3]];
    }
  }

  lemma {:induction false} HeaderBytesFrom(bs: seq<byte>, i: nat)
    requires forall k | 0 <= k < i + 4 :: !EmptyLineEnds(bs, k)
    ensures var h := HeaderBytes(bs, i); if h == 0 then forall k: nat :: !EmptyLineEnds(bs, k) else HeadersEnd(bs, h)
    decreases |bs| - i
  {
    if i + 4 <= |bs| {
      BlankLineIs(bs, i);
      if !BlankLineAt(bs, i) {
        HeaderBytesFrom(bs, i + 1);
      }
    }
  }

  /** Where the headers end is decided by the first CR LF CR LF. */
  lemma HeaderBytesIff(bs: seq<byte>, h: nat)
    ensures h > 0 ==> (HeaderBytes(bs, 0) == h <==> HeadersEnd(bs, h))
    ensures HeaderBytes(bs, 0) == 0 <==> forall k: nat :: !EmptyLineEnds(bs, k)
  {
    HeaderBytesFrom(bs, 0);
  }

  lemma {:induction false} HeaderStable(bs: seq<byte>, more: seq<byte>, i: nat)
    requires HeaderBytes(bs, i) != 0
    ensures HeaderBytes(bs + more, i) == HeaderBytes(bs, i)
    decreases |bs| - i
  {
    if !BlankLineAt(bs, i) {
      HeaderStable(bs, more, i + 1);
    }
  }

  /** What a client makes of the response headers: None when the upgrade is refused. */
  type Negotiation = seq<byte> -> Option<Config>

  /** The receiver's side of a connection; `cfg` is known from the upgrade on. */
  datatype Session = Session(rx: Rx, cfg: Option<Config>)

  /** One call of `handleRead`. A refused upgrade throws away everything that has arrived and stops. */
  function HandleRead(negotiate: Negotiation, s: Session): Session {
    match s.cfg
    case Some(cfg) => s.(rx := Drain(cfg, s.rx))
    case None =>
      var h := HeaderBytes(s.rx.buf, 0);
      if h == 0 then s
      else match negotiate(s.rx.buf[..h])
        case None => s.(rx := s.rx.(buf := [], done := true))
        case Some(cfg) => Session(Drain(cfg, s.rx.(buf := s.rx.buf[h..])), Some(cfg))
  }

  function Arrive(s: Session, more: seq<byte>): Session {
    s.(rx := More(s.rx, more))
  }

  function ReceiveReads(negotiate: Negotiation, s: Session, cuts: seq<seq<byte>>): Session
    decreases |cuts|
  {
    if cuts == [] then s else ReceiveReads(negotiate, HandleRead(negotiate, Arrive(s, cuts[0])), cuts[1..])
  }

  /** The headers are complete and the client refuses them. */
  predicate Refused(negotiate: Negotiation, s: Session) {
    s.cfg.None? && HeaderBytes(s.rx.buf, 0) != 0 && negotiate(s.rx.buf[..HeaderBytes(s.rx.buf, 0)]).None?
  }

  lemma ReadTwice(negotiate: Negotiation, s: Session, more: seq<byte>)
    requires !Refused(negotiate, s)
    ensures HandleRead(negotiate, Arrive(HandleRead(negotiate, s), more)) == HandleRead(negotiate, Arrive(s, more))
  {
    if s.cfg.Some? {
      DrainTwice(s.cfg.value, s.rx, more);
    } else {
      var h := HeaderBytes(s.rx.buf, 0);
      if h != 0 {
        HeaderStable(s.rx.buf, more, 0);
        var all := s.rx.buf + more;
        assert all[..h] == s.rx.buf[..h] && all[h..] == s.rx.buf[h..] + more;
        DrainTwice(negotiate(s.rx.buf[..h]).value, s.rx.(buf := s.rx.buf[h..]), more);
      }
    }
  }

  /** Once stopped, a session hears nothing more. */
  lemma {:induction false} Stopped(negotiate: Negotiation, s: Session, cuts: seq<seq<byte>>)
    requires s.rx.done
    ensures var y := ReceiveReads(negotiate, s, cuts); y.rx.done && y.rx.log == s.rx.log && y.rx.r == s.rx.r
    decreases |cuts|
  {
    if cuts != [] {
      Stopped(negotiate, HandleRead(negotiate, Arrive(s, cuts[0])), cuts[1..]);
    }
  }

  /** From the first octet of the response headers on, the cuts the network makes are invisible: what the
      owner hears never depends on them, and unless the upgrade is refused neither does anything else. */
  lemma {:induction false} HandshakeChunking(negotiate: Negotiation, s: Session, cuts: seq<seq<byte>>)
    requires HandleRead(negotiate, s) == s && !Refused(negotiate, s)
    ensures var y := ReceiveReads(negotiate, s, cuts);
      var whole := Arrive(s, Flatten(cuts));
      var z := HandleRead(negotiate, whole);
      && y.rx.log == z.rx.log && y.rx.r == z.rx.r && y.rx.done == z.rx.done
      && (!Refused(negotiate, whole) ==> y == z)
    decreases |cuts|
  {
    if cuts == [] {
      assert Arrive(s, []) == s;
    } else {
      var first := Arrive(s, cuts[0]);
      var rest := Flatten(cuts[1..]);
      var whole := Arrive(s, Flatten(cuts));
      ConcatAssoc(s.rx.buf, cuts[0], rest);
      assert Arrive(first, rest) == whole;
      if Refused(negotiate, first) {
        var h := HeaderBytes(first.rx.buf, 0);
        HeaderStable(first.rx.buf, rest, 0);
        assert whole.rx.buf[..h] == first.rx.buf[..h];
        Stopped(negotiate, HandleRead(negotiate, first), cuts[1..]);
      } else {
        var s1 := HandleRead(negotiate, first);
        ReadTwice(negotiate, first, []);
        assert Arrive(first, []) == first && Arrive(s1, []) == s1;
        ReadTwice(negotiate, first, rest);
        HandshakeChunking(negotiate, s1, cuts[1..]);
        if first.cfg.None? && HeaderBytes(first.rx.buf, 0) != 0 {
          HeaderStable(first.rx.buf, rest, 0);
          assert whole.rx.buf[..HeaderBytes(first.rx.buf, 0)] == first.rx.buf[..HeaderBytes(first.rx.buf, 0)];
        }
      }
    }
  }
}
