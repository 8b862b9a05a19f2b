/** However the network cuts the octet stream into reads, the receiver does the same. */
module Chunking {
  import opened Bytes
  import opened EvBuffers
  import opened Receiver

  function More(x: Rx, more: seq<byte>): Rx {
    x.(buf := x.buf + more)
  }

  /** The header and payload of a frame that is complete do not depend on what follows it. */
  lemma ParseStable(bs: seq<byte>, more: seq<byte>, compression: bool)
    requires !Parse(bs, compression).Incomplete?
    ensures Parse(bs + more, compression) == Parse(bs, compression)
  {
    var all := bs + more;
    assert all[0] == bs[0] && all[1] == bs[1];
    if |bs| >= 4 { assert all[2..4] == bs[2..4]; }
    if |bs| >= 10 { assert all[2..10] == bs[2..10]; }
    if Parse(bs, compression).Complete? {
      var p := Parse(bs, compression);
      assert all[p.need - |p.payload|..p.need] == bs[p.need - |p.payload|..p.need];
    }
  }

  lemma PassStable(cfg: Config, x: Rx, more: seq<byte>)
    requires Pass(cfg, x).Some?
    ensures Pass(cfg, More(x, more)) == Some(More(Pass(cfg, x).value, more))
  {
    ParseStable(x.buf, more, cfg.compression);
    var p := Parse(x.buf, cfg.compression);
    if p.Complete? {
      assert (x.buf + more)[p.need..] == x.buf[p.need..] + more;
    }
  }

  /** Reading some, draining, reading more and draining again is reading all of it and draining once. */
  lemma {:induction false} DrainTwice(cfg: Config, x: Rx, more: seq<byte>)
    ensures Drain(cfg, More(Drain(cfg, x), more)) == Drain(cfg, More(x, more))
    decreases if x.done then 0 else 1, |x.buf|
  {
    if Pass(cfg, x).Some? {
      PassStable(cfg, x, more);
      DrainTwice(cfg, Pass(cfg, x).value, more);
    }
  }

  /** One network read after the other, each followed by the receive loop. */
  function Receive(cfg: Config, x: Rx, cuts: seq<seq<byte>>): Rx
    decreases |cuts|
  {
    if cuts == [] then x else Receive(cfg, Drain(cfg, More(x, cuts[0])), cuts[1..])
  }

  lemma {:induction false} DrainIdempotent(cfg: Config, x: Rx)
    ensures Drain(cfg, Drain(cfg, x)) == Drain(cfg, x)
    decreases if x.done then 0 else 1, |x.buf|
  {
    if Pass(cfg, x).Some? {
      DrainIdempotent(cfg, Pass(cfg, x).value);
    }
  }

  /** Chunking independence: the events, the receiver's state, the unread octets and whether the receiver
      has stopped are those of a single read of the whole stream. */
  lemma {:induction false} ChunkingIndependence(cfg: Config, x: Rx, cuts: seq<seq<byte>>)
    requires Drain(cfg, x) == x
    ensures Receive(cfg, x, cuts) == Drain(cfg, More(x, Flatten(cuts)))
    decreases |cuts|
  {
    if cuts == [] {
      assert More(x, []) == x;
    } else {
      var rest := Flatten(cuts[1..]);
      DrainIdempotent(cfg, More(x, cuts[0]));
      ChunkingIndependence(cfg, Drain(cfg, More(x, cuts[0])), cuts[1..]);
      DrainTwice(cfg, More(x, cuts[0]), rest);
      ConcatAssoc(x.buf, cuts[0], rest);
    }
  }

  /** Two ways of cutting the same stream cannot be told apart. */
  lemma SameStreamSameResult(cfg: Config, x: Rx, cuts: seq<seq<byte>>, cuts': seq<seq<byte>>)
    requires Drain(cfg, x) == x && Flatten(cuts) == Flatten(cuts')
    ensures Receive(cfg, x, cuts) == Receive(cfg, x, cuts')
  {
    ChunkingIndependence(cfg, x, cuts);
    ChunkingIndependence(cfg, x, cuts');
  }

  /** The receiver object under a series of reads behaves as if it had been given the whole stream. */
  method ReceiveAll(receiver: WebSocketReceiver, buf: EvBuffer, cuts: seq<seq<byte>>)
    requires Drain(receiver.cfg, receiver.View(buf)) == receiver.View(buf)
    modifies receiver, receiver.utf8Validator, receiver.sinks, buf
    ensures receiver.View(buf) == Drain(old(receiver.cfg), old(More(receiver.View(buf), Flatten(cuts))))
  {
    ghost var cfg, x := receiver.cfg, receiver.View(buf);
    ChunkingIndependence(cfg, x, cuts);
    for i := 0 to |cuts|
      invariant receiver.cfg == cfg
      invariant Receive(cfg, receiver.View(buf), cuts[i..]) == Receive(cfg, x, cuts)
    {
      assert cuts[i..][1..] == cuts[i + 1..];
      buf.Add(cuts[i]);
      receiver.OnData(buf);
    }
  }
}
