/** Downlink audio: a bounded play buffer that drops its oldest audio, a stash topped up from it, and frames
    taken off the stash (`onBinary`, `clearPlayback`, `stream_playback_frame`). */
module Playback {
  import opened Bytes
  import opened Arithmetic

  const CHUNK: nat := 4096

  function Min(a: nat, b: nat): nat { if a < b then a else b }

  // ---------------------------------------------------------------------------
  // What the three entry points do to the two buffers. The code never looks at a sample, so the element
  // type is left open: octets for the buffers themselves, positions in the stream for the order theorems.
  // ---------------------------------------------------------------------------

  /** Contents of the play buffer and of the stash. */
  datatype Audio<T> = Audio(play: seq<T>, stash: seq<T>) {
    /** Everything still to be played, in order. */
    function Queue(): seq<T> { stash + play }
  }

  /** Whole scratch buffers of the oldest audio are discarded until `len` fits or nothing is left. */
  function MakeRoom<T>(capacity: nat, play: seq<T>, len: nat): (r: seq<T>)
    requires |play| <= capacity
    decreases |play|
  {
    if capacity - |play| < len && |play| > 0 then MakeRoom(capacity, play[Min(CHUNK, |play|)..], len) else play
  }

  function Receive<T>(capacity: nat, play: seq<T>, data: seq<T>): seq<T>
    requires |play| <= capacity
  {
    var p := MakeRoom(capacity, play, |data|);
    if capacity - |p| >= |data| then p + data else p
  }

  /** The top-up loop: audio moves from the play buffer to the stash until a frame is there or no more comes. */
  function TopUp<T>(capacity: nat, a: Audio<T>, need: nat): Audio<T>
    requires |a.stash| <= capacity
    decreases |a.play|
  {
    if |a.stash| >= need || a.play == [] then a
    else
      var got := Min(CHUNK, |a.play|);
      var fits := Min(got, capacity - |a.stash|);
      var b := Audio(a.play[got..], a.stash + a.play[..fits]);
      if got < CHUNK then b else TopUp(capacity, b, need)
  }

  /** The audio that replaces a frame of `need` octets, if there is enough in the stash. */
  function TakeOut<T>(b: Audio<T>, need: nat): (Audio<T>, Option<seq<T>>) {
    if |b.stash| >= need then (b.(stash := b.stash[need..]), Some(b.stash[..need])) else (b, None)
  }

  function TakeFrame<T>(capacity: nat, a: Audio<T>, need: nat): (Audio<T>, Option<seq<T>>)
    requires |a.stash| <= capacity
  {
    TakeOut(TopUp(capacity, a, need), need)
  }

  // ---------------------------------------------------------------------------
  // Receiving: drop-oldest
  // ---------------------------------------------------------------------------

  lemma {:induction false} MakeRoomDrops<T>(capacity: nat, play: seq<T>, len: nat) returns (dropped: nat)
    requires |play| <= capacity
    ensures dropped <= |play| && MakeRoom(capacity, play, len) == play[dropped..]
    ensures len <= capacity ==> |play| - dropped + len <= capacity
    ensures len > capacity ==> dropped == |play|
    ensures dropped == 0 || dropped < |play| + len - capacity + CHUNK
    ensures |play| % 2 == 0 ==> dropped % 2 == 0
    decreases |play|
  {
    if capacity - |play| < len && |play| > 0 {
      var n := Min(CHUNK, |play|);
      var more := MakeRoomDrops(capacity, play[n..], len);
      dropped := n + more;
      assert play[n..][more..] == play[dropped..];
    } else {
      dropped := 0;
      assert play[0..] == play;
    }
  }

  /** A chunk is stored whole exactly when it fits the buffer at all. What was there keeps its newest part: at
      most 4095 octets more than necessary go, and an even number of them if lengths are even. A chunk larger
      than the buffer empties it and is lost. */
  lemma DropOldest<T>(capacity: nat, play: seq<T>, data: seq<T>) returns (dropped: nat)
    requires |play| <= capacity
    ensures dropped <= |play|
    ensures Receive(capacity, play, data) == if |data| <= capacity then play[dropped..] + data else []
    ensures |Receive(capacity, play, data)| <= capacity
    ensures |data| <= capacity ==>
      var excess := |play| + |data| - capacity;
      if excess <= 0 then dropped == 0 else excess <= dropped <= excess + CHUNK - 1
    ensures |play| % 2 == 0 ==> dropped % 2 == 0
  {
    dropped := MakeRoomDrops(capacity, play, |data|);
    if |play| + |data| <= capacity {
      dropped := 0;
      assert play[0..] == play;
    }
  }

  // ---------------------------------------------------------------------------
  // Playing: the two buffers are one queue
  // ---------------------------------------------------------------------------

  /** With room for a frame and a chunk, topping up moves audio without losing any, and stops short of a
      frame only when nothing is left to move. */
  lemma {:induction false} TopUpKeepsQueue<T>(capacity: nat, a: Audio<T>, need: nat)
    requires |a.stash| <= capacity && need + CHUNK - 1 <= capacity
    ensures var b := TopUp(capacity, a, need);
      && b.Queue() == a.Queue() && |b.stash| <= capacity
      && (|b.stash| >= need <==> |a.Queue()| >= need)
      && (|b.stash| < need ==> b.play == [])
      && (b == a || |b.stash| < need + CHUNK)
    decreases |a.play|
  {
    if |a.stash| < need && a.play != [] {
      var got := Min(CHUNK, |a.play|);
      var b := Audio(a.play[got..], a.stash + a.play[..got]);
      assert a.play == a.play[..got] + a.play[got..];
      ConcatAssoc(a.stash, a.play[..got], a.play[got..]);
      if got == CHUNK {
        TopUpKeepsQueue(capacity, b, need);
      }
    }
  }

  /** A frame is replaced exactly when the queue holds a full one, and then by the oldest audio. */
  lemma FrameTakesOldest<T>(capacity: nat, a: Audio<T>, need: nat)
    requires |a.stash| <= capacity && need + CHUNK - 1 <= capacity
    ensures var (b, out) := TakeFrame(capacity, a, need);
      && (out.Some? <==> |a.Queue()| >= need)
      && (out.Some? ==> out.value == a.Queue()[..need] && b.Queue() == a.Queue()[need..])
      && (out.None? ==> b.Queue() == a.Queue())
      && |b.stash| <= capacity && |b.play| <= |a.play|
  {
    TopUpKeepsQueue(capacity, a, need);
    TopUpShrinks(capacity, a, need);
    var b := TopUp(capacity, a, need);
    if |b.stash| >= need {
      assert b.Queue()[need..] == b.stash[need..] + b.play;
    }
  }

  lemma {:induction false} TopUpShrinks<T>(capacity: nat, a: Audio<T>, need: nat)
    requires |a.stash| <= capacity
    ensures |TopUp(capacity, a, need).play| <= |a.play| && |TopUp(capacity, a, need).stash| <= capacity
    decreases |a.play|
  {
    if |a.stash| < need && a.play != [] {
      var got := Min(CHUNK, |a.play|);
      var fits := Min(got, capacity - |a.stash|);
      if got == CHUNK {
        TopUpShrinks(capacity, Audio(a.play[got..], a.stash + a.play[..fits]), need);
      }
    }
  }

  /** In any case the stash gets the oldest audio, and loses none while it has room. */
  lemma {:induction false} TopUpKeepsOldest<T>(capacity: nat, a: Audio<T>, need: nat)
    requires |a.stash| <= capacity
    ensures var b := TopUp(capacity, a, need);
      && a.stash <= b.stash <= a.stash + a.play && |b.stash| <= capacity
      && (b.stash + b.play == a.stash + a.play || |b.stash| == capacity)
    decreases |a.play|
  {
    if |a.stash| < need && a.play != [] {
      var got := Min(CHUNK, |a.play|);
      var fits := Min(got, capacity - |a.stash|);
      var b := Audio(a.play[got..], a.stash + a.play[..fits]);
      assert a.play == a.play[..fits] + a.play[fits..];
      ConcatAssoc(a.stash, a.play[..fits], a.play[fits..]);
      if got == CHUNK {
        TopUpKeepsOldest(capacity, b, need);
      }
    }
  }

  /** What a frame is replaced by where audio is only copied and the stash has room for it and a chunk: the oldest of
      `queue`, all that was waiting, if that is enough for it. `left` is what waits afterwards. */
  predicate CopiedFrame<T(==)>(queue: seq<T>, frame: seq<T>, out: seq<T>, left: seq<T>) {
    if |queue| >= |frame| then out == queue[..|frame|] && left == queue[|frame|..] else out == frame && left == queue
  }

  /** No audio is lost between the buffers, whatever they hold, exactly when the stash has room for one octet
      less than a frame and a chunk. */
  ghost predicate NeverLoses(playCapacity: nat, stashCapacity: nat, need: nat) {
    forall a: Audio<nat> | |a.play| <= playCapacity && |a.stash| <= stashCapacity ::
      TopUp(stashCapacity, a, need).Queue() == a.Queue()
  }

  lemma NeverLosesIff(playCapacity: nat, stashCapacity: nat, need: nat)
    requires playCapacity >= CHUNK && need > 0
    ensures NeverLoses(playCapacity, stashCapacity, need) <==> need + 4095 <= stashCapacity
  {
    if need + CHUNK - 1 <= stashCapacity {
      forall a: Audio<nat> | |a.play| <= playCapacity && |a.stash| <= stashCapacity
        ensures TopUp(stashCapacity, a, need).Queue() == a.Queue()
      {
        TopUpKeepsQueue(stashCapacity, a, need);
      }
    } else {
      var a := Audio(seq(CHUNK, i => 0), seq(Min(need - 1, stashCapacity), i => 0));
      TopUpLoses(stashCapacity, a, need);
      assert |TopUp(stashCapacity, a, need).Queue()| < |a.Queue()|;
    }
  }

  lemma TopUpLoses(capacity: nat, a: Audio<nat>, need: nat)
    requires |a.stash| <= capacity && |a.stash| < need && |a.play| == CHUNK && |a.stash| + CHUNK > capacity
    ensures |TopUp(capacity, a, need).Queue()| < |a.Queue()|
  {
    var b := Audio(a.play[CHUNK..], a.stash + a.play[..capacity - |a.stash|]);
    assert b.play == [];
    assert TopUp(capacity, a, need) == TopUp(capacity, b, need) == b;
  }

  // ---------------------------------------------------------------------------
  // Topping up through a resampler
  // ---------------------------------------------------------------------------

  /** What a resampler makes of a chunk, given the chunks it has been fed since it was reset. */
  type Resampling<!T> = (seq<seq<T>>, seq<T>) -> seq<T>

  /** A resampler never makes more than `most` of a chunk. */
  ghost predicate AtMost<T(!new)>(f: Resampling<T>, most: nat) {
    forall fs, c :: |f(fs, c)| <= most
  }

  /** Each chunk goes through the resampler, and what comes out is stashed if it fits as a whole. */
  function TopUpThrough<T>(capacity: nat, a: Audio<T>, need: nat, f: Resampling<T>, fed: seq<seq<T>>): (Audio<T>, seq<seq<T>>)
    requires |a.stash| <= capacity
    decreases |a.play|
  {
    if |a.stash| >= need || a.play == [] then (a, fed)
    else
      var got := Min(CHUNK, |a.play|);
      var out := f(fed, a.play[..got]);
      var b := Audio(a.play[got..], if |out| <= capacity - |a.stash| then a.stash + out else a.stash);
      if got < CHUNK then (b, fed + [a.play[..got]])
      else TopUpThrough(capacity, b, need, f, fed + [a.play[..got]])
  }

  /** The resampler sees the audio in order, and with room for a frame and whatever comes out of one chunk, the stash
      gets all of its output, in order. */
  lemma {:induction false} ThroughKeepsAll<T(!new)>(capacity: nat, a: Audio<T>, need: nat, f: Resampling<T>, fed: seq<seq<T>>, most: nat)
    requires |a.stash| <= capacity && need + most <= capacity + 1
    requires AtMost(f, most)
    ensures var (b, fed') := TopUpThrough(capacity, a, need, f, fed);
      && fed <= fed' && Flatten(fed'[|fed|..]) + b.play == a.play
      && b.stash == a.stash + Outputs(f, fed, fed'[|fed|..])
    decreases |a.play|
  {
    if |a.stash| >= need || a.play == [] {
      assert fed[|fed|..] == [] && [] + a.play == a.play && a.stash + [] == a.stash;
    } else {
      var got := Min(CHUNK, |a.play|);
      var chunk := a.play[..got];
      var out := f(fed, chunk);
      var b := Audio(a.play[got..], a.stash + out);
      assert a.play == chunk + b.play;
      if got < CHUNK {
        OneChunk(f, fed, chunk);
        assert (fed + [chunk])[|fed|..] == [chunk];
      } else {
        ThroughKeepsAll(capacity, b, need, f, fed + [chunk], most);
        var (d, fed') := TopUpThrough(capacity, b, need, f, fed + [chunk]);
        var later := fed'[|fed| + 1..];
        assert fed'[|fed|..] == [chunk] + later && ([chunk] + later)[1..] == later;
        ConcatAssoc(chunk, Flatten(later), d.play);
        ConcatAssoc(a.stash, out, Outputs(f, fed + [chunk], later));
      }
    }
  }

  /** What comes out for a series of chunks. */
  function Outputs<T>(f: Resampling<T>, fed: seq<seq<T>>, chunks: seq<seq<T>>): seq<T>
    decreases |chunks|
  {
    if chunks == [] then [] else f(fed, chunks[0]) + Outputs(f, fed + [chunks[0]], chunks[1..])
  }

  lemma OneChunk<T>(f: Resampling<T>, fed: seq<seq<T>>, chunk: seq<T>)
    ensures Outputs(f, fed, [chunk]) == f(fed, chunk) && Flatten([chunk]) == chunk
  {
    assert [chunk][1..] == [] && f(fed, chunk) + [] == f(fed, chunk) && chunk + [] == chunk;
  }

  /** A frame whose audio is resampled: with room as above, it is replaced by the front of what was stashed and of what
      comes out for the chunks fed to the resampler, which are the oldest audio, if that is enough for it. */
  lemma ResampledFrame<T(!new)>(capacity: nat, a: Audio<T>, need: nat, f: Resampling<T>, fed: seq<seq<T>>, most: nat)
    requires |a.stash| <= capacity && need + most <= capacity + 1 && AtMost(f, most)
    ensures var (b, fed') := TopUpThrough(capacity, a, need, f, fed);
      var (c, out) := TakeOut(b, need);
      && fed <= fed' && Flatten(fed'[|fed|..]) + c.play == a.play
      && var made := a.stash + Outputs(f, fed, fed'[|fed|..]);
      if |made| >= need then out == Some(made[..need]) && c.stash == made[need..] else out == None && c.stash == made
  {
    ThroughKeepsAll(capacity, a, need, f, fed, most);
    hide TopUpThrough, Outputs, Flatten;
  }

  lemma {:induction false} ThroughShrinks<T>(capacity: nat, a: Audio<T>, need: nat, f: Resampling<T>, fed: seq<seq<T>>)
    requires |a.stash| <= capacity
    ensures var b := TopUpThrough(capacity, a, need, f, fed).0; |b.play| <= |a.play| && |b.stash| <= capacity
    decreases |a.play|
  {
    if |a.stash| < need && a.play != [] {
      var got := Min(CHUNK, |a.play|);
      var out := f(fed, a.play[..got]);
      var b := Audio(a.play[got..], if |out| <= capacity - |a.stash| then a.stash + out else a.stash);
      if got == CHUNK {
        ThroughShrinks(capacity, b, need, f, fed + [a.play[..got]]);
      }
    }
  }

  // ---------------------------------------------------------------------------
  // Whole runs
  // ---------------------------------------------------------------------------

  /** `Retune` is a change of the frame rate: it empties the stash and starts the resampler afresh. `Resampled` is a
      frame whose audio goes through the resampler `f`. */
  datatype Op<!T> = Arrive(data: seq<T>) | Clear | Retune | Frame(need: nat) | Resampled(need: nat, f: Resampling<T>)

  /** `fed` is what the resampler has been fed since it started afresh. */
  datatype Player<T> = Player(audio: Audio<T>, fed: seq<seq<T>>, played: seq<T>)

  lemma ReceiveFits<T>(capacity: nat, play: seq<T>, data: seq<T>)
    requires |play| <= capacity
    ensures |Receive(capacity, play, data)| <= capacity
  {
    var _ := DropOldest(capacity, play, data);
  }

  /** Capacities of the play buffer and of the stash. */
  datatype Sizes = Sizes(play: nat, stash: nat)

  predicate Within<T>(k: Sizes, a: Audio<T>) {
    |a.play| <= k.play && |a.stash| <= k.stash
  }

  function Step<T>(k: Sizes, p: Player<T>, op: Op<T>): (r: Player<T>)
    requires Within(k, p.audio)
    ensures Within(k, r.audio)
  {
    match op
    case Arrive(data) =>
      ReceiveFits(k.play, p.audio.play, data);
      p.(audio := p.audio.(play := Receive(k.play, p.audio.play, data)))
    case Clear => Player(Audio([], []), [], p.played)
    case Retune => Player(p.audio.(stash := []), [], p.played)
    case Frame(need) =>
      TopUpShrinks(k.stash, p.audio, need);
      var (a, out) := TakeFrame(k.stash, p.audio, need);
      Player(a, p.fed, if out.Some? then p.played + out.value else p.played)
    case Resampled(need, f) =>
      ThroughShrinks(k.stash, p.audio, need, f, p.fed);
      var (b, fed) := TopUpThrough(k.stash, p.audio, need, f, p.fed);
      var (a, out) := TakeOut(b, need);
      Player(a, fed, if out.Some? then p.played + out.value else p.played)
  }

  function Run<T>(k: Sizes, p: Player<T>, ops: seq<Op<T>>): (r: Player<T>)
    requires Within(k, p.audio)
    ensures Within(k, r.audio)
    decreases |ops|
  {
    if |ops| == 0 then p else Run(k, Step(k, p, ops[0]), ops[1..])
  }

  function Received<T>(ops: seq<Op<T>>): seq<T> {
    if |ops| == 0 then []
    else if ops[0].Arrive? then ops[0].data + Received(ops[1..])
    else Received(ops[1..])
  }

  /** No clear, no change of rate or resampling, no chunk that overflows the play buffer, every frame small enough for the stash. */
  predicate Undisturbed<T>(k: Sizes, p: Player<T>, ops: seq<Op<T>>)
    requires Within(k, p.audio)
    decreases |ops|
  {
    if |ops| == 0 then true
    else
      && (match ops[0]
          case Arrive(data) => |p.audio.play| + |data| <= k.play
          case Clear => false
          case Retune => false
          case Resampled(_, _) => false
          case Frame(need) => need + CHUNK - 1 <= k.stash)
      && Undisturbed(k, Step(k, p, ops[0]), ops[1..])
  }

  /** Conservation: in an undisturbed run what has been played and what is queued are, in order, exactly what
      was received; in particular the played audio is a prefix of the received audio. */
  lemma {:induction false} PlayedIsPrefix<T>(k: Sizes, p: Player<T>, ops: seq<Op<T>>)
    requires Within(k, p.audio) && Undisturbed(k, p, ops)
    ensures var q := Run(k, p, ops);
      q.played + q.audio.Queue() == p.played + p.audio.Queue() + Received(ops)
    decreases |ops|
  {
    if |ops| == 0 {
      assert p.played + p.audio.Queue() + [] == p.played + p.audio.Queue();
    } else {
      var q := Step(k, p, ops[0]);
      PlayedIsPrefix(k, q, ops[1..]);
      match ops[0] {
        case Arrive(data) =>
          assert q.audio.Queue() == p.audio.Queue() + data;
          ConcatAssoc(p.played, p.audio.Queue(), data);
          ConcatAssoc(p.played + p.audio.Queue(), data, Received(ops[1..]));
        case Frame(need) =>
          FrameTakesOldest(k.stash, p.audio, need);
          var out := TakeFrame(k.stash, p.audio, need).1;
          if out.Some? {
            assert p.audio.Queue() == out.value + q.audio.Queue();
            ConcatAssoc(p.played, out.value, q.audio.Queue());
          }
      }
    }
  }

  /** Less than a frame, or less than a chunk, or less than the resampler makes of one. */
  predicate Little<T>(stash: seq<T>, need: nat, most: nat) {
    |stash| < need || |stash| < CHUNK || |stash| < most
  }

  lemma {:induction false} TopUpStops<T>(capacity: nat, a: Audio<T>, need: nat)
    requires |a.stash| <= capacity
    ensures var b := TopUp(capacity, a, need); b == a || |b.stash| < need + CHUNK
    decreases |a.play|
  {
    if |a.stash| < need && a.play != [] {
      var got := Min(CHUNK, |a.play|);
      var fits := Min(got, capacity - |a.stash|);
      if got == CHUNK { TopUpStops(capacity, Audio(a.play[got..], a.stash + a.play[..fits]), need); }
    }
  }

  lemma {:induction false} ThroughStops<T(!new)>(capacity: nat, a: Audio<T>, need: nat, f: Resampling<T>, fed: seq<seq<T>>, most: nat)
    requires |a.stash| <= capacity && AtMost(f, most)
    ensures var b := TopUpThrough(capacity, a, need, f, fed).0; b == a || |b.stash| < need + most || |b.stash| < need
    decreases |a.play|
  {
    if |a.stash| < need && a.play != [] {
      var got := Min(CHUNK, |a.play|);
      var out := f(fed, a.play[..got]);
      var b := Audio(a.play[got..], if |out| <= capacity - |a.stash| then a.stash + out else a.stash);
      if got == CHUNK { ThroughStops(capacity, b, need, f, fed + [a.play[..got]], most); }
    }
  }

  lemma FrameLeavesLittle<T(!new)>(k: Sizes, p: Player<T>, op: Op<T>, need: nat, most: nat)
    requires Within(k, p.audio) && 0 < need && Little(p.audio.stash, need, most)
    requires op == Frame(need) || (op.Resampled? && op.need == need && AtMost(op.f, most))
    ensures Little(Step(k, p, op).audio.stash, need, most)
  {
    if op.Frame? {
      TopUpStops(k.stash, p.audio, need);
    } else {
      ThroughStops(k.stash, p.audio, need, op.f, p.fed, most);
    }
  }

  /** All frames of a run have one size, and its resamplers never make more than `most` of a chunk. */
  ghost predicate FixedFrames<T(!new)>(ops: seq<Op<T>>, need: nat, most: nat) {
    && (forall i | 0 <= i < |ops| && ops[i].Frame? :: ops[i].need == need)
    && (forall i | 0 <= i < |ops| && ops[i].Resampled? :: ops[i].need == need && AtMost(ops[i].f, most))
  }

  /** For a fixed frame size, whatever arrives, overflows, is cleared, retuned or resampled, what stays in the stash is
      after any run again less than a frame, a chunk, or the most the resampler makes of one. */
  lemma {:induction false} Residue<T(!new)>(k: Sizes, p: Player<T>, ops: seq<Op<T>>, need: nat, most: nat)
    requires Within(k, p.audio) && FixedFrames(ops, need, most) && 0 < need && Little(p.audio.stash, need, most)
    ensures Little(Run(k, p, ops).audio.stash, need, most)
    decreases |ops|
  {
    if |ops| > 0 {
      hide AtMost;
      if ops[0].Frame? || ops[0].Resampled? { FrameLeavesLittle(k, p, ops[0], need, most); }
      assert FixedFrames(ops[1..], need, most);
      Residue(k, Step(k, p, ops[0]), ops[1..], need, most);
    }
  }

  /** No frame of the run is resampled. */
  predicate Copied<T>(ops: seq<Op<T>>) {
    forall i | 0 <= i < |ops| :: !ops[i].Resampled?
  }

  /** Without resampling that is less than a frame or less than 4096 octets, from an empty stash on. */
  lemma ResidueCopied<T(!new)>(k: Sizes, play: seq<T>, ops: seq<Op<T>>, need: nat)
    requires |play| <= k.play && Copied(ops) && 0 < need
    requires forall i | 0 <= i < |ops| && ops[i].Frame? :: ops[i].need == need
    ensures var stash := Run(k, Player(Audio(play, []), [], []), ops).audio.stash; |stash| < need || |stash| < CHUNK
  {
    Residue(k, Player(Audio(play, []), [], []), ops, need, 0);
  }

  // ---------------------------------------------------------------------------
  // Any run: order, no duplicates, and nothing from before a clear
  // ---------------------------------------------------------------------------

  /** Audio named by its position in the received stream. */
  function Positions(from: nat, n: nat): seq<nat> {
    seq(n, i requires 0 <= i => from + i)
  }

  /** The chunks of a run carry the stream from position `from` on. */
  predicate Labelled(ops: seq<Op<nat>>, from: nat)
    decreases |ops|
  {
    if |ops| == 0 then true
    else if ops[0].Arrive? then ops[0].data == Positions(from, |ops[0].data|) && Labelled(ops[1..], from + |ops[0].data|)
    else Labelled(ops[1..], from)
  }

  lemma {:induction false} TopUpAscends(capacity: nat, a: Audio<nat>, need: nat, lo: nat, hi: nat)
    requires |a.stash| <= capacity && Ascending(a.Queue(), lo, hi)
    ensures Ascending(TopUp(capacity, a, need).Queue(), lo, hi)
    decreases |a.play|
  {
    if |a.stash| < need && a.play != [] {
      var got := Min(CHUNK, |a.play|);
      var fits := Min(got, capacity - |a.stash|);
      var b := Audio(a.play[got..], a.stash + a.play[..fits]);
      assert a.play == a.play[..fits] + (a.play[fits..got] + a.play[got..]);
      ConcatAssoc(a.stash, a.play[..fits], a.play[fits..got] + a.play[got..]);
      AscendingWithout(a.stash + a.play[..fits], a.play[fits..got], a.play[got..], lo, hi);
      if got == CHUNK {
        TopUpAscends(capacity, b, need, lo, hi);
      }
    }
  }

  /** What has been played since the last clear and what is queued lie in stream order between `lo`, the
      position of the clear, and the end of what has arrived. */
  predicate InOrder(p: Player<nat>, before: nat, lo: nat, hi: nat) {
    before <= |p.played| && lo <= hi && Ascending(p.played[before..] + p.audio.Queue(), lo, hi)
  }

  lemma AppendPositions(s: seq<nat>, n: nat, lo: nat, hi: nat)
    requires lo <= hi && Ascending(s, lo, hi)
    ensures Ascending(s + Positions(hi, n), lo, hi + n)
  {
  }

  /** New audio goes behind what survives of the play buffer. */
  lemma ReceiveInOrder(capacity: nat, front: seq<nat>, play: seq<nat>, n: nat, lo: nat, hi: nat)
    requires |play| <= capacity && lo <= hi && Ascending(front + play, lo, hi)
    ensures Ascending(front + Receive(capacity, play, Positions(hi, n)), lo, hi + n)
  {
    var data := Positions(hi, n);
    var dropped := DropOldest(capacity, play, data);
    hide Receive;
    assert play == play[..dropped] + play[dropped..] == play + [];
    if n <= capacity {
      AscendingWithout(front, play[..dropped], play[dropped..], lo, hi);
      AppendPositions(front + play[dropped..], n, lo, hi);
      ConcatAssoc(front, play[dropped..], data);
    } else {
      AscendingWithout(front, play, [], lo, hi);
    }
  }

  lemma StepInOrder(k: Sizes, p: Player<nat>, op: Op<nat>, before: nat, lo: nat, hi: nat)
    requires Within(k, p.audio) && InOrder(p, before, lo, hi)
    requires !op.Resampled? && (op.Arrive? ==> op.data == Positions(hi, |op.data|))
    ensures InOrder(Step(k, p, op), before, lo, if op.Arrive? then hi + |op.data| else hi)
    ensures p.played <= Step(k, p, op).played
  {
    var recent := p.played[before..];
    var q := Step(k, p, op);
    hide Ascending;
    match op {
      case Arrive(data) =>
        ConcatAssoc(recent, p.audio.stash, p.audio.play);
        ReceiveInOrder(k.play, recent + p.audio.stash, p.audio.play, |data|, lo, hi);
        hide Receive;
        ConcatAssoc(recent, p.audio.stash, q.audio.play);
      case Frame(need) =>
        TopUpTail(k.stash, p.audio, need, recent, lo, hi);
        var b := TopUp(k.stash, p.audio, need);
        if |b.stash| >= need {
          var out := b.stash[..need];
          assert b.Queue() == out + q.audio.Queue();
          assert q.played[before..] == recent + out;
          ConcatAssoc(recent, out, q.audio.Queue());
        }
      case Clear =>
        AscendingWithout(recent, p.audio.Queue(), [], lo, hi) by {
          assert p.audio.Queue() + [] == p.audio.Queue();
        }
        assert q.audio.Queue() == [];
      case Retune =>
        AscendingWithout(recent, p.audio.stash, p.audio.play, lo, hi);
        assert q.audio.Queue() == p.audio.play;
    }
  }

  /** Topping up with what was already played in front. */
  lemma TopUpTail(capacity: nat, a: Audio<nat>, need: nat, front: seq<nat>, lo: nat, hi: nat)
    requires |a.stash| <= capacity && Ascending(front + a.Queue(), lo, hi)
    ensures Ascending(front + TopUp(capacity, a, need).Queue(), lo, hi)
  {
    hide TopUp;
    if front == [] {
      assert [] + a.Queue() == a.Queue();
      TopUpAscends(capacity, a, need, lo, hi);
      assert front + TopUp(capacity, a, need).Queue() == TopUp(capacity, a, need).Queue();
    } else {
      var mid := front[|front| - 1] + 1;
      AscendingParts(front, a.Queue(), lo, hi);
      TopUpAscends(capacity, a, need, mid, hi);
      AscendingJoin(front, TopUp(capacity, a, need).Queue(), lo, hi);
    }
  }

  lemma AscendingParts(a: seq<nat>, b: seq<nat>, lo: nat, hi: nat)
    requires a != [] && Ascending(a + b, lo, hi)
    ensures Ascending(a, lo, hi) && Ascending(b, a[|a| - 1] + 1, hi)
  {
    var s := a + b;
    assert forall i | 0 <= i < |b| :: b[i] == s[|a| + i];
    assert forall i | 0 <= i < |a| :: a[i] == s[i];
  }

  lemma AscendingJoin(a: seq<nat>, b: seq<nat>, lo: nat, hi: nat)
    requires a != [] && Ascending(a, lo, hi) && Ascending(b, a[|a| - 1] + 1, hi)
    ensures Ascending(a + b, lo, hi)
  {
  }

  /** Unless it is resampled, audio is never played out of order or twice, whatever overflows and however often it is
      cleared. */
  lemma {:induction false} RunInOrder(k: Sizes, p: Player<nat>, ops: seq<Op<nat>>, before: nat, lo: nat, hi: nat)
    requires Within(k, p.audio) && InOrder(p, before, lo, hi) && Labelled(ops, hi) && Copied(ops)
    ensures InOrder(Run(k, p, ops), before, lo, hi + |Received(ops)|) && p.played <= Run(k, p, ops).played
    decreases |ops|
  {
    if |ops| > 0 {
      assert Copied(ops[1..]);
      StepInOrder(k, p, ops[0], before, lo, hi);
      RunInOrder(k, Step(k, p, ops[0]), ops[1..], before, lo,
                 if ops[0].Arrive? then hi + |ops[0].data| else hi);
    }
  }

  /** After a clear at stream position `here`, in a run without resampling, whatever was queued, however much overflows
      later and however often it is cleared again, all audio played is received after the clear, each position at most
      once and in order. */
  lemma PlayedInOrder(k: Sizes, p: Player<nat>, here: nat, ops: seq<Op<nat>>)
    requires Within(k, p.audio) && Labelled(ops, here) && Copied(ops)
    ensures var q := Run(k, Step(k, p, Clear), ops);
      p.played <= q.played && Ascending(q.played[|p.played|..], here, here + |Received(ops)|)
  {
    var c := Step(k, p, Clear);
    assert c.played[|p.played|..] + c.audio.Queue() == [];
    RunInOrder(k, c, ops, |p.played|, here, here);
    var q := Run(k, c, ops);
    var recent, queue := q.played[|p.played|..], q.audio.Queue();
    assert queue + [] == queue && recent + [] == recent;
    AscendingWithout(recent, queue, [], here, here + |Received(ops)|);
  }

  /** What the resampler has been fed and what is still to come, in stream order. */
  predicate FedInOrder(p: Player<nat>, lo: nat, hi: nat) {
    lo <= hi && Ascending(Flatten(p.fed) + p.audio.play, lo, hi)
  }

  lemma {:induction false} ThroughFeedsInOrder(capacity: nat, a: Audio<nat>, need: nat, f: Resampling<nat>, fed: seq<seq<nat>>)
    requires |a.stash| <= capacity
    ensures var (b, fed') := TopUpThrough(capacity, a, need, f, fed);
      Flatten(fed') + b.play == Flatten(fed) + a.play
    decreases |a.play|
  {
    if |a.stash| < need && a.play != [] {
      var got := Min(CHUNK, |a.play|);
      var chunk := a.play[..got];
      var out := f(fed, chunk);
      var b := Audio(a.play[got..], if |out| <= capacity - |a.stash| then a.stash + out else a.stash);
      assert a.play == chunk + b.play;
      FlattenConcat(fed, [chunk]);
      assert Flatten([chunk]) == chunk + [] == chunk;
      ConcatAssoc(Flatten(fed), chunk, b.play);
      if got == CHUNK { ThroughFeedsInOrder(capacity, b, need, f, fed + [chunk]); }
    }
  }

  lemma {:induction false} TopUpDropsFront<T>(capacity: nat, a: Audio<T>, need: nat) returns (n: nat)
    requires |a.stash| <= capacity
    ensures n <= |a.play| && TopUp(capacity, a, need).play == a.play[n..]
    decreases |a.play|
  {
    n := 0;
    if |a.stash| < need && a.play != [] {
      var got := Min(CHUNK, |a.play|);
      var fits := Min(got, capacity - |a.stash|);
      n := got;
      if got == CHUNK {
        var more := TopUpDropsFront(capacity, Audio(a.play[got..], a.stash + a.play[..fits]), need);
        assert a.play[got..][more..] == a.play[got + more..];
        n := got + more;
      }
    }
  }

  lemma StepFeedsInOrder(k: Sizes, p: Player<nat>, op: Op<nat>, lo: nat, hi: nat)
    requires Within(k, p.audio) && FedInOrder(p, lo, hi)
    requires op.Arrive? ==> op.data == Positions(hi, |op.data|)
    ensures FedInOrder(Step(k, p, op), lo, if op.Arrive? then hi + |op.data| else hi)
  {
    var fed, play := Flatten(p.fed), p.audio.play;
    hide Ascending;
    match op {
      case Arrive(data) => ReceiveInOrder(k.play, fed, play, |data|, lo, hi);
      case Clear =>
        assert fed + play == [] + ((fed + play) + []);
        AscendingWithout([], fed + play, [], lo, hi);
      case Retune =>
        assert fed + play == [] + (fed + play) && [] + play == play;
        AscendingWithout([], fed, play, lo, hi);
      case Frame(need) =>
        var n := TopUpDropsFront(k.stash, p.audio, need);
        assert play == play[..n] + play[n..];
        AscendingWithout(fed, play[..n], play[n..], lo, hi);
      case Resampled(need, f) => ThroughFeedsInOrder(k.stash, p.audio, need, f, p.fed);
    }
  }

  lemma {:induction false} RunFeedsInOrder(k: Sizes, p: Player<nat>, ops: seq<Op<nat>>, lo: nat, hi: nat)
    requires Within(k, p.audio) && FedInOrder(p, lo, hi) && Labelled(ops, hi)
    ensures FedInOrder(Run(k, p, ops), lo, hi + |Received(ops)|)
    decreases |ops|
  {
    if |ops| > 0 {
      StepFeedsInOrder(k, p, ops[0], lo, hi);
      RunFeedsInOrder(k, Step(k, p, ops[0]), ops[1..], lo, if ops[0].Arrive? then hi + |ops[0].data| else hi);
    }
  }

  /** After a clear at stream position `here`, over any run, the resampler is fed only audio received after the clear,
      each position at most once and in order. */
  lemma FedAfterClear(k: Sizes, p: Player<nat>, here: nat, ops: seq<Op<nat>>)
    requires Within(k, p.audio) && Labelled(ops, here)
    ensures Ascending(Flatten(Run(k, Step(k, p, Clear), ops).fed), here, here + |Received(ops)|)
  {
    RunFeedsInOrder(k, Step(k, p, Clear), ops, here, here);
    var q := Run(k, Step(k, p, Clear), ops);
    var fed, play := Flatten(q.fed), q.audio.play;
    assert fed + play == fed + (play + []) && fed + [] == fed;
    AscendingWithout(fed, play, [], here, here + |Received(ops)|);
  }

  /** Playing does not look at what was played before. */
  lemma {:induction false} PlaysOn<T>(k: Sizes, p: Player<T>, before: seq<T>, ops: seq<Op<T>>)
    requires Within(k, p.audio)
    ensures Run(k, p.(played := before + p.played), ops) ==
            var q := Run(k, p, ops); q.(played := before + q.played)
    decreases |ops|
  {
    if |ops| > 0 {
      var q := Step(k, p, ops[0]);
      match ops[0] {
        case Frame(need) =>
          var out := TakeFrame(k.stash, p.audio, need).1;
          if out.Some? { ConcatAssoc(before, p.played, out.value); }
        case Resampled(need, f) =>
          var out := TakeOut(TopUpThrough(k.stash, p.audio, need, f, p.fed).0, need).1;
          if out.Some? { ConcatAssoc(before, p.played, out.value); }
        case _ =>
      }
      assert Step(k, p.(played := before + p.played), ops[0]) == q.(played := before + q.played);
      PlaysOn(k, q, before, ops[1..]);
    }
  }

  /** Nothing received before a clear is ever played after it, not even as a trace a resampler keeps: whatever happens
      after the clear, what is then played, queued and fed is the same as if nothing had been received before. */
  lemma NothingFromBeforeClear<T>(k: Sizes, p: Player<T>, ops: seq<Op<T>>)
    requires Within(k, p.audio)
    ensures var anew := Run(k, Player(Audio([], []), [], []), ops);
      Run(k, Step(k, p, Clear), ops) == anew.(played := p.played + anew.played)
  {
    PlaysOn(k, Player(Audio([], []), [], []), p.played, ops);
    assert p.played + [] == p.played;
  }

  // ---------------------------------------------------------------------------
  // The same run over octets: the code does not look at what it moves
  // ---------------------------------------------------------------------------

  function Map<T, U>(f: T -> U, s: seq<T>): (r: seq<U>)
    ensures |r| == |s|
  {
    seq(|s|, i requires 0 <= i < |s| => f(s[i]))
  }

  function MapAudio<T, U>(f: T -> U, a: Audio<T>): Audio<U> {
    Audio(Map(f, a.play), Map(f, a.stash))
  }

  function MapAll<T, U>(f: T -> U, ss: seq<seq<T>>): (r: seq<seq<U>>)
    ensures |r| == |ss|
  {
    seq(|ss|, i requires 0 <= i < |ss| => Map(f, ss[i]))
  }

  function MapPlayer<T, U>(f: T -> U, p: Player<T>): Player<U> {
    Player(MapAudio(f, p.audio), MapAll(f, p.fed), Map(f, p.played))
  }

  /** One resampler does to the images what the other does to the originals. */
  ghost predicate Commutes<T(!new), U>(f: T -> U, r: Resampling<T>, r': Resampling<U>) {
    forall fs, c :: r'(MapAll(f, fs), Map(f, c)) == Map(f, r(fs, c))
  }

  ghost predicate OpMaps<T(!new), U>(f: T -> U, op: Op<T>, op': Op<U>) {
    match op
    case Arrive(data) => op' == Arrive(Map(f, data))
    case Clear => op' == Clear
    case Retune => op' == Retune
    case Frame(need) => op' == Frame(need)
    case Resampled(need, r) => op'.Resampled? && op'.need == need && Commutes(f, r, op'.f)
  }

  ghost predicate OpsMap<T(!new), U>(f: T -> U, ops: seq<Op<T>>, ops': seq<Op<U>>) {
    |ops'| == |ops| && forall i | 0 <= i < |ops| :: OpMaps(f, ops[i], ops'[i])
  }

  lemma MapConcat<T, U>(f: T -> U, a: seq<T>, b: seq<T>)
    ensures Map(f, a + b) == Map(f, a) + Map(f, b)
  {
  }

  lemma MapSlice<T, U>(f: T -> U, s: seq<T>, i: nat, j: nat)
    requires i <= j <= |s|
    ensures Map(f, s[i..j]) == Map(f, s)[i..j]
  {
  }

  lemma {:induction false} MakeRoomMaps<T, U>(f: T -> U, capacity: nat, play: seq<T>, len: nat)
    requires |play| <= capacity
    ensures MakeRoom(capacity, Map(f, play), len) == Map(f, MakeRoom(capacity, play, len))
    decreases |play|
  {
    if capacity - |play| < len && |play| > 0 {
      var n := Min(CHUNK, |play|);
      assert Map(f, play)[n..] == Map(f, play[n..]);
      MakeRoomMaps(f, capacity, play[n..], len);
    }
  }

  lemma {:induction false} TopUpMaps<T, U>(f: T -> U, capacity: nat, a: Audio<T>, need: nat)
    requires |a.stash| <= capacity
    ensures TopUp(capacity, MapAudio(f, a), need) == MapAudio(f, TopUp(capacity, a, need))
    decreases |a.play|
  {
    if |a.stash| < need && a.play != [] {
      var got := Min(CHUNK, |a.play|);
      var fits := Min(got, capacity - |a.stash|);
      var b := Audio(a.play[got..], a.stash + a.play[..fits]);
      assert Map(f, a.play)[got..] == Map(f, b.play);
      assert Map(f, a.stash) + Map(f, a.play)[..fits] == Map(f, b.stash);
      if got == CHUNK {
        TopUpMaps(f, capacity, b, need);
      }
    }
  }

  lemma {:induction false} ThroughMaps<T(!new), U>(
      f: T -> U, capacity: nat, a: Audio<T>, need: nat, r: Resampling<T>, r': Resampling<U>, fed: seq<seq<T>>)
    requires |a.stash| <= capacity && Commutes(f, r, r')
    ensures var (b, fed') := TopUpThrough(capacity, a, need, r, fed);
      TopUpThrough(capacity, MapAudio(f, a), need, r', MapAll(f, fed)) == (MapAudio(f, b), MapAll(f, fed'))
    decreases |a.play|
  {
    if |a.stash| < need && a.play != [] {
      var got := Min(CHUNK, |a.play|);
      var chunk := a.play[..got];
      var out := r(fed, chunk);
      var b := Audio(a.play[got..], if |out| <= capacity - |a.stash| then a.stash + out else a.stash);
      assert Map(f, a.play)[..got] == Map(f, chunk) && Map(f, a.play)[got..] == Map(f, b.play);
      MapConcat(f, a.stash, out);
      assert MapAll(f, fed) + [Map(f, chunk)] == MapAll(f, fed + [chunk]);
      if got == CHUNK {
        ThroughMaps(f, capacity, b, need, r, r', fed + [chunk]);
      }
    }
  }

  lemma TakeOutMaps<T, U>(f: T -> U, b: Audio<T>, need: nat)
    ensures var (a, out) := TakeOut(b, need);
      TakeOut(MapAudio(f, b), need) == (MapAudio(f, a), if out.Some? then Some(Map(f, out.value)) else None)
  {
    if |b.stash| >= need {
      MapSlice(f, b.stash, 0, need);
      MapSlice(f, b.stash, need, |b.stash|);
      assert b.stash[0..need] == b.stash[..need] && Map(f, b.stash)[0..need] == Map(f, b.stash)[..need];
      assert b.stash[need..|b.stash|] == b.stash[need..];
      assert Map(f, b.stash)[need..|b.stash|] == Map(f, b.stash)[need..];
    }
  }

  lemma StepMaps<T(!new), U>(f: T -> U, k: Sizes, p: Player<T>, op: Op<T>, op': Op<U>)
    requires Within(k, p.audio) && OpMaps(f, op, op')
    ensures Step(k, MapPlayer(f, p), op') == MapPlayer(f, Step(k, p, op))
  {
    match op {
      case Arrive(data) =>
        MakeRoomMaps(f, k.play, p.audio.play, |data|);
        MapConcat(f, MakeRoom(k.play, p.audio.play, |data|), data);
      case Clear =>
      case Retune =>
      case Frame(need) =>
        TopUpMaps(f, k.stash, p.audio, need);
        var b := TopUp(k.stash, p.audio, need);
        TakeOutMaps(f, b, need);
        if |b.stash| >= need { MapConcat(f, p.played, b.stash[..need]); }
      case Resampled(need, r) =>
        ThroughMaps(f, k.stash, p.audio, need, r, op'.f, p.fed);
        var b := TopUpThrough(k.stash, p.audio, need, r, p.fed).0;
        TakeOutMaps(f, b, need);
        if |b.stash| >= need { MapConcat(f, p.played, b.stash[..need]); }
    }
  }

  /** A run over any audio is the run over its positions, read back: so the order theorems are about octets. */
  lemma {:induction false} RunMaps<T(!new), U>(f: T -> U, k: Sizes, p: Player<T>, ops: seq<Op<T>>, ops': seq<Op<U>>)
    requires Within(k, p.audio) && OpsMap(f, ops, ops')
    ensures Run(k, MapPlayer(f, p), ops') == MapPlayer(f, Run(k, p, ops))
    decreases |ops|
  {
    if |ops| > 0 {
      StepMaps(f, k, p, ops[0], ops'[0]);
      RunMaps(f, k, Step(k, p, ops[0]), ops[1..], ops'[1..]);
    }
  }

  // ---------------------------------------------------------------------------
  // The objects
  // ---------------------------------------------------------------------------

  /** A byte FIFO of fixed capacity; a write that does not fit writes nothing. */
  class SwitchBuffer {
    const capacity: nat
    var data: seq<byte>

    ghost predicate Valid()
      reads this
    {
      |data| <= capacity
    }

    constructor (capacity: nat)
      ensures Valid() && this.capacity == capacity && data == []
    {
      this.capacity := capacity;
      data := [];
    }

    function Inuse(): nat
      reads this
    {
      |data|
    }

    function Freespace(): nat
      requires Valid()
      reads this
    {
      capacity - |data|
    }

    method Read(n: nat) returns (got: seq<byte>)
      requires Valid()
      modifies this
      ensures Valid() && got == old(data)[..Min(n, |old(data)|)] && data == old(data)[Min(n, |old(data)|)..]
    {
      var k := if n < |data| then n else |data|;
      got := data[..k];
      data := data[k..];
    }

    method Write(bytes: seq<byte>)
      requires Valid()
      modifies this
      ensures Valid() && data == if |bytes| <= capacity - |old(data)| then old(data) + bytes else old(data)
    {
      if |bytes| <= capacity - |data| {
        data := data + bytes;
      }
    }

    method Zero()
      modifies this
      ensures Valid() && data == []
    {
      data := [];
    }
  }

  function FrameOp(r: Option<Resampling<byte>>, need: nat): Op<byte> {
    match r
    case None => Frame(need)
    case Some(f) => Resampled(need, f)
  }

  /** One call's playback state; every method runs under the play mutex. */
  class PlaybackState {
    const playBuffer: SwitchBuffer
    const dlStash: SwitchBuffer
    const sampling: int
    const speex: (int, int, int) -> Option<Resampling<byte>>  // channels and rates; None when it cannot be set up
    var dlRate: int
    var dlResampler: Option<Resampling<byte>>
    var fed: seq<seq<byte>>  // what the resampler has seen since it was reset
    var replaced: nat
    var underruns: nat
    var cleanupStarted: bool

    constructor (playCapacity: nat, stashCapacity: nat, sampling: int, speex: (int, int, int) -> Option<Resampling<byte>>)
      ensures Valid() && fresh(playBuffer) && fresh(dlStash) && View() == Audio([], [])
      ensures playBuffer.capacity == playCapacity && dlStash.capacity == stashCapacity
      ensures this.sampling == sampling && this.speex == speex && dlRate == 0 && dlResampler == None && replaced == underruns == 0 && !cleanupStarted
    {
      this.sampling, this.speex := sampling, speex;
      dlResampler, fed := None, [];
      playBuffer := new SwitchBuffer(playCapacity);
      dlStash := new SwitchBuffer(stashCapacity);
      dlRate, replaced, underruns, cleanupStarted := 0, 0, 0, false;
    }

    ghost predicate Valid()
      reads this, playBuffer, dlStash
    {
      playBuffer != dlStash && playBuffer.Valid() && dlStash.Valid()
    }

    function View(): Audio<byte>
      reads this, playBuffer, dlStash
    {
      Audio(playBuffer.data, dlStash.data)
    }

    /** The player of the runs above, before anything is played. */
    function Deck(): Player<byte>
      reads this, playBuffer, dlStash
    {
      Player(View(), fed, [])
    }

    function Capacities(): Sizes {
      Sizes(playBuffer.capacity, dlStash.capacity)
    }

    method OnBinary(data: seq<byte>)
      requires Valid()
      modifies playBuffer
      ensures Valid() && Deck() == if cleanupStarted then old(Deck()) else Step(Capacities(), old(Deck()), Arrive(data))
    {
      if cleanupStarted { return; }
      while playBuffer.Freespace() < |data| && playBuffer.Inuse() > 0
        invariant Valid()
        invariant MakeRoom(playBuffer.capacity, playBuffer.data, |data|) ==
                  MakeRoom(playBuffer.capacity, old(playBuffer.data), |data|)
        decreases |playBuffer.data|
      {
        var _ := playBuffer.Read(Min(CHUNK, playBuffer.Inuse()));
      }
      if playBuffer.Freespace() >= |data| {
        playBuffer.Write(data);
      }
    }

    method ClearPlayback()
      requires Valid()
      modifies this`fed, playBuffer, dlStash
      ensures Valid() && Deck() == Step(Capacities(), old(Deck()), Clear) && playBuffer.data == dlStash.data == []
    {
      playBuffer.Zero();
      dlStash.Zero();
      fed := [];
    }

    /** Topping up the stash, without resampling. */
    method TopUpStash(need: nat)
      requires Valid()
      modifies playBuffer, dlStash
      ensures Valid() && View() == TopUp(dlStash.capacity, old(View()), need)
    {
      while dlStash.Inuse() < need
        invariant Valid()
        invariant TopUp(dlStash.capacity, View(), need) == TopUp(dlStash.capacity, old(View()), need)
        decreases |playBuffer.data|
      {
        var inuse := playBuffer.Inuse();
        if inuse == 0 { break; }
        ghost var a := View();
        var got := playBuffer.Read(Min(CHUNK, inuse));
        if |got| <= dlStash.Freespace() {
          dlStash.Write(got);
        } else {
          dlStash.Write(got[..dlStash.Freespace()]);  // the stash is full: the oldest audio wins
        }
        ghost var fits := Min(|got|, dlStash.capacity - |a.stash|);
        assert got[..fits] == a.play[..fits];
        assert View() == Audio(a.play[|got|..], a.stash + a.play[..fits]);
        if |got| < CHUNK {
          assert TopUp(dlStash.capacity, View(), need) == View();
          break;
        }
      }
    }

    /** Topping up the stash through the resampler. */
    method TopUpResampled(need: nat, f: Resampling<byte>)
      requires Valid()
      modifies this`fed, playBuffer, dlStash
      ensures Valid() && (View(), fed) == TopUpThrough(dlStash.capacity, old(View()), need, f, old(fed))
    {
      while dlStash.Inuse() < need
        invariant Valid()
        invariant TopUpThrough(dlStash.capacity, View(), need, f, fed) ==
                  TopUpThrough(dlStash.capacity, old(View()), need, f, old(fed))
        decreases |playBuffer.data|
      {
        var inuse := playBuffer.Inuse();
        if inuse == 0 { break; }
        ghost var a := View();
        var got := playBuffer.Read(Min(CHUNK, inuse));
        var out := f(fed, got);
        fed := fed + [got];
        if |out| > 0 && |out| <= dlStash.Freespace() {
          dlStash.Write(out);
        }
        assert a.stash + [] == a.stash;
        if |got| < CHUNK {
          assert TopUpThrough(dlStash.capacity, View(), need, f, fed) == (View(), fed);
          break;
        }
      }
    }

    /** The rate of the frames has changed: the stash is emptied, and a resampler set up if the rates differ. */
    method Retune(rate: int, channels: int)
      requires Valid()
      modifies this`dlRate, this`dlResampler, this`fed, dlStash
      ensures Valid() && dlRate == rate && Deck() == Step(Capacities(), old(Deck()), Op.Retune)
      ensures fed == [] && dlStash.data == [] && playBuffer.data == old(playBuffer.data)
      ensures dlResampler == if rate != sampling then speex(channels, sampling, rate) else None
    {
      dlResampler, fed := None, [];
      dlRate := rate;
      dlStash.Zero();
      if rate != sampling {
        dlResampler := speex(channels, sampling, rate);
      }
    }

    /** The frame about to be written to the caller, replaced by queued audio when there is a full frame. */
    method StreamPlaybackFrame(frame: seq<byte>, rate: int, channels: int) returns (out: seq<byte>)
      requires Valid()
      modifies this, playBuffer, dlStash
      ensures Valid() && cleanupStarted == old(cleanupStarted) && |out| == |frame|
      ensures cleanupStarted || frame == [] || rate == 0 ==>
        out == frame && View() == old(View()) && replaced == old(replaced) && underruns == old(underruns)
      ensures !cleanupStarted && frame != [] && rate != 0 ==>
        var tuned := if old(dlRate) != rate then Step(Capacities(), old(Deck()), Op.Retune) else old(Deck());
        var p := Step(Capacities(), tuned, FrameOp(dlResampler, |frame|));
        && dlRate == rate
        && dlResampler == (if old(dlRate) == rate then old(dlResampler)
                           else if rate != sampling then speex(if channels > 0 then channels else 1, sampling, rate) else None)
        && Deck() == p.(played := [])
        && out == (if p.played == [] then frame else p.played)
        && replaced == old(replaced) + (if p.played == [] then 0 else 1)
        && underruns == old(underruns) + (if p.played == [] then 1 else 0)
      // a change of the rate discards what was stashed
      ensures !cleanupStarted && frame != [] && rate != 0 && dlResampler == None && |frame| + 4095 <= dlStash.capacity ==>
        CopiedFrame((if old(dlRate) != rate then [] else old(dlStash.data)) + old(playBuffer.data), frame, out,
                    dlStash.data + playBuffer.data)
    {
      if cleanupStarted { return frame; }
      if frame == [] || rate == 0 { return frame; }
      if dlRate != rate {
        Retune(rate, if channels > 0 then channels else 1);
      }
      out := ReplaceFrame(frame);
    }

    /** Topping up and taking the frame. */
    method ReplaceFrame(frame: seq<byte>) returns (out: seq<byte>)
      requires Valid() && frame != []
      modifies this`fed, this`replaced, this`underruns, playBuffer, dlStash
      ensures Valid() && |out| == |frame|
      ensures var p := Step(Capacities(), old(Deck()), FrameOp(dlResampler, |frame|));
        && Deck() == p.(played := [])
        && out == (if p.played == [] then frame else p.played)
        && replaced == old(replaced) + (if p.played == [] then 0 else 1)
        && underruns == old(underruns) + (if p.played == [] then 1 else 0)
      ensures dlResampler == None && |frame| + 4095 <= dlStash.capacity ==>
        CopiedFrame(old(dlStash.data) + old(playBuffer.data), frame, out, dlStash.data + playBuffer.data)
    {
      if dlResampler == None && |frame| + 4095 <= dlStash.capacity {
        FrameTakesOldest(dlStash.capacity, View(), |frame|);
      }
      hide TopUp, TopUpThrough;
      var need := |frame|;
      match dlResampler {
        case None => TopUpStash(need);
        case Some(f) => TopUpResampled(need, f);
      }
      if dlStash.Inuse() >= need {
        out := dlStash.Read(need);
        replaced := replaced + 1;
        assert [] + out == out;
      } else {
        out := frame;
        underruns := underruns + 1;
      }
    }
  }
}
