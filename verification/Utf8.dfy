/** The UTF-8 encoding of RFC 3629, section 3, as a relation between octets and Unicode scalar values. */
module Utf8 {
  import opened Bytes

  /** A code point that is not a surrogate half. */
  type Scalar = c: int | 0 <= c <= 0x10FFFF && !(0xD800 <= c <= 0xDFFF)

  /** The table of RFC 3629, section 3. */
  function EncodeScalar(c: Scalar): seq<byte> {
    if c < 0x80 then [c]
    else if c < 0x800 then [0xC0 + c / 64, 0x80 + c % 64]
    else if c < 0x10000 then [0xE0 + c / 4096, 0x80 + c / 64 % 64, 0x80 + c % 64]
    else [0xF0 + c / 262144, 0x80 + c / 4096 % 64, 0x80 + c / 64 % 64, 0x80 + c % 64]
  }

  function EncodeScalars(cs: seq<Scalar>): seq<byte> {
    if cs == [] then [] else EncodeScalar(cs[0]) + EncodeScalars(cs[1..])
  }

  /** The octets are the encoding of some sequence of Unicode scalar values. */
  ghost predicate ValidUtf8(bs: seq<byte>) {
    exists cs: seq<Scalar> :: EncodeScalars(cs) == bs
  }

  // ---------------------------------------------------------------------------
  // The streaming automaton
  // ---------------------------------------------------------------------------

  /** What the validator remembers between octets. */
  datatype VState = VState(expected: int, seenE0: bool, seenED: bool, seenF0: bool, seenF4: bool)

  const START := VState(0, false, false, false, false)

  /** One octet: the state it leaves behind, and whether the octet was acceptable. */
  function FeedByte(s: VState, b: byte): (VState, bool) {
    if s.expected == 0 then
      if b < 0x80 then (s, true)
      else if b / 32 == 0x6 then
        if b < 0xC2 || b > 0xDF then (s, false) else (s.(expected := 1), true)
      else if b / 16 == 0xE then
        (s.(seenE0 := b == 0xE0, seenED := b == 0xED, expected := 2), true)
      else if b / 8 == 0x1E then
        var t := s.(seenF0 := b == 0xF0, seenF4 := b == 0xF4);
        if b < 0xF0 || b > 0xF4 then (t, false) else (t.(expected := 3), true)
      else (s, false)
    else if b / 64 != 0x2 then (s, false)
    else if s.seenE0 && s.expected == 2 && b < 0xA0 then (s, false)
    else if s.seenED && s.expected == 2 && b > 0x9F then (s, false)
    else if s.seenF0 && s.expected == 3 && b < 0x90 then (s, false)
    else if s.seenF4 && s.expected == 3 && b > 0x8F then (s, false)
    else if s.expected == 1 then (START, true)
    else (s.(expected := s.expected - 1), true)
  }

  /** A run of octets; feeding stops at the first unacceptable one. */
  function Feed(s: VState, bs: seq<byte>): (VState, bool)
    decreases |bs|
  {
    if bs == [] then (s, true)
    else
      var (t, ok) := FeedByte(s, bs[0]);
      if ok then Feed(t, bs[1..]) else (t, false)
  }

  /** The automaton accepts `bs` as a whole text. */
  predicate Accepts(bs: seq<byte>) {
    var (t, ok) := Feed(START, bs);
    ok && t.expected == 0
  }

  lemma {:induction false} FeedConcat(s: VState, a: seq<byte>, b: seq<byte>)
    ensures Feed(s, a + b) == if Feed(s, a).1 then Feed(Feed(s, a).0, b) else Feed(s, a)
    decreases |a|
  {
    if a == [] {
      assert a + b == b;
    } else {
      assert (a + b)[1..] == a[1..] + b;
      FeedConcat(FeedByte(s, a[0]).0, a[1..], b);
    }
  }

  /** Feeding the chunks of a text one after the other, giving up at the first failure. */
  function FeedChunks(s: VState, chunks: seq<seq<byte>>): (VState, bool)
    decreases |chunks|
  {
    if chunks == [] then (s, true)
    else
      var (t, ok) := Feed(s, chunks[0]);
      if ok then FeedChunks(t, chunks[1..]) else (t, false)
  }

  /** How a text is cut into chunks makes no difference. */
  lemma {:induction false} FeedChunksIsFeed(s: VState, chunks: seq<seq<byte>>)
    ensures FeedChunks(s, chunks) == Feed(s, Flatten(chunks))
    decreases |chunks|
  {
    if chunks != [] {
      FeedConcat(s, chunks[0], Flatten(chunks[1..]));
      FeedChunksIsFeed(Feed(s, chunks[0]).0, chunks[1..]);
    }
  }

  // ---------------------------------------------------------------------------
  // The automaton accepts exactly UTF-8
  // ---------------------------------------------------------------------------

  lemma FeedOne(s: VState, bs: seq<byte>)
    requires bs != []
    ensures Feed(s, bs) ==
      if FeedByte(s, bs[0]).1 then Feed(FeedByte(s, bs[0]).0, bs[1..]) else (FeedByte(s, bs[0]).0, false)
  {
  }

  lemma FeedTwo(s: VState, b0: byte, b1: byte, rest: seq<byte>)
    requires FeedByte(s, b0).1 && FeedByte(FeedByte(s, b0).0, b1).1
    ensures Feed(s, [b0, b1] + rest) == Feed(FeedByte(FeedByte(s, b0).0, b1).0, rest)
  {
    hide Feed, FeedByte;
    var bs := [b0, b1] + rest;
    FeedOne(s, bs);
    FeedOne(FeedByte(s, b0).0, bs[1..]);
    assert bs[1..][1..] == rest;
  }

  /** A whole character takes the automaton back to its start state. */
  lemma FeedScalar(c: Scalar, rest: seq<byte>)
    ensures Feed(START, EncodeScalar(c) + rest) == Feed(START, rest)
  {
    hide Feed;
    var e := EncodeScalar(c);
    var bs := e + rest;
    if |e| == 1 {
      FeedOne(START, bs);
      assert bs[1..] == rest;
    } else if |e| == 2 {
      FeedTwo(START, e[0], e[1], rest);
    } else if |e| == 3 {
      FeedTwo(START, e[0], e[1], [e[2]] + rest);
      assert bs == [e[0], e[1]] + ([e[2]] + rest) && ([e[2]] + rest)[1..] == rest;
      FeedOne(FeedByte(FeedByte(START, e[0]).0, e[1]).0, [e[2]] + rest);
    } else {
      FeedTwo(START, e[0], e[1], [e[2], e[3]] + rest);
      assert bs == [e[0], e[1]] + ([e[2], e[3]] + rest);
      FeedTwo(FeedByte(FeedByte(START, e[0]).0, e[1]).0, e[2], e[3], rest);
    }
  }

  lemma {:induction false} EncodedIsAccepted(cs: seq<Scalar>)
    ensures Feed(START, EncodeScalars(cs)) == (START, true)
  {
    if cs != [] {
      FeedScalar(cs[0], EncodeScalars(cs[1..]));
      EncodedIsAccepted(cs[1..]);
    }
  }

  /** Octets of the character that starts with lead octet `b`. */
  function LeadLength(b: byte): nat {
    if b < 0x80 then 1 else if b < 0xE0 then 2 else if b < 0xF0 then 3 else 4
  }

  predicate IsContinuation(b: byte) { b / 64 == 2 }

  /** Acceptance of a text as seen from its first character. */
  lemma AcceptsFirst(bs: seq<byte>)
    requires bs != []
    ensures Accepts(bs) <==>
      var n := LeadLength(bs[0]);
      && n <= |bs|
      && !(0x80 <= bs[0] < 0xC2) && bs[0] <= 0xF4
      && (forall i :: 1 <= i < n ==> IsContinuation(bs[i]))
      && (bs[0] == 0xE0 ==> bs[1] >= 0xA0)
      && (bs[0] == 0xED ==> bs[1] < 0xA0)
      && (bs[0] == 0xF0 ==> bs[1] >= 0x90)
      && (bs[0] == 0xF4 ==> bs[1] <= 0x8F)
      && Accepts(bs[n..])
  {
    var n := LeadLength(bs[0]);
    FeedOne(START, bs);
    var s1 := FeedByte(START, bs[0]).0;
    var b1 := bs[1..];
    if n >= 2 && FeedByte(START, bs[0]).1 && b1 != [] {
      FeedOne(s1, b1);
      var s2 := FeedByte(s1, b1[0]).0;
      var b2 := b1[1..];
      assert b2 == bs[2..];
      if n >= 3 && FeedByte(s1, b1[0]).1 && b2 != [] {
        FeedOne(s2, b2);
        var s3 := FeedByte(s2, b2[0]).0;
        assert b2[1..] == bs[3..];
        if n == 4 && FeedByte(s2, b2[0]).1 && bs[3..] != [] {
          FeedOne(s3, bs[3..]);
          assert bs[3..][1..] == bs[4..];
        }
      }
    }
  }

  /** The scalar value carried by two, three or four octets of the accepted shapes. */
  lemma DecodeTwo(b0: int, b1: int) returns (c: Scalar)
    requires 0xC2 <= b0 <= 0xDF && 0x80 <= b1 < 0xC0
    ensures EncodeScalar(c) == [b0, b1]
  {
    c := (b0 - 0xC0) * 64 + (b1 - 0x80);
  }

  lemma DecodeThree(b0: int, b1: int, b2: int) returns (c: Scalar)
    requires 0xE0 <= b0 <= 0xEF && 0x80 <= b1 < 0xC0 && 0x80 <= b2 < 0xC0
    requires (b0 == 0xE0 ==> b1 >= 0xA0) && (b0 == 0xED ==> b1 < 0xA0)
    ensures EncodeScalar(c) == [b0, b1, b2]
  {
    var m := (b0 - 0xE0) * 64 + (b1 - 0x80);
    c := m * 64 + (b2 - 0x80);
    assert c / 64 == m && c / 4096 == m / 64;
  }

  lemma DecodeFour(b0: int, b1: int, b2: int, b3: int) returns (c: Scalar)
    requires 0xF0 <= b0 <= 0xF4 && 0x80 <= b1 < 0xC0 && 0x80 <= b2 < 0xC0 && 0x80 <= b3 < 0xC0
    requires (b0 == 0xF0 ==> b1 >= 0x90) && (b0 == 0xF4 ==> b1 <= 0x8F)
    ensures EncodeScalar(c) == [b0, b1, b2, b3]
  {
    var m := (b0 - 0xF0) * 64 + (b1 - 0x80);
    var k := m * 64 + (b2 - 0x80);
    c := k * 64 + (b3 - 0x80);
    assert c / 64 == k && c / 4096 == k / 64 == m && c / 262144 == m / 64;
  }

  /** An accepted non-empty text starts with one encoded scalar value, and what follows is accepted too. */
  lemma FirstScalar(bs: seq<byte>) returns (c: Scalar, n: nat)
    requires bs != [] && Accepts(bs)
    ensures 1 <= n <= |bs| && bs[..n] == EncodeScalar(c) && Accepts(bs[n..])
  {
    n := LeadLength(bs[0]);
    AcceptsFirst(bs);
    if n == 1 {
      c := bs[0];
    } else {
      assert IsContinuation(bs[1]);
      if n == 2 {
        c := DecodeTwo(bs[0], bs[1]);
      } else {
        assert IsContinuation(bs[2]);
        if n == 3 {
          c := DecodeThree(bs[0], bs[1], bs[2]);
        } else {
          assert IsContinuation(bs[3]);
          c := DecodeFour(bs[0], bs[1], bs[2], bs[3]);
        }
      }
    }
  }

  lemma {:induction false} AcceptedDecodes(bs: seq<byte>) returns (cs: seq<Scalar>)
    requires Accepts(bs)
    ensures EncodeScalars(cs) == bs
    decreases |bs|
  {
    if bs == [] {
      cs := [];
    } else {
      var c, n := FirstScalar(bs);
      var rest := AcceptedDecodes(bs[n..]);
      cs := [c] + rest;
      assert bs == bs[..n] + bs[n..];
    }
  }

  /** The automaton accepts exactly the encodings of sequences of Unicode scalar values. */
  lemma AcceptsIffValid(bs: seq<byte>)
    ensures Accepts(bs) <==> ValidUtf8(bs)
  {
    if Accepts(bs) {
      var cs := AcceptedDecodes(bs);
      assert EncodeScalars(cs) == bs;
    }
    if ValidUtf8(bs) {
      var cs :| EncodeScalars(cs) == bs;
      EncodedIsAccepted(cs);
    }
  }

  // ---------------------------------------------------------------------------
  // Failure is detected at the first octet that makes the text hopeless
  // ---------------------------------------------------------------------------

  /** Some continuation of `bs` is valid UTF-8. */
  ghost predicate Viable(bs: seq<byte>) {
    exists rest: seq<byte> :: ValidUtf8(bs + rest)
  }

  /** The states the automaton can be in after acceptable octets. */
  predicate Reachable(s: VState) {
    && 0 <= s.expected <= 3
    && (s.expected == 0 ==> s == START)
    && !(s.seenE0 && s.seenED) && !(s.seenF0 && s.seenF4)
    && (s.expected == 3 ==> !s.seenE0 && !s.seenED)
  }

  lemma {:induction false} FeedReachable(s: VState, bs: seq<byte>)
    requires Reachable(s) && Feed(s, bs).1
    ensures Reachable(Feed(s, bs).0)
    decreases |bs|
  {
    if bs != [] {
      FeedReachable(FeedByte(s, bs[0]).0, bs[1..]);
    }
  }

  /** Continuation octets that complete a pending character. */
  lemma Completion(s: VState) returns (rest: seq<byte>)
    requires Reachable(s)
    ensures Feed(s, rest) == (START, true)
    decreases s.expected
  {
    if s.expected == 0 {
      rest := [];
    } else {
      var b := if s.seenE0 && s.expected == 2 then 0xA0 else if s.seenF0 && s.expected == 3 then 0x90 else 0x80;
      var tail := Completion(FeedByte(s, b).0);
      rest := [b] + tail;
      assert rest[1..] == tail;
    }
  }

  /** The automaton keeps going exactly as long as the text so far is a prefix of valid UTF-8. */
  lemma FeedOkIffViable(bs: seq<byte>)
    ensures Feed(START, bs).1 <==> Viable(bs)
  {
    if Feed(START, bs).1 {
      FeedReachable(START, bs);
      var rest := Completion(Feed(START, bs).0);
      FeedConcat(START, bs, rest);
      AcceptsIffValid(bs + rest);
    }
    if Viable(bs) {
      var rest :| ValidUtf8(bs + rest);
      AcceptsIffValid(bs + rest);
      FeedConcat(START, bs, rest);
    }
  }

  // ---------------------------------------------------------------------------
  // The validator object
  // ---------------------------------------------------------------------------

  class Utf8Validator {
    var expectedContinuation: int
    var seenE0: bool
    var seenED: bool
    var seenF0: bool
    var seenF4: bool

    constructor ()
      ensures State() == START
    {
      expectedContinuation := 0;
      seenE0, seenED, seenF0, seenF4 := false, false, false, false;
    }

    function State(): VState
      reads this
    {
      VState(expectedContinuation, seenE0, seenED, seenF0, seenF4)
    }

    method ValidateChunk(data: seq<byte>) returns (ok: bool)
      modifies this
      ensures (State(), ok) == Feed(old(State()), data)
    {
      var i := 0;
      while i < |data|
        invariant 0 <= i <= |data|
        invariant Feed(State(), data[i..]) == Feed(old(State()), data)
      {
        var b := data[i];
        assert data[i..][1..] == data[i + 1..];
        FeedOne(State(), data[i..]);
        if expectedContinuation == 0 {
          if b < 0x80 {
            i := i + 1;
            continue;
          } else if b / 32 == 0x6 {
            if b < 0xC2 || b > 0xDF { return false; }
            expectedContinuation := 1;
          } else if b / 16 == 0xE {
            seenE0 := b == 0xE0;
            seenED := b == 0xED;
            expectedContinuation := 2;
          } else if b / 8 == 0x1E {
            seenF0 := b == 0xF0;
            seenF4 := b == 0xF4;
            if b < 0xF0 || b > 0xF4 { return false; }
            expectedContinuation := 3;
          } else {
            return false;
          }
        } else {
          if b / 64 != 0x2 { return false; }
          if seenE0 && expectedContinuation == 2 && b < 0xA0 { return false; }
          if seenED && expectedContinuation == 2 && b > 0x9F { return false; }
          if seenF0 && expectedContinuation == 3 && b < 0x90 { return false; }
          if seenF4 && expectedContinuation == 3 && b > 0x8F { return false; }
          expectedContinuation := expectedContinuation - 1;
          if expectedContinuation == 0 {
            seenE0, seenED, seenF0, seenF4 := false, false, false, false;
          }
        }
        i := i + 1;
      }
      return true;
    }

    method ValidateFinal() returns (ok: bool)
      ensures ok == (State().expected == 0)
    {
      ok := expectedContinuation == 0;
    }

    method Reset()
      modifies this
      ensures State() == START
    {
      expectedContinuation := 0;
      seenE0, seenED, seenF0, seenF4 := false, false, false, false;
    }
  }

  /** Validating a text chunk by chunk, then asking for the end, succeeds exactly for valid UTF-8. */
  method ValidateText(v: Utf8Validator, chunks: seq<seq<byte>>) returns (ok: bool)
    requires v.State() == START
    modifies v
    ensures ok <==> ValidUtf8(Flatten(chunks))
  {
    FeedChunksIsFeed(START, chunks);
    AcceptsIffValid(Flatten(chunks));
    for i := 0 to |chunks|
      invariant FeedChunks(v.State(), chunks[i..]) == FeedChunks(START, chunks)
    {
      assert chunks[i..][1..] == chunks[i + 1..];
      ok := v.ValidateChunk(chunks[i]);
      if !ok { return; }
    }
    ok := v.ValidateFinal();
  }

  // ---------------------------------------------------------------------------
  // The look-ahead checker used on close reasons
  // ---------------------------------------------------------------------------

  method IsValidUtf8(bytes: seq<byte>) returns (ok: bool)
    ensures ok <==> ValidUtf8(bytes)
  {
    AcceptsIffValid(bytes);
    var len := |bytes|;
    var i := 0;
    while i < len
      invariant 0 <= i <= len
      invariant Accepts(bytes) <==> Accepts(bytes[i..])
    {
      AcceptsFirst(bytes[i..]);
      if bytes[i] <= 0x7F {
        assert bytes[i..][1..] == bytes[i + 1..];
        i := i + 1;
        continue;
      }
      if bytes[i] >= 0xF5 || 0xC0 <= bytes[i] <= 0xC1 {
        return false;
      }
      if bytes[i] / 32 == 0x6 {
        if i + 1 >= len || bytes[i + 1] / 64 != 2 {
          return false;
        }
        assert bytes[i..][2..] == bytes[i + 2..];
        i := i + 2;
      } else if bytes[i] / 16 == 0xE {
        if i + 2 >= len || bytes[i + 1] / 64 != 2 || bytes[i + 2] / 64 != 2 {
          return false;
        }
        if bytes[i] == 0xE0 && bytes[i + 1] < 0xA0 {
          return false;
        }
        if bytes[i] == 0xED && bytes[i + 1] >= 0xA0 {
          return false;
        }
        assert bytes[i..][3..] == bytes[i + 3..];
        i := i + 3;
      } else if bytes[i] / 8 == 0x1E {
        if i + 3 >= len || bytes[i + 1] / 64 != 2 || bytes[i + 2] / 64 != 2 || bytes[i + 3] / 64 != 2 {
          return false;
        }
        if bytes[i] == 0xF0 && bytes[i + 1] < 0x90 {
          return false;
        }
        if bytes[i] == 0xF4 && bytes[i + 1] > 0x8F {
          return false;
        }
        assert bytes[i..][4..] == bytes[i + 4..];
        i := i + 4;
      } else {
        return false;
      }
    }
    return true;
  }
}
