/** SHA-1 over a stream of updates, and the accept key's way from hexadecimal back to octets. */
module Sha1Stream {
  import opened Bytes
  import opened Sha1

  // ---------------------------------------------------------------------------
  // Blocks
  // ---------------------------------------------------------------------------

  /** The octets of a message of `n` that fill whole blocks. */
  function Whole(n: nat): (w: nat)
    ensures w % 64 == 0 && w <= n < w + 64 && n - w == n % 64 && w / 64 == n / 64
  {
    n / 64 * 64
  }

  lemma {:induction false} HashInTwo(h: Five, a: seq<octet>, b: seq<octet>)
    requires |a| % 64 == 0 && |b| % 64 == 0
    ensures (|a| + |b|) % 64 == 0
    ensures HashBlocks(h, a + b) == HashBlocks(HashBlocks(h, a), b)
    decreases |a|
  {
    hide Compress, Words;
    if a == [] {
      assert a + b == b;
    } else {
      var c := Compress(h, Words(a[..64]));
      assert (a + b)[..64] == a[..64];
      assert (a + b)[64..] == a[64..] + b;
      HashInTwo(c, a[64..], b);
    }
  }

  lemma HashOneBlock(h: Five, b: seq<octet>)
    requires |b| == 64
    ensures HashBlocks(h, b) == Compress(h, Words(b))
  {
    hide Compress, Words;
    assert b[..64] == b && b[64..] == [];
  }

  lemma WordOfParts(b0: octet, b1: octet, b2: octet, b3: octet)
    ensures (b3 as word | (b2 as word << 8) | (b1 as word << 16) | (b0 as word << 24)) == WordOf(b0, b1, b2, b3)
  {
  }

  method BufferToBlock(buffer: seq<octet>, block: array<word>)
    requires |buffer| == 64 && block.Length == 16
    modifies block
    ensures block[..] == Words(buffer)
  {
    hide WordOf;
    for i := 0 to 16
      invariant forall k | 0 <= k < i :: block[k] == Words(buffer)[k]
    {
      WordOfParts(buffer[4 * i], buffer[4 * i + 1], buffer[4 * i + 2], buffer[4 * i + 3]);
      block[i] := buffer[4 * i + 3] as word | (buffer[4 * i + 2] as word << 8)
                  | (buffer[4 * i + 1] as word << 16) | (buffer[4 * i] as word << 24);
    }
  }

  // ---------------------------------------------------------------------------
  // The last one or two blocks
  // ---------------------------------------------------------------------------

  function HighWord(bits: bv64): word { ((bits >> 32) & 0xffff_ffff) as word }

  function LowWord(bits: bv64): word { (bits & 0xffff_ffff) as word }

  lemma LengthWords(bits: bv64)
    ensures var l := BitLengthOctets(bits);
      && WordOf(l[0], l[1], l[2], l[3]) == HighWord(bits)
      && WordOf(l[4], l[5], l[6], l[7]) == LowWord(bits)
  {
  }

  lemma ZeroWord()
    ensures WordOf(0, 0, 0, 0) == 0
  {
  }

  /** Fourteen words followed by the two words of the length. */
  function WithLength(m: seq<word>, bits: bv64): (r: seq<word>)
    requires |m| == 16
    ensures |r| == 16
  {
    m[..14] + [HighWord(bits), LowWord(bits)]
  }

  /** Replacing the last eight octets of a block by the length replaces its last two words. */
  lemma WordsWithLength(front: seq<octet>, bits: bv64, filler: seq<octet>)
    requires |front| == 56 && |filler| == 8
    ensures Words(front + BitLengthOctets(bits)) == WithLength(Words(front + filler), bits)
  {
    LengthWords(bits);
    hide WordOf, HighWord, LowWord;
    var a, b := front + BitLengthOctets(bits), front + filler;
    var l := BitLengthOctets(bits);
    assert a[56] == l[0] && a[57] == l[1] && a[58] == l[2] && a[59] == l[3];
    assert a[60] == l[4] && a[61] == l[5] && a[62] == l[6] && a[63] == l[7];
    hide BitLengthOctets;
    forall i | 0 <= i < 16 ensures Words(a)[i] == WithLength(Words(b), bits)[i] {
      if i < 14 {
        assert a[4 * i] == b[4 * i] && a[4 * i + 1] == b[4 * i + 1] && a[4 * i + 2] == b[4 * i + 2] && a[4 * i + 3] == b[4 * i + 3];
      }
    }
  }

  /** The tail of the message, the one bit and zeros up to a whole block. */
  function Filled(tail: seq<octet>): (b: seq<octet>)
    requires |tail| < 64
    ensures |b| == 64
  {
    tail + [0x80] + Zeros(63 - |tail|)
  }

  /** What finishing does to the hash value: one block when the length still fits, two when it does not. */
  function Finish(h: Five, tail: seq<octet>, bits: bv64): Five
    requires |tail| < 64
  {
    if |tail| + 1 > 56
    then Compress(Compress(h, Words(Filled(tail))), WithLength(seq(16, i => 0), bits))
    else Compress(h, WithLength(Words(Filled(tail)), bits))
  }

  lemma WordsOfZeros()
    ensures Words(Zeros(64)) == seq(16, i => 0)
  {
    ZeroWord();
    hide WordOf;
    forall i | 0 <= i < 16 ensures Words(Zeros(64))[i] == 0 {
    }
  }

  lemma FinishShort(h: Five, tail: seq<octet>, bits: bv64)
    requires |tail| + 1 <= 56
    ensures HashBlocks(h, tail + ([0x80] + Zeros(55 - |tail|) + BitLengthOctets(bits))) == Finish(h, tail, bits)
  {
    hide Compress, Words, BitLengthOctets, WithLength, HashBlocks;
    var front := tail + [0x80] + Zeros(55 - |tail|);
    var p := front + BitLengthOctets(bits);
    assert tail + ([0x80] + Zeros(55 - |tail|) + BitLengthOctets(bits)) == p;
    HashOneBlock(h, p);
    WordsWithLength(front, bits, Zeros(8));
    assert front + Zeros(8) == Filled(tail);
  }

  lemma FinishLong(h: Five, tail: seq<octet>, bits: bv64)
    requires 56 < |tail| + 1 <= 64
    ensures HashBlocks(h, tail + ([0x80] + Zeros(119 - |tail|) + BitLengthOctets(bits))) == Finish(h, tail, bits)
  {
    hide Compress, Words, BitLengthOctets, WithLength, HashBlocks;
    var second := Zeros(56) + BitLengthOctets(bits);
    assert tail + ([0x80] + Zeros(119 - |tail|) + BitLengthOctets(bits)) == Filled(tail) + second;
    HashInTwo(h, Filled(tail), second);
    HashOneBlock(h, Filled(tail));
    HashOneBlock(Compress(h, Words(Filled(tail))), second);
    WordsWithLength(Zeros(56), bits, Zeros(8));
    assert Zeros(56) + Zeros(8) == Zeros(64);
    WordsOfZeros();
  }

  lemma FinishIsPadding(h: Five, tail: seq<octet>, octets: nat)
    requires |tail| < 64 && octets < MAX_OCTETS && octets % 64 == |tail|
    ensures (|tail| + |Padding(octets)|) % 64 == 0
    ensures HashBlocks(h, tail + Padding(octets)) == Finish(h, tail, BitLength(octets))
  {
    hide Compress, Words, BitLengthOctets, WithLength, HashBlocks, Finish, BitLength;
    if |tail| + 1 > 56 {
      assert ZeroCount(octets) == 119 - |tail|;
      FinishLong(h, tail, BitLength(octets));
    } else {
      assert ZeroCount(octets) == 55 - |tail|;
      FinishShort(h, tail, BitLength(octets));
    }
  }

  // ---------------------------------------------------------------------------
  // The hash object
  // ---------------------------------------------------------------------------

  /** The hash of a message from the hash of its whole blocks and the rest. */
  lemma HashIsFinish(message: seq<octet>)
    requires |message| < MAX_OCTETS
    ensures var whole := Whole(|message|);
      Hash(message) == Finish(HashBlocks(IV, message[..whole]), message[whole..], BitLength(|message|))
  {
    hide HashBlocks, Finish, BitLength, Padding;
    var whole := Whole(|message|);
    var tail := message[whole..];
    FinishIsPadding(HashBlocks(IV, message[..whole]), tail, |message|);
    HashInTwo(IV, message[..whole], tail + Padding(|message|));
    assert message + Padding(|message|) == message[..whole] + (tail + Padding(|message|));
  }

  // ---------------------------------------------------------------------------
  // Hexadecimal output and back
  // ---------------------------------------------------------------------------

  function Digit(v: word): char
  {
    match v
    case 0 => '0' case 1 => '1' case 2 => '2' case 3 => '3' case 4 => '4' case 5 => '5' case 6 => '6' case 7 => '7'
    case 8 => '8' case 9 => '9' case 10 => 'a' case 11 => 'b' case 12 => 'c' case 13 => 'd' case 14 => 'e' case _ => 'f'
  }

  /** Hexadecimal digit `j` of a word, most significant first. */
  function Nibble(w: word, j: nat): word
    requires j < 8
  {
    (match j
     case 0 => w >> 28 case 1 => w >> 24 case 2 => w >> 20 case 3 => w >> 16
     case 4 => w >> 12 case 5 => w >> 8 case 6 => w >> 4 case _ => w) & 0xf
  }

  /** A word as eight digits, zero-filled. */
  function HexWord(w: word): (s: string)
    ensures |s| == 8
  {
    seq(8, j requires 0 <= j < 8 => Digit(Nibble(w, j)))
  }

  function Hex(h: Five): (s: string)
    ensures |s| == 40
  {
    HexWord(h.a) + HexWord(h.b) + HexWord(h.c) + HexWord(h.d) + HexWord(h.e)
  }

  method HexOf(digest: array<word>) returns (s: string)
    requires digest.Length == 5
    ensures s == Hex(FiveOf(digest[..]))
  {
    hide HexWord;
    s := HexWord(digest[0]) + HexWord(digest[1]) + HexWord(digest[2]) + HexWord(digest[3]) + HexWord(digest[4]);
  }

  class SHA1 {
    const digest: array<word>
    var buffer: seq<octet>
    var transforms: nat
    ghost var message: seq<octet>

    ghost predicate Valid()
      reads this, digest
    {
      var whole := Whole(|message|);
      && digest.Length == 5
      && transforms == |message| / 64
      && buffer == message[whole..]
      && FiveOf(digest[..]) == HashBlocks(IV, message[..whole])
    }

    constructor ()
      ensures Valid() && message == [] && fresh(digest)
    {
      digest := new word[5];
      buffer, transforms, message := [], 0, [];
      new;
      Reset();
    }

    method Reset()
      requires digest.Length == 5
      modifies this, digest
      ensures Valid() && message == []
    {
      digest[0] := 0x67452301;
      digest[1] := 0xefcdab89;
      digest[2] := 0x98badcfe;
      digest[3] := 0x10325476;
      digest[4] := 0xc3d2e1f0;
      buffer := [];
      transforms := 0;
      message := [];
      assert FiveOf(digest[..]) == IV;
    }

    lemma OneMoreBlock(n: nat, whole: nat)
      requires whole % 64 == 0 && n == whole + 64
      ensures Whole(n) == n && n / 64 == whole / 64 + 1
    {
    }

    /** The buffer holds the latest whole block and it has not been hashed yet. */
    method HashBuffer(ghost whole: nat)
      requires digest.Length == 5 && whole % 64 == 0 && transforms == whole / 64
      requires |message| == whole + 64 && buffer == message[whole..]
      requires FiveOf(digest[..]) == HashBlocks(IV, message[..whole])
      modifies this, digest
      ensures Valid() && message == old(message) && buffer == []
    {
      hide HashBlocks, Compress, Words;
      var block := new word[16];
      BufferToBlock(buffer, block);
      Transform(digest, block);
      HashInTwo(IV, message[..whole], buffer);
      HashOneBlock(HashBlocks(IV, message[..whole]), buffer);
      assert message == message[..whole] + buffer;
      OneMoreBlock(|message|, whole);
      assert message[..|message|] == message;
      transforms := transforms + 1;
      buffer := [];
    }

    lemma SameWhole(n: nat, got: nat)
      requires n % 64 + got < 64
      ensures (n + got) / 64 == n / 64 && Whole(n + got) == Whole(n)
    {
    }

    /** Reads of up to a block at a time, each full block hashed at once. */
    method Update(s: seq<octet>)
      requires Valid()
      modifies this, digest
      ensures Valid() && message == old(message) + s
    {
      hide HashBlocks;
      var rest := s;
      while true
        invariant Valid() && message + rest == old(message) + s
        decreases |rest|
      {
        var got := if |rest| < 64 - |buffer| then |rest| else 64 - |buffer|;
        ghost var before, whole := message, Whole(|message|);
        message := message + rest[..got];
        buffer := buffer + rest[..got];
        ConcatSplit(before, rest, got);
        rest := rest[got..];
        assert buffer == message[whole..] && message[..whole] == before[..whole];
        if |buffer| != 64 {
          SameWhole(|before|, got);
          return;
        }
        HashBuffer(whole);
      }
    }

    lemma ConcatSplit(a: seq<octet>, b: seq<octet>, n: nat)
      requires n <= |b|
      ensures a + b[..n] + b[n..] == a + b
    {
    }

    /** The number of hashed bits as the 64-bit product the source computes. */
    lemma TotalBits()
      requires Valid() && |message| < MAX_OCTETS
      ensures transforms * 64 + |buffer| == |message| && |buffer| == |message| % 64
    {
    }

    lemma LastBlock(m: seq<word>, m': seq<word>, bits: bv64)
      requires |m| == 16 && m' == m[15 := LowWord(bits)][14 := HighWord(bits)]
      ensures m' == WithLength(m, bits)
      ensures m[..14] == seq(16, i => 0)[..14] ==> m' == WithLength(seq(16, i => 0), bits)
    {
      hide LowWord, HighWord;
    }

    /** The last one or two blocks. */
    method FinishBlocks()
      requires Valid() && |message| < MAX_OCTETS
      modifies this`buffer, digest
      ensures FiveOf(digest[..]) == Hash(message)
    {
      hide HashBlocks, Compress, Words, WithLength, BitLengthOctets, BitLength, HighWord, LowWord, Hash, Whole;
      TotalBits();
      HashIsFinish(message);
      var totalBits := BitLength(transforms * 64 + |buffer|);
      ghost var tail, h := buffer, FiveOf(digest[..]);
      buffer := buffer + [0x80];
      var origSize := |buffer|;
      while |buffer| < 64
        invariant |buffer| <= 64 && FiveOf(digest[..]) == h
        invariant buffer == tail + [0x80] + Zeros(|buffer| - origSize)
      {
        buffer := buffer + [0];
      }
      assert buffer == Filled(tail);
      var block := new word[16];
      BufferToBlock(buffer, block);
      if origSize > 64 - 8 {
        Transform(digest, block);
        ghost var d := digest[..];
        for i := 0 to 14
          invariant digest[..] == d
          invariant forall k | 0 <= k < i :: block[k] == 0
        {
          block[i] := 0;
        }
      }
      ghost var m := block[..];
      assert origSize > 56 ==> m[..14] == seq(16, i => 0)[..14];
      block[15] := LowWord(totalBits);
      block[14] := HighWord(totalBits);
      LastBlock(m, block[..], totalBits);
      Transform(digest, block);
      assert FiveOf(digest[..]) == Finish(h, tail, totalBits);
    }

    /** Padding, hashing what is left, the digest in hexadecimal; then ready for the next message. */
    method Final() returns (hex: string)
      requires Valid() && |message| < MAX_OCTETS
      modifies this, digest
      ensures hex == Hex(Hash(old(message)))
      ensures Valid() && message == []
    {
      hide Hash, Hex;
      FinishBlocks();
      hex := HexOf(digest);
      Reset();
    }
  }

  /** Hashing a message in any number of updates. */
  method HashInPieces(sha: SHA1, pieces: seq<seq<octet>>) returns (hex: string)
    requires sha.Valid() && sha.message == [] && |Flatten(pieces)| < MAX_OCTETS
    modifies sha, sha.digest
    ensures hex == Hex(Hash(Flatten(pieces)))
    ensures sha.Valid() && sha.message == []
  {
    for i := 0 to |pieces|
      invariant sha.Valid() && sha.message + Flatten(pieces[i..]) == Flatten(pieces)
    {
      assert pieces[i..][1..] == pieces[i + 1..];
      ConcatAssoc(sha.message, pieces[i], Flatten(pieces[i + 1..]));
      sha.Update(pieces[i]);
    }
    assert sha.message + [] == sha.message;
    hex := sha.Final();
  }

  // ---------------------------------------------------------------------------
  // From the hexadecimal digest to its octets
  // ---------------------------------------------------------------------------

  function HexNibble(c: char): Option<octet> {
    match c
    case '0' => Some(0) case '1' => Some(1) case '2' => Some(2) case '3' => Some(3) case '4' => Some(4)
    case '5' => Some(5) case '6' => Some(6) case '7' => Some(7) case '8' => Some(8) case '9' => Some(9)
    case 'a' => Some(10) case 'b' => Some(11) case 'c' => Some(12)
    case 'd' => Some(13) case 'e' => Some(14) case 'f' => Some(15)
    case 'A' => Some(10) case 'B' => Some(11) case 'C' => Some(12)
    case 'D' => Some(13) case 'E' => Some(14) case 'F' => Some(15)
    case _ => None
  }

  /** Two digits make one octet. */
  function Pair(hi: char, lo: char): Option<octet> {
    match (HexNibble(hi), HexNibble(lo))
    case (Some(h), Some(l)) => Some((h << 4) | l)
    case _ => None
  }

  /** The octets of a 40-digit string; None stands for the exceptions the source throws. */
  method HexToBytes(hex: string) returns (out: Option<seq<octet>>)
    ensures out.Some? <==> |hex| == 40 && forall i :: 0 <= i < 20 ==> Pair(hex[2 * i], hex[2 * i + 1]).Some?
    ensures out.Some? ==> |out.value| == 20
    ensures out.Some? ==> forall i :: 0 <= i < 20 ==> Some(out.value[i]) == Pair(hex[2 * i], hex[2 * i + 1])
  {
    hide Pair;
    if |hex| != 40 { return None; }
    var bytes: seq<octet> := [];
    for i := 0 to 20
      invariant |bytes| == i
      invariant forall k :: 0 <= k < i ==> Some(bytes[k]) == Pair(hex[2 * k], hex[2 * k + 1])
    {
      var p := Pair(hex[2 * i], hex[2 * i + 1]);
      if p.None? { return None; }
      bytes := bytes + [p.value];
    }
    return Some(bytes);
  }

  /** Octet `k` of a word, most significant first. */
  function OctetOf(w: word, k: nat): octet
    requires k < 4
  {
    match k
    case 0 => ((w >> 24) & 0xff) as octet
    case 1 => ((w >> 16) & 0xff) as octet
    case 2 => ((w >> 8) & 0xff) as octet
    case _ => (w & 0xff) as octet
  }

  lemma NibbleOfDigit(v: word)
    requires v < 16
    ensures HexNibble(Digit(v)) == Some(v as octet)
  {
  }

  lemma PairOfDigits(hi: word, lo: word)
    requires hi < 16 && lo < 16
    ensures Pair(Digit(hi), Digit(lo)) == Some(((hi as octet) << 4) | lo as octet)
  {
    NibbleOfDigit(hi);
    NibbleOfDigit(lo);
    hide HexNibble, Digit;
  }

  lemma JoinNibbles(w: word, k: nat)
    requires k < 4
    ensures Nibble(w, 2 * k) < 16 && Nibble(w, 2 * k + 1) < 16
    ensures ((Nibble(w, 2 * k) as octet) << 4) | Nibble(w, 2 * k + 1) as octet == OctetOf(w, k)
  {
    match k
    case 0 => case 1 => case 2 => case _ => assert k == 3;
  }

  lemma TwoNibbles(w: word, k: nat)
    requires k < 4
    ensures Pair(HexWord(w)[2 * k], HexWord(w)[2 * k + 1]) == Some(OctetOf(w, k))
  {
    JoinNibbles(w, k);
    PairOfDigits(Nibble(w, 2 * k), Nibble(w, 2 * k + 1));
    hide Pair, Digit, Nibble, OctetOf;
  }

  function WordAt(h: Five, i: nat): word
    requires i < 5
  {
    if i == 0 then h.a else if i == 1 then h.b else if i == 2 then h.c else if i == 3 then h.d else h.e
  }

  lemma HexSlice(h: Five, i: nat)
    requires i < 5
    ensures Hex(h)[8 * i..8 * i + 8] == HexWord(WordAt(h, i))
  {
    hide HexWord;
  }

  /** The hexadecimal digest reads back as the twenty octets of the digest. */
  lemma HexReadsBack(h: Five, i: nat, k: nat)
    requires i < 5 && k < 4
    ensures Pair(Hex(h)[2 * (4 * i + k)], Hex(h)[2 * (4 * i + k) + 1]) == Some(OctetOf(WordAt(h, i), k))
  {
    TwoNibbles(WordAt(h, i), k);
    HexSlice(h, i);
    hide Pair, OctetOf, HexWord, Hex, WordAt;
    var s := Hex(h)[8 * i..8 * i + 8];
    assert s[2 * k] == Hex(h)[8 * i + 2 * k] && s[2 * k + 1] == Hex(h)[8 * i + 2 * k + 1];
  }
}
