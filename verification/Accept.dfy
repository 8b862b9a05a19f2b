/** The key digest of the opening handshake (`computeAccept`; RFC 6455, section 4.2.2, step 5.4). */
module Accept {
  import opened Bytes
  import opened Sha1
  import opened Sha1Stream
  import Base64

  /** A string of one octet a character. */
  function Octets(s: string): (r: seq<octet>)
    ensures |r| == |s|
  {
    seq(|s|, i requires 0 <= i < |s| => (s[i] as int % 256) as octet)
  }

  const WS_MAGIC: seq<octet> := Octets("258EAFA5-E914-47DA-95CA-C5AB0DC85B11")

  /** The twenty octets of a hash value, most significant first. */
  function DigestOctets(h: Five): (s: seq<octet>)
    ensures |s| == 20
  {
    seq(20, i requires 0 <= i < 20 => OctetOf(WordAt(h, i / 4), i % 4))
  }

  function AsBytes(s: seq<octet>): (r: seq<byte>)
    ensures |r| == |s|
  {
    seq(|s|, i requires 0 <= i < |s| => s[i] as int)
  }

  /** The hexadecimal detour between the hash and its octets changes nothing and never fails. */
  lemma HexDetour(h: Five, i: nat)
    requires i < 20
    ensures Pair(Hex(h)[2 * i], Hex(h)[2 * i + 1]) == Some(DigestOctets(h)[i])
  {
    HexReadsBack(h, i / 4, i % 4);
    hide Pair, Hex, OctetOf, WordAt;
    assert i == 4 * (i / 4) + i % 4;
  }

  /** The base64 form of the SHA-1 of the key followed by the fixed string of the RFC. */
  method ComputeAccept(key: seq<octet>) returns (accept: string)
    requires |key| + |WS_MAGIC| < MAX_OCTETS
    ensures accept == Base64.Encode(AsBytes(DigestOctets(Hash(key + WS_MAGIC))), false)
    ensures Base64.Decode(accept) == Base64.Ok(AsBytes(DigestOctets(Hash(key + WS_MAGIC))))
  {
    var sha := new SHA1();
    sha.Update(key + WS_MAGIC);
    assert [] + (key + WS_MAGIC) == key + WS_MAGIC;
    ghost var h := Hash(key + WS_MAGIC);
    var hexDigest := sha.Final();
    hide Hash, Hex, Pair, DigestOctets;
    forall i | 0 <= i < 20 ensures Pair(hexDigest[2 * i], hexDigest[2 * i + 1]) == Some(DigestOctets(h)[i]) {
      HexDetour(h, i);
    }
    var rawDigest := HexToBytes(hexDigest);
    assert rawDigest.value == DigestOctets(h);
    accept := Base64.Base64Encode(AsBytes(rawDigest.value), false);
    Base64.RoundTrip(AsBytes(rawDigest.value), false);
  }
}
