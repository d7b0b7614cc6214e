/** Octets and the 64-bit FNV-1a digest the TLS transport keeps of a plaintext
    whose SSL_write has to be repeated. */
module Bytes {
  type byte = bv8

  const FNV_OFFSET: bv64 := 14695981039346656037
  const FNV_PRIME: bv64 := 1099511628211

  /** One round: exclusive-or the octet in, then multiply modulo 2^64. */
  function Mix(hash: bv64, b: byte): bv64 {
    (hash ^ (b as bv64)) * FNV_PRIME
  }

  /** The digest of a whole octet string. */
  function Digest(data: seq<byte>): bv64 {
    if data == [] then FNV_OFFSET else Mix(Digest(data[..|data| - 1]), data[|data| - 1])
  }

  method BytesHash(data: seq<byte>, size: nat) returns (hash: bv64)
    requires size <= |data|
    ensures hash == Digest(data[..size])
  {
    hash := FNV_OFFSET;
    for i := 0 to size
      invariant hash == Digest(data[..i])
    {
      assert data[..i + 1][..i] == data[..i];
      hash := Mix(hash, data[i]);
    }
  }

  // ----- what the digest tells apart ---------------------------------------

  /** The low octet of a digest; one round maps it by an exclusive-or and a
      multiplication with an odd number, modulo 256. */
  function Low(hash: bv64): byte {
    (hash & 0xFF) as byte
  }

  lemma LowOfProduct(x: bv64)
    ensures (x * FNV_PRIME) & 0xFF == ((x & 0xFF) * 0xB3) & 0xFF
  {
  }

  lemma OddFactorInjective(x: byte, y: byte)
    ensures x * 0xB3 == y * 0xB3 ==> x == y
  {
  }

  lemma LowNarrow(x: bv64)
    ensures ((x & 0xFF) * 0xB3) & 0xFF == ((((x & 0xFF) as bv8) * 0xB3) as bv64)
  {
  }

  lemma MixLow(hash: bv64, b: byte)
    ensures Low(Mix(hash, b)) == (Low(hash) ^ b) * 0xB3
  {
    var x := hash ^ (b as bv64);
    LowOfProduct(x);
    LowNarrow(x);
    assert Low(x) == Low(hash) ^ b;
  }

  /** Two rounds agree in their low octets exactly if what they mix does. */
  lemma MixSeparates(h1: bv64, b1: byte, h2: bv64, b2: byte)
    ensures Low(Mix(h1, b1)) == Low(Mix(h2, b2)) <==> Low(h1) ^ b1 == Low(h2) ^ b2
  {
    hide Mix, Low;
    MixLow(h1, b1);
    MixLow(h2, b2);
    OddFactorInjective(Low(h1) ^ b1, Low(h2) ^ b2);
  }

  lemma XorCancels(x: byte, y: byte, b: byte)
    ensures x ^ b == y ^ b <==> x == y
    ensures b ^ x == b ^ y <==> x == y
  {
  }

  /** Texts of one length that differ in exactly one octet have different digests. */
  lemma {:induction false} OneOctetTells(a: seq<byte>, b: seq<byte>, i: nat)
    requires |a| == |b| && i < |a| && a[i] != b[i]
    requires forall j :: 0 <= j < |a| && j != i ==> a[j] == b[j]
    ensures Low(Digest(a)) != Low(Digest(b)) && Digest(a) != Digest(b)
    decreases |a|
  {
    hide Mix, Low;
    var n := |a| - 1;
    MixSeparates(Digest(a[..n]), a[n], Digest(b[..n]), b[n]);
    XorCancels(Low(Digest(a[..n])), Low(Digest(b[..n])), a[n]);
    XorCancels(a[n], b[n], Low(Digest(a[..n])));
    if i == n {
      assert a[..n] == b[..n];
    } else {
      OneOctetTells(a[..n], b[..n], i);
    }
  }

  lemma DigestSnoc(data: seq<byte>, b: byte)
    ensures Digest(data + [b]) == Mix(Digest(data), b)
  {
    assert (data + [b])[..|data|] == data;
  }

  /** The published 64-bit FNV-1a values of "", "a" and "fo". */
  lemma PublishedDigests()
    ensures Digest([]) == 0xcbf29ce484222325
    ensures Digest([0x61]) == 0xaf63dc4c8601ec8c
    ensures Digest([0x66, 0x6f]) == 0x8985907b541d342
  {
    hide Digest;
    assert Digest([]) == FNV_OFFSET by { EmptyDigest(); }
    DigestSnoc([], 0x61);
    assert [0x61] == [] + [0x61 as byte];
    DigestSnoc([], 0x66);
    assert [0x66] == [] + [0x66 as byte];
    DigestSnoc([0x66], 0x6f);
    assert [0x66, 0x6f] == [0x66 as byte] + [0x6f];
  }

  lemma EmptyDigest()
    ensures Digest([]) == FNV_OFFSET
  {
  }
}
