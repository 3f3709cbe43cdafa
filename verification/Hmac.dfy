/** Keyed hashing as section 2 of RFC 2104 defines it. */
module HmacSpec {
  import opened Bytes
  import opened HashSpec
  import opened BlockFold

  function XorByte(x: byte, y: byte): byte { x ^ y }

  const IPAD: byte := 0x36
  const OPAD: byte := 0x5C

  /** Every byte of `key` combined with `pad`. */
  function XorEach(key: seq<byte>, pad: byte): (r: seq<byte>)
    ensures |r| == |key|
  {
    seq(|key|, i requires 0 <= i < |key| => XorByte(key[i], pad))
  }

  lemma DigestLength(alg: Algorithm, message: seq<byte>)
    requires !IsSponge(alg)
    ensures |Digest(alg, message)| == 4 * WordCount(alg) <= 32
  {
    hide Fold, Initial, Padded, WordBytes, SchemeOf, Compress, Step;
    StepFits(alg);
    FoldKeeps(SchemeOf(alg), d => Fits(alg, d), Initial(alg), Padded(alg, message));
  }

  /** The key cut to one block: hashed when longer, then filled up with zeros. */
  function BlockKey(alg: Algorithm, key: seq<byte>): (k: seq<byte>)
    requires !IsSponge(alg)
    ensures |k| == 64
  {
    DigestLength(alg, key);
    var short := if |key| <= 64 then key else Digest(alg, key);
    short + Zeros(64 - |short|)
  }

  function Mac(alg: Algorithm, key: seq<byte>, text: seq<byte>): seq<byte>
    requires !IsSponge(alg)
  {
    var k := BlockKey(alg, key);
    Digest(alg, XorEach(k, OPAD) + Digest(alg, XorEach(k, IPAD) + text))
  }

  predicate Meets(x: byte, mask: byte) { x & mask != 0 }

  lemma XorMeets(x: byte, y: byte, mask: byte)
    requires mask & (mask - 1) == 0
    ensures Meets(XorByte(x, y), mask) == (Meets(x, mask) != Meets(y, mask))
  {
  }

  function Mask(i: nat): byte
    requires i < 8
  {
    [1 as byte, 2, 4, 8, 16, 32, 64, 128][i]
  }

  lemma BitMeets(x: byte, i: nat)
    requires i < 8
    ensures ByteBits(x)[i] == Meets(x, Mask(i)) && Mask(i) & (Mask(i) - 1) == 0
  {
  }

  /** Combining is the exclusive or of corresponding bits. */
  lemma XorByteBits(x: byte, y: byte, i: nat)
    requires i < 8
    ensures ByteBits(XorByte(x, y))[i] == (ByteBits(x)[i] != ByteBits(y)[i])
  {
    hide *;
    BitMeets(x, i);
    BitMeets(y, i);
    BitMeets(XorByte(x, y), i);
    XorMeets(x, y, Mask(i));
  }

  /** The pads of RFC 2104, 0x36 and 0x5C, bit by bit. */
  lemma PadBits(i: nat)
    requires i < 8
    ensures ByteBits(IPAD)[i] <==> i == 1 || i == 2 || i == 4 || i == 5
    ensures ByteBits(OPAD)[i] <==> i == 2 || i == 3 || i == 4 || i == 6
  {
  }

  /** Undoing the inner pad while applying the outer one. */
  lemma PadSwitch(b: byte)
    ensures XorByte(XorByte(b, 0x36), XorByte(0x5C, 0x36)) == XorByte(b, OPAD)
  {
  }

  lemma PadsDiffer(b: byte)
    ensures XorByte(b, IPAD) != XorByte(b, OPAD)
  {
  }

  lemma PaddedKeyBits(key: seq<byte>, i: nat, z: nat)
    requires i < |key| && z < 8
    ensures ByteBits(XorEach(key, IPAD)[i])[z] == (ByteBits(key[i])[z] != (z == 1 || z == 2 || z == 4 || z == 5))
    ensures ByteBits(XorEach(key, OPAD)[i])[z] == (ByteBits(key[i])[z] != (z == 2 || z == 3 || z == 4 || z == 6))
  {
    hide ByteBits, XorByte;
    XorByteBits(key[i], IPAD, z);
    XorByteBits(key[i], OPAD, z);
    PadBits(z);
  }

  /** The code, section 2 of RFC 2104, with the pads told by the bits they flip in each byte of the key. */
  lemma NestedHashes(alg: Algorithm, key: seq<byte>, text: seq<byte>) returns (inner: seq<byte>, outer: seq<byte>)
    requires !IsSponge(alg)
    ensures |inner| == |outer| == 64 && Mac(alg, key, text) == Digest(alg, outer + Digest(alg, inner + text))
    ensures forall i, z | 0 <= i < 64 && 0 <= z < 8 ::
      && ByteBits(inner[i])[z] == (ByteBits(BlockKey(alg, key)[i])[z] != (z == 1 || z == 2 || z == 4 || z == 5))
      && ByteBits(outer[i])[z] == (ByteBits(BlockKey(alg, key)[i])[z] != (z == 2 || z == 3 || z == 4 || z == 6))
  {
    hide ByteBits, XorEach, Digest, BlockKey;
    var k := BlockKey(alg, key);
    inner, outer := XorEach(k, IPAD), XorEach(k, OPAD);
    forall i, z | 0 <= i < 64 && 0 <= z < 8
      ensures ByteBits(inner[i])[z] == (ByteBits(k[i])[z] != (z == 1 || z == 2 || z == 4 || z == 5))
      ensures ByteBits(outer[i])[z] == (ByteBits(k[i])[z] != (z == 2 || z == 3 || z == 4 || z == 6))
    {
      PaddedKeyBits(k, i, z);
    }
  }

  /** The inner and the outer hash never see the same message, whatever follows the key. */
  lemma InputsDiffer(alg: Algorithm, key: seq<byte>, x: seq<byte>, y: seq<byte>)
    requires !IsSponge(alg)
    ensures XorEach(BlockKey(alg, key), OPAD) + x != XorEach(BlockKey(alg, key), IPAD) + y
  {
    hide XorByte, Digest;
    var k := BlockKey(alg, key);
    PadsDiffer(k[0]);
    assert (XorEach(k, OPAD) + x)[0] == XorByte(k[0], OPAD);
    assert (XorEach(k, IPAD) + y)[0] == XorByte(k[0], IPAD);
  }

  /** Keys of up to a block are brought to the same block exactly when one is the other with
      zeros appended; every text then has the same code under both. */
  lemma ShortKeysConfused(alg: Algorithm, key: seq<byte>, other: seq<byte>)
    requires !IsSponge(alg) && |key| <= |other| <= 64
    ensures BlockKey(alg, key) == BlockKey(alg, other) <==> other == key + Zeros(|other| - |key|)
    ensures other == key + Zeros(|other| - |key|) ==> forall text :: Mac(alg, key, text) == Mac(alg, other, text)
  {
    hide Digest;
    var k, o := BlockKey(alg, key), BlockKey(alg, other);
    assert o[..|other|] == other;
    if k == o {
      assert k[..|other|] == key + Zeros(|other| - |key|);
    }
    if other == key + Zeros(|other| - |key|) {
      assert o == key + (Zeros(|other| - |key|) + Zeros(64 - |other|));
    }
  }

  /** A key longer than a block authenticates as its own digest does. */
  lemma LongKeyIsItsDigest(alg: Algorithm, key: seq<byte>, text: seq<byte>)
    requires !IsSponge(alg) && |key| > 64
    ensures Mac(alg, key, text) == Mac(alg, Digest(alg, key), text)
  {
    hide Digest;
    DigestLength(alg, key);
  }
}

module Hmac {
  import opened Bytes
  import opened HashSpec
  import opened HmacSpec
  import opened Hasher

  method Copy(target: array<byte>, source: seq<byte>)
    requires |source| <= target.Length == 64 && forall i | 0 <= i < 64 :: target[i] == 0
    modifies target
    ensures target[..] == source + Zeros(64 - |source|)
  {
    for i := 0 to |source|
      invariant target[..i] == source[..i] && forall k | i <= k < 64 :: target[k] == 0
    {
      target[i] := source[i];
    }
  }

  lemma ShortKey(alg: Algorithm, key: seq<byte>)
    requires !IsSponge(alg) && |key| <= 64
    ensures BlockKey(alg, key) == key + Zeros(64 - |key|)
  {
    hide Digest;
  }

  lemma LongKey(alg: Algorithm, key: seq<byte>)
    requires !IsSponge(alg) && |key| > 64 && |Digest(alg, key)| <= 64
    ensures BlockKey(alg, key) == Digest(alg, key) + Zeros(64 - |Digest(alg, key)|)
  {
    hide Digest;
  }

  /** The key adjusted to exactly one block. */
  method UsedKey(alg: Algorithm, key: seq<byte>) returns (usedKey: array<byte>)
    requires !IsSponge(alg)
    ensures fresh(usedKey) && usedKey[..] == BlockKey(alg, key)
  {
    hide *;
    if |key| <= 64 {
      usedKey := new byte[64](_ => 0);
      Copy(usedKey, key);
      ShortKey(alg, key);
    } else {
      var keyHasher := new Hasher(alg);
      keyHasher.Add(key);
      assert [] + key == key;
      var hashed := keyHasher.GetRawHash();
      DigestLength(alg, key);
      usedKey := new byte[64](_ => 0);
      Copy(usedKey, hashed);
      LongKey(alg, key);
    }
  }

  /** A new hash object that has been given two pieces of data. */
  method HasherOver(alg: Algorithm, first: seq<byte>, second: seq<byte>) returns (hasher: Hasher)
    ensures fresh(hasher) && fresh(hasher.words) && fresh(hasher.lanes) && fresh(hasher.buffer)
    ensures hasher.Valid() && hasher.algorithm == alg && hasher.message == first + second
  {
    hide *;
    hasher := new Hasher(alg);
    hasher.Add(first);
    hasher.Add(second);
    assert [] + first == first;
  }

  method XorAll(target: array<byte>, pad: byte)
    modifies target
    ensures target[..] == XorEach(old(target[..]), pad)
  {
    hide XorByte;
    for i := 0 to target.Length
      invariant forall k | 0 <= k < i :: target[k] == XorByte(old(target[k]), pad)
      invariant forall k | i <= k < target.Length :: target[k] == old(target[k])
    {
      target[i] := XorByte(target[i], pad);
    }
  }

  lemma Switched(key: seq<byte>)
    ensures XorEach(XorEach(key, 0x36), XorByte(0x5C, 0x36)) == XorEach(key, OPAD) && XorEach(key, 0x36) == XorEach(key, IPAD)
  {
    hide XorByte;
    forall i | 0 <= i < |key| {
      PadSwitch(key[i]);
    }
  }

  lemma MacIs(alg: Algorithm, key: seq<byte>, text: seq<byte>)
    requires !IsSponge(alg)
    ensures Mac(alg, key, text)
         == Digest(alg, XorEach(BlockKey(alg, key), OPAD) + Digest(alg, XorEach(BlockKey(alg, key), IPAD) + text))
  {
  }

  /** The message authentication code of `data` as hex text. */
  method Hmac(alg: Algorithm, data: seq<byte>, key: seq<byte>) returns (result: string)
    requires !IsSponge(alg)
    ensures result == Hex.OfBytes(Mac(alg, key, data))
  {
    hide *;
    var usedKey := UsedKey(alg, key);
    ghost var k := usedKey[..];
    XorAll(usedKey, 0x36);
    var insideHasher := HasherOver(alg, usedKey[..], data);
    var inside := insideHasher.GetRawHash();
    XorAll(usedKey, XorByte(0x5C, 0x36));
    Switched(k);
    var finalHasher := HasherOver(alg, usedKey[..], inside);
    result := finalHasher.GetHash();
    MacIs(alg, key, data);
  }
}
