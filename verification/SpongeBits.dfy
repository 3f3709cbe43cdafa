/** The bytes of a sponge and the bits of the standard. */
module SpongeBits {
  import opened Bytes
  import opened LaneBits
  import opened KeccakBits
  import Fips202
  import KeccakSpec
  import opened BlockFold
  import opened HashSpec

  function And8(x: bv64): bv64 { x & 0xff }

  lemma LowestByte(b: seq<byte>)
    requires |b| == 8
    ensures And8(KeccakSpec.LittleEndian(b)) == (b[0] as bv64)
    ensures KeccakSpec.LittleEndian(b) >> 8 == KeccakSpec.LittleEndian(b[1..] + [0])
  {
  }

  lemma ByteBitsOfLow(x: bv64, b: byte)
    requires And8(x) == b as bv64
    ensures ByteBits(b) == [KeccakSpec.And(x, 1) != 0, KeccakSpec.And(x, 2) != 0, KeccakSpec.And(x, 4) != 0, KeccakSpec.And(x, 8) != 0,
                            KeccakSpec.And(x, 16) != 0, KeccakSpec.And(x, 32) != 0, KeccakSpec.And(x, 64) != 0, KeccakSpec.And(x, 128) != 0]
  {
  }

  lemma LowPowers()
    ensures Power(0) == 1 && Power(1) == 2 && Power(2) == 4 && Power(3) == 8
    ensures Power(4) == 16 && Power(5) == 32 && Power(6) == 64 && Power(7) == 128
  {
    assert Power(3) == 8;
  }

  lemma LowBits(x: bv64, b: byte, i: nat)
    requires And8(x) == b as bv64 && i < 8
    ensures Bit(x, i) == ByteBits(b)[i]
  {
    hide *;
    BitIsAnd(x, i);
    ByteBitsOfLow(x, b);
    LowPowers();
    assert i == 0 || i == 1 || i == 2 || i == 3 || i == 4 || i == 5 || i == 6 || i == 7;
  }

  lemma FirstLaneByte(x: bv64)
    ensures And8(x) == LaneByte(x, 0) as bv64
  {
  }

  lemma TailBits(b: seq<byte>, z: nat)
    requires |b| == 8 && 8 <= z < 64
    ensures MessageBits(b)[z] == MessageBits(b[1..] + [0])[z - 8]
  {
    hide ByteBits;
    MessageBitsAppend(b[1..], [0]);
  }

  /** Bit `z` of a lane loaded from eight bytes is bit `z` of the bytes, section 3.1.2 of FIPS 202. */
  lemma {:induction false} LoadedBit(b: seq<byte>, z: nat)
    requires |b| == 8 && z < 64
    ensures Bit(KeccakSpec.LittleEndian(b), z) == MessageBits(b)[z]
    decreases z
  {
    hide Bit, ByteBits, KeccakSpec.LittleEndian, And8;
    LowestByte(b);
    if z < 8 {
      LowBits(KeccakSpec.LittleEndian(b), b[0], z);
    } else {
      BitOfShifted(KeccakSpec.LittleEndian(b), z - 8);
      LoadedBit(b[1..] + [0], z - 8);
      TailBits(b, z);
    }
  }

  lemma {:induction false} LaneByteBits(x: bv64, j: nat, i: nat)
    requires j < 8 && i < 8
    ensures ByteBits(LaneByte(x, j))[i] == Bit(x, 8 * j + i)
    decreases j
  {
    hide Bit, ByteBits, And8;
    if j == 0 {
      FirstLaneByte(x);
      LowBits(x, LaneByte(x, 0), i);
    } else {
      LaneByteBits(x >> 8, j - 1, i);
      BitOfShifted(x, 8 * (j - 1) + i);
    }
  }

  /** Bit `z` of a message, byte by byte. */
  lemma {:induction false} MessageBitAt(m: seq<byte>, z: nat)
    requires z < 8 * |m|
    ensures MessageBits(m)[z] == ByteBits(m[z / 8])[z % 8]
  {
    hide ByteBits;
    if z >= 8 {
      MessageBitAt(m[1..], z - 8);
      assert (z - 8) / 8 == z / 8 - 1 && (z - 8) % 8 == z % 8;
    }
  }

  lemma Places(z: nat)
    ensures z / 8 / 8 == z / 64 && 8 * (z / 8 % 8) + z % 8 == z % 64
  {
  }

  /** The first bytes of a state hold its first bits. */
  lemma StoredBits(a: KeccakSpec.State, n: nat)
    requires n <= 200
    ensures MessageBits(StateBytes(a, n)) == StateBits(a)[..8 * n]
  {
    hide Bit, ByteBits, LaneByte, MessageBits;
    forall z | 0 <= z < 8 * n ensures MessageBits(StateBytes(a, n))[z] == StateBits(a)[z] {
      MessageBitAt(StateBytes(a, n), z);
      Places(z);
      LaneByteBits(a[z / 64], z / 8 % 8, z % 8);
    }
  }

  lemma BlockPlaces(i: nat, n: nat)
    requires n % 8 == 0
    ensures i < 8 * n <==> 8 * (i / 64) < n
    ensures i < 8 * n ==> 8 * (i / 64) + 8 <= n
    ensures i / 8 == 8 * (i / 64) + i % 64 / 8 && i % 8 == i % 64 % 8
  {
  }

  lemma BlockBit(block: seq<byte>, i: nat, k: nat)
    requires i < 8 * |block| && |block| % 8 == 0 && k == i / 64 && 8 * k + 8 <= |block|
    ensures MessageBits(block)[i] == MessageBits(block[8 * k..8 * k + 8])[i % 64]
  {
    hide ByteBits, MessageBits;
    BlockPlaces(i, |block|);
    MessageBitAt(block, i);
    var lane := block[8 * k..8 * k + 8];
    MessageBitAt(lane, i % 64);
    assert lane[i % 64 / 8] == block[i / 8];
  }

  lemma AddedLane(a: KeccakSpec.State, block: seq<byte>, k: nat)
    requires |block| % 8 == 0 && |block| <= 200 && k < 25
    ensures 8 * k < |block| ==> 8 * k + 8 <= |block|
    ensures KeccakSpec.AddBlock(a, block)[k]
         == if 8 * k < |block| then KeccakSpec.Xor(a[k], KeccakSpec.LittleEndian(block[8 * k..8 * k + 8])) else a[k]
  {
    hide KeccakSpec.Xor, KeccakSpec.LittleEndian;
  }

  lemma StateBit(a: KeccakSpec.State, i: nat)
    requires i < 1600
    ensures StateBits(a)[i] == Bit(a[i / 64], i % 64)
  {
    hide Bit;
  }

  lemma AddedBit(a: KeccakSpec.State, block: seq<byte>, i: nat)
    requires |block| % 8 == 0 && |block| <= 200 && i < 1600
    ensures StateBits(KeccakSpec.AddBlock(a, block))[i]
         == if i < 8 * |block| then Fips202.Xor(StateBits(a)[i], MessageBits(block)[i]) else StateBits(a)[i]
  {
    hide *;
    var k := i / 64;
    BlockPlaces(i, |block|);
    AddedLane(a, block, k);
    StateBit(KeccakSpec.AddBlock(a, block), i);
    StateBit(a, i);
    if i < 8 * |block| {
      BlockBit(block, i, k);
      LoadedBit(block[8 * k..8 * k + 8], i % 64);
      XorBit(a[k], KeccakSpec.LittleEndian(block[8 * k..8 * k + 8]), i % 64);
    }
  }

  /** Adding a block flips exactly the bits of the state where the block has ones. */
  lemma AddedOnBits(a: KeccakSpec.State, block: seq<byte>)
    requires |block| % 8 == 0 && |block| <= 200
    ensures StateBits(KeccakSpec.AddBlock(a, block)) == Fips202.Added(StateBits(a), MessageBits(block))
  {
    hide StateBits, MessageBits, KeccakSpec.AddBlock, Fips202.Xor;
    forall i | 0 <= i < 1600
      ensures StateBits(KeccakSpec.AddBlock(a, block))[i] == Fips202.Added(StateBits(a), MessageBits(block))[i]
    {
      AddedBit(a, block, i);
    }
  }

  lemma Rate(alg: Algorithm)
    requires IsSponge(alg)
    ensures 8 * BlockSize(alg) == 1600 - 2 * Size(alg.bits) && BlockSize(alg) % 8 == 0 && BlockSize(alg) <= 200
    ensures Size(alg.bits) % 8 == 0 && Size(alg.bits) <= 8 * BlockSize(alg)
  {
  }

  lemma MessageBitsCut(m: seq<byte>, n: nat)
    requires n <= |m|
    ensures MessageBits(m)[..8 * n] == MessageBits(m[..n]) && MessageBits(m)[8 * n..] == MessageBits(m[n..])
  {
    hide MessageBits;
    MessageBitsAppend(m[..n], m[n..]);
    assert m == m[..n] + m[n..];
  }

  lemma SpongeStep(alg: Algorithm, a: KeccakSpec.State, block: seq<byte>)
    requires IsSponge(alg) && |block| == BlockSize(alg)
    ensures |block| % 8 == 0 && |block| <= 200
    ensures SchemeOf(alg).step(Lanes(a), block) == Lanes(KeccakSpec.Compress(a, block))
  {
    hide KeccakSpec.Compress;
    Rate(alg);
  }

  /** One block changes what is kept, seen through `view`, as the bits of the block change the view. */
  ghost predicate StepsAgree<C(!new), B>(scheme: Scheme<C>, kept: C -> bool, view: C -> B, step: (B, seq<bool>) -> B) {
    forall c, block | kept(c) && |block| == scheme.size ::
      kept(scheme.step(c, block)) && view(scheme.step(c, block)) == step(view(c), MessageBits(block))
  }

  /** Folding bytes block by block is, seen through `view`, going through their bits block by block. */
  lemma {:induction false} FoldOnBits<C(!new), B>(scheme: Scheme<C>, kept: C -> bool, view: C -> B, step: (B, seq<bool>) -> B, c: C, p: seq<byte>)
    requires scheme.size > 0 && kept(c) && StepsAgree(scheme, kept, view, step)
    ensures kept(Fold(scheme, c, p)) && view(Fold(scheme, c, p)) == Fips202.Blocks(step, view(c), 8 * scheme.size, MessageBits(p))
    decreases |p|
  {
    hide MessageBits;
    if |p| >= scheme.size {
      MessageBitsCut(p, scheme.size);
      FoldOnBits(scheme, kept, view, step, scheme.step(c, p[..scheme.size]), p[scheme.size..]);
    }
  }

  /** The state array of a chaining value. */
  function View(c: Chain): Fips202.State { if c.Lanes? then StateBits(c.lanes) else Fips202.Start() }

  function HasLanes(c: Chain): bool { c.Lanes? }

  /** Absorbing a block does to the lanes what section 4 of FIPS 202 does to the bits. */
  lemma SpongeOnBits(alg: Algorithm)
    requires IsSponge(alg)
    ensures StepsAgree(SchemeOf(alg), HasLanes, View, Fips202.Mixed)
  {
    hide StateBits, MessageBits, Fips202.Added, Fips202.KeccakF, KeccakSpec.AddBlock, KeccakSpec.KeccakF, BlockSize, Step;
    forall c, block | HasLanes(c) && |block| == SchemeOf(alg).size
      ensures HasLanes(SchemeOf(alg).step(c, block))
      ensures View(SchemeOf(alg).step(c, block)) == Fips202.Mixed(View(c), MessageBits(block))
    {
      SpongeStep(alg, c.lanes, block);
      AddedOnBits(c.lanes, block);
      PermutationOnBits();
      assert StateBits(KeccakSpec.KeccakF(KeccakSpec.AddBlock(c.lanes, block))) == Fips202.KeccakF(StateBits(KeccakSpec.AddBlock(c.lanes, block)));
    }
  }

  lemma StartBits(a: KeccakSpec.State)
    requires forall k | 0 <= k < 25 :: a[k] == 0
    ensures StateBits(a) == Fips202.Start()
  {
    hide Bit;
    forall i | 0 <= i < 1600 ensures !StateBits(a)[i] {
      BitOfZero(i % 64);
    }
  }

  /** The message with suffix and padding, bit by bit. */
  lemma PaddedBits(alg: Algorithm, message: seq<byte>)
    requires IsSponge(alg)
    ensures
      var m := MessageBits(message) + DomainSuffix(alg);
      MessageBits(Padded(alg, message)) == m + Fips202.Pad101(8 * BlockSize(alg), |m|)
  {
    hide MessageBits, Padding, BlockSize, DomainSuffix, Fips202.Pad101;
    SpongePadding(alg, |message|);
    MessageBitsAppend(message, Padding(alg, |message|));
  }

  lemma DigestBits(alg: Algorithm, message: seq<byte>)
    requires IsSponge(alg)
    ensures 2 * Size(alg.bits) < 1600 && Size(alg.bits) <= 1600 - 2 * Size(alg.bits)
    ensures MessageBits(Digest(alg, message))
         == Fips202.Keccak(2 * Size(alg.bits), MessageBits(message) + DomainSuffix(alg), Size(alg.bits))
  {
    hide StateBits, MessageBits, StateBytes, Padded, DomainSuffix, BlockSize, Fold, StepsAgree, Fips202.Blocks, Fips202.Pad101;
    Rate(alg);
    var c := Initial(alg);
    StartBits(c.lanes);
    PaddedBits(alg, message);
    SpongeOnBits(alg);
    FoldOnBits(SchemeOf(alg), HasLanes, View, Fips202.Mixed, c, Padded(alg, message));
    StoredBits(Absorb(alg, c, Padded(alg, message)).lanes, Size(alg.bits) / 8);
  }

  /** SHA-3 and KECCAK of the hash library are the functions of sections 6.1 and 5.2 of FIPS 202. */
  lemma StandardDigests(bits: Bits, message: seq<byte>)
    ensures 3 * Size(bits) <= 1600
    ensures MessageBits(Digest(SHA3(bits), message)) == Fips202.Sha3(Size(bits), MessageBits(message))
    ensures MessageBits(Digest(KECCAK(bits), message)) == Fips202.Keccak(2 * Size(bits), MessageBits(message), Size(bits))
  {
    hide MessageBits, Digest, Fips202.Keccak;
    DigestBits(SHA3(bits), message);
    DigestBits(KECCAK(bits), message);
    assert MessageBits(message) + [] == MessageBits(message);
  }
}
