/** Bytes as numbers. */
module ByteNumbers {
  lemma ByteRoundTrip(n: int)
    requires 0 <= n < 256
    ensures var b := n as bv8; (b as int) == n
  {
  }
}

/** What the block hashers compute: padding, the fold of the compression function
    over the blocks, and the digest. One definition covers the five algorithms;
    they differ in block size, compression function, padding and output. */
module HashSpec {
  import opened Bytes
  import opened Words
  import opened BlockArithmetic
  import opened BlockFold
  import ByteNumbers
  import Fips202
  import Md5Spec
  import Sha1Spec
  import Sha256Spec
  import KeccakSpec

  datatype Bits = B224 | B256 | B384 | B512

  function Size(bits: Bits): nat {
    match bits
    case B224 => 224
    case B256 => 256
    case B384 => 384
    case B512 => 512
  }

  datatype Algorithm = MD5 | SHA1 | SHA256 | KECCAK(bits: Bits) | SHA3(bits: Bits)

  predicate IsSponge(alg: Algorithm) { alg.KECCAK? || alg.SHA3? }

  function BlockSize(alg: Algorithm): (n: nat)
    ensures 64 <= n <= 144 && n % 8 == 0
    ensures !IsSponge(alg) ==> n == 64
  {
    if IsSponge(alg) then 200 - 2 * (Size(alg.bits) / 8) else 64
  }

  /** The chaining value: 32-bit words, or the lanes of the sponge's state. */
  datatype Chain = Words(words: seq<bv32>) | Lanes(lanes: KeccakSpec.State)

  function WordCount(alg: Algorithm): nat {
    match alg
    case MD5 => 4
    case SHA1 => 5
    case SHA256 => 8
    case _ => 0
  }

  predicate Fits(alg: Algorithm, c: Chain) {
    if IsSponge(alg) then c.Lanes? else c.Words? && |c.words| == WordCount(alg)
  }

  function Initial(alg: Algorithm): (c: Chain)
    ensures Fits(alg, c)
  {
    match alg
    case MD5 => Words(Md5Spec.INITIAL)
    case SHA1 => Words(Sha1Spec.INITIAL)
    case SHA256 => Words(Sha256Spec.INITIAL)
    case _ => Lanes(seq(25, _ => 0))
  }

  function Compress(alg: Algorithm, c: Chain, block: seq<byte>): (r: Chain)
    requires Fits(alg, c) && |block| == BlockSize(alg)
    ensures Fits(alg, r)
  {
    match alg
    case MD5 => Words(Md5Spec.Compress(c.words, block))
    case SHA1 => Words(Sha1Spec.Compress(c.words, block))
    case SHA256 => Words(Sha256Spec.Compress(c.words, block))
    case _ => Lanes(KeccakSpec.Compress(c.lanes, block))
  }

  /** Compressing, as a step on any chaining value and any bytes. */
  function Step(alg: Algorithm, c: Chain, block: seq<byte>): Chain {
    if Fits(alg, c) && |block| == BlockSize(alg) then Compress(alg, c, block) else c
  }

  function SchemeOf(alg: Algorithm): (scheme: Scheme<Chain>)
    ensures scheme.size == BlockSize(alg) && scheme.initial == Initial(alg)
  {
    Scheme(BlockSize(alg), Initial(alg), (c, block) => Step(alg, c, block))
  }

  /** The complete blocks of a message, compressed one after the other. */
  function Absorb(alg: Algorithm, c: Chain, message: seq<byte>): Chain {
    Fold(SchemeOf(alg), c, message)
  }

  // ---------------------------------------------------------------------------
  // Padding
  // ---------------------------------------------------------------------------

  function Zeros(n: nat): (z: seq<byte>)
    ensures |z| == n && forall i | 0 <= i < n :: z[i] == 0
  {
    seq(n, _ => 0)
  }

  function ByteOf(n: nat): byte { (n % 256) as byte }

  /** The `count` low bytes of a number, least significant first. */
  function LowBytes(n: nat, count: nat): (b: seq<byte>)
    ensures |b| == count
  {
    if count == 0 then [] else [ByteOf(n)] + LowBytes(n / 256, count - 1)
  }

  function HighFirst(n: nat, count: nat): (b: seq<byte>)
    ensures |b| == count
  {
    if count == 0 then [] else HighFirst(n / 256, count - 1) + [ByteOf(n)]
  }

  /** The bit length of a message of `n` bytes as eight bytes, in the algorithm's byte order. */
  function LengthField(alg: Algorithm, n: nat): (b: seq<byte>)
    ensures |b| == 8
  {
    var msgBits := (8 * n) % TWO64;
    if alg.MD5? then LowBytes(msgBits, 8) else HighFirst(msgBits, 8)
  }

  /** The least number of zero bytes that lets 0x80, the zeros and the length complete a block. */
  function ZeroCount(n: nat): nat { (119 - n % 64) % 64 }

  function FirstPadByte(alg: Algorithm): byte {
    match alg
    case KECCAK(_) => 0x01
    case SHA3(_) => 0x06
    case _ => 0x80
  }

  /** What is appended to a message of `n` bytes. */
  function Padding(alg: Algorithm, n: nat): seq<byte> {
    var size := BlockSize(alg);
    if !IsSponge(alg) then [0x80] + Zeros(ZeroCount(n)) + LengthField(alg, n)
    else
      var room := size - n % size;
      if room == 1 then [FirstPadByte(alg) | 0x80] else [FirstPadByte(alg)] + Zeros(room - 2) + [0x80]
  }

  function Padded(alg: Algorithm, message: seq<byte>): seq<byte> {
    message + Padding(alg, |message|)
  }

  // ---------------------------------------------------------------------------
  // Output
  // ---------------------------------------------------------------------------

  function WordBytes(alg: Algorithm, words: seq<bv32>): (b: seq<byte>)
    ensures |b| == 4 * |words|
  {
    if words == [] then []
    else (if alg.MD5? then LittleEndianBytes(words[0]) else BigEndianBytes(words[0])) + WordBytes(alg, words[1..])
  }

  /** Byte `j` of a lane, counted from the least significant. */
  function LaneByte(x: bv64, j: nat): byte
    requires j < 8
    decreases j
  {
    if j == 0 then (x & 0xFF) as byte else LaneByte(x >> 8, j - 1)
  }

  /** The first `n` bytes of the sponge's state. */
  function StateBytes(lanes: KeccakSpec.State, n: nat): (b: seq<byte>)
    requires n <= 200
    ensures |b| == n
  {
    seq(n, i requires 0 <= i < n => LaneByte(lanes[i / 8], i % 8))
  }

  function Output(alg: Algorithm, c: Chain): seq<byte>
    requires Fits(alg, c)
  {
    if IsSponge(alg) then StateBytes(c.lanes, Size(alg.bits) / 8) else WordBytes(alg, c.words)
  }

  /** Every step keeps the shape of the chaining value. */
  lemma StepFits(alg: Algorithm)
    ensures forall d, block | Fits(alg, d) && |block| == SchemeOf(alg).size :: Fits(alg, SchemeOf(alg).step(d, block))
  {
    hide Compress, Fits, BlockSize;
  }

  /** The digest of a message: pad it, compress every block, write out the result. */
  function Digest(alg: Algorithm, message: seq<byte>): seq<byte> {
    StepFits(alg);
    FoldKeeps(SchemeOf(alg), d => Fits(alg, d), Initial(alg), Padded(alg, message));
    Output(alg, Absorb(alg, Initial(alg), Padded(alg, message)))
  }

  // ---------------------------------------------------------------------------
  // Laws of padding
  // ---------------------------------------------------------------------------

  /** Padding completes a block and is never empty. */
  lemma PaddedWhole(alg: Algorithm, message: seq<byte>)
    ensures |Padding(alg, |message|)| > 0 && |Padded(alg, message)| % BlockSize(alg) == 0
  {
    hide Zeros, LengthField, FirstPadByte, BlockSize;
    if IsSponge(alg) {
      Remainders(|message|, BlockSize(alg));
    }
  }

  /** The zero count is the least that makes bit length, marker and zeros congruent to 448 modulo 512. */
  lemma ZeroCountLeast(n: nat, k: nat)
    ensures (8 * n + 8 * (1 + ZeroCount(n))) % 512 == 448
    ensures (8 * n + 8 * (1 + k)) % 512 == 448 ==> k >= ZeroCount(n)
  {
    LeastTo56(n, k);
    EightTimes(n + 1 + k);
    EightTimes(n + 1 + ZeroCount(n));
    hide ZeroCount;
    assert 8 * n + 8 * (1 + k) == 8 * (n + 1 + k);
    assert 8 * n + 8 * (1 + ZeroCount(n)) == 8 * (n + 1 + ZeroCount(n));
  }

  lemma LastPadByteDiffers()
    ensures 0x01 as byte | 0x80 != 0x80 && 0x06 as byte | 0x80 != 0x80
  {
  }

  /** Messages of different length get different paddings somewhere inside: the longer
      one's first pad byte meets a zero, or the last byte, of the shorter one's. */
  lemma PaddingSeparates(alg: Algorithm, x: seq<byte>, y: seq<byte>)
    requires |x| < |y| && |Padded(alg, x)| == |Padded(alg, y)|
    ensures Padded(alg, x)[|y|] != Padded(alg, y)[|y|]
  {
    hide LengthField, BlockSize;
    var p, q := Padded(alg, x), Padded(alg, y);
    assert p[|y|] == Padding(alg, |x|)[|y| - |x|] && q[|y|] == Padding(alg, |y|)[0];
    if IsSponge(alg) {
      LastPadByteDiffers();
    }
  }

  /** Padding is injective, for messages of any length. */
  lemma PaddedInjective(alg: Algorithm, x: seq<byte>, y: seq<byte>)
    requires Padded(alg, x) == Padded(alg, y)
    ensures x == y
  {
    hide Padding, LengthField;
    if |x| < |y| {
      PaddingSeparates(alg, x, y);
    } else if |y| < |x| {
      PaddingSeparates(alg, y, x);
    } else {
      assert x == Padded(alg, x)[..|x|] && y == Padded(alg, y)[..|y|];
    }
  }

  lemma ByteOfIs(n: nat)
    ensures ByteOf(n) as int == n % 256
  {
    ByteNumbers.ByteRoundTrip(n % 256);
  }

  function Power256(count: nat): nat { if count == 0 then 1 else 256 * Power256(count - 1) }

  lemma {:induction false} HighFirstInjective(m: nat, n: nat, count: nat)
    requires m < Power256(count) && n < Power256(count) && HighFirst(m, count) == HighFirst(n, count)
    ensures m == n
    decreases count
  {
    hide ByteOf;
    if count > 0 {
      var p, q := HighFirst(m, count), HighFirst(n, count);
      assert p[..count - 1] == HighFirst(m / 256, count - 1) && q[..count - 1] == HighFirst(n / 256, count - 1);
      assert p[count - 1] == ByteOf(m) && q[count - 1] == ByteOf(n);
      ByteOfIs(m);
      ByteOfIs(n);
      HighFirstInjective(m / 256, n / 256, count - 1);
    }
  }

  lemma {:induction false} LowBytesInjective(m: nat, n: nat, count: nat)
    requires m < Power256(count) && n < Power256(count) && LowBytes(m, count) == LowBytes(n, count)
    ensures m == n
    decreases count
  {
    hide ByteOf;
    if count > 0 {
      var p, q := LowBytes(m, count), LowBytes(n, count);
      assert p[1..] == LowBytes(m / 256, count - 1) && q[1..] == LowBytes(n / 256, count - 1);
      assert p[0] == ByteOf(m) && q[0] == ByteOf(n);
      ByteOfIs(m);
      ByteOfIs(n);
      LowBytesInjective(m / 256, n / 256, count - 1);
    }
  }

  lemma Power256Of8()
    ensures Power256(8) == TWO64
  {
    assert Power256(4) == 0x1_0000_0000;
  }

  lemma LengthFieldInjective(alg: Algorithm, m: nat, n: nat)
    requires 8 * m < TWO64 && 8 * n < TWO64 && LengthField(alg, m) == LengthField(alg, n)
    ensures m == n
  {
    hide LowBytes, HighFirst;
    Power256Of8();
    if alg.MD5? {
      LowBytesInjective(8 * m, 8 * n, 8);
    } else {
      HighFirstInjective(8 * m, 8 * n, 8);
    }
  }

  lemma EndsInLength(alg: Algorithm, message: seq<byte>)
    requires !IsSponge(alg)
    ensures |Padded(alg, message)| == |message| + 1 + ZeroCount(|message|) + 8
    ensures Padded(alg, message)[|Padded(alg, message)| - 8..] == LengthField(alg, |message|)
  {
    hide LengthField, Zeros, ZeroCount;
  }

  /** Merkle-Damgard strengthening: below 2^61 bytes the length field tells lengths apart,
      so no padded message is the end of another one. */
  lemma PaddedSuffixFree(alg: Algorithm, x: seq<byte>, y: seq<byte>)
    requires !IsSponge(alg) && 8 * |x| < TWO64 && 8 * |y| < TWO64
    requires |Padded(alg, x)| <= |Padded(alg, y)|
    requires Padded(alg, y)[|Padded(alg, y)| - |Padded(alg, x)|..] == Padded(alg, x)
    ensures x == y
  {
    hide *;
    var p, q := Padded(alg, x), Padded(alg, y);
    EndsInLength(alg, x);
    EndsInLength(alg, y);
    assert q[|q| - 8..] == q[|q| - |p|..][|p| - 8..];
    LengthFieldInjective(alg, |x|, |y|);
    assert q[0..] == q;
    PaddedInjective(alg, x, y);
  }

  /** What finalising appends, known from the fill of the buffer and the counter alone. */
  function Tail(alg: Algorithm, held: nat, count: nat): seq<byte> {
    if IsSponge(alg) then Padding(alg, held) else [0x80] + Zeros(ZeroCount(held)) + LengthField(alg, count + held)
  }

  lemma EightWrapped(x: nat)
    ensures (8 * x) % TWO64 == (8 * (x % TWO64)) % TWO64
  {
  }

  lemma SameLengthField(alg: Algorithm, x: nat, y: nat)
    requires x % TWO64 == y % TWO64
    ensures LengthField(alg, x) == LengthField(alg, y)
  {
    hide LowBytes, HighFirst;
    EightWrapped(x);
    EightWrapped(y);
  }

  lemma SameZeroCount(x: nat, y: nat)
    requires x == y % 64
    ensures ZeroCount(x) == ZeroCount(y)
  {
  }

  /** The fill of the buffer and the counter know enough to pad the whole message, even when the
      counter has wrapped around. */
  lemma TailIsPadding(alg: Algorithm, held: nat, count: nat, total: nat)
    requires held < BlockSize(alg) && held == total % BlockSize(alg) && (count + held) % TWO64 == total % TWO64
    ensures Tail(alg, held, count) == Padding(alg, total)
  {
    hide BlockSize, Zeros, LengthField, ZeroCount, FirstPadByte;
    Remainders(held, BlockSize(alg));
    if !IsSponge(alg) {
      SameLengthField(alg, count + held, total);
      SameZeroCount(held, total);
    }
  }

  // ---------------------------------------------------------------------------
  // The sponge's padding bit by bit, as section 5.1 of FIPS 202 states it
  // ---------------------------------------------------------------------------

  /** The bits that set SHA-3 apart from the Keccak submission. */
  function DomainSuffix(alg: Algorithm): seq<bool> {
    if alg.SHA3? then [false, true] else []
  }

  lemma PadBytesAsBits()
    ensures ByteBits(0x01) == [true] + Fips202.Zeros(7) && ByteBits(0x80) == Fips202.Zeros(7) + [true]
    ensures ByteBits(0x06) == [false, true] + [true] + Fips202.Zeros(5)
    ensures ByteBits(0x01 | 0x80) == [true] + Fips202.Zeros(6) + [true]
    ensures ByteBits(0x06 | 0x80) == [false, true] + [true] + Fips202.Zeros(4) + [true]
    ensures ByteBits(0) == Fips202.Zeros(8)
  {
  }

  lemma {:induction false} ZerosAsBits(n: nat)
    ensures MessageBits(Zeros(n)) == Fips202.Zeros(8 * n)
  {
    if n > 0 {
      PadBytesAsBits();
      assert Zeros(n)[1..] == Zeros(n - 1);
      ZerosAsBits(n - 1);
    }
  }

  lemma OneByteBits(b: byte)
    ensures MessageBits([b]) == ByteBits(b)
  {
    hide ByteBits;
  }

  lemma SuffixLength(alg: Algorithm)
    ensures |DomainSuffix(alg)| <= 2
  {
  }

  lemma OneBytePad(alg: Algorithm)
    requires IsSponge(alg)
    ensures |DomainSuffix(alg)| <= 2
    ensures MessageBits([FirstPadByte(alg) | 0x80]) == DomainSuffix(alg) + ([true] + Fips202.Zeros(6 - |DomainSuffix(alg)|) + [true])
  {
    PadBytesAsBits();
    OneByteBits(FirstPadByte(alg) | 0x80);
    hide ByteBits, MessageBits;
  }

  lemma FirstPadBits(alg: Algorithm)
    requires IsSponge(alg)
    ensures |DomainSuffix(alg)| <= 2
    ensures MessageBits([FirstPadByte(alg)]) == DomainSuffix(alg) + [true] + Fips202.Zeros(7 - |DomainSuffix(alg)|)
  {
    PadBytesAsBits();
    OneByteBits(FirstPadByte(alg));
    hide ByteBits, MessageBits;
  }

  lemma LongPadBits(alg: Algorithm, zeros: nat)
    requires IsSponge(alg)
    ensures |DomainSuffix(alg)| <= 2
    ensures MessageBits([FirstPadByte(alg)] + Zeros(zeros) + [0x80])
         == DomainSuffix(alg) + ([true] + Fips202.Zeros(8 * zeros + 14 - |DomainSuffix(alg)|) + [true])
  {
    hide ByteBits, MessageBits, Zeros;
    var first := FirstPadByte(alg);
    FirstPadBits(alg);
    PadBytesAsBits();
    OneByteBits(0x80);
    ZerosAsBits(zeros);
    MessageBitsAppend([first] + Zeros(zeros), [0x80]);
    MessageBitsAppend([first], Zeros(zeros));
  }

  lemma PadZeroCount(size: int, n: nat, k: nat)
    requires size > 0 && k <= 2
    ensures (-(8 * n + k) - 2) % (8 * size) == 8 * (size - n % size) - k - 2
  {
    var q, room := n / size, size - n % size;
    assert (8 * size) * (-q - 1) == -8 * (size * q) - 8 * size;
    ModUnique(-(8 * n + k) - 2, 8 * size, -q - 1, 8 * room - k - 2);
  }

  /** The byte-wise padding of the sponges is the domain suffix followed by pad10*1. */
  lemma SpongePadding(alg: Algorithm, n: nat)
    requires IsSponge(alg)
    ensures MessageBits(Padding(alg, n))
         == DomainSuffix(alg) + Fips202.Pad101(8 * BlockSize(alg), 8 * n + |DomainSuffix(alg)|)
  {
    hide BlockSize, ByteBits, MessageBits, Zeros, FirstPadByte, Fips202.Zeros, DomainSuffix;
    SuffixLength(alg);
    var size := BlockSize(alg);
    PadZeroCount(size, n, |DomainSuffix(alg)|);
    if size - n % size > 1 {
      LongPadBits(alg, size - n % size - 2);
    } else {
      OneBytePad(alg);
    }
  }
}
