/** The streaming hash object. The five hash classes of the library share its methods;
    the algorithm, fixed at construction, decides block size, block function and output. */
module Hasher {
  import opened Bytes
  import opened Words
  import opened BlockArithmetic
  import opened BlockFold
  import opened HashSpec
  import opened Streaming
  import Md5
  import Sha1
  import Sha256
  import KeccakCode
  import Hex

  lemma Longer(m: seq<byte>, data: seq<byte>, i: nat, j: nat)
    requires i <= j <= |data|
    ensures (m + data[..i]) + data[i..j] == m + data[..j]
    ensures j == i + 1 ==> data[i..j] == [data[i]]
  {
  }

  method Put8(target: array<byte>, at: nat, bytes: seq<byte>)
    requires |bytes| == 8 && at + 8 <= target.Length
    modifies target
    ensures target[..] == old(target[..at]) + bytes + old(target[at + 8..])
  {
    for i := 0 to 8
      invariant target[..] == old(target[..at]) + bytes[..i] + old(target[at + i..])
    {
      target[at + i] := bytes[i];
    }
  }

  lemma LowBytesStep(n: nat, count: int)
    requires count >= -1
    ensures LowBytes(n, count + 3) == [ByteOf(n), ByteOf(n / 256)] + LowBytes(n / 256 / 256, count + 1)
    ensures LowBytes(n, 0) == []
  {
    hide ByteOf;
  }

  lemma LowBytesOf8(n: nat)
    ensures LowBytes(n, 8) == [ByteOf(n), ByteOf(n / 256), ByteOf(n / 256 / 256), ByteOf(n / 256 / 256 / 256),
      ByteOf(n / 256 / 256 / 256 / 256), ByteOf(n / 256 / 256 / 256 / 256 / 256),
      ByteOf(n / 256 / 256 / 256 / 256 / 256 / 256), ByteOf(n / 256 / 256 / 256 / 256 / 256 / 256 / 256)]
  {
    hide ByteOf, LowBytes;
    LowBytesStep(n, 5);
    LowBytesStep(n / 256 / 256, 3);
    LowBytesStep(n / 256 / 256 / 256 / 256, 1);
    LowBytesStep(n / 256 / 256 / 256 / 256 / 256 / 256, -1);
  }

  lemma Recombined(n: int, a: int, m: int, r: int, q: int, s: int)
    requires n == a * m + r && 0 <= r < a && m == 256 * q + s && 0 <= s < 256
    ensures n == 256 * a * q + (a * s + r) && 0 <= a * s + r < 256 * a
  {
    assert a * m == 256 * (a * q) + a * s;
    assert 0 <= a * s <= a * 255;
  }

  lemma DivTwice(n: nat, a: nat)
    requires a > 0
    ensures n / a / 256 == n / (256 * a)
  {
    var m := n / a;
    Recombined(n, a, m, n % a, m / 256, m % 256);
    DivUnique(n, 256 * a, m / 256, a * (m % 256) + n % a);
  }

  lemma HighFirstStep(n: nat, count: int)
    requires count >= -1
    ensures HighFirst(n, count + 3) == HighFirst(n / 256 / 256, count + 1) + [ByteOf(n / 256), ByteOf(n)]
    ensures HighFirst(n, 0) == []
  {
    hide ByteOf;
  }

  lemma HighFirstOf8(n: nat)
    ensures HighFirst(n, 8) == [ByteOf(n / 0x100_0000_0000_0000), ByteOf(n / 0x1_0000_0000_0000),
      ByteOf(n / 0x100_0000_0000), ByteOf(n / 0x1_0000_0000), ByteOf(n / 0x100_0000), ByteOf(n / 0x1_0000),
      ByteOf(n / 0x100), ByteOf(n)]
  {
    hide ByteOf, HighFirst;
    DivTwice(n, 0x100);
    DivTwice(n, 0x1_0000);
    DivTwice(n, 0x100_0000);
    DivTwice(n, 0x1_0000_0000);
    DivTwice(n, 0x100_0000_0000);
    DivTwice(n, 0x1_0000_0000_0000);
    HighFirstStep(n, 5);
    HighFirstStep(n / 256 / 256, 3);
    HighFirstStep(n / 256 / 256 / 256 / 256, 1);
    HighFirstStep(n / 256 / 256 / 256 / 256 / 256 / 256, -1);
  }

  /** Writes the bit length in the algorithm's byte order. */
  method WriteLength(alg: Algorithm, target: array<byte>, at: nat, length: nat)
    requires at + 8 <= target.Length && length < TWO64
    modifies target
    ensures target[..] == old(target[..at]) + (if alg.MD5? then LowBytes(length, 8) else HighFirst(length, 8)) + old(target[at + 8..])
  {
    hide *;
    if alg.MD5? {
      LowBytesOf8(length);
      var b0, msgBits := ByteOf(length), length / 256;
      var b1 := ByteOf(msgBits); msgBits := msgBits / 256;
      var b2 := ByteOf(msgBits); msgBits := msgBits / 256;
      var b3 := ByteOf(msgBits); msgBits := msgBits / 256;
      var b4 := ByteOf(msgBits); msgBits := msgBits / 256;
      var b5 := ByteOf(msgBits); msgBits := msgBits / 256;
      var b6 := ByteOf(msgBits); msgBits := msgBits / 256;
      Put8(target, at, [b0, b1, b2, b3, b4, b5, b6, ByteOf(msgBits)]);
    } else {
      HighFirstOf8(length);
      Put8(target, at, [ByteOf(length / 0x100_0000_0000_0000), ByteOf(length / 0x1_0000_0000_0000),
        ByteOf(length / 0x100_0000_0000), ByteOf(length / 0x1_0000_0000), ByteOf(length / 0x100_0000),
        ByteOf(length / 0x1_0000), ByteOf(length / 0x100), ByteOf(length)]);
    }
  }

  /** Bits to append until the length is 448 modulo 512, as bytes of the padded buffer. */
  method PaddedLength(bufferSize: nat) returns (paddedLength: nat)
    requires bufferSize <= 64
    ensures paddedLength == if bufferSize < 56 then 56 else 120
  {
    paddedLength := bufferSize * 8;
    paddedLength := paddedLength + 1;
    var lower11Bits := paddedLength % 512;
    if lower11Bits <= 448 {
      paddedLength := paddedLength + (448 - lower11Bits);
    } else {
      paddedLength := paddedLength + (512 + 448 - lower11Bits);
    }
    paddedLength := paddedLength / 8;
  }

  /** A 64-bit counter's value. */
  function Wrapped(n: nat): (r: nat)
    ensures r < TWO64
  {
    n % TWO64
  }

  lemma ZerosNeeded(bufferSize: nat)
    requires bufferSize <= 64
    ensures bufferSize + 1 + ZeroCount(bufferSize) == if bufferSize < 56 then 56 else 120
  {
  }

  method FillExtra(extra: array<byte>, start: nat, paddedLength: nat)
    requires extra.Length == 64 && 64 <= start && paddedLength <= 120
    modifies extra
    ensures forall k | 0 <= k < 64 && k < start - 64 :: extra[k] == old(extra[k])
    ensures forall k | start - 64 <= k < paddedLength - 64 :: extra[k] == 0
  {
    var i := start;
    while i < paddedLength
      invariant start <= i && (start <= 120 ==> i <= 120)
      invariant forall k | 0 <= k < 64 && k < start - 64 :: extra[k] == old(extra[k])
      invariant forall k | start - 64 <= k < i - 64 && k < 64 :: extra[k] == 0
    {
      extra[i - 64] := 0;
      i := i + 1;
    }
  }

  /** Marker and zeros behind the held bytes, flowing over into `extra`. */
  method FillZeros(buffer: array<byte>, extra: array<byte>, bufferSize: nat, paddedLength: nat)
    requires buffer != extra && buffer.Length >= 64 && extra.Length == 64 && bufferSize <= 64
    requires paddedLength == if bufferSize < 56 then 56 else 120
    modifies buffer, extra
    ensures forall k | 0 <= k < bufferSize :: buffer[k] == old(buffer[k])
    ensures if bufferSize < 64 then buffer[bufferSize] == 128 else extra[0] == 128
    ensures forall k | bufferSize < k < 64 :: buffer[k] == 0
    ensures paddedLength > 64 ==> forall k | 0 <= k < 56 && bufferSize < k + 64 :: extra[k] == 0
  {
    if bufferSize < 64 {
      buffer[bufferSize] := 128;
    } else {
      extra[0] := 128;
    }
    var i := bufferSize + 1;
    while i < 64
      invariant bufferSize < i && (bufferSize < 64 ==> i <= 64) && (bufferSize == 64 ==> i == 65)
      invariant forall k | 0 <= k < bufferSize :: buffer[k] == old(buffer[k])
      invariant if bufferSize < 64 then buffer[bufferSize] == 128 else extra[0] == 128
      invariant forall k | bufferSize < k < i && k < 64 :: buffer[k] == 0
    {
      buffer[i] := 0;
      i := i + 1;
    }
    FillExtra(extra, i, paddedLength);
  }

  method FillMarker(buffer: array<byte>, extra: array<byte>, bufferSize: nat, paddedLength: nat)
    requires buffer != extra && buffer.Length >= 64 && extra.Length == 64 && bufferSize <= 64
    requires paddedLength == if bufferSize < 56 then 56 else 120
    modifies buffer, extra
    ensures paddedLength < 64 ==>
      buffer[..paddedLength] == old(buffer[..bufferSize]) + [128] + Zeros(ZeroCount(bufferSize))
    ensures paddedLength > 64 ==>
      buffer[..64] + extra[..paddedLength - 64] == old(buffer[..bufferSize]) + [128] + Zeros(ZeroCount(bufferSize))
    ensures buffer[..bufferSize] == old(buffer[..bufferSize])
  {
    hide ZeroCount;
    FillZeros(buffer, extra, bufferSize, paddedLength);
    ZerosNeeded(bufferSize);
  }

  lemma TailIs(alg: Algorithm, bufferSize: nat, numBytes: nat)
    requires !IsSponge(alg)
    ensures var msgBits := Wrapped(8 * (numBytes + bufferSize));
      Tail(alg, bufferSize, numBytes) == [128] + Zeros(ZeroCount(bufferSize)) + (if alg.MD5? then LowBytes(msgBits, 8) else HighFirst(msgBits, 8))
  {
    hide LowBytes, HighFirst, Zeros, ZeroCount;
  }

  /** Lays out marker, zeros and length behind the held bytes, in one block or two. */
  method PadBlocks(alg: Algorithm, buffer: array<byte>, extra: array<byte>, bufferSize: nat, numBytes: nat)
    returns (paddedLength: nat)
    requires !IsSponge(alg) && bufferSize <= 64 && buffer.Length >= 64 && extra.Length == 64 && extra != buffer
    modifies buffer, extra
    ensures paddedLength == 56 || paddedLength == 120
    ensures paddedLength < 64 ==> buffer[..64] == old(buffer[..bufferSize]) + Tail(alg, bufferSize, numBytes)
    ensures paddedLength > 64 ==> buffer[..64] + extra[..] == old(buffer[..bufferSize]) + Tail(alg, bufferSize, numBytes)
    ensures buffer[..bufferSize] == old(buffer[..bufferSize])
  {
    hide *;
    paddedLength := PaddedLength(bufferSize);
    FillMarker(buffer, extra, bufferSize, paddedLength);
    TailIs(alg, bufferSize, numBytes);
    var msgBits := Wrapped(8 * (numBytes + bufferSize));
    ghost var held := buffer[..bufferSize];
    if paddedLength < 64 {
      WriteLength(alg, buffer, paddedLength, msgBits);
      assert buffer[..bufferSize] == held;
    } else {
      ghost var second := extra[..56];
      WriteLength(alg, extra, paddedLength - 64, msgBits);
      assert extra[..56] == second;
      assert buffer[..64] + extra[..] == (buffer[..64] + extra[..56]) + extra[56..];
    }
  }

  function LastBit(b: byte): byte { b | 0x80 }

  lemma LastPadByte(b: byte)
    ensures LastBit(0) == 0x80 && LastBit(b) == b | 0x80
  {
  }

  /** The sponge's padding behind the held bytes. */
  method PadSponge(alg: Algorithm, buffer: array<byte>, bufferSize: nat)
    requires IsSponge(alg) && bufferSize < BlockSize(alg) <= buffer.Length
    modifies buffer
    ensures buffer[..BlockSize(alg)] == old(buffer[..bufferSize]) + Padding(alg, bufferSize)
    ensures buffer[..bufferSize] == old(buffer[..bufferSize])
  {
    hide BlockSize, FirstPadByte;
    var blockSize := BlockSize(alg);
    Remainders(bufferSize, blockSize);
    var offset := bufferSize;
    buffer[offset] := FirstPadByte(alg);
    offset := offset + 1;
    while offset < blockSize
      invariant bufferSize < offset <= blockSize
      invariant forall k | 0 <= k < bufferSize :: buffer[k] == old(buffer[k])
      invariant buffer[bufferSize] == FirstPadByte(alg)
      invariant forall k | bufferSize < k < offset :: buffer[k] == 0
    {
      buffer[offset] := 0;
      offset := offset + 1;
    }
    LastPadByte(0);
    buffer[blockSize - 1] := LastBit(buffer[blockSize - 1]);
  }

  method Restore<T>(target: array<T>, saved: seq<T>)
    requires target.Length == |saved|
    modifies target
    ensures target[..] == saved
  {
    for i := 0 to target.Length
      invariant target[..i] == saved[..i]
    {
      target[i] := saved[i];
    }
  }

  lemma NoWords(alg: Algorithm)
    ensures WordBytes(alg, []) == []
  {
  }

  lemma {:induction false} WordBytesAppend(alg: Algorithm, x: seq<bv32>, w: bv32)
    ensures WordBytes(alg, x + [w])
         == WordBytes(alg, x) + (if alg.MD5? then LittleEndianBytes(w) else BigEndianBytes(w))
  {
    hide LittleEndianBytes, BigEndianBytes;
    if x == [] {
      assert x + [w] == [w] && [w][1..] == [];
    } else {
      assert (x + [w])[1..] == x[1..] + [w];
      WordBytesAppend(alg, x[1..], w);
    }
  }

  /** Writes out the words in the algorithm's byte order, putting the saved ones back as it goes. */
  method WriteWords(alg: Algorithm, words: array<bv32>, saved: seq<bv32>) returns (raw: seq<byte>)
    requires words.Length == |saved|
    modifies words
    ensures raw == WordBytes(alg, old(words[..]))
    ensures words[..] == saved
  {
    hide WordBytes, LittleEndianBytes, BigEndianBytes;
    ghost var final := words[..];
    raw := [];
    NoWords(alg);
    for i := 0 to words.Length
      invariant words[..i] == saved[..i] && words[i..] == final[i..]
      invariant raw == WordBytes(alg, final[..i])
    {
      assert words[i] == words[i..][0] == final[i];
      raw := raw + if alg.MD5? then LittleEndianBytes(words[i]) else BigEndianBytes(words[i]);
      WordBytesAppend(alg, final[..i], final[i]);
      assert final[..i + 1] == final[..i] + [final[i]];
      words[i] := saved[i];
    }
    assert final[..words.Length] == final;
  }

  /** The two digits of byte `j` of a lane. */
  function ByteDigits(x: bv64, j: nat): string
    requires j < 8
  {
    var oneByte := LaneByte(x, j);
    [Hex.Digit(oneByte >> 4), Hex.Digit(oneByte & 15)]
  }

  lemma NoStateBytes(lanes: KeccakSpec.State)
    ensures Hex.OfBytes(StateBytes(lanes, 0)) == ""
  {
  }

  lemma NextStateByte(lanes: KeccakSpec.State, i: nat, j: nat)
    requires i < 25 && j < 8
    ensures Hex.OfBytes(StateBytes(lanes, 8 * i + j + 1)) == Hex.OfBytes(StateBytes(lanes, 8 * i + j)) + ByteDigits(lanes[i], j)
  {
    hide LaneByte, Hex.Digit, Hex.OfBytes;
    var n, b := 8 * i + j, LaneByte(lanes[i], j);
    assert StateBytes(lanes, n + 1) == StateBytes(lanes, n) + [b];
    Hex.Append(StateBytes(lanes, n), [b]);
    Hex.One(b);
  }

  /** Writes out the digest of a sponge: whole lanes, then the half lane that 224 bits leave. */
  method LaneDigits(bits: Bits, lanes: KeccakSpec.State) returns (result: string)
    ensures result == Hex.OfBytes(StateBytes(lanes, Size(bits) / 8))
  {
    hide LaneByte, Hex.OfBytes, StateBytes, ByteDigits;
    var bits := Size(bits);
    var hashLength := bits / 64;
    result := "";
    NoStateBytes(lanes);
    for i := 0 to hashLength
      invariant result == Hex.OfBytes(StateBytes(lanes, 8 * i))
    {
      for j := 0 to 8
        invariant result == Hex.OfBytes(StateBytes(lanes, 8 * i + j))
      {
        result := result + ByteDigits(lanes[i], j);
        NextStateByte(lanes, i, j);
      }
    }
    var remainder := bits - hashLength * 64;
    var processed := 0;
    while processed < remainder
      invariant processed % 8 == 0 && 0 <= processed <= remainder
      invariant result == Hex.OfBytes(StateBytes(lanes, 8 * hashLength + processed / 8))
    {
      result := result + ByteDigits(lanes[hashLength], processed / 8);
      NextStateByte(lanes, hashLength, processed / 8);
      processed := processed + 8;
    }
  }

  lemma DigitsOfByte(b: byte)
    ensures Hex.OfBytes([b]) == [Hex.Digit((b >> 4) & 15), Hex.Digit(b & 15)]
  {
    hide Hex.Digit;
    Hex.One(b);
    assert (b >> 4) & 15 == b >> 4;
  }

  method HexText(rawHash: seq<byte>) returns (result: string)
    ensures result == Hex.OfBytes(rawHash)
  {
    hide Hex.Digit;
    result := "";
    for i := 0 to |rawHash|
      invariant result == Hex.OfBytes(rawHash[..i])
    {
      result := result + [Hex.Digit((rawHash[i] >> 4) & 15), Hex.Digit(rawHash[i] & 15)];
      DigitsOfByte(rawHash[i]);
      Hex.Append(rawHash[..i], [rawHash[i]]);
      assert rawHash[..i + 1] == rawHash[..i] + [rawHash[i]];
    }
    assert rawHash[..|rawHash|] == rawHash;
  }

  lemma SpongeTail(alg: Algorithm, held: nat, count: nat)
    requires IsSponge(alg)
    ensures Tail(alg, held, count) == Padding(alg, held)
  {
  }

  class Hasher {
    const algorithm: Algorithm
    /** The chaining value of MD5, SHA-1 and SHA-256. */
    const words: array<bv32>
    /** The state of the sponges. */
    const lanes: array<bv64>
    const buffer: array<byte>
    var bufferSize: nat
    /** Bytes compressed so far, a 64-bit counter. */
    var numBytes: nat
    /** Everything added since the last reset. */
    ghost var message: seq<byte>

    ghost predicate Shaped()
      reads this`bufferSize
    {
      && words.Length == WordCount(algorithm) && lanes.Length == 25 && buffer.Length == 144
      && bufferSize <= BlockSize(algorithm)
    }

    ghost function Chaining(): (c: Chain)
      requires words.Length == WordCount(algorithm) && lanes.Length == 25
      reads words, lanes
      ensures Fits(algorithm, c)
    {
      if IsSponge(algorithm) then Lanes(lanes[..]) else Words(words[..])
    }

    ghost function State(): (s: Memory<Chain>)
      requires Shaped()
      reads this`bufferSize, this`numBytes, words, lanes, buffer
      ensures Fits(algorithm, s.chain)
    {
      Memory(buffer[..bufferSize], Chaining(), numBytes)
    }

    ghost predicate Valid()
      reads this, words, lanes, buffer
    {
      Shaped() && Consumed(SchemeOf(algorithm), State(), message) && bufferSize < BlockSize(algorithm)
    }

    constructor (algorithm: Algorithm)
      ensures Valid() && message == [] && this.algorithm == algorithm
      ensures fresh(words) && fresh(lanes) && fresh(buffer)
    {
      this.algorithm := algorithm;
      words := new bv32[WordCount(algorithm)];
      lanes := new bv64[25];
      buffer := new byte[144];
      bufferSize, numBytes, message := 0, 0, [];
      new;
      Reset();
    }

    method LoadInitial()
      requires words.Length == WordCount(algorithm) && lanes.Length == 25
      modifies words, lanes
      ensures Chaining() == Initial(algorithm)
    {
      if IsSponge(algorithm) {
        for i := 0 to 25
          invariant forall k | 0 <= k < i :: lanes[k] == 0
        {
          lanes[i] := 0;
        }
      } else {
        var initial := Initial(algorithm).words;
        for i := 0 to words.Length
          invariant forall k | 0 <= k < i :: words[k] == initial[k]
        {
          words[i] := initial[i];
        }
      }
    }

    method Clear()
      requires Shaped()
      modifies this
      ensures Shaped() && bufferSize == 0 && numBytes == 0 && message == []
      ensures words.Length == WordCount(algorithm) && lanes.Length == 25
    {
      bufferSize, numBytes := 0, 0;
      message := [];
    }

    lemma StateIs()
      requires Shaped()
      ensures State() == Memory(buffer[..bufferSize], Chaining(), numBytes)
      ensures Valid() <==> Consumed(SchemeOf(algorithm), State(), message) && bufferSize < BlockSize(algorithm)
      ensures 0 < BlockSize(algorithm) == SchemeOf(algorithm).size && SchemeOf(algorithm).initial == Initial(algorithm)
    {
      hide Chaining, Consumed, SchemeOf, Initial;
    }

    method Reset()
      requires Shaped()
      modifies this, words, lanes
      ensures Valid() && message == []
    {
      hide *;
      Clear();
      LoadInitial();
      StateIs();
      Nothing(SchemeOf(algorithm));
      assert buffer[..bufferSize] == [];
    }

    method ProcessBlock(data: seq<byte>)
      requires words.Length == WordCount(algorithm) && lanes.Length == 25
      requires |data| == BlockSize(algorithm)
      modifies words, lanes
      ensures Chaining() == SchemeOf(algorithm).step(old(Chaining()), data)
    {
      hide Md5Spec.Compress, Sha1Spec.Compress, Sha256Spec.Compress, KeccakSpec.Compress, BlockSize;
      match algorithm
      case MD5 => Md5.ProcessBlock(words, data);
      case SHA1 => Sha1.ProcessBlock(words, data);
      case SHA256 => Sha256.ProcessBlock(words, data);
      case KECCAK(_) => KeccakCode.ProcessBlock(lanes, data);
      case SHA3(_) => KeccakCode.ProcessBlock(lanes, data);
    }

    method HoldByte(b: byte)
      requires Shaped() && bufferSize < BlockSize(algorithm)
      modifies this`bufferSize, buffer
      ensures Shaped() && State() == Hold(old(State()), b) && bufferSize == old(bufferSize) + 1
    {
      buffer[bufferSize] := b;
      bufferSize := bufferSize + 1;
    }

    method FlushBuffer()
      requires Shaped() && bufferSize == BlockSize(algorithm)
      modifies this`bufferSize, this`numBytes, words, lanes
      ensures Shaped() && State() == Flush(SchemeOf(algorithm), old(State()), old(State()).held) && bufferSize == 0
    {
      hide Compress, BlockSize, SchemeOf;
      ProcessBlock(buffer[..bufferSize]);
      numBytes := (numBytes + BlockSize(algorithm)) % TWO64;
      bufferSize := 0;
    }

    method TakeBlock(block: seq<byte>)
      requires Shaped() && bufferSize == 0 && |block| == BlockSize(algorithm)
      modifies this`numBytes, words, lanes
      ensures Shaped() && State() == Flush(SchemeOf(algorithm), old(State()), block)
    {
      hide Compress, BlockSize, SchemeOf;
      ProcessBlock(block);
      numBytes := (numBytes + BlockSize(algorithm)) % TWO64;
    }

    /** The object's memory is that of having consumed `m`. */
    ghost predicate Tracks(m: seq<byte>)
      reads this`bufferSize, this`numBytes, words, lanes, buffer
    {
      Shaped() && Consumed(SchemeOf(algorithm), State(), m)
    }

    lemma SizeOfState()
      requires Shaped()
      ensures |State().held| == bufferSize
    {
    }

    /** Consumes one byte into the buffer. */
    method ConsumeByte(b: byte, ghost m: seq<byte>)
      requires Tracks(m) && bufferSize < BlockSize(algorithm)
      modifies this`bufferSize, buffer
      ensures Tracks(m + [b]) && bufferSize == old(bufferSize) + 1
    {
      hide Consumed, State, Hold, BlockSize, SchemeOf;
      SizeOfState();
      HoldStep(SchemeOf(algorithm), State(), m, b);
      HoldByte(b);
    }

    /** Compresses the buffer if it is full. */
    method CompressIfFull(ghost m: seq<byte>)
      requires Tracks(m)
      modifies this`bufferSize, this`numBytes, words, lanes
      ensures Tracks(m) && bufferSize < BlockSize(algorithm)
      ensures bufferSize == if old(bufferSize) == BlockSize(algorithm) then 0 else old(bufferSize)
    {
      hide Consumed, State, Flush, SchemeOf;
      if bufferSize == BlockSize(algorithm) {
        SizeOfState();
        FlushStep(SchemeOf(algorithm), State(), m);
        FlushBuffer();
      }
    }

    method ConsumeBlock(block: seq<byte>, ghost m: seq<byte>)
      requires Tracks(m) && bufferSize == 0 && |block| == BlockSize(algorithm)
      modifies this`numBytes, words, lanes
      ensures Tracks(m + block)
    {
      hide Consumed, State, Flush, BlockSize, SchemeOf;
      SizeOfState();
      BlockStep(SchemeOf(algorithm), State(), m, block);
      TakeBlock(block);
    }

    lemma ValidMeans()
      ensures Valid() <==> Tracks(message) && bufferSize < BlockSize(algorithm)
    {
    }

    /** Adding data appends it to the message, whatever the pieces. */
    method Add(data: seq<byte>)
      requires Valid()
      modifies this, words, lanes, buffer
      ensures Valid() && message == old(message) + data
    {
      hide *;
      ValidMeans();
      ghost var m := message;
      var current, left := 0, |data|;
      assert m + data[..current] == m;
      if bufferSize > 0 {
        while left > 0 && bufferSize < BlockSize(algorithm)
          invariant 0 <= current <= |data| && 0 <= left && current + left == |data| && message == m
          invariant Tracks(m + data[..current])
        {
          ConsumeByte(data[current], m + data[..current]);
          Longer(m, data, current, current + 1);
          current, left := current + 1, left - 1;
        }
      }
      CompressIfFull(m + data[..current]);
      if left == 0 {
        message := m + data;
        assert data[..current] == data;
        ValidMeans();
        return;
      }
      while left >= BlockSize(algorithm)
        invariant 0 <= current <= |data| && 0 <= left && current + left == |data| && message == m
        invariant Tracks(m + data[..current]) && bufferSize == 0
      {
        var block := data[current..current + BlockSize(algorithm)];
        ConsumeBlock(block, m + data[..current]);
        Longer(m, data, current, current + BlockSize(algorithm));
        current, left := current + BlockSize(algorithm), left - BlockSize(algorithm);
      }
      while left > 0
        invariant 0 <= current <= |data| && 0 <= left && current + left == |data| && message == m
        invariant Tracks(m + data[..current]) && bufferSize + left < BlockSize(algorithm)
      {
        ConsumeByte(data[current], m + data[..current]);
        Longer(m, data, current, current + 1);
        current, left := current + 1, left - 1;
      }
      message := m + data;
      assert data[..current] == data;
      ValidMeans();
    }

    /** Compresses the held bytes and their padding. */
    method ProcessBuffer()
      requires Shaped() && (IsSponge(algorithm) ==> bufferSize < BlockSize(algorithm))
      modifies words, lanes, buffer
      ensures Shaped() && buffer[..bufferSize] == old(buffer[..bufferSize])
      ensures Chaining() == Absorb(algorithm, old(Chaining()), old(buffer[..bufferSize]) + Tail(algorithm, bufferSize, numBytes))
    {
      hide SchemeOf, Tail, Fold, Padding, Chaining, BlockSize;
      ghost var scheme, chain := SchemeOf(algorithm), Chaining();
      if IsSponge(algorithm) {
        SpongeTail(algorithm, bufferSize, numBytes);
        PadSponge(algorithm, buffer, bufferSize);
        FoldOne(scheme, chain, buffer[..BlockSize(algorithm)]);
        ProcessBlock(buffer[..BlockSize(algorithm)]);
      } else {
        var extra := new byte[64];
        var paddedLength := PadBlocks(algorithm, buffer, extra, bufferSize, numBytes);
        ghost var first, second := buffer[..64], extra[..];
        ProcessBlock(buffer[..64]);
        FoldOne(scheme, chain, first);
        if paddedLength > 64 {
          ProcessBlock(extra[..]);
          FoldOne(scheme, scheme.step(chain, first), second);
          FoldAppend(scheme, chain, first, second);
        }
      }
    }

    /** Compresses the rest of the message and its padding; what is held stays. */
    method Finish()
      requires Valid()
      modifies words, lanes, buffer
      ensures Shaped() && buffer[..bufferSize] == old(buffer[..bufferSize])
      ensures Chaining() == Absorb(algorithm, Initial(algorithm), Padded(algorithm, message))
    {
      hide Compress, Tail, Padding, Initial, BlockSize, Fold, SchemeOf, Consumed;
      InRange(SchemeOf(algorithm), State(), message);
      TailIsPadding(algorithm, bufferSize, numBytes, |message|);
      FinalStep(SchemeOf(algorithm), State(), message, Padding(algorithm, |message|));
      ProcessBuffer();
    }

    /** The digest of everything added since the last reset, as the bytes MD5, SHA-1 and SHA-256
        write out. The object goes on as if it had not been asked. */
    method GetRawHash() returns (raw: seq<byte>)
      requires Valid() && !IsSponge(algorithm)
      modifies words, lanes, buffer
      ensures raw == Digest(algorithm, message)
      ensures Valid() && State() == old(State())
    {
      hide Compress, Absorb, Initial, Padded, BlockSize, Consumed, WordBytes, SchemeOf;
      var oldHash := words[..];
      Finish();
      raw := WriteWords(algorithm, words, oldHash);
    }

    /** The sponges write their hex text from the lanes themselves. */
    method GetSpongeHash() returns (result: string)
      requires Valid() && IsSponge(algorithm)
      modifies words, lanes, buffer
      ensures result == Hex.OfBytes(Digest(algorithm, message))
      ensures Valid() && State() == old(State())
    {
      hide Compress, Absorb, Initial, Padded, BlockSize, Consumed, StateBytes, SchemeOf;
      var oldHash := lanes[..];
      Finish();
      result := LaneDigits(algorithm.bits, lanes[..]);
      Restore(lanes, oldHash);
    }

    /** The digest as hex text. */
    method GetHash() returns (result: string)
      requires Valid()
      modifies words, lanes, buffer
      ensures result == Hex.OfBytes(Digest(algorithm, message))
      ensures Valid() && State() == old(State())
    {
      hide Digest, Valid, State;
      if IsSponge(algorithm) {
        result := GetSpongeHash();
      } else {
        var rawHash := GetRawHash();
        result := HexText(rawHash);
      }
    }

    /** The digest of one piece of data, whatever was added before. */
    method HashOf(data: seq<byte>) returns (result: string)
      requires Shaped()
      modifies this, words, lanes, buffer
      ensures Valid() && message == data && result == Hex.OfBytes(Digest(algorithm, data))
    {
      hide Digest, Valid, State;
      Reset();
      Add(data);
      result := GetHash();
    }
  }
}
