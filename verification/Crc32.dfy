/** CRC-32 as the hash library computes it: a slicing-by-8 loop over lookup tables
    with a byte-wise tail. It is proved equal to shifting the message one bit at a
    time through the reflected polynomial of RFC 1952, section 8. */
module Crc32Spec {
  import opened Bytes
  import opened Words
  import Hex

  const POLYNOMIAL: bv32 := 0xEDB88320

  // ---------------------------------------------------------------------------
  // The bit-serial register
  // ---------------------------------------------------------------------------

  /** One clock of the register without input. */
  function Clock(crc: bv32): bv32 {
    (crc >> 1) ^ ((crc & 1) * POLYNOMIAL)
  }

  /** `n` clocks without input. */
  function Clocks(n: nat, crc: bv32): bv32 {
    if n == 0 then crc else Clocks(n - 1, Clock(crc))
  }

  function BitWord(bit: bool): bv32 { if bit then 1 else 0 }

  /** Shifts bits, given in transmission order, through the register. */
  function FeedBits(crc: bv32, bits: seq<bool>): bv32
    decreases |bits|
  {
    if bits == [] then crc else FeedBits(Clock(Xor(crc, BitWord(bits[0]))), bits[1..])
  }

  /** The CRC of `data`, continuing from the CRC `start` of what came before (0 at first). */
  function CrcOf(start: bv32, data: seq<byte>): bv32 {
    Not(FeedBits(Not(start), MessageBits(data)))
  }

  // ---------------------------------------------------------------------------
  // The lookup tables, by the recurrence that generates them
  // ---------------------------------------------------------------------------

  /** Byte `k` of a word, counted from the least significant. */
  function ByteOf(x: bv32, k: nat): bv32
    requires k < 4
  {
    match k
    case 0 => x & 0xFF
    case 1 => (x >> 8) & 0xFF
    case 2 => (x >> 16) & 0xFF
    case _ => x >> 24
  }

  function Shr8(x: bv32): bv32 { x >> 8 }

  function Shl1(x: bv32): bv32 { x << 1 }

  function Shl8(x: bv32): bv32 { x << 8 }

  function Lookup(k: nat, i: bv32): bv32 {
    if k == 0 then Clocks(8, i)
    else Xor(Shr8(Lookup(k - 1, i)), Lookup(0, ByteOf(Lookup(k - 1, i), 0)))
  }

  // ---------------------------------------------------------------------------
  // The register is linear and each clock can be undone
  // ---------------------------------------------------------------------------

  /** The clock with the product by the low bit read as a choice. */
  function ClockByCases(x: bv32): bv32 {
    if x & 1 == 0 then x >> 1 else (x >> 1) ^ POLYNOMIAL
  }

  lemma ClockCases(x: bv32)
    ensures Clock(x) == ClockByCases(x)
  {
    assert x & 1 == 0 || x & 1 == 1;
  }

  lemma ClockByCasesLinearEven(x: bv32, y: bv32)
    requires x & 1 == 0 && y & 1 == 0
    ensures ClockByCases(Xor(x, y)) == Xor(ClockByCases(x), ClockByCases(y))
  {
  }

  lemma ClockByCasesLinearMixed(x: bv32, y: bv32)
    requires x & 1 == 0 && y & 1 != 0
    ensures ClockByCases(Xor(x, y)) == Xor(ClockByCases(x), ClockByCases(y))
  {
  }

  lemma ClockByCasesLinearOdd(x: bv32, y: bv32)
    requires x & 1 != 0 && y & 1 != 0
    ensures ClockByCases(Xor(x, y)) == Xor(ClockByCases(x), ClockByCases(y))
  {
  }

  lemma ClockLinear(x: bv32, y: bv32)
    ensures Clock(Xor(x, y)) == Xor(Clock(x), Clock(y))
  {
    hide *;
    ClockCases(x);
    ClockCases(y);
    ClockCases(Xor(x, y));
    if x & 1 == 0 && y & 1 == 0 {
      ClockByCasesLinearEven(x, y);
    } else if x & 1 == 0 {
      ClockByCasesLinearMixed(x, y);
    } else if y & 1 == 0 {
      XorComm(x, y);
      XorComm(ClockByCases(x), ClockByCases(y));
      ClockByCasesLinearMixed(y, x);
    } else {
      ClockByCasesLinearOdd(x, y);
    }
  }

  lemma {:induction false} ClocksLinear(n: nat, x: bv32, y: bv32)
    ensures Clocks(n, Xor(x, y)) == Xor(Clocks(n, x), Clocks(n, y))
  {
    hide Clock, Xor;
    if n > 0 {
      ClockLinear(x, y);
      ClocksLinear(n - 1, Clock(x), Clock(y));
    }
  }

  lemma ClockInjective(x: bv32, y: bv32)
    requires Clock(x) == Clock(y)
    ensures x == y
  {
  }

  lemma {:induction false} ClocksInjective(n: nat, x: bv32, y: bv32)
    requires Clocks(n, x) == Clocks(n, y)
    ensures x == y
  {
    hide Clock;
    if n > 0 {
      ClocksInjective(n - 1, Clock(x), Clock(y));
      ClockInjective(x, y);
    }
  }

  lemma {:induction false} ClocksAdd(m: nat, n: nat, x: bv32)
    ensures Clocks(m + n, x) == Clocks(n, Clocks(m, x))
  {
    hide Clock;
    if m > 0 {
      ClocksAdd(m - 1, n, Clock(x));
    }
  }

  // ---------------------------------------------------------------------------
  // Feeding up to 32 bits is one exclusive or followed by that many clocks
  // ---------------------------------------------------------------------------

  /** Bits packed into a word, the first one lowest. */
  function Pack(bits: seq<bool>): bv32 {
    if bits == [] then 0 else Xor(BitWord(bits[0]), Shl1(Pack(bits[1..])))
  }

  /** The word whose `n` low bits are set. */
  function Ones(n: nat): bv32 {
    if n == 0 then 0 else Xor(1, Shl1(Ones(n - 1)))
  }

  predicate Within(x: bv32, mask: bv32) { x & !mask == 0 }

  lemma WithinStep(bit: bool, x: bv32, mask: bv32)
    requires Within(x, mask)
    ensures Within(Xor(BitWord(bit), Shl1(x)), Xor(1, Shl1(mask)))
  {
    if bit {
    } else {
    }
  }

  lemma WithinTrans(x: bv32, y: bv32, z: bv32)
    requires Within(x, y) && Within(y, z)
    ensures Within(x, z)
  {
  }

  lemma {:induction false} PackWithin(bits: seq<bool>)
    ensures Within(Pack(bits), Ones(|bits|))
  {
    hide Xor, Shl1, BitWord;
    if bits == [] {
      assert Within(0, 0);
    } else {
      hide Within;
      PackWithin(bits[1..]);
      WithinStep(bits[0], Pack(bits[1..]), Ones(|bits| - 1));
    }
  }

  lemma OnesValues()
    ensures Ones(8) == 0xFF
    ensures Ones(16) == 0xFFFF
    ensures Ones(24) == 0xFFFFFF
    ensures Ones(31) == 0x7FFFFFFF
  {
  }

  lemma {:induction false} OnesMonotone(m: nat, n: nat)
    requires m <= n
    ensures Within(Ones(m), Ones(n))
    decreases n
  {
    hide Xor, Shl1;
    if m == 0 {
      assert Within(0, Ones(n));
    } else {
      hide Within;
      OnesMonotone(m - 1, n - 1);
      WithinStep(true, Ones(m - 1), Ones(n - 1));
    }
  }

  predicate TopClear(x: bv32) { x & 0x80000000 == 0 }

  lemma WithinTopClear(x: bv32)
    requires Within(x, 0x7FFFFFFF)
    ensures TopClear(x)
  {
  }

  lemma PackTopClear(bits: seq<bool>)
    requires |bits| <= 31
    ensures TopClear(Pack(bits))
  {
    hide *;
    PackWithin(bits);
    OnesMonotone(|bits|, 31);
    OnesValues();
    WithinTrans(Pack(bits), Ones(|bits|), Ones(31));
    WithinTopClear(Pack(bits));
  }

  lemma ClockShl1(x: bv32)
    requires TopClear(x)
    ensures Clock(Shl1(x)) == x
  {
  }

  lemma {:induction false} FeedIsClocks(crc: bv32, bits: seq<bool>)
    requires |bits| <= 32
    ensures FeedBits(crc, bits) == Clocks(|bits|, Xor(crc, Pack(bits)))
    decreases |bits|
  {
    hide Clock, Xor, Shl1, BitWord, TopClear;
    if bits == [] {
      XorUnit(crc);
    } else {
      var b, rest := BitWord(bits[0]), bits[1..];
      PackTopClear(rest);
      ClockShl1(Pack(rest));
      XorAssoc(crc, b, Shl1(Pack(rest)));
      ClockLinear(Xor(crc, b), Shl1(Pack(rest)));
      FeedIsClocks(Clock(Xor(crc, b)), rest);
    }
  }

  lemma PackStepInjective(b: bool, c: bool, x: bv32, y: bv32)
    requires TopClear(x) && TopClear(y)
    requires Xor(BitWord(b), Shl1(x)) == Xor(BitWord(c), Shl1(y))
    ensures b == c && x == y
  {
  }

  lemma {:induction false} PackInjective(x: seq<bool>, y: seq<bool>)
    requires |x| == |y| <= 32
    requires Pack(x) == Pack(y)
    ensures x == y
    decreases |x|
  {
    hide Xor, Shl1, BitWord, TopClear;
    if x != [] {
      PackTopClear(x[1..]);
      PackTopClear(y[1..]);
      PackStepInjective(x[0], y[0], Pack(x[1..]), Pack(y[1..]));
      PackInjective(x[1..], y[1..]);
      assert x == [x[0]] + x[1..] && y == [y[0]] + y[1..];
    }
  }

  // ---------------------------------------------------------------------------
  // Messages
  // ---------------------------------------------------------------------------

  lemma {:induction false} FeedAppend(crc: bv32, x: seq<bool>, y: seq<bool>)
    ensures FeedBits(crc, x + y) == FeedBits(FeedBits(crc, x), y)
    decreases |x|
  {
    hide Clock, Xor, BitWord;
    if x == [] {
      assert x + y == y;
    } else {
      assert (x + y)[1..] == x[1..] + y;
      FeedAppend(Clock(Xor(crc, BitWord(x[0]))), x[1..], y);
    }
  }

  lemma NotNot(x: bv32)
    ensures Not(Not(x)) == x
  {
  }

  /** Hashing in pieces is hashing the concatenation. */
  lemma Chunking(start: bv32, x: seq<byte>, y: seq<byte>)
    ensures CrcOf(CrcOf(start, x), y) == CrcOf(start, x + y)
  {
    hide FeedBits, MessageBits, Not;
    MessageBitsAppend(x, y);
    FeedAppend(Not(start), MessageBits(x), MessageBits(y));
    NotNot(FeedBits(Not(start), MessageBits(x)));
  }

  // ---------------------------------------------------------------------------
  // The tables compute whole bytes of the register's work
  // ---------------------------------------------------------------------------

  predicate TopByteClear(x: bv32) { x & 0xFF000000 == 0 }

  lemma Shl8IsShl1s(x: bv32)
    requires TopByteClear(x)
    ensures TopClear(x) && TopClear(x << 1) && TopClear(x << 2) && TopClear(x << 3)
    ensures TopClear(x << 4) && TopClear(x << 5) && TopClear(x << 6) && TopClear(x << 7)
    ensures Shl1(x) == x << 1 && Shl1(x << 1) == x << 2 && Shl1(x << 2) == x << 3 && Shl1(x << 3) == x << 4
    ensures Shl1(x << 4) == x << 5 && Shl1(x << 5) == x << 6 && Shl1(x << 6) == x << 7 && Shl1(x << 7) == Shl8(x)
  {
  }

  lemma ClocksShl8(x: bv32)
    requires TopByteClear(x)
    ensures Clocks(8, Shl8(x)) == x
  {
    Shl8IsShl1s(x);
    hide Clock, Shl1, Shl8, TopClear;
    ClockShl1(x << 7);
    ClockShl1(x << 6);
    ClockShl1(x << 5);
    ClockShl1(x << 4);
    ClockShl1(x << 3);
    ClockShl1(x << 2);
    ClockShl1(x << 1);
    ClockShl1(x);
    assert Clocks(2, Shl8(x)) == Clocks(1, x << 7) == x << 6;
    assert Clocks(2, x << 6) == Clocks(1, x << 5) == x << 4;
    assert Clocks(2, x << 4) == Clocks(1, x << 3) == x << 2;
    assert Clocks(2, x << 2) == Clocks(1, x << 1) == x;
    ClocksAdd(2, 6, Shl8(x));
    ClocksAdd(2, 4, x << 6);
    ClocksAdd(2, 2, x << 4);
  }

  lemma SplitLowByte(x: bv32)
    ensures x == Xor(Shl8(Shr8(x)), ByteOf(x, 0))
    ensures TopByteClear(Shr8(x))
  {
  }

  lemma {:induction false} TableLaw(k: nat, i: bv32)
    ensures Lookup(k, i) == Clocks(8 * (k + 1), i)
  {
    hide Clock, Xor, Shl8, Shr8, ByteOf, TopByteClear;
    if k > 0 {
      var before := Lookup(k - 1, i);
      TableLaw(k - 1, i);
      SplitLowByte(before);
      ClocksShl8(Shr8(before));
      ClocksLinear(8, Shl8(Shr8(before)), ByteOf(before, 0));
      ClocksAdd(8 * k, 8, i);
    }
  }

  /** The low byte of the register acts through table `k`; the rest moves down. */
  lemma ByteThroughTable(k: nat, x: bv32)
    ensures Clocks(8 * (k + 1), x) == Xor(Clocks(8 * k, Shr8(x)), Lookup(k, ByteOf(x, 0)))
  {
    hide *;
    SplitLowByte(x);
    ClocksLinear(8 * (k + 1), Shl8(Shr8(x)), ByteOf(x, 0));
    TableLaw(k, ByteOf(x, 0));
    ClocksAdd(8, 8 * k, Shl8(Shr8(x)));
    ClocksShl8(Shr8(x));
  }

  lemma WordBytes(x: bv32)
    ensures ByteOf(Shr8(x), 0) == ByteOf(x, 1)
    ensures ByteOf(Shr8(Shr8(x)), 0) == ByteOf(x, 2)
    ensures ByteOf(Shr8(Shr8(Shr8(x))), 0) == ByteOf(x, 3)
    ensures Shr8(Shr8(Shr8(Shr8(x)))) == 0
  {
  }

  lemma {:induction false} ClocksZero(n: nat)
    ensures Clocks(n, 0) == 0
  {
    if n > 0 {
      assert Clock(0) == 0;
      hide Clock;
      ClocksZero(n - 1);
    }
  }

  /** Four bytes of the register through four consecutive tables. */
  function WordLookup(k: nat, x: bv32): bv32 {
    Xor(Xor(Xor(Lookup(k + 3, ByteOf(x, 0)), Lookup(k + 2, ByteOf(x, 1))), Lookup(k + 1, ByteOf(x, 2))), Lookup(k, ByteOf(x, 3)))
  }

  lemma XorReverse(p: bv32, q: bv32, r: bv32, s: bv32)
    ensures Xor(Xor(Xor(s, r), q), p) == Xor(Xor(Xor(p, q), r), s)
  {
    hide *;
    XorComm(Xor(Xor(s, r), q), p);
    XorComm(Xor(s, r), q);
    XorComm(s, r);
    XorAssoc(p, q, Xor(r, s));
    XorAssoc(Xor(p, q), r, s);
  }

  lemma WordThroughTables(k: nat, x: bv32)
    ensures Clocks(8 * (k + 4), x) == WordLookup(k, x)
  {
    hide Clock, Clocks, Lookup, Xor, Shr8, ByteOf;
    var x1 := Shr8(x);
    var x2 := Shr8(x1);
    var x3 := Shr8(x2);
    WordBytes(x);
    ByteThroughTable(k + 3, x);
    ByteThroughTable(k + 2, x1);
    ByteThroughTable(k + 1, x2);
    ByteThroughTable(k, x3);
    ClocksZero(8 * k);
    XorComm(0, Lookup(k, ByteOf(x, 3)));
    XorUnit(Lookup(k, ByteOf(x, 3)));
    XorReverse(Lookup(k + 3, ByteOf(x, 0)), Lookup(k + 2, ByteOf(x, 1)), Lookup(k + 1, ByteOf(x, 2)), Lookup(k, ByteOf(x, 3)));
  }

  // ---------------------------------------------------------------------------
  // Bytes and little-endian words as bits
  // ---------------------------------------------------------------------------

  function Extend(b: byte): bv32 { b as bv32 }

  lemma ByteAsBits(b: byte, r: bv32)
    ensures
      var bits := ByteBits(b);
      Xor(BitWord(bits[0]), Shl1(Xor(BitWord(bits[1]), Shl1(Xor(BitWord(bits[2]), Shl1(Xor(BitWord(bits[3]),
      Shl1(Xor(BitWord(bits[4]), Shl1(Xor(BitWord(bits[5]), Shl1(Xor(BitWord(bits[6]), Shl1(Xor(BitWord(bits[7]), Shl1(r))))))))))))))))
      == Xor(Extend(b), Shl8(r))
  {
  }

  lemma PackByte(b: byte, rest: seq<bool>)
    ensures Pack(ByteBits(b) + rest) == Xor(Extend(b), Shl8(Pack(rest)))
  {
    hide Xor, Shl1, Shl8, BitWord, ByteBits, Extend;
    var bits := ByteBits(b) + rest;
    var t1 := bits[1..];
    var t2 := t1[1..];
    var t3 := t2[1..];
    var t4 := t3[1..];
    var t5 := t4[1..];
    var t6 := t5[1..];
    var t7 := t6[1..];
    assert t7[1..] == rest;
    assert Pack(t7) == Xor(BitWord(ByteBits(b)[7]), Shl1(Pack(rest)));
    assert Pack(t6) == Xor(BitWord(ByteBits(b)[6]), Shl1(Pack(t7)));
    assert Pack(t5) == Xor(BitWord(ByteBits(b)[5]), Shl1(Pack(t6)));
    assert Pack(t4) == Xor(BitWord(ByteBits(b)[4]), Shl1(Pack(t5)));
    assert Pack(t3) == Xor(BitWord(ByteBits(b)[3]), Shl1(Pack(t4)));
    assert Pack(t2) == Xor(BitWord(ByteBits(b)[2]), Shl1(Pack(t3)));
    assert Pack(t1) == Xor(BitWord(ByteBits(b)[1]), Shl1(Pack(t2)));
    ByteAsBits(b, Pack(rest));
  }

  lemma Shl8Zero()
    ensures Shl8(0) == 0
  {
  }

  lemma LittleEndianNested(b: seq<byte>)
    requires |b| == 4
    ensures LittleEndian(b)
         == Xor(Extend(b[0]), Shl8(Xor(Extend(b[1]), Shl8(Xor(Extend(b[2]), Shl8(Xor(Extend(b[3]), Shl8(0))))))))
  {
  }

  lemma PackWord(b: seq<byte>)
    requires |b| == 4
    ensures Pack(MessageBits(b)) == LittleEndian(b)
  {
    hide Xor, Shl1, Shl8, BitWord, ByteBits, Extend, LittleEndian;
    assert b[1..][1..] == b[2..] && b[2..][1..] == b[3..] && b[3..][1..] == [];
    assert Pack(MessageBits([])) == 0;
    PackByte(b[3], []);
    assert MessageBits(b[3..]) == ByteBits(b[3]) + [];
    PackByte(b[2], MessageBits(b[3..]));
    assert MessageBits(b[2..]) == ByteBits(b[2]) + MessageBits(b[3..]);
    PackByte(b[1], MessageBits(b[2..]));
    assert MessageBits(b[1..]) == ByteBits(b[1]) + MessageBits(b[2..]);
    PackByte(b[0], MessageBits(b[1..]));
    LittleEndianNested(b);
  }

  lemma ShiftedByte(crc: bv32, b: byte)
    ensures Shr8(Xor(crc, Extend(b))) == Shr8(crc)
    ensures ByteOf(Xor(crc, Extend(b)), 0) == Xor(ByteOf(crc, 0), Extend(b))
  {
  }

  /** The byte-wise table step is eight bit steps. */
  lemma ByteStep(crc: bv32, b: byte)
    ensures FeedBits(crc, MessageBits([b])) == Xor(Shr8(crc), Lookup(0, Xor(ByteOf(crc, 0), Extend(b))))
  {
    assert MessageBits([b]) == ByteBits(b) + [];
    assert Pack([]) == 0;
    assert Clocks(0, Shr8(crc)) == Shr8(crc);
    hide *;
    FeedIsClocks(crc, MessageBits([b]));
    PackByte(b, []);
    Shl8Zero();
    XorUnit(Extend(b));
    ByteThroughTable(0, Xor(crc, Extend(b)));
    ShiftedByte(crc, b);
  }

  /** The eight-byte table step is sixty-four bit steps. */
  lemma EightByteStep(crc: bv32, data: seq<byte>)
    requires |data| == 8
    ensures
      var one := Xor(LittleEndian(data[..4]), crc);
      var two := LittleEndian(data[4..]);
      FeedBits(crc, MessageBits(data)) == Xor(WordLookup(4, one), WordLookup(0, two))
  {
    hide *;
    var front, back := MessageBits(data[..4]), MessageBits(data[4..]);
    var one, two := Xor(LittleEndian(data[..4]), crc), LittleEndian(data[4..]);
    assert data == data[..4] + data[4..];
    MessageBitsAppend(data[..4], data[4..]);
    FeedAppend(crc, front, back);
    FeedIsClocks(crc, front);
    PackWord(data[..4]);
    XorComm(crc, LittleEndian(data[..4]));
    var mid := Clocks(32, one);
    FeedIsClocks(mid, back);
    PackWord(data[4..]);
    ClocksLinear(32, mid, two);
    ClocksAdd(32, 32, one);
    WordThroughTables(4, one);
    WordThroughTables(0, two);
  }

  // ---------------------------------------------------------------------------
  // Error detection
  // ---------------------------------------------------------------------------

  lemma {:induction false} FeedInjective(x: bv32, y: bv32, bits: seq<bool>)
    requires FeedBits(x, bits) == FeedBits(y, bits)
    ensures x == y
    decreases |bits|
  {
    hide Clock, Xor, BitWord;
    if bits != [] {
      var b := BitWord(bits[0]);
      FeedInjective(Clock(Xor(x, b)), Clock(Xor(y, b)), bits[1..]);
      ClockInjective(Xor(x, b), Xor(y, b));
      XorComm(x, b);
      XorComm(y, b);
      XorCancel(b, x, y);
    }
  }

  lemma FeedSeparates(crc: bv32, x: seq<bool>, y: seq<bool>)
    requires |x| == |y| <= 32
    requires FeedBits(crc, x) == FeedBits(crc, y)
    ensures x == y
  {
    hide *;
    FeedIsClocks(crc, x);
    FeedIsClocks(crc, y);
    ClocksInjective(|x|, Xor(crc, Pack(x)), Xor(crc, Pack(y)));
    XorCancel(crc, Pack(x), Pack(y));
    PackInjective(x, y);
  }

  /** Two messages of one length whose bits agree outside a window of at most 32
      bits have the same CRC only if they are the same message. */
  lemma BurstDetected(start: bv32, x: seq<byte>, y: seq<byte>, from: nat, to: nat)
    requires |x| == |y| && from <= to <= 8 * |x| && to - from <= 32
    requires MessageBits(x)[..from] == MessageBits(y)[..from]
    requires MessageBits(x)[to..] == MessageBits(y)[to..]
    ensures CrcOf(start, x) == CrcOf(start, y) <==> x == y
  {
    if CrcOf(start, x) == CrcOf(start, y) {
      var s, p, q := Not(start), MessageBits(x), MessageBits(y);
      NotNot(FeedBits(s, p));
      NotNot(FeedBits(s, q));
      hide *;
      assert p == p[..from] + (p[from..to] + p[to..]);
      assert q == q[..from] + (q[from..to] + q[to..]);
      FeedAppend(s, p[..from], p[from..to] + p[to..]);
      FeedAppend(s, q[..from], q[from..to] + q[to..]);
      var mid := FeedBits(s, p[..from]);
      FeedAppend(mid, p[from..to], p[to..]);
      FeedAppend(mid, q[from..to], q[to..]);
      FeedInjective(FeedBits(mid, p[from..to]), FeedBits(mid, q[from..to]), p[to..]);
      FeedSeparates(mid, p[from..to], q[from..to]);
      MessageBitsInjective(x, y);
    }
  }

  /** Changes confined to four consecutive bytes are always noticed. */
  lemma FourByteBurstDetected(start: bv32, x: seq<byte>, y: seq<byte>, at: nat)
    requires |x| == |y| && at + 4 <= |x|
    requires x[..at] == y[..at] && x[at + 4..] == y[at + 4..]
    ensures CrcOf(start, x) == CrcOf(start, y) <==> x == y
  {
    hide *;
    assert x == x[..at] + (x[at..at + 4] + x[at + 4..]);
    assert y == y[..at] + (y[at..at + 4] + y[at + 4..]);
    MessageBitsAppend(x[..at], x[at..at + 4] + x[at + 4..]);
    MessageBitsAppend(y[..at], y[at..at + 4] + y[at + 4..]);
    MessageBitsAppend(x[at..at + 4], x[at + 4..]);
    MessageBitsAppend(y[at..at + 4], y[at + 4..]);
    assert MessageBits(x)[..8 * at] == MessageBits(x[..at]) == MessageBits(y)[..8 * at];
    assert MessageBits(x)[8 * at + 32..] == MessageBits(x[at + 4..]) == MessageBits(y)[8 * at + 32..];
    BurstDetected(start, x, y, 8 * at, 8 * at + 32);
  }

  /** Where two bit strings of one length differ. */
  function XorBits(x: seq<bool>, y: seq<bool>): (r: seq<bool>)
    requires |x| == |y|
    ensures |r| == |x|
  {
    seq(|x|, i requires 0 <= i < |x| => x[i] != y[i])
  }

  lemma BitWordXor(p: bool, q: bool)
    ensures BitWord(p != q) == Xor(BitWord(p), BitWord(q))
  {
  }

  lemma XorRegroup(a: bv32, b: bv32, p: bv32, q: bv32)
    ensures Xor(Xor(a, b), Xor(p, q)) == Xor(Xor(a, p), Xor(b, q))
  {
    hide Xor;
    XorAssoc(a, b, Xor(p, q));
    XorAssoc(b, p, q);
    XorComm(b, p);
    XorAssoc(p, b, q);
    XorAssoc(a, p, Xor(b, q));
  }

  lemma {:induction false} FeedLinear(a: bv32, b: bv32, x: seq<bool>, y: seq<bool>)
    requires |x| == |y|
    ensures FeedBits(Xor(a, b), XorBits(x, y)) == Xor(FeedBits(a, x), FeedBits(b, y))
    decreases |x|
  {
    hide Clock, Xor, BitWord;
    if x != [] {
      var p, q := BitWord(x[0]), BitWord(y[0]);
      assert XorBits(x, y)[0] == (x[0] != y[0]);
      BitWordXor(x[0], y[0]);
      XorRegroup(a, b, p, q);
      ClockLinear(Xor(a, p), Xor(b, q));
      FeedLinear(Clock(Xor(a, p)), Clock(Xor(b, q)), x[1..], y[1..]);
      assert XorBits(x, y)[1..] == XorBits(x[1..], y[1..]);
    }
  }

  lemma XorZero(x: bv32, y: bv32)
    ensures Xor(x, y) == 0 <==> x == y
  {
    hide *;
    XorSelf(x);
    if Xor(x, y) == 0 {
      XorCancel(x, x, y);
    }
  }

  /** Messages of one length share their CRC exactly when the pattern of differing bits,
      shifted through an empty register, leaves it empty. */
  lemma CollisionExactly(start: bv32, x: seq<byte>, y: seq<byte>)
    requires |x| == |y|
    ensures CrcOf(start, x) == CrcOf(start, y) <==> FeedBits(0, XorBits(MessageBits(x), MessageBits(y))) == 0
  {
    hide FeedBits, MessageBits, Not, Xor, XorBits;
    var s, p, q := Not(start), MessageBits(x), MessageBits(y);
    NotNot(FeedBits(s, p));
    NotNot(FeedBits(s, q));
    XorSelf(s);
    FeedLinear(s, s, p, q);
    XorZero(FeedBits(s, p), FeedBits(s, q));
  }

  /** CRCs that print alike are the same. */
  lemma PrintedAlike(x: bv32, y: bv32)
    requires Hex.OfBytes(BigEndianBytes(x)) == Hex.OfBytes(BigEndianBytes(y))
    ensures x == y
  {
    hide BigEndianBytes;
    Hex.Injective(BigEndianBytes(x), BigEndianBytes(y));
    BigEndianBytesInjective(x, y);
  }

  lemma PolynomialBytes()
    ensures LittleEndian([0x20, 0x83, 0xB8, 0xED]) == POLYNOMIAL
    ensures LittleEndian([0, 0, 0, 0]) == 0
    ensures Extend(0x80) == 0x80 && Extend(0) == 0
  {
  }

  lemma HighBitFed()
    ensures Clocks(8, 0x80) == POLYNOMIAL
  {
  }

  /** The bound of 32 is sharp: flipping 33 consecutive bits in the pattern of the
      polynomial itself goes unnoticed. */
  lemma LongerBurstMissed(start: bv32)
    ensures CrcOf(start, [0x80, 0x20, 0x83, 0xB8, 0xED]) == CrcOf(start, [0, 0, 0, 0, 0])
  {
    var s := Not(start);
    var p, q := [0x20, 0x83, 0xB8, 0xED], [0, 0, 0, 0];
    assert Pack([]) == 0;
    PolynomialBytes();
    HighBitFed();
    assert MessageBits([0x80]) == ByteBits(0x80) + [] && MessageBits([0]) == ByteBits(0) + [];
    hide *;
    assert [0x80, 0x20, 0x83, 0xB8, 0xED] == [0x80] + p && [0, 0, 0, 0, 0] == [0] + q;
    MessageBitsAppend([0x80], p);
    MessageBitsAppend([0], q);
    FeedAppend(s, MessageBits([0x80]), MessageBits(p));
    FeedAppend(s, MessageBits([0]), MessageBits(q));
    PackByte(0x80, []);
    PackByte(0, []);
    Shl8Zero();
    XorUnit(0x80);
    XorUnit(0);
    FeedIsClocks(s, MessageBits([0x80]));
    FeedIsClocks(s, MessageBits([0]));
    ClocksLinear(8, s, 0x80);
    XorUnit(s);
    var c := Clocks(8, s);
    PackWord(p);
    PackWord(q);
    FeedIsClocks(Xor(c, POLYNOMIAL), MessageBits(p));
    FeedIsClocks(c, MessageBits(q));
    XorAssoc(c, POLYNOMIAL, POLYNOMIAL);
    XorSelf(POLYNOMIAL);
  }
}

/** The checksum object: one 32-bit field that every `Add` advances. */
module Crc32 {
  import opened Bytes
  import opened Words
  import opened Crc32Spec

  lemma NibblesOfBytes(x: bv32)
    ensures BigEndianBytes(x)[0] >> 4 == (x >> 28) as byte && BigEndianBytes(x)[0] & 15 == ((x >> 24) & 15) as byte
    ensures BigEndianBytes(x)[1] >> 4 == ((x >> 20) & 15) as byte && BigEndianBytes(x)[1] & 15 == ((x >> 16) & 15) as byte
    ensures BigEndianBytes(x)[2] >> 4 == ((x >> 12) & 15) as byte && BigEndianBytes(x)[2] & 15 == ((x >> 8) & 15) as byte
    ensures BigEndianBytes(x)[3] >> 4 == ((x >> 4) & 15) as byte && BigEndianBytes(x)[3] & 15 == (x & 15) as byte
  {
  }

  lemma HexOfFour(b: seq<byte>)
    requires |b| == 4
    ensures Hex.OfBytes(b) == Hex.OfByte(b[0]) + (Hex.OfByte(b[1]) + (Hex.OfByte(b[2]) + Hex.OfByte(b[3])))
  {
    hide Hex.OfByte;
    var t1 := b[1..];
    var t2 := t1[1..];
    var t3 := t2[1..];
    assert t3[1..] == [];
    assert Hex.OfBytes(t3) == Hex.OfByte(b[3]);
    assert Hex.OfBytes(t2) == Hex.OfByte(b[2]) + Hex.OfBytes(t3);
    assert Hex.OfBytes(t1) == Hex.OfByte(b[1]) + Hex.OfBytes(t2);
  }

  lemma HexOfWord(x: bv32)
    ensures Hex.OfBytes(BigEndianBytes(x))
         == [Hex.Digit((x >> 28) as byte), Hex.Digit(((x >> 24) & 15) as byte)]
          + ([Hex.Digit(((x >> 20) & 15) as byte), Hex.Digit(((x >> 16) & 15) as byte)]
          + ([Hex.Digit(((x >> 12) & 15) as byte), Hex.Digit(((x >> 8) & 15) as byte)]
          + [Hex.Digit(((x >> 4) & 15) as byte), Hex.Digit((x & 15) as byte)]))
  {
    hide Hex.Digit, Hex.OfBytes, BigEndianBytes;
    HexOfFour(BigEndianBytes(x));
    NibblesOfBytes(x);
  }

  /** The digits of a word, the most significant first. */
  function HexDigits(x: bv32): string {
    [Hex.Digit((x >> 28) as byte), Hex.Digit(((x >> 24) & 15) as byte),
     Hex.Digit(((x >> 20) & 15) as byte), Hex.Digit(((x >> 16) & 15) as byte),
     Hex.Digit(((x >> 12) & 15) as byte), Hex.Digit(((x >> 8) & 15) as byte),
     Hex.Digit(((x >> 4) & 15) as byte), Hex.Digit((x & 15) as byte)]
  }

  lemma HexDigitsOf(x: bv32)
    ensures HexDigits(x) == Hex.OfBytes(BigEndianBytes(x))
  {
    hide Hex.Digit, Hex.OfBytes, BigEndianBytes;
    HexOfWord(x);
  }

  /** The eight-table combination of two words, in the order the loop writes it. */
  function Slice8(one: bv32, two: bv32): bv32 {
    Xor(Xor(Xor(Xor(Xor(Xor(Xor(
      Lookup(7, ByteOf(one, 0)),
      Lookup(6, ByteOf(one, 1))),
      Lookup(5, ByteOf(one, 2))),
      Lookup(4, ByteOf(one, 3))),
      Lookup(3, ByteOf(two, 0))),
      Lookup(2, ByteOf(two, 1))),
      Lookup(1, ByteOf(two, 2))),
      Lookup(0, ByteOf(two, 3)))
  }

  lemma RegroupWords(one: bv32, two: bv32)
    ensures Xor(WordLookup(4, one), WordLookup(0, two)) == Slice8(one, two)
  {
    hide Xor, Lookup, ByteOf;
    var w := WordLookup(4, one);
    var p, q := Lookup(3, ByteOf(two, 0)), Lookup(2, ByteOf(two, 1));
    var r, s := Lookup(1, ByteOf(two, 2)), Lookup(0, ByteOf(two, 3));
    XorAssoc(w, Xor(Xor(p, q), r), s);
    XorAssoc(w, Xor(p, q), r);
    XorAssoc(w, p, q);
  }

  lemma FeedPrefix(start: bv32, data: seq<byte>, i: nat, j: nat)
    requires i <= j <= |data|
    ensures FeedBits(start, MessageBits(data[..j])) == FeedBits(FeedBits(start, MessageBits(data[..i])), MessageBits(data[i..j]))
  {
    hide *;
    assert data[..j] == data[..i] + data[i..j];
    MessageBitsAppend(data[..i], data[i..j]);
    FeedAppend(start, MessageBits(data[..i]), MessageBits(data[i..j]));
  }

  /** One turn of the eight-byte loop. */
  lemma AdvanceEight(start: bv32, data: seq<byte>, i: nat, crc: bv32)
    requires i + 8 <= |data|
    requires crc == FeedBits(start, MessageBits(data[..i]))
    ensures FeedBits(start, MessageBits(data[..i + 8]))
         == Slice8(Xor(LittleEndian(data[i..i + 4]), crc), LittleEndian(data[i + 4..i + 8]))
  {
    hide *;
    FeedPrefix(start, data, i, i + 8);
    var chunk := data[i..i + 8];
    assert chunk[..4] == data[i..i + 4] && chunk[4..] == data[i + 4..i + 8];
    EightByteStep(crc, chunk);
    RegroupWords(Xor(LittleEndian(chunk[..4]), crc), LittleEndian(chunk[4..]));
  }

  /** One turn of the tail loop. */
  lemma AdvanceOne(start: bv32, data: seq<byte>, i: nat, crc: bv32)
    requires i < |data|
    requires crc == FeedBits(start, MessageBits(data[..i]))
    ensures FeedBits(start, MessageBits(data[..i + 1])) == Xor(Shr8(crc), Lookup(0, Xor(ByteOf(crc, 0), Extend(data[i]))))
  {
    hide *;
    FeedPrefix(start, data, i, i + 1);
    assert data[i..i + 1] == [data[i]];
    ByteStep(crc, data[i]);
  }

  lemma Meaning(start: bv32, data: seq<byte>)
    ensures Not(FeedBits(Not(start), MessageBits(data))) == CrcOf(start, data)
  {
  }

  class Crc32 {
    var hash: bv32

    constructor ()
      ensures hash == 0
    {
      hash := 0;
    }

    method Reset()
      modifies this
      ensures hash == 0
    {
      hash := 0;
    }

    /** The new checksum is the bit-serial one of the old checksum and the data. */
    method Add(data: seq<byte>)
      modifies this
      ensures hash == CrcOf(old(hash), data)
    {
      var current, numBytes := 0, |data|;
      var crc := Not(hash);
      ghost var start := crc;
      assert FeedBits(start, MessageBits(data[..0])) == start;
      hide *;
      while numBytes >= 8
        invariant 0 <= current <= |data| && current + numBytes == |data|
        invariant crc == FeedBits(start, MessageBits(data[..current]))
      {
        AdvanceEight(start, data, current, crc);
        var one := Xor(LittleEndian(data[current..current + 4]), crc);
        var two := LittleEndian(data[current + 4..current + 8]);
        crc := Slice8(one, two);
        current, numBytes := current + 8, numBytes - 8;
      }
      while numBytes > 0
        invariant 0 <= current <= |data| && current + numBytes == |data|
        invariant crc == FeedBits(start, MessageBits(data[..current]))
      {
        AdvanceOne(start, data, current, crc);
        crc := Xor(Shr8(crc), Lookup(0, Xor(ByteOf(crc, 0), Extend(data[current]))));
        current, numBytes := current + 1, numBytes - 1;
      }
      hash := Not(crc);
      assert data[..current] == data;
      Meaning(old(hash), data);
    }

    /** The checksum as eight hexadecimal characters. */
    method GetHash() returns (s: string)
      ensures s == Hex.OfBytes(BigEndianBytes(hash))
    {
      hide *;
      s := HexDigits(hash);
      HexDigitsOf(hash);
    }
  }
}
