/** The 32-bit machine operations of the hash library.
    They are named so that a proof can hide their bit-level meaning: everything
    above this module treats them as uninterpreted and uses only the laws below. */
module Words {
  import opened Bytes

  function Add(x: bv32, y: bv32): bv32 { x + y }

  function Xor(x: bv32, y: bv32): bv32 { x ^ y }

  function And(x: bv32, y: bv32): bv32 { x & y }

  function Or(x: bv32, y: bv32): bv32 { x | y }

  function Not(x: bv32): bv32 { !x }

  function Shr(x: bv32, n: bv6): bv32
    requires n <= 32
  {
    x >> n
  }

  function RotL(x: bv32, n: bv6): bv32
    requires n <= 32
  {
    (x << n) | (x >> (32 - n))
  }

  function RotR(x: bv32, n: bv6): bv32
    requires n <= 32
  {
    (x >> n) | (x << (32 - n))
  }

  /** The word stored in four bytes, least significant byte first. */
  function LittleEndian(b: seq<byte>): bv32
    requires |b| == 4
  {
    (b[0] as bv32) | ((b[1] as bv32) << 8) | ((b[2] as bv32) << 16) | ((b[3] as bv32) << 24)
  }

  function BigEndian(b: seq<byte>): bv32
    requires |b| == 4
  {
    ((b[0] as bv32) << 24) | ((b[1] as bv32) << 16) | ((b[2] as bv32) << 8) | (b[3] as bv32)
  }

  /** The word with its bytes in opposite order. */
  function Swap(x: bv32): bv32 {
    (x >> 24) | ((x >> 8) & 0x0000FF00) | ((x << 8) & 0x00FF0000) | (x << 24)
  }

  lemma SwapLittleEndian(b: seq<byte>)
    requires |b| == 4
    ensures Swap(LittleEndian(b)) == BigEndian(b)
  {
  }

  function LittleEndianBytes(x: bv32): (bytes: seq<byte>)
    ensures |bytes| == 4
  {
    [(x & 0xFF) as byte, ((x >> 8) & 0xFF) as byte, ((x >> 16) & 0xFF) as byte, ((x >> 24) & 0xFF) as byte]
  }

  function BigEndianBytes(x: bv32): (bytes: seq<byte>)
    ensures |bytes| == 4
  {
    [((x >> 24) & 0xFF) as byte, ((x >> 16) & 0xFF) as byte, ((x >> 8) & 0xFF) as byte, (x & 0xFF) as byte]
  }

  lemma BigEndianBytesInjective(x: bv32, y: bv32)
    requires BigEndianBytes(x) == BigEndianBytes(y)
    ensures x == y
  {
    assert BigEndianBytes(x)[0] == BigEndianBytes(y)[0] && BigEndianBytes(x)[1] == BigEndianBytes(y)[1];
    assert BigEndianBytes(x)[2] == BigEndianBytes(y)[2] && BigEndianBytes(x)[3] == BigEndianBytes(y)[3];
  }

  /** A word is stored in its bytes and read back, in either order. */
  lemma StoredWord(x: bv32)
    ensures LittleEndian(LittleEndianBytes(x)) == x == BigEndian(BigEndianBytes(x))
  {
  }

  lemma StoredBytes(b: seq<byte>)
    requires |b| == 4
    ensures LittleEndianBytes(LittleEndian(b)) == b == BigEndianBytes(BigEndian(b))
  {
  }

  lemma AddComm(x: bv32, y: bv32)
    ensures Add(x, y) == Add(y, x)
  {
  }

  lemma AddIs(x: bv32, y: bv32)
    ensures Add(x, y) == x + y
  {
  }

  lemma SumsAssoc(x: bv32, y: bv32, z: bv32)
    ensures (x + y) + z == x + (y + z)
  {
  }

  lemma AddToSum(a: bv32, x: bv32, y: bv32, z: bv32)
    requires a == x + y
    ensures Add(a, z) == (x + y) + z
  {
  }

  lemma AddOfSum(a: bv32, x: bv32, y: bv32, z: bv32)
    requires a == y + z
    ensures Add(x, a) == x + (y + z)
  {
  }

  lemma AddAssoc(x: bv32, y: bv32, z: bv32)
    ensures Add(Add(x, y), z) == Add(x, Add(y, z))
  {
    hide *;
    AddIs(x, y);
    AddIs(y, z);
    AddToSum(Add(x, y), x, y, z);
    AddOfSum(Add(y, z), x, y, z);
    SumsAssoc(x, y, z);
  }

  /** A sum read from its other end. */
  lemma SumReversed(p: bv32, q: bv32, r: bv32, s: bv32)
    ensures Add(Add(Add(p, q), r), s) == Add(Add(Add(s, r), q), p)
  {
    hide *;
    AddComm(Add(Add(p, q), r), s);
    AddComm(Add(p, q), r);
    AddComm(p, q);
    AddAssoc(s, r, Add(q, p));
    AddAssoc(Add(s, r), q, p);
  }

  lemma XorComm(x: bv32, y: bv32)
    ensures Xor(x, y) == Xor(y, x)
  {
  }

  lemma XorAssoc(x: bv32, y: bv32, z: bv32)
    ensures Xor(Xor(x, y), z) == Xor(x, Xor(y, z))
  {
  }

  lemma XorUnit(x: bv32)
    ensures Xor(x, 0) == x == Xor(0, x)
  {
  }

  lemma XorSelf(x: bv32)
    ensures Xor(x, x) == 0
  {
  }

  lemma XorCancel(x: bv32, y: bv32, z: bv32)
    requires Xor(x, y) == Xor(x, z)
    ensures y == z
  {
  }
}
