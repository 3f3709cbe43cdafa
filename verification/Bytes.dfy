/** Bytes and the bits they are sent as. */
module Bytes {
  type byte = bv8

  /** The bits of a byte in transmission order: least significant first. */
  function ByteBits(b: byte): (bits: seq<bool>)
    ensures |bits| == 8
  {
    [b & 1 != 0, b & 2 != 0, b & 4 != 0, b & 8 != 0, b & 16 != 0, b & 32 != 0, b & 64 != 0, b & 128 != 0]
  }

  function MessageBits(data: seq<byte>): (bits: seq<bool>)
    ensures |bits| == 8 * |data|
  {
    if data == [] then [] else ByteBits(data[0]) + MessageBits(data[1..])
  }

  lemma {:induction false} MessageBitsAppend(x: seq<byte>, y: seq<byte>)
    ensures MessageBits(x + y) == MessageBits(x) + MessageBits(y)
  {
    hide ByteBits;
    if x == [] {
      assert x + y == y;
    } else {
      assert (x + y)[1..] == x[1..] + y;
      MessageBitsAppend(x[1..], y);
    }
  }

  lemma ByteBitsInjective(a: byte, b: byte)
    requires ByteBits(a) == ByteBits(b)
    ensures a == b
  {
    var x, y := ByteBits(a), ByteBits(b);
    assert forall i | 0 <= i < 8 :: x[i] == y[i];
    assert x[0] == y[0] && x[1] == y[1] && x[2] == y[2] && x[3] == y[3];
    assert x[4] == y[4] && x[5] == y[5] && x[6] == y[6] && x[7] == y[7];
  }

  lemma {:induction false} MessageBitsInjective(x: seq<byte>, y: seq<byte>)
    requires MessageBits(x) == MessageBits(y)
    ensures x == y
  {
    hide ByteBits;
    assert 8 * |x| == |MessageBits(x)| == 8 * |y|;
    if x != [] {
      assert MessageBits(x)[..8] == ByteBits(x[0]) && MessageBits(y)[..8] == ByteBits(y[0]);
      assert MessageBits(x)[8..] == MessageBits(x[1..]) && MessageBits(y)[8..] == MessageBits(y[1..]);
      ByteBitsInjective(x[0], y[0]);
      MessageBitsInjective(x[1..], y[1..]);
      assert x == [x[0]] + x[1..] && y == [y[0]] + y[1..];
    }
  }
}
