/** Hexadecimal rendering of digests. */
module Hex {
  import opened Bytes

  function Digit(nibble: byte): char {
    match nibble
    case 0 => '0' case 1 => '1' case 2 => '2' case 3 => '3'
    case 4 => '4' case 5 => '5' case 6 => '6' case 7 => '7'
    case 8 => '8' case 9 => '9' case 10 => 'a' case 11 => 'b'
    case 12 => 'c' case 13 => 'd' case 14 => 'e' case _ => 'f'
  }

  function OfByte(b: byte): (s: string)
    ensures |s| == 2
  {
    [Digit(b >> 4), Digit(b & 15)]
  }

  function OfBytes(bytes: seq<byte>): (s: string)
    ensures |s| == 2 * |bytes|
  {
    if bytes == [] then "" else OfByte(bytes[0]) + OfBytes(bytes[1..])
  }

  const DIGITS := "0123456789abcdef"

  lemma DigitIs(nibble: byte)
    requires nibble < 16
    ensures Digit(nibble) == DIGITS[nibble as int]
  {
  }

  lemma DigitInjective(x: byte, y: byte)
    requires x < 16 && y < 16
    requires Digit(x) == Digit(y)
    ensures x == y
  {
  }

  lemma Nibbles(x: byte, y: byte)
    ensures x >> 4 < 16 && x & 15 < 16 && y >> 4 < 16 && y & 15 < 16
    ensures x >> 4 == y >> 4 && x & 15 == y & 15 ==> x == y
  {
  }

  lemma OfByteInjective(x: byte, y: byte)
    requires OfByte(x) == OfByte(y)
    ensures x == y
  {
    hide Digit;
    Nibbles(x, y);
    assert OfByte(x)[0] == OfByte(y)[0] && OfByte(x)[1] == OfByte(y)[1];
    DigitInjective(x >> 4, y >> 4);
    DigitInjective(x & 15, y & 15);
  }

  /** Two digests print alike only if they are the same bytes. */
  lemma {:induction false} Injective(x: seq<byte>, y: seq<byte>)
    requires OfBytes(x) == OfBytes(y)
    ensures x == y
  {
    hide OfByte;
    assert 2 * |x| == |OfBytes(x)| == 2 * |y|;
    if x != [] {
      assert OfBytes(x)[..2] == OfByte(x[0]) && OfBytes(y)[..2] == OfByte(y[0]);
      assert OfBytes(x)[2..] == OfBytes(x[1..]) && OfBytes(y)[2..] == OfBytes(y[1..]);
      OfByteInjective(x[0], y[0]);
      Injective(x[1..], y[1..]);
      assert x == [x[0]] + x[1..] && y == [y[0]] + y[1..];
    }
  }

  lemma One(b: byte)
    ensures OfBytes([b]) == OfByte(b)
  {
    hide OfByte;
  }

  lemma {:induction false} Append(x: seq<byte>, y: seq<byte>)
    ensures OfBytes(x + y) == OfBytes(x) + OfBytes(y)
  {
    hide OfByte;
    if x == [] {
      assert x + y == y;
    } else {
      assert (x + y)[1..] == x[1..] + y;
      Append(x[1..], y);
    }
  }
}
