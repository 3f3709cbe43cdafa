/** The bits of a lane, and what the lane operations do to them. */
module LaneBits {
  import opened Bytes
  import opened KeccakSpec

  function TurnRight(x: bv64): bv64 { (x >> 1) | (x << 63) }

  const ONES: bv64 := 0xffffffffffffffff

  predicate Odd(x: bv64) { x & 1 == 1 }

  /** Bit `z` of a lane, counted from the least significant, and around. */
  predicate Bit(x: bv64, z: nat)
    decreases z
  {
    if z == 0 then Odd(x) else Bit(TurnRight(x), z - 1)
  }

  lemma TurnXor(x: bv64, y: bv64)
    ensures TurnRight(Xor(x, y)) == Xor(TurnRight(x), TurnRight(y))
  {
  }

  lemma TurnAnd(x: bv64, y: bv64)
    ensures TurnRight(And(x, y)) == And(TurnRight(x), TurnRight(y))
  {
  }

  lemma OddXor(x: bv64, y: bv64)
    ensures Odd(Xor(x, y)) == (Odd(x) != Odd(y))
  {
  }

  lemma OddAnd(x: bv64, y: bv64)
    ensures Odd(And(x, y)) == (Odd(x) && Odd(y))
  {
  }

  lemma {:induction false} BitXor(x: bv64, y: bv64, z: nat)
    ensures Bit(Xor(x, y), z) == (Bit(x, z) != Bit(y, z))
    decreases z
  {
    hide TurnRight, Odd, Xor;
    if z == 0 {
      OddXor(x, y);
    } else {
      TurnXor(x, y);
      BitXor(TurnRight(x), TurnRight(y), z - 1);
    }
  }

  lemma {:induction false} BitAnd(x: bv64, y: bv64, z: nat)
    ensures Bit(And(x, y), z) == (Bit(x, z) && Bit(y, z))
    decreases z
  {
    hide TurnRight, Odd, And;
    if z == 0 {
      OddAnd(x, y);
    } else {
      TurnAnd(x, y);
      BitAnd(TurnRight(x), TurnRight(y), z - 1);
    }
  }

  lemma TurnOnes()
    ensures TurnRight(ONES) == ONES && Odd(ONES)
  {
  }

  lemma {:induction false} BitOfOnes(z: nat)
    ensures Bit(ONES, z)
  {
    TurnOnes();
    if z > 0 {
      hide TurnRight, Odd;
      BitOfOnes(z - 1);
    }
  }

  lemma NotIsXor(x: bv64)
    ensures Not(x) == Xor(x, ONES)
  {
  }

  lemma BitNot(x: bv64, z: nat)
    ensures Bit(Not(x), z) == !Bit(x, z)
  {
    hide *;
    NotIsXor(x);
    BitXor(x, ONES, z);
    BitOfOnes(z);
  }

  lemma TurnZero()
    ensures TurnRight(0) == 0 && !Odd(0)
  {
  }

  lemma {:induction false} BitOfZero(z: nat)
    ensures !Bit(0, z)
  {
    TurnZero();
    if z > 0 {
      hide TurnRight, Odd;
      BitOfZero(z - 1);
    }
  }

  lemma LeftRight(x: bv64)
    ensures TurnRight(RotL(x, 1)) == x
  {
  }

  /** `n` single rotations. */
  function Turned(x: bv64, n: nat): bv64 {
    if n == 0 then x else RotL(Turned(x, n - 1), 1)
  }

  lemma {:induction false} BitTurned(x: bv64, n: nat, z: nat)
    ensures Bit(Turned(x, n), z + n) == Bit(x, z)
  {
    hide TurnRight, RotL, Odd;
    if n > 0 {
      LeftRight(Turned(x, n - 1));
      BitTurned(x, n - 1, z);
    }
  }

  lemma {:induction false} TurnedSum(x: bv64, m: nat, n: nat)
    ensures Turned(Turned(x, m), n) == Turned(x, m + n)
  {
    hide RotL;
    if n > 0 {
      TurnedSum(x, m, n - 1);
    }
  }

  /** Rotating by `n` is `k` single rotations. */
  ghost predicate Rotates(n: bv8, k: nat)
    requires n <= 64
  {
    forall x :: RotL(x, n) == Turned(x, k)
  }

  ghost predicate Composes(m: bv8, n: bv8, both: bv8)
    requires m <= 64 && n <= 64 && both <= 64
  {
    forall x :: RotL(RotL(x, m), n) == RotL(x, both)
  }

  lemma RotatesSum(m: bv8, i: nat, n: bv8, j: nat, both: bv8)
    requires m <= 64 && n <= 64 && both <= 64 && Rotates(m, i) && Rotates(n, j)
    requires Composes(m, n, both)
    ensures Rotates(both, i + j)
  {
    hide RotL;
    forall x ensures RotL(x, both) == Turned(x, i + j) {
      TurnedSum(x, i, j);
    }
  }

  lemma RotatesOnce()
    ensures Rotates(1, 1)
  {
    hide RotL;
    assert forall x :: Turned(x, 1) == RotL(Turned(x, 0), 1);
  }

  lemma Composition2()
    ensures Composes(1, 1, 2)
  {
  }

  lemma Composition3()
    ensures Composes(2, 1, 3)
  {
  }

  lemma Composition6()
    ensures Composes(3, 3, 6)
  {
  }

  lemma Composition7()
    ensures Composes(6, 1, 7)
  {
  }

  lemma Composition8()
    ensures Composes(6, 2, 8)
  {
  }

  lemma Composition10()
    ensures Composes(8, 2, 10)
  {
  }

  lemma Composition14()
    ensures Composes(8, 6, 14)
  {
  }

  lemma Composition15()
    ensures Composes(14, 1, 15)
  {
  }

  lemma Composition18()
    ensures Composes(15, 3, 18)
  {
  }

  lemma Composition20()
    ensures Composes(18, 2, 20)
  {
  }

  lemma Composition21()
    ensures Composes(20, 1, 21)
  {
  }

  lemma Composition25()
    ensures Composes(15, 10, 25)
  {
  }

  lemma Composition27()
    ensures Composes(25, 2, 27)
  {
  }

  lemma Composition28()
    ensures Composes(27, 1, 28)
  {
  }

  lemma Composition31()
    ensures Composes(28, 3, 31)
  {
  }

  lemma Composition36()
    ensures Composes(28, 8, 36)
  {
  }

  lemma Composition39()
    ensures Composes(36, 3, 39)
  {
  }

  lemma Composition41()
    ensures Composes(39, 2, 41)
  {
  }

  lemma Composition43()
    ensures Composes(41, 2, 43)
  {
  }

  lemma Composition44()
    ensures Composes(43, 1, 44)
  {
  }

  lemma Composition45()
    ensures Composes(44, 1, 45)
  {
  }

  lemma Composition55()
    ensures Composes(45, 10, 55)
  {
  }

  lemma Composition56()
    ensures Composes(55, 1, 56)
  {
  }

  lemma Composition61()
    ensures Composes(55, 6, 61)
  {
  }

  lemma Composition62()
    ensures Composes(61, 1, 62)
  {
  }

  lemma Composition63()
    ensures Composes(62, 1, 63)
  {
  }

  lemma Composition64()
    ensures Composes(63, 1, 64)
  {
  }

  lemma Rotations0()
    ensures Rotates(2, 2)
    ensures Rotates(3, 3)
    ensures Rotates(6, 6)
    ensures Rotates(7, 7)
    ensures Rotates(8, 8)
    ensures Rotates(10, 10)
    ensures Rotates(14, 14)
    ensures Rotates(15, 15)
    ensures Rotates(18, 18)
  {
    hide *;
    RotatesOnce();
    Composition2();
    RotatesSum(1, 1, 1, 1, 2);
    Composition3();
    RotatesSum(2, 2, 1, 1, 3);
    Composition6();
    RotatesSum(3, 3, 3, 3, 6);
    Composition7();
    RotatesSum(6, 6, 1, 1, 7);
    Composition8();
    RotatesSum(6, 6, 2, 2, 8);
    Composition10();
    RotatesSum(8, 8, 2, 2, 10);
    Composition14();
    RotatesSum(8, 8, 6, 6, 14);
    Composition15();
    RotatesSum(14, 14, 1, 1, 15);
    Composition18();
    RotatesSum(15, 15, 3, 3, 18);
  }

  lemma Rotations1()
    ensures Rotates(20, 20)
    ensures Rotates(21, 21)
    ensures Rotates(25, 25)
    ensures Rotates(27, 27)
    ensures Rotates(28, 28)
    ensures Rotates(31, 31)
    ensures Rotates(36, 36)
    ensures Rotates(39, 39)
    ensures Rotates(41, 41)
  {
    hide *;
    RotatesOnce();
    Rotations0();
    Composition20();
    RotatesSum(18, 18, 2, 2, 20);
    Composition21();
    RotatesSum(20, 20, 1, 1, 21);
    Composition25();
    RotatesSum(15, 15, 10, 10, 25);
    Composition27();
    RotatesSum(25, 25, 2, 2, 27);
    Composition28();
    RotatesSum(27, 27, 1, 1, 28);
    Composition31();
    RotatesSum(28, 28, 3, 3, 31);
    Composition36();
    RotatesSum(28, 28, 8, 8, 36);
    Composition39();
    RotatesSum(36, 36, 3, 3, 39);
    Composition41();
    RotatesSum(39, 39, 2, 2, 41);
  }

  lemma Rotations2()
    ensures Rotates(43, 43)
    ensures Rotates(44, 44)
    ensures Rotates(45, 45)
    ensures Rotates(55, 55)
    ensures Rotates(56, 56)
    ensures Rotates(61, 61)
    ensures Rotates(62, 62)
    ensures Rotates(63, 63)
    ensures Rotates(64, 64)
  {
    hide *;
    RotatesOnce();
    Rotations0();
    Rotations1();
    Composition43();
    RotatesSum(41, 41, 2, 2, 43);
    Composition44();
    RotatesSum(43, 43, 1, 1, 44);
    Composition45();
    RotatesSum(44, 44, 1, 1, 45);
    Composition55();
    RotatesSum(45, 45, 10, 10, 55);
    Composition56();
    RotatesSum(55, 55, 1, 1, 56);
    Composition61();
    RotatesSum(55, 55, 6, 6, 61);
    Composition62();
    RotatesSum(61, 61, 1, 1, 62);
    Composition63();
    RotatesSum(62, 62, 1, 1, 63);
    Composition64();
    RotatesSum(63, 63, 1, 1, 64);
  }

  lemma FullTurn(x: bv64)
    ensures RotL(x, 64) == x
  {
  }

  lemma Around(x: bv64, z: nat)
    ensures Bit(x, z + 64) == Bit(x, z)
  {
    hide Bit, RotL, Turned;
    Rotations2();
    FullTurn(x);
    BitTurned(x, 64, z);
  }

  /** A rotation moves bit `z - n` to `z`. */
  lemma BitRotated(x: bv64, n: bv8, k: nat, z: nat)
    requires n <= 64 && k <= 64 && Rotates(n, k)
    ensures Bit(RotL(x, n), z) == Bit(x, z + 64 - k)
  {
    hide Bit, RotL, Turned;
    Around(RotL(x, n), z);
    BitTurned(x, k, z + 64 - k);
  }

  lemma TurnOr(x: bv64, y: bv64)
    ensures TurnRight(x | y) == TurnRight(x) | TurnRight(y)
    ensures Odd(x | y) == (Odd(x) || Odd(y))
  {
  }

  lemma {:induction false} BitOr(x: bv64, y: bv64, z: nat)
    ensures Bit(x | y, z) == (Bit(x, z) || Bit(y, z))
    decreases z
  {
    hide TurnRight, Odd;
    TurnOr(x, y);
    if z > 0 {
      BitOr(TurnRight(x), TurnRight(y), z - 1);
    }
  }

  function Twice(m: bv64): bv64 { m << 1 }

  /** The lane with bit `k` alone, for k < 64. */
  function Power(k: nat): bv64 { if k == 0 then 1 else Twice(Power(k - 1)) }

  predicate AtMostOne(m: bv64) { m & (m - 1) == 0 }

  lemma Doubled(m: bv64)
    requires AtMostOne(m) && m != 0
    ensures AtMostOne(Twice(m)) && !Odd(Twice(m))
    ensures Twice(m) != 0 ==> TurnRight(Twice(m)) == m
  {
  }

  lemma EightTimesTwo(m: bv64)
    ensures Twice(Twice(Twice(Twice(Twice(Twice(Twice(Twice(m)))))))) == m << 8
  {
  }

  lemma FourMore(k: nat)
    ensures Power(k + 4) == Twice(Twice(Twice(Twice(Power(k)))))
  {
    hide Twice;
    assert Power(k + 3) == Twice(Power(k + 2));
    assert Power(k + 1) == Twice(Power(k));
  }

  lemma EightMore(k: nat)
    ensures Power(k + 8) == Power(k) << 8
  {
    hide Twice;
    EightTimesTwo(Power(k));
    FourMore(k);
    FourMore(k + 4);
  }

  lemma PowerOf63()
    ensures Power(63) == 0x8000000000000000 == TurnRight(1)
  {
    assert Power(3) == 8;
    assert Power(7) == 0x80;
    hide Power;
    EightMore(7);
    EightMore(15);
    EightMore(23);
    EightMore(31);
    EightMore(39);
    EightMore(47);
    EightMore(55);
  }

  lemma {:induction false} PowerNotZero(k: nat)
    requires k <= 63
    ensures Power(k) != 0
    decreases 63 - k
  {
    if k == 63 {
      PowerOf63();
    } else {
      PowerNotZero(k + 1);
      assert Power(k + 1) == Twice(Power(k));
    }
  }

  lemma {:induction false} PowerAlone(k: nat)
    requires k <= 63
    ensures AtMostOne(Power(k))
    ensures k > 0 ==> TurnRight(Power(k)) == Power(k - 1) && !Odd(Power(k))
  {
    if k > 0 {
      PowerAlone(k - 1);
      PowerNotZero(k - 1);
      PowerNotZero(k);
      Doubled(Power(k - 1));
      hide AtMostOne, TurnRight, Odd;
    }
  }

  lemma {:induction false} BitOfPower(k: nat, z: nat)
    requires k < 64 && z <= 64 + k
    ensures Bit(Power(k), z) == (z == k || z == 64 + k)
    decreases z
  {
    hide TurnRight, AtMostOne;
    PowerAlone(k);
    if z > 0 && k > 0 {
      BitOfPower(k - 1, z - 1);
    } else if z > 0 {
      PowerOf63();
      BitOfPower(63, z - 1);
    }
  }

  lemma OneBit(x: bv64, m: bv64)
    requires AtMostOne(m)
    ensures And(x, m) == 0 || And(x, m) == m
  {
  }

  lemma ShiftedAnd(x: bv64, m: bv64)
    ensures And(x, m << 8) != 0 <==> And(x >> 8, m) != 0
  {
  }

  /** A bit is set when the lane meets the one with that bit alone. */
  lemma BitIsAnd(x: bv64, z: nat)
    requires z < 64
    ensures Bit(x, z) <==> And(x, Power(z)) != 0
  {
    hide Bit, And, AtMostOne, Power;
    PowerAlone(z);
    OneBit(x, Power(z));
    BitAnd(x, Power(z), z);
    BitOfPower(z, z);
    BitOfZero(z);
  }

  /** The bits of a lane without its lowest byte. */
  lemma BitOfShifted(x: bv64, z: nat)
    requires z < 56
    ensures Bit(x >> 8, z) == Bit(x, z + 8)
  {
    hide Bit, And, Power;
    BitIsAnd(x, z + 8);
    BitIsAnd(x >> 8, z);
    EightMore(z);
    ShiftedAnd(x, Power(z));
  }
}
