/** The lane code computes the permutation on bits. */
module KeccakBits {
  import opened Bytes
  import opened Iteration
  import opened LaneBits
  import opened Fips202
  import KeccakSpec

  function StateBits(a: KeccakSpec.State): State {
    seq(1600, i requires 0 <= i < 1600 => Bit(a[i / 64], i % 64))
  }

  lemma Coordinates(x: nat, y: nat, z: nat)
    requires x < 5 && y < 5 && z < 64
    ensures var i := 64 * (x + 5 * y) + z; i < 1600 && i / 64 == x + 5 * y && i / 64 % 5 == x && i / 320 == y && i % 64 == z
  {
  }

  lemma ArrayAt(f: (int, int, int) -> bool, x: int, y: int, z: int)
    ensures At(Array(f), x, y, z) == f(x % 5, y % 5, z % 64)
  {
    Coordinates(x % 5, y % 5, z % 64);
  }

  lemma SameArray(s: State, t: State)
    requires forall x: nat, y: nat, z: nat | x < 5 && y < 5 && z < 64 :: At(s, x, y, z) == At(t, x, y, z)
    ensures s == t
  {
    forall i | 0 <= i < 1600 ensures s[i] == t[i] {
      assert At(s, i / 64 % 5, i / 320, i % 64) == At(t, i / 64 % 5, i / 320, i % 64);
      assert i == 64 * (i / 64 % 5 + 5 * (i / 320)) + i % 64;
    }
  }

  lemma BitsAt(a: KeccakSpec.State, x: int, y: int, z: int)
    ensures At(StateBits(a), x, y, z) == Bit(KeccakSpec.Lane(a, x % 5, y % 5), z % 64)
  {
    hide Bit;
    Coordinates(x % 5, y % 5, z % 64);
  }

  lemma BitModulo(x: bv64, z: nat)
    ensures Bit(x, z) == Bit(x, z % 64)
  {
    hide Bit;
    if z >= 64 {
      Around(x, z - 64);
      BitModulo(x, z - 64);
    }
  }

  lemma RotatedBit(x: bv64, n: bv8, k: nat, z: nat)
    requires n <= 64 && k <= 64 && Rotates(n, k) && z < 64
    ensures Bit(KeccakSpec.RotL(x, n), z) == Bit(x, (z - k) % 64)
  {
    hide Bit, KeccakSpec.RotL, Rotates;
    BitRotated(x, n, k, z);
    BitModulo(x, z + 64 - k);
    assert (z + 64 - k) % 64 == (z - k) % 64;
  }

  /** The lane at coordinates counted around. */
  lemma SameLane(a: KeccakSpec.State, x: int, y: int, i: nat, j: nat)
    requires i % 5 == x % 5 && j % 5 == y % 5
    ensures KeccakSpec.Lane(a, i, j) == KeccakSpec.Lane(a, x % 5, y % 5)
  {
  }

  /** What the bit array says of a lane. */
  lemma LaneBit(a: KeccakSpec.State, x: int, y: int, z: int, i: nat, j: nat)
    requires i % 5 == x % 5 && j % 5 == y % 5
    ensures At(StateBits(a), x, y, z) == Bit(KeccakSpec.Lane(a, i, j), z % 64)
  {
    hide *;
    BitsAt(a, x, y, z);
    SameLane(a, x, y, i, j);
  }

  lemma XorBit(x: bv64, y: bv64, z: nat)
    ensures Bit(KeccakSpec.Xor(x, y), z) == Xor(Bit(x, z), Bit(y, z))
  {
    hide Bit, KeccakSpec.Xor;
    BitXor(x, y, z);
  }

  lemma ThreeBits(p: bv64, q: bv64, r: bv64, z: nat)
    ensures Bit(KeccakSpec.Xor(KeccakSpec.Xor(p, q), r), z) == Xor(Xor(Bit(p, z), Bit(q, z)), Bit(r, z))
  {
    hide *;
    XorBit(KeccakSpec.Xor(p, q), r, z);
    XorBit(p, q, z);
  }

  lemma MoreBits(sum: bv64, s: bv64, t: bv64, z: nat, b: bool)
    requires Bit(sum, z) == b
    ensures Bit(KeccakSpec.Xor(KeccakSpec.Xor(sum, s), t), z) == Xor(Xor(b, Bit(s, z)), Bit(t, z))
  {
    hide *;
    ThreeBits(sum, s, t, z);
  }

  lemma ParityBit(a: KeccakSpec.State, x: int, k: nat, z: int)
    requires k % 5 == x % 5
    ensures Parity(StateBits(a), x, z) == Bit(KeccakSpec.Column(a, k), z % 64)
  {
    hide Bit, StateBits, At, KeccakSpec.Lane, KeccakSpec.Xor, Xor;
    LaneBit(a, x, 0, z, k, 0);
    LaneBit(a, x, 1, z, k, 1);
    LaneBit(a, x, 2, z, k, 2);
    LaneBit(a, x, 3, z, k, 3);
    LaneBit(a, x, 4, z, k, 4);
    var p, q, r := KeccakSpec.Lane(a, k, 0), KeccakSpec.Lane(a, k, 1), KeccakSpec.Lane(a, k, 2);
    ThreeBits(p, q, r, z % 64);
    MoreBits(KeccakSpec.Xor(KeccakSpec.Xor(p, q), r), KeccakSpec.Lane(a, k, 3), KeccakSpec.Lane(a, k, 4), z % 64,
      Xor(Xor(Bit(p, z % 64), Bit(q, z % 64)), Bit(r, z % 64)));
  }

  lemma ThetaLane(a: KeccakSpec.State, x: nat, y: nat)
    requires x < 5 && y < 5
    ensures KeccakSpec.Lane(KeccakSpec.Theta(a), x, y)
         == KeccakSpec.Xor(KeccakSpec.Lane(a, x, y), KeccakSpec.ThetaEffect(a, x))
  {
    hide KeccakSpec.Xor, KeccakSpec.ThetaEffect;
  }

  lemma ThetaBit(a: KeccakSpec.State, x: nat, y: nat, z: nat)
    requires x < 5 && y < 5 && z < 64
    ensures At(StateBits(KeccakSpec.Theta(a)), x, y, z) == At(Theta(StateBits(a)), x, y, z)
  {
    hide Bit, StateBits, At, Parity, KeccakSpec.Lane, KeccakSpec.Theta, KeccakSpec.Column, KeccakSpec.Xor, KeccakSpec.RotL, Rotates, Array;
    ThetaLane(a, x, y);
    LaneBit(KeccakSpec.Theta(a), x, y, z, x, y);
    LaneBit(a, x, y, z, x, y);
    BitXor(KeccakSpec.Lane(a, x, y), KeccakSpec.ThetaEffect(a, x), z);
    BitXor(KeccakSpec.Column(a, x + 4), KeccakSpec.RotL(KeccakSpec.Column(a, x + 1), 1), z);
    RotatesOnce();
    RotatedBit(KeccakSpec.Column(a, x + 1), 1, 1, z);
    ParityBit(a, x - 1, x + 4, z);
    ParityBit(a, x + 1, x + 1, z - 1);
    ArrayAt((x, y, z) => Xor(At(StateBits(a), x, y, z), Xor(Parity(StateBits(a), x - 1, z), Parity(StateBits(a), x + 1, z - 1))), x, y, z);
  }

  lemma ThetaOnBits(a: KeccakSpec.State)
    ensures StateBits(KeccakSpec.Theta(a)) == Theta(StateBits(a))
  {
    hide *;
    forall x: nat, y: nat, z: nat | x < 5 && y < 5 && z < 64
      ensures At(StateBits(KeccakSpec.Theta(a)), x, y, z) == At(Theta(StateBits(a)), x, y, z)
    {
      ThetaBit(a, x, y, z);
    }
    SameArray(StateBits(KeccakSpec.Theta(a)), Theta(StateBits(a)));
  }

  lemma PiLaneAt(a: KeccakSpec.State, x: nat, y: nat)
    requires x < 5 && y < 5
    ensures KeccakSpec.Lane(KeccakSpec.Pi(a), x, y) == KeccakSpec.Lane(a, x + 3 * y, x)
  {
    hide KeccakSpec.Lane, KeccakSpec.Pi;
    KeccakSpec.LaneAt(KeccakSpec.Pi(a), x, y);
    KeccakSpec.PiUnfold(a, x + 5 * y);
  }

  lemma PiOnBits(a: KeccakSpec.State)
    ensures StateBits(KeccakSpec.Pi(a)) == Pi(StateBits(a))
  {
    hide Bit, StateBits, At, KeccakSpec.Lane, KeccakSpec.Pi, Array;
    forall x: nat, y: nat, z: nat | x < 5 && y < 5 && z < 64
      ensures At(StateBits(KeccakSpec.Pi(a)), x, y, z) == At(Pi(StateBits(a)), x, y, z)
    {
      PiLaneAt(a, x, y);
      LaneBit(KeccakSpec.Pi(a), x, y, z, x, y);
      LaneBit(a, x + 3 * y, x, z, x + 3 * y, x);
      ArrayAt((x, y, z) => At(StateBits(a), x + 3 * y, x, z), x, y, z);
    }
    SameArray(StateBits(KeccakSpec.Pi(a)), Pi(StateBits(a)));
  }

  lemma ChiLaneAt(a: KeccakSpec.State, x: nat, y: nat)
    requires x < 5 && y < 5
    ensures KeccakSpec.Lane(KeccakSpec.Chi(a), x, y)
         == KeccakSpec.ChiLane(KeccakSpec.Lane(a, x, y), KeccakSpec.Lane(a, x + 1, y), KeccakSpec.Lane(a, x + 2, y))
  {
    hide *;
    var i := x + 5 * y;
    assert i % 5 == x && i / 5 == y;
    KeccakSpec.ChiUnfold(a, i);
    KeccakSpec.LaneAt(KeccakSpec.Chi(a), x, y);
    KeccakSpec.LaneAt(a, x, y);
  }

  lemma ChiBit(p: bv64, q: bv64, r: bv64, z: nat)
    ensures Bit(KeccakSpec.ChiLane(p, q, r), z) == Xor(Bit(p, z), !Bit(q, z) && Bit(r, z))
  {
    hide Bit, KeccakSpec.Xor, KeccakSpec.And, KeccakSpec.Not;
    BitXor(p, KeccakSpec.And(KeccakSpec.Not(q), r), z);
    BitAnd(KeccakSpec.Not(q), r, z);
    BitNot(q, z);
  }

  lemma ChiOnBits(a: KeccakSpec.State)
    ensures StateBits(KeccakSpec.Chi(a)) == Chi(StateBits(a))
  {
    hide Bit, StateBits, At, Xor, KeccakSpec.Lane, KeccakSpec.Chi, KeccakSpec.ChiLane, Array;
    forall x: nat, y: nat, z: nat | x < 5 && y < 5 && z < 64
      ensures At(StateBits(KeccakSpec.Chi(a)), x, y, z) == At(Chi(StateBits(a)), x, y, z)
    {
      ChiLaneAt(a, x, y);
      LaneBit(KeccakSpec.Chi(a), x, y, z, x, y);
      LaneBit(a, x, y, z, x, y);
      LaneBit(a, x + 1, y, z, x + 1, y);
      LaneBit(a, x + 2, y, z, x + 2, y);
      ChiBit(KeccakSpec.Lane(a, x, y), KeccakSpec.Lane(a, x + 1, y), KeccakSpec.Lane(a, x + 2, y), z);
      ArrayAt((x, y, z) => Xor(At(StateBits(a), x, y, z), !At(StateBits(a), x + 1, y, z) && At(StateBits(a), x + 2, y, z)), x, y, z);
    }
    SameArray(StateBits(KeccakSpec.Chi(a)), Chi(StateBits(a)));
  }

  // Rho.

  function Amount(t: nat): nat { ((t + 1) * (t + 2) / 2) % 64 }

  lemma Amounts0()
    ensures Amount(0) == 1 && Amount(1) == 3 && Amount(2) == 6 && Amount(3) == 10 && Amount(4) == 15 && Amount(5) == 21
  {
  }

  lemma Amounts1()
    ensures Amount(6) == 28 && Amount(7) == 36 && Amount(8) == 45 && Amount(9) == 55 && Amount(10) == 2 && Amount(11) == 14
  {
  }

  lemma Amounts2()
    ensures Amount(12) == 27 && Amount(13) == 41 && Amount(14) == 56 && Amount(15) == 8 && Amount(16) == 25 && Amount(17) == 43
  {
  }

  lemma Amounts3()
    ensures Amount(18) == 62 && Amount(19) == 18 && Amount(20) == 39 && Amount(21) == 61 && Amount(22) == 20 && Amount(23) == 44
  {
  }

  lemma OffsetRotates0(t: nat)
    requires 0 <= t < 6
    ensures Rotates(KeccakSpec.Offset(t), Amount(t))
  {
    hide *;
    Amounts0();
    RotatesOnce();
    Rotations0();
    Rotations1();
    KeccakSpec.OffsetTable0();
    KeccakSpec.OffsetTable1();
    KeccakSpec.OffsetTable2();
    assert t == 0 || t == 1 || t == 2 || t == 3 || t == 4 || t == 5;
  }

  lemma OffsetRotates1(t: nat)
    requires 6 <= t < 12
    ensures Rotates(KeccakSpec.Offset(t), Amount(t))
  {
    hide *;
    Amounts1();
    Rotations0();
    Rotations1();
    Rotations2();
    KeccakSpec.OffsetTable3();
    KeccakSpec.OffsetTable4();
    KeccakSpec.OffsetTable5();
    assert t == 6 || t == 7 || t == 8 || t == 9 || t == 10 || t == 11;
  }

  lemma OffsetRotates2(t: nat)
    requires 12 <= t < 18
    ensures Rotates(KeccakSpec.Offset(t), Amount(t))
  {
    hide *;
    Amounts2();
    Rotations0();
    Rotations1();
    Rotations2();
    KeccakSpec.OffsetTable6();
    KeccakSpec.OffsetTable7();
    KeccakSpec.OffsetTable8();
    assert t == 12 || t == 13 || t == 14 || t == 15 || t == 16 || t == 17;
  }

  lemma OffsetRotates3(t: nat)
    requires 18 <= t < 24
    ensures Rotates(KeccakSpec.Offset(t), Amount(t))
  {
    hide *;
    Amounts3();
    Rotations0();
    Rotations1();
    Rotations2();
    KeccakSpec.OffsetTable9();
    KeccakSpec.OffsetTable10();
    KeccakSpec.OffsetTable11();
    assert t == 18 || t == 19 || t == 20 || t == 21 || t == 22 || t == 23;
  }

  lemma OffsetRotates(t: nat)
    requires t < 24
    ensures Rotates(KeccakSpec.Offset(t), Amount(t))
  {
    hide *;
    if t < 6 {
      OffsetRotates0(t);
    } else if t < 12 {
      OffsetRotates1(t);
    } else if t < 18 {
      OffsetRotates2(t);
    } else {
      OffsetRotates3(t);
    }
  }

  lemma SameRemainder(z: nat, n: nat)
    ensures (z - n % 64) % 64 == (z - n) % 64
  {
  }

  lemma OffsetBit(x: bv64, t: nat, z: nat)
    requires t < 24 && z < 64
    ensures Bit(KeccakSpec.RotL(x, KeccakSpec.Offset(t)), z) == Bit(x, (z - (t + 1) * (t + 2) / 2) % 64)
  {
    hide Bit, KeccakSpec.Offset, KeccakSpec.RotL, Rotates;
    OffsetRotates(t);
    RotatedBit(x, KeccakSpec.Offset(t), Amount(t), z);
    SameRemainder(z, (t + 1) * (t + 2) / 2);
  }

  lemma StopIs(t: nat, i: nat)
    requires i < 25
    ensures KeccakSpec.Stop(t) == i <==> (i % 5, i / 5) == Walk(t)
  {
    hide Walk;
  }

  /** A lane other than the corner is moved at its own stop and at no other. */
  lemma {:induction false} TurnIs(i: nat, n: nat)
    requires 0 < i < 25 && n <= 24
    ensures var t := KeccakSpec.StopNumber(i); Turn(i % 5, i / 5, n) == if t < n then (t + 1) * (t + 2) / 2 else 0
  {
    hide Walk, KeccakSpec.Stop, KeccakSpec.StopNumber;
    if n > 0 {
      TurnIs(i, n - 1);
      StopIs(n - 1, i);
      KeccakSpec.StopFacts(n - 1);
      KeccakSpec.StopOfNumber(i);
    }
  }

  lemma {:induction false} CornerStays(n: nat)
    requires n <= 24
    ensures Turn(0, 0, n) == 0
  {
    hide Walk, KeccakSpec.Stop, KeccakSpec.StopNumber;
    if n > 0 {
      CornerStays(n - 1);
      StopIs(n - 1, 0);
      KeccakSpec.StopFacts(n - 1);
    }
  }

  lemma RhoLaneAt(a: KeccakSpec.State, x: nat, y: nat)
    requires x < 5 && y < 5
    ensures var i := x + 5 * y;
      KeccakSpec.Lane(KeccakSpec.Rho(a), x, y)
      == if i == 0 then KeccakSpec.Lane(a, x, y) else KeccakSpec.RotL(KeccakSpec.Lane(a, x, y), KeccakSpec.LaneOffset(i))
  {
    hide KeccakSpec.Rho, KeccakSpec.RotL, KeccakSpec.LaneOffset;
    KeccakSpec.RhoLane(a, x + 5 * y);
  }

  lemma RhoBit(a: KeccakSpec.State, x: nat, y: nat, z: nat)
    requires x < 5 && y < 5 && z < 64
    ensures Bit(KeccakSpec.Lane(KeccakSpec.Rho(a), x, y), z) == Bit(KeccakSpec.Lane(a, x, y), (z - Turn(x, y, 24)) % 64)
  {
    hide Bit, Turn, KeccakSpec.Lane, KeccakSpec.Rho, KeccakSpec.Stop, KeccakSpec.StopNumber, KeccakSpec.Offset, KeccakSpec.LaneOffset, KeccakSpec.RotL;
    var i := x + 5 * y;
    assert i % 5 == x && i / 5 == y;
    RhoLaneAt(a, x, y);
    if i == 0 {
      CornerStays(24);
    } else {
      TurnIs(i, 24);
      KeccakSpec.StopOfNumber(i);
      KeccakSpec.StopFacts(KeccakSpec.StopNumber(i));
      OffsetBit(KeccakSpec.Lane(a, x, y), KeccakSpec.StopNumber(i), z);
    }
  }

  lemma RhoOnBits(a: KeccakSpec.State)
    ensures StateBits(KeccakSpec.Rho(a)) == Rho(StateBits(a))
  {
    hide Bit, StateBits, At, Turn, KeccakSpec.Lane, KeccakSpec.Rho, Array;
    forall x: nat, y: nat, z: nat | x < 5 && y < 5 && z < 64
      ensures At(StateBits(KeccakSpec.Rho(a)), x, y, z) == At(Rho(StateBits(a)), x, y, z)
    {
      RhoBit(a, x, y, z);
      LaneBit(KeccakSpec.Rho(a), x, y, z, x, y);
      LaneBit(a, x, y, z - Turn(x, y, 24), x, y);
      ArrayAt((x, y, z) => At(StateBits(a), x, y, z - Turn(x, y, 24)), x, y, z);
    }
    SameArray(StateBits(KeccakSpec.Rho(a)), Rho(StateBits(a)));
  }

  // Iota.

  // Iota.

  lemma PlacedValues(r: byte)
    ensures KeccakSpec.Placed(r, 0) == if r & 1 != 0 then 1 else 0
    ensures KeccakSpec.Placed(r, 1) == if r & 1 != 0 then 2 else 0
    ensures KeccakSpec.Placed(r, 3) == if r & 1 != 0 then 8 else 0
    ensures KeccakSpec.Placed(r, 7) == if r & 1 != 0 then 0x80 else 0
    ensures KeccakSpec.Placed(r, 15) == if r & 1 != 0 then 0x8000 else 0
    ensures KeccakSpec.Placed(r, 31) == if r & 1 != 0 then 0x80000000 else 0
    ensures KeccakSpec.Placed(r, 63) == if r & 1 != 0 then 0x8000000000000000 else 0
  {
  }

  lemma PowerValues()
    ensures Power(0) == 1 && Power(1) == 2 && Power(3) == 8 && Power(7) == 0x80 && Power(15) == 0x8000
    ensures Power(31) == 0x80000000 && Power(63) == 0x8000000000000000
  {
    assert Power(3) == 8;
    assert Power(7) == 0x80;
    hide Power;
    EightMore(7);
    EightMore(15);
    EightMore(23);
    PowerOf63();
  }

  lemma PlacedBit(r: byte, placed: bv64, k: nat, z: nat)
    requires k < 64 && z < 64 && placed == if r & 1 != 0 then Power(k) else 0
    ensures Bit(placed, z) == (z == k && r & 1 != 0)
  {
    hide Bit, Power;
    BitOfPower(k, z);
    BitOfZero(z);
  }

  lemma LfsrStepBits(r: byte)
    ensures var b := ByteBits(r);
      ByteBits(KeccakSpec.LfsrStep(r))
      == [Xor(false, b[7]), b[0], b[1], b[2], Xor(b[3], b[7]), Xor(b[4], b[7]), Xor(b[5], b[7]), b[6]]
  {
  }

  lemma {:induction false} RegisterBits(t: nat)
    ensures ByteBits(KeccakSpec.Lfsr(t)) == Register(t)
  {
    hide KeccakSpec.LfsrStep;
    if t > 0 {
      hide ByteBits;
      RegisterBits(t - 1);
      LfsrStepBits(KeccakSpec.Lfsr(t - 1));
    }
  }

  lemma RcIs(t: nat)
    requires t < 255
    ensures KeccakSpec.Lfsr(t) & 1 != 0 <==> Rc(t)
  {
    RegisterBits(t);
    hide KeccakSpec.Lfsr, Register;
  }

  lemma RcBitAt(t: nat, at: bv8, k: nat, z: nat)
    requires at < 64 && k < 64 && t < 255 && z < 64
    requires forall r :: KeccakSpec.Placed(r, at) == if r & 1 != 0 then Power(k) else 0
    ensures Bit(KeccakSpec.RcBit(t, at), z) == (z == k && Rc(t))
  {
    hide Bit, Power, KeccakSpec.Placed, KeccakSpec.Lfsr, Rc;
    RcIs(t);
    PlacedBit(KeccakSpec.Lfsr(t), KeccakSpec.RcBit(t, at), k, z);
  }

  lemma RcBits(round: nat, z: nat)
    requires round < 24 && z < 64
    ensures Bit(KeccakSpec.RcBit(7 * round, 0), z) == (z == 0 && Rc(7 * round))
    ensures Bit(KeccakSpec.RcBit(7 * round + 1, 1), z) == (z == 1 && Rc(1 + 7 * round))
    ensures Bit(KeccakSpec.RcBit(7 * round + 2, 3), z) == (z == 3 && Rc(2 + 7 * round))
    ensures Bit(KeccakSpec.RcBit(7 * round + 3, 7), z) == (z == 7 && Rc(3 + 7 * round))
    ensures Bit(KeccakSpec.RcBit(7 * round + 4, 15), z) == (z == 15 && Rc(4 + 7 * round))
    ensures Bit(KeccakSpec.RcBit(7 * round + 5, 31), z) == (z == 31 && Rc(5 + 7 * round))
    ensures Bit(KeccakSpec.RcBit(7 * round + 6, 63), z) == (z == 63 && Rc(6 + 7 * round))
  {
    hide Bit, Power, KeccakSpec.Placed, KeccakSpec.RcBit, Rc;
    PowerValues();
    forall r: byte { PlacedValues(r); }
    RcBitAt(7 * round, 0, 0, z);
    RcBitAt(7 * round + 1, 1, 1, z);
    RcBitAt(7 * round + 2, 3, 3, z);
    RcBitAt(7 * round + 3, 7, 7, z);
    RcBitAt(7 * round + 4, 15, 15, z);
    RcBitAt(7 * round + 5, 31, 31, z);
    RcBitAt(7 * round + 6, 63, 63, z);
  }

  lemma TwoTerms(sum: bv64, s: bv64, t: bv64, z: nat, b: bool)
    requires Bit(sum, z) == b
    ensures Bit(sum | s | t, z) == (b || Bit(s, z) || Bit(t, z))
  {
    hide Bit;
    BitOr(sum | s, t, z);
    BitOr(sum, s, z);
  }

  lemma FourTerms(sum: bv64, s: bv64, t: bv64, u: bv64, v: bv64, z: nat, b: bool)
    requires Bit(sum, z) == b
    ensures Bit(sum | s | t | u | v, z) == (b || Bit(s, z) || Bit(t, z) || Bit(u, z) || Bit(v, z))
  {
    hide Bit;
    TwoTerms(sum, s, t, z, b);
    TwoTerms(sum | s | t, u, v, z, b || Bit(s, z) || Bit(t, z));
  }

  lemma AnyOfSeven(b0: bv64, b1: bv64, b2: bv64, b3: bv64, b4: bv64, b5: bv64, b6: bv64, z: nat)
    ensures Bit(b0 | b1 | b2 | b3 | b4 | b5 | b6, z)
         == (Bit(b0, z) || Bit(b1, z) || Bit(b2, z) || Bit(b3, z) || Bit(b4, z) || Bit(b5, z) || Bit(b6, z))
  {
    hide Bit;
    TwoTerms(b0, b1, b2, z, Bit(b0, z));
    FourTerms(b0 | b1 | b2, b3, b4, b5, b6, z, Bit(b0, z) || Bit(b1, z) || Bit(b2, z));
  }

  lemma ConstantBits(round: nat, z: nat)
    requires round < 24 && z < 64
    ensures Bit(KeccakSpec.RoundConstant(round), z) == ConstantBit(round, z)
  {
    hide Bit, Rc, KeccakSpec.RcBit;
    RcBits(round, z);
    AnyOfSeven(KeccakSpec.RcBit(7 * round, 0), KeccakSpec.RcBit(7 * round + 1, 1), KeccakSpec.RcBit(7 * round + 2, 3),
      KeccakSpec.RcBit(7 * round + 3, 7), KeccakSpec.RcBit(7 * round + 4, 15), KeccakSpec.RcBit(7 * round + 5, 31),
      KeccakSpec.RcBit(7 * round + 6, 63), z);
  }

  lemma IotaLane(a: KeccakSpec.State, round: nat, x: nat, y: nat)
    requires x < 5 && y < 5
    ensures KeccakSpec.Lane(KeccakSpec.Iota(a, round), x, y)
         == if (x, y) == (0, 0) then KeccakSpec.Xor(KeccakSpec.Lane(a, x, y), KeccakSpec.RoundConstant(round))
            else KeccakSpec.Lane(a, x, y)
  {
    hide KeccakSpec.Xor, KeccakSpec.RoundConstant, KeccakSpec.AddConstant;
    KeccakSpec.AddConstantIs(a, KeccakSpec.RoundConstant(round));
  }

  lemma IotaAt(s: State, round: nat, x: nat, y: nat, z: nat)
    requires x < 5 && y < 5 && z < 64
    ensures At(Iota(s, round), x, y, z)
         == if (x, y) == (0, 0) then Xor(At(s, x, y, z), ConstantBit(round, z)) else At(s, x, y, z)
  {
    hide At, Array, ConstantBit, Xor;
    ArrayAt((x, y, z) => if (x, y) == (0, 0) then Xor(At(s, x, y, z), ConstantBit(round, z)) else At(s, x, y, z), x, y, z);
  }

  lemma IotaBit(a: KeccakSpec.State, round: nat, x: nat, y: nat, z: nat)
    requires round < 24 && x < 5 && y < 5 && z < 64
    ensures At(StateBits(KeccakSpec.Iota(a, round)), x, y, z) == At(Iota(StateBits(a), round), x, y, z)
  {
    hide *;
    IotaLane(a, round, x, y);
    IotaAt(StateBits(a), round, x, y, z);
    LaneBit(KeccakSpec.Iota(a, round), x, y, z, x, y);
    LaneBit(a, x, y, z, x, y);
    XorBit(KeccakSpec.Lane(a, x, y), KeccakSpec.RoundConstant(round), z);
    ConstantBits(round, z);
  }

  lemma IotaOnBits(a: KeccakSpec.State, round: nat)
    requires round < 24
    ensures StateBits(KeccakSpec.Iota(a, round)) == Iota(StateBits(a), round)
  {
    hide *;
    var here, there := StateBits(KeccakSpec.Iota(a, round)), Iota(StateBits(a), round);
    forall x: nat, y: nat, z: nat | x < 5 && y < 5 && z < 64 ensures At(here, x, y, z) == At(there, x, y, z) {
      IotaBit(a, round, x, y, z);
    }
    SameArray(here, there);
  }

  // The permutation.

  lemma RoundOnBits()
    ensures CommutingSteps(StateBits, KeccakSpec.Round, Round, 24)
  {
    hide StateBits, Theta, Rho, Pi, Chi, Iota, KeccakSpec.Theta, KeccakSpec.Rho, KeccakSpec.Pi, KeccakSpec.Chi, KeccakSpec.Iota;
    forall a, k: nat | k < 24 ensures StateBits(KeccakSpec.Round(a, k)) == Round(StateBits(a), k) {
      ThetaOnBits(a);
      RhoOnBits(KeccakSpec.Theta(a));
      PiOnBits(KeccakSpec.Rho(KeccakSpec.Theta(a)));
      ChiOnBits(KeccakSpec.Pi(KeccakSpec.Rho(KeccakSpec.Theta(a))));
      IotaOnBits(KeccakSpec.Chi(KeccakSpec.Pi(KeccakSpec.Rho(KeccakSpec.Theta(a)))), k);
    }
  }

  /** The permutation of the lanes is the one the standard states bit by bit. */
  lemma PermutationOnBits()
    ensures Commutes(StateBits, KeccakSpec.KeccakF, KeccakF)
  {
    hide StateBits, Round, KeccakSpec.Round, Iterate, CommutingSteps;
    RoundOnBits();
    forall a ensures StateBits(KeccakSpec.KeccakF(a)) == KeccakF(StateBits(a)) {
      IterateCommutes(StateBits, KeccakSpec.Round, Round, a, 24, 24);
    }
  }
}
