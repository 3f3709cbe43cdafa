/** Steps numbered from zero, and undoing them. */
module Iteration {
  /** The steps 0 to `n - 1`, one after the other. */
  function Iterate<T>(step: (T, nat) -> T, x: T, n: nat): T {
    if n == 0 then x else step(Iterate(step, x, n - 1), n - 1)
  }

  /** The steps `n - 1` to 0. */
  function IterateBack<T>(step: (T, nat) -> T, x: T, n: nat): T {
    if n == 0 then x else IterateBack(step, step(x, n - 1), n - 1)
  }

  /** Each power applied twice is the next one. */
  ghost predicate Doubling<T(!new)>(power: (nat, T) -> T) {
    forall k: nat, x :: power(k, power(k, x)) == power(k + 1, x)
  }

  /** The product of the powers below `k`, the lowest applied first. */
  function Up<T>(power: (nat, T) -> T, k: nat, x: T): T {
    if k == 0 then x else power(k - 1, Up(power, k - 1, x))
  }

  /** The same product, the lowest applied last. */
  function Down<T>(power: (nat, T) -> T, k: nat, x: T): T {
    if k == 0 then x else Down(power, k - 1, power(k - 1, x))
  }

  lemma {:induction false} UpDoubles<T(!new)>(power: (nat, T) -> T, k: nat, x: T)
    requires Doubling(power)
    ensures Up(power, k, power(0, x)) == power(k, x)
  {
    if k > 0 { UpDoubles(power, k - 1, x); }
  }

  lemma {:induction false} DownDoubles<T(!new)>(power: (nat, T) -> T, k: nat, x: T)
    requires Doubling(power)
    ensures power(0, Down(power, k, x)) == power(k, x)
  {
    if k > 0 { DownDoubles(power, k - 1, power(k - 1, x)); }
  }

  /** Where two powers undo each other, so does everything up to them. */
  lemma PowersInvert<T(!new)>(power: (nat, T) -> T, k: nat, next: nat, x: T)
    requires Doubling(power) && next == k + 1 && forall y :: power(k, power(next, y)) == y
    ensures power(k, Up(power, next, power(0, x))) == x
    ensures power(0, power(k, Up(power, next, x))) == x
  {
    UpDoubles(power, next, x);
    var y := Down(power, k, power(next, x));
    DownDoubles(power, k, power(next, x));
    UpDoubles(power, next, y);
  }

  /** Either map undoes the other. */
  ghost predicate Inverse<T(!new)>(f: T -> T, g: T -> T) {
    forall x :: g(f(x)) == x && f(g(x)) == x
  }

  /** Step by step, either map undoes the other. */
  ghost predicate InverseSteps<T(!new)>(f: (T, nat) -> T, g: (T, nat) -> T) {
    forall x, n :: g(f(x, n), n) == x && f(g(x, n), n) == x
  }

  /** A view of the states under which `f` looks like `g`. */
  ghost predicate Commutes<A(!new), B>(view: A -> B, f: A -> A, g: B -> B) {
    forall x :: view(f(x)) == g(view(x))
  }

  /** The same for the first `n` steps. */
  ghost predicate CommutingSteps<A(!new), B>(view: A -> B, f: (A, nat) -> A, g: (B, nat) -> B, n: nat) {
    forall x, k: nat | k < n :: view(f(x, k)) == g(view(x), k)
  }

  lemma {:induction false} IterateCommutes<A(!new), B>(view: A -> B, f: (A, nat) -> A, g: (B, nat) -> B, x: A, n: nat, k: nat)
    requires CommutingSteps(view, f, g, n) && k <= n
    ensures view(Iterate(f, x, k)) == Iterate(g, view(x), k)
  {
    if k > 0 { IterateCommutes(view, f, g, x, n, k - 1); }
  }

  lemma {:induction false} IterateInverse<T(!new)>(f: (T, nat) -> T, g: (T, nat) -> T, x: T, n: nat)
    requires InverseSteps(f, g)
    ensures IterateBack(g, Iterate(f, x, n), n) == x && Iterate(f, IterateBack(g, x, n), n) == x
  {
    if n > 0 {
      IterateInverse(f, g, x, n - 1);
      IterateInverse(f, g, g(x, n - 1), n - 1);
    }
  }
}

/** The permutation Keccak-f[1600], as sections 3.2 to 3.4 of FIPS 202 define it.
    Lane (x, y) of the 5 by 5 state is element x + 5y of a sequence. */
module KeccakSpec {
  import opened Bytes
  import opened Iteration
  import Fips202

  type State = s: seq<bv64> | |s| == 25 witness seq(25, _ => 0)

  function Xor(x: bv64, y: bv64): bv64 { x ^ y }

  function And(x: bv64, y: bv64): bv64 { x & y }

  function Not(x: bv64): bv64 { !x }

  function RotL(x: bv64, n: bv8): bv64
    requires n <= 64
  {
    (x << n) | (x >> (64 - n))
  }

  /** The lane at coordinates taken modulo 5. */
  function Lane(a: State, x: nat, y: nat): bv64 { a[x % 5 + 5 * (y % 5)] }

  // Theta, section 3.2.1.

  function Column(a: State, x: nat): bv64 {
    Xor(Xor(Xor(Xor(Lane(a, x, 0), Lane(a, x, 1)), Lane(a, x, 2)), Lane(a, x, 3)), Lane(a, x, 4))
  }

  function ThetaEffect(a: State, x: nat): bv64 {
    Xor(Column(a, x + 4), RotL(Column(a, x + 1), 1))
  }

  function Theta(a: State): State {
    seq(25, i requires 0 <= i < 25 => Xor(a[i], ThetaEffect(a, i % 5)))
  }

  // Rho, section 3.2.2.

  /** How far rho rotates each lane, as the table of section 3.2.2 lists it modulo 64. */
  function LaneOffset(i: nat): (n: bv8)
    requires i < 25
    ensures n <= 64
  {
    if i < 5 then
      (match i case 0 => 0 case 1 => 1 case 2 => 62 case 3 => 28 case _ => 27)
    else if i < 10 then
      (match i case 5 => 36 case 6 => 44 case 7 => 6 case 8 => 55 case _ => 20)
    else if i < 15 then
      (match i case 10 => 3 case 11 => 10 case 12 => 43 case 13 => 25 case _ => 39)
    else if i < 20 then
      (match i case 15 => 41 case 16 => 45 case 17 => 15 case 18 => 21 case _ => 8)
    else
      (match i case 20 => 18 case 21 => 2 case 22 => 61 case 23 => 56 case _ => 14)
  }

  function Rho(a: State): State {
    seq(25, i requires 0 <= i < 25 => RotL(a[i], LaneOffset(i)))
  }

  // Pi, section 3.2.3.

  function Pi(a: State): State {
    seq(25, i requires 0 <= i < 25 => Lane(a, i % 5 + 3 * (i / 5), i % 5))
  }

  // Chi, section 3.2.4.

  function Chi(a: State): State {
    seq(25, i requires 0 <= i < 25 =>
      Xor(a[i], And(Not(Lane(a, i % 5 + 1, i / 5)), Lane(a, i % 5 + 2, i / 5))))
  }

  // Iota, section 3.2.5, with the round constants of Algorithm 5.

  function LfsrStep(r: byte): byte {
    (r << 1) ^ (if r & 0x80 == 0 then 0 else 0x71)
  }

  function Lfsr(t: nat): byte {
    if t == 0 then 1 else LfsrStep(Lfsr(t - 1))
  }

  /** The low bit of the register, moved to position `at` of a lane. */
  function Placed(r: byte, at: bv8): bv64
    requires at < 64
  {
    ((r & 1) as bv64) << at
  }

  /** Bit rc(t), moved to position `at` of a lane. */
  function RcBit(t: nat, at: bv8): bv64
    requires at < 64
  {
    Placed(Lfsr(t), at)
  }

  function RoundConstant(round: nat): bv64 {
    RcBit(7 * round, 0) | RcBit(7 * round + 1, 1) | RcBit(7 * round + 2, 3) | RcBit(7 * round + 3, 7)
    | RcBit(7 * round + 4, 15) | RcBit(7 * round + 5, 31) | RcBit(7 * round + 6, 63)
  }

  /** A constant for the lane at (0, 0) alone. */
  function Corner(c: bv64, i: nat): bv64 { if i == 0 then c else 0 }

  function AddConstant(a: State, c: bv64): State {
    seq(25, i requires 0 <= i < 25 => Xor(a[i], Corner(c, i)))
  }

  lemma XorNone(x: bv64)
    ensures Xor(x, 0) == x
  {
  }

  /** Only the corner lane changes. */
  lemma AddConstantIs(a: State, c: bv64)
    ensures AddConstant(a, c) == a[0 := Xor(a[0], c)]
  {
    hide Xor;
    forall i | 0 <= i < 25 ensures AddConstant(a, c)[i] == a[0 := Xor(a[0], c)][i] {
      XorNone(a[i]);
    }
  }

  function Iota(a: State, round: nat): State { AddConstant(a, RoundConstant(round)) }

  // The permutation, section 3.3.

  function Round(a: State, round: nat): State {
    Iota(Chi(Pi(Rho(Theta(a)))), round)
  }

  function KeccakF(a: State): State { Iterate(Round, a, 24) }

  // ---------------------------------------------------------------------------
  // Rho and Pi lane by lane
  // ---------------------------------------------------------------------------

  // Section 3.2.2 states rho as a walk over the lanes (x, y), starting at (1, 0), each rotated further.

  function Stop(t: nat): (i: nat)
    ensures i < 25
  {
    Fips202.Walk(t).0 + 5 * Fips202.Walk(t).1
  }

  lemma OffsetInRange(n: nat)
    requires n < 64
    ensures n as bv8 <= 64
  {
  }

  function Offset(t: nat): (n: bv8)
    requires t < 24
    ensures n <= 64
  {
    var amount := ((t + 1) * (t + 2) / 2) % 64;
    OffsetInRange(amount);
    amount as bv8
  }

  /** The lane at stop `t` of the walk rotated. */
  function Stopped(a: State, t: nat): State
    requires t < 24
  {
    a[Stop(t) := RotL(a[Stop(t)], Offset(t))]
  }

  /** The first `n` stops of the walk rotated. */
  function RhoSteps(a: State, n: nat): State
    requires n <= 24
  {
    if n == 0 then a else Stopped(RhoSteps(a, n - 1), n - 1)
  }

  function RhoWalk(a: State): State { RhoSteps(a, 24) }

  /** The number of the walk's stop at each lane; the corner lane (0, 0) is never visited. */
  function StopNumber(i: nat): nat
    requires 0 < i < 25
  {
    if i < 5 then
      (match i case 1 => 0 case 2 => 18 case 3 => 6 case _ => 12)
    else if i < 10 then
      (match i case 5 => 7 case 6 => 23 case 7 => 2 case 8 => 9 case _ => 22)
    else if i < 15 then
      (match i case 10 => 1 case 11 => 3 case 12 => 17 case 13 => 16 case _ => 20)
    else if i < 20 then
      (match i case 15 => 13 case 16 => 8 case 17 => 4 case 18 => 5 case _ => 15)
    else
      (match i case 20 => 19 case 21 => 10 case 22 => 21 case 23 => 14 case _ => 11)
  }

  lemma WalkNext(t: nat, x: nat, y: nat)
    requires Fips202.Walk(t) == (x, y)
    ensures Fips202.Walk(t + 1) == (y, (2 * x + 3 * y) % 5)
  {
  }

  lemma WalkTable()
    ensures Fips202.Walk(0) == (1, 0)
    ensures Fips202.Walk(1) == (0, 2)
    ensures Fips202.Walk(2) == (2, 1)
    ensures Fips202.Walk(3) == (1, 2)
    ensures Fips202.Walk(4) == (2, 3)
    ensures Fips202.Walk(5) == (3, 3)
    ensures Fips202.Walk(6) == (3, 0)
    ensures Fips202.Walk(7) == (0, 1)
    ensures Fips202.Walk(8) == (1, 3)
    ensures Fips202.Walk(9) == (3, 1)
    ensures Fips202.Walk(10) == (1, 4)
    ensures Fips202.Walk(11) == (4, 4)
    ensures Fips202.Walk(12) == (4, 0)
    ensures Fips202.Walk(13) == (0, 3)
    ensures Fips202.Walk(14) == (3, 4)
    ensures Fips202.Walk(15) == (4, 3)
    ensures Fips202.Walk(16) == (3, 2)
    ensures Fips202.Walk(17) == (2, 2)
    ensures Fips202.Walk(18) == (2, 0)
    ensures Fips202.Walk(19) == (0, 4)
    ensures Fips202.Walk(20) == (4, 2)
    ensures Fips202.Walk(21) == (2, 4)
    ensures Fips202.Walk(22) == (4, 1)
    ensures Fips202.Walk(23) == (1, 1)
  {
    assert Fips202.Walk(0) == (1, 0);
    hide Fips202.Walk;
    WalkNext(0, 1, 0);
    WalkNext(1, 0, 2);
    WalkNext(2, 2, 1);
    WalkNext(3, 1, 2);
    WalkNext(4, 2, 3);
    WalkNext(5, 3, 3);
    WalkNext(6, 3, 0);
    WalkNext(7, 0, 1);
    WalkNext(8, 1, 3);
    WalkNext(9, 3, 1);
    WalkNext(10, 1, 4);
    WalkNext(11, 4, 4);
    WalkNext(12, 4, 0);
    WalkNext(13, 0, 3);
    WalkNext(14, 3, 4);
    WalkNext(15, 4, 3);
    WalkNext(16, 3, 2);
    WalkNext(17, 2, 2);
    WalkNext(18, 2, 0);
    WalkNext(19, 0, 4);
    WalkNext(20, 4, 2);
    WalkNext(21, 2, 4);
    WalkNext(22, 4, 1);
  }

  lemma StopTable0()
    ensures Stop(0) == 1 && Stop(1) == 10 && Stop(2) == 7 && Stop(3) == 11 && Stop(4) == 17 && Stop(5) == 18
  {
    WalkTable();
    hide Fips202.Walk;
  }

  lemma LaneTable0()
    ensures StopNumber(1) == 0 && LaneOffset(1) == 1
    ensures StopNumber(10) == 1 && LaneOffset(10) == 3
    ensures StopNumber(7) == 2 && LaneOffset(7) == 6
    ensures StopNumber(11) == 3 && LaneOffset(11) == 10
    ensures StopNumber(17) == 4 && LaneOffset(17) == 15
    ensures StopNumber(18) == 5 && LaneOffset(18) == 21
  {
  }

  lemma StopTable1()
    ensures Stop(6) == 3 && Stop(7) == 5 && Stop(8) == 16 && Stop(9) == 8 && Stop(10) == 21 && Stop(11) == 24
  {
    WalkTable();
    hide Fips202.Walk;
  }

  lemma LaneTable1()
    ensures StopNumber(3) == 6 && LaneOffset(3) == 28
    ensures StopNumber(5) == 7 && LaneOffset(5) == 36
    ensures StopNumber(16) == 8 && LaneOffset(16) == 45
    ensures StopNumber(8) == 9 && LaneOffset(8) == 55
    ensures StopNumber(21) == 10 && LaneOffset(21) == 2
    ensures StopNumber(24) == 11 && LaneOffset(24) == 14
  {
  }

  lemma StopTable2()
    ensures Stop(12) == 4 && Stop(13) == 15 && Stop(14) == 23 && Stop(15) == 19 && Stop(16) == 13 && Stop(17) == 12
  {
    WalkTable();
    hide Fips202.Walk;
  }

  lemma LaneTable2()
    ensures StopNumber(4) == 12 && LaneOffset(4) == 27
    ensures StopNumber(15) == 13 && LaneOffset(15) == 41
    ensures StopNumber(23) == 14 && LaneOffset(23) == 56
    ensures StopNumber(19) == 15 && LaneOffset(19) == 8
    ensures StopNumber(13) == 16 && LaneOffset(13) == 25
    ensures StopNumber(12) == 17 && LaneOffset(12) == 43
  {
  }

  lemma StopTable3()
    ensures Stop(18) == 2 && Stop(19) == 20 && Stop(20) == 14 && Stop(21) == 22 && Stop(22) == 9 && Stop(23) == 6
  {
    WalkTable();
    hide Fips202.Walk;
  }

  lemma LaneTable3()
    ensures StopNumber(2) == 18 && LaneOffset(2) == 62
    ensures StopNumber(20) == 19 && LaneOffset(20) == 18
    ensures StopNumber(14) == 20 && LaneOffset(14) == 39
    ensures StopNumber(22) == 21 && LaneOffset(22) == 61
    ensures StopNumber(9) == 22 && LaneOffset(9) == 20
    ensures StopNumber(6) == 23 && LaneOffset(6) == 44
  {
  }

  lemma OffsetTable0()
    ensures Offset(0) == 1 && Offset(1) == 3
  {
  }

  lemma OffsetTable1()
    ensures Offset(2) == 6 && Offset(3) == 10
  {
  }

  lemma OffsetTable2()
    ensures Offset(4) == 15 && Offset(5) == 21
  {
  }

  lemma OffsetTable3()
    ensures Offset(6) == 28 && Offset(7) == 36
  {
  }

  lemma OffsetTable4()
    ensures Offset(8) == 45 && Offset(9) == 55
  {
  }

  lemma OffsetTable5()
    ensures Offset(10) == 2 && Offset(11) == 14
  {
  }

  lemma OffsetTable6()
    ensures Offset(12) == 27 && Offset(13) == 41
  {
  }

  lemma OffsetTable7()
    ensures Offset(14) == 56 && Offset(15) == 8
  {
  }

  lemma OffsetTable8()
    ensures Offset(16) == 25 && Offset(17) == 43
  {
  }

  lemma OffsetTable9()
    ensures Offset(18) == 62 && Offset(19) == 18
  {
  }

  lemma OffsetTable10()
    ensures Offset(20) == 39 && Offset(21) == 61
  {
  }

  lemma OffsetTable11()
    ensures Offset(22) == 20 && Offset(23) == 44
  {
  }

  lemma StopFacts0(t: nat)
    requires 0 <= t < 6
    ensures 0 < Stop(t) && StopNumber(Stop(t)) == t && Offset(t) == LaneOffset(Stop(t))
  {
    hide *;
    StopTable0();
    OffsetTable0();
    OffsetTable1();
    OffsetTable2();
    LaneTable0();
    assert t == 0 || t == 1 || t == 2 || t == 3 || t == 4 || t == 5;
  }

  lemma StopFacts1(t: nat)
    requires 6 <= t < 12
    ensures 0 < Stop(t) && StopNumber(Stop(t)) == t && Offset(t) == LaneOffset(Stop(t))
  {
    hide *;
    StopTable1();
    OffsetTable3();
    OffsetTable4();
    OffsetTable5();
    LaneTable1();
    assert t == 6 || t == 7 || t == 8 || t == 9 || t == 10 || t == 11;
  }

  lemma StopFacts2(t: nat)
    requires 12 <= t < 18
    ensures 0 < Stop(t) && StopNumber(Stop(t)) == t && Offset(t) == LaneOffset(Stop(t))
  {
    hide *;
    StopTable2();
    OffsetTable6();
    OffsetTable7();
    OffsetTable8();
    LaneTable2();
    assert t == 12 || t == 13 || t == 14 || t == 15 || t == 16 || t == 17;
  }

  lemma StopFacts3(t: nat)
    requires 18 <= t < 24
    ensures 0 < Stop(t) && StopNumber(Stop(t)) == t && Offset(t) == LaneOffset(Stop(t))
  {
    hide *;
    StopTable3();
    OffsetTable9();
    OffsetTable10();
    OffsetTable11();
    LaneTable3();
    assert t == 18 || t == 19 || t == 20 || t == 21 || t == 22 || t == 23;
  }

  /** The walk visits every lane but the corner once, and rotates it by the table's amount. */
  lemma StopFacts(t: nat)
    requires t < 24
    ensures 0 < Stop(t) && StopNumber(Stop(t)) == t && Offset(t) == LaneOffset(Stop(t))
  {
    hide *;
    if t < 6 {
      StopFacts0(t);
    } else if t < 12 {
      StopFacts1(t);
    } else if t < 18 {
      StopFacts2(t);
    } else {
      StopFacts3(t);
    }
  }

  lemma StopOfNumber(i: nat)
    requires 0 < i < 25
    ensures StopNumber(i) < 24 && Stop(StopNumber(i)) == i
  {
    hide *;
    StopTable0();
    StopTable1();
    StopTable2();
    StopTable3();
    LaneTable0();
    LaneTable1();
    LaneTable2();
    LaneTable3();
    assert i == 1 || i == 2 || i == 3 || i == 4 || i == 5 || i == 6 || i == 7 || i == 8 || i == 9 || i == 10 || i == 11 || i == 12 || i == 13 || i == 14 || i == 15 || i == 16 || i == 17 || i == 18 || i == 19 || i == 20 || i == 21 || i == 22 || i == 23 || i == 24;
  }

  lemma {:induction false} RhoStepsLanes(a: State, n: nat, i: nat)
    requires n <= 24 && 0 < i < 25
    ensures RhoSteps(a, n)[i] == if StopNumber(i) < n then RotL(a[i], LaneOffset(i)) else a[i]
  {
    if n > 0 {
      hide Stop, StopNumber, RotL, Offset, LaneOffset;
      RhoStepsLanes(a, n - 1, i);
      StopFacts(n - 1);
      StopOfNumber(i);
    }
  }

  lemma {:induction false} RhoStepsCorner(a: State, n: nat)
    requires n <= 24
    ensures RhoSteps(a, n)[0] == a[0]
  {
    if n > 0 {
      hide Stop, StopNumber, RotL, Offset, LaneOffset;
      RhoStepsCorner(a, n - 1);
      StopFacts(n - 1);
    }
  }

  /** Rho rotates each lane by its own amount. */
  lemma RotNone(x: bv64)
    ensures RotL(x, 0) == x
  {
  }

  lemma CornerOffset()
    ensures LaneOffset(0) == 0
  {
  }

  lemma RhoLane(a: State, i: nat)
    requires i < 25
    ensures Rho(a)[i] == if i == 0 then a[0] else RotL(a[i], LaneOffset(i))
  {
    RotNone(a[0]);
    CornerOffset();
    hide RotL, LaneOffset;
  }

  /** The walk rotates each lane by its offset. */
  lemma RhoIsWalk(a: State)
    ensures RhoWalk(a) == Rho(a)
  {
    hide RotL, LaneOffset, RhoSteps, StopNumber, Rho;
    forall i | 0 <= i < 25 ensures RhoWalk(a)[i] == Rho(a)[i] {
      RhoLane(a, i);
      if i == 0 {
        RhoStepsCorner(a, 24);
      } else {
        StopOfNumber(i);
        RhoStepsLanes(a, 24, i);
      }
    }
  }

  // ---------------------------------------------------------------------------
  // Rho, Pi and Chi are bijections
  // ---------------------------------------------------------------------------

  function RotR(x: bv64, n: bv8): bv64
    requires n <= 64
  {
    (x >> n) | (x << (64 - n))
  }

  lemma Back0(x: bv64)
    ensures RotR(RotL(x, 0), 0) == x && RotL(RotR(x, 0), 0) == x
  {
  }

  lemma Back1(x: bv64)
    ensures RotR(RotL(x, 1), 1) == x && RotL(RotR(x, 1), 1) == x
  {
  }

  lemma Back62(x: bv64)
    ensures RotR(RotL(x, 62), 62) == x && RotL(RotR(x, 62), 62) == x
  {
  }

  lemma Back28(x: bv64)
    ensures RotR(RotL(x, 28), 28) == x && RotL(RotR(x, 28), 28) == x
  {
  }

  lemma Back27(x: bv64)
    ensures RotR(RotL(x, 27), 27) == x && RotL(RotR(x, 27), 27) == x
  {
  }

  lemma Back36(x: bv64)
    ensures RotR(RotL(x, 36), 36) == x && RotL(RotR(x, 36), 36) == x
  {
  }

  lemma Back44(x: bv64)
    ensures RotR(RotL(x, 44), 44) == x && RotL(RotR(x, 44), 44) == x
  {
  }

  lemma Back6(x: bv64)
    ensures RotR(RotL(x, 6), 6) == x && RotL(RotR(x, 6), 6) == x
  {
  }

  lemma Back55(x: bv64)
    ensures RotR(RotL(x, 55), 55) == x && RotL(RotR(x, 55), 55) == x
  {
  }

  lemma Back20(x: bv64)
    ensures RotR(RotL(x, 20), 20) == x && RotL(RotR(x, 20), 20) == x
  {
  }

  lemma Back3(x: bv64)
    ensures RotR(RotL(x, 3), 3) == x && RotL(RotR(x, 3), 3) == x
  {
  }

  lemma Back10(x: bv64)
    ensures RotR(RotL(x, 10), 10) == x && RotL(RotR(x, 10), 10) == x
  {
  }

  lemma Back43(x: bv64)
    ensures RotR(RotL(x, 43), 43) == x && RotL(RotR(x, 43), 43) == x
  {
  }

  lemma Back25(x: bv64)
    ensures RotR(RotL(x, 25), 25) == x && RotL(RotR(x, 25), 25) == x
  {
  }

  lemma Back39(x: bv64)
    ensures RotR(RotL(x, 39), 39) == x && RotL(RotR(x, 39), 39) == x
  {
  }

  lemma Back41(x: bv64)
    ensures RotR(RotL(x, 41), 41) == x && RotL(RotR(x, 41), 41) == x
  {
  }

  lemma Back45(x: bv64)
    ensures RotR(RotL(x, 45), 45) == x && RotL(RotR(x, 45), 45) == x
  {
  }

  lemma Back15(x: bv64)
    ensures RotR(RotL(x, 15), 15) == x && RotL(RotR(x, 15), 15) == x
  {
  }

  lemma Back21(x: bv64)
    ensures RotR(RotL(x, 21), 21) == x && RotL(RotR(x, 21), 21) == x
  {
  }

  lemma Back8(x: bv64)
    ensures RotR(RotL(x, 8), 8) == x && RotL(RotR(x, 8), 8) == x
  {
  }

  lemma Back18(x: bv64)
    ensures RotR(RotL(x, 18), 18) == x && RotL(RotR(x, 18), 18) == x
  {
  }

  lemma Back2(x: bv64)
    ensures RotR(RotL(x, 2), 2) == x && RotL(RotR(x, 2), 2) == x
  {
  }

  lemma Back61(x: bv64)
    ensures RotR(RotL(x, 61), 61) == x && RotL(RotR(x, 61), 61) == x
  {
  }

  lemma Back56(x: bv64)
    ensures RotR(RotL(x, 56), 56) == x && RotL(RotR(x, 56), 56) == x
  {
  }

  lemma Back14(x: bv64)
    ensures RotR(RotL(x, 14), 14) == x && RotL(RotR(x, 14), 14) == x
  {
  }

  /** Each of the rotations is undone by rotating right as far. */
  lemma RotLBack(x: bv64, i: nat)
    requires i < 25
    ensures RotR(RotL(x, LaneOffset(i)), LaneOffset(i)) == x
    ensures RotL(RotR(x, LaneOffset(i)), LaneOffset(i)) == x
  {
    hide RotL, RotR;
    Back0(x);
    Back1(x);
    Back62(x);
    Back28(x);
    Back27(x);
    Back36(x);
    Back44(x);
    Back6(x);
    Back55(x);
    Back20(x);
    Back3(x);
    Back10(x);
    Back43(x);
    Back25(x);
    Back39(x);
    Back41(x);
    Back45(x);
    Back15(x);
    Back21(x);
    Back8(x);
    Back18(x);
    Back2(x);
    Back61(x);
    Back56(x);
    Back14(x);
  }

  function RhoBack(a: State): State {
    seq(25, i requires 0 <= i < 25 => RotR(a[i], LaneOffset(i)))
  }

  function PiBack(a: State): State {
    seq(25, i requires 0 <= i < 25 => Lane(a, i / 5, 2 * (i % 5) + 3 * (i / 5)))
  }

  lemma RhoBijective(a: State)
    ensures RhoBack(Rho(a)) == a && Rho(RhoBack(a)) == a
  {
    hide RotL, RotR, LaneOffset;
    forall i | 0 <= i < 25
      ensures RhoBack(Rho(a))[i] == a[i] && Rho(RhoBack(a))[i] == a[i]
    {
      RotLBack(a[i], i);
    }
  }

  lemma PiCoordinates(x: nat, y: nat)
    requires x < 5 && y < 5
    ensures (2 * ((x + 3 * y) % 5) + 3 * x) % 5 == y
  {
    assert (x + 3 * y) % 5 == x + 3 * y - 5 * ((x + 3 * y) / 5);
  }

  lemma PiBackCoordinates(x: nat, y: nat)
    requires x < 5 && y < 5
    ensures (y + 3 * ((2 * x + 3 * y) % 5)) % 5 == x
  {
    assert (2 * x + 3 * y) % 5 == 2 * x + 3 * y - 5 * ((2 * x + 3 * y) / 5);
  }

  lemma LaneModulo(a: State, x: nat, y: nat)
    requires x < 5
    ensures Lane(a, x, y) == a[x + 5 * (y % 5)]
  {
  }

  lemma PiUnfold(a: State, i: nat)
    requires i < 25
    ensures Pi(a)[i] == Lane(a, i % 5 + 3 * (i / 5), i % 5)
    ensures PiBack(a)[i] == Lane(a, i / 5, 2 * (i % 5) + 3 * (i / 5))
  {
    hide Lane;
  }

  lemma LaneAt(a: State, x: nat, y: nat)
    requires y < 5
    ensures Lane(a, x, y) == a[5 * y + x % 5]
  {
  }

  lemma PiLane(a: State, x: nat, y: nat)
    requires x < 5 && y < 5
    ensures Pi(a)[x + 5 * y] == a[(x + 3 * y) % 5 + 5 * x]
    ensures PiBack(a)[x + 5 * y] == a[y + 5 * ((2 * x + 3 * y) % 5)]
  {
    hide *;
    var i := x + 5 * y;
    assert i % 5 == x && i / 5 == y;
    PiUnfold(a, i);
    LaneAt(a, x + 3 * y, x);
    LaneModulo(a, y, 2 * x + 3 * y);
  }

  lemma PiForth(a: State, x: nat, y: nat)
    requires x < 5 && y < 5
    ensures PiBack(Pi(a))[x + 5 * y] == a[x + 5 * y]
  {
    hide Pi, PiBack;
    var z := (2 * x + 3 * y) % 5;
    PiLane(Pi(a), x, y);
    PiLane(a, y, z);
    PiBackCoordinates(x, y);
  }

  lemma PiBackForth(a: State, x: nat, y: nat)
    requires x < 5 && y < 5
    ensures Pi(PiBack(a))[x + 5 * y] == a[x + 5 * y]
  {
    hide Pi, PiBack;
    var z := (x + 3 * y) % 5;
    PiLane(PiBack(a), x, y);
    PiLane(a, z, x);
    PiCoordinates(x, y);
  }

  lemma PiBijective(a: State)
    ensures PiBack(Pi(a)) == a && Pi(PiBack(a)) == a
  {
    hide Pi, PiBack;
    forall i | 0 <= i < 25
      ensures PiBack(Pi(a))[i] == a[i] && Pi(PiBack(a))[i] == a[i]
    {
      PiForth(a, i % 5, i / 5);
      PiBackForth(a, i % 5, i / 5);
    }
  }

  /** Rho followed by Pi is undone by the inverses in opposite order, either way round. */
  lemma RhoPiBijective(a: State)
    ensures RhoBack(PiBack(Pi(Rho(a)))) == a && Pi(Rho(RhoBack(PiBack(a)))) == a
  {
    hide *;
    PiBijective(Rho(a));
    RhoBijective(a);
    PiBijective(a);
    RhoBijective(PiBack(a));
  }

  function ChiBack(a: State): State {
    seq(25, i requires 0 <= i < 25 =>
      Xor(a[i], And(Not(Lane(a, i % 5 + 1, i / 5)),
        Xor(Lane(a, i % 5 + 2, i / 5), And(Not(Lane(a, i % 5 + 3, i / 5)), Lane(a, i % 5 + 4, i / 5))))))
  }

  lemma ChiRowForward(p: bv64, q: bv64, r: bv64, s: bv64, t: bv64)
    ensures (p ^ (!q & r)) ^ (!(q ^ (!r & s)) & ((r ^ (!s & t)) ^ (!(s ^ (!t & p)) & (t ^ (!p & q))))) == p
  {
  }

  lemma ChiRowBackward(p: bv64, q: bv64, r: bv64, s: bv64, t: bv64)
    ensures (p ^ (!q & (r ^ (!s & t)))) ^ (!(q ^ (!r & (s ^ (!t & p)))) & (r ^ (!s & (t ^ (!p & q))))) == p
  {
  }

  function ChiLane(p: bv64, q: bv64, r: bv64): bv64 { Xor(p, And(Not(q), r)) }

  function ChiBackLane(p: bv64, q: bv64, r: bv64, s: bv64, t: bv64): bv64 {
    Xor(p, And(Not(q), Xor(r, And(Not(s), t))))
  }

  lemma ChiUnfold(a: State, i: nat)
    requires i < 25
    ensures Chi(a)[i] == ChiLane(a[i], Lane(a, i % 5 + 1, i / 5), Lane(a, i % 5 + 2, i / 5))
    ensures ChiBack(a)[i]
         == ChiBackLane(a[i], Lane(a, i % 5 + 1, i / 5), Lane(a, i % 5 + 2, i / 5), Lane(a, i % 5 + 3, i / 5), Lane(a, i % 5 + 4, i / 5))
  {
    hide Xor, And, Not, Lane;
  }

  /** The next lane of a row, cyclically. */
  function Right(k: nat): (n: nat)
    requires k < 5
    ensures n < 5 && n == (k + 1) % 5
  {
    if k == 4 then 0 else k + 1
  }

  lemma RightFive(k: nat)
    requires k < 5
    ensures Right(Right(Right(Right(Right(k))))) == k
    ensures Right(Right(k)) == (k + 2) % 5 && Right(Right(Right(k))) == (k + 3) % 5
    ensures Right(Right(Right(Right(k)))) == (k + 4) % 5
  {
    assert k == 0 || k == 1 || k == 2 || k == 3 || k == 4;
  }

  /** Lane `k` of row `y` and its neighbours to the right. */
  lemma ChiAt(a: State, y: nat, k: nat)
    requires y < 5 && k < 5
    ensures
      var k1 := Right(k);
      var k2 := Right(k1);
      var k3 := Right(k2);
      var k4 := Right(k3);
      && Chi(a)[5 * y + k] == ChiLane(a[5 * y + k], a[5 * y + k1], a[5 * y + k2])
      && ChiBack(a)[5 * y + k]
         == ChiBackLane(a[5 * y + k], a[5 * y + k1], a[5 * y + k2], a[5 * y + k3], a[5 * y + k4])
  {
    hide *;
    var i := 5 * y + k;
    assert i % 5 == k && i / 5 == y;
    RightFive(k);
    ChiUnfold(a, i);
    LaneAt(a, k + 1, y);
    LaneAt(a, k + 2, y);
    LaneAt(a, k + 3, y);
    LaneAt(a, k + 4, y);
  }

  lemma ChiLaneBits(p: bv64, q: bv64, r: bv64)
    ensures ChiLane(p, q, r) == p ^ (!q & r)
  {
  }

  lemma ChiBackLaneBits(p: bv64, q: bv64, r: bv64, s: bv64, t: bv64)
    ensures ChiBackLane(p, q, r, s, t) == p ^ (!q & (r ^ (!s & t)))
  {
  }

  lemma ChiLaneForward(p: bv64, q: bv64, r: bv64, s: bv64, t: bv64)
    ensures ChiBackLane(ChiLane(p, q, r), ChiLane(q, r, s), ChiLane(r, s, t), ChiLane(s, t, p), ChiLane(t, p, q)) == p
  {
    hide *;
    ChiLaneBits(p, q, r);
    ChiLaneBits(q, r, s);
    ChiLaneBits(r, s, t);
    ChiLaneBits(s, t, p);
    ChiLaneBits(t, p, q);
    ChiBackLaneBits(p ^ (!q & r), q ^ (!r & s), r ^ (!s & t), s ^ (!t & p), t ^ (!p & q));
    ChiRowForward(p, q, r, s, t);
  }

  lemma ChiLaneBackward(p: bv64, q: bv64, r: bv64, s: bv64, t: bv64)
    ensures ChiLane(ChiBackLane(p, q, r, s, t), ChiBackLane(q, r, s, t, p), ChiBackLane(r, s, t, p, q)) == p
  {
    hide *;
    ChiBackLaneBits(p, q, r, s, t);
    ChiBackLaneBits(q, r, s, t, p);
    ChiBackLaneBits(r, s, t, p, q);
    ChiLaneBits(p ^ (!q & (r ^ (!s & t))), q ^ (!r & (s ^ (!t & p))), r ^ (!s & (t ^ (!p & q))));
    ChiRowBackward(p, q, r, s, t);
  }

  lemma ChiLaneThere(a: State, y: nat, k: nat)
    requires y < 5 && k < 5
    ensures ChiBack(Chi(a))[5 * y + k] == a[5 * y + k]
  {
    hide *;
    var k1 := Right(k);
    var k2 := Right(k1);
    var k3 := Right(k2);
    var k4 := Right(k3);
    RightFive(k);
    ChiAt(Chi(a), y, k);
    ChiAt(a, y, k);
    ChiAt(a, y, k1);
    ChiAt(a, y, k2);
    ChiAt(a, y, k3);
    ChiAt(a, y, k4);
    ChiLaneForward(a[5 * y + k], a[5 * y + k1], a[5 * y + k2], a[5 * y + k3], a[5 * y + k4]);
  }

  lemma ChiLaneAndBack(a: State, y: nat, k: nat)
    requires y < 5 && k < 5
    ensures Chi(ChiBack(a))[5 * y + k] == a[5 * y + k]
  {
    hide *;
    var k1 := Right(k);
    var k2 := Right(k1);
    var k3 := Right(k2);
    var k4 := Right(k3);
    RightFive(k);
    ChiAt(ChiBack(a), y, k);
    ChiAt(a, y, k);
    ChiAt(a, y, k1);
    ChiAt(a, y, k2);
    ChiLaneBackward(a[5 * y + k], a[5 * y + k1], a[5 * y + k2], a[5 * y + k3], a[5 * y + k4]);
  }

  lemma ChiBijective(a: State)
    ensures ChiBack(Chi(a)) == a && Chi(ChiBack(a)) == a
  {
    hide *;
    forall i | 0 <= i < 25
      ensures ChiBack(Chi(a))[i] == a[i] && Chi(ChiBack(a))[i] == a[i]
    {
      var y, k := i / 5, i % 5;
      ChiLaneThere(a, y, k);
      ChiLaneAndBack(a, y, k);
    }
  }

  // ---------------------------------------------------------------------------
  // The round constants
  // ---------------------------------------------------------------------------

  /** The constants as the code lists them. */
  function XorMask(round: nat): bv64 {
    if round < 6 then
      (match round case 0 => 0x0000000000000001 case 1 => 0x0000000000008082 case 2 => 0x800000000000808a
             case 3 => 0x8000000080008000 case 4 => 0x000000000000808b case _ => 0x0000000080000001)
    else if round < 12 then
      (match round case 6 => 0x8000000080008081 case 7 => 0x8000000000008009 case 8 => 0x000000000000008a
             case 9 => 0x0000000000000088 case 10 => 0x0000000080008009 case _ => 0x000000008000000a)
    else if round < 18 then
      (match round case 12 => 0x000000008000808b case 13 => 0x800000000000008b case 14 => 0x8000000000008089
             case 15 => 0x8000000000008003 case 16 => 0x8000000000008002 case _ => 0x8000000000000080)
    else
      (match round case 18 => 0x000000000000800a case 19 => 0x800000008000000a case 20 => 0x8000000080008081
             case 21 => 0x8000000000008080 case 22 => 0x0000000080000001 case _ => 0x8000000080008008)
  }

  /** The round constant of seven register values. */
  function SevenBits(x: byte): bv64 {
    var x1 := LfsrStep(x);
    var x2 := LfsrStep(x1);
    var x3 := LfsrStep(x2);
    var x4 := LfsrStep(x3);
    var x5 := LfsrStep(x4);
    var x6 := LfsrStep(x5);
    Placed(x, 0) | Placed(x1, 1) | Placed(x2, 3) | Placed(x3, 7) | Placed(x4, 15) | Placed(x5, 31) | Placed(x6, 63)
  }

  function SevenSteps(x: byte): byte {
    LfsrStep(LfsrStep(LfsrStep(LfsrStep(LfsrStep(LfsrStep(LfsrStep(x)))))))
  }

  lemma SevenMore(round: nat, x: byte)
    requires Lfsr(7 * round) == x
    ensures RoundConstant(round) == SevenBits(x) && Lfsr(7 * (round + 1)) == SevenSteps(x)
  {
    hide LfsrStep;
    var t := 7 * round;
    assert Lfsr(t + 1) == LfsrStep(x);
    assert Lfsr(t + 2) == LfsrStep(Lfsr(t + 1));
    assert Lfsr(t + 3) == LfsrStep(Lfsr(t + 2));
    assert Lfsr(t + 4) == LfsrStep(Lfsr(t + 3));
    assert Lfsr(t + 5) == LfsrStep(Lfsr(t + 4));
    assert Lfsr(t + 6) == LfsrStep(Lfsr(t + 5));
    assert Lfsr(t + 7) == LfsrStep(Lfsr(t + 6));
  }

  lemma Constants0()
    ensures RoundConstant(0) == XorMask(0)
    ensures RoundConstant(1) == XorMask(1)
    ensures RoundConstant(2) == XorMask(2)
    ensures RoundConstant(3) == XorMask(3)
    ensures RoundConstant(4) == XorMask(4)
    ensures RoundConstant(5) == XorMask(5)
    ensures Lfsr(42) == 0x35
  {
    assert SevenBits(0x01) == 0x0000000000000001 == XorMask(0) && SevenSteps(0x01) == 0x80;
    assert SevenBits(0x80) == 0x0000000000008082 == XorMask(1) && SevenSteps(0x80) == 0xd8;
    assert SevenBits(0xd8) == 0x800000000000808a == XorMask(2) && SevenSteps(0xd8) == 0x1a;
    assert SevenBits(0x1a) == 0x8000000080008000 == XorMask(3) && SevenSteps(0x1a) == 0xdf;
    assert SevenBits(0xdf) == 0x000000000000808b == XorMask(4) && SevenSteps(0xdf) == 0x09;
    assert SevenBits(0x09) == 0x0000000080000001 == XorMask(5) && SevenSteps(0x09) == 0x35;
    assert Lfsr(0) == 1;
    hide *;
    SevenMore(0, 0x01);
    SevenMore(1, 0x80);
    SevenMore(2, 0xd8);
    SevenMore(3, 0x1a);
    SevenMore(4, 0xdf);
    SevenMore(5, 0x09);
  }

  lemma Constants1()
    ensures RoundConstant(6) == XorMask(6)
    ensures RoundConstant(7) == XorMask(7)
    ensures RoundConstant(8) == XorMask(8)
    ensures RoundConstant(9) == XorMask(9)
    ensures RoundConstant(10) == XorMask(10)
    ensures RoundConstant(11) == XorMask(11)
    ensures Lfsr(84) == 0xd5
  {
    assert SevenBits(0x35) == 0x8000000080008081 == XorMask(6) && SevenSteps(0x35) == 0x4f;
    assert SevenBits(0x4f) == 0x8000000000008009 == XorMask(7) && SevenSteps(0x4f) == 0xca;
    assert SevenBits(0xca) == 0x000000000000008a == XorMask(8) && SevenSteps(0xca) == 0x70;
    assert SevenBits(0x70) == 0x0000000000000088 == XorMask(9) && SevenSteps(0x70) == 0x41;
    assert SevenBits(0x41) == 0x0000000080008009 == XorMask(10) && SevenSteps(0x41) == 0xec;
    assert SevenBits(0xec) == 0x000000008000000a == XorMask(11) && SevenSteps(0xec) == 0xd5;
    Constants0();
    hide *;
    SevenMore(6, 0x35);
    SevenMore(7, 0x4f);
    SevenMore(8, 0xca);
    SevenMore(9, 0x70);
    SevenMore(10, 0x41);
    SevenMore(11, 0xec);
  }

  lemma Constants2()
    ensures RoundConstant(12) == XorMask(12)
    ensures RoundConstant(13) == XorMask(13)
    ensures RoundConstant(14) == XorMask(14)
    ensures RoundConstant(15) == XorMask(15)
    ensures RoundConstant(16) == XorMask(16)
    ensures RoundConstant(17) == XorMask(17)
    ensures Lfsr(126) == 0xf2
  {
    assert SevenBits(0xd5) == 0x000000008000808b == XorMask(12) && SevenSteps(0xd5) == 0xcd;
    assert SevenBits(0xcd) == 0x800000000000008b == XorMask(13) && SevenSteps(0xcd) == 0x63;
    assert SevenBits(0x63) == 0x8000000000008089 == XorMask(14) && SevenSteps(0x63) == 0xab;
    assert SevenBits(0xab) == 0x8000000000008003 == XorMask(15) && SevenSteps(0xab) == 0xaa;
    assert SevenBits(0xaa) == 0x8000000000008002 == XorMask(16) && SevenSteps(0xaa) == 0x2a;
    assert SevenBits(0x2a) == 0x8000000000000080 == XorMask(17) && SevenSteps(0x2a) == 0xf2;
    Constants1();
    hide *;
    SevenMore(12, 0xd5);
    SevenMore(13, 0xcd);
    SevenMore(14, 0x63);
    SevenMore(15, 0xab);
    SevenMore(16, 0xaa);
    SevenMore(17, 0x2a);
  }

  lemma Constants3()
    ensures RoundConstant(18) == XorMask(18)
    ensures RoundConstant(19) == XorMask(19)
    ensures RoundConstant(20) == XorMask(20)
    ensures RoundConstant(21) == XorMask(21)
    ensures RoundConstant(22) == XorMask(22)
    ensures RoundConstant(23) == XorMask(23)
    ensures Lfsr(168) == 0x8e
  {
    assert SevenBits(0xf2) == 0x000000000000800a == XorMask(18) && SevenSteps(0xf2) == 0xe8;
    assert SevenBits(0xe8) == 0x800000008000000a == XorMask(19) && SevenSteps(0xe8) == 0x37;
    assert SevenBits(0x37) == 0x8000000080008081 == XorMask(20) && SevenSteps(0x37) == 0x3e;
    assert SevenBits(0x3e) == 0x8000000000008080 == XorMask(21) && SevenSteps(0x3e) == 0x0b;
    assert SevenBits(0x0b) == 0x0000000080000001 == XorMask(22) && SevenSteps(0x0b) == 0x44;
    assert SevenBits(0x44) == 0x8000000080008008 == XorMask(23) && SevenSteps(0x44) == 0x8e;
    Constants2();
    hide *;
    SevenMore(18, 0xf2);
    SevenMore(19, 0xe8);
    SevenMore(20, 0x37);
    SevenMore(21, 0x3e);
    SevenMore(22, 0x0b);
    SevenMore(23, 0x44);
  }

  /** The listed constants are those of the standard's shift register. */
  lemma RoundConstants(round: nat)
    requires round < 24
    ensures XorMask(round) == RoundConstant(round)
  {
    hide *;
    Constants0();
    Constants1();
    Constants2();
    Constants3();
    assert round == 0 || round == 1 || round == 2 || round == 3 || round == 4 || round == 5 || round == 6 || round == 7 || round == 8 || round == 9 || round == 10 || round == 11 || round == 12 || round == 13 || round == 14 || round == 15 || round == 16 || round == 17 || round == 18 || round == 19 || round == 20 || round == 21 || round == 22 || round == 23;
  }

  // ---------------------------------------------------------------------------
  // Absorbing blocks
  // ---------------------------------------------------------------------------

  /** The lane stored in eight bytes, least significant byte first. */
  function LittleEndian(b: seq<byte>): bv64
    requires |b| == 8
  {
    (b[0] as bv64) | ((b[1] as bv64) << 8) | ((b[2] as bv64) << 16) | ((b[3] as bv64) << 24)
    | ((b[4] as bv64) << 32) | ((b[5] as bv64) << 40) | ((b[6] as bv64) << 48) | ((b[7] as bv64) << 56)
  }

  /** A block is added into the first lanes of the state. */
  function AddBlock(a: State, block: seq<byte>): State
    requires |block| % 8 == 0 && |block| <= 200
  {
    seq(25, i requires 0 <= i < 25 =>
      if 8 * i < |block| then Xor(a[i], LittleEndian(block[8 * i..8 * i + 8])) else a[i])
  }

  function Compress(a: State, block: seq<byte>): State
    requires |block| % 8 == 0 && |block| <= 200
  {
    KeccakF(AddBlock(a, block))
  }

  lemma PiRhoRow0(a: State)
    ensures Pi(Rho(a))[0] == a[0]
    ensures Pi(Rho(a))[1] == RotL(a[6], 44)
    ensures Pi(Rho(a))[2] == RotL(a[12], 43)
    ensures Pi(Rho(a))[3] == RotL(a[18], 21)
    ensures Pi(Rho(a))[4] == RotL(a[24], 14)
  {
    hide RotL, Rho;
    RhoLane(a, 0);
    RhoLane(a, 6);
    RhoLane(a, 12);
    RhoLane(a, 18);
    RhoLane(a, 24);
  }

  lemma PiRhoRow1(a: State)
    ensures Pi(Rho(a))[5] == RotL(a[3], 28)
    ensures Pi(Rho(a))[6] == RotL(a[9], 20)
    ensures Pi(Rho(a))[7] == RotL(a[10], 3)
    ensures Pi(Rho(a))[8] == RotL(a[16], 45)
    ensures Pi(Rho(a))[9] == RotL(a[22], 61)
  {
    hide RotL, Rho;
    RhoLane(a, 3);
    RhoLane(a, 9);
    RhoLane(a, 10);
    RhoLane(a, 16);
    RhoLane(a, 22);
  }

  lemma PiRhoRow2(a: State)
    ensures Pi(Rho(a))[10] == RotL(a[1], 1)
    ensures Pi(Rho(a))[11] == RotL(a[7], 6)
    ensures Pi(Rho(a))[12] == RotL(a[13], 25)
    ensures Pi(Rho(a))[13] == RotL(a[19], 8)
    ensures Pi(Rho(a))[14] == RotL(a[20], 18)
  {
    hide RotL, Rho;
    RhoLane(a, 1);
    RhoLane(a, 7);
    RhoLane(a, 13);
    RhoLane(a, 19);
    RhoLane(a, 20);
  }

  lemma PiRhoRow3(a: State)
    ensures Pi(Rho(a))[15] == RotL(a[4], 27)
    ensures Pi(Rho(a))[16] == RotL(a[5], 36)
    ensures Pi(Rho(a))[17] == RotL(a[11], 10)
    ensures Pi(Rho(a))[18] == RotL(a[17], 15)
    ensures Pi(Rho(a))[19] == RotL(a[23], 56)
  {
    hide RotL, Rho;
    RhoLane(a, 4);
    RhoLane(a, 5);
    RhoLane(a, 11);
    RhoLane(a, 17);
    RhoLane(a, 23);
  }

  lemma PiRhoRow4(a: State)
    ensures Pi(Rho(a))[20] == RotL(a[2], 62)
    ensures Pi(Rho(a))[21] == RotL(a[8], 55)
    ensures Pi(Rho(a))[22] == RotL(a[14], 39)
    ensures Pi(Rho(a))[23] == RotL(a[15], 41)
    ensures Pi(Rho(a))[24] == RotL(a[21], 2)
  {
    hide RotL, Rho;
    RhoLane(a, 2);
    RhoLane(a, 8);
    RhoLane(a, 14);
    RhoLane(a, 15);
    RhoLane(a, 21);
  }
}

/** The in-place code of the Keccak block function. */
module KeccakCode {
  import opened Bytes
  import opened Iteration
  import opened KeccakSpec

  function Mod5(x: nat): nat
    requires x <= 9
  {
    if x < 5 then x else x - 5
  }

  lemma ColumnAt(a: State, x: nat)
    requires x < 5
    ensures Column(a, x) == Xor(Xor(Xor(Xor(a[x], a[x + 5]), a[x + 10]), a[x + 15]), a[x + 20])
  {
    hide Xor, Lane;
    LaneAt(a, x, 0);
    LaneAt(a, x, 1);
    LaneAt(a, x, 2);
    LaneAt(a, x, 3);
    LaneAt(a, x, 4);
  }

  method SumColumns(hash: array<bv64>) returns (coefficients: array<bv64>)
    requires hash.Length == 25
    ensures fresh(coefficients) && coefficients.Length == 5
    ensures forall x | 0 <= x < 5 :: coefficients[x] == Column(hash[..], x)
  {
    coefficients := new bv64[5];
    for i := 0 to 5
      invariant forall x | 0 <= x < i :: coefficients[x] == Column(hash[..], x)
    {
      coefficients[i] := Xor(Xor(Xor(Xor(hash[i], hash[i + 5]), hash[i + 10]), hash[i + 15]), hash[i + 20]);
      ColumnAt(hash[..], i);
    }
  }

  lemma LaneWraps(a: State, x: nat, y: nat)
    requires x <= 9
    ensures Lane(a, x, y) == Lane(a, Mod5(x), y)
  {
  }

  lemma ColumnWraps(a: State, x: nat)
    requires x <= 9
    ensures Column(a, x) == Column(a, Mod5(x))
  {
    hide Xor;
    LaneWraps(a, x, 0);
    LaneWraps(a, x, 1);
    LaneWraps(a, x, 2);
    LaneWraps(a, x, 3);
    LaneWraps(a, x, 4);
    hide Lane;
  }

  lemma ThetaEffectAt(a: State, x: nat)
    requires x < 5
    ensures ThetaEffect(a, x) == Xor(Column(a, Mod5(x + 4)), RotL(Column(a, Mod5(x + 1)), 1))
  {
    hide Xor, RotL, Column;
    ColumnWraps(a, x + 4);
    ColumnWraps(a, x + 1);
  }

  /** The lanes of column `x` after `one` is added to each of them, the others as they were. */
  ghost predicate ColumnChanged(before: State, after: State, x: nat, one: bv64)
    requires x < 5
  {
    && after[x] == Xor(before[x], one) && after[x + 5] == Xor(before[x + 5], one)
    && after[x + 10] == Xor(before[x + 10], one) && after[x + 15] == Xor(before[x + 15], one)
    && after[x + 20] == Xor(before[x + 20], one)
    && forall k | 0 <= k < 25 && k != x && k != x + 5 && k != x + 10 && k != x + 15 && k != x + 20 :: after[k] == before[k]
  }

  method AddToColumn(hash: array<bv64>, i: nat, one: bv64)
    requires hash.Length == 25 && i < 5
    modifies hash
    ensures ColumnChanged(old(hash[..]), hash[..], i, one)
  {
    hide Xor;
    hash[i] := Xor(hash[i], one);
    hash[i + 5] := Xor(hash[i + 5], one);
    hash[i + 10] := Xor(hash[i + 10], one);
    hash[i + 15] := Xor(hash[i + 15], one);
    hash[i + 20] := Xor(hash[i + 20], one);
  }

  /** The columns below `n` have had their effect added. */
  ghost predicate ThetaBelow(a: State, b: State, n: nat) {
    forall k | 0 <= k < 25 :: b[k] == if k % 5 < n then Xor(a[k], ThetaEffect(a, k % 5)) else a[k]
  }

  lemma ColumnMembers(k: nat, x: nat)
    requires k < 25 && x < 5
    ensures k % 5 == x <==> k == x || k == x + 5 || k == x + 10 || k == x + 15 || k == x + 20
  {
    assert k == 5 * (k / 5) + k % 5;
  }

  lemma ThetaColumn(a: State, b: State, c: State, x: nat)
    requires x < 5 && ThetaBelow(a, b, x) && ColumnChanged(b, c, x, ThetaEffect(a, x))
    ensures ThetaBelow(a, c, x + 1)
  {
    hide Xor, ThetaEffect;
    forall k | 0 <= k < 25
      ensures c[k] == if k % 5 < x + 1 then Xor(a[k], ThetaEffect(a, k % 5)) else a[k]
    {
      ColumnMembers(k, x);
    }
  }

  lemma ThetaDone(a: State, b: State)
    requires ThetaBelow(a, b, 5)
    ensures b == Theta(a)
  {
    hide Xor, ThetaEffect;
  }

  lemma Mod5Range(i: nat)
    requires i < 5
    ensures Mod5(i + 4) < 5 && Mod5(i + 1) < 5
  {
  }

  method ThetaInPlace(hash: array<bv64>)
    requires hash.Length == 25
    modifies hash
    ensures hash[..] == Theta(old(hash[..]))
  {
    ghost var a: State := hash[..];
    assert ThetaBelow(a, a, 0);
    hide *;
    var coefficients := SumColumns(hash);
    for i := 0 to 5
      invariant hash.Length == 25 && coefficients.Length == 5
      invariant forall x | 0 <= x < 5 :: coefficients[x] == Column(a, x)
      invariant ThetaBelow(a, hash[..], i)
    {
      Mod5Range(i);
      var one := Xor(coefficients[Mod5(i + 4)], RotL(coefficients[Mod5(i + 1)], 1));
      ThetaEffectAt(a, i);
      ghost var b: State := hash[..];
      AddToColumn(hash, i, one);
      ThetaColumn(a, b, hash[..], i);
    }
    ThetaDone(a, hash[..]);
  }

  method RhoPiFirst(hash: array<bv64>, last0: bv64) returns (last: bv64)
    requires hash.Length == 25
    modifies hash
    ensures hash[10] == RotL(last0, 1)
    ensures hash[7] == RotL(old(hash[10]), 3)
    ensures hash[11] == RotL(old(hash[7]), 6)
    ensures hash[17] == RotL(old(hash[11]), 10)
    ensures hash[18] == RotL(old(hash[17]), 15)
    ensures hash[3] == RotL(old(hash[18]), 21)
    ensures last == old(hash[3])
    ensures forall i | 0 <= i < 25 && i != 10 && i != 7 && i != 11 && i != 17 && i != 18 && i != 3 :: hash[i] == old(hash[i])
  {
    hide *;
    last := last0;
    var one;
    one := hash[10]; hash[10] := RotL(last, 1); last := one;
    one := hash[7]; hash[7] := RotL(last, 3); last := one;
    one := hash[11]; hash[11] := RotL(last, 6); last := one;
    one := hash[17]; hash[17] := RotL(last, 10); last := one;
    one := hash[18]; hash[18] := RotL(last, 15); last := one;
    one := hash[3]; hash[3] := RotL(last, 21); last := one;
  }

  method RhoPiSecond(hash: array<bv64>, last0: bv64) returns (last: bv64)
    requires hash.Length == 25
    modifies hash
    ensures hash[5] == RotL(last0, 28)
    ensures hash[16] == RotL(old(hash[5]), 36)
    ensures hash[8] == RotL(old(hash[16]), 45)
    ensures hash[21] == RotL(old(hash[8]), 55)
    ensures hash[24] == RotL(old(hash[21]), 2)
    ensures hash[4] == RotL(old(hash[24]), 14)
    ensures last == old(hash[4])
    ensures forall i | 0 <= i < 25 && i != 5 && i != 16 && i != 8 && i != 21 && i != 24 && i != 4 :: hash[i] == old(hash[i])
  {
    hide *;
    last := last0;
    var one;
    one := hash[5]; hash[5] := RotL(last, 28); last := one;
    one := hash[16]; hash[16] := RotL(last, 36); last := one;
    one := hash[8]; hash[8] := RotL(last, 45); last := one;
    one := hash[21]; hash[21] := RotL(last, 55); last := one;
    one := hash[24]; hash[24] := RotL(last, 2); last := one;
    one := hash[4]; hash[4] := RotL(last, 14); last := one;
  }

  method RhoPiThird(hash: array<bv64>, last0: bv64) returns (last: bv64)
    requires hash.Length == 25
    modifies hash
    ensures hash[15] == RotL(last0, 27)
    ensures hash[23] == RotL(old(hash[15]), 41)
    ensures hash[19] == RotL(old(hash[23]), 56)
    ensures hash[13] == RotL(old(hash[19]), 8)
    ensures hash[12] == RotL(old(hash[13]), 25)
    ensures hash[2] == RotL(old(hash[12]), 43)
    ensures last == old(hash[2])
    ensures forall i | 0 <= i < 25 && i != 15 && i != 23 && i != 19 && i != 13 && i != 12 && i != 2 :: hash[i] == old(hash[i])
  {
    hide *;
    last := last0;
    var one;
    one := hash[15]; hash[15] := RotL(last, 27); last := one;
    one := hash[23]; hash[23] := RotL(last, 41); last := one;
    one := hash[19]; hash[19] := RotL(last, 56); last := one;
    one := hash[13]; hash[13] := RotL(last, 8); last := one;
    one := hash[12]; hash[12] := RotL(last, 25); last := one;
    one := hash[2]; hash[2] := RotL(last, 43); last := one;
  }

  method RhoPiFourth(hash: array<bv64>, last0: bv64) returns (last: bv64)
    requires hash.Length == 25
    modifies hash
    ensures hash[20] == RotL(last0, 62)
    ensures hash[14] == RotL(old(hash[20]), 18)
    ensures hash[22] == RotL(old(hash[14]), 39)
    ensures hash[9] == RotL(old(hash[22]), 61)
    ensures hash[6] == RotL(old(hash[9]), 20)
    ensures hash[1] == RotL(old(hash[6]), 44)
    ensures last == old(hash[1])
    ensures forall i | 0 <= i < 25 && i != 20 && i != 14 && i != 22 && i != 9 && i != 6 && i != 1 :: hash[i] == old(hash[i])
  {
    hide *;
    last := last0;
    var one;
    one := hash[20]; hash[20] := RotL(last, 62); last := one;
    one := hash[14]; hash[14] := RotL(last, 18); last := one;
    one := hash[22]; hash[22] := RotL(last, 39); last := one;
    one := hash[9]; hash[9] := RotL(last, 61); last := one;
    one := hash[6]; hash[6] := RotL(last, 20); last := one;
    last, hash[1] := hash[1], RotL(last, 44);
  }

  lemma EveryLane(a: State, b: State)
    requires a[0] == b[0] && a[1] == b[1] && a[2] == b[2] && a[3] == b[3] && a[4] == b[4]
    requires a[5] == b[5] && a[6] == b[6] && a[7] == b[7] && a[8] == b[8] && a[9] == b[9]
    requires a[10] == b[10] && a[11] == b[11] && a[12] == b[12] && a[13] == b[13] && a[14] == b[14]
    requires a[15] == b[15] && a[16] == b[16] && a[17] == b[17] && a[18] == b[18] && a[19] == b[19]
    requires a[20] == b[20] && a[21] == b[21] && a[22] == b[22] && a[23] == b[23] && a[24] == b[24]
    ensures a == b
  {
  }

  lemma PiRhoTable(a: State, b: State)
    requires b[0] == a[0] && b[1] == RotL(a[6], 44) && b[2] == RotL(a[12], 43) && b[3] == RotL(a[18], 21) && b[4] == RotL(a[24], 14)
    requires b[5] == RotL(a[3], 28) && b[6] == RotL(a[9], 20) && b[7] == RotL(a[10], 3) && b[8] == RotL(a[16], 45) && b[9] == RotL(a[22], 61)
    requires b[10] == RotL(a[1], 1) && b[11] == RotL(a[7], 6) && b[12] == RotL(a[13], 25) && b[13] == RotL(a[19], 8) && b[14] == RotL(a[20], 18)
    requires b[15] == RotL(a[4], 27) && b[16] == RotL(a[5], 36) && b[17] == RotL(a[11], 10) && b[18] == RotL(a[17], 15) && b[19] == RotL(a[23], 56)
    requires b[20] == RotL(a[2], 62) && b[21] == RotL(a[8], 55) && b[22] == RotL(a[14], 39) && b[23] == RotL(a[15], 41) && b[24] == RotL(a[21], 2)
    ensures b == Pi(Rho(a))
  {
    hide *;
    PiRhoRow0(a);
    PiRhoRow1(a);
    PiRhoRow2(a);
    PiRhoRow3(a);
    PiRhoRow4(a);
    EveryLane(b, Pi(Rho(a)));
  }

  /** The running chain of rotations, each lane saved before it is overwritten. */
  method RhoPiInPlace(hash: array<bv64>)
    requires hash.Length == 25
    modifies hash
    ensures hash[..] == Pi(Rho(old(hash[..])))
  {
    ghost var a: State := hash[..];
    hide *;
    var last := hash[1];
    last := RhoPiFirst(hash, last);
    last := RhoPiSecond(hash, last);
    last := RhoPiThird(hash, last);
    last := RhoPiFourth(hash, last);
    PiRhoTable(a, hash[..]);
  }

  lemma AndComm(x: bv64, y: bv64)
    ensures And(x, y) == And(y, x)
  {
  }

  lemma ChiLines(p: bv64, q: bv64, r: bv64, s: bv64, t: bv64)
    ensures Xor(p, And(r, Not(q))) == ChiLane(p, q, r)
    ensures Xor(q, And(s, Not(r))) == ChiLane(q, r, s)
    ensures Xor(r, And(t, Not(s))) == ChiLane(r, s, t)
    ensures Xor(s, And(p, Not(t))) == ChiLane(s, t, p)
    ensures Xor(t, And(q, Not(p))) == ChiLane(t, p, q)
  {
    hide Xor, And, Not;
    AndComm(r, Not(q));
    AndComm(s, Not(r));
    AndComm(t, Not(s));
    AndComm(p, Not(t));
    AndComm(q, Not(p));
  }

  /** One turn of the loop over rows: two lanes are saved, five are overwritten. */
  method ChiRowInPlace(hash: array<bv64>, j: nat, ghost p: bv64, ghost q: bv64, ghost r: bv64, ghost s: bv64, ghost t: bv64)
    requires hash.Length == 25 && j + 5 <= 25
    requires hash[j] == p && hash[j + 1] == q && hash[j + 2] == r && hash[j + 3] == s && hash[j + 4] == t
    modifies hash
    ensures hash[j] == ChiLane(p, q, r) && hash[j + 1] == ChiLane(q, r, s) && hash[j + 2] == ChiLane(r, s, t)
    ensures hash[j + 3] == ChiLane(s, t, p) && hash[j + 4] == ChiLane(t, p, q)
    ensures hash[..j] == old(hash[..j]) && hash[j + 5..] == old(hash[j + 5..])
  {
    hide *;
    var one := hash[j];
    var two := hash[j + 1];
    ChiLines(p, q, r, s, t);
    hash[j] := Xor(hash[j], And(hash[j + 2], Not(two)));
    hash[j + 1] := Xor(hash[j + 1], And(hash[j + 3], Not(hash[j + 2])));
    hash[j + 2] := Xor(hash[j + 2], And(hash[j + 4], Not(hash[j + 3])));
    hash[j + 3] := Xor(hash[j + 3], And(one, Not(hash[j + 4])));
    hash[j + 4] := Xor(hash[j + 4], And(two, Not(one)));
  }

  lemma RowDone(a: State, b: State, h: State, g: State, j: nat)
    requires j + 5 <= 25 && h[..j] == b[..j] && h[j..] == a[j..]
    requires g[..j] == h[..j] && g[j + 5..] == h[j + 5..]
    requires g[j] == b[j] && g[j + 1] == b[j + 1] && g[j + 2] == b[j + 2] && g[j + 3] == b[j + 3] && g[j + 4] == b[j + 4]
    ensures g[..j + 5] == b[..j + 5] && g[j + 5..] == a[j + 5..]
  {
    assert g[..j + 5] == g[..j] + [g[j], g[j + 1], g[j + 2], g[j + 3], g[j + 4]];
    assert b[..j + 5] == b[..j] + [b[j], b[j + 1], b[j + 2], b[j + 3], b[j + 4]];
    assert h[j + 5..] == h[j..][5..] && a[j + 5..] == a[j..][5..];
  }

  lemma RowUntouched(a: State, h: State, j: nat)
    requires j + 5 <= 25 && h[j..] == a[j..]
    ensures h[j] == a[j] && h[j + 1] == a[j + 1] && h[j + 2] == a[j + 2] && h[j + 3] == a[j + 3] && h[j + 4] == a[j + 4]
  {
    assert h[j] == h[j..][0] && h[j + 1] == h[j..][1] && h[j + 2] == h[j..][2] && h[j + 3] == h[j..][3] && h[j + 4] == h[j..][4];
  }

  lemma RightTable()
    ensures Right(0) == 1 && Right(1) == 2 && Right(2) == 3 && Right(3) == 4 && Right(4) == 0
  {
  }

  lemma ChiRowStart(a: State, y: nat)
    requires y < 5
    ensures Chi(a)[5 * y] == ChiLane(a[5 * y], a[5 * y + 1], a[5 * y + 2])
    ensures Chi(a)[5 * y + 1] == ChiLane(a[5 * y + 1], a[5 * y + 2], a[5 * y + 3])
  {
    hide *;
    RightTable();
    ChiAt(a, y, 0);
    ChiAt(a, y, 1);
  }

  lemma ChiRowEnd(a: State, y: nat)
    requires y < 5
    ensures Chi(a)[5 * y + 2] == ChiLane(a[5 * y + 2], a[5 * y + 3], a[5 * y + 4])
    ensures Chi(a)[5 * y + 3] == ChiLane(a[5 * y + 3], a[5 * y + 4], a[5 * y])
    ensures Chi(a)[5 * y + 4] == ChiLane(a[5 * y + 4], a[5 * y], a[5 * y + 1])
  {
    hide *;
    RightTable();
    ChiAt(a, y, 2);
    ChiAt(a, y, 3);
    ChiAt(a, y, 4);
  }

  method ChiInPlace(hash: array<bv64>)
    requires hash.Length == 25
    modifies hash
    ensures hash[..] == Chi(old(hash[..]))
  {
    hide *;
    ghost var a: State := hash[..];
    ghost var b: State := Chi(a);
    var j := 0;
    ghost var y := 0;
    while j < 25
      invariant 0 <= y <= 5 && j == 5 * y
      invariant hash[..j] == b[..j] && hash[j..] == a[j..]
    {
      ChiRowStart(a, y);
      ChiRowEnd(a, y);
      ghost var before: State := hash[..];
      RowUntouched(a, before, j);
      ChiRowInPlace(hash, j, a[j], a[j + 1], a[j + 2], a[j + 3], a[j + 4]);
      RowDone(a, b, before, hash[..], j);
      j, y := j + 5, y + 1;
    }
  }

  /** One turn of the loop, with the constant from the code's list. */
  method OneRound(hash: array<bv64>, round: nat)
    requires hash.Length == 25 && round < 24
    modifies hash
    ensures hash[..] == Round(old(hash[..]), round)
  {
    hide Theta, Rho, Pi, Chi, Xor, XorMask, RoundConstant, AddConstant;
    RoundConstants(round);
    ThetaInPlace(hash);
    RhoPiInPlace(hash);
    ChiInPlace(hash);
    AddConstantIs(hash[..], XorMask(round));
    hash[0] := Xor(hash[0], XorMask(round));
  }

  method Permute(hash: array<bv64>)
    requires hash.Length == 25
    modifies hash
    ensures hash[..] == KeccakF(old(hash[..]))
  {
    hide Round;
    ghost var a: State := hash[..];
    for round := 0 to 24
      invariant hash[..] == Iterate(Round, a, round)
    {
      OneRound(hash, round);
    }
  }

  /** The block function of the code adds the block and applies Keccak-f[1600]. */
  method ProcessBlock(hash: array<bv64>, data: seq<byte>)
    requires hash.Length == 25 && |data| % 8 == 0 && |data| <= 200
    modifies hash
    ensures hash[..] == Compress(old(hash[..]), data)
  {
    ghost var a: State := hash[..];
    hide KeccakF, Xor, LittleEndian;
    for i := 0 to |data| / 8
      invariant forall k | 0 <= k < 25 ::
                  hash[k] == if k < i then Xor(a[k], LittleEndian(data[8 * k..8 * k + 8])) else a[k]
    {
      hash[i] := Xor(hash[i], LittleEndian(data[8 * i..8 * i + 8]));
    }
    assert hash[..] == AddBlock(a, data);
    Permute(hash);
  }
}
