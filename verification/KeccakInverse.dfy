/** The permutation Keccak-f[1600] undone. Theta acts on the column parities as one plus a map T,
    which adds the left neighbour and the right neighbour rotated by one; its powers of two have the
    same form, and the 192nd power of one plus T is the identity. */
module KeccakInverse {
  import opened Bytes
  import opened Iteration
  import opened KeccakSpec

  lemma RotXor1(a: bv64, b: bv64)
    ensures RotL(Xor(a, b), 1) == Xor(RotL(a, 1), RotL(b, 1))
  {
  }

  lemma RotXor2(a: bv64, b: bv64)
    ensures RotL(Xor(a, b), 2) == Xor(RotL(a, 2), RotL(b, 2))
  {
  }

  lemma RotXor4(a: bv64, b: bv64)
    ensures RotL(Xor(a, b), 4) == Xor(RotL(a, 4), RotL(b, 4))
  {
  }

  lemma RotXor8(a: bv64, b: bv64)
    ensures RotL(Xor(a, b), 8) == Xor(RotL(a, 8), RotL(b, 8))
  {
  }

  lemma RotXor16(a: bv64, b: bv64)
    ensures RotL(Xor(a, b), 16) == Xor(RotL(a, 16), RotL(b, 16))
  {
  }

  lemma RotXor32(a: bv64, b: bv64)
    ensures RotL(Xor(a, b), 32) == Xor(RotL(a, 32), RotL(b, 32))
  {
  }

  lemma RotXor64(a: bv64, b: bv64)
    ensures RotL(Xor(a, b), 64) == Xor(RotL(a, 64), RotL(b, 64))
  {
  }

  lemma RotTwice1(a: bv64)
    ensures RotL(RotL(a, 1), 1) == RotL(a, 2)
  {
  }

  lemma RotTwice2(a: bv64)
    ensures RotL(RotL(a, 2), 2) == RotL(a, 4)
  {
  }

  lemma RotTwice4(a: bv64)
    ensures RotL(RotL(a, 4), 4) == RotL(a, 8)
  {
  }

  lemma RotTwice8(a: bv64)
    ensures RotL(RotL(a, 8), 8) == RotL(a, 16)
  {
  }

  lemma RotTwice16(a: bv64)
    ensures RotL(RotL(a, 16), 16) == RotL(a, 32)
  {
  }

  lemma RotTwice32(a: bv64)
    ensures RotL(RotL(a, 32), 32) == RotL(a, 64)
  {
  }

  lemma RotTwice64(a: bv64)
    ensures RotL(RotL(a, 64), 64) == RotL(a, 64)
  {
  }

  lemma RotAll(a: bv64)
    ensures RotL(a, 64) == a
  {
  }

  lemma XorComm(a: bv64, b: bv64)
    ensures Xor(a, b) == Xor(b, a)
  {
  }

  lemma XorIs(a: bv64, b: bv64)
    ensures Xor(a, b) == a ^ b
  {
  }

  lemma SumsAssoc(a: bv64, b: bv64, c: bv64)
    ensures (a ^ b) ^ c == a ^ (b ^ c)
  {
  }

  lemma XorToSum(s: bv64, a: bv64, b: bv64, c: bv64)
    requires s == a ^ b
    ensures Xor(s, c) == (a ^ b) ^ c
  {
  }

  lemma XorOfSum(s: bv64, a: bv64, b: bv64, c: bv64)
    requires s == b ^ c
    ensures Xor(a, s) == a ^ (b ^ c)
  {
  }

  lemma XorAssoc(a: bv64, b: bv64, c: bv64)
    ensures Xor(Xor(a, b), c) == Xor(a, Xor(b, c))
  {
    hide *;
    XorIs(a, b);
    XorIs(b, c);
    XorToSum(Xor(a, b), a, b, c);
    XorOfSum(Xor(b, c), a, b, c);
    SumsAssoc(a, b, c);
  }

  lemma XorTwice(a: bv64, b: bv64)
    ensures Xor(a, Xor(a, b)) == b
  {
  }

  lemma XorSwap(a: bv64, b: bv64, c: bv64)
    ensures Xor(a, Xor(b, c)) == Xor(b, Xor(a, c))
  {
    hide *;
    XorAssoc(a, b, c);
    XorComm(a, b);
    XorAssoc(b, a, c);
  }

  /** One plus T applied twice to one column: what is added twice cancels. */
  lemma XorSquare(c: bv64, m: bv64, mm: bv64, u: bv64, v: bv64, w: bv64)
    ensures Xor(Xor(c, Xor(m, u)), Xor(Xor(m, Xor(mm, v)), Xor(u, Xor(v, w)))) == Xor(c, Xor(mm, w))
  {
    hide *;
    var x := Xor(u, Xor(v, w));
    XorAssoc(c, Xor(m, u), Xor(Xor(m, Xor(mm, v)), x));
    XorAssoc(m, u, Xor(Xor(m, Xor(mm, v)), x));
    XorAssoc(m, Xor(mm, v), x);
    XorSwap(u, m, Xor(Xor(mm, v), x));
    XorTwice(m, Xor(u, Xor(Xor(mm, v), x)));
    XorAssoc(mm, v, x);
    XorSwap(u, mm, Xor(v, x));
    XorSwap(v, u, Xor(v, w));
    XorTwice(v, w);
    XorTwice(u, w);
  }

  // ---------------------------------------------------------------------------
  // The powers of one plus T on five columns
  // ---------------------------------------------------------------------------

  type Row = c: seq<bv64> | |c| == 5 witness seq(5, _ => 0)

  /** Column `x` of a row, counted around. */
  function At(c: Row, x: nat): bv64 { c[x % 5] }

  /** How far the neighbours are for the power 2^k: 2^k modulo 5. */
  function Distance(k: nat): (i: nat)
    ensures 0 < i < 5
  {
    [1, 2, 4, 3][k % 4]
  }

  /** How far they are rotated: 2^k modulo 64, a full turn from k = 6 on. */
  function Turn(k: nat): (n: bv8)
    ensures n <= 64
  {
    if k < 6 then [1 as bv8, 2, 4, 8, 16, 32][k] else 64
  }

  /** The 2^k-th power of one plus T. */
  function Power(k: nat, c: Row): Row {
    seq(5, x requires 0 <= x < 5 => Xor(At(c, x), Xor(At(c, x + 5 - Distance(k)), RotL(At(c, x + Distance(k)), Turn(k)))))
  }

  lemma RotPower(k: nat, a: bv64, b: bv64)
    ensures RotL(Xor(a, b), Turn(k)) == Xor(RotL(a, Turn(k)), RotL(b, Turn(k)))
    ensures RotL(RotL(a, Turn(k)), Turn(k)) == RotL(a, Turn(k + 1))
  {
    hide Xor, RotL;
    RotXor1(a, b);
    RotTwice1(a);
    RotXor2(a, b);
    RotTwice2(a);
    RotXor4(a, b);
    RotTwice4(a);
    RotXor8(a, b);
    RotTwice8(a);
    RotXor16(a, b);
    RotTwice16(a);
    RotXor32(a, b);
    RotTwice32(a);
    RotXor64(a, b);
    RotTwice64(a);
  }

  lemma Distances(k: nat)
    ensures Distance(k + 1) == (2 * Distance(k)) % 5 && 0 < Distance(k)
  {
  }

  lemma PowerHere(k: nat, c: Row, x: nat)
    requires x < 5
    ensures Power(k, c)[x] == Xor(At(c, x), Xor(At(c, x + 5 - Distance(k)), RotL(At(c, x + Distance(k)), Turn(k))))
  {
    hide Xor, RotL, Distance, Turn, At;
  }

  lemma AtHere(c: Row, x: nat)
    requires x < 5
    ensures At(c, x) == c[x]
  {
  }

  lemma Neighbours(i: nat, x: nat)
    requires i < 5
    ensures x % 5 % 5 == x % 5 && (x % 5 + 5 - i) % 5 == (x + 5 - i) % 5 && (x % 5 + i) % 5 == (x + i) % 5
  {
  }

  lemma AtAround(c: Row, x: nat, y: nat)
    requires x % 5 == y % 5
    ensures At(c, x) == At(c, y)
  {
  }

  lemma PowerAt(k: nat, c: Row, x: nat)
    ensures At(Power(k, c), x) == Xor(At(c, x), Xor(At(c, x + 5 - Distance(k)), RotL(At(c, x + Distance(k)), Turn(k))))
  {
    hide *;
    var i, y := Distance(k), x % 5;
    var m, p := x + 5 - i, x + i;
    Neighbours(i, x);
    PowerHere(k, c, y);
    AtHere(Power(k, c), y);
    AtAround(Power(k, c), x, y);
    AtAround(c, x, y);
    AtAround(c, m, y + 5 - i);
    AtAround(c, p, y + i);
  }

  lemma Around(i: nat, j: nat, x: nat)
    requires i < 5 && j == (2 * i) % 5
    ensures (x + 5 - i + i) % 5 == x % 5 && (x + i + 5 - i) % 5 == x % 5
    ensures (x + 5 - i + 5 - i) % 5 == (x + 5 - j) % 5 && (x + i + i) % 5 == (x + j) % 5
  {
  }

  /** The columns that two applications look at. */
  lemma AtTwice(k: nat, c: Row, x: nat)
    ensures var i, j := Distance(k), Distance(k + 1);
      && At(c, x + 5 - i + i) == At(c, x) == At(c, x + i + 5 - i)
      && At(c, x + 5 - i + 5 - i) == At(c, x + 5 - j) && At(c, x + i + i) == At(c, x + j)
  {
    hide *;
    var i, j := Distance(k), Distance(k + 1);
    Distances(k);
    Around(i, j, x);
    AtAround(c, x + 5 - i + i, x);
    AtAround(c, x + i + 5 - i, x);
    AtAround(c, x + 5 - i + 5 - i, x + 5 - j);
    AtAround(c, x + i + i, x + j);
  }

  lemma RotSum(k: nat, a: bv64, b: bv64, e: bv64)
    ensures RotL(Xor(a, Xor(b, RotL(e, Turn(k)))), Turn(k)) == Xor(RotL(a, Turn(k)), Xor(RotL(b, Turn(k)), RotL(e, Turn(k + 1))))
  {
    hide *;
    RotPower(k, a, Xor(b, RotL(e, Turn(k))));
    RotPower(k, b, RotL(e, Turn(k)));
    RotPower(k, e, e);
  }

  lemma SquareValues(k: nat, c: bv64, m: bv64, p: bv64, mm: bv64, pp: bv64)
    ensures var n := Turn(k);
      Xor(Xor(c, Xor(m, RotL(p, n))), Xor(Xor(m, Xor(mm, RotL(c, n))), RotL(Xor(p, Xor(c, RotL(pp, n))), n)))
      == Xor(c, Xor(mm, RotL(pp, Turn(k + 1))))
  {
    hide *;
    RotSum(k, p, c, pp);
    XorSquare(c, m, mm, RotL(p, Turn(k)), RotL(c, Turn(k)), RotL(pp, Turn(k + 1)));
  }

  /** Squaring a power doubles it, column by column. */
  lemma SquaredAt(k: nat, c: Row, x: nat)
    ensures At(Power(k, Power(k, c)), x) == At(Power(k + 1, c), x)
  {
    hide *;
    var i := Distance(k);
    var m, p := x + 5 - i, x + i;
    AtTwice(k, c, x);
    PowerAt(k, Power(k, c), x);
    PowerAt(k, c, x);
    PowerAt(k, c, m);
    PowerAt(k, c, p);
    PowerAt(k + 1, c, x);
    SquareValues(k, At(c, x), At(c, m), At(c, p), At(c, m + 5 - i), At(c, p + i));
  }

  lemma SameRow(c: Row, d: Row)
    requires forall x | 0 <= x < 5 :: At(c, x) == At(d, x)
    ensures c == d
  {
    forall x | 0 <= x < 5 ensures c[x] == d[x] {
      assert At(c, x) == At(d, x);
    }
  }

  lemma XorSelf(a: bv64)
    ensures Xor(a, a) == 0
  {
  }

  /** Each neighbour sum once more than twice cancels. */
  lemma XorCube(c0: bv64, c1: bv64, c2: bv64, c3: bv64, c4: bv64)
    ensures Xor(Xor(c0, Xor(c2, c3)), Xor(Xor(c1, Xor(c3, c4)), Xor(c4, Xor(c1, c2)))) == c0
  {
    hide *;
    var x := Xor(c4, Xor(c1, c2));
    XorAssoc(c0, Xor(c2, c3), Xor(Xor(c1, Xor(c3, c4)), x));
    XorAssoc(c2, c3, Xor(Xor(c1, Xor(c3, c4)), x));
    XorAssoc(c1, Xor(c3, c4), x);
    XorAssoc(c3, c4, x);
    XorTwice(c4, Xor(c1, c2));
    XorSwap(c1, c3, Xor(c1, c2));
    XorTwice(c1, c2);
    XorSwap(c3, c3, c2);
    XorTwice(c3, c2);
    XorSelf(c2);
    XorNone(c0);
  }

  lemma LastDistances()
    ensures Distance(6) == 4 && Distance(7) == 3 && Turn(6) == Turn(7) == 64
  {
  }

  /** Powers 64 and 128 undo each other: every neighbour is added twice. */
  lemma CubeAt(c: Row, x: nat)
    ensures At(Power(6, Power(7, c)), x) == At(c, x)
  {
    LastDistances();
    hide *;
    PowerAt(6, Power(7, c), x);
    PowerAt(7, c, x);
    PowerAt(7, c, x + 1);
    PowerAt(7, c, x + 4);
    RotAll(At(Power(7, c), x + 4));
    RotAll(At(c, x + 3));
    RotAll(At(c, x + 1 + 3));
    RotAll(At(c, x + 4 + 3));
    AtAround(c, x + 4 + 2, x + 1);
    AtAround(c, x + 4 + 3, x + 2);
    XorCube(At(c, x), At(c, x + 1), At(c, x + 2), At(c, x + 3), At(c, x + 4));
  }

  /** What theta does to the column parities: one plus T. */
  function Base(c: Row): Row { Power(0, c) }

  /** The 191st power of one plus T, which is its inverse. */
  function Back(c: Row): Row { Power(6, Up(Power, 7, c)) }

  lemma BackInverse()
    ensures Inverse(Base, Back)
  {
    hide Power, At;
    forall k: nat, c: Row ensures Power(k, Power(k, c)) == Power(k + 1, c) {
      forall x | 0 <= x < 5 ensures At(Power(k, Power(k, c)), x) == At(Power(k + 1, c), x) { SquaredAt(k, c, x); }
      SameRow(Power(k, Power(k, c)), Power(k + 1, c));
    }
    forall c: Row ensures Power(6, Power(7, c)) == c {
      forall x | 0 <= x < 5 ensures At(Power(6, Power(7, c)), x) == At(c, x) { CubeAt(c, x); }
      SameRow(Power(6, Power(7, c)), c);
    }
    forall c: Row ensures Back(Base(c)) == c && Base(Back(c)) == c {
      PowersInvert(Power, 6, 7, c);
    }
  }

  // ---------------------------------------------------------------------------
  // Theta undone
  // ---------------------------------------------------------------------------

  /** The parities of the five columns. */
  function Parities(a: State): Row { seq(5, x requires 0 <= x < 5 => Column(a, x)) }

  /** What theta adds to the columns of a state with these parities. */
  function Spread(c: Row): Row { seq(5, x requires 0 <= x < 5 => Xor(At(c, x + 4), RotL(At(c, x + 1), 1))) }

  function AddToColumns(a: State, e: Row): State { seq(25, i requires 0 <= i < 25 => Xor(a[i], At(e, i))) }

  function ThetaBack(b: State): State { AddToColumns(b, Spread(Back(Parities(b)))) }

  lemma ParityAt(a: State, x: nat)
    ensures At(Parities(a), x) == Column(a, x)
  {
    hide Xor;
    assert forall y :: Lane(a, x % 5, y) == Lane(a, x, y);
  }

  lemma SpreadAt(c: Row, x: nat)
    ensures At(Spread(c), x) == Xor(At(c, x + 4), RotL(At(c, x + 1), 1))
  {
    hide Xor, RotL;
    assert (x % 5 + 4) % 5 == (x + 4) % 5 && (x % 5 + 1) % 5 == (x + 1) % 5;
  }

  lemma FirstDistance()
    ensures Distance(0) == 1 && Turn(0) == 1
  {
  }

  lemma BaseAt(c: Row, x: nat)
    ensures At(Base(c), x) == Xor(At(c, x), At(Spread(c), x))
  {
    FirstDistance();
    hide At, Power, Spread, Xor, RotL, Distance, Turn;
    PowerAt(0, c, x);
    SpreadAt(c, x);
  }

  lemma ThetaIs(a: State)
    ensures Theta(a) == AddToColumns(a, Spread(Parities(a)))
  {
    hide Xor, RotL, At, Parities, Spread, Column;
    forall i | 0 <= i < 25 ensures Theta(a)[i] == AddToColumns(a, Spread(Parities(a)))[i] {
      AtAround(Spread(Parities(a)), i, i % 5);
      SpreadAt(Parities(a), i % 5);
      ParityAt(a, i % 5 + 4);
      ParityAt(a, i % 5 + 1);
    }
  }

  lemma XorOut(p: bv64, q: bv64, d: bv64)
    ensures Xor(Xor(p, d), Xor(q, d)) == Xor(p, q)
  {
    hide *;
    XorAssoc(p, d, Xor(q, d));
    XorComm(q, d);
    XorTwice(d, q);
  }

  /** What is added to each of five lanes is added once to their sum. */
  lemma XorFive(p: bv64, q: bv64, r: bv64, s: bv64, t: bv64, d: bv64)
    ensures Xor(Xor(Xor(Xor(Xor(p, d), Xor(q, d)), Xor(r, d)), Xor(s, d)), Xor(t, d))
         == Xor(Xor(Xor(Xor(Xor(p, q), r), s), t), d)
  {
    hide *;
    XorOut(p, q, d);
    var pq := Xor(p, q);
    XorAssoc(pq, r, d);
    XorOut(Xor(pq, r), s, d);
    XorAssoc(Xor(Xor(pq, r), s), t, d);
  }

  lemma LaneAdded(a: State, e: Row, x: nat, y: nat)
    ensures Lane(AddToColumns(a, e), x, y) == Xor(Lane(a, x, y), At(e, x))
  {
    hide Xor;
  }

  lemma ColumnAdded(a: State, e: Row, x: nat)
    ensures Column(AddToColumns(a, e), x) == Xor(Column(a, x), At(e, x))
  {
    hide Xor, Lane, AddToColumns, At;
    LaneAdded(a, e, x, 0);
    LaneAdded(a, e, x, 1);
    LaneAdded(a, e, x, 2);
    LaneAdded(a, e, x, 3);
    LaneAdded(a, e, x, 4);
    XorFive(Lane(a, x, 0), Lane(a, x, 1), Lane(a, x, 2), Lane(a, x, 3), Lane(a, x, 4), At(e, x));
  }

  lemma AddedTwice(a: State, e: Row)
    ensures AddToColumns(AddToColumns(a, e), e) == a
  {
    hide Xor, At;
    var b := AddToColumns(AddToColumns(a, e), e);
    forall i | 0 <= i < 25 ensures b[i] == a[i] {
      XorComm(Xor(a[i], At(e, i)), At(e, i));
      XorComm(a[i], At(e, i));
      XorTwice(At(e, i), a[i]);
    }
  }

  /** Theta is a bijection of the states. */
  lemma ThetaBijective()
    ensures Inverse(Theta, ThetaBack)
  {
    hide Theta, Parities, Base, Back, Spread, AddToColumns, Xor, At, Column;
    BackInverse();
    forall a ensures ThetaBack(Theta(a)) == a && Theta(ThetaBack(a)) == a {
      var c := Parities(a);
      ThetaIs(a);
      forall x | 0 <= x < 5 ensures At(Parities(Theta(a)), x) == At(Base(c), x) {
        ParityAt(Theta(a), x);
        ParityAt(a, x);
        ColumnAdded(a, Spread(c), x);
        BaseAt(c, x);
      }
      SameRow(Parities(Theta(a)), Base(c));
      AddedTwice(a, Spread(c));
      var d := Back(c);
      forall x | 0 <= x < 5 ensures At(Parities(ThetaBack(a)), x) == At(d, x) {
        ParityAt(ThetaBack(a), x);
        ParityAt(a, x);
        ColumnAdded(a, Spread(d), x);
        BaseAt(d, x);
        XorAssoc(At(d, x), At(Spread(d), x), At(Spread(d), x));
        XorSelf(At(Spread(d), x));
        XorNone(At(d, x));
      }
      SameRow(Parities(ThetaBack(a)), d);
      ThetaIs(ThetaBack(a));
      AddedTwice(a, Spread(d));
    }
  }

  // ---------------------------------------------------------------------------
  // The permutation undone
  // ---------------------------------------------------------------------------

  lemma IotaTwice(a: State, round: nat)
    ensures Iota(Iota(a, round), round) == a
  {
    hide Xor, RoundConstant, AddConstant;
    var c := RoundConstant(round);
    AddConstantIs(a, c);
    AddConstantIs(Iota(a, round), c);
    XorAssoc(a[0], c, c);
    XorSelf(c);
    XorNone(a[0]);
  }

  function RoundBack(b: State, round: nat): State {
    ThetaBack(RhoBack(PiBack(ChiBack(Iota(b, round)))))
  }

  /** Every round is a bijection. */
  lemma RoundBijective()
    ensures InverseSteps(Round, RoundBack)
  {
    hide Theta, ThetaBack, Rho, RhoBack, Pi, PiBack, Chi, ChiBack, Iota;
    ThetaBijective();
    forall a: State, n: nat ensures RoundBack(Round(a, n), n) == a && Round(RoundBack(a, n), n) == a {
      assert ThetaBack(Theta(a)) == a;
      IotaTwice(Chi(Pi(Rho(Theta(a)))), n);
      ChiBijective(Pi(Rho(Theta(a))));
      PiBijective(Rho(Theta(a)));
      RhoBijective(Theta(a));
      var b := Iota(a, n);
      var t := RhoBack(PiBack(ChiBack(b)));
      assert Theta(ThetaBack(t)) == t;
      RhoBijective(PiBack(ChiBack(b)));
      PiBijective(ChiBack(b));
      ChiBijective(b);
      IotaTwice(a, n);
    }
  }

  function KeccakFBack(b: State): State { IterateBack(RoundBack, b, 24) }

  /** Keccak-f[1600] is a permutation of the states. */
  lemma KeccakFBijective()
    ensures Inverse(KeccakF, KeccakFBack)
  {
    hide Round, RoundBack, Iterate, IterateBack;
    RoundBijective();
    forall a: State ensures KeccakFBack(KeccakF(a)) == a && KeccakF(KeccakFBack(a)) == a {
      IterateInverse(Round, RoundBack, a, 24);
    }
  }
}
