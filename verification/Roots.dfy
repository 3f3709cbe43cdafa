/** The first primes and the digits of their roots, from which FIPS 180-4 takes its constants. */
module Roots {
  import opened BlockArithmetic

  const TWO30: nat := 0x4000_0000
  const TWO32: nat := 0x1_0000_0000

  ghost predicate Prime(p: nat) {
    p >= 2 && forall d | 2 <= d < p :: p % d != 0
  }

  /** The prime numbers in order, the first being 2. */
  function NthPrime(i: nat): nat {
    if i < 8 then
      (match i case 0 => 2 case 1 => 3 case 2 => 5 case 3 => 7 case 4 => 11 case 5 => 13 case 6 => 17 case _ => 19)
    else if i < 16 then
      (match i case 8 => 23 case 9 => 29 case 10 => 31 case 11 => 37 case 12 => 41 case 13 => 43 case 14 => 47 case _ => 53)
    else if i < 24 then
      (match i case 16 => 59 case 17 => 61 case 18 => 67 case 19 => 71 case 20 => 73 case 21 => 79 case 22 => 83 case _ => 89)
    else if i < 32 then
      (match i case 24 => 97 case 25 => 101 case 26 => 103 case 27 => 107 case 28 => 109 case 29 => 113 case 30 => 127 case _ => 131)
    else if i < 40 then
      (match i case 32 => 137 case 33 => 139 case 34 => 149 case 35 => 151 case 36 => 157 case 37 => 163 case 38 => 167 case _ => 173)
    else if i < 48 then
      (match i case 40 => 179 case 41 => 181 case 42 => 191 case 43 => 193 case 44 => 197 case 45 => 199 case 46 => 211 case _ => 223)
    else if i < 56 then
      (match i case 48 => 227 case 49 => 229 case 50 => 233 case 51 => 239 case 52 => 241 case 53 => 251 case 54 => 257 case _ => 263)
    else
      (match i case 56 => 269 case 57 => 271 case 58 => 277 case 59 => 281 case 60 => 283 case 61 => 293 case 62 => 307 case _ => 311)
  }

  /** No prime below 19 divides a number other than itself. */
  predicate Survives(p: nat) {
    && (p == 2 || p % 2 != 0) && (p == 3 || p % 3 != 0) && (p == 5 || p % 5 != 0) && (p == 7 || p % 7 != 0)
    && (p == 11 || p % 11 != 0) && (p == 13 || p % 13 != 0) && (p == 17 || p % 17 != 0)
  }

  lemma Survivors2(p: nat)
    requires 2 <= p < 14 && Survives(p)
    ensures p == 2 || p == 3 || p == 5 || p == 7 || p == 11 || p == 13
  {
  }

  lemma Survivors14(p: nat)
    requires 14 <= p < 26 && Survives(p)
    ensures p == 17 || p == 19 || p == 23
  {
  }

  lemma Survivors26(p: nat)
    requires 26 <= p < 38 && Survives(p)
    ensures p == 29 || p == 31 || p == 37
  {
  }

  lemma Survivors38(p: nat)
    requires 38 <= p < 50 && Survives(p)
    ensures p == 41 || p == 43 || p == 47
  {
  }

  lemma Survivors50(p: nat)
    requires 50 <= p < 62 && Survives(p)
    ensures p == 53 || p == 59 || p == 61
  {
  }

  lemma Survivors62(p: nat)
    requires 62 <= p < 74 && Survives(p)
    ensures p == 67 || p == 71 || p == 73
  {
  }

  lemma Survivors74(p: nat)
    requires 74 <= p < 86 && Survives(p)
    ensures p == 79 || p == 83
  {
  }

  lemma Survivors86(p: nat)
    requires 86 <= p < 98 && Survives(p)
    ensures p == 89 || p == 97
  {
  }

  lemma Survivors98(p: nat)
    requires 98 <= p < 110 && Survives(p)
    ensures p == 101 || p == 103 || p == 107 || p == 109
  {
  }

  lemma Survivors110(p: nat)
    requires 110 <= p < 122 && Survives(p)
    ensures p == 113
  {
  }

  lemma Survivors122(p: nat)
    requires 122 <= p < 134 && Survives(p)
    ensures p == 127 || p == 131
  {
  }

  lemma Survivors134(p: nat)
    requires 134 <= p < 146 && Survives(p)
    ensures p == 137 || p == 139
  {
  }

  lemma Survivors146(p: nat)
    requires 146 <= p < 158 && Survives(p)
    ensures p == 149 || p == 151 || p == 157
  {
  }

  lemma Survivors158(p: nat)
    requires 158 <= p < 170 && Survives(p)
    ensures p == 163 || p == 167
  {
  }

  lemma Survivors170(p: nat)
    requires 170 <= p < 182 && Survives(p)
    ensures p == 173 || p == 179 || p == 181
  {
  }

  lemma Survivors182(p: nat)
    requires 182 <= p < 194 && Survives(p)
    ensures p == 191 || p == 193
  {
  }

  lemma Survivors194(p: nat)
    requires 194 <= p < 206 && Survives(p)
    ensures p == 197 || p == 199
  {
  }

  lemma Survivors206(p: nat)
    requires 206 <= p < 218 && Survives(p)
    ensures p == 211
  {
  }

  lemma Survivors218(p: nat)
    requires 218 <= p < 230 && Survives(p)
    ensures p == 223 || p == 227 || p == 229
  {
  }

  lemma Survivors230(p: nat)
    requires 230 <= p < 242 && Survives(p)
    ensures p == 233 || p == 239 || p == 241
  {
  }

  lemma Survivors242(p: nat)
    requires 242 <= p < 254 && Survives(p)
    ensures p == 251
  {
  }

  lemma Survivors254(p: nat)
    requires 254 <= p < 266 && Survives(p)
    ensures p == 257 || p == 263
  {
  }

  lemma Survivors266(p: nat)
    requires 266 <= p < 278 && Survives(p)
    ensures p == 269 || p == 271 || p == 277
  {
  }

  lemma Survivors278(p: nat)
    requires 278 <= p < 290 && Survives(p)
    ensures p == 281 || p == 283
  {
  }

  lemma Survivors290(p: nat)
    requires 290 <= p < 302 && Survives(p)
    ensures p == 293
  {
  }

  lemma Survivors302(p: nat)
    requires 302 <= p < 312 && Survives(p)
    ensures p == 307 || p == 311
  {
  }

  lemma Multiple(p: nat, d: nat, e: nat, q: nat)
    requires p == d * e && q > 0
    ensures d % q == 0 ==> p % q == 0
  {
    if d % q == 0 {
      assert q * (d / q * e) == q * (d / q) * e;
      ModUnique(p, q, d / q * e, 0);
    }
  }

  lemma BelowNineteen(d: nat)
    requires 2 <= d < 19
    ensures d % 2 == 0 || d % 3 == 0 || d % 5 == 0 || d % 7 == 0 || d % 11 == 0 || d % 13 == 0 || d % 17 == 0
  {
  }

  /** A number with a factor below 19 has a prime factor below 19. */
  lemma SmallFactor(p: nat, d: nat, e: nat)
    requires p == d * e && 2 <= d < 19
    ensures p % 2 == 0 || p % 3 == 0 || p % 5 == 0 || p % 7 == 0 || p % 11 == 0 || p % 13 == 0 || p % 17 == 0
  {
    BelowNineteen(d);
    Multiple(p, d, e, 2);
    Multiple(p, d, e, 3);
    Multiple(p, d, e, 5);
    Multiple(p, d, e, 7);
    Multiple(p, d, e, 11);
    Multiple(p, d, e, 13);
    Multiple(p, d, e, 17);
  }

  /** Of two factors of a number below 19 squared one is below 19. */
  lemma FactorsBelow(p: nat, d: nat, e: nat)
    requires p == d * e && p < 361 && 2 <= d < p
    ensures 2 <= e < p && (d < 19 || e < 19)
  {
    assert e != 0 && e != 1;
    assert d >= 19 && e >= 19 ==> d * e >= 19 * e >= 361;
    assert e >= p ==> d * e >= 2 * e;
  }

  lemma SurvivesIsPrime(p: nat)
    requires 2 <= p < 361
    ensures Survives(p) <==> Prime(p)
  {
    if Survives(p) {
      forall d | 2 <= d < p ensures p % d != 0 {
        if p % d == 0 {
          var e := p / d;
          assert p == d * e;
          FactorsBelow(p, d, e);
          if d < 19 {
            SmallFactor(p, d, e);
          } else {
            SmallFactor(p, e, d);
          }
        }
      }
    }
  }

  lemma Ascending(i: nat)
    requires i < 63
    ensures NthPrime(i) < NthPrime(i + 1)
  {
  }

  lemma IsListed(p: nat)
    requires 2 <= p < 312 && Survives(p)
    ensures exists i | 0 <= i < 64 :: NthPrime(i) == p
  {
    hide Survives;
    if p < 14 {
      Survivors2(p);
      assert NthPrime(0) == 2 && NthPrime(1) == 3 && NthPrime(2) == 5 && NthPrime(3) == 7 && NthPrime(4) == 11 && NthPrime(5) == 13;
    } else if p < 26 {
      Survivors14(p);
      assert NthPrime(6) == 17 && NthPrime(7) == 19 && NthPrime(8) == 23;
    } else if p < 38 {
      Survivors26(p);
      assert NthPrime(9) == 29 && NthPrime(10) == 31 && NthPrime(11) == 37;
    } else if p < 50 {
      Survivors38(p);
      assert NthPrime(12) == 41 && NthPrime(13) == 43 && NthPrime(14) == 47;
    } else if p < 62 {
      Survivors50(p);
      assert NthPrime(15) == 53 && NthPrime(16) == 59 && NthPrime(17) == 61;
    } else if p < 74 {
      Survivors62(p);
      assert NthPrime(18) == 67 && NthPrime(19) == 71 && NthPrime(20) == 73;
    } else if p < 86 {
      Survivors74(p);
      assert NthPrime(21) == 79 && NthPrime(22) == 83;
    } else if p < 98 {
      Survivors86(p);
      assert NthPrime(23) == 89 && NthPrime(24) == 97;
    } else if p < 110 {
      Survivors98(p);
      assert NthPrime(25) == 101 && NthPrime(26) == 103 && NthPrime(27) == 107 && NthPrime(28) == 109;
    } else if p < 122 {
      Survivors110(p);
      assert NthPrime(29) == 113;
    } else if p < 134 {
      Survivors122(p);
      assert NthPrime(30) == 127 && NthPrime(31) == 131;
    } else if p < 146 {
      Survivors134(p);
      assert NthPrime(32) == 137 && NthPrime(33) == 139;
    } else if p < 158 {
      Survivors146(p);
      assert NthPrime(34) == 149 && NthPrime(35) == 151 && NthPrime(36) == 157;
    } else if p < 170 {
      Survivors158(p);
      assert NthPrime(37) == 163 && NthPrime(38) == 167;
    } else if p < 182 {
      Survivors170(p);
      assert NthPrime(39) == 173 && NthPrime(40) == 179 && NthPrime(41) == 181;
    } else if p < 194 {
      Survivors182(p);
      assert NthPrime(42) == 191 && NthPrime(43) == 193;
    } else if p < 206 {
      Survivors194(p);
      assert NthPrime(44) == 197 && NthPrime(45) == 199;
    } else if p < 218 {
      Survivors206(p);
      assert NthPrime(46) == 211;
    } else if p < 230 {
      Survivors218(p);
      assert NthPrime(47) == 223 && NthPrime(48) == 227 && NthPrime(49) == 229;
    } else if p < 242 {
      Survivors230(p);
      assert NthPrime(50) == 233 && NthPrime(51) == 239 && NthPrime(52) == 241;
    } else if p < 254 {
      Survivors242(p);
      assert NthPrime(53) == 251;
    } else if p < 266 {
      Survivors254(p);
      assert NthPrime(54) == 257 && NthPrime(55) == 263;
    } else if p < 278 {
      Survivors266(p);
      assert NthPrime(56) == 269 && NthPrime(57) == 271 && NthPrime(58) == 277;
    } else if p < 290 {
      Survivors278(p);
      assert NthPrime(59) == 281 && NthPrime(60) == 283;
    } else if p < 302 {
      Survivors290(p);
      assert NthPrime(61) == 293;
    } else {
      Survivors302(p);
      assert NthPrime(62) == 307 && NthPrime(63) == 311;
    }
  }

  lemma ListedSurvives(i: nat)
    requires i < 64
    ensures 2 <= NthPrime(i) < 312 && Survives(NthPrime(i))
  {
  }

  lemma {:induction false} InOrder(i: nat, j: nat)
    requires i < j < 64
    ensures NthPrime(i) < NthPrime(j)
  {
    hide NthPrime;
    Ascending(j - 1);
    if i < j - 1 { InOrder(i, j - 1); }
  }

  /** The list misses no prime, and its order is ascending. */
  lemma PrimesListed(p: nat, i: nat, j: nat)
    requires i < 64 && j < 64
    ensures i < j ==> NthPrime(i) < NthPrime(j)
    ensures p <= NthPrime(63) ==> (Prime(p) <==> exists k | 0 <= k < 64 :: NthPrime(k) == p)
  {
    assert NthPrime(63) == 311;
    hide NthPrime, Survives;
    if i < j { InOrder(i, j); }
    if 2 <= p < 312 {
      SurvivesIsPrime(p);
      if Survives(p) { IsListed(p); }
    }
    forall k | 0 <= k < 64 ensures 2 <= NthPrime(k) < 312 && Prime(NthPrime(k)) {
      ListedSurvives(k);
      SurvivesIsPrime(NthPrime(k));
    }
  }

  /** `word` holds the first 32 binary places of the square root of `p`, whose whole part is `whole`. */
  predicate SquareRootPlaces(p: nat, whole: nat, word: bv32) {
    var n := whole * TWO32 + (word as nat);
    n * n <= p * TWO32 * TWO32 < (n + 1) * (n + 1)
  }

  predicate CubeRootPlaces(p: nat, whole: nat, word: bv32) {
    var n := whole * TWO32 + (word as nat);
    n * n * n <= p * TWO32 * TWO32 * TWO32 < (n + 1) * (n + 1) * (n + 1)
  }

  /** `word` is the whole part of the square root of `p` times 2^30. */
  predicate ScaledSquareRoot(p: nat, word: bv32) {
    var n := word as nat;
    n * n <= p * TWO30 * TWO30 < (n + 1) * (n + 1)
  }
}
