/** SHA-256: the compression function of FIPS 180-4 and the unrolled code that computes it. */
module Sha256Spec {
  import opened Bytes
  import opened Words
  import opened Roots

  /** Section 4.2.2 of FIPS 180-4. */
  function K(t: nat): bv32 {
    if t < 8 then
      (match t case 0 => 0x428a2f98 case 1 => 0x71374491 case 2 => 0xb5c0fbcf case 3 => 0xe9b5dba5
             case 4 => 0x3956c25b case 5 => 0x59f111f1 case 6 => 0x923f82a4 case _ => 0xab1c5ed5)
    else if t < 16 then
      (match t case 8 => 0xd807aa98 case 9 => 0x12835b01 case 10 => 0x243185be case 11 => 0x550c7dc3
             case 12 => 0x72be5d74 case 13 => 0x80deb1fe case 14 => 0x9bdc06a7 case _ => 0xc19bf174)
    else if t < 24 then
      (match t case 16 => 0xe49b69c1 case 17 => 0xefbe4786 case 18 => 0x0fc19dc6 case 19 => 0x240ca1cc
             case 20 => 0x2de92c6f case 21 => 0x4a7484aa case 22 => 0x5cb0a9dc case _ => 0x76f988da)
    else if t < 32 then
      (match t case 24 => 0x983e5152 case 25 => 0xa831c66d case 26 => 0xb00327c8 case 27 => 0xbf597fc7
             case 28 => 0xc6e00bf3 case 29 => 0xd5a79147 case 30 => 0x06ca6351 case _ => 0x14292967)
    else if t < 40 then
      (match t case 32 => 0x27b70a85 case 33 => 0x2e1b2138 case 34 => 0x4d2c6dfc case 35 => 0x53380d13
             case 36 => 0x650a7354 case 37 => 0x766a0abb case 38 => 0x81c2c92e case _ => 0x92722c85)
    else if t < 48 then
      (match t case 40 => 0xa2bfe8a1 case 41 => 0xa81a664b case 42 => 0xc24b8b70 case 43 => 0xc76c51a3
             case 44 => 0xd192e819 case 45 => 0xd6990624 case 46 => 0xf40e3585 case _ => 0x106aa070)
    else if t < 56 then
      (match t case 48 => 0x19a4c116 case 49 => 0x1e376c08 case 50 => 0x2748774c case 51 => 0x34b0bcb5
             case 52 => 0x391c0cb3 case 53 => 0x4ed8aa4a case 54 => 0x5b9cca4f case _ => 0x682e6ff3)
    else
      (match t case 56 => 0x748f82ee case 57 => 0x78a5636f case 58 => 0x84c87814 case 59 => 0x8cc70208
             case 60 => 0x90befffa case 61 => 0xa4506ceb case 62 => 0xbef9a3f7 case _ => 0xc67178f2)
  }

  const INITIAL: seq<bv32> := [
    0x6a09e667, 0xbb67ae85, 0x3c6ef372, 0xa54ff53a, 0x510e527f, 0x9b05688c, 0x1f83d9ab, 0x5be0cd19
  ]

  // Where the constants come from, sections 4.2.2 and 5.3.3 of FIPS 180-4.

  /** Each initial word is the fractional part of the square root of a prime, to 32 places. */
  lemma InitialFromSquareRoots(i: nat)
    requires i < 8
    ensures exists whole :: SquareRootPlaces(NthPrime(i), whole, INITIAL[i])
  {
    assert NthPrime(0) == 2 && INITIAL[0] == 0x6a09e667 && SquareRootPlaces(2, 1, 0x6a09e667);
    assert NthPrime(1) == 3 && INITIAL[1] == 0xbb67ae85 && SquareRootPlaces(3, 1, 0xbb67ae85);
    assert NthPrime(2) == 5 && INITIAL[2] == 0x3c6ef372 && SquareRootPlaces(5, 2, 0x3c6ef372);
    assert NthPrime(3) == 7 && INITIAL[3] == 0xa54ff53a && SquareRootPlaces(7, 2, 0xa54ff53a);
    assert NthPrime(4) == 11 && INITIAL[4] == 0x510e527f && SquareRootPlaces(11, 3, 0x510e527f);
    assert NthPrime(5) == 13 && INITIAL[5] == 0x9b05688c && SquareRootPlaces(13, 3, 0x9b05688c);
    assert NthPrime(6) == 17 && INITIAL[6] == 0x1f83d9ab && SquareRootPlaces(17, 4, 0x1f83d9ab);
    assert NthPrime(7) == 19 && INITIAL[7] == 0x5be0cd19 && SquareRootPlaces(19, 4, 0x5be0cd19);
    hide *;
    assert i == 0 || i == 1 || i == 2 || i == 3 || i == 4 || i == 5 || i == 6 || i == 7;
  }

  lemma KFromCubeRoots0(t: nat)
    requires 0 <= t < 8
    ensures exists whole :: CubeRootPlaces(NthPrime(t), whole, K(t))
  {
    assert NthPrime(0) == 2 && K(0) == 0x428a2f98 && CubeRootPlaces(2, 1, 0x428a2f98);
    assert NthPrime(1) == 3 && K(1) == 0x71374491 && CubeRootPlaces(3, 1, 0x71374491);
    assert NthPrime(2) == 5 && K(2) == 0xb5c0fbcf && CubeRootPlaces(5, 1, 0xb5c0fbcf);
    assert NthPrime(3) == 7 && K(3) == 0xe9b5dba5 && CubeRootPlaces(7, 1, 0xe9b5dba5);
    assert NthPrime(4) == 11 && K(4) == 0x3956c25b && CubeRootPlaces(11, 2, 0x3956c25b);
    assert NthPrime(5) == 13 && K(5) == 0x59f111f1 && CubeRootPlaces(13, 2, 0x59f111f1);
    assert NthPrime(6) == 17 && K(6) == 0x923f82a4 && CubeRootPlaces(17, 2, 0x923f82a4);
    assert NthPrime(7) == 19 && K(7) == 0xab1c5ed5 && CubeRootPlaces(19, 2, 0xab1c5ed5);
    hide *;
    assert t == 0 || t == 1 || t == 2 || t == 3 || t == 4 || t == 5 || t == 6 || t == 7;
  }

  lemma KFromCubeRoots1(t: nat)
    requires 8 <= t < 16
    ensures exists whole :: CubeRootPlaces(NthPrime(t), whole, K(t))
  {
    assert NthPrime(8) == 23 && K(8) == 0xd807aa98 && CubeRootPlaces(23, 2, 0xd807aa98);
    assert NthPrime(9) == 29 && K(9) == 0x12835b01 && CubeRootPlaces(29, 3, 0x12835b01);
    assert NthPrime(10) == 31 && K(10) == 0x243185be && CubeRootPlaces(31, 3, 0x243185be);
    assert NthPrime(11) == 37 && K(11) == 0x550c7dc3 && CubeRootPlaces(37, 3, 0x550c7dc3);
    assert NthPrime(12) == 41 && K(12) == 0x72be5d74 && CubeRootPlaces(41, 3, 0x72be5d74);
    assert NthPrime(13) == 43 && K(13) == 0x80deb1fe && CubeRootPlaces(43, 3, 0x80deb1fe);
    assert NthPrime(14) == 47 && K(14) == 0x9bdc06a7 && CubeRootPlaces(47, 3, 0x9bdc06a7);
    assert NthPrime(15) == 53 && K(15) == 0xc19bf174 && CubeRootPlaces(53, 3, 0xc19bf174);
    hide *;
    assert t == 8 || t == 9 || t == 10 || t == 11 || t == 12 || t == 13 || t == 14 || t == 15;
  }

  lemma KFromCubeRoots2(t: nat)
    requires 16 <= t < 24
    ensures exists whole :: CubeRootPlaces(NthPrime(t), whole, K(t))
  {
    assert NthPrime(16) == 59 && K(16) == 0xe49b69c1 && CubeRootPlaces(59, 3, 0xe49b69c1);
    assert NthPrime(17) == 61 && K(17) == 0xefbe4786 && CubeRootPlaces(61, 3, 0xefbe4786);
    assert NthPrime(18) == 67 && K(18) == 0x0fc19dc6 && CubeRootPlaces(67, 4, 0x0fc19dc6);
    assert NthPrime(19) == 71 && K(19) == 0x240ca1cc && CubeRootPlaces(71, 4, 0x240ca1cc);
    assert NthPrime(20) == 73 && K(20) == 0x2de92c6f && CubeRootPlaces(73, 4, 0x2de92c6f);
    assert NthPrime(21) == 79 && K(21) == 0x4a7484aa && CubeRootPlaces(79, 4, 0x4a7484aa);
    assert NthPrime(22) == 83 && K(22) == 0x5cb0a9dc && CubeRootPlaces(83, 4, 0x5cb0a9dc);
    assert NthPrime(23) == 89 && K(23) == 0x76f988da && CubeRootPlaces(89, 4, 0x76f988da);
    hide *;
    assert t == 16 || t == 17 || t == 18 || t == 19 || t == 20 || t == 21 || t == 22 || t == 23;
  }

  lemma KFromCubeRoots3(t: nat)
    requires 24 <= t < 32
    ensures exists whole :: CubeRootPlaces(NthPrime(t), whole, K(t))
  {
    assert NthPrime(24) == 97 && K(24) == 0x983e5152 && CubeRootPlaces(97, 4, 0x983e5152);
    assert NthPrime(25) == 101 && K(25) == 0xa831c66d && CubeRootPlaces(101, 4, 0xa831c66d);
    assert NthPrime(26) == 103 && K(26) == 0xb00327c8 && CubeRootPlaces(103, 4, 0xb00327c8);
    assert NthPrime(27) == 107 && K(27) == 0xbf597fc7 && CubeRootPlaces(107, 4, 0xbf597fc7);
    assert NthPrime(28) == 109 && K(28) == 0xc6e00bf3 && CubeRootPlaces(109, 4, 0xc6e00bf3);
    assert NthPrime(29) == 113 && K(29) == 0xd5a79147 && CubeRootPlaces(113, 4, 0xd5a79147);
    assert NthPrime(30) == 127 && K(30) == 0x06ca6351 && CubeRootPlaces(127, 5, 0x06ca6351);
    assert NthPrime(31) == 131 && K(31) == 0x14292967 && CubeRootPlaces(131, 5, 0x14292967);
    hide *;
    assert t == 24 || t == 25 || t == 26 || t == 27 || t == 28 || t == 29 || t == 30 || t == 31;
  }

  lemma KFromCubeRoots4(t: nat)
    requires 32 <= t < 40
    ensures exists whole :: CubeRootPlaces(NthPrime(t), whole, K(t))
  {
    assert NthPrime(32) == 137 && K(32) == 0x27b70a85 && CubeRootPlaces(137, 5, 0x27b70a85);
    assert NthPrime(33) == 139 && K(33) == 0x2e1b2138 && CubeRootPlaces(139, 5, 0x2e1b2138);
    assert NthPrime(34) == 149 && K(34) == 0x4d2c6dfc && CubeRootPlaces(149, 5, 0x4d2c6dfc);
    assert NthPrime(35) == 151 && K(35) == 0x53380d13 && CubeRootPlaces(151, 5, 0x53380d13);
    assert NthPrime(36) == 157 && K(36) == 0x650a7354 && CubeRootPlaces(157, 5, 0x650a7354);
    assert NthPrime(37) == 163 && K(37) == 0x766a0abb && CubeRootPlaces(163, 5, 0x766a0abb);
    assert NthPrime(38) == 167 && K(38) == 0x81c2c92e && CubeRootPlaces(167, 5, 0x81c2c92e);
    assert NthPrime(39) == 173 && K(39) == 0x92722c85 && CubeRootPlaces(173, 5, 0x92722c85);
    hide *;
    assert t == 32 || t == 33 || t == 34 || t == 35 || t == 36 || t == 37 || t == 38 || t == 39;
  }

  lemma KFromCubeRoots5(t: nat)
    requires 40 <= t < 48
    ensures exists whole :: CubeRootPlaces(NthPrime(t), whole, K(t))
  {
    assert NthPrime(40) == 179 && K(40) == 0xa2bfe8a1 && CubeRootPlaces(179, 5, 0xa2bfe8a1);
    assert NthPrime(41) == 181 && K(41) == 0xa81a664b && CubeRootPlaces(181, 5, 0xa81a664b);
    assert NthPrime(42) == 191 && K(42) == 0xc24b8b70 && CubeRootPlaces(191, 5, 0xc24b8b70);
    assert NthPrime(43) == 193 && K(43) == 0xc76c51a3 && CubeRootPlaces(193, 5, 0xc76c51a3);
    assert NthPrime(44) == 197 && K(44) == 0xd192e819 && CubeRootPlaces(197, 5, 0xd192e819);
    assert NthPrime(45) == 199 && K(45) == 0xd6990624 && CubeRootPlaces(199, 5, 0xd6990624);
    assert NthPrime(46) == 211 && K(46) == 0xf40e3585 && CubeRootPlaces(211, 5, 0xf40e3585);
    assert NthPrime(47) == 223 && K(47) == 0x106aa070 && CubeRootPlaces(223, 6, 0x106aa070);
    hide *;
    assert t == 40 || t == 41 || t == 42 || t == 43 || t == 44 || t == 45 || t == 46 || t == 47;
  }

  lemma KFromCubeRoots6(t: nat)
    requires 48 <= t < 56
    ensures exists whole :: CubeRootPlaces(NthPrime(t), whole, K(t))
  {
    assert NthPrime(48) == 227 && K(48) == 0x19a4c116 && CubeRootPlaces(227, 6, 0x19a4c116);
    assert NthPrime(49) == 229 && K(49) == 0x1e376c08 && CubeRootPlaces(229, 6, 0x1e376c08);
    assert NthPrime(50) == 233 && K(50) == 0x2748774c && CubeRootPlaces(233, 6, 0x2748774c);
    assert NthPrime(51) == 239 && K(51) == 0x34b0bcb5 && CubeRootPlaces(239, 6, 0x34b0bcb5);
    assert NthPrime(52) == 241 && K(52) == 0x391c0cb3 && CubeRootPlaces(241, 6, 0x391c0cb3);
    assert NthPrime(53) == 251 && K(53) == 0x4ed8aa4a && CubeRootPlaces(251, 6, 0x4ed8aa4a);
    assert NthPrime(54) == 257 && K(54) == 0x5b9cca4f && CubeRootPlaces(257, 6, 0x5b9cca4f);
    assert NthPrime(55) == 263 && K(55) == 0x682e6ff3 && CubeRootPlaces(263, 6, 0x682e6ff3);
    hide *;
    assert t == 48 || t == 49 || t == 50 || t == 51 || t == 52 || t == 53 || t == 54 || t == 55;
  }

  lemma KFromCubeRoots7(t: nat)
    requires 56 <= t < 64
    ensures exists whole :: CubeRootPlaces(NthPrime(t), whole, K(t))
  {
    assert NthPrime(56) == 269 && K(56) == 0x748f82ee && CubeRootPlaces(269, 6, 0x748f82ee);
    assert NthPrime(57) == 271 && K(57) == 0x78a5636f && CubeRootPlaces(271, 6, 0x78a5636f);
    assert NthPrime(58) == 277 && K(58) == 0x84c87814 && CubeRootPlaces(277, 6, 0x84c87814);
    assert NthPrime(59) == 281 && K(59) == 0x8cc70208 && CubeRootPlaces(281, 6, 0x8cc70208);
    assert NthPrime(60) == 283 && K(60) == 0x90befffa && CubeRootPlaces(283, 6, 0x90befffa);
    assert NthPrime(61) == 293 && K(61) == 0xa4506ceb && CubeRootPlaces(293, 6, 0xa4506ceb);
    assert NthPrime(62) == 307 && K(62) == 0xbef9a3f7 && CubeRootPlaces(307, 6, 0xbef9a3f7);
    assert NthPrime(63) == 311 && K(63) == 0xc67178f2 && CubeRootPlaces(311, 6, 0xc67178f2);
    hide *;
    assert t == 56 || t == 57 || t == 58 || t == 59 || t == 60 || t == 61 || t == 62 || t == 63;
  }

  /** Each round constant is the fractional part of the cube root of a prime, to 32 places. */
  lemma KFromCubeRoots(t: nat)
    requires t < 64
    ensures exists whole :: CubeRootPlaces(NthPrime(t), whole, K(t))
  {
    hide *;
    if t < 8 {
      KFromCubeRoots0(t);
    } else if t < 16 {
      KFromCubeRoots1(t);
    } else if t < 24 {
      KFromCubeRoots2(t);
    } else if t < 32 {
      KFromCubeRoots3(t);
    } else if t < 40 {
      KFromCubeRoots4(t);
    } else if t < 48 {
      KFromCubeRoots5(t);
    } else if t < 56 {
      KFromCubeRoots6(t);
    } else {
      KFromCubeRoots7(t);
    }
  }

  // Section 4.1.2 of FIPS 180-4.

  function Ch(x: bv32, y: bv32, z: bv32): bv32 { Xor(And(x, y), And(Not(x), z)) }

  function Maj(x: bv32, y: bv32, z: bv32): bv32 { Xor(Xor(And(x, y), And(x, z)), And(y, z)) }

  function BigSigma0(x: bv32): bv32 { Xor(Xor(RotR(x, 2), RotR(x, 13)), RotR(x, 22)) }

  function BigSigma1(x: bv32): bv32 { Xor(Xor(RotR(x, 6), RotR(x, 11)), RotR(x, 25)) }

  function SmallSigma0(x: bv32): bv32 { Xor(Xor(RotR(x, 7), RotR(x, 18)), Shr(x, 3)) }

  function SmallSigma1(x: bv32): bv32 { Xor(Xor(RotR(x, 17), RotR(x, 19)), Shr(x, 10)) }

  // Section 6.2.2 of FIPS 180-4, sums of several terms in the order given there.

  /** Word `t` of the message schedule of a 64-byte block. */
  function W(block: seq<byte>, t: nat): bv32
    requires |block| == 64
  {
    if t < 16 then BigEndian(block[4 * t..4 * t + 4])
    else Add(Add(Add(SmallSigma1(W(block, t - 2)), W(block, t - 7)), SmallSigma0(W(block, t - 15))), W(block, t - 16))
  }

  datatype Vars = Vars(a: bv32, b: bv32, c: bv32, d: bv32, e: bv32, f: bv32, g: bv32, h: bv32)

  function Round(v: Vars, k: bv32, w: bv32): Vars {
    var t1 := Add(Add(Add(Add(v.h, BigSigma1(v.e)), Ch(v.e, v.f, v.g)), k), w);
    var t2 := Add(BigSigma0(v.a), Maj(v.a, v.b, v.c));
    Vars(Add(t1, t2), v.a, v.b, v.c, Add(v.d, t1), v.e, v.f, v.g)
  }

  /** Rounds `t` to `t + n - 1`. */
  function Rounds(v: Vars, block: seq<byte>, t: nat, n: nat): Vars
    requires |block| == 64 && t + n <= 64
    decreases n
  {
    if n == 0 then v else Rounds(Round(v, K(t), W(block, t)), block, t + 1, n - 1)
  }

  function Sums(v: Vars, h: seq<bv32>): (r: seq<bv32>)
    requires |h| == 8
    ensures |r| == 8
  {
    [Add(v.a, h[0]), Add(v.b, h[1]), Add(v.c, h[2]), Add(v.d, h[3]),
     Add(v.e, h[4]), Add(v.f, h[5]), Add(v.g, h[6]), Add(v.h, h[7])]
  }

  function Compress(h: seq<bv32>, block: seq<byte>): (r: seq<bv32>)
    requires |h| == 8 && |block| == 64
    ensures |r| == 8
  {
    var v := Rounds(Vars(h[0], h[1], h[2], h[3], h[4], h[5], h[6], h[7]), block, 0, 64);
    Sums(v, h)
  }

  lemma {:induction false} RoundsSplit(v: Vars, block: seq<byte>, t: nat, m: nat, n: nat)
    requires |block| == 64 && t + m + n <= 64
    ensures Rounds(v, block, t, m + n) == Rounds(Rounds(v, block, t, m), block, t + m, n)
    decreases m
  {
    hide Round, W, K;
    if m > 0 {
      RoundsSplit(Round(v, K(t), W(block, t)), block, t + 1, m - 1, n);
    }
  }

  lemma {:induction false} EightRounds(v: Vars, block: seq<byte>, t: nat)
    requires |block| == 64 && t + 8 <= 64
    ensures
      var v1 := Round(v, K(t), W(block, t));
      var v2 := Round(v1, K(t + 1), W(block, t + 1));
      var v3 := Round(v2, K(t + 2), W(block, t + 2));
      var v4 := Round(v3, K(t + 3), W(block, t + 3));
      var v5 := Round(v4, K(t + 4), W(block, t + 4));
      var v6 := Round(v5, K(t + 5), W(block, t + 5));
      var v7 := Round(v6, K(t + 6), W(block, t + 6));
      Rounds(v, block, t, 8) == Round(v7, K(t + 7), W(block, t + 7))
  {
    hide Round, W, K;
    RoundsSplit(v, block, t, 2, 6);
    RoundsSplit(Rounds(v, block, t, 2), block, t + 2, 2, 4);
    RoundsSplit(Rounds(v, block, t, 4), block, t + 4, 2, 2);
  }
}

/** The code of the SHA-256 block function. */
module Sha256 {
  import opened Bytes
  import opened Words
  import opened Sha256Spec

  function F1(e: bv32, f: bv32, g: bv32): bv32 {
    var term1 := Xor(Xor(RotR(e, 6), RotR(e, 11)), RotR(e, 25));
    var term2 := Xor(And(e, f), And(Not(e), g));
    Add(term1, term2)
  }

  function F2(a: bv32, b: bv32, c: bv32): bv32 {
    var term1 := Xor(Xor(RotR(a, 2), RotR(a, 13)), RotR(a, 22));
    var term2 := Or(And(Or(a, b), c), And(a, b));
    Add(term1, term2)
  }

  lemma MajorityBits(a: bv32, b: bv32, c: bv32)
    ensures ((a | b) & c) | (a & b) == (a & b) ^ (a & c) ^ (b & c)
  {
  }

  lemma MajorityOrSide(a: bv32, b: bv32, c: bv32)
    ensures Or(And(Or(a, b), c), And(a, b)) == ((a | b) & c) | (a & b)
  {
  }

  lemma MajorityXorSide(a: bv32, b: bv32, c: bv32)
    ensures Maj(a, b, c) == (a & b) ^ (a & c) ^ (b & c)
  {
  }

  lemma MajorityByOr(a: bv32, b: bv32, c: bv32)
    ensures Or(And(Or(a, b), c), And(a, b)) == Maj(a, b, c)
  {
    hide *;
    MajorityBits(a, b, c);
    MajorityOrSide(a, b, c);
    MajorityXorSide(a, b, c);
  }

  /** The mixing functions are the sums of FIPS 180-4, the majority written with two ors. */
  lemma MixingFunctions(x: bv32, y: bv32, z: bv32)
    ensures F1(x, y, z) == Add(BigSigma1(x), Ch(x, y, z))
    ensures F2(x, y, z) == Add(BigSigma0(x), Maj(x, y, z))
  {
    MajorityByOr(x, y, z);
    hide Add, Xor, And, Or, Not, RotR, Maj;
  }

  /** One line of the unrolled code, for whichever registers play a to h, is one round. */
  lemma LineIsRound(v: Vars, k: bv32, w: bv32)
    ensures
      var x := Add(Add(Add(v.h, F1(v.e, v.f, v.g)), k), w);
      var y := F2(v.a, v.b, v.c);
      Round(v, k, w) == Vars(Add(x, y), v.a, v.b, v.c, Add(v.d, x), v.e, v.f, v.g)
  {
    hide Add, Xor, And, Or, Not, RotR, Maj, BigSigma0, BigSigma1, Ch, F1, F2;
    MixingFunctions(v.e, v.f, v.g);
    MixingFunctions(v.a, v.b, v.c);
    AddAssoc(v.h, BigSigma1(v.e), Ch(v.e, v.f, v.g));
  }

  /** Words 0 to `hi - 1` of the schedule are in place. */
  ghost predicate Scheduled(words: array<bv32>, block: seq<byte>, hi: nat)
    reads words
  {
    |block| == 64 && words.Length == 64 && hi <= 64 && forall j | 0 <= j < hi :: words[j] == W(block, j)
  }

  lemma EightWords(words: array<bv32>, block: seq<byte>, hi: nat, t: nat)
    requires Scheduled(words, block, hi) && t + 8 <= hi
    ensures |block| == 64 == words.Length && t + 8 <= 64
    ensures words[t] == W(block, t) && words[t + 1] == W(block, t + 1)
    ensures words[t + 2] == W(block, t + 2) && words[t + 3] == W(block, t + 3)
    ensures words[t + 4] == W(block, t + 4) && words[t + 5] == W(block, t + 5)
    ensures words[t + 6] == W(block, t + 6) && words[t + 7] == W(block, t + 7)
  {
    hide W;
  }

  lemma FirstConstants()
    ensures K(0) == 0x428a2f98 && K(1) == 0x71374491 && K(2) == 0xb5c0fbcf && K(3) == 0xe9b5dba5
    ensures K(4) == 0x3956c25b && K(5) == 0x59f111f1 && K(6) == 0x923f82a4 && K(7) == 0xab1c5ed5
  {
  }

  method FirstRound(v: Vars, words: array<bv32>, ghost block: seq<byte>) returns (r: Vars)
    requires |block| == 64 && Scheduled(words, block, 16)
    ensures r == Rounds(v, block, 0, 8)
  {
    hide *;
    EightRounds(v, block, 0);
    EightWords(words, block, 16, 0);
    FirstConstants();
    var a, b, c, d, e, f, g, h := v.a, v.b, v.c, v.d, v.e, v.f, v.g, v.h;
    var x, y;
    LineIsRound(Vars(a, b, c, d, e, f, g, h), 0x428a2f98, words[0]);
    x := Add(Add(Add(h, F1(e, f, g)), 0x428a2f98), words[0]); y := F2(a, b, c); d := Add(d, x); h := Add(x, y);
    LineIsRound(Vars(h, a, b, c, d, e, f, g), 0x71374491, words[1]);
    x := Add(Add(Add(g, F1(d, e, f)), 0x71374491), words[1]); y := F2(h, a, b); c := Add(c, x); g := Add(x, y);
    LineIsRound(Vars(g, h, a, b, c, d, e, f), 0xb5c0fbcf, words[2]);
    x := Add(Add(Add(f, F1(c, d, e)), 0xb5c0fbcf), words[2]); y := F2(g, h, a); b := Add(b, x); f := Add(x, y);
    LineIsRound(Vars(f, g, h, a, b, c, d, e), 0xe9b5dba5, words[3]);
    x := Add(Add(Add(e, F1(b, c, d)), 0xe9b5dba5), words[3]); y := F2(f, g, h); a := Add(a, x); e := Add(x, y);
    LineIsRound(Vars(e, f, g, h, a, b, c, d), 0x3956c25b, words[4]);
    x := Add(Add(Add(d, F1(a, b, c)), 0x3956c25b), words[4]); y := F2(e, f, g); h := Add(h, x); d := Add(x, y);
    LineIsRound(Vars(d, e, f, g, h, a, b, c), 0x59f111f1, words[5]);
    x := Add(Add(Add(c, F1(h, a, b)), 0x59f111f1), words[5]); y := F2(d, e, f); g := Add(g, x); c := Add(x, y);
    LineIsRound(Vars(c, d, e, f, g, h, a, b), 0x923f82a4, words[6]);
    x := Add(Add(Add(b, F1(g, h, a)), 0x923f82a4), words[6]); y := F2(c, d, e); f := Add(f, x); b := Add(x, y);
    LineIsRound(Vars(b, c, d, e, f, g, h, a), 0xab1c5ed5, words[7]);
    x := Add(Add(Add(a, F1(f, g, h)), 0xab1c5ed5), words[7]); y := F2(b, c, d); e := Add(e, x); a := Add(x, y);
    r := Vars(a, b, c, d, e, f, g, h);
  }

  lemma SecondConstants()
    ensures K(8) == 0xd807aa98 && K(9) == 0x12835b01 && K(10) == 0x243185be && K(11) == 0x550c7dc3
    ensures K(12) == 0x72be5d74 && K(13) == 0x80deb1fe && K(14) == 0x9bdc06a7 && K(15) == 0xc19bf174
  {
  }

  method SecondRound(v: Vars, words: array<bv32>, ghost block: seq<byte>) returns (r: Vars)
    requires |block| == 64 && Scheduled(words, block, 16)
    ensures r == Rounds(v, block, 8, 8)
  {
    hide *;
    EightRounds(v, block, 8);
    EightWords(words, block, 16, 8);
    SecondConstants();
    var a, b, c, d, e, f, g, h := v.a, v.b, v.c, v.d, v.e, v.f, v.g, v.h;
    var x, y;
    LineIsRound(Vars(a, b, c, d, e, f, g, h), 0xd807aa98, words[8]);
    x := Add(Add(Add(h, F1(e, f, g)), 0xd807aa98), words[8]); y := F2(a, b, c); d := Add(d, x); h := Add(x, y);
    LineIsRound(Vars(h, a, b, c, d, e, f, g), 0x12835b01, words[9]);
    x := Add(Add(Add(g, F1(d, e, f)), 0x12835b01), words[9]); y := F2(h, a, b); c := Add(c, x); g := Add(x, y);
    LineIsRound(Vars(g, h, a, b, c, d, e, f), 0x243185be, words[10]);
    x := Add(Add(Add(f, F1(c, d, e)), 0x243185be), words[10]); y := F2(g, h, a); b := Add(b, x); f := Add(x, y);
    LineIsRound(Vars(f, g, h, a, b, c, d, e), 0x550c7dc3, words[11]);
    x := Add(Add(Add(e, F1(b, c, d)), 0x550c7dc3), words[11]); y := F2(f, g, h); a := Add(a, x); e := Add(x, y);
    LineIsRound(Vars(e, f, g, h, a, b, c, d), 0x72be5d74, words[12]);
    x := Add(Add(Add(d, F1(a, b, c)), 0x72be5d74), words[12]); y := F2(e, f, g); h := Add(h, x); d := Add(x, y);
    LineIsRound(Vars(d, e, f, g, h, a, b, c), 0x80deb1fe, words[13]);
    x := Add(Add(Add(c, F1(h, a, b)), 0x80deb1fe), words[13]); y := F2(d, e, f); g := Add(g, x); c := Add(x, y);
    LineIsRound(Vars(c, d, e, f, g, h, a, b), 0x9bdc06a7, words[14]);
    x := Add(Add(Add(b, F1(g, h, a)), 0x9bdc06a7), words[14]); y := F2(c, d, e); f := Add(f, x); b := Add(x, y);
    LineIsRound(Vars(b, c, d, e, f, g, h, a), 0xc19bf174, words[15]);
    x := Add(Add(Add(a, F1(f, g, h)), 0xc19bf174), words[15]); y := F2(b, c, d); e := Add(e, x); a := Add(x, y);
    r := Vars(a, b, c, d, e, f, g, h);
  }

  lemma ThirdConstants()
    ensures K(16) == 0xe49b69c1 && K(17) == 0xefbe4786 && K(18) == 0x0fc19dc6 && K(19) == 0x240ca1cc
    ensures K(20) == 0x2de92c6f && K(21) == 0x4a7484aa && K(22) == 0x5cb0a9dc && K(23) == 0x76f988da
  {
  }

  method ThirdRound(v: Vars, words: array<bv32>, ghost block: seq<byte>) returns (r: Vars)
    requires |block| == 64 && Scheduled(words, block, 24)
    ensures r == Rounds(v, block, 16, 8)
  {
    hide *;
    EightRounds(v, block, 16);
    EightWords(words, block, 24, 16);
    ThirdConstants();
    var a, b, c, d, e, f, g, h := v.a, v.b, v.c, v.d, v.e, v.f, v.g, v.h;
    var x, y;
    LineIsRound(Vars(a, b, c, d, e, f, g, h), 0xe49b69c1, words[16]);
    x := Add(Add(Add(h, F1(e, f, g)), 0xe49b69c1), words[16]); y := F2(a, b, c); d := Add(d, x); h := Add(x, y);
    LineIsRound(Vars(h, a, b, c, d, e, f, g), 0xefbe4786, words[17]);
    x := Add(Add(Add(g, F1(d, e, f)), 0xefbe4786), words[17]); y := F2(h, a, b); c := Add(c, x); g := Add(x, y);
    LineIsRound(Vars(g, h, a, b, c, d, e, f), 0x0fc19dc6, words[18]);
    x := Add(Add(Add(f, F1(c, d, e)), 0x0fc19dc6), words[18]); y := F2(g, h, a); b := Add(b, x); f := Add(x, y);
    LineIsRound(Vars(f, g, h, a, b, c, d, e), 0x240ca1cc, words[19]);
    x := Add(Add(Add(e, F1(b, c, d)), 0x240ca1cc), words[19]); y := F2(f, g, h); a := Add(a, x); e := Add(x, y);
    LineIsRound(Vars(e, f, g, h, a, b, c, d), 0x2de92c6f, words[20]);
    x := Add(Add(Add(d, F1(a, b, c)), 0x2de92c6f), words[20]); y := F2(e, f, g); h := Add(h, x); d := Add(x, y);
    LineIsRound(Vars(d, e, f, g, h, a, b, c), 0x4a7484aa, words[21]);
    x := Add(Add(Add(c, F1(h, a, b)), 0x4a7484aa), words[21]); y := F2(d, e, f); g := Add(g, x); c := Add(x, y);
    LineIsRound(Vars(c, d, e, f, g, h, a, b), 0x5cb0a9dc, words[22]);
    x := Add(Add(Add(b, F1(g, h, a)), 0x5cb0a9dc), words[22]); y := F2(c, d, e); f := Add(f, x); b := Add(x, y);
    LineIsRound(Vars(b, c, d, e, f, g, h, a), 0x76f988da, words[23]);
    x := Add(Add(Add(a, F1(f, g, h)), 0x76f988da), words[23]); y := F2(b, c, d); e := Add(e, x); a := Add(x, y);
    r := Vars(a, b, c, d, e, f, g, h);
  }

  lemma FourthConstants()
    ensures K(24) == 0x983e5152 && K(25) == 0xa831c66d && K(26) == 0xb00327c8 && K(27) == 0xbf597fc7
    ensures K(28) == 0xc6e00bf3 && K(29) == 0xd5a79147 && K(30) == 0x06ca6351 && K(31) == 0x14292967
  {
  }

  method FourthRound(v: Vars, words: array<bv32>, ghost block: seq<byte>) returns (r: Vars)
    requires |block| == 64 && Scheduled(words, block, 32)
    ensures r == Rounds(v, block, 24, 8)
  {
    hide *;
    EightRounds(v, block, 24);
    EightWords(words, block, 32, 24);
    FourthConstants();
    var a, b, c, d, e, f, g, h := v.a, v.b, v.c, v.d, v.e, v.f, v.g, v.h;
    var x, y;
    LineIsRound(Vars(a, b, c, d, e, f, g, h), 0x983e5152, words[24]);
    x := Add(Add(Add(h, F1(e, f, g)), 0x983e5152), words[24]); y := F2(a, b, c); d := Add(d, x); h := Add(x, y);
    LineIsRound(Vars(h, a, b, c, d, e, f, g), 0xa831c66d, words[25]);
    x := Add(Add(Add(g, F1(d, e, f)), 0xa831c66d), words[25]); y := F2(h, a, b); c := Add(c, x); g := Add(x, y);
    LineIsRound(Vars(g, h, a, b, c, d, e, f), 0xb00327c8, words[26]);
    x := Add(Add(Add(f, F1(c, d, e)), 0xb00327c8), words[26]); y := F2(g, h, a); b := Add(b, x); f := Add(x, y);
    LineIsRound(Vars(f, g, h, a, b, c, d, e), 0xbf597fc7, words[27]);
    x := Add(Add(Add(e, F1(b, c, d)), 0xbf597fc7), words[27]); y := F2(f, g, h); a := Add(a, x); e := Add(x, y);
    LineIsRound(Vars(e, f, g, h, a, b, c, d), 0xc6e00bf3, words[28]);
    x := Add(Add(Add(d, F1(a, b, c)), 0xc6e00bf3), words[28]); y := F2(e, f, g); h := Add(h, x); d := Add(x, y);
    LineIsRound(Vars(d, e, f, g, h, a, b, c), 0xd5a79147, words[29]);
    x := Add(Add(Add(c, F1(h, a, b)), 0xd5a79147), words[29]); y := F2(d, e, f); g := Add(g, x); c := Add(x, y);
    LineIsRound(Vars(c, d, e, f, g, h, a, b), 0x06ca6351, words[30]);
    x := Add(Add(Add(b, F1(g, h, a)), 0x06ca6351), words[30]); y := F2(c, d, e); f := Add(f, x); b := Add(x, y);
    LineIsRound(Vars(b, c, d, e, f, g, h, a), 0x14292967, words[31]);
    x := Add(Add(Add(a, F1(f, g, h)), 0x14292967), words[31]); y := F2(b, c, d); e := Add(e, x); a := Add(x, y);
    r := Vars(a, b, c, d, e, f, g, h);
  }

  lemma FifthConstants()
    ensures K(32) == 0x27b70a85 && K(33) == 0x2e1b2138 && K(34) == 0x4d2c6dfc && K(35) == 0x53380d13
    ensures K(36) == 0x650a7354 && K(37) == 0x766a0abb && K(38) == 0x81c2c92e && K(39) == 0x92722c85
  {
  }

  method FifthRound(v: Vars, words: array<bv32>, ghost block: seq<byte>) returns (r: Vars)
    requires |block| == 64 && Scheduled(words, block, 40)
    ensures r == Rounds(v, block, 32, 8)
  {
    hide *;
    EightRounds(v, block, 32);
    EightWords(words, block, 40, 32);
    FifthConstants();
    var a, b, c, d, e, f, g, h := v.a, v.b, v.c, v.d, v.e, v.f, v.g, v.h;
    var x, y;
    LineIsRound(Vars(a, b, c, d, e, f, g, h), 0x27b70a85, words[32]);
    x := Add(Add(Add(h, F1(e, f, g)), 0x27b70a85), words[32]); y := F2(a, b, c); d := Add(d, x); h := Add(x, y);
    LineIsRound(Vars(h, a, b, c, d, e, f, g), 0x2e1b2138, words[33]);
    x := Add(Add(Add(g, F1(d, e, f)), 0x2e1b2138), words[33]); y := F2(h, a, b); c := Add(c, x); g := Add(x, y);
    LineIsRound(Vars(g, h, a, b, c, d, e, f), 0x4d2c6dfc, words[34]);
    x := Add(Add(Add(f, F1(c, d, e)), 0x4d2c6dfc), words[34]); y := F2(g, h, a); b := Add(b, x); f := Add(x, y);
    LineIsRound(Vars(f, g, h, a, b, c, d, e), 0x53380d13, words[35]);
    x := Add(Add(Add(e, F1(b, c, d)), 0x53380d13), words[35]); y := F2(f, g, h); a := Add(a, x); e := Add(x, y);
    LineIsRound(Vars(e, f, g, h, a, b, c, d), 0x650a7354, words[36]);
    x := Add(Add(Add(d, F1(a, b, c)), 0x650a7354), words[36]); y := F2(e, f, g); h := Add(h, x); d := Add(x, y);
    LineIsRound(Vars(d, e, f, g, h, a, b, c), 0x766a0abb, words[37]);
    x := Add(Add(Add(c, F1(h, a, b)), 0x766a0abb), words[37]); y := F2(d, e, f); g := Add(g, x); c := Add(x, y);
    LineIsRound(Vars(c, d, e, f, g, h, a, b), 0x81c2c92e, words[38]);
    x := Add(Add(Add(b, F1(g, h, a)), 0x81c2c92e), words[38]); y := F2(c, d, e); f := Add(f, x); b := Add(x, y);
    LineIsRound(Vars(b, c, d, e, f, g, h, a), 0x92722c85, words[39]);
    x := Add(Add(Add(a, F1(f, g, h)), 0x92722c85), words[39]); y := F2(b, c, d); e := Add(e, x); a := Add(x, y);
    r := Vars(a, b, c, d, e, f, g, h);
  }

  lemma SixthConstants()
    ensures K(40) == 0xa2bfe8a1 && K(41) == 0xa81a664b && K(42) == 0xc24b8b70 && K(43) == 0xc76c51a3
    ensures K(44) == 0xd192e819 && K(45) == 0xd6990624 && K(46) == 0xf40e3585 && K(47) == 0x106aa070
  {
  }

  method SixthRound(v: Vars, words: array<bv32>, ghost block: seq<byte>) returns (r: Vars)
    requires |block| == 64 && Scheduled(words, block, 48)
    ensures r == Rounds(v, block, 40, 8)
  {
    hide *;
    EightRounds(v, block, 40);
    EightWords(words, block, 48, 40);
    SixthConstants();
    var a, b, c, d, e, f, g, h := v.a, v.b, v.c, v.d, v.e, v.f, v.g, v.h;
    var x, y;
    LineIsRound(Vars(a, b, c, d, e, f, g, h), 0xa2bfe8a1, words[40]);
    x := Add(Add(Add(h, F1(e, f, g)), 0xa2bfe8a1), words[40]); y := F2(a, b, c); d := Add(d, x); h := Add(x, y);
    LineIsRound(Vars(h, a, b, c, d, e, f, g), 0xa81a664b, words[41]);
    x := Add(Add(Add(g, F1(d, e, f)), 0xa81a664b), words[41]); y := F2(h, a, b); c := Add(c, x); g := Add(x, y);
    LineIsRound(Vars(g, h, a, b, c, d, e, f), 0xc24b8b70, words[42]);
    x := Add(Add(Add(f, F1(c, d, e)), 0xc24b8b70), words[42]); y := F2(g, h, a); b := Add(b, x); f := Add(x, y);
    LineIsRound(Vars(f, g, h, a, b, c, d, e), 0xc76c51a3, words[43]);
    x := Add(Add(Add(e, F1(b, c, d)), 0xc76c51a3), words[43]); y := F2(f, g, h); a := Add(a, x); e := Add(x, y);
    LineIsRound(Vars(e, f, g, h, a, b, c, d), 0xd192e819, words[44]);
    x := Add(Add(Add(d, F1(a, b, c)), 0xd192e819), words[44]); y := F2(e, f, g); h := Add(h, x); d := Add(x, y);
    LineIsRound(Vars(d, e, f, g, h, a, b, c), 0xd6990624, words[45]);
    x := Add(Add(Add(c, F1(h, a, b)), 0xd6990624), words[45]); y := F2(d, e, f); g := Add(g, x); c := Add(x, y);
    LineIsRound(Vars(c, d, e, f, g, h, a, b), 0xf40e3585, words[46]);
    x := Add(Add(Add(b, F1(g, h, a)), 0xf40e3585), words[46]); y := F2(c, d, e); f := Add(f, x); b := Add(x, y);
    LineIsRound(Vars(b, c, d, e, f, g, h, a), 0x106aa070, words[47]);
    x := Add(Add(Add(a, F1(f, g, h)), 0x106aa070), words[47]); y := F2(b, c, d); e := Add(e, x); a := Add(x, y);
    r := Vars(a, b, c, d, e, f, g, h);
  }

  lemma SeventhConstants()
    ensures K(48) == 0x19a4c116 && K(49) == 0x1e376c08 && K(50) == 0x2748774c && K(51) == 0x34b0bcb5
    ensures K(52) == 0x391c0cb3 && K(53) == 0x4ed8aa4a && K(54) == 0x5b9cca4f && K(55) == 0x682e6ff3
  {
  }

  method SeventhRound(v: Vars, words: array<bv32>, ghost block: seq<byte>) returns (r: Vars)
    requires |block| == 64 && Scheduled(words, block, 56)
    ensures r == Rounds(v, block, 48, 8)
  {
    hide *;
    EightRounds(v, block, 48);
    EightWords(words, block, 56, 48);
    SeventhConstants();
    var a, b, c, d, e, f, g, h := v.a, v.b, v.c, v.d, v.e, v.f, v.g, v.h;
    var x, y;
    LineIsRound(Vars(a, b, c, d, e, f, g, h), 0x19a4c116, words[48]);
    x := Add(Add(Add(h, F1(e, f, g)), 0x19a4c116), words[48]); y := F2(a, b, c); d := Add(d, x); h := Add(x, y);
    LineIsRound(Vars(h, a, b, c, d, e, f, g), 0x1e376c08, words[49]);
    x := Add(Add(Add(g, F1(d, e, f)), 0x1e376c08), words[49]); y := F2(h, a, b); c := Add(c, x); g := Add(x, y);
    LineIsRound(Vars(g, h, a, b, c, d, e, f), 0x2748774c, words[50]);
    x := Add(Add(Add(f, F1(c, d, e)), 0x2748774c), words[50]); y := F2(g, h, a); b := Add(b, x); f := Add(x, y);
    LineIsRound(Vars(f, g, h, a, b, c, d, e), 0x34b0bcb5, words[51]);
    x := Add(Add(Add(e, F1(b, c, d)), 0x34b0bcb5), words[51]); y := F2(f, g, h); a := Add(a, x); e := Add(x, y);
    LineIsRound(Vars(e, f, g, h, a, b, c, d), 0x391c0cb3, words[52]);
    x := Add(Add(Add(d, F1(a, b, c)), 0x391c0cb3), words[52]); y := F2(e, f, g); h := Add(h, x); d := Add(x, y);
    LineIsRound(Vars(d, e, f, g, h, a, b, c), 0x4ed8aa4a, words[53]);
    x := Add(Add(Add(c, F1(h, a, b)), 0x4ed8aa4a), words[53]); y := F2(d, e, f); g := Add(g, x); c := Add(x, y);
    LineIsRound(Vars(c, d, e, f, g, h, a, b), 0x5b9cca4f, words[54]);
    x := Add(Add(Add(b, F1(g, h, a)), 0x5b9cca4f), words[54]); y := F2(c, d, e); f := Add(f, x); b := Add(x, y);
    LineIsRound(Vars(b, c, d, e, f, g, h, a), 0x682e6ff3, words[55]);
    x := Add(Add(Add(a, F1(f, g, h)), 0x682e6ff3), words[55]); y := F2(b, c, d); e := Add(e, x); a := Add(x, y);
    r := Vars(a, b, c, d, e, f, g, h);
  }

  lemma EighthConstants()
    ensures K(56) == 0x748f82ee && K(57) == 0x78a5636f && K(58) == 0x84c87814 && K(59) == 0x8cc70208
    ensures K(60) == 0x90befffa && K(61) == 0xa4506ceb && K(62) == 0xbef9a3f7 && K(63) == 0xc67178f2
  {
  }

  method EighthRound(v: Vars, words: array<bv32>, ghost block: seq<byte>) returns (r: Vars)
    requires |block| == 64 && Scheduled(words, block, 64)
    ensures r == Rounds(v, block, 56, 8)
  {
    hide *;
    EightRounds(v, block, 56);
    EightWords(words, block, 64, 56);
    EighthConstants();
    var a, b, c, d, e, f, g, h := v.a, v.b, v.c, v.d, v.e, v.f, v.g, v.h;
    var x, y;
    LineIsRound(Vars(a, b, c, d, e, f, g, h), 0x748f82ee, words[56]);
    x := Add(Add(Add(h, F1(e, f, g)), 0x748f82ee), words[56]); y := F2(a, b, c); d := Add(d, x); h := Add(x, y);
    LineIsRound(Vars(h, a, b, c, d, e, f, g), 0x78a5636f, words[57]);
    x := Add(Add(Add(g, F1(d, e, f)), 0x78a5636f), words[57]); y := F2(h, a, b); c := Add(c, x); g := Add(x, y);
    LineIsRound(Vars(g, h, a, b, c, d, e, f), 0x84c87814, words[58]);
    x := Add(Add(Add(f, F1(c, d, e)), 0x84c87814), words[58]); y := F2(g, h, a); b := Add(b, x); f := Add(x, y);
    LineIsRound(Vars(f, g, h, a, b, c, d, e), 0x8cc70208, words[59]);
    x := Add(Add(Add(e, F1(b, c, d)), 0x8cc70208), words[59]); y := F2(f, g, h); a := Add(a, x); e := Add(x, y);
    LineIsRound(Vars(e, f, g, h, a, b, c, d), 0x90befffa, words[60]);
    x := Add(Add(Add(d, F1(a, b, c)), 0x90befffa), words[60]); y := F2(e, f, g); h := Add(h, x); d := Add(x, y);
    LineIsRound(Vars(d, e, f, g, h, a, b, c), 0xa4506ceb, words[61]);
    x := Add(Add(Add(c, F1(h, a, b)), 0xa4506ceb), words[61]); y := F2(d, e, f); g := Add(g, x); c := Add(x, y);
    LineIsRound(Vars(c, d, e, f, g, h, a, b), 0xbef9a3f7, words[62]);
    x := Add(Add(Add(b, F1(g, h, a)), 0xbef9a3f7), words[62]); y := F2(c, d, e); f := Add(f, x); b := Add(x, y);
    LineIsRound(Vars(b, c, d, e, f, g, h, a), 0xc67178f2, words[63]);
    x := Add(Add(Add(a, F1(f, g, h)), 0xc67178f2), words[63]); y := F2(b, c, d); e := Add(e, x); a := Add(x, y);
    r := Vars(a, b, c, d, e, f, g, h);
  }

  /** The source extends the schedule eight words at a time, between rounds. */
  method Extend(words: array<bv32>, ghost block: seq<byte>, from: nat, until: nat)
    requires 16 <= from <= until <= 64 && Scheduled(words, block, from)
    modifies words
    ensures Scheduled(words, block, until)
  {
    hide Add, Xor, RotR, Shr;
    for i := from to until
      invariant Scheduled(words, block, i)
    {
      SumReversed(words[i - 16], SmallSigma0(words[i - 15]), words[i - 7], SmallSigma1(words[i - 2]));
      words[i] := Add(Add(Add(words[i - 16],
        Xor(Xor(RotR(words[i - 15], 7), RotR(words[i - 15], 18)), Shr(words[i - 15], 3))),
        words[i - 7]),
        Xor(Xor(RotR(words[i - 2], 17), RotR(words[i - 2], 19)), Shr(words[i - 2], 10)));
    }
  }

  method LoadWords(words: array<bv32>, data: seq<byte>)
    requires |data| == 64 && words.Length == 64
    modifies words
    ensures Scheduled(words, data, 16)
  {
    hide BigEndian, LittleEndian, Swap, Add;
    for i := 0 to 16
      invariant Scheduled(words, data, i)
    {
      words[i] := Swap(LittleEndian(data[4 * i..4 * i + 4]));
      SwapLittleEndian(data[4 * i..4 * i + 4]);
    }
  }

  method AllRounds(v0: Vars, words: array<bv32>, ghost data: seq<byte>) returns (v: Vars)
    requires |data| == 64 && Scheduled(words, data, 16)
    modifies words
    ensures v == Rounds(v0, data, 0, 64)
  {
    hide *;
    v := FirstRound(v0, words, data);
    v := SecondRound(v, words, data);
    RoundsSplit(v0, data, 0, 8, 8);
    Extend(words, data, 16, 24);
    v := ThirdRound(v, words, data);
    RoundsSplit(v0, data, 0, 16, 8);
    Extend(words, data, 24, 32);
    v := FourthRound(v, words, data);
    RoundsSplit(v0, data, 0, 24, 8);
    Extend(words, data, 32, 40);
    v := FifthRound(v, words, data);
    RoundsSplit(v0, data, 0, 32, 8);
    Extend(words, data, 40, 48);
    v := SixthRound(v, words, data);
    RoundsSplit(v0, data, 0, 40, 8);
    Extend(words, data, 48, 56);
    v := SeventhRound(v, words, data);
    RoundsSplit(v0, data, 0, 48, 8);
    Extend(words, data, 56, 64);
    v := EighthRound(v, words, data);
    RoundsSplit(v0, data, 0, 56, 8);
  }

  /** The registers are added to the chaining value. */
  method AddRegisters(hash: array<bv32>, v: Vars)
    requires hash.Length == 8
    modifies hash
    ensures hash[..] == Sums(v, old(hash[..]))
  {
    hide Add;
    AddComm(hash[0], v.a);
    AddComm(hash[1], v.b);
    AddComm(hash[2], v.c);
    AddComm(hash[3], v.d);
    AddComm(hash[4], v.e);
    AddComm(hash[5], v.f);
    AddComm(hash[6], v.g);
    AddComm(hash[7], v.h);
    hash[0] := Add(hash[0], v.a);
    hash[1] := Add(hash[1], v.b);
    hash[2] := Add(hash[2], v.c);
    hash[3] := Add(hash[3], v.d);
    hash[4] := Add(hash[4], v.e);
    hash[5] := Add(hash[5], v.f);
    hash[6] := Add(hash[6], v.g);
    hash[7] := Add(hash[7], v.h);
  }

  /** The block function of the code is the compression function of the standard. */
  method ProcessBlock(hash: array<bv32>, data: seq<byte>)
    requires hash.Length == 8 && |data| == 64
    modifies hash
    ensures hash[..] == Compress(old(hash[..]), data)
  {
    hide Add, Rounds, Sums, W, K;
    var words := new bv32[64];
    LoadWords(words, data);
    var v := AllRounds(Vars(hash[0], hash[1], hash[2], hash[3], hash[4], hash[5], hash[6], hash[7]), words, data);
    AddRegisters(hash, v);
  }
}
