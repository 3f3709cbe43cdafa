/** MD5: the compression function of section 3.4 of RFC 1321. */
module Md5Spec {
  import opened Bytes
  import opened Words

  const INITIAL: seq<bv32> := [0x67452301, 0xefcdab89, 0x98badcfe, 0x10325476]

  /** The mixing function of round `r`. */
  function Mix(r: nat, x: bv32, y: bv32, z: bv32): bv32 {
    match r
    case 0 => Or(And(x, y), And(Not(x), z))
    case 1 => Or(And(x, z), And(y, Not(z)))
    case 2 => Xor(Xor(x, y), z)
    case _ => Xor(y, Or(x, Not(z)))
  }

  /** Which word of the block step `i` uses. */
  function Index(i: nat): (k: nat)
    ensures k < 16
  {
    match i / 16
    case 0 => i % 16
    case 1 => (5 * i + 1) % 16
    case 2 => (3 * i + 5) % 16
    case _ => (7 * i) % 16
  }

  function Shift(i: nat): (n: bv6)
    ensures n <= 32
  {
    match (i / 16, i % 4)
    case (0, 0) => 7 case (0, 1) => 12 case (0, 2) => 17 case (0, _) => 22
    case (1, 0) => 5 case (1, 1) => 9 case (1, 2) => 14 case (1, _) => 20
    case (2, 0) => 4 case (2, 1) => 11 case (2, 2) => 16 case (2, _) => 23
    case (_, 0) => 6 case (_, 1) => 10 case (_, 2) => 15 case (_, _) => 21
  }

  /** The additive constants, T[1] to T[64] of the RFC. */
  function T(i: nat): bv32 {
    if i < 8 then
      (match i case 0 => 0xd76aa478 case 1 => 0xe8c7b756 case 2 => 0x242070db case 3 => 0xc1bdceee
             case 4 => 0xf57c0faf case 5 => 0x4787c62a case 6 => 0xa8304613 case _ => 0xfd469501)
    else if i < 16 then
      (match i case 8 => 0x698098d8 case 9 => 0x8b44f7af case 10 => 0xffff5bb1 case 11 => 0x895cd7be
             case 12 => 0x6b901122 case 13 => 0xfd987193 case 14 => 0xa679438e case _ => 0x49b40821)
    else if i < 24 then
      (match i case 16 => 0xf61e2562 case 17 => 0xc040b340 case 18 => 0x265e5a51 case 19 => 0xe9b6c7aa
             case 20 => 0xd62f105d case 21 => 0x02441453 case 22 => 0xd8a1e681 case _ => 0xe7d3fbc8)
    else if i < 32 then
      (match i case 24 => 0x21e1cde6 case 25 => 0xc33707d6 case 26 => 0xf4d50d87 case 27 => 0x455a14ed
             case 28 => 0xa9e3e905 case 29 => 0xfcefa3f8 case 30 => 0x676f02d9 case _ => 0x8d2a4c8a)
    else if i < 40 then
      (match i case 32 => 0xfffa3942 case 33 => 0x8771f681 case 34 => 0x6d9d6122 case 35 => 0xfde5380c
             case 36 => 0xa4beea44 case 37 => 0x4bdecfa9 case 38 => 0xf6bb4b60 case _ => 0xbebfbc70)
    else if i < 48 then
      (match i case 40 => 0x289b7ec6 case 41 => 0xeaa127fa case 42 => 0xd4ef3085 case 43 => 0x04881d05
             case 44 => 0xd9d4d039 case 45 => 0xe6db99e5 case 46 => 0x1fa27cf8 case _ => 0xc4ac5665)
    else if i < 56 then
      (match i case 48 => 0xf4292244 case 49 => 0x432aff97 case 50 => 0xab9423a7 case 51 => 0xfc93a039
             case 52 => 0x655b59c3 case 53 => 0x8f0ccc92 case 54 => 0xffeff47d case _ => 0x85845dd1)
    else
      (match i case 56 => 0x6fa87e4f case 57 => 0xfe2ce6e0 case 58 => 0xa3014314 case 59 => 0x4e0811a1
             case 60 => 0xf7537e82 case 61 => 0xbd3af235 case 62 => 0x2ad7d2bb case _ => 0xeb86d391)
  }

  function X(block: seq<byte>, k: nat): bv32
    requires |block| == 64 && k < 16
  {
    LittleEndian(block[4 * k..4 * k + 4])
  }

  datatype Vars = Vars(a: bv32, b: bv32, c: bv32, d: bv32)

  /** One operation of the RFC; afterwards the registers have moved on by one place. */
  function Step(v: Vars, mixed: bv32, x: bv32, t: bv32, s: bv6): Vars
    requires s <= 32
  {
    Vars(v.d, Add(v.b, RotL(Add(Add(Add(v.a, mixed), x), t), s)), v.b, v.c)
  }

  /** Operations `i` to `i + n - 1`. */
  function Steps(v: Vars, block: seq<byte>, i: nat, n: nat): Vars
    requires |block| == 64 && i + n <= 64
    decreases n
  {
    if n == 0 then v
    else Steps(Step(v, Mix(i / 16, v.b, v.c, v.d), X(block, Index(i)), T(i), Shift(i)), block, i + 1, n - 1)
  }

  function Compress(h: seq<bv32>, block: seq<byte>): (r: seq<bv32>)
    requires |h| == 4 && |block| == 64
    ensures |r| == 4
  {
    var v := Steps(Vars(h[0], h[1], h[2], h[3]), block, 0, 64);
    [Add(v.a, h[0]), Add(v.b, h[1]), Add(v.c, h[2]), Add(v.d, h[3])]
  }

  lemma FirstStep(v: Vars, block: seq<byte>, i: nat, n: nat)
    requires |block| == 64 && n > 0 && i + n <= 64
    ensures Steps(v, block, i, n)
         == Steps(Step(v, Mix(i / 16, v.b, v.c, v.d), X(block, Index(i)), T(i), Shift(i)), block, i + 1, n - 1)
  {
    hide Step, X, T, Shift, Index, Mix;
  }

  lemma NoSteps(v: Vars, block: seq<byte>, i: nat)
    requires |block| == 64 && i <= 64
    ensures Steps(v, block, i, 0) == v
  {
  }

  lemma {:induction false} StepsSplit(v: Vars, block: seq<byte>, i: nat, m: nat, n: nat)
    requires |block| == 64 && i + m + n <= 64
    ensures Steps(v, block, i, m + n) == Steps(Steps(v, block, i, m), block, i + m, n)
    decreases m
  {
    hide *;
    if m == 0 {
      NoSteps(v, block, i);
    } else {
      FirstStep(v, block, i, m + n);
      FirstStep(v, block, i, m);
      StepsSplit(Step(v, Mix(i / 16, v.b, v.c, v.d), X(block, Index(i)), T(i), Shift(i)), block, i + 1, m - 1, n);
    }
  }

  lemma OneStep(v: Vars, block: seq<byte>, i: nat)
    requires |block| == 64 && i < 64
    ensures Steps(v, block, i, 1) == Step(v, Mix(i / 16, v.b, v.c, v.d), X(block, Index(i)), T(i), Shift(i))
  {
    hide Step, X, T, Shift, Index, Mix;
  }
}

/** The code of the MD5 block function: four rounds of sixteen unrolled lines. */
module Md5 {
  import opened Bytes
  import opened Words
  import opened Md5Spec

  function F1(b: bv32, c: bv32, d: bv32): bv32 { Xor(d, And(b, Xor(c, d))) }

  function F2(b: bv32, c: bv32, d: bv32): bv32 { Xor(c, And(d, Xor(b, c))) }

  function F3(b: bv32, c: bv32, d: bv32): bv32 { Xor(Xor(b, c), d) }

  function F4(b: bv32, c: bv32, d: bv32): bv32 { Xor(c, Or(b, Not(d))) }

  lemma SelectBits(b: bv32, c: bv32, d: bv32)
    ensures d ^ (b & (c ^ d)) == (b & c) | (!b & d)
  {
  }

  lemma SelectXorSide(b: bv32, c: bv32, d: bv32)
    ensures Xor(d, And(b, Xor(c, d))) == d ^ (b & (c ^ d))
  {
  }

  lemma SelectOrSide(b: bv32, c: bv32, d: bv32)
    ensures Or(And(b, c), And(Not(b), d)) == (b & c) | (!b & d)
  {
  }

  /** The three-operation selection is the one with two ands and an or. */
  lemma Select(b: bv32, c: bv32, d: bv32)
    ensures Xor(d, And(b, Xor(c, d))) == Or(And(b, c), And(Not(b), d))
  {
    hide *;
    SelectBits(b, c, d);
    SelectXorSide(b, c, d);
    SelectOrSide(b, c, d);
  }

  lemma AndComm(x: bv32, y: bv32)
    ensures And(x, y) == And(y, x)
  {
  }

  lemma MixingFunctions(b: bv32, c: bv32, d: bv32)
    ensures F1(b, c, d) == Mix(0, b, c, d) && F2(b, c, d) == Mix(1, b, c, d)
    ensures F3(b, c, d) == Mix(2, b, c, d) && F4(b, c, d) == Mix(3, b, c, d)
  {
    hide And, Or, Xor, Not;
    Select(b, c, d);
    Select(d, b, c);
    AndComm(d, b);
    AndComm(Not(d), c);
  }

  /** One unrolled line, for whichever registers play a to d, is one more operation. */
  lemma LineIsStep(v0: Vars, v: Vars, block: seq<byte>, from: nat, n: nat, mixed: bv32, x: bv32, t: bv32, s: bv6)
    requires |block| == 64 && from + n < 64 && s <= 32
    requires v == Steps(v0, block, from, n)
    requires x == X(block, Index(from + n)) && t == T(from + n) && s == Shift(from + n)
    requires mixed == (if from + n < 16 then F1(v.b, v.c, v.d) else if from + n < 32 then F2(v.b, v.c, v.d)
                       else if from + n < 48 then F3(v.b, v.c, v.d) else F4(v.b, v.c, v.d))
    ensures Steps(v0, block, from, n + 1) == Vars(v.d, Add(RotL(Add(Add(Add(v.a, mixed), x), t), s), v.b), v.b, v.c)
  {
    hide Add, RotL, X, Index, T, Shift, Mix, Steps, F1, F2, F3, F4;
    MixingFunctions(v.b, v.c, v.d);
    OneStep(v, block, from + n);
    StepsSplit(v0, block, from, n, 1);
    AddComm(v.b, RotL(Add(Add(Add(v.a, mixed), x), t), s));
  }

  /** The sixteen words are loaded. */
  ghost predicate Loaded(word: seq<bv32>, block: seq<byte>) {
    |block| == 64 && |word| == 16 && forall k | 0 <= k < 16 :: word[k] == X(block, k)
  }

  lemma FirstRoundStartParameters(word: seq<bv32>, block: seq<byte>)
    requires Loaded(word, block)
    ensures T(0) == 0xd76aa478 && Shift(0) == 7 && X(block, Index(0)) == word[0]
    ensures T(1) == 0xe8c7b756 && Shift(1) == 12 && X(block, Index(1)) == word[1]
    ensures T(2) == 0x242070db && Shift(2) == 17 && X(block, Index(2)) == word[2]
    ensures T(3) == 0xc1bdceee && Shift(3) == 22 && X(block, Index(3)) == word[3]
    ensures T(4) == 0xf57c0faf && Shift(4) == 7 && X(block, Index(4)) == word[4]
    ensures T(5) == 0x4787c62a && Shift(5) == 12 && X(block, Index(5)) == word[5]
    ensures T(6) == 0xa8304613 && Shift(6) == 17 && X(block, Index(6)) == word[6]
    ensures T(7) == 0xfd469501 && Shift(7) == 22 && X(block, Index(7)) == word[7]
  {
    hide X;
  }

  method FirstRoundStart(v: Vars, word: seq<bv32>, ghost block: seq<byte>) returns (r: Vars)
    requires |block| == 64 && |word| == 16 && Loaded(word, block)
    ensures r == Steps(v, block, 0, 8)
  {
    hide *;
    FirstRoundStartParameters(word, block);
    NoSteps(v, block, 0);
    var a, b, c, d := v.a, v.b, v.c, v.d;
    LineIsStep(v, Vars(a, b, c, d), block, 0, 0, F1(b, c, d), word[0], 0xd76aa478, 7);
    a := Add(RotL(Add(Add(Add(a, F1(b, c, d)), word[0]), 0xd76aa478), 7), b);
    LineIsStep(v, Vars(d, a, b, c), block, 0, 1, F1(a, b, c), word[1], 0xe8c7b756, 12);
    d := Add(RotL(Add(Add(Add(d, F1(a, b, c)), word[1]), 0xe8c7b756), 12), a);
    LineIsStep(v, Vars(c, d, a, b), block, 0, 2, F1(d, a, b), word[2], 0x242070db, 17);
    c := Add(RotL(Add(Add(Add(c, F1(d, a, b)), word[2]), 0x242070db), 17), d);
    LineIsStep(v, Vars(b, c, d, a), block, 0, 3, F1(c, d, a), word[3], 0xc1bdceee, 22);
    b := Add(RotL(Add(Add(Add(b, F1(c, d, a)), word[3]), 0xc1bdceee), 22), c);
    LineIsStep(v, Vars(a, b, c, d), block, 0, 4, F1(b, c, d), word[4], 0xf57c0faf, 7);
    a := Add(RotL(Add(Add(Add(a, F1(b, c, d)), word[4]), 0xf57c0faf), 7), b);
    LineIsStep(v, Vars(d, a, b, c), block, 0, 5, F1(a, b, c), word[5], 0x4787c62a, 12);
    d := Add(RotL(Add(Add(Add(d, F1(a, b, c)), word[5]), 0x4787c62a), 12), a);
    LineIsStep(v, Vars(c, d, a, b), block, 0, 6, F1(d, a, b), word[6], 0xa8304613, 17);
    c := Add(RotL(Add(Add(Add(c, F1(d, a, b)), word[6]), 0xa8304613), 17), d);
    LineIsStep(v, Vars(b, c, d, a), block, 0, 7, F1(c, d, a), word[7], 0xfd469501, 22);
    b := Add(RotL(Add(Add(Add(b, F1(c, d, a)), word[7]), 0xfd469501), 22), c);
    r := Vars(a, b, c, d);
  }

  lemma FirstRoundFinishParameters(word: seq<bv32>, block: seq<byte>)
    requires Loaded(word, block)
    ensures T(8) == 0x698098d8 && Shift(8) == 7 && X(block, Index(8)) == word[8]
    ensures T(9) == 0x8b44f7af && Shift(9) == 12 && X(block, Index(9)) == word[9]
    ensures T(10) == 0xffff5bb1 && Shift(10) == 17 && X(block, Index(10)) == word[10]
    ensures T(11) == 0x895cd7be && Shift(11) == 22 && X(block, Index(11)) == word[11]
    ensures T(12) == 0x6b901122 && Shift(12) == 7 && X(block, Index(12)) == word[12]
    ensures T(13) == 0xfd987193 && Shift(13) == 12 && X(block, Index(13)) == word[13]
    ensures T(14) == 0xa679438e && Shift(14) == 17 && X(block, Index(14)) == word[14]
    ensures T(15) == 0x49b40821 && Shift(15) == 22 && X(block, Index(15)) == word[15]
  {
    hide X;
  }

  method FirstRoundFinish(v: Vars, word: seq<bv32>, ghost block: seq<byte>) returns (r: Vars)
    requires |block| == 64 && |word| == 16 && Loaded(word, block)
    ensures r == Steps(v, block, 8, 8)
  {
    hide *;
    FirstRoundFinishParameters(word, block);
    NoSteps(v, block, 8);
    var a, b, c, d := v.a, v.b, v.c, v.d;
    LineIsStep(v, Vars(a, b, c, d), block, 8, 0, F1(b, c, d), word[8], 0x698098d8, 7);
    a := Add(RotL(Add(Add(Add(a, F1(b, c, d)), word[8]), 0x698098d8), 7), b);
    LineIsStep(v, Vars(d, a, b, c), block, 8, 1, F1(a, b, c), word[9], 0x8b44f7af, 12);
    d := Add(RotL(Add(Add(Add(d, F1(a, b, c)), word[9]), 0x8b44f7af), 12), a);
    LineIsStep(v, Vars(c, d, a, b), block, 8, 2, F1(d, a, b), word[10], 0xffff5bb1, 17);
    c := Add(RotL(Add(Add(Add(c, F1(d, a, b)), word[10]), 0xffff5bb1), 17), d);
    LineIsStep(v, Vars(b, c, d, a), block, 8, 3, F1(c, d, a), word[11], 0x895cd7be, 22);
    b := Add(RotL(Add(Add(Add(b, F1(c, d, a)), word[11]), 0x895cd7be), 22), c);
    LineIsStep(v, Vars(a, b, c, d), block, 8, 4, F1(b, c, d), word[12], 0x6b901122, 7);
    a := Add(RotL(Add(Add(Add(a, F1(b, c, d)), word[12]), 0x6b901122), 7), b);
    LineIsStep(v, Vars(d, a, b, c), block, 8, 5, F1(a, b, c), word[13], 0xfd987193, 12);
    d := Add(RotL(Add(Add(Add(d, F1(a, b, c)), word[13]), 0xfd987193), 12), a);
    LineIsStep(v, Vars(c, d, a, b), block, 8, 6, F1(d, a, b), word[14], 0xa679438e, 17);
    c := Add(RotL(Add(Add(Add(c, F1(d, a, b)), word[14]), 0xa679438e), 17), d);
    LineIsStep(v, Vars(b, c, d, a), block, 8, 7, F1(c, d, a), word[15], 0x49b40821, 22);
    b := Add(RotL(Add(Add(Add(b, F1(c, d, a)), word[15]), 0x49b40821), 22), c);
    r := Vars(a, b, c, d);
  }

  method FirstRound(v: Vars, word: seq<bv32>, ghost block: seq<byte>) returns (r: Vars)
    requires |block| == 64 && |word| == 16 && Loaded(word, block)
    ensures r == Steps(v, block, 0, 16)
  {
    hide *;
    r := FirstRoundStart(v, word, block);
    r := FirstRoundFinish(r, word, block);
    StepsSplit(v, block, 0, 8, 8);
  }

  lemma SecondRoundStartParameters(word: seq<bv32>, block: seq<byte>)
    requires Loaded(word, block)
    ensures T(16) == 0xf61e2562 && Shift(16) == 5 && X(block, Index(16)) == word[1]
    ensures T(17) == 0xc040b340 && Shift(17) == 9 && X(block, Index(17)) == word[6]
    ensures T(18) == 0x265e5a51 && Shift(18) == 14 && X(block, Index(18)) == word[11]
    ensures T(19) == 0xe9b6c7aa && Shift(19) == 20 && X(block, Index(19)) == word[0]
    ensures T(20) == 0xd62f105d && Shift(20) == 5 && X(block, Index(20)) == word[5]
    ensures T(21) == 0x02441453 && Shift(21) == 9 && X(block, Index(21)) == word[10]
    ensures T(22) == 0xd8a1e681 && Shift(22) == 14 && X(block, Index(22)) == word[15]
    ensures T(23) == 0xe7d3fbc8 && Shift(23) == 20 && X(block, Index(23)) == word[4]
  {
    hide X;
  }

  method SecondRoundStart(v: Vars, word: seq<bv32>, ghost block: seq<byte>) returns (r: Vars)
    requires |block| == 64 && |word| == 16 && Loaded(word, block)
    ensures r == Steps(v, block, 16, 8)
  {
    hide *;
    SecondRoundStartParameters(word, block);
    NoSteps(v, block, 16);
    var a, b, c, d := v.a, v.b, v.c, v.d;
    LineIsStep(v, Vars(a, b, c, d), block, 16, 0, F2(b, c, d), word[1], 0xf61e2562, 5);
    a := Add(RotL(Add(Add(Add(a, F2(b, c, d)), word[1]), 0xf61e2562), 5), b);
    LineIsStep(v, Vars(d, a, b, c), block, 16, 1, F2(a, b, c), word[6], 0xc040b340, 9);
    d := Add(RotL(Add(Add(Add(d, F2(a, b, c)), word[6]), 0xc040b340), 9), a);
    LineIsStep(v, Vars(c, d, a, b), block, 16, 2, F2(d, a, b), word[11], 0x265e5a51, 14);
    c := Add(RotL(Add(Add(Add(c, F2(d, a, b)), word[11]), 0x265e5a51), 14), d);
    LineIsStep(v, Vars(b, c, d, a), block, 16, 3, F2(c, d, a), word[0], 0xe9b6c7aa, 20);
    b := Add(RotL(Add(Add(Add(b, F2(c, d, a)), word[0]), 0xe9b6c7aa), 20), c);
    LineIsStep(v, Vars(a, b, c, d), block, 16, 4, F2(b, c, d), word[5], 0xd62f105d, 5);
    a := Add(RotL(Add(Add(Add(a, F2(b, c, d)), word[5]), 0xd62f105d), 5), b);
    LineIsStep(v, Vars(d, a, b, c), block, 16, 5, F2(a, b, c), word[10], 0x02441453, 9);
    d := Add(RotL(Add(Add(Add(d, F2(a, b, c)), word[10]), 0x02441453), 9), a);
    LineIsStep(v, Vars(c, d, a, b), block, 16, 6, F2(d, a, b), word[15], 0xd8a1e681, 14);
    c := Add(RotL(Add(Add(Add(c, F2(d, a, b)), word[15]), 0xd8a1e681), 14), d);
    LineIsStep(v, Vars(b, c, d, a), block, 16, 7, F2(c, d, a), word[4], 0xe7d3fbc8, 20);
    b := Add(RotL(Add(Add(Add(b, F2(c, d, a)), word[4]), 0xe7d3fbc8), 20), c);
    r := Vars(a, b, c, d);
  }

  lemma SecondRoundFinishParameters(word: seq<bv32>, block: seq<byte>)
    requires Loaded(word, block)
    ensures T(24) == 0x21e1cde6 && Shift(24) == 5 && X(block, Index(24)) == word[9]
    ensures T(25) == 0xc33707d6 && Shift(25) == 9 && X(block, Index(25)) == word[14]
    ensures T(26) == 0xf4d50d87 && Shift(26) == 14 && X(block, Index(26)) == word[3]
    ensures T(27) == 0x455a14ed && Shift(27) == 20 && X(block, Index(27)) == word[8]
    ensures T(28) == 0xa9e3e905 && Shift(28) == 5 && X(block, Index(28)) == word[13]
    ensures T(29) == 0xfcefa3f8 && Shift(29) == 9 && X(block, Index(29)) == word[2]
    ensures T(30) == 0x676f02d9 && Shift(30) == 14 && X(block, Index(30)) == word[7]
    ensures T(31) == 0x8d2a4c8a && Shift(31) == 20 && X(block, Index(31)) == word[12]
  {
    hide X;
  }

  method SecondRoundFinish(v: Vars, word: seq<bv32>, ghost block: seq<byte>) returns (r: Vars)
    requires |block| == 64 && |word| == 16 && Loaded(word, block)
    ensures r == Steps(v, block, 24, 8)
  {
    hide *;
    SecondRoundFinishParameters(word, block);
    NoSteps(v, block, 24);
    var a, b, c, d := v.a, v.b, v.c, v.d;
    LineIsStep(v, Vars(a, b, c, d), block, 24, 0, F2(b, c, d), word[9], 0x21e1cde6, 5);
    a := Add(RotL(Add(Add(Add(a, F2(b, c, d)), word[9]), 0x21e1cde6), 5), b);
    LineIsStep(v, Vars(d, a, b, c), block, 24, 1, F2(a, b, c), word[14], 0xc33707d6, 9);
    d := Add(RotL(Add(Add(Add(d, F2(a, b, c)), word[14]), 0xc33707d6), 9), a);
    LineIsStep(v, Vars(c, d, a, b), block, 24, 2, F2(d, a, b), word[3], 0xf4d50d87, 14);
    c := Add(RotL(Add(Add(Add(c, F2(d, a, b)), word[3]), 0xf4d50d87), 14), d);
    LineIsStep(v, Vars(b, c, d, a), block, 24, 3, F2(c, d, a), word[8], 0x455a14ed, 20);
    b := Add(RotL(Add(Add(Add(b, F2(c, d, a)), word[8]), 0x455a14ed), 20), c);
    LineIsStep(v, Vars(a, b, c, d), block, 24, 4, F2(b, c, d), word[13], 0xa9e3e905, 5);
    a := Add(RotL(Add(Add(Add(a, F2(b, c, d)), word[13]), 0xa9e3e905), 5), b);
    LineIsStep(v, Vars(d, a, b, c), block, 24, 5, F2(a, b, c), word[2], 0xfcefa3f8, 9);
    d := Add(RotL(Add(Add(Add(d, F2(a, b, c)), word[2]), 0xfcefa3f8), 9), a);
    LineIsStep(v, Vars(c, d, a, b), block, 24, 6, F2(d, a, b), word[7], 0x676f02d9, 14);
    c := Add(RotL(Add(Add(Add(c, F2(d, a, b)), word[7]), 0x676f02d9), 14), d);
    LineIsStep(v, Vars(b, c, d, a), block, 24, 7, F2(c, d, a), word[12], 0x8d2a4c8a, 20);
    b := Add(RotL(Add(Add(Add(b, F2(c, d, a)), word[12]), 0x8d2a4c8a), 20), c);
    r := Vars(a, b, c, d);
  }

  method SecondRound(v: Vars, word: seq<bv32>, ghost block: seq<byte>) returns (r: Vars)
    requires |block| == 64 && |word| == 16 && Loaded(word, block)
    ensures r == Steps(v, block, 16, 16)
  {
    hide *;
    r := SecondRoundStart(v, word, block);
    r := SecondRoundFinish(r, word, block);
    StepsSplit(v, block, 16, 8, 8);
  }

  lemma ThirdRoundStartParameters(word: seq<bv32>, block: seq<byte>)
    requires Loaded(word, block)
    ensures T(32) == 0xfffa3942 && Shift(32) == 4 && X(block, Index(32)) == word[5]
    ensures T(33) == 0x8771f681 && Shift(33) == 11 && X(block, Index(33)) == word[8]
    ensures T(34) == 0x6d9d6122 && Shift(34) == 16 && X(block, Index(34)) == word[11]
    ensures T(35) == 0xfde5380c && Shift(35) == 23 && X(block, Index(35)) == word[14]
    ensures T(36) == 0xa4beea44 && Shift(36) == 4 && X(block, Index(36)) == word[1]
    ensures T(37) == 0x4bdecfa9 && Shift(37) == 11 && X(block, Index(37)) == word[4]
    ensures T(38) == 0xf6bb4b60 && Shift(38) == 16 && X(block, Index(38)) == word[7]
    ensures T(39) == 0xbebfbc70 && Shift(39) == 23 && X(block, Index(39)) == word[10]
  {
    hide X;
  }

  method ThirdRoundStart(v: Vars, word: seq<bv32>, ghost block: seq<byte>) returns (r: Vars)
    requires |block| == 64 && |word| == 16 && Loaded(word, block)
    ensures r == Steps(v, block, 32, 8)
  {
    hide *;
    ThirdRoundStartParameters(word, block);
    NoSteps(v, block, 32);
    var a, b, c, d := v.a, v.b, v.c, v.d;
    LineIsStep(v, Vars(a, b, c, d), block, 32, 0, F3(b, c, d), word[5], 0xfffa3942, 4);
    a := Add(RotL(Add(Add(Add(a, F3(b, c, d)), word[5]), 0xfffa3942), 4), b);
    LineIsStep(v, Vars(d, a, b, c), block, 32, 1, F3(a, b, c), word[8], 0x8771f681, 11);
    d := Add(RotL(Add(Add(Add(d, F3(a, b, c)), word[8]), 0x8771f681), 11), a);
    LineIsStep(v, Vars(c, d, a, b), block, 32, 2, F3(d, a, b), word[11], 0x6d9d6122, 16);
    c := Add(RotL(Add(Add(Add(c, F3(d, a, b)), word[11]), 0x6d9d6122), 16), d);
    LineIsStep(v, Vars(b, c, d, a), block, 32, 3, F3(c, d, a), word[14], 0xfde5380c, 23);
    b := Add(RotL(Add(Add(Add(b, F3(c, d, a)), word[14]), 0xfde5380c), 23), c);
    LineIsStep(v, Vars(a, b, c, d), block, 32, 4, F3(b, c, d), word[1], 0xa4beea44, 4);
    a := Add(RotL(Add(Add(Add(a, F3(b, c, d)), word[1]), 0xa4beea44), 4), b);
    LineIsStep(v, Vars(d, a, b, c), block, 32, 5, F3(a, b, c), word[4], 0x4bdecfa9, 11);
    d := Add(RotL(Add(Add(Add(d, F3(a, b, c)), word[4]), 0x4bdecfa9), 11), a);
    LineIsStep(v, Vars(c, d, a, b), block, 32, 6, F3(d, a, b), word[7], 0xf6bb4b60, 16);
    c := Add(RotL(Add(Add(Add(c, F3(d, a, b)), word[7]), 0xf6bb4b60), 16), d);
    LineIsStep(v, Vars(b, c, d, a), block, 32, 7, F3(c, d, a), word[10], 0xbebfbc70, 23);
    b := Add(RotL(Add(Add(Add(b, F3(c, d, a)), word[10]), 0xbebfbc70), 23), c);
    r := Vars(a, b, c, d);
  }

  lemma ThirdRoundFinishParameters(word: seq<bv32>, block: seq<byte>)
    requires Loaded(word, block)
    ensures T(40) == 0x289b7ec6 && Shift(40) == 4 && X(block, Index(40)) == word[13]
    ensures T(41) == 0xeaa127fa && Shift(41) == 11 && X(block, Index(41)) == word[0]
    ensures T(42) == 0xd4ef3085 && Shift(42) == 16 && X(block, Index(42)) == word[3]
    ensures T(43) == 0x04881d05 && Shift(43) == 23 && X(block, Index(43)) == word[6]
    ensures T(44) == 0xd9d4d039 && Shift(44) == 4 && X(block, Index(44)) == word[9]
    ensures T(45) == 0xe6db99e5 && Shift(45) == 11 && X(block, Index(45)) == word[12]
    ensures T(46) == 0x1fa27cf8 && Shift(46) == 16 && X(block, Index(46)) == word[15]
    ensures T(47) == 0xc4ac5665 && Shift(47) == 23 && X(block, Index(47)) == word[2]
  {
    hide X;
  }

  method ThirdRoundFinish(v: Vars, word: seq<bv32>, ghost block: seq<byte>) returns (r: Vars)
    requires |block| == 64 && |word| == 16 && Loaded(word, block)
    ensures r == Steps(v, block, 40, 8)
  {
    hide *;
    ThirdRoundFinishParameters(word, block);
    NoSteps(v, block, 40);
    var a, b, c, d := v.a, v.b, v.c, v.d;
    LineIsStep(v, Vars(a, b, c, d), block, 40, 0, F3(b, c, d), word[13], 0x289b7ec6, 4);
    a := Add(RotL(Add(Add(Add(a, F3(b, c, d)), word[13]), 0x289b7ec6), 4), b);
    LineIsStep(v, Vars(d, a, b, c), block, 40, 1, F3(a, b, c), word[0], 0xeaa127fa, 11);
    d := Add(RotL(Add(Add(Add(d, F3(a, b, c)), word[0]), 0xeaa127fa), 11), a);
    LineIsStep(v, Vars(c, d, a, b), block, 40, 2, F3(d, a, b), word[3], 0xd4ef3085, 16);
    c := Add(RotL(Add(Add(Add(c, F3(d, a, b)), word[3]), 0xd4ef3085), 16), d);
    LineIsStep(v, Vars(b, c, d, a), block, 40, 3, F3(c, d, a), word[6], 0x04881d05, 23);
    b := Add(RotL(Add(Add(Add(b, F3(c, d, a)), word[6]), 0x04881d05), 23), c);
    LineIsStep(v, Vars(a, b, c, d), block, 40, 4, F3(b, c, d), word[9], 0xd9d4d039, 4);
    a := Add(RotL(Add(Add(Add(a, F3(b, c, d)), word[9]), 0xd9d4d039), 4), b);
    LineIsStep(v, Vars(d, a, b, c), block, 40, 5, F3(a, b, c), word[12], 0xe6db99e5, 11);
    d := Add(RotL(Add(Add(Add(d, F3(a, b, c)), word[12]), 0xe6db99e5), 11), a);
    LineIsStep(v, Vars(c, d, a, b), block, 40, 6, F3(d, a, b), word[15], 0x1fa27cf8, 16);
    c := Add(RotL(Add(Add(Add(c, F3(d, a, b)), word[15]), 0x1fa27cf8), 16), d);
    LineIsStep(v, Vars(b, c, d, a), block, 40, 7, F3(c, d, a), word[2], 0xc4ac5665, 23);
    b := Add(RotL(Add(Add(Add(b, F3(c, d, a)), word[2]), 0xc4ac5665), 23), c);
    r := Vars(a, b, c, d);
  }

  method ThirdRound(v: Vars, word: seq<bv32>, ghost block: seq<byte>) returns (r: Vars)
    requires |block| == 64 && |word| == 16 && Loaded(word, block)
    ensures r == Steps(v, block, 32, 16)
  {
    hide *;
    r := ThirdRoundStart(v, word, block);
    r := ThirdRoundFinish(r, word, block);
    StepsSplit(v, block, 32, 8, 8);
  }

  lemma FourthRoundStartParameters(word: seq<bv32>, block: seq<byte>)
    requires Loaded(word, block)
    ensures T(48) == 0xf4292244 && Shift(48) == 6 && X(block, Index(48)) == word[0]
    ensures T(49) == 0x432aff97 && Shift(49) == 10 && X(block, Index(49)) == word[7]
    ensures T(50) == 0xab9423a7 && Shift(50) == 15 && X(block, Index(50)) == word[14]
    ensures T(51) == 0xfc93a039 && Shift(51) == 21 && X(block, Index(51)) == word[5]
    ensures T(52) == 0x655b59c3 && Shift(52) == 6 && X(block, Index(52)) == word[12]
    ensures T(53) == 0x8f0ccc92 && Shift(53) == 10 && X(block, Index(53)) == word[3]
    ensures T(54) == 0xffeff47d && Shift(54) == 15 && X(block, Index(54)) == word[10]
    ensures T(55) == 0x85845dd1 && Shift(55) == 21 && X(block, Index(55)) == word[1]
  {
    hide X;
  }

  method FourthRoundStart(v: Vars, word: seq<bv32>, ghost block: seq<byte>) returns (r: Vars)
    requires |block| == 64 && |word| == 16 && Loaded(word, block)
    ensures r == Steps(v, block, 48, 8)
  {
    hide *;
    FourthRoundStartParameters(word, block);
    NoSteps(v, block, 48);
    var a, b, c, d := v.a, v.b, v.c, v.d;
    LineIsStep(v, Vars(a, b, c, d), block, 48, 0, F4(b, c, d), word[0], 0xf4292244, 6);
    a := Add(RotL(Add(Add(Add(a, F4(b, c, d)), word[0]), 0xf4292244), 6), b);
    LineIsStep(v, Vars(d, a, b, c), block, 48, 1, F4(a, b, c), word[7], 0x432aff97, 10);
    d := Add(RotL(Add(Add(Add(d, F4(a, b, c)), word[7]), 0x432aff97), 10), a);
    LineIsStep(v, Vars(c, d, a, b), block, 48, 2, F4(d, a, b), word[14], 0xab9423a7, 15);
    c := Add(RotL(Add(Add(Add(c, F4(d, a, b)), word[14]), 0xab9423a7), 15), d);
    LineIsStep(v, Vars(b, c, d, a), block, 48, 3, F4(c, d, a), word[5], 0xfc93a039, 21);
    b := Add(RotL(Add(Add(Add(b, F4(c, d, a)), word[5]), 0xfc93a039), 21), c);
    LineIsStep(v, Vars(a, b, c, d), block, 48, 4, F4(b, c, d), word[12], 0x655b59c3, 6);
    a := Add(RotL(Add(Add(Add(a, F4(b, c, d)), word[12]), 0x655b59c3), 6), b);
    LineIsStep(v, Vars(d, a, b, c), block, 48, 5, F4(a, b, c), word[3], 0x8f0ccc92, 10);
    d := Add(RotL(Add(Add(Add(d, F4(a, b, c)), word[3]), 0x8f0ccc92), 10), a);
    LineIsStep(v, Vars(c, d, a, b), block, 48, 6, F4(d, a, b), word[10], 0xffeff47d, 15);
    c := Add(RotL(Add(Add(Add(c, F4(d, a, b)), word[10]), 0xffeff47d), 15), d);
    LineIsStep(v, Vars(b, c, d, a), block, 48, 7, F4(c, d, a), word[1], 0x85845dd1, 21);
    b := Add(RotL(Add(Add(Add(b, F4(c, d, a)), word[1]), 0x85845dd1), 21), c);
    r := Vars(a, b, c, d);
  }

  lemma FourthRoundFinishParameters(word: seq<bv32>, block: seq<byte>)
    requires Loaded(word, block)
    ensures T(56) == 0x6fa87e4f && Shift(56) == 6 && X(block, Index(56)) == word[8]
    ensures T(57) == 0xfe2ce6e0 && Shift(57) == 10 && X(block, Index(57)) == word[15]
    ensures T(58) == 0xa3014314 && Shift(58) == 15 && X(block, Index(58)) == word[6]
    ensures T(59) == 0x4e0811a1 && Shift(59) == 21 && X(block, Index(59)) == word[13]
    ensures T(60) == 0xf7537e82 && Shift(60) == 6 && X(block, Index(60)) == word[4]
    ensures T(61) == 0xbd3af235 && Shift(61) == 10 && X(block, Index(61)) == word[11]
    ensures T(62) == 0x2ad7d2bb && Shift(62) == 15 && X(block, Index(62)) == word[2]
    ensures T(63) == 0xeb86d391 && Shift(63) == 21 && X(block, Index(63)) == word[9]
  {
    hide X;
  }

  method FourthRoundFinish(v: Vars, word: seq<bv32>, ghost block: seq<byte>) returns (r: Vars)
    requires |block| == 64 && |word| == 16 && Loaded(word, block)
    ensures r == Steps(v, block, 56, 8)
  {
    hide *;
    FourthRoundFinishParameters(word, block);
    NoSteps(v, block, 56);
    var a, b, c, d := v.a, v.b, v.c, v.d;
    LineIsStep(v, Vars(a, b, c, d), block, 56, 0, F4(b, c, d), word[8], 0x6fa87e4f, 6);
    a := Add(RotL(Add(Add(Add(a, F4(b, c, d)), word[8]), 0x6fa87e4f), 6), b);
    LineIsStep(v, Vars(d, a, b, c), block, 56, 1, F4(a, b, c), word[15], 0xfe2ce6e0, 10);
    d := Add(RotL(Add(Add(Add(d, F4(a, b, c)), word[15]), 0xfe2ce6e0), 10), a);
    LineIsStep(v, Vars(c, d, a, b), block, 56, 2, F4(d, a, b), word[6], 0xa3014314, 15);
    c := Add(RotL(Add(Add(Add(c, F4(d, a, b)), word[6]), 0xa3014314), 15), d);
    LineIsStep(v, Vars(b, c, d, a), block, 56, 3, F4(c, d, a), word[13], 0x4e0811a1, 21);
    b := Add(RotL(Add(Add(Add(b, F4(c, d, a)), word[13]), 0x4e0811a1), 21), c);
    LineIsStep(v, Vars(a, b, c, d), block, 56, 4, F4(b, c, d), word[4], 0xf7537e82, 6);
    a := Add(RotL(Add(Add(Add(a, F4(b, c, d)), word[4]), 0xf7537e82), 6), b);
    LineIsStep(v, Vars(d, a, b, c), block, 56, 5, F4(a, b, c), word[11], 0xbd3af235, 10);
    d := Add(RotL(Add(Add(Add(d, F4(a, b, c)), word[11]), 0xbd3af235), 10), a);
    LineIsStep(v, Vars(c, d, a, b), block, 56, 6, F4(d, a, b), word[2], 0x2ad7d2bb, 15);
    c := Add(RotL(Add(Add(Add(c, F4(d, a, b)), word[2]), 0x2ad7d2bb), 15), d);
    LineIsStep(v, Vars(b, c, d, a), block, 56, 7, F4(c, d, a), word[9], 0xeb86d391, 21);
    b := Add(RotL(Add(Add(Add(b, F4(c, d, a)), word[9]), 0xeb86d391), 21), c);
    r := Vars(a, b, c, d);
  }

  method FourthRound(v: Vars, word: seq<bv32>, ghost block: seq<byte>) returns (r: Vars)
    requires |block| == 64 && |word| == 16 && Loaded(word, block)
    ensures r == Steps(v, block, 48, 16)
  {
    hide *;
    r := FourthRoundStart(v, word, block);
    r := FourthRoundFinish(r, word, block);
    StepsSplit(v, block, 48, 8, 8);
  }

  method LoadWords(data: seq<byte>) returns (word: seq<bv32>)
    requires |data| == 64
    ensures |word| == 16 && Loaded(word, data)
  {
    hide LittleEndian;
    word := [];
    for k := 0 to 16
      invariant |word| == k && forall j | 0 <= j < k :: word[j] == X(data, j)
    {
      word := word + [LittleEndian(data[4 * k..4 * k + 4])];
    }
  }

  /** The block function of the code is the compression function of the RFC. */
  method ProcessBlock(hash: array<bv32>, data: seq<byte>)
    requires hash.Length == 4 && |data| == 64
    modifies hash
    ensures hash[..] == Compress(old(hash[..]), data)
  {
    hide Add, Steps, Loaded;
    var word := LoadWords(data);
    var v0 := Vars(hash[0], hash[1], hash[2], hash[3]);
    var v := FirstRound(v0, word, data);
    v := SecondRound(v, word, data);
    StepsSplit(v0, data, 0, 16, 16);
    v := ThirdRound(v, word, data);
    StepsSplit(v0, data, 0, 32, 16);
    v := FourthRound(v, word, data);
    StepsSplit(v0, data, 0, 48, 16);
    AddComm(hash[0], v.a);
    AddComm(hash[1], v.b);
    AddComm(hash[2], v.c);
    AddComm(hash[3], v.d);
    hash[0] := Add(hash[0], v.a);
    hash[1] := Add(hash[1], v.b);
    hash[2] := Add(hash[2], v.c);
    hash[3] := Add(hash[3], v.d);
  }
}
