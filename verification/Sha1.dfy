/** SHA-1: the compression function of section 6.1.2 of FIPS 180-4. */
module Sha1Spec {
  import opened Bytes
  import opened Words
  import opened Roots

  const INITIAL: seq<bv32> := [0x67452301, 0xefcdab89, 0x98badcfe, 0x10325476, 0xc3d2e1f0]

  function Ch(x: bv32, y: bv32, z: bv32): bv32 { Xor(And(x, y), And(Not(x), z)) }

  function Parity(x: bv32, y: bv32, z: bv32): bv32 { Xor(Xor(x, y), z) }

  function Maj(x: bv32, y: bv32, z: bv32): bv32 { Xor(Xor(And(x, y), And(x, z)), And(y, z)) }

  function F(t: nat, x: bv32, y: bv32, z: bv32): bv32 {
    if t < 20 then Ch(x, y, z) else if t < 40 then Parity(x, y, z) else if t < 60 then Maj(x, y, z) else Parity(x, y, z)
  }

  function K(t: nat): bv32 {
    if t < 20 then 0x5a827999 else if t < 40 then 0x6ed9eba1 else if t < 60 then 0x8f1bbcdc else 0xca62c1d6
  }

  /** The number whose square root, times 2^30, gives the constant of round `t`. */
  function Radicand(t: nat): nat {
    if t < 20 then 2 else if t < 40 then 3 else if t < 60 then 5 else 10
  }

  lemma KFromSquareRoots(t: nat)
    requires t < 80
    ensures ScaledSquareRoot(Radicand(t), K(t))
  {
    assert ScaledSquareRoot(2, 0x5a827999);
    assert ScaledSquareRoot(3, 0x6ed9eba1);
    assert ScaledSquareRoot(5, 0x8f1bbcdc);
    assert ScaledSquareRoot(10, 0xca62c1d6);
  }

  /** Word `t` of the message schedule of a 64-byte block. */
  function W(block: seq<byte>, t: nat): bv32
    requires |block| == 64
  {
    if t < 16 then BigEndian(block[4 * t..4 * t + 4])
    else RotL(Xor(Xor(Xor(W(block, t - 3), W(block, t - 8)), W(block, t - 14)), W(block, t - 16)), 1)
  }

  datatype Vars = Vars(a: bv32, b: bv32, c: bv32, d: bv32, e: bv32)

  /** One round, the sum in the order of section 6.1.2 of FIPS 180-4. */
  function Round(v: Vars, mixed: bv32, w: bv32, k: bv32): Vars {
    Vars(Add(Add(Add(Add(RotL(v.a, 5), mixed), v.e), k), w), v.a, RotL(v.b, 30), v.c, v.d)
  }

  /** Rounds `t` to `t + n - 1`. */
  function Rounds(v: Vars, block: seq<byte>, t: nat, n: nat): Vars
    requires |block| == 64 && t + n <= 80
    decreases n
  {
    if n == 0 then v
    else Rounds(Round(v, F(t, v.b, v.c, v.d), W(block, t), K(t)), block, t + 1, n - 1)
  }

  function Compress(h: seq<bv32>, block: seq<byte>): (r: seq<bv32>)
    requires |h| == 5 && |block| == 64
    ensures |r| == 5
  {
    var v := Rounds(Vars(h[0], h[1], h[2], h[3], h[4]), block, 0, 80);
    [Add(v.a, h[0]), Add(v.b, h[1]), Add(v.c, h[2]), Add(v.d, h[3]), Add(v.e, h[4])]
  }

  lemma {:induction false} RoundsSplit(v: Vars, block: seq<byte>, t: nat, m: nat, n: nat)
    requires |block| == 64 && t + m + n <= 80
    ensures Rounds(v, block, t, m + n) == Rounds(Rounds(v, block, t, m), block, t + m, n)
    decreases m
  {
    hide Round, W, K, F;
    if m > 0 {
      RoundsSplit(Round(v, F(t, v.b, v.c, v.d), W(block, t), K(t)), block, t + 1, m - 1, n);
    }
  }

  lemma NoRounds(v: Vars, block: seq<byte>, t: nat)
    requires |block| == 64 && t <= 80
    ensures Rounds(v, block, t, 0) == v
  {
  }

  lemma OneRound(v: Vars, block: seq<byte>, t: nat)
    requires |block| == 64 && t < 80
    ensures Rounds(v, block, t, 1) == Round(v, F(t, v.b, v.c, v.d), W(block, t), K(t))
  {
    hide Round, W, K, F;
  }
}

/** The code of the SHA-1 block function: four loops of five unrolled lines. */
module Sha1 {
  import opened Bytes
  import opened Words
  import opened Sha1Spec

  function F1(b: bv32, c: bv32, d: bv32): bv32 { Xor(d, And(b, Xor(c, d))) }

  function F2(b: bv32, c: bv32, d: bv32): bv32 { Xor(Xor(b, c), d) }

  function F3(b: bv32, c: bv32, d: bv32): bv32 { Or(Or(And(b, c), And(b, d)), And(c, d)) }

  lemma ChooseBits(b: bv32, c: bv32, d: bv32)
    ensures d ^ (b & (c ^ d)) == (b & c) ^ (!b & d)
  {
  }

  lemma ChooseCodeSide(b: bv32, c: bv32, d: bv32)
    ensures F1(b, c, d) == d ^ (b & (c ^ d))
  {
  }

  lemma ChooseSpecSide(b: bv32, c: bv32, d: bv32)
    ensures Ch(b, c, d) == (b & c) ^ (!b & d)
  {
  }

  lemma MajorityBits(b: bv32, c: bv32, d: bv32)
    ensures (b & c) | (b & d) | (c & d) == (b & c) ^ (b & d) ^ (c & d)
  {
  }

  lemma MajorityCodeSide(b: bv32, c: bv32, d: bv32)
    ensures F3(b, c, d) == (b & c) | (b & d) | (c & d)
  {
  }

  lemma MajoritySpecSide(b: bv32, c: bv32, d: bv32)
    ensures Maj(b, c, d) == (b & c) ^ (b & d) ^ (c & d)
  {
  }

  lemma ParityIsF2(b: bv32, c: bv32, d: bv32)
    ensures F2(b, c, d) == Parity(b, c, d)
  {
    hide Xor;
  }

  /** The rewritten mixing functions are those of the standard. */
  lemma MixingFunctions(b: bv32, c: bv32, d: bv32)
    ensures F1(b, c, d) == Ch(b, c, d) && F2(b, c, d) == Parity(b, c, d) && F3(b, c, d) == Maj(b, c, d)
  {
    ParityIsF2(b, c, d);
    hide *;
    ChooseBits(b, c, d);
    ChooseCodeSide(b, c, d);
    ChooseSpecSide(b, c, d);
    MajorityBits(b, c, d);
    MajorityCodeSide(b, c, d);
    MajoritySpecSide(b, c, d);
  }

  lemma LineSum(p: bv32, e: bv32, k: bv32, w: bv32)
    ensures Add(e, Add(Add(p, w), k)) == Add(Add(Add(p, e), k), w)
  {
    hide *;
    AddComm(e, Add(Add(p, w), k));
    AddAssoc(p, w, k);
    AddComm(w, k);
    AddAssoc(p, Add(k, w), e);
    AddComm(Add(k, w), e);
    AddAssoc(p, e, Add(k, w));
    AddAssoc(Add(p, e), k, w);
  }

  /** One unrolled line, for whichever registers play a to e, is one more round. */
  lemma LineIsRound(v0: Vars, v: Vars, block: seq<byte>, n: nat, mixed: bv32, w: bv32, k: bv32)
    requires |block| == 64 && n < 80 && v == Rounds(v0, block, 0, n)
    requires w == W(block, n) && k == K(n)
    requires mixed == (if n < 20 then F1(v.b, v.c, v.d) else if n < 40 then F2(v.b, v.c, v.d)
                       else if n < 60 then F3(v.b, v.c, v.d) else F2(v.b, v.c, v.d))
    ensures Rounds(v0, block, 0, n + 1)
         == Vars(Add(v.e, Add(Add(Add(RotL(v.a, 5), mixed), w), k)), v.a, RotL(v.b, 30), v.c, v.d)
  {
    hide Add, RotL, W, K, Rounds, F1, F2, F3, Ch, Parity, Maj;
    MixingFunctions(v.b, v.c, v.d);
    LineSum(Add(RotL(v.a, 5), mixed), v.e, k, w);
    OneRound(v, block, n);
    RoundsSplit(v0, block, 0, n, 1);
  }

  /** The first `hi` words of the schedule are in place. */
  ghost predicate Scheduled(words: array<bv32>, block: seq<byte>, hi: nat)
    reads words
  {
    |block| == 64 && words.Length == 80 && hi <= 80 && forall j | 0 <= j < hi :: words[j] == W(block, j)
  }

  lemma FiveWords(words: array<bv32>, block: seq<byte>, t: nat)
    requires Scheduled(words, block, 80) && t + 5 <= 80
    ensures |block| == 64 && words.Length == 80
    ensures words[t] == W(block, t) && words[t + 1] == W(block, t + 1) && words[t + 2] == W(block, t + 2)
    ensures words[t + 3] == W(block, t + 3) && words[t + 4] == W(block, t + 4)
  {
    hide W;
  }

  lemma Constant(t: nat)
    ensures t < 20 ==> K(t) == 0x5a827999
    ensures 20 <= t < 40 ==> K(t) == 0x6ed9eba1
    ensures 40 <= t < 60 ==> K(t) == 0x8f1bbcdc
    ensures 60 <= t ==> K(t) == 0xca62c1d6
  {
  }

  method LoadWords(words: array<bv32>, data: seq<byte>)
    requires |data| == 64 && words.Length == 80
    modifies words
    ensures Scheduled(words, data, 80)
  {
    hide BigEndian, LittleEndian, Swap, Xor, RotL;
    for i := 0 to 16
      invariant Scheduled(words, data, i)
    {
      words[i] := Swap(LittleEndian(data[4 * i..4 * i + 4]));
      SwapLittleEndian(data[4 * i..4 * i + 4]);
    }
    for i := 16 to 80
      invariant Scheduled(words, data, i)
    {
      words[i] := RotL(Xor(Xor(Xor(words[i - 3], words[i - 8]), words[i - 14]), words[i - 16]), 1);
    }
  }

  method FirstRound(v: Vars, words: array<bv32>, ghost v0: Vars, ghost block: seq<byte>) returns (r: Vars)
    requires |block| == 64 && Scheduled(words, block, 80) && v == Rounds(v0, block, 0, 0)
    ensures r == Rounds(v0, block, 0, 20)
  {
    hide *;
    var a, b, c, d, e := v.a, v.b, v.c, v.d, v.e;
    for i := 0 to 4
      invariant Vars(a, b, c, d, e) == Rounds(v0, block, 0, 5 * i)
    {
      var offset := 5 * i;
      FiveWords(words, block, offset);
      Constant(offset);
      LineIsRound(v0, Vars(a, b, c, d, e), block, offset, F1(b, c, d), words[offset], 0x5a827999);
      e := Add(e, Add(Add(Add(RotL(a, 5), F1(b, c, d)), words[offset]), 0x5a827999)); b := RotL(b, 30);
      Constant(offset + 1);
      LineIsRound(v0, Vars(e, a, b, c, d), block, offset + 1, F1(a, b, c), words[offset + 1], 0x5a827999);
      d := Add(d, Add(Add(Add(RotL(e, 5), F1(a, b, c)), words[offset + 1]), 0x5a827999)); a := RotL(a, 30);
      Constant(offset + 2);
      LineIsRound(v0, Vars(d, e, a, b, c), block, offset + 2, F1(e, a, b), words[offset + 2], 0x5a827999);
      c := Add(c, Add(Add(Add(RotL(d, 5), F1(e, a, b)), words[offset + 2]), 0x5a827999)); e := RotL(e, 30);
      Constant(offset + 3);
      LineIsRound(v0, Vars(c, d, e, a, b), block, offset + 3, F1(d, e, a), words[offset + 3], 0x5a827999);
      b := Add(b, Add(Add(Add(RotL(c, 5), F1(d, e, a)), words[offset + 3]), 0x5a827999)); d := RotL(d, 30);
      Constant(offset + 4);
      LineIsRound(v0, Vars(b, c, d, e, a), block, offset + 4, F1(c, d, e), words[offset + 4], 0x5a827999);
      a := Add(a, Add(Add(Add(RotL(b, 5), F1(c, d, e)), words[offset + 4]), 0x5a827999)); c := RotL(c, 30);
    }
    r := Vars(a, b, c, d, e);
  }

  method SecondRound(v: Vars, words: array<bv32>, ghost v0: Vars, ghost block: seq<byte>) returns (r: Vars)
    requires |block| == 64 && Scheduled(words, block, 80) && v == Rounds(v0, block, 0, 20)
    ensures r == Rounds(v0, block, 0, 40)
  {
    hide *;
    var a, b, c, d, e := v.a, v.b, v.c, v.d, v.e;
    for i := 4 to 8
      invariant Vars(a, b, c, d, e) == Rounds(v0, block, 0, 5 * i)
    {
      var offset := 5 * i;
      FiveWords(words, block, offset);
      Constant(offset);
      LineIsRound(v0, Vars(a, b, c, d, e), block, offset, F2(b, c, d), words[offset], 0x6ed9eba1);
      e := Add(e, Add(Add(Add(RotL(a, 5), F2(b, c, d)), words[offset]), 0x6ed9eba1)); b := RotL(b, 30);
      Constant(offset + 1);
      LineIsRound(v0, Vars(e, a, b, c, d), block, offset + 1, F2(a, b, c), words[offset + 1], 0x6ed9eba1);
      d := Add(d, Add(Add(Add(RotL(e, 5), F2(a, b, c)), words[offset + 1]), 0x6ed9eba1)); a := RotL(a, 30);
      Constant(offset + 2);
      LineIsRound(v0, Vars(d, e, a, b, c), block, offset + 2, F2(e, a, b), words[offset + 2], 0x6ed9eba1);
      c := Add(c, Add(Add(Add(RotL(d, 5), F2(e, a, b)), words[offset + 2]), 0x6ed9eba1)); e := RotL(e, 30);
      Constant(offset + 3);
      LineIsRound(v0, Vars(c, d, e, a, b), block, offset + 3, F2(d, e, a), words[offset + 3], 0x6ed9eba1);
      b := Add(b, Add(Add(Add(RotL(c, 5), F2(d, e, a)), words[offset + 3]), 0x6ed9eba1)); d := RotL(d, 30);
      Constant(offset + 4);
      LineIsRound(v0, Vars(b, c, d, e, a), block, offset + 4, F2(c, d, e), words[offset + 4], 0x6ed9eba1);
      a := Add(a, Add(Add(Add(RotL(b, 5), F2(c, d, e)), words[offset + 4]), 0x6ed9eba1)); c := RotL(c, 30);
    }
    r := Vars(a, b, c, d, e);
  }

  method ThirdRound(v: Vars, words: array<bv32>, ghost v0: Vars, ghost block: seq<byte>) returns (r: Vars)
    requires |block| == 64 && Scheduled(words, block, 80) && v == Rounds(v0, block, 0, 40)
    ensures r == Rounds(v0, block, 0, 60)
  {
    hide *;
    var a, b, c, d, e := v.a, v.b, v.c, v.d, v.e;
    for i := 8 to 12
      invariant Vars(a, b, c, d, e) == Rounds(v0, block, 0, 5 * i)
    {
      var offset := 5 * i;
      FiveWords(words, block, offset);
      Constant(offset);
      LineIsRound(v0, Vars(a, b, c, d, e), block, offset, F3(b, c, d), words[offset], 0x8f1bbcdc);
      e := Add(e, Add(Add(Add(RotL(a, 5), F3(b, c, d)), words[offset]), 0x8f1bbcdc)); b := RotL(b, 30);
      Constant(offset + 1);
      LineIsRound(v0, Vars(e, a, b, c, d), block, offset + 1, F3(a, b, c), words[offset + 1], 0x8f1bbcdc);
      d := Add(d, Add(Add(Add(RotL(e, 5), F3(a, b, c)), words[offset + 1]), 0x8f1bbcdc)); a := RotL(a, 30);
      Constant(offset + 2);
      LineIsRound(v0, Vars(d, e, a, b, c), block, offset + 2, F3(e, a, b), words[offset + 2], 0x8f1bbcdc);
      c := Add(c, Add(Add(Add(RotL(d, 5), F3(e, a, b)), words[offset + 2]), 0x8f1bbcdc)); e := RotL(e, 30);
      Constant(offset + 3);
      LineIsRound(v0, Vars(c, d, e, a, b), block, offset + 3, F3(d, e, a), words[offset + 3], 0x8f1bbcdc);
      b := Add(b, Add(Add(Add(RotL(c, 5), F3(d, e, a)), words[offset + 3]), 0x8f1bbcdc)); d := RotL(d, 30);
      Constant(offset + 4);
      LineIsRound(v0, Vars(b, c, d, e, a), block, offset + 4, F3(c, d, e), words[offset + 4], 0x8f1bbcdc);
      a := Add(a, Add(Add(Add(RotL(b, 5), F3(c, d, e)), words[offset + 4]), 0x8f1bbcdc)); c := RotL(c, 30);
    }
    r := Vars(a, b, c, d, e);
  }

  method FourthRound(v: Vars, words: array<bv32>, ghost v0: Vars, ghost block: seq<byte>) returns (r: Vars)
    requires |block| == 64 && Scheduled(words, block, 80) && v == Rounds(v0, block, 0, 60)
    ensures r == Rounds(v0, block, 0, 80)
  {
    hide *;
    var a, b, c, d, e := v.a, v.b, v.c, v.d, v.e;
    for i := 12 to 16
      invariant Vars(a, b, c, d, e) == Rounds(v0, block, 0, 5 * i)
    {
      var offset := 5 * i;
      FiveWords(words, block, offset);
      Constant(offset);
      LineIsRound(v0, Vars(a, b, c, d, e), block, offset, F2(b, c, d), words[offset], 0xca62c1d6);
      e := Add(e, Add(Add(Add(RotL(a, 5), F2(b, c, d)), words[offset]), 0xca62c1d6)); b := RotL(b, 30);
      Constant(offset + 1);
      LineIsRound(v0, Vars(e, a, b, c, d), block, offset + 1, F2(a, b, c), words[offset + 1], 0xca62c1d6);
      d := Add(d, Add(Add(Add(RotL(e, 5), F2(a, b, c)), words[offset + 1]), 0xca62c1d6)); a := RotL(a, 30);
      Constant(offset + 2);
      LineIsRound(v0, Vars(d, e, a, b, c), block, offset + 2, F2(e, a, b), words[offset + 2], 0xca62c1d6);
      c := Add(c, Add(Add(Add(RotL(d, 5), F2(e, a, b)), words[offset + 2]), 0xca62c1d6)); e := RotL(e, 30);
      Constant(offset + 3);
      LineIsRound(v0, Vars(c, d, e, a, b), block, offset + 3, F2(d, e, a), words[offset + 3], 0xca62c1d6);
      b := Add(b, Add(Add(Add(RotL(c, 5), F2(d, e, a)), words[offset + 3]), 0xca62c1d6)); d := RotL(d, 30);
      Constant(offset + 4);
      LineIsRound(v0, Vars(b, c, d, e, a), block, offset + 4, F2(c, d, e), words[offset + 4], 0xca62c1d6);
      a := Add(a, Add(Add(Add(RotL(b, 5), F2(c, d, e)), words[offset + 4]), 0xca62c1d6)); c := RotL(c, 30);
    }
    r := Vars(a, b, c, d, e);
  }

  method AllRounds(v0: Vars, words: array<bv32>, ghost block: seq<byte>) returns (v: Vars)
    requires |block| == 64 && Scheduled(words, block, 80)
    ensures v == Rounds(v0, block, 0, 80)
  {
    hide *;
    NoRounds(v0, block, 0);
    v := FirstRound(v0, words, v0, block);
    v := SecondRound(v, words, v0, block);
    v := ThirdRound(v, words, v0, block);
    v := FourthRound(v, words, v0, block);
  }

  /** The block function of the code is the compression function of the standard. */
  method ProcessBlock(hash: array<bv32>, data: seq<byte>)
    requires hash.Length == 5 && |data| == 64
    modifies hash
    ensures hash[..] == Compress(old(hash[..]), data)
  {
    hide Add, Rounds;
    var words := new bv32[80];
    LoadWords(words, data);
    var v := AllRounds(Vars(hash[0], hash[1], hash[2], hash[3], hash[4]), words, data);
    AddComm(hash[0], v.a);
    AddComm(hash[1], v.b);
    AddComm(hash[2], v.c);
    AddComm(hash[3], v.d);
    AddComm(hash[4], v.e);
    hash[0] := Add(hash[0], v.a);
    hash[1] := Add(hash[1], v.b);
    hash[2] := Add(hash[2], v.c);
    hash[3] := Add(hash[3], v.d);
    hash[4] := Add(hash[4], v.e);
  }
}
