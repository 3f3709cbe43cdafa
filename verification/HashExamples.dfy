/** The SHA-256 digest of the bytes 1f 87 7c, one of the hash library's own examples. */
module Sha256Example {
  import opened Bytes
  import opened Words
  import opened Sha256Spec

  /** The example's only block: its 16 words. */
  ghost predicate Example(block: seq<byte>) {
    |block| == 64 && W(block, 0) == 0x1f877c80 && W(block, 15) == 24 && forall t | 0 < t < 15 :: W(block, t) == 0
  }

  /** Word `t` of the schedule from those it is made of. */
  lemma NextWord(block: seq<byte>, t: nat, w2: bv32, w7: bv32, w15: bv32, w16: bv32, w: bv32)
    requires |block| == 64 && 16 <= t && W(block, t - 2) == w2 && W(block, t - 7) == w7
    requires W(block, t - 15) == w15 && W(block, t - 16) == w16
    requires Add(Add(Add(SmallSigma1(w2), w7), SmallSigma0(w15)), w16) == w
    ensures W(block, t) == w
  {
    hide Add, SmallSigma0, SmallSigma1;
  }

  const START: Vars := Vars(0x6a09e667, 0xbb67ae85, 0x3c6ef372, 0xa54ff53a, 0x510e527f, 0x9b05688c, 0x1f83d9ab, 0x5be0cd19)

  /** One more round, of which only the registers `a` and `e` are new. */
  lemma NextRound(block: seq<byte>, t: nat, v: Vars, w: bv32, a: bv32, e: bv32) returns (next: Vars)
    requires |block| == 64 && t < 64 && Rounds(START, block, 0, t) == v && W(block, t) == w
    requires Round(v, K(t), w) == Vars(a, v.a, v.b, v.c, e, v.e, v.f, v.g)
    ensures next == Vars(a, v.a, v.b, v.c, e, v.e, v.f, v.g) == Rounds(START, block, 0, t + 1)
  {
    hide Round, K, W;
    RoundsSplit(START, block, 0, t, 1);
    next := Rounds(START, block, 0, t + 1);
  }

  lemma RoundsNone(block: seq<byte>)
    requires |block| == 64
    ensures Rounds(START, block, 0, 0) == START
  {
  }

  lemma Words16(block: seq<byte>)
    requires Example(block)
    ensures W(block, 16) == 0x1f877c80 && W(block, 17) == 0x000f0000 && W(block, 18) == 0x51d7edec && W(block, 19) == 0x600003c6
    ensures W(block, 20) == 0x0b5fd72a && W(block, 21) == 0x0183fc00 && W(block, 22) == 0x11729349 && W(block, 23) == 0xa107dc8e
    ensures W(block, 24) == 0x1bd8f633 && W(block, 25) == 0x67d6b340 && W(block, 26) == 0xc5d91c70 && W(block, 27) == 0x9b31a1e7
    ensures W(block, 28) == 0xaf0b0810 && W(block, 29) == 0xf65c85df && W(block, 30) == 0xb62f5d37 && W(block, 31) == 0xcb326f97
  {
    hide W;
    NextWord(block, 16, 0x00000000, 0x00000000, 0x00000000, 0x1f877c80, 0x1f877c80);
    NextWord(block, 17, 0x00000018, 0x00000000, 0x00000000, 0x00000000, 0x000f0000);
    NextWord(block, 18, 0x1f877c80, 0x00000000, 0x00000000, 0x00000000, 0x51d7edec);
    NextWord(block, 19, 0x000f0000, 0x00000000, 0x00000000, 0x00000000, 0x600003c6);
    NextWord(block, 20, 0x51d7edec, 0x00000000, 0x00000000, 0x00000000, 0x0b5fd72a);
    NextWord(block, 21, 0x600003c6, 0x00000000, 0x00000000, 0x00000000, 0x0183fc00);
    NextWord(block, 22, 0x0b5fd72a, 0x00000018, 0x00000000, 0x00000000, 0x11729349);
    NextWord(block, 23, 0x0183fc00, 0x1f877c80, 0x00000000, 0x00000000, 0xa107dc8e);
    NextWord(block, 24, 0x11729349, 0x000f0000, 0x00000000, 0x00000000, 0x1bd8f633);
    NextWord(block, 25, 0xa107dc8e, 0x51d7edec, 0x00000000, 0x00000000, 0x67d6b340);
    NextWord(block, 26, 0x1bd8f633, 0x600003c6, 0x00000000, 0x00000000, 0xc5d91c70);
    NextWord(block, 27, 0x67d6b340, 0x0b5fd72a, 0x00000000, 0x00000000, 0x9b31a1e7);
    NextWord(block, 28, 0xc5d91c70, 0x0183fc00, 0x00000000, 0x00000000, 0xaf0b0810);
    NextWord(block, 29, 0x9b31a1e7, 0x11729349, 0x00000000, 0x00000000, 0xf65c85df);
    NextWord(block, 30, 0xaf0b0810, 0xa107dc8e, 0x00000018, 0x00000000, 0xb62f5d37);
    NextWord(block, 31, 0xf65c85df, 0x1bd8f633, 0x1f877c80, 0x00000018, 0xcb326f97);
  }

  lemma Words32(block: seq<byte>)
    requires Example(block)
    ensures W(block, 32) == 0x8c70d3c8 && W(block, 33) == 0x69d632e7 && W(block, 34) == 0xe0f973d4 && W(block, 35) == 0x8ef7ffcf
    ensures W(block, 36) == 0x9898a760 && W(block, 37) == 0xeccfd7a4 && W(block, 38) == 0x2260d8bf && W(block, 39) == 0x9756f23d
    ensures W(block, 40) == 0x1dd5795f && W(block, 41) == 0xae7974d1 && W(block, 42) == 0x1c7de600 && W(block, 43) == 0xbf5f22c5
    ensures W(block, 44) == 0x6bf2c6a3 && W(block, 45) == 0x3cb776c1 && W(block, 46) == 0x363b4f8b && W(block, 47) == 0xf32455c8
  {
    hide W;
    Words16(block);
    NextWord(block, 32, 0xb62f5d37, 0x67d6b340, 0x000f0000, 0x1f877c80, 0x8c70d3c8);
    NextWord(block, 33, 0xcb326f97, 0xc5d91c70, 0x51d7edec, 0x000f0000, 0x69d632e7);
    NextWord(block, 34, 0x8c70d3c8, 0x9b31a1e7, 0x600003c6, 0x51d7edec, 0xe0f973d4);
    NextWord(block, 35, 0x69d632e7, 0xaf0b0810, 0x0b5fd72a, 0x600003c6, 0x8ef7ffcf);
    NextWord(block, 36, 0xe0f973d4, 0xf65c85df, 0x0183fc00, 0x0b5fd72a, 0x9898a760);
    NextWord(block, 37, 0x8ef7ffcf, 0xb62f5d37, 0x11729349, 0x0183fc00, 0xeccfd7a4);
    NextWord(block, 38, 0x9898a760, 0xcb326f97, 0xa107dc8e, 0x11729349, 0x2260d8bf);
    NextWord(block, 39, 0xeccfd7a4, 0x8c70d3c8, 0x1bd8f633, 0xa107dc8e, 0x9756f23d);
    NextWord(block, 40, 0x2260d8bf, 0x69d632e7, 0x67d6b340, 0x1bd8f633, 0x1dd5795f);
    NextWord(block, 41, 0x9756f23d, 0xe0f973d4, 0xc5d91c70, 0x67d6b340, 0xae7974d1);
    NextWord(block, 42, 0x1dd5795f, 0x8ef7ffcf, 0x9b31a1e7, 0xc5d91c70, 0x1c7de600);
    NextWord(block, 43, 0xae7974d1, 0x9898a760, 0xaf0b0810, 0x9b31a1e7, 0xbf5f22c5);
    NextWord(block, 44, 0x1c7de600, 0xeccfd7a4, 0xf65c85df, 0xaf0b0810, 0x6bf2c6a3);
    NextWord(block, 45, 0xbf5f22c5, 0x2260d8bf, 0xb62f5d37, 0xf65c85df, 0x3cb776c1);
    NextWord(block, 46, 0x6bf2c6a3, 0x9756f23d, 0xcb326f97, 0xb62f5d37, 0x363b4f8b);
    NextWord(block, 47, 0x3cb776c1, 0x1dd5795f, 0x8c70d3c8, 0xcb326f97, 0xf32455c8);
  }

  lemma Words48(block: seq<byte>)
    requires Example(block)
    ensures W(block, 48) == 0x58746bee && W(block, 49) == 0x0fe1ac6d && W(block, 50) == 0xca268482 && W(block, 51) == 0xda9da85d
    ensures W(block, 52) == 0x09dd327f && W(block, 53) == 0xd0462ae4 && W(block, 54) == 0x2a425796 && W(block, 55) == 0xa3bd0478
    ensures W(block, 56) == 0x7a921eb5 && W(block, 57) == 0x1572e44e && W(block, 58) == 0x97d27ac3 && W(block, 59) == 0xf1e95197
    ensures W(block, 60) == 0x06b50e2c && W(block, 61) == 0xad091dd4 && W(block, 62) == 0x9bbb81ad && W(block, 63) == 0xe877e996
  {
    hide W;
    Words32(block);
    NextWord(block, 48, 0x363b4f8b, 0xae7974d1, 0x69d632e7, 0x8c70d3c8, 0x58746bee);
    NextWord(block, 49, 0xf32455c8, 0x1c7de600, 0xe0f973d4, 0x69d632e7, 0x0fe1ac6d);
    NextWord(block, 50, 0x58746bee, 0xbf5f22c5, 0x8ef7ffcf, 0xe0f973d4, 0xca268482);
    NextWord(block, 51, 0x0fe1ac6d, 0x6bf2c6a3, 0x9898a760, 0x8ef7ffcf, 0xda9da85d);
    NextWord(block, 52, 0xca268482, 0x3cb776c1, 0xeccfd7a4, 0x9898a760, 0x09dd327f);
    NextWord(block, 53, 0xda9da85d, 0x363b4f8b, 0x2260d8bf, 0xeccfd7a4, 0xd0462ae4);
    NextWord(block, 54, 0x09dd327f, 0xf32455c8, 0x9756f23d, 0x2260d8bf, 0x2a425796);
    NextWord(block, 55, 0xd0462ae4, 0x58746bee, 0x1dd5795f, 0x9756f23d, 0xa3bd0478);
    NextWord(block, 56, 0x2a425796, 0x0fe1ac6d, 0xae7974d1, 0x1dd5795f, 0x7a921eb5);
    NextWord(block, 57, 0xa3bd0478, 0xca268482, 0x1c7de600, 0xae7974d1, 0x1572e44e);
    NextWord(block, 58, 0x7a921eb5, 0xda9da85d, 0xbf5f22c5, 0x1c7de600, 0x97d27ac3);
    NextWord(block, 59, 0x1572e44e, 0x09dd327f, 0x6bf2c6a3, 0xbf5f22c5, 0xf1e95197);
    NextWord(block, 60, 0x97d27ac3, 0xd0462ae4, 0x3cb776c1, 0x6bf2c6a3, 0x06b50e2c);
    NextWord(block, 61, 0xf1e95197, 0x2a425796, 0x363b4f8b, 0x3cb776c1, 0xad091dd4);
    NextWord(block, 62, 0x06b50e2c, 0xa3bd0478, 0xf32455c8, 0x363b4f8b, 0x9bbb81ad);
    NextWord(block, 63, 0xad091dd4, 0x7a921eb5, 0x58746bee, 0xf32455c8, 0xe877e996);
  }

  lemma Rounds0(block: seq<byte>)
    requires Example(block)
    ensures Rounds(START, block, 0, 16) == Vars(0x869e99f9, 0xb33cac61, 0x49bfb557, 0xeaef771f, 0xff8677f8, 0x8537e6fa, 0xe0b5530e, 0xcc79bdad)
  {
    hide W, Rounds;
    RoundsNone(block);
    var v := START;
    v := NextRound(block, 0, v, 0x1f877c80, 0x1b9004cd, 0xb84f5f22);
    v := NextRound(block, 1, v, 0x00000000, 0x4884c757, 0x29522a27);
    v := NextRound(block, 2, v, 0x00000000, 0x80711f66, 0xf5d1ded3);
    v := NextRound(block, 3, v, 0x00000000, 0x894eb398, 0x4b72b468);
    v := NextRound(block, 4, v, 0x00000000, 0xf5136c72, 0x04055533);
    v := NextRound(block, 5, v, 0x00000000, 0xf2a3df39, 0x2672aecb);
    v := NextRound(block, 6, v, 0x00000000, 0x9cdb5b69, 0x222cf67d);
    v := NextRound(block, 7, v, 0x00000000, 0x0fb3794a, 0xd35736f6);
    v := NextRound(block, 8, v, 0x00000000, 0xd34af2fc, 0xa551780e);
    v := NextRound(block, 9, v, 0x00000000, 0x794cf9ed, 0x43158819);
    v := NextRound(block, 10, v, 0x00000000, 0xc2bc2f3e, 0x616d4ec2);
    v := NextRound(block, 11, v, 0x00000000, 0x621ac787, 0x649b5fb1);
    v := NextRound(block, 12, v, 0x00000000, 0xeaef771f, 0xcc79bdad);
    v := NextRound(block, 13, v, 0x00000000, 0x49bfb557, 0xe0b5530e);
    v := NextRound(block, 14, v, 0x00000000, 0xb33cac61, 0x8537e6fa);
    v := NextRound(block, 15, v, 0x00000018, 0x869e99f9, 0xff8677f8);
  }

  lemma Rounds16(block: seq<byte>)
    requires Example(block)
    ensures Rounds(START, block, 0, 32) == Vars(0x8a7ba192, 0x9638345f, 0x724e06af, 0xdb8e8cae, 0xc5226165, 0x0d870442, 0x5ee233b0, 0xb11bb78f)
  {
    hide W, Rounds;
    Words16(block);
    Rounds0(block);
    var v := Vars(0x869e99f9, 0xb33cac61, 0x49bfb557, 0xeaef771f, 0xff8677f8, 0x8537e6fa, 0xe0b5530e, 0xcc79bdad);
    v := NextRound(block, 16, v, 0x1f877c80, 0x8d79525b, 0x209d9779);
    v := NextRound(block, 17, v, 0x000f0000, 0xd79ed5ef, 0x0556a164);
    v := NextRound(block, 18, v, 0x51d7edec, 0xa29915c5, 0xac683958);
    v := NextRound(block, 19, v, 0x600003c6, 0x3096e3a1, 0x8cbfe098);
    v := NextRound(block, 20, v, 0x0b5fd72a, 0xd3636f48, 0xa39b3321);
    v := NextRound(block, 21, v, 0x0183fc00, 0x8324a526, 0xe50cafd0);
    v := NextRound(block, 22, v, 0x11729349, 0xb2b6e65d, 0xa6bf6aa2);
    v := NextRound(block, 23, v, 0xa107dc8e, 0xe4493ecb, 0xfbdfe036);
    v := NextRound(block, 24, v, 0x1bd8f633, 0xfeecf242, 0x047578d1);
    v := NextRound(block, 25, v, 0x67d6b340, 0x91d475d4, 0x7fa664a3);
    v := NextRound(block, 26, v, 0xc5d91c70, 0x3b9004a3, 0x1e73b2ad);
    v := NextRound(block, 27, v, 0x9b31a1e7, 0xb4588710, 0x30ddffd3);
    v := NextRound(block, 28, v, 0xaf0b0810, 0xdb8e8cae, 0xb11bb78f);
    v := NextRound(block, 29, v, 0xf65c85df, 0x724e06af, 0x5ee233b0);
    v := NextRound(block, 30, v, 0xb62f5d37, 0x9638345f, 0x0d870442);
    v := NextRound(block, 31, v, 0xcb326f97, 0x8a7ba192, 0xc5226165);
  }

  lemma Rounds32(block: seq<byte>)
    requires Example(block)
    ensures Rounds(START, block, 0, 48) == Vars(0xe48b2438, 0xa1657ff7, 0xc3ee6920, 0x0feba8ae, 0x70d35967, 0xf85c677d, 0x880755fc, 0xce409b61)
  {
    hide W, Rounds;
    Words32(block);
    Rounds16(block);
    var v := Vars(0x8a7ba192, 0x9638345f, 0x724e06af, 0xdb8e8cae, 0xc5226165, 0x0d870442, 0x5ee233b0, 0xb11bb78f);
    v := NextRound(block, 32, v, 0x8c70d3c8, 0x82a95e06, 0x8b30d485);
    v := NextRound(block, 33, v, 0x69d632e7, 0x13923c7a, 0x0dc0b652);
    v := NextRound(block, 34, v, 0xe0f973d4, 0x197e86d3, 0xfd35835f);
    v := NextRound(block, 35, v, 0x8ef7ffcf, 0x63b468d3, 0xcf99c5ee);
    v := NextRound(block, 36, v, 0x9898a760, 0x83b67ccb, 0xa2d463e5);
    v := NextRound(block, 37, v, 0xeccfd7a4, 0xb3b46de3, 0xe44d90fb);
    v := NextRound(block, 38, v, 0x2260d8bf, 0x194ea20c, 0x3cd1b407);
    v := NextRound(block, 39, v, 0x9756f23d, 0x54e95769, 0xf82c00de);
    v := NextRound(block, 40, v, 0x1dd5795f, 0x7304f037, 0x99a1add6);
    v := NextRound(block, 41, v, 0xae7974d1, 0xc7bc42cf, 0xdb69449f);
    v := NextRound(block, 42, v, 0x1c7de600, 0x9b3b16e2, 0x46435430);
    v := NextRound(block, 43, v, 0xbf5f22c5, 0x92532928, 0x167e979e);
    v := NextRound(block, 44, v, 0x6bf2c6a3, 0x0feba8ae, 0xce409b61);
    v := NextRound(block, 45, v, 0x3cb776c1, 0xc3ee6920, 0x880755fc);
    v := NextRound(block, 46, v, 0x363b4f8b, 0xa1657ff7, 0xf85c677d);
    v := NextRound(block, 47, v, 0xf32455c8, 0xe48b2438, 0x70d35967);
  }

  lemma Rounds48(block: seq<byte>)
    requires Example(block)
    ensures Rounds(START, block, 0, 64) == Vars(0x40f82d2a, 0x482f1a54, 0x105047fa, 0xf28e2a8f, 0x2eb70a6b, 0xb0660436, 0x3f20dd73, 0x229af573)
  {
    hide W, Rounds;
    Words48(block);
    Rounds32(block);
    var v := Vars(0xe48b2438, 0xa1657ff7, 0xc3ee6920, 0x0feba8ae, 0x70d35967, 0xf85c677d, 0x880755fc, 0xce409b61);
    v := NextRound(block, 48, v, 0x58746bee, 0x27946f0d, 0x211b9bc6);
    v := NextRound(block, 49, v, 0x0fe1ac6d, 0xa1bb1d37, 0x5ff4031c);
    v := NextRound(block, 50, v, 0xca268482, 0x8716a0a5, 0x9539df4c);
    v := NextRound(block, 51, v, 0xda9da85d, 0xe27edbb8, 0xe108cc4b);
    v := NextRound(block, 52, v, 0x09dd327f, 0xe824b272, 0x4e444139);
    v := NextRound(block, 53, v, 0xd0462ae4, 0xce0b548b, 0xd23818f9);
    v := NextRound(block, 54, v, 0x2a425796, 0xc755fdef, 0xe9af419a);
    v := NextRound(block, 55, v, 0xa3bd0478, 0x5a1a76bd, 0x253662c1);
    v := NextRound(block, 56, v, 0x7a921eb5, 0x50e7882c, 0xe03a0ddb);
    v := NextRound(block, 57, v, 0x1572e44e, 0x71d5751e, 0x220cf888);
    v := NextRound(block, 58, v, 0x97d27ac3, 0x159e940d, 0x2aca7395);
    v := NextRound(block, 59, v, 0xf1e95197, 0xba8dbeec, 0x237163fc);
    v := NextRound(block, 60, v, 0x06b50e2c, 0xf28e2a8f, 0x229af573);
    v := NextRound(block, 61, v, 0xad091dd4, 0x105047fa, 0x3f20dd73);
    v := NextRound(block, 62, v, 0x9bbb81ad, 0x482f1a54, 0xb0660436);
    v := NextRound(block, 63, v, 0xe877e996, 0x40f82d2a, 0x2eb70a6b);
  }

  const WORDS: seq<bv32> := [0xab021391, 0x0396c8d9, 0x4cbf3b6c, 0x97de1fc9, 0x7fc55cea, 0x4b6b6cc2, 0x5ea4b71e, 0x7e7bc28c]

  lemma Compressed(block: seq<byte>)
    requires Example(block)
    ensures Compress(INITIAL, block) == WORDS
  {
    hide W, Rounds;
    Rounds48(block);
  }
}

/** The SHA-1 digest of the bytes 1f 87 7c. */
module Sha1Example {
  import opened Bytes
  import opened Words
  import opened Sha1Spec

  /** The example's only block: its 16 words. */
  ghost predicate Example(block: seq<byte>) {
    |block| == 64 && W(block, 0) == 0x1f877c80 && W(block, 15) == 24 && forall t | 0 < t < 15 :: W(block, t) == 0
  }

  lemma NextWord(block: seq<byte>, t: nat, w3: bv32, w8: bv32, w14: bv32, w16: bv32, w: bv32)
    requires |block| == 64 && 16 <= t && W(block, t - 3) == w3 && W(block, t - 8) == w8
    requires W(block, t - 14) == w14 && W(block, t - 16) == w16
    requires RotL(Xor(Xor(Xor(w3, w8), w14), w16), 1) == w
    ensures W(block, t) == w
  {
    hide Xor, RotL;
  }

  const START: Vars := Vars(0x67452301, 0xefcdab89, 0x98badcfe, 0x10325476, 0xc3d2e1f0)

  /** One more round, of which only the register `a` and the turned `b` are new. */
  lemma NextRound(block: seq<byte>, t: nat, v: Vars, w: bv32, a: bv32, c: bv32) returns (next: Vars)
    requires |block| == 64 && t < 80 && Rounds(START, block, 0, t) == v && W(block, t) == w
    requires Round(v, F(t, v.b, v.c, v.d), w, K(t)) == Vars(a, v.a, c, v.c, v.d)
    ensures next == Vars(a, v.a, c, v.c, v.d) == Rounds(START, block, 0, t + 1)
  {
    hide Round, K, W, F;
    RoundsSplit(START, block, 0, t, 1);
    next := Rounds(START, block, 0, t + 1);
  }

  lemma RoundsNone(block: seq<byte>)
    requires |block| == 64
    ensures Rounds(START, block, 0, 0) == START
  {
  }

  lemma Words16(block: seq<byte>)
    requires Example(block)
    ensures W(block, 16) == 0x3f0ef900 && W(block, 17) == 0x00000000 && W(block, 18) == 0x00000030 && W(block, 19) == 0x7e1df200
    ensures W(block, 20) == 0x00000000 && W(block, 21) == 0x00000060 && W(block, 22) == 0xfc3be400 && W(block, 23) == 0x00000030
    ensures W(block, 24) == 0x7e1df2c0 && W(block, 25) == 0xf877c801 && W(block, 26) == 0x00000000 && W(block, 27) == 0x00000180
    ensures W(block, 28) == 0xf0ef9003 && W(block, 29) == 0x000000f0 && W(block, 30) == 0x866a3901 && W(block, 31) == 0xe1df2057
  {
    hide W;
    NextWord(block, 16, 0x00000000, 0x00000000, 0x00000000, 0x1f877c80, 0x3f0ef900);
    NextWord(block, 17, 0x00000000, 0x00000000, 0x00000000, 0x00000000, 0x00000000);
    NextWord(block, 18, 0x00000018, 0x00000000, 0x00000000, 0x00000000, 0x00000030);
    NextWord(block, 19, 0x3f0ef900, 0x00000000, 0x00000000, 0x00000000, 0x7e1df200);
    NextWord(block, 20, 0x00000000, 0x00000000, 0x00000000, 0x00000000, 0x00000000);
    NextWord(block, 21, 0x00000030, 0x00000000, 0x00000000, 0x00000000, 0x00000060);
    NextWord(block, 22, 0x7e1df200, 0x00000000, 0x00000000, 0x00000000, 0xfc3be400);
    NextWord(block, 23, 0x00000000, 0x00000018, 0x00000000, 0x00000000, 0x00000030);
    NextWord(block, 24, 0x00000060, 0x3f0ef900, 0x00000000, 0x00000000, 0x7e1df2c0);
    NextWord(block, 25, 0xfc3be400, 0x00000000, 0x00000000, 0x00000000, 0xf877c801);
    NextWord(block, 26, 0x00000030, 0x00000030, 0x00000000, 0x00000000, 0x00000000);
    NextWord(block, 27, 0x7e1df2c0, 0x7e1df200, 0x00000000, 0x00000000, 0x00000180);
    NextWord(block, 28, 0xf877c801, 0x00000000, 0x00000000, 0x00000000, 0xf0ef9003);
    NextWord(block, 29, 0x00000000, 0x00000060, 0x00000018, 0x00000000, 0x000000f0);
    NextWord(block, 30, 0x00000180, 0xfc3be400, 0x3f0ef900, 0x00000000, 0x866a3901);
    NextWord(block, 31, 0xf0ef9003, 0x00000030, 0x00000000, 0x00000018, 0xe1df2057);
  }

  lemma Words32(block: seq<byte>)
    requires Example(block)
    ensures W(block, 32) == 0x82261600 && W(block, 33) == 0x00000600 && W(block, 34) == 0xc3be40cf && W(block, 35) == 0xf877cbc1
    ensures W(block, 36) == 0x19a8e406 && W(block, 37) == 0x877c80df && W(block, 38) == 0xf877c801 && W(block, 39) == 0x000018c0
    ensures W(block, 40) == 0xf68ec83e && W(block, 41) == 0x00000f00 && W(block, 42) == 0x66a39018 && W(block, 43) == 0x1df2051e
    ensures W(block, 44) == 0xde5a8408 && W(block, 45) == 0x000060c0 && W(block, 46) == 0xc393c43d && W(block, 47) == 0x7f0b753e
  {
    hide W;
    Words16(block);
    NextWord(block, 32, 0x000000f0, 0x7e1df2c0, 0x00000030, 0x3f0ef900, 0x82261600);
    NextWord(block, 33, 0x866a3901, 0xf877c801, 0x7e1df200, 0x00000000, 0x00000600);
    NextWord(block, 34, 0xe1df2057, 0x00000000, 0x00000000, 0x00000030, 0xc3be40cf);
    NextWord(block, 35, 0x82261600, 0x00000180, 0x00000060, 0x7e1df200, 0xf877cbc1);
    NextWord(block, 36, 0x00000600, 0xf0ef9003, 0xfc3be400, 0x00000000, 0x19a8e406);
    NextWord(block, 37, 0xc3be40cf, 0x000000f0, 0x00000030, 0x00000060, 0x877c80df);
    NextWord(block, 38, 0xf877cbc1, 0x866a3901, 0x7e1df2c0, 0xfc3be400, 0xf877c801);
    NextWord(block, 39, 0x19a8e406, 0xe1df2057, 0xf877c801, 0x00000030, 0x000018c0);
    NextWord(block, 40, 0x877c80df, 0x82261600, 0x00000000, 0x7e1df2c0, 0xf68ec83e);
    NextWord(block, 41, 0xf877c801, 0x00000600, 0x00000180, 0xf877c801, 0x00000f00);
    NextWord(block, 42, 0x000018c0, 0xc3be40cf, 0xf0ef9003, 0x00000000, 0x66a39018);
    NextWord(block, 43, 0xf68ec83e, 0xf877cbc1, 0x000000f0, 0x00000180, 0x1df2051e);
    NextWord(block, 44, 0x00000f00, 0x19a8e406, 0x866a3901, 0xf0ef9003, 0xde5a8408);
    NextWord(block, 45, 0x66a39018, 0x877c80df, 0xe1df2057, 0x000000f0, 0x000060c0);
    NextWord(block, 46, 0x1df2051e, 0xf877c801, 0x82261600, 0x866a3901, 0xc393c43d);
    NextWord(block, 47, 0xde5a8408, 0x000018c0, 0x00000600, 0xe1df2057, 0x7f0b753e);
  }

  lemma Words48(block: seq<byte>)
    requires Example(block)
    ensures W(block, 48) == 0x6e2dfc63 && W(block, 49) == 0x77c80df8 && W(block, 50) == 0x877c83df && W(block, 51) == 0x19a964c6
    ensures W(block, 52) == 0x909b4bee && W(block, 53) == 0x0000f600 && W(block, 54) == 0xa9874189 && W(block, 55) == 0xdf205221
    ensures W(block, 56) == 0xfc00a48b && W(block, 57) == 0x877a8cdf && W(block, 58) == 0xc14b8bdd && W(block, 59) == 0xf0b74b27
    ensures W(block, 60) == 0x14510e08 && W(block, 61) == 0x7c80d047 && W(block, 62) == 0xe91c65e1 && W(block, 63) == 0x876449df
  {
    hide W;
    Words32(block);
    NextWord(block, 48, 0x000060c0, 0xf68ec83e, 0xc3be40cf, 0x82261600, 0x6e2dfc63);
    NextWord(block, 49, 0xc393c43d, 0x00000f00, 0xf877cbc1, 0x00000600, 0x77c80df8);
    NextWord(block, 50, 0x7f0b753e, 0x66a39018, 0x19a8e406, 0xc3be40cf, 0x877c83df);
    NextWord(block, 51, 0x6e2dfc63, 0x1df2051e, 0x877c80df, 0xf877cbc1, 0x19a964c6);
    NextWord(block, 52, 0x77c80df8, 0xde5a8408, 0xf877c801, 0x19a8e406, 0x909b4bee);
    NextWord(block, 53, 0x877c83df, 0x000060c0, 0x000018c0, 0x877c80df, 0x0000f600);
    NextWord(block, 54, 0x19a964c6, 0xc393c43d, 0xf68ec83e, 0xf877c801, 0xa9874189);
    NextWord(block, 55, 0x909b4bee, 0x7f0b753e, 0x00000f00, 0x000018c0, 0xdf205221);
    NextWord(block, 56, 0x0000f600, 0x6e2dfc63, 0x66a39018, 0xf68ec83e, 0xfc00a48b);
    NextWord(block, 57, 0xa9874189, 0x77c80df8, 0x1df2051e, 0x00000f00, 0x877a8cdf);
    NextWord(block, 58, 0xdf205221, 0x877c83df, 0xde5a8408, 0x66a39018, 0xc14b8bdd);
    NextWord(block, 59, 0xfc00a48b, 0x19a964c6, 0x000060c0, 0x1df2051e, 0xf0b74b27);
    NextWord(block, 60, 0x877a8cdf, 0x909b4bee, 0xc393c43d, 0xde5a8408, 0x14510e08);
    NextWord(block, 61, 0xc14b8bdd, 0x0000f600, 0x7f0b753e, 0x000060c0, 0x7c80d047);
    NextWord(block, 62, 0xf0b74b27, 0xa9874189, 0x6e2dfc63, 0xc393c43d, 0xe91c65e1);
    NextWord(block, 63, 0x14510e08, 0xdf205221, 0x77c80df8, 0x7f0b753e, 0x876449df);
  }

  lemma Words64(block: seq<byte>)
    requires Example(block)
    ensures W(block, 64) == 0xd3a216e0 && W(block, 65) == 0x000f0000 && W(block, 66) == 0xa3901466 && W(block, 67) == 0x75799e02
    ensures W(block, 68) == 0x5a8408de && W(block, 69) == 0x0060c000 && W(block, 70) == 0x93c43dc3 && W(block, 71) == 0x0b753fff
    ensures W(block, 72) == 0xdd13f36d && W(block, 73) == 0xc80df477 && W(block, 74) == 0xfbff5c98 && W(block, 75) == 0x48bbec1e
    ensures W(block, 76) == 0xdf892e80 && W(block, 77) == 0x00f60a00 && W(block, 78) == 0xc38345b9 && W(block, 79) == 0xa72eb140
  {
    hide W;
    Words48(block);
    NextWord(block, 64, 0x7c80d047, 0xfc00a48b, 0x877c83df, 0x6e2dfc63, 0xd3a216e0);
    NextWord(block, 65, 0xe91c65e1, 0x877a8cdf, 0x19a964c6, 0x77c80df8, 0x000f0000);
    NextWord(block, 66, 0x876449df, 0xc14b8bdd, 0x909b4bee, 0x877c83df, 0xa3901466);
    NextWord(block, 67, 0xd3a216e0, 0xf0b74b27, 0x0000f600, 0x19a964c6, 0x75799e02);
    NextWord(block, 68, 0x000f0000, 0x14510e08, 0xa9874189, 0x909b4bee, 0x5a8408de);
    NextWord(block, 69, 0xa3901466, 0x7c80d047, 0xdf205221, 0x0000f600, 0x0060c000);
    NextWord(block, 70, 0x75799e02, 0xe91c65e1, 0xfc00a48b, 0xa9874189, 0x93c43dc3);
    NextWord(block, 71, 0x5a8408de, 0x876449df, 0x877a8cdf, 0xdf205221, 0x0b753fff);
    NextWord(block, 72, 0x0060c000, 0xd3a216e0, 0xc14b8bdd, 0xfc00a48b, 0xdd13f36d);
    NextWord(block, 73, 0x93c43dc3, 0x000f0000, 0xf0b74b27, 0x877a8cdf, 0xc80df477);
    NextWord(block, 74, 0x0b753fff, 0xa3901466, 0x14510e08, 0xc14b8bdd, 0xfbff5c98);
    NextWord(block, 75, 0xdd13f36d, 0x75799e02, 0x7c80d047, 0xf0b74b27, 0x48bbec1e);
    NextWord(block, 76, 0xc80df477, 0x5a8408de, 0xe91c65e1, 0x14510e08, 0xdf892e80);
    NextWord(block, 77, 0xfbff5c98, 0x0060c000, 0x876449df, 0x7c80d047, 0x00f60a00);
    NextWord(block, 78, 0x48bbec1e, 0x93c43dc3, 0xd3a216e0, 0xe91c65e1, 0xc38345b9);
    NextWord(block, 79, 0xdf892e80, 0x0b753fff, 0x000f0000, 0x876449df, 0xa72eb140);
  }

  lemma Rounds0(block: seq<byte>)
    requires Example(block)
    ensures Rounds(START, block, 0, 16) == Vars(0xb1e6f8d3, 0xeebba974, 0x84615e43, 0x7e180870, 0x5f9ac581)
  {
    hide W, Rounds;
    RoundsNone(block);
    var v := START;
    v := NextRound(block, 0, v, 0x1f877c80, 0xbf3c1533, 0x7bf36ae2);
    v := NextRound(block, 1, v, 0x00000000, 0x4e337384, 0x59d148c0);
    v := NextRound(block, 2, v, 0x00000000, 0x137f31e0, 0xefcf054c);
    v := NextRound(block, 3, v, 0x00000000, 0xa61f29c1, 0x138cdce1);
    v := NextRound(block, 4, v, 0x00000000, 0x77c50f79, 0x04dfcc78);
    v := NextRound(block, 5, v, 0x00000000, 0x58934a73, 0x6987ca70);
    v := NextRound(block, 6, v, 0x00000000, 0xe2186f55, 0x5df143de);
    v := NextRound(block, 7, v, 0x00000000, 0x1c05f31f, 0xd624d29c);
    v := NextRound(block, 8, v, 0x00000000, 0x24a9ea8a, 0x78861bd5);
    v := NextRound(block, 9, v, 0x00000000, 0x27d52250, 0xc7017cc7);
    v := NextRound(block, 10, v, 0x00000000, 0x87531010, 0x892a7aa2);
    v := NextRound(block, 11, v, 0x00000000, 0x7e6b1605, 0x09f54894);
    v := NextRound(block, 12, v, 0x00000000, 0xf86021c1, 0x21d4c404);
    v := NextRound(block, 13, v, 0x00000000, 0x1185790e, 0x5f9ac581);
    v := NextRound(block, 14, v, 0x00000000, 0xeebba974, 0x7e180870);
    v := NextRound(block, 15, v, 0x00000018, 0xb1e6f8d3, 0x84615e43);
  }

  lemma Rounds16(block: seq<byte>)
    requires Example(block)
    ensures Rounds(START, block, 0, 32) == Vars(0x0a86a9e7, 0xe868e972, 0x436f35ef, 0x60713c42, 0x39872b3b)
  {
    hide W, Rounds;
    Words16(block);
    Rounds0(block);
    var v := Vars(0xb1e6f8d3, 0xeebba974, 0x84615e43, 0x7e180870, 0x5f9ac581);
    v := NextRound(block, 16, v, 0x3f0ef900, 0xca2c5ad0, 0x3baeea5d);
    v := NextRound(block, 17, v, 0x00000000, 0x53cdca73, 0xec79be34);
    v := NextRound(block, 18, v, 0x00000030, 0x5247e093, 0x328b16b4);
    v := NextRound(block, 19, v, 0x7e1df200, 0x1c049e94, 0xd4f3729c);
    v := NextRound(block, 20, v, 0x00000000, 0x90270113, 0xd491f824);
    v := NextRound(block, 21, v, 0x00000060, 0xc2ab3953, 0x070127a5);
    v := NextRound(block, 22, v, 0xfc3be400, 0xd9284b47, 0xe409c044);
    v := NextRound(block, 23, v, 0x00000030, 0x8a192ba2, 0xf0aace54);
    v := NextRound(block, 24, v, 0x7e1df2c0, 0x04a9bfae, 0xf64a12d1);
    v := NextRound(block, 25, v, 0xf877c801, 0x6d8d60cd, 0xa2864ae8);
    v := NextRound(block, 26, v, 0x00000000, 0x6196bb39, 0x812a6feb);
    v := NextRound(block, 27, v, 0x00000180, 0xe61cacec, 0x5b635833);
    v := NextRound(block, 28, v, 0xf0ef9003, 0x81c4f109, 0x5865aece);
    v := NextRound(block, 29, v, 0x000000f0, 0x0dbcd7bd, 0x39872b3b);
    v := NextRound(block, 30, v, 0x866a3901, 0xe868e972, 0x60713c42);
    v := NextRound(block, 31, v, 0xe1df2057, 0x0a86a9e7, 0x436f35ef);
  }

  lemma Rounds32(block: seq<byte>)
    requires Example(block)
    ensures Rounds(START, block, 0, 48) == Vars(0x1223eb3f, 0x66338249, 0xf3fad0e2, 0x2f76f38f, 0x4770d541)
  {
    hide W, Rounds;
    Words32(block);
    Rounds16(block);
    var v := Vars(0x0a86a9e7, 0xe868e972, 0x436f35ef, 0x60713c42, 0x39872b3b);
    v := NextRound(block, 32, v, 0x82261600, 0x46d34a9c, 0xba1a3a5c);
    v := NextRound(block, 33, v, 0x00000600, 0x9da827bf, 0xc2a1aa79);
    v := NextRound(block, 34, v, 0xc3be40cf, 0x6975350b, 0x11b4d2a7);
    v := NextRound(block, 35, v, 0xf877cbc1, 0x9ecff28c, 0xe76a09ef);
    v := NextRound(block, 36, v, 0x19a8e406, 0xc4ceb9f6, 0xda5d4d42);
    v := NextRound(block, 37, v, 0x877c80df, 0x45db3420, 0x27b3fca3);
    v := NextRound(block, 38, v, 0xf877c801, 0x434249b0, 0xb133ae7d);
    v := NextRound(block, 39, v, 0x000018c0, 0x84dbeea9, 0x1176cd08);
    v := NextRound(block, 40, v, 0xf68ec83e, 0x5a4f2425, 0x10d0926c);
    v := NextRound(block, 41, v, 0x00000f00, 0x9b06cd2c, 0x6136fbaa);
    v := NextRound(block, 42, v, 0x66a39018, 0xb86671bb, 0x5693c909);
    v := NextRound(block, 43, v, 0x1df2051e, 0x1dc35505, 0x26c1b34b);
    v := NextRound(block, 44, v, 0xde5a8408, 0xbddbce3c, 0xee199c6e);
    v := NextRound(block, 45, v, 0x000060c0, 0xcfeb438b, 0x4770d541);
    v := NextRound(block, 46, v, 0xc393c43d, 0x66338249, 0x2f76f38f);
    v := NextRound(block, 47, v, 0x7f0b753e, 0x1223eb3f, 0xf3fad0e2);
  }

  lemma Rounds48(block: seq<byte>)
    requires Example(block)
    ensures Rounds(START, block, 0, 64) == Vars(0x53e03989, 0xff519afb, 0xdf720814, 0x8e3619ac, 0xf9b16ad4)
  {
    hide W, Rounds;
    Words48(block);
    Rounds32(block);
    var v := Vars(0x1223eb3f, 0x66338249, 0xf3fad0e2, 0x2f76f38f, 0x4770d541);
    v := NextRound(block, 48, v, 0x6e2dfc63, 0xf0aac92d, 0x598ce092);
    v := NextRound(block, 49, v, 0x77c80df8, 0x9f5ec4d3, 0xc488facf);
    v := NextRound(block, 50, v, 0x877c83df, 0xc6f4949f, 0x7c2ab24b);
    v := NextRound(block, 51, v, 0x19a964c6, 0xbcef88f7, 0xe7d7b134);
    v := NextRound(block, 52, v, 0x909b4bee, 0x6927d2af, 0xf1bd2527);
    v := NextRound(block, 53, v, 0x0000f600, 0x26415c4b, 0xef3be23d);
    v := NextRound(block, 54, v, 0xa9874189, 0xd1e61b2c, 0xda49f4ab);
    v := NextRound(block, 55, v, 0xdf205221, 0x8b068de9, 0xc9905712);
    v := NextRound(block, 56, v, 0xfc00a48b, 0xb4ea57ff, 0x347986cb);
    v := NextRound(block, 57, v, 0x877a8cdf, 0x173bc627, 0x62c1a37a);
    v := NextRound(block, 58, v, 0xc14b8bdd, 0x3659eca8, 0xed3a95ff);
    v := NextRound(block, 59, v, 0xf0b74b27, 0xe6c5ab53, 0xc5cef189);
    v := NextRound(block, 60, v, 0x14510e08, 0x38d866b2, 0x0d967b2a);
    v := NextRound(block, 61, v, 0x7c80d047, 0x7dc82053, 0xf9b16ad4);
    v := NextRound(block, 62, v, 0xe91c65e1, 0xff519afb, 0x8e3619ac);
    v := NextRound(block, 63, v, 0x876449df, 0x53e03989, 0xdf720814);
  }

  lemma Rounds64(block: seq<byte>)
    requires Example(block)
    ensures Rounds(START, block, 0, 80) == Vars(0x6a2ceff6, 0xec2c8648, 0x72adf782, 0xac5f78c8, 0x51c3dc96)
  {
    hide W, Rounds;
    Words64(block);
    Rounds48(block);
    var v := Vars(0x53e03989, 0xff519afb, 0xdf720814, 0x8e3619ac, 0xf9b16ad4);
    v := NextRound(block, 64, v, 0xd3a216e0, 0xc1d2fff7, 0xffd466be);
    v := NextRound(block, 65, v, 0x000f0000, 0x064e319d, 0x54f80e62);
    v := NextRound(block, 66, v, 0xa3901466, 0x8229a91b, 0xf074bffd);
    v := NextRound(block, 67, v, 0x75799e02, 0x27a86a08, 0x41938c67);
    v := NextRound(block, 68, v, 0x5a8408de, 0xa2bab49b, 0xe08a6a46);
    v := NextRound(block, 69, v, 0x0060c000, 0x99406170, 0x09ea1a82);
    v := NextRound(block, 70, v, 0x93c43dc3, 0x13a17e72, 0xe8aead26);
    v := NextRound(block, 71, v, 0x0b753fff, 0xa2971131, 0x2650185c);
    v := NextRound(block, 72, v, 0xdd13f36d, 0xe1a2c101, 0x84e85f9c);
    v := NextRound(block, 73, v, 0xc80df477, 0xafa6daa0, 0x68a5c44c);
    v := NextRound(block, 74, v, 0xfbff5c98, 0xef7ce5b0, 0x7868b040);
    v := NextRound(block, 75, v, 0x48bbec1e, 0x470f7259, 0x2be9b6a8);
    v := NextRound(block, 76, v, 0xdf892e80, 0xb17de322, 0x3bdf396c);
    v := NextRound(block, 77, v, 0x00f60a00, 0xcab7de09, 0x51c3dc96);
    v := NextRound(block, 78, v, 0xc38345b9, 0xec2c8648, 0xac5f78c8);
    v := NextRound(block, 79, v, 0xa72eb140, 0x6a2ceff6, 0x72adf782);
  }

  const WORDS: seq<bv32> := [0xd17212f7, 0xdbfa31d1, 0x0b68d480, 0xbc91cd3e, 0x1596be86]

  lemma Compressed(block: seq<byte>)
    requires Example(block)
    ensures Compress(INITIAL, block) == WORDS
  {
    hide W, Rounds;
    Rounds64(block);
  }
}

/** The MD5 digest of the bytes 1f 87 7c. */
module Md5Example {
  import opened Bytes
  import opened Words
  import opened Md5Spec

  /** The example's only block: its 16 words. */
  ghost predicate Example(block: seq<byte>) {
    |block| == 64 && X(block, 0) == 0x807c871f && X(block, 14) == 24 && forall k | 0 < k < 16 && k != 14 :: X(block, k) == 0
  }

  const START: Vars := Vars(0x67452301, 0xefcdab89, 0x98badcfe, 0x10325476)

  /** One more step, of which only the register `b` is new. */
  lemma NextStep(block: seq<byte>, i: nat, v: Vars, x: bv32, b: bv32) returns (next: Vars)
    requires |block| == 64 && i < 64 && Steps(START, block, 0, i) == v && X(block, Index(i)) == x
    requires Step(v, Mix(i / 16, v.b, v.c, v.d), x, T(i), Shift(i)) == Vars(v.d, b, v.b, v.c)
    ensures next == Vars(v.d, b, v.b, v.c) == Steps(START, block, 0, i + 1)
  {
    hide *;
    StepsSplit(START, block, 0, i, 1);
    OneStep(Steps(START, block, 0, i), block, i);
    next := Steps(START, block, 0, i + 1);
  }

  lemma Steps0(block: seq<byte>)
    requires Example(block)
    ensures Steps(START, block, 0, 8) == Vars(0x92718d31, 0xee9fcb7f, 0xe3ed85a6, 0xef67dd33)
  {
    hide X, Steps;
    NoSteps(START, block, 0);
    var v := START;
    v := NextStep(block, 0, v, 0x807c871f, 0xe36376b4);
    v := NextStep(block, 1, v, 0x00000000, 0x1ecce601);
    v := NextStep(block, 2, v, 0x00000000, 0x9990263a);
    v := NextStep(block, 3, v, 0x00000000, 0xd85b41f6);
    v := NextStep(block, 4, v, 0x00000000, 0x92718d31);
    v := NextStep(block, 5, v, 0x00000000, 0xef67dd33);
    v := NextStep(block, 6, v, 0x00000000, 0xe3ed85a6);
    v := NextStep(block, 7, v, 0x00000000, 0xee9fcb7f);
  }

  lemma Steps8(block: seq<byte>)
    requires Example(block)
    ensures Steps(START, block, 0, 16) == Vars(0x5f890b9b, 0x7a3bdb9a, 0x1af4b8eb, 0x1e264936)
  {
    hide X, Steps;
    Steps0(block);
    var v := Vars(0x92718d31, 0xee9fcb7f, 0xe3ed85a6, 0xef67dd33);
    v := NextStep(block, 8, v, 0x00000000, 0xde7d636e);
    v := NextStep(block, 9, v, 0x00000000, 0x884a6a12);
    v := NextStep(block, 10, v, 0x00000000, 0x11d80fa7);
    v := NextStep(block, 11, v, 0x00000000, 0x73a9aa2a);
    v := NextStep(block, 12, v, 0x00000000, 0x5f890b9b);
    v := NextStep(block, 13, v, 0x00000000, 0x1e264936);
    v := NextStep(block, 14, v, 0x00000018, 0x1af4b8eb);
    v := NextStep(block, 15, v, 0x00000000, 0x7a3bdb9a);
  }

  lemma Steps16(block: seq<byte>)
    requires Example(block)
    ensures Steps(START, block, 0, 24) == Vars(0xa81983d5, 0xc34fcc70, 0xbc80d61e, 0x29174cb2)
  {
    hide X, Steps;
    Steps8(block);
    var v := Vars(0x5f890b9b, 0x7a3bdb9a, 0x1af4b8eb, 0x1e264936);
    v := NextStep(block, 16, v, 0x00000000, 0x8d8136a8);
    v := NextStep(block, 17, v, 0x00000000, 0x72619335);
    v := NextStep(block, 18, v, 0x00000000, 0xa4fca172);
    v := NextStep(block, 19, v, 0x807c871f, 0x5e8a566e);
    v := NextStep(block, 20, v, 0x00000000, 0xa81983d5);
    v := NextStep(block, 21, v, 0x00000000, 0x29174cb2);
    v := NextStep(block, 22, v, 0x00000000, 0xbc80d61e);
    v := NextStep(block, 23, v, 0x00000000, 0xc34fcc70);
  }

  lemma Steps24(block: seq<byte>)
    requires Example(block)
    ensures Steps(START, block, 0, 32) == Vars(0x57478d3b, 0xa531fb51, 0x0c641bb3, 0x3dc4099e)
  {
    hide X, Steps;
    Steps16(block);
    var v := Vars(0xa81983d5, 0xc34fcc70, 0xbc80d61e, 0x29174cb2);
    v := NextStep(block, 24, v, 0x00000000, 0xb3b5cb5b);
    v := NextStep(block, 25, v, 0x00000018, 0xeff4011b);
    v := NextStep(block, 26, v, 0x00000000, 0x69a42a6d);
    v := NextStep(block, 27, v, 0x00000000, 0x240b934b);
    v := NextStep(block, 28, v, 0x00000000, 0x57478d3b);
    v := NextStep(block, 29, v, 0x00000000, 0x3dc4099e);
    v := NextStep(block, 30, v, 0x00000000, 0x0c641bb3);
    v := NextStep(block, 31, v, 0x00000000, 0xa531fb51);
  }

  lemma Steps32(block: seq<byte>)
    requires Example(block)
    ensures Steps(START, block, 0, 40) == Vars(0xb785c677, 0x412a40e7, 0xd8159e5f, 0xbcdc5463)
  {
    hide X, Steps;
    Steps24(block);
    var v := Vars(0x57478d3b, 0xa531fb51, 0x0c641bb3, 0x3dc4099e);
    v := NextStep(block, 32, v, 0x00000000, 0x626cfaef);
    v := NextStep(block, 33, v, 0x00000000, 0xdb3e5f72);
    v := NextStep(block, 34, v, 0x00000000, 0xb6dff5d6);
    v := NextStep(block, 35, v, 0x00000018, 0x97394817);
    v := NextStep(block, 36, v, 0x00000000, 0xb785c677);
    v := NextStep(block, 37, v, 0x00000000, 0xbcdc5463);
    v := NextStep(block, 38, v, 0x00000000, 0xd8159e5f);
    v := NextStep(block, 39, v, 0x00000000, 0x412a40e7);
  }

  lemma Steps40(block: seq<byte>)
    requires Example(block)
    ensures Steps(START, block, 0, 48) == Vars(0xdd667901, 0x4ec7fc2c, 0xfb53944c, 0x9d55a672)
  {
    hide X, Steps;
    Steps32(block);
    var v := Vars(0xb785c677, 0x412a40e7, 0xd8159e5f, 0xbcdc5463);
    v := NextStep(block, 40, v, 0x00000000, 0xa1774267);
    v := NextStep(block, 41, v, 0x807c871f, 0xb67a1d69);
    v := NextStep(block, 42, v, 0x00000000, 0xa5472094);
    v := NextStep(block, 43, v, 0x00000000, 0x68c31f02);
    v := NextStep(block, 44, v, 0x00000000, 0xdd667901);
    v := NextStep(block, 45, v, 0x00000000, 0x9d55a672);
    v := NextStep(block, 46, v, 0x00000000, 0xfb53944c);
    v := NextStep(block, 47, v, 0x00000000, 0x4ec7fc2c);
  }

  lemma Steps48(block: seq<byte>)
    requires Example(block)
    ensures Steps(START, block, 0, 56) == Vars(0xb8471b2e, 0x47c647ad, 0xe8f42e5f, 0x4ca1ef65)
  {
    hide X, Steps;
    Steps40(block);
    var v := Vars(0xdd667901, 0x4ec7fc2c, 0xfb53944c, 0x9d55a672);
    v := NextStep(block, 48, v, 0x807c871f, 0x40eb0da5);
    v := NextStep(block, 49, v, 0x00000000, 0xe5d1a14f);
    v := NextStep(block, 50, v, 0x00000018, 0x19144f4c);
    v := NextStep(block, 51, v, 0x00000000, 0x67e9136b);
    v := NextStep(block, 52, v, 0x00000000, 0xb8471b2e);
    v := NextStep(block, 53, v, 0x00000000, 0x4ca1ef65);
    v := NextStep(block, 54, v, 0x00000000, 0xe8f42e5f);
    v := NextStep(block, 55, v, 0x00000000, 0x47c647ad);
  }

  lemma Steps56(block: seq<byte>)
    requires Example(block)
    ensures Steps(START, block, 0, 64) == Vars(0x52f289f6, 0x7a9f78f0, 0x70e1d738, 0xffdf251d)
  {
    hide X, Steps;
    Steps48(block);
    var v := Vars(0xb8471b2e, 0x47c647ad, 0xe8f42e5f, 0x4ca1ef65);
    v := NextStep(block, 56, v, 0x00000000, 0x0e4b1efe);
    v := NextStep(block, 57, v, 0x00000000, 0x8005818b);
    v := NextStep(block, 58, v, 0x00000000, 0x8c51a2c1);
    v := NextStep(block, 59, v, 0x00000000, 0xff541a98);
    v := NextStep(block, 60, v, 0x00000000, 0x52f289f6);
    v := NextStep(block, 61, v, 0x00000000, 0xffdf251d);
    v := NextStep(block, 62, v, 0x00000000, 0x70e1d738);
    v := NextStep(block, 63, v, 0x00000000, 0x7a9f78f0);
  }

  const WORDS: seq<bv32> := [0xba37acf7, 0x6a6d2479, 0x099cb436, 0x10117993]

  lemma Compressed(block: seq<byte>)
    requires Example(block)
    ensures Compress(INITIAL, block) == WORDS
  {
    hide X, Steps;
    Steps56(block);
  }
}

/** Digests the hash library's own examples list for the message 1f 87 7c. */
module HashExamples {
  import opened Bytes
  import opened Words
  import opened BlockFold
  import opened HashSpec
  import Hex
  import Crc32Spec
  import Md5Spec
  import Sha1Spec
  import Sha256Spec
  import Md5Example
  import Sha1Example
  import Sha256Example

  const MESSAGE: seq<byte> := [0x1f, 0x87, 0x7c]


  lemma SmallByte()
    ensures ByteOf(24) == 24 && ByteOf(0) == 0
  {
  }

  lemma {:induction false} ZeroBytes(count: nat)
    ensures LowBytes(0, count) == Zeros(count) == HighFirst(0, count)
  {
    SmallByte();
    if count > 0 {
      hide ByteOf;
      ZeroBytes(count - 1);
    }
  }

  lemma LengthFields()
    ensures LengthField(MD5, 3) == [24, 0, 0, 0, 0, 0, 0, 0]
    ensures LengthField(SHA1, 3) == [0, 0, 0, 0, 0, 0, 0, 24] == LengthField(SHA256, 3)
  {
    SmallByte();
    ZeroBytes(7);
    hide ByteOf;
    assert LowBytes(24, 8) == [24] + Zeros(7) && HighFirst(24, 8) == Zeros(7) + [24];
  }

  /** The padded example, word by word of its four bytes. */
  lemma PaddedExample(alg: Algorithm)
    requires !IsSponge(alg)
    ensures var p := Padded(alg, MESSAGE);
      && |p| == 64 && p[0..4] == [0x1f, 0x87, 0x7c, 0x80] && (forall i | 4 <= i < 56 :: p[i] == 0)
      && p[56..60] == (if alg.MD5? then [24, 0, 0, 0] else [0, 0, 0, 0])
      && p[60..64] == (if alg.MD5? then [0, 0, 0, 0] else [0, 0, 0, 24])
  {
    LengthFields();
    hide LengthField;
    assert LengthField(alg, 3) == if alg.MD5? then [24, 0, 0, 0, 0, 0, 0, 0] else [0, 0, 0, 0, 0, 0, 0, 24];
  }

  lemma EndianWords()
    ensures BigEndian([0x1f, 0x87, 0x7c, 0x80]) == 0x1f877c80 && LittleEndian([0x1f, 0x87, 0x7c, 0x80]) == 0x807c871f
    ensures BigEndian([0, 0, 0, 0]) == 0 == LittleEndian([0, 0, 0, 0])
    ensures BigEndian([0, 0, 0, 24]) == 24 == LittleEndian([24, 0, 0, 0])
  {
  }

  lemma ExampleWord(alg: Algorithm, t: nat)
    requires !IsSponge(alg) && t < 16 && |Padded(alg, MESSAGE)| == 64
    ensures
      var four := Padded(alg, MESSAGE)[4 * t..4 * t + 4];
      if alg.MD5? then LittleEndian(four) == if t == 0 then 0x807c871f else if t == 14 then 24 else 0
      else BigEndian(four) == if t == 0 then 0x1f877c80 else if t == 15 then 24 else 0
  {
    PaddedExample(alg);
    EndianWords();
    hide BigEndian, LittleEndian, Padded;
    if 0 < t < 14 {
      assert Padded(alg, MESSAGE)[4 * t..4 * t + 4] == [0, 0, 0, 0];
    }
  }

  lemma Sha256Words(block: seq<byte>, t: nat)
    requires |block| == 64 && t < 16
    ensures Sha256Spec.W(block, t) == BigEndian(block[4 * t..4 * t + 4])
  {
  }

  lemma Sha1Words(block: seq<byte>, t: nat)
    requires |block| == 64 && t < 16
    ensures Sha1Spec.W(block, t) == BigEndian(block[4 * t..4 * t + 4])
  {
  }

  lemma Sha256Block()
    ensures Sha256Example.Example(Padded(SHA256, MESSAGE))
  {
    PaddedExample(SHA256);
    var block := Padded(SHA256, MESSAGE);
    forall t | 0 <= t < 16 ensures Sha256Spec.W(block, t) == if t == 0 then 0x1f877c80 else if t == 15 then 24 else 0 {
      Sha256Words(block, t);
      ExampleWord(SHA256, t);
    }
    hide Padded, Sha256Spec.W;
  }

  lemma Sha1Block()
    ensures Sha1Example.Example(Padded(SHA1, MESSAGE))
  {
    PaddedExample(SHA1);
    var block := Padded(SHA1, MESSAGE);
    forall t | 0 <= t < 16 ensures Sha1Spec.W(block, t) == if t == 0 then 0x1f877c80 else if t == 15 then 24 else 0 {
      Sha1Words(block, t);
      ExampleWord(SHA1, t);
    }
    hide Padded, Sha1Spec.W;
  }

  lemma Md5Block()
    ensures Md5Example.Example(Padded(MD5, MESSAGE))
  {
    PaddedExample(MD5);
    var block := Padded(MD5, MESSAGE);
    forall k | 0 <= k < 16 ensures Md5Spec.X(block, k) == if k == 0 then 0x807c871f else if k == 14 then 24 else 0 {
      ExampleWord(MD5, k);
    }
    hide Padded, Md5Spec.X;
  }

  /** `digest` is that of `m`. The quantifier keeps the digest from being worked out where it is only named. */
  ghost predicate IsDigest(alg: Algorithm, m: seq<byte>, digest: seq<byte>) {
    forall p | p == m :: digest == Digest(alg, p)
  }

  /** The hexadecimal text of one word of a digest. */
  function Text(alg: Algorithm, word: bv32): string {
    Hex.OfBytes(if alg.MD5? then LittleEndianBytes(word) else BigEndianBytes(word))
  }

  lemma FirstText(alg: Algorithm, words: seq<bv32>)
    ensures Hex.OfBytes(WordBytes(alg, words)) == if words == [] then "" else Text(alg, words[0]) + Hex.OfBytes(WordBytes(alg, words[1..]))
  {
    hide Hex.OfByte, LittleEndianBytes, BigEndianBytes;
    if words != [] {
      Hex.Append(if alg.MD5? then LittleEndianBytes(words[0]) else BigEndianBytes(words[0]), WordBytes(alg, words[1..]));
    }
  }

  lemma Regroup(a: string, b: string, c: string, d: string, e: string)
    ensures a + (b + (c + (d + e))) == a + b + c + d + e
  {
  }

  /** The text of four words, and of what follows. */
  lemma FourTexts(alg: Algorithm, w: seq<bv32>, a: string, b: string, c: string, d: string)
    requires |w| >= 4 && Text(alg, w[0]) == a && Text(alg, w[1]) == b && Text(alg, w[2]) == c && Text(alg, w[3]) == d
    ensures Hex.OfBytes(WordBytes(alg, w)) == a + b + c + d + Hex.OfBytes(WordBytes(alg, w[4..]))
  {
    hide *;
    FirstText(alg, w);
    FirstText(alg, w[1..]);
    FirstText(alg, w[2..]);
    FirstText(alg, w[3..]);
    assert w[1..][1..] == w[2..] && w[2..][1..] == w[3..] && w[3..][1..] == w[4..];
    Regroup(a, b, c, d, Hex.OfBytes(WordBytes(alg, w[4..])));
  }

  /** The text of a word from its bytes. */
  lemma TextOf(alg: Algorithm, word: bv32, a: byte, b: byte, c: byte, d: byte, text: string)
    requires (if alg.MD5? then LittleEndianBytes(word) else BigEndianBytes(word)) == [a, b, c, d]
    requires text == [Hex.Digit(a >> 4), Hex.Digit(a & 15), Hex.Digit(b >> 4), Hex.Digit(b & 15),
                      Hex.Digit(c >> 4), Hex.Digit(c & 15), Hex.Digit(d >> 4), Hex.Digit(d & 15)]
    ensures Text(alg, word) == text
  {
    hide Hex.Digit, Hex.OfBytes, LittleEndianBytes, BigEndianBytes;
    assert [a, b, c, d] == [a] + [b] + [c] + [d];
    Hex.Append([a] + [b] + [c], [d]);
    Hex.Append([a] + [b], [c]);
    Hex.Append([a], [b]);
    Hex.One(a);
    Hex.One(b);
    Hex.One(c);
    Hex.One(d);
  }

  lemma Sha256Texts()
    ensures Text(SHA256, 0xab021391) == "ab021391"
    ensures Text(SHA256, 0x0396c8d9) == "0396c8d9"
    ensures Text(SHA256, 0x4cbf3b6c) == "4cbf3b6c"
    ensures Text(SHA256, 0x97de1fc9) == "97de1fc9"
    ensures Text(SHA256, 0x7fc55cea) == "7fc55cea"
    ensures Text(SHA256, 0x4b6b6cc2) == "4b6b6cc2"
    ensures Text(SHA256, 0x5ea4b71e) == "5ea4b71e"
    ensures Text(SHA256, 0x7e7bc28c) == "7e7bc28c"
  {
    TextOf(SHA256, 0xab021391, 0xab, 0x02, 0x13, 0x91, "ab021391");
    TextOf(SHA256, 0x0396c8d9, 0x03, 0x96, 0xc8, 0xd9, "0396c8d9");
    TextOf(SHA256, 0x4cbf3b6c, 0x4c, 0xbf, 0x3b, 0x6c, "4cbf3b6c");
    TextOf(SHA256, 0x97de1fc9, 0x97, 0xde, 0x1f, 0xc9, "97de1fc9");
    TextOf(SHA256, 0x7fc55cea, 0x7f, 0xc5, 0x5c, 0xea, "7fc55cea");
    TextOf(SHA256, 0x4b6b6cc2, 0x4b, 0x6b, 0x6c, 0xc2, "4b6b6cc2");
    TextOf(SHA256, 0x5ea4b71e, 0x5e, 0xa4, 0xb7, 0x1e, "5ea4b71e");
    TextOf(SHA256, 0x7e7bc28c, 0x7e, 0x7b, 0xc2, 0x8c, "7e7bc28c");
  }

  lemma Sha256OfExample(digest: seq<byte>)
    requires IsDigest(SHA256, MESSAGE, digest)
    ensures Hex.OfBytes(digest)
         == "ab021391" + "0396c8d9" + "4cbf3b6c" + "97de1fc9" + ("7fc55cea" + "4b6b6cc2" + "5ea4b71e" + "7e7bc28c")
  {
    hide Padded, WordBytes, Fold, Text, Hex.OfBytes, Sha256Spec.Compress, Sha256Example.Example;
    Sha256Block();
    PaddedExample(SHA256);
    Sha256Example.Compressed(Padded(SHA256, MESSAGE));
    assert digest == Digest(SHA256, MESSAGE);
    FoldOne(SchemeOf(SHA256), Initial(SHA256), Padded(SHA256, MESSAGE));
    Sha256Texts();
    FourTexts(SHA256, Sha256Example.WORDS, "ab021391", "0396c8d9", "4cbf3b6c", "97de1fc9");
    FourTexts(SHA256, Sha256Example.WORDS[4..], "7fc55cea", "4b6b6cc2", "5ea4b71e", "7e7bc28c");
    FirstText(SHA256, []);
  }

  lemma Sha1Texts()
    ensures Text(SHA1, 0xd17212f7) == "d17212f7"
    ensures Text(SHA1, 0xdbfa31d1) == "dbfa31d1"
    ensures Text(SHA1, 0x0b68d480) == "0b68d480"
    ensures Text(SHA1, 0xbc91cd3e) == "bc91cd3e"
    ensures Text(SHA1, 0x1596be86) == "1596be86"
  {
    TextOf(SHA1, 0xd17212f7, 0xd1, 0x72, 0x12, 0xf7, "d17212f7");
    TextOf(SHA1, 0xdbfa31d1, 0xdb, 0xfa, 0x31, 0xd1, "dbfa31d1");
    TextOf(SHA1, 0x0b68d480, 0x0b, 0x68, 0xd4, 0x80, "0b68d480");
    TextOf(SHA1, 0xbc91cd3e, 0xbc, 0x91, 0xcd, 0x3e, "bc91cd3e");
    TextOf(SHA1, 0x1596be86, 0x15, 0x96, 0xbe, 0x86, "1596be86");
  }

  lemma Sha1OfExample(digest: seq<byte>)
    requires IsDigest(SHA1, MESSAGE, digest)
    ensures Hex.OfBytes(digest)
         == "d17212f7" + "dbfa31d1" + "0b68d480" + "bc91cd3e" + "1596be86"
  {
    hide Padded, WordBytes, Fold, Text, Hex.OfBytes, Sha1Spec.Compress, Sha1Example.Example;
    Sha1Block();
    PaddedExample(SHA1);
    Sha1Example.Compressed(Padded(SHA1, MESSAGE));
    assert digest == Digest(SHA1, MESSAGE);
    FoldOne(SchemeOf(SHA1), Initial(SHA1), Padded(SHA1, MESSAGE));
    Sha1Texts();
    FourTexts(SHA1, Sha1Example.WORDS, "d17212f7", "dbfa31d1", "0b68d480", "bc91cd3e");
    FirstText(SHA1, Sha1Example.WORDS[4..]);
    FirstText(SHA1, []);
  }

  lemma Md5Texts()
    ensures Text(MD5, 0xba37acf7) == "f7ac37ba"
    ensures Text(MD5, 0x6a6d2479) == "79246d6a"
    ensures Text(MD5, 0x099cb436) == "36b49c09"
    ensures Text(MD5, 0x10117993) == "93791110"
  {
    TextOf(MD5, 0xba37acf7, 0xf7, 0xac, 0x37, 0xba, "f7ac37ba");
    TextOf(MD5, 0x6a6d2479, 0x79, 0x24, 0x6d, 0x6a, "79246d6a");
    TextOf(MD5, 0x099cb436, 0x36, 0xb4, 0x9c, 0x09, "36b49c09");
    TextOf(MD5, 0x10117993, 0x93, 0x79, 0x11, 0x10, "93791110");
  }

  lemma Md5OfExample(digest: seq<byte>)
    requires IsDigest(MD5, MESSAGE, digest)
    ensures Hex.OfBytes(digest)
         == "f7ac37ba" + "79246d6a" + "36b49c09" + "93791110"
  {
    hide Padded, WordBytes, Fold, Text, Hex.OfBytes, Md5Spec.Compress, Md5Example.Example;
    Md5Block();
    PaddedExample(MD5);
    Md5Example.Compressed(Padded(MD5, MESSAGE));
    assert digest == Digest(MD5, MESSAGE);
    FoldOne(SchemeOf(MD5), Initial(MD5), Padded(MD5, MESSAGE));
    Md5Texts();
    FourTexts(MD5, Md5Example.WORDS, "f7ac37ba", "79246d6a", "36b49c09", "93791110");
    FirstText(MD5, []);
  }

  lemma CrcByte(crc: bv32, b: byte, next: bv32)
    requires Xor(Crc32Spec.Shr8(crc), Crc32Spec.Lookup(0, Xor(Crc32Spec.ByteOf(crc, 0), Crc32Spec.Extend(b)))) == next
    ensures Crc32Spec.FeedBits(crc, MessageBits([b])) == next
  {
    hide *;
    Crc32Spec.ByteStep(crc, b);
  }

  lemma CrcTableEntries()
    ensures Xor(Crc32Spec.Shr8(0xffffffff), Crc32Spec.Lookup(0, Xor(Crc32Spec.ByteOf(0xffffffff, 0), Crc32Spec.Extend(0x1f)))) == 0xa0f51d87
    ensures Xor(Crc32Spec.Shr8(0xa0f51d87), Crc32Spec.Lookup(0, Xor(Crc32Spec.ByteOf(0xa0f51d87, 0), Crc32Spec.Extend(0x87)))) == 0x00a0f51d
    ensures Xor(Crc32Spec.Shr8(0x00a0f51d), Crc32Spec.Lookup(0, Xor(Crc32Spec.ByteOf(0x00a0f51d, 0), Crc32Spec.Extend(0x7c)))) == 0x3ab5f13b
  {
    assert Crc32Spec.Clocks(8, 0xe0) == 0xa00ae278;
    assert Crc32Spec.Clocks(8, 0x00) == 0x00000000;
    assert Crc32Spec.Clocks(8, 0x61) == 0x3ab551ce;
  }

  lemma CrcOfExample()
    ensures Hex.OfBytes(BigEndianBytes(Crc32Spec.CrcOf(0, MESSAGE))) == "c54a0ec4"
  {
    assert Not(0) == 0xffffffff && Not(0x3ab5f13b) == 0xc54a0ec4;
    TextOf(SHA256, 0xc54a0ec4, 0xc5, 0x4a, 0x0e, 0xc4, "c54a0ec4");
    CrcTableEntries();
    hide MessageBits, Hex.OfBytes, Not, Crc32Spec.FeedBits, BigEndianBytes;
    CrcByte(0xffffffff, 0x1f, 0xa0f51d87);
    CrcByte(0xa0f51d87, 0x87, 0x00a0f51d);
    CrcByte(0x00a0f51d, 0x7c, 0x3ab5f13b);
    assert MESSAGE == [0x1f] + [0x87] + [0x7c];
    MessageBitsAppend([0x1f] + [0x87], [0x7c]);
    MessageBitsAppend([0x1f], [0x87]);
    Crc32Spec.FeedAppend(0xffffffff, MessageBits([0x1f] + [0x87]), MessageBits([0x7c]));
    Crc32Spec.FeedAppend(0xffffffff, MessageBits([0x1f]), MessageBits([0x87]));
  }
}
