/** Remainders modulo a block length. */
module BlockArithmetic {
  lemma ModUnique(a: int, n: int, q: int, r: int)
    requires n > 0 && a == n * q + r && 0 <= r < n
    ensures a % n == r
  {
    var d := a / n - q;
    assert n * (a / n) == n * q + n * d;
    assert n * d == r - a % n;
    assert d > 0 ==> n * d >= n;
    assert d < 0 ==> n * d <= -n;
  }

  lemma DivUnique(a: int, n: int, q: int, r: int)
    requires n > 0 && a == n * q + r && 0 <= r < n
    ensures a / n == q
  {
    var d := a / n - q;
    assert n * (a / n) == n * q + n * d;
    assert n * d == r - a % n;
    assert d > 0 ==> n * d >= n;
    assert d < 0 ==> n * d <= -n;
  }

  lemma EightTimes(x: nat)
    ensures (8 * x) % 512 == 8 * (x % 64)
  {
  }

  lemma Complement(r: nat)
    requires r < 64
    ensures (119 - r) % 64 == if r <= 55 then 55 - r else 119 - r
  {
  }

  lemma SplitTo56(q: nat, r: nat, k: nat)
    requires r < 64
    ensures k < (if r <= 55 then 55 - r else 119 - r) ==> (64 * q + r + 1 + k) % 64 != 56
    ensures k == (if r <= 55 then 55 - r else 119 - r) ==> (64 * q + r + 1 + k) % 64 == 56
  {
    var t := r + 1 + k;
    if t < 64 {
      ModUnique(64 * q + t, 64, q, t);
    } else if t < 128 {
      ModUnique(64 * q + t, 64, q + 1, t - 64);
    }
  }

  /** The least `k` that brings `n + 1 + k` to 56 modulo 64. */
  lemma LeastTo56(n: nat, k: nat)
    ensures (n + 1 + (119 - n % 64) % 64) % 64 == 56
    ensures (n + 1 + k) % 64 == 56 ==> k >= (119 - n % 64) % 64
  {
    Complement(n % 64);
    SplitTo56(n / 64, n % 64, k);
    SplitTo56(n / 64, n % 64, (119 - n % 64) % 64);
  }

  lemma Remainders(a: int, n: int)
    requires n > 0
    ensures (a + n) % n == a % n && (a + (n - a % n)) % n == 0
    ensures (a - n) % n == a % n
    ensures 0 <= a < n ==> a % n == a
  {
    var q, r := a / n, a % n;
    assert n * (q + 1) == n * q + n;
    assert n * (q - 1) == n * q - n;
    ModUnique(a + n, n, q + 1, r);
    ModUnique(a - n, n, q - 1, r);
    ModUnique(a + (n - r), n, q + 1, 0);
    if 0 <= a < n { ModUnique(a, n, 0, a); }
  }

  lemma RemainderOfSum(a: int, b: int, n: int)
    requires n > 0 && a % n == 0
    ensures (a + b) % n == b % n
  {
    assert n * (a / n + b / n) == n * (a / n) + n * (b / n);
    ModUnique(a + b, n, a / n + b / n, b % n);
  }

  /** The range of a 64-bit counter. */
  const TWO64: int := 0x1_0000_0000_0000_0000

  lemma CountStep(n: nat, size: nat)
    ensures (n % TWO64 + size) % TWO64 == (n + size) % TWO64
  {
  }
}

/** Folding a step over the complete blocks of a message, for any step. */
module BlockFold {
  import opened Bytes
  import opened BlockArithmetic

  /** Block length, initial value and step of a block-wise computation. */
  datatype Scheme<!C> = Scheme(size: nat, initial: C, step: (C, seq<byte>) -> C)

  function Fold<C>(scheme: Scheme<C>, c: C, message: seq<byte>): C
    requires scheme.size > 0
    decreases |message|
  {
    if |message| < scheme.size then c
    else Fold(scheme, scheme.step(c, message[..scheme.size]), message[scheme.size..])
  }

  lemma {:induction false} FoldAppend<C>(scheme: Scheme<C>, c: C, x: seq<byte>, y: seq<byte>)
    requires scheme.size > 0 && |x| % scheme.size == 0
    ensures Fold(scheme, c, x + y) == Fold(scheme, Fold(scheme, c, x), y)
    decreases |x|
  {
    var size := scheme.size;
    Remainders(|x|, size);
    if |x| < size {
      assert x + y == y;
    } else {
      assert (x + y)[..size] == x[..size] && (x + y)[size..] == x[size..] + y;
      FoldAppend(scheme, scheme.step(c, x[..size]), x[size..], y);
    }
  }

  lemma FoldBlock<C>(scheme: Scheme<C>, c: C, x: seq<byte>, block: seq<byte>)
    requires scheme.size > 0 && |x| % scheme.size == 0 && |block| == scheme.size
    ensures Fold(scheme, c, x + block) == scheme.step(Fold(scheme, c, x), block)
  {
    FoldAppend(scheme, c, x, block);
    assert block[..scheme.size] == block && |block[scheme.size..]| == 0;
  }

  lemma FoldOne<C>(scheme: Scheme<C>, c: C, block: seq<byte>)
    requires 0 < scheme.size == |block|
    ensures Fold(scheme, c, block) == scheme.step(c, block)
  {
    assert [] + block == block && 0 % scheme.size == 0;
    FoldBlock(scheme, c, [], block);
  }

  /** What every step keeps, the fold keeps. */
  lemma {:induction false} FoldKeeps<C(!new)>(scheme: Scheme<C>, kept: C -> bool, c: C, message: seq<byte>)
    requires scheme.size > 0 && kept(c)
    requires forall d, block | kept(d) && |block| == scheme.size :: kept(scheme.step(d, block))
    ensures kept(Fold(scheme, c, message))
    decreases |message|
  {
    if |message| >= scheme.size {
      FoldKeeps(scheme, kept, scheme.step(c, message[..scheme.size]), message[scheme.size..]);
    }
  }
}

/** What a block-wise hash object remembers, and how its steps keep track of the message. */
module Streaming {
  import opened Bytes
  import opened BlockArithmetic
  import opened BlockFold

  /** The bytes held back in the buffer, the chaining value, and the count of compressed bytes. */
  datatype Memory<C> = Memory(held: seq<byte>, chain: C, count: nat)

  /** The chaining value is the fold over the blocks of `m`. The quantifier keeps the fold
      from being unfolded where nothing is said about it. */
  ghost predicate Folds<C>(scheme: Scheme<C>, c: C, m: seq<byte>)
    requires scheme.size > 0
  {
    forall p | p == m :: c == Fold(scheme, scheme.initial, p)
  }

  /** After consuming `m`: the buffer holds its end, the chaining value is the fold over
      the blocks before that, and the counter is the number of bytes in those blocks. */
  ghost predicate Consumed<C>(scheme: Scheme<C>, s: Memory<C>, m: seq<byte>) {
    && 0 < scheme.size && |s.held| <= scheme.size && |s.held| <= |m|
    && (|m| - |s.held|) % scheme.size == 0
    && s.held == m[|m| - |s.held|..]
    && Folds(scheme, s.chain, m[..|m| - |s.held|])
    && s.count == (|m| - |s.held|) % TWO64
  }

  function Hold<C>(s: Memory<C>, b: byte): Memory<C> { s.(held := s.held + [b]) }

  lemma HoldStep<C>(scheme: Scheme<C>, s: Memory<C>, m: seq<byte>, b: byte)
    requires Consumed(scheme, s, m) && |s.held| < scheme.size
    ensures Consumed(scheme, Hold(s, b), m + [b])
  {
    hide Fold;
    var t, n := Hold(s, b), m + [b];
    assert n[|n| - |t.held|..] == m[|m| - |s.held|..] + [b];
    assert n[..|n| - |t.held|] == m[..|m| - |s.held|];
  }

  function Flush<C>(scheme: Scheme<C>, s: Memory<C>, block: seq<byte>): Memory<C> {
    Memory([], scheme.step(s.chain, block), (s.count + scheme.size) % TWO64)
  }

  /** Compressing a block directly from the input. */
  lemma BlockStep<C>(scheme: Scheme<C>, s: Memory<C>, m: seq<byte>, block: seq<byte>)
    requires Consumed(scheme, s, m) && s.held == [] && |block| == scheme.size
    ensures Consumed(scheme, Flush(scheme, s, block), m + block)
  {
    hide Fold;
    assert m[..|m|] == m && (m + block)[..|m + block|] == m + block;
    Remainders(|m|, scheme.size);
    FoldBlock(scheme, scheme.initial, m, block);
    CountStep(|m|, scheme.size);
  }

  /** Compressing the full buffer. */
  lemma FlushStep<C>(scheme: Scheme<C>, s: Memory<C>, m: seq<byte>)
    requires Consumed(scheme, s, m) && |s.held| == scheme.size
    ensures Consumed(scheme, Flush(scheme, s, s.held), m)
  {
    hide Fold;
    var before := m[..|m| - |s.held|];
    assert m == before + s.held && before[..|before|] == before;
    BlockStep(scheme, s.(held := []), before, s.held);
  }

  lemma Nothing<C>(scheme: Scheme<C>)
    requires scheme.size > 0
    ensures Consumed(scheme, Memory([], scheme.initial, 0), [])
  {
  }

  lemma InRange<C>(scheme: Scheme<C>, s: Memory<C>, m: seq<byte>)
    requires Consumed(scheme, s, m)
    ensures |s.held| <= |m| && s.count < TWO64 && (s.count + |s.held|) % TWO64 == |m| % TWO64
    ensures |s.held| < scheme.size ==> |s.held| == |m| % scheme.size
  {
    hide Fold, Folds;
    CountStep(|m| - |s.held|, |s.held|);
    RemainderOfSum(|m| - |s.held|, |s.held|, scheme.size);
    Remainders(|s.held|, scheme.size);
  }

  /** Folding what is held back and any further bytes completes the fold over all of them. */
  lemma FinalStep<C>(scheme: Scheme<C>, s: Memory<C>, m: seq<byte>, tail: seq<byte>)
    requires Consumed(scheme, s, m)
    ensures Fold(scheme, s.chain, s.held + tail) == Fold(scheme, scheme.initial, m + tail)
  {
    hide Fold;
    var before := m[..|m| - |s.held|];
    assert m + tail == before + (s.held + tail);
    FoldAppend(scheme, scheme.initial, before, s.held + tail);
  }

  /** The memory after a message is determined by the message: how it was cut into pieces leaves no trace. */
  lemma NoTrace<C>(scheme: Scheme<C>, s: Memory<C>, t: Memory<C>, m: seq<byte>)
    requires Consumed(scheme, s, m) && Consumed(scheme, t, m)
    requires |s.held| < scheme.size && |t.held| < scheme.size
    ensures s == t
  {
    hide Fold;
    InRange(scheme, s, m);
    InRange(scheme, t, m);
    assert s.chain == Fold(scheme, scheme.initial, m[..|m| - |s.held|]);
  }
}
