/** Keccak and SHA-3 on bits, as sections 3 to 6 of FIPS 202 state them. */
module Fips202 {
  import opened Iteration

  type State = s: seq<bool> | |s| == 1600 witness seq(1600, _ => false)

  /** Bit A[x, y, z] of the state array, section 3.1.2, every coordinate counted around. */
  function At(s: State, x: int, y: int, z: int): bool { s[64 * (x % 5 + 5 * (y % 5)) + z % 64] }

  function Array(f: (int, int, int) -> bool): State {
    seq(1600, i requires 0 <= i < 1600 => f(i / 64 % 5, i / 320, i % 64))
  }

  function Xor(a: bool, b: bool): bool { a != b }

  // The step mappings, section 3.2.

  function Parity(s: State, x: int, z: int): bool {
    Xor(Xor(Xor(Xor(At(s, x, 0, z), At(s, x, 1, z)), At(s, x, 2, z)), At(s, x, 3, z)), At(s, x, 4, z))
  }

  function Theta(s: State): State {
    Array((x, y, z) => Xor(At(s, x, y, z), Xor(Parity(s, x - 1, z), Parity(s, x + 1, z - 1))))
  }

  /** The lanes that rho visits. */
  function Walk(t: nat): (p: (nat, nat))
    ensures p.0 < 5 && p.1 < 5
  {
    if t == 0 then (1, 0) else var (x, y) := Walk(t - 1); (y, (2 * x + 3 * y) % 5)
  }

  /** How far lane (x, y) is moved when it is among the first `n` stops of the walk. */
  function Turn(x: int, y: int, n: nat): nat {
    if n == 0 then 0 else if (x, y) == Walk(n - 1) then n * (n + 1) / 2 else Turn(x, y, n - 1)
  }

  function Rho(s: State): State {
    Array((x, y, z) => At(s, x, y, z - Turn(x, y, 24)))
  }

  function Pi(s: State): State {
    Array((x, y, z) => At(s, x + 3 * y, x, z))
  }

  function Chi(s: State): State {
    Array((x, y, z) => Xor(At(s, x, y, z), !At(s, x + 1, y, z) && At(s, x + 2, y, z)))
  }

  /** The register of Algorithm 5 after `t` steps. */
  function Register(t: nat): (r: seq<bool>)
    ensures |r| == 8
  {
    if t == 0 then [true, false, false, false, false, false, false, false]
    else
      var r := Register(t - 1);
      [Xor(false, r[7]), r[0], r[1], r[2], Xor(r[3], r[7]), Xor(r[4], r[7]), Xor(r[5], r[7]), r[6]]
  }

  function Rc(t: nat): bool { Register(t % 255)[0] }

  /** Bit `z` of a round constant: bits 2^j - 1 come from the register. */
  function ConstantBit(round: nat, z: int): bool {
    match z
    case 0 => Rc(7 * round)
    case 1 => Rc(1 + 7 * round)
    case 3 => Rc(2 + 7 * round)
    case 7 => Rc(3 + 7 * round)
    case 15 => Rc(4 + 7 * round)
    case 31 => Rc(5 + 7 * round)
    case 63 => Rc(6 + 7 * round)
    case _ => false
  }

  function Iota(s: State, round: nat): State {
    Array((x, y, z) => if (x, y) == (0, 0) then Xor(At(s, x, y, z), ConstantBit(round, z)) else At(s, x, y, z))
  }

  function Round(s: State, round: nat): State { Iota(Chi(Pi(Rho(Theta(s)))), round) }

  function KeccakF(s: State): State { Iterate(Round, s, 24) }

  // The sponge, section 4, for outputs of at most one block.

  function Zeros(n: nat): (bits: seq<bool>)
    ensures |bits| == n
  {
    seq(n, _ => false)
  }

  /** The state with a block added into its first bits. */
  function Added(s: State, block: seq<bool>): State {
    seq(1600, i requires 0 <= i < 1600 => if i < |block| then Xor(s[i], block[i]) else s[i])
  }

  function Mixed(s: State, block: seq<bool>): State { KeccakF(Added(s, block)) }

  /** A step for every block of `rate` bits. */
  function Blocks<B>(step: (B, seq<bool>) -> B, s: B, rate: nat, p: seq<bool>): B
    requires rate > 0
    decreases |p|
  {
    if |p| < rate then s else Blocks(step, step(s, p[..rate]), rate, p[rate..])
  }

  /** pad10*1, section 5.1: a one, the fewest zeros, a one, to complete a multiple of `x` bits after `m`. */
  function Pad101(x: int, m: int): seq<bool>
    requires x > 0
  {
    [true] + Zeros((-m - 2) % x) + [true]
  }

  function Start(): State { Zeros(1600) }

  /** KECCAK[c], section 5.2, for an output of `d` bits. */
  function Keccak(capacity: nat, message: seq<bool>, d: nat): seq<bool>
    requires d <= 1600 - capacity && capacity < 1600
  {
    var rate := 1600 - capacity;
    Blocks(Mixed, Start(), rate, message + Pad101(rate, |message|))[..d]
  }

  /** SHA3-d, section 6.1. */
  function Sha3(d: nat, message: seq<bool>): seq<bool>
    requires 3 * d <= 1600
  {
    Keccak(2 * d, message + [false, true], d)
  }
}
