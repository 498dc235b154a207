/** do_rand of user/grind.c: Schrage's method for 7^5 * x mod (2^31 - 1). */
module Rand {
  const M: int := 0x7fff_ffff
  const A: int := 16807
  const Q: int := 127773   // M / A
  const R: int := 2836     // M % A

  /** The state is first brought into [1, M - 1]. */
  function Seed(ctx: nat): (x: int)
    ensures 1 <= x < M
  {
    ctx % 0x7fff_fffe + 1
  }

  /** What the generator computes: one less than A times the seed, modulo M. */
  function Next(ctx: nat): int {
    A * Seed(ctx) % M - 1
  }

  /** A is invertible modulo M, so only multiples of M are carried to multiples of M. */
  lemma NoZero(x: int)
    requires A * x % M == 0
    ensures x % M == 0
  {
    var k := A * x / M;
    assert 1407677000 * A == 1 + 11017 * M;
    assert x == M * (1407677000 * k - 11017 * x);
  }

  /** Schrage: the difference is congruent to A * x, and neither product leaves 31 bits. */
  lemma Schrage(x: int)
    requires 1 <= x < M
    ensures 0 <= A * (x % Q) < 0x8000_0000 && 0 <= R * (x / Q) < 0x8000_0000
    ensures var t := A * (x % Q) - R * (x / Q);
            -M < t < M && t != 0 && A * x % M == if t < 0 then t + M else t
  {
    var hi, lo := x / Q, x % Q;
    Parts(x, hi, lo);
    Residue(A * x, hi, A * lo - R * hi);
    if A * lo - R * hi == 0 {
      NoZero(x);
    }
  }

  lemma Parts(x: int, hi: int, lo: int)
    requires 1 <= x < M && x == Q * hi + lo && 0 <= lo < Q && 0 <= hi
    ensures A * x == M * hi + (A * lo - R * hi)
    ensures 0 <= A * lo < 0x8000_0000 && 0 <= R * hi < 0x8000_0000 && -M < A * lo - R * hi < M
  {
    assert hi <= A;
  }

  lemma Residue(n: int, k: int, t: int)
    requires n == M * k + t && -M < t < M
    ensures n % M == if t < 0 then t + M else t
  {
    if t < 0 {
      assert n == M * (k - 1) + (t + M);
    }
  }

  class Generator {
    var ctx: nat

    /** Every product and sum on the way is below 2^31 in magnitude; the result is in
        [0, M - 2] and becomes the state. */
    method DoRand() returns (r: int)
      modifies this
      ensures r == Next(old(ctx)) && ctx == r && 0 <= r <= 0x7fff_fffd
    {
      var x := ctx % 0x7fff_fffe + 1;
      Schrage(x);
      var hi := x / Q;
      var lo := x % Q;
      x := A * lo - R * hi;
      if x < 0 {
        x := x + M;
      }
      x := x - 1;
      ctx := x;
      return x;
    }
  }

  /** Distinct states in the range of the generator have distinct successors. */
  lemma Injective(a: nat, b: nat)
    requires a <= 0x7fff_fffd && b <= 0x7fff_fffd && Next(a) == Next(b)
    ensures a == b
  {
    var d := Seed(a) - Seed(b);
    Residue(A * d, A * Seed(a) / M - A * Seed(b) / M, 0);
    NoZero(d);
    assert -M < d < M;
  }

  /** The states form a closed set: [0, M - 2]. */
  lemma Range(ctx: nat)
    ensures 0 <= Next(ctx) <= 0x7fff_fffd
  {
    Schrage(Seed(ctx));
  }
}
