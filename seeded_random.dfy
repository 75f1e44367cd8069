/** The seeded replacement for `Math.random`: Robert Jenkins' 32-bit integer
    hash applied to a hidden seed, one application per call. */
module SeededRandom {

  /** The seed the closure starts from. */
  const InitialSeed: bv32 := 88888888

  // The six mixing steps of the hash, one per reassignment of `seed` after
  // its initial masking; every result is masked to 32 bits (`& 0xffffffff`)
  // and `>>>` is the logical shift `>>`.
  function Mix1(s: bv32): bv32 { s + 0x7ed55d16 + (s << 12) }
  function Mix2(s: bv32): bv32 { s ^ 0xc761c23c ^ (s >> 19) }
  function Mix3(s: bv32): bv32 { s + 0x165667b1 + (s << 5) }
  function Mix4(s: bv32): bv32 { (s + 0xd3a2646c) ^ (s << 9) }
  function Mix5(s: bv32): bv32 { s + 0xfd7046c5 + (s << 3) }
  function Mix6(s: bv32): bv32 { s ^ 0xb55a4f09 ^ (s >> 16) }

  /** One call's worth of mixing: the seed after one `Math.random()`. The
      opening mask `seed & 0xffffffff` leaves a 32-bit seed unchanged, so a call
      is the six mixing steps alone. */
  function Jenkins(seed: bv32): (r: bv32)
    ensures r == Mix6(Mix5(Mix4(Mix3(Mix2(Mix1(seed))))))
  {
    Mix6(Mix5(Mix4(Mix3(Mix2(Mix1(seed & 0xffffffff))))))
  }

  /** `(seed & 0xfffffff) / 0x10000000`: the low 28 bits as a fraction of 2^28. */
  function Fraction(seed: bv32): (r: real)
    ensures 0.0 <= r < 1.0
    ensures r * 268435456.0 == ((seed & 0xfff_ffff) as bv28) as int as real
  {
    ((seed & 0xfff_ffff) as bv28) as int as real / 268435456.0
  }

  /** The seed after `n` calls. */
  function SeedAfter(seed: bv32, n: nat): bv32
  {
    if n == 0 then seed else Jenkins(SeedAfter(seed, n - 1))
  }

  /** The values returned by `n` successive calls from `seed`. */
  function Draws(seed: bv32, n: nat): (d: seq<real>)
    ensures |d| == n
    ensures forall i :: 0 <= i < n ==> d[i] == Fraction(SeedAfter(seed, i + 1))
  {
    if n == 0 then [] else Draws(seed, n - 1) + [Fraction(SeedAfter(seed, n))]
  }

  /** Every drawn value is in [0, 1). */
  lemma DrawsInUnitInterval(seed: bv32, n: nat)
    ensures forall i :: 0 <= i < n ==> 0.0 <= Draws(seed, n)[i] < 1.0
  {
  }

  /** Making `m` calls and then `n` more is making `m + n` calls. */
  lemma {:induction false} SeedAfterSplit(seed: bv32, m: nat, n: nat)
    ensures SeedAfter(SeedAfter(seed, m), n) == SeedAfter(seed, m + n)
    decreases n
  {
    if n > 0 {
      SeedAfterSplit(seed, m, n - 1);
    }
  }

  /** The values of `m` calls followed by those of `n` more calls are the
      values of `m + n` calls: the sequence depends on the seed alone. */
  lemma {:induction false} DrawsSplit(seed: bv32, m: nat, n: nat)
    ensures Draws(seed, m) + Draws(SeedAfter(seed, m), n) == Draws(seed, m + n)
    decreases n
  {
    if n > 0 {
      DrawsSplit(seed, m, n - 1);
      SeedAfterSplit(seed, m, n);
    }
  }

  /** The first call from the initial seed leaves the seed at 0x59d8e5d7 and
      returns 0x9d8e5d7 / 2^28. */
  lemma FirstDraw()
    ensures Jenkins(InitialSeed) == 0x59d8e5d7
    ensures Fraction(Jenkins(InitialSeed)) == 0x9d8e5d7 as real / 268435456.0
  {
  }

  /** The generator object: `seed` is the closure variable. */
  class Generator {
    var seed: bv32

    constructor ()
      ensures seed == InitialSeed
    {
      seed := InitialSeed;
    }

    /** One call of `Math.random()`. */
    method Next() returns (r: real)
      modifies this
      ensures seed == Jenkins(old(seed))
      ensures r == Fraction(seed) && 0.0 <= r < 1.0
    {
      seed := seed & 0xffffffff;
      seed := Mix1(seed);
      seed := Mix2(seed);
      seed := Mix3(seed);
      seed := Mix4(seed);
      seed := Mix5(seed);
      seed := Mix6(seed);
      r := Fraction(seed);
    }
  }
}
