/**
 * The seasonal effects' pseudo-random generator: a linear congruential
 * generator over 64-bit unsigned state with wrapping arithmetic.
 */
module Seasonal {

  const Modulus: int := 0x1_0000_0000_0000_0000
  type u64 = x: int | 0 <= x < 0x1_0000_0000_0000_0000

  const Multiplier: u64 := 1103515245
  const Increment: u64 := 12345
  /** The divisor of the fraction in [0, 1) drawn from an output. */
  const FractionScale: u64 := 1000000

  /** Multiplication that wraps around at 2^64. */
  function WrappingMul(a: u64, b: u64): u64 {
    (a * b) % Modulus
  }

  /** Addition that wraps around at 2^64. */
  function WrappingAdd(a: u64, b: u64): u64 {
    (a + b) % Modulus
  }

  /** The state after one draw: multiply, then add, each wrapping. */
  function NextState(s: u64): u64 {
    WrappingAdd(WrappingMul(s, Multiplier), Increment)
  }

  /** Wrapping twice is the affine step taken once modulo 2^64. */
  lemma NextStateAffine(s: u64)
    ensures NextState(s) == (s * Multiplier + Increment) % Modulus
  {
    var p := s * Multiplier;
    assert p == (p / Modulus) * Modulus + p % Modulus;
    ModShift(p % Modulus + Increment, p / Modulus);
  }

  /** The inverse of the multiplier modulo 2^64 (the multiplier is odd, so it has one). */
  const InverseMultiplier: u64 := 17850689345304521573

  lemma InverseMultiplierInverts()
    ensures (Multiplier * InverseMultiplier) % Modulus == 1
  {
    assert Multiplier * InverseMultiplier == 1067858249 * Modulus + 1;
  }

  /** The state a draw came from: subtract the increment, then undo the multiplication, each wrapping. */
  function PreviousState(t: u64): u64 {
    WrappingMul((t - Increment) % Modulus, InverseMultiplier)
  }

  lemma MulMod(x: int, c: int)
    ensures ((x % Modulus) * c) % Modulus == (x * c) % Modulus
  {
    var q := x / Modulus;
    assert x * c == (x % Modulus) * c + (q * c) * Modulus;
    ModShift((x % Modulus) * c, q * c);
  }

  lemma ModShift(x: int, k: int)
    ensures (x + k * Modulus) % Modulus == x % Modulus
  {
    var q := x / Modulus;
    var r := x % Modulus;
    assert x + k * Modulus == (q + k) * Modulus + r;
  }

  /** Stepping back undoes a draw. */
  lemma PreviousUndoesNext(s: u64)
    ensures PreviousState(NextState(s)) == s
  {
    NextStateAffine(s);
    var n := NextState(s);
    var p := s * Multiplier + Increment;
    assert (n - Increment) % Modulus == (s * Multiplier) % Modulus by {
      assert n - Increment == s * Multiplier + (-(p / Modulus)) * Modulus;
      ModShift(s * Multiplier, -(p / Modulus));
    }
    MulMod(s * Multiplier, InverseMultiplier);
    assert s * Multiplier * InverseMultiplier == s + (s * 1067858249) * Modulus;
    ModShift(s, s * 1067858249);
  }

  /** Drawing from the stepped-back state returns to where it started. */
  lemma NextUndoesPrevious(t: u64)
    ensures NextState(PreviousState(t)) == t
  {
    var m := (t - Increment) % Modulus;
    var u := PreviousState(t);
    NextStateAffine(u);
    MulMod(m * InverseMultiplier, Multiplier);
    assert m * InverseMultiplier * Multiplier == m + (m * 1067858249) * Modulus;
    ModShift(m, m * 1067858249);
    assert (u * Multiplier) % Modulus == m;
    var k := (u * Multiplier) / Modulus;
    assert (u * Multiplier + Increment) % Modulus == (m + Increment) % Modulus by {
      assert u * Multiplier + Increment == (m + Increment) + k * Modulus;
      ModShift(m + Increment, k);
    }
    var d := (t - Increment) / Modulus;
    assert (m + Increment) % Modulus == t by {
      assert m + Increment == t + (-d) * Modulus;
      ModShift(t, -d);
    }
  }

  /** Distinct states draw distinct values. */
  lemma NextStateInjective(s1: u64, s2: u64)
    ensures NextState(s1) == NextState(s2) ==> s1 == s2
  {
    PreviousUndoesNext(s1);
    PreviousUndoesNext(s2);
  }

  /** The state after `n` draws from `s`. */
  function Iterate(s: u64, n: nat): u64
    decreases n
  {
    if n == 0 then s else Iterate(NextState(s), n - 1)
  }

  /** The first `n` values a generator in state `s` returns. */
  function Outputs(s: u64, n: nat): (xs: seq<u64>)
    ensures |xs| == n
    decreases n
  {
    if n == 0 then [] else [NextState(s)] + Outputs(NextState(s), n - 1)
  }

  /** Each value drawn is the state the draw leaves behind. */
  lemma {:induction false} OutputsAreStates(s: u64, n: nat)
    ensures forall i :: 0 <= i < n ==> Outputs(s, n)[i] == Iterate(s, i + 1)
    decreases n
  {
    if n > 0 {
      OutputsAreStates(NextState(s), n - 1);
      forall i | 1 <= i < n ensures Outputs(s, n)[i] == Iterate(s, i + 1) {
        assert Outputs(s, n)[i] == Outputs(NextState(s), n - 1)[i - 1];
      }
    }
  }

  /** One more draw extends the outputs by the next state. */
  lemma {:induction false} OutputsSnoc(s: u64, n: nat)
    ensures Outputs(s, n + 1) == Outputs(s, n) + [NextState(Iterate(s, n))]
    ensures Iterate(s, n + 1) == NextState(Iterate(s, n))
    decreases n
  {
    if n > 0 {
      OutputsSnoc(NextState(s), n - 1);
    }
  }

  /** The first draws from seed 0 and seed 1. */
  lemma FirstDraws()
    ensures NextState(0) == 12345
    ensures NextState(1) == 1103527590
    ensures Outputs(0, 2) == [12345, (12345 * 1103515245 + 12345) % Modulus]
  {
    NextStateAffine(12345);
  }

  class SimpleRng {
    var state: u64

    constructor (seed: u64)
      ensures state == seed
    {
      state := seed;
    }

    /** Advances the state and returns the new state. */
    method Next() returns (r: u64)
      modifies this
      ensures state == NextState(old(state))
      ensures r == state
    {
      state := WrappingAdd(WrappingMul(state, Multiplier), Increment);
      r := state;
    }

    /** The integer part of a fraction draw: the next output reduced below the scale. */
    method FractionNumerator() returns (n: nat)
      modifies this
      ensures state == NextState(old(state))
      ensures n == state % FractionScale && n < FractionScale
    {
      var r := Next();
      n := r % FractionScale;
    }

    /** Draws `n` values in turn. */
    method Take(n: nat) returns (xs: seq<u64>)
      modifies this
      ensures xs == Outputs(old(state), n)
      ensures state == Iterate(old(state), n)
    {
      xs := [];
      var i := 0;
      while i < n
        invariant 0 <= i <= n
        invariant xs == Outputs(old(state), i)
        invariant state == Iterate(old(state), i)
      {
        OutputsSnoc(old(state), i);
        var r := Next();
        xs := xs + [r];
        i := i + 1;
      }
    }
  }

  /** Two generators built from the same seed return the same values, draw for draw. */
  method SameSeedSameSequence(seed: u64, n: nat) returns (xs: seq<u64>, ys: seq<u64>)
    ensures xs == ys && |xs| == n
  {
    var a := new SimpleRng(seed);
    var b := new SimpleRng(seed);
    xs := a.Take(n);
    ys := b.Take(n);
  }
}
