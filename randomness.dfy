/**
 * The platform's secure random generator as the generator uses it:
 * secrets.randbelow, secrets.choice and SystemRandom().shuffle.
 *
 * Its hidden state is the tape of raw outcomes it will produce, in order:
 * a draw below n takes the next outcome modulo n (0 once the tape has run
 * out). Every finite sequence of draws comes out of some tape
 * (DrawsReachable), so a property proved of a caller for every tape holds
 * for every outcome of the real generator.
 */
module Randomness {

  class RandomSource {
    var tape: seq<nat>
    /** How many draws have been taken so far; it lets callers state how much randomness an operation consumed. */
    ghost var draws: nat

    constructor (outcomes: seq<nat>)
      ensures tape == outcomes && draws == 0
    {
      tape := outcomes;
      draws := 0;
    }

    /** secrets.randbelow(n): some number in [0, n). */
    method Below(n: nat) returns (r: nat)
      requires n > 0
      modifies this
      ensures r < n
      ensures [r] == Draws(old(tape), [n])
      ensures tape == if old(tape) == [] then [] else old(tape)[1..]
      ensures draws == old(draws) + 1
    {
      draws := draws + 1;
      if tape == [] {
        r := 0;
      } else {
        r := tape[0] % n;
        tape := tape[1..];
      }
    }

    /** secrets.choice(s): some element of a non-empty sequence. */
    method Choice<T>(s: seq<T>) returns (x: T)
      requires |s| > 0
      modifies this
      ensures x in s
      ensures draws == old(draws) + 1
    {
      var i := Below(|s|);
      x := s[i];
    }

    /**
     * SystemRandom().shuffle(a): the Fisher-Yates shuffle of Python's random
     * module, from the last position down to the second, swapping each with
     * a position drawn at or below it. The contents are rearranged, never
     * changed.
     */
    method Shuffle<T>(a: array<T>)
      modifies this, a
      ensures multiset(a[..]) == old(multiset(a[..]))
      ensures draws == old(draws) + ShuffleDraws(a.Length)
    {
      var i := a.Length - 1;
      while i >= 1
        invariant if a.Length == 0 then i == -1 else 0 <= i < a.Length
        invariant multiset(a[..]) == old(multiset(a[..]))
        invariant draws == old(draws) + (a.Length - 1 - i)
      {
        var j := Below(i + 1);
        a[i], a[j] := a[j], a[i];
        i := i - 1;
      }
    }
  }

  /** The draws a shuffle of n items takes: one per position from the last down to the second. */
  function ShuffleDraws(n: nat): nat {
    if n == 0 then 0 else n - 1
  }

  /** The draws below the successive bounds that a tape hands out. */
  function Draws(tape: seq<nat>, bounds: seq<nat>): (rs: seq<nat>)
    requires forall k :: 0 <= k < |bounds| ==> bounds[k] > 0
    ensures |rs| == |bounds|
    ensures forall k :: 0 <= k < |rs| ==> rs[k] < bounds[k]
  {
    if bounds == [] then []
    else if tape == [] then [0] + Draws([], bounds[1..])
    else [tape[0] % bounds[0]] + Draws(tape[1..], bounds[1..])
  }

  /** Every sequence of draws within its bounds is what the tape holding those very numbers hands out. */
  lemma {:induction false} DrawsReachable(rs: seq<nat>, bounds: seq<nat>)
    requires |rs| == |bounds|
    requires forall k :: 0 <= k < |rs| ==> rs[k] < bounds[k]
    ensures Draws(rs, bounds) == rs
  {
    if rs != [] {
      var n := bounds[0];
      assert n > 0 && rs[0] < n;
      ModOfSmaller(rs[0], n);
      DrawsReachable(rs[1..], bounds[1..]);
      assert Draws(rs, bounds) == [rs[0] % n] + Draws(rs[1..], bounds[1..]);
      assert rs == [rs[0]] + rs[1..];
    }
  }

  lemma ModOfSmaller(x: nat, n: nat)
    requires x < n
    ensures x % n == x
  {
  }
}
