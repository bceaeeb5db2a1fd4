/** Randomness in the games, supplied by the caller.

    Every game draws `Math.random()` and scales it with `Math.floor(Math.random() * n)`,
    or shuffles a list with `sort(() => Math.random() - 0.5)`. Neither the distribution
    nor the browser's sort algorithm is modelled: a draw is an arbitrary fraction in
    [0, 1) chosen by the caller, and a shuffle is an arbitrary list of transpositions
    chosen by the caller. */
module Chance {

  import Arith

  /** A value of `Math.random()`: the fraction num / den, with 0 <= num < den. */
  type Draw = d: (nat, nat) | d.0 < d.1 witness (0, 1)

  /** `Math.floor(Math.random() * n)` for the draw `d`. */
  function Pick(d: Draw, n: nat): (r: nat)
    ensures n > 0 ==> r < n
    ensures n == 0 ==> r == 0
  {
    ScaledBelow(d.0, d.1, n);
    d.0 * n / d.1
  }

  /** num * n / den stays below n whenever num < den. */
  lemma ScaledBelow(num: nat, den: nat, n: nat)
    requires num < den
    ensures n > 0 ==> num * n / den < n
  {
    if n > 0 {
      Arith.MulBounds(n, den - num);
      assert n * (den - num) == den * n - num * n;
      Arith.DivBelow(num * n, den, n);
    }
  }

  /** Every outcome of a scaled draw is possible: the draw k / n picks k. */
  lemma PickReaches(k: nat, n: nat)
    requires k < n
    ensures Pick((k, n), n) == k
  {
    Arith.DivModUnique(k * n, n, k, 0);
  }

  /** The list `s` with the elements at `i` and `j` exchanged. */
  function Swap<T>(s: seq<T>, i: nat, j: nat): (r: seq<T>)
    requires i < |s| && j < |s|
    ensures |r| == |s| && r[i] == s[j] && r[j] == s[i]
    ensures forall k :: 0 <= k < |s| && k != i && k != j ==> r[k] == s[k]
  {
    s[i := s[j]][j := s[i]]
  }

  /** A transposition only rearranges the list. */
  lemma SwapPermutes<T>(s: seq<T>, i: nat, j: nat)
    requires i < |s| && j < |s|
    ensures multiset(Swap(s, i, j)) == multiset(s)
  {
  }

  /** Every transposition in `swaps` names two positions of a list of length n. */
  predicate SwapsWithin(swaps: seq<(nat, nat)>, n: nat)
  {
    forall k :: 0 <= k < |swaps| ==> swaps[k].0 < n && swaps[k].1 < n
  }

  /** `sort(() => Math.random() - 0.5)`: the list rearranged by the caller's transpositions.
      Whatever transpositions are chosen, the result is a permutation of `s`. */
  function Shuffle<T>(s: seq<T>, swaps: seq<(nat, nat)>): (r: seq<T>)
    requires SwapsWithin(swaps, |s|)
    ensures |r| == |s|
    decreases |swaps|
  {
    if swaps == [] then s
    else Shuffle(Swap(s, swaps[0].0, swaps[0].1), swaps[1..])
  }

  /** Whatever the transpositions, a shuffle is a permutation of the list. */
  lemma {:induction false} ShufflePermutes<T>(s: seq<T>, swaps: seq<(nat, nat)>)
    requires SwapsWithin(swaps, |s|)
    ensures multiset(Shuffle(s, swaps)) == multiset(s)
    decreases |swaps|
  {
    if swaps != [] {
      SwapPermutes(s, swaps[0].0, swaps[0].1);
      ShufflePermutes(Swap(s, swaps[0].0, swaps[0].1), swaps[1..]);
    }
  }

  /** The transpositions `swaps` with their positions taken modulo n. */
  function Wrapped(swaps: seq<(nat, nat)>, n: nat): (r: seq<(nat, nat)>)
    requires n > 0
    ensures |r| == |swaps| && SwapsWithin(r, n)
  {
    seq(|swaps|, k requires 0 <= k < |swaps| => (swaps[k].0 % n, swaps[k].1 % n))
  }

  /** A shuffle by transpositions whose positions are taken modulo the list's length, for
      lists whose length the caller does not fix in advance. Whatever the transpositions,
      it is a permutation of the list. */
  function Rearrange<T>(s: seq<T>, swaps: seq<(nat, nat)>): (r: seq<T>)
    ensures |r| == |s|
    ensures multiset(r) == multiset(s)
  {
    if |s| == 0 then s
    else
      ShufflePermutes(s, Wrapped(swaps, |s|));
      Shuffle(s, Wrapped(swaps, |s|))
  }

  /** Transpositions that already fit the list rearrange it as `Shuffle` does. */
  lemma RearrangeFits<T>(s: seq<T>, swaps: seq<(nat, nat)>)
    requires SwapsWithin(swaps, |s|)
    ensures Rearrange(s, swaps) == Shuffle(s, swaps)
  {
    if |s| > 0 {
      var n := |s|;
      forall k | 0 <= k < |swaps|
        ensures swaps[k].0 % n == swaps[k].0 && swaps[k].1 % n == swaps[k].1
      {
        Arith.DivModUnique(swaps[k].0, n, 0, swaps[k].0);
        Arith.DivModUnique(swaps[k].1, n, 0, swaps[k].1);
      }
      assert Wrapped(swaps, n) == swaps;
    }
  }

  /** No element occurs twice in `s`. */
  ghost predicate Distinct<T>(s: seq<T>)
  {
    forall i, j :: 0 <= i < j < |s| ==> s[i] != s[j]
  }

  /** A transposition keeps the elements of a list distinct. */
  lemma SwapKeepsDistinct<T>(s: seq<T>, i: nat, j: nat)
    requires i < |s| && j < |s| && Distinct(s)
    ensures Distinct(Swap(s, i, j))
  {
    var r := Swap(s, i, j);
    forall a, b | 0 <= a < b < |r|
      ensures r[a] != r[b]
    {
      var a' := if a == i then j else if a == j then i else a;
      var b' := if b == i then j else if b == j then i else b;
      assert r[a] == s[a'] && r[b] == s[b'] && a' != b';
    }
  }

  /** A shuffle keeps the elements of a list distinct. */
  lemma {:induction false} ShuffleKeepsDistinct<T>(s: seq<T>, swaps: seq<(nat, nat)>)
    requires SwapsWithin(swaps, |s|) && Distinct(s)
    ensures Distinct(Shuffle(s, swaps))
    decreases |swaps|
  {
    if swaps != [] {
      SwapKeepsDistinct(s, swaps[0].0, swaps[0].1);
      ShuffleKeepsDistinct(Swap(s, swaps[0].0, swaps[0].1), swaps[1..]);
    }
  }
}
