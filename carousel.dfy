/** The next/previous buttons of the alphabet, numbers and phonics pages: the current
    card index moves by one, wrapping around at both ends. The source writes
    `(prev + 1) % len` and `(prev - 1 + len) % len`; both operands are non-negative
    there, so JavaScript's `%` and Dafny's agree. */
module Carousel {

  import Arith

  /** `(i + 1) % len`: the following card, the first one after the last. */
  function Next(i: nat, len: nat): (r: nat)
    requires i < len
    ensures r < len
    ensures i + 1 < len ==> r == i + 1
    ensures i + 1 == len ==> r == 0
  {
    (i + 1) % len
  }

  /** `(i - 1 + len) % len`: the preceding card, the last one before the first. */
  function Prev(i: nat, len: nat): (r: nat)
    requires i < len
    ensures r < len
    ensures i > 0 ==> r == i - 1
    ensures i == 0 ==> r == len - 1
  {
    (i - 1 + len) % len
  }

  /** Going back undoes going forward. */
  lemma PrevAfterNext(i: nat, len: nat)
    requires i < len
    ensures Prev(Next(i, len), len) == i
  {
  }

  /** Going forward undoes going back. */
  lemma NextAfterPrev(i: nat, len: nat)
    requires i < len
    ensures Next(Prev(i, len), len) == i
  {
  }

  /** The index after k presses of "next", starting from i. */
  function Forward(i: nat, len: nat, k: nat): (r: nat)
    requires i < len
    ensures r < len
  {
    if k == 0 then i else Next(Forward(i, len, k - 1), len)
  }

  /** Pressing "next" k times moves k cards along, modulo the number of cards;
      in particular len presses come back to the start. */
  lemma {:induction false} ForwardIsModular(i: nat, len: nat, k: nat)
    requires i < len
    ensures Forward(i, len, k) == (i + k) % len
  {
    if k > 0 {
      ForwardIsModular(i, len, k - 1);
      Arith.ModSucc(i + k - 1, len);
    }
  }
}
