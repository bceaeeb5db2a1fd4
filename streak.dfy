/** The consecutive-success counter that five of the games keep.

    On a success each game computes `newConsecutive = consecutiveCorrect + 1`; when that
    reaches 3 it shows the rocket animation and stores 0, otherwise it stores
    `newConsecutive`. A failure stores 0. */
module Streak {

  /** The value at which the bonus fires and the counter starts over. */
  const BonusAt: nat := 3

  /** Whether a success with counter `c` shows the bonus. */
  predicate Fires(c: nat)
  {
    c + 1 == BonusAt
  }

  /** The counter after a success. */
  function Bump(c: nat): (r: nat)
    ensures c < BonusAt ==> r < BonusAt
    ensures Fires(c) <==> r == 0
  {
    if Fires(c) then 0 else c + 1
  }

  /** The counter after `k` successes in a row, starting from `c`. */
  function AfterWins(c: nat, k: nat): nat
  {
    if k == 0 then c else Bump(AfterWins(c, k - 1))
  }

  /** How many of `k` successes in a row, starting from `c`, show the bonus. */
  function BonusesIn(c: nat, k: nat): nat
  {
    if k == 0 then 0
    else BonusesIn(c, k - 1) + (if Fires(AfterWins(c, k - 1)) then 1 else 0)
  }

  /** From a fresh counter, the bonus shows on exactly every third success in a row:
      after k successes the counter is k mod 3 and the bonus has shown k div 3 times. */
  lemma {:induction false} EveryThirdWin(k: nat)
    ensures AfterWins(0, k) == k % BonusAt
    ensures BonusesIn(0, k) == k / BonusAt
  {
    if k > 0 {
      EveryThirdWin(k - 1);
    }
  }

  /** The counter never leaves [0, 2] once it is there. */
  lemma {:induction false} StaysBelowBonus(c: nat, k: nat)
    requires c < BonusAt
    ensures AfterWins(c, k) < BonusAt
  {
    if k > 0 {
      StaysBelowBonus(c, k - 1);
    }
  }
}
