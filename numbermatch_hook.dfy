/** The state and rules of the number-matching game (the `useNumberMatch` hook).

    Each round shows six consecutive numbers and their words in shuffled order; the child
    pairs a number with its word. A correct pair scores 10 and is marked matched; a wrong
    pair counts as a wrong attempt. Six matched pairs end the round, and the third round
    ends the game. The delays before the selections clear and before the next round starts
    are modelled by their net effect, applied at once. */
module NumberMatchHook {

  import opened Maybe
  import Chance
  import Decimal
  import NumberWords
  import Streak

  /** Numbers per round, and the number of rounds. */
  const PairsPerRound: nat := 6
  const LastRound: nat := 3

  /** `getNumberWord` of the hook: the word below 100, the numeral from 100 on. */
  function NumberWord(n: nat): (r: string)
    ensures n < 100 ==> r == NumberWords.Below100(n)
    ensures n >= 100 ==> Decimal.AllDigits(r) && Decimal.Parse(r) == n
  {
    if n < 100 then NumberWords.Below100(n)
    else Decimal.ParseShow(n); Decimal.Show(n)
  }

  /** `numbers` of `generateRoundData`: the six numbers of a round. */
  function RoundNumbers(round: nat): (r: seq<nat>)
    requires round >= 1
    ensures |r| == PairsPerRound
    ensures forall i :: 0 <= i < |r| ==> r[i] == (round - 1) * PairsPerRound + i
  {
    seq(PairsPerRound, i requires 0 <= i < PairsPerRound => (round - 1) * PairsPerRound + i)
  }

  /** `numbers.map(getNumberWord)`. */
  function WordsOf(numbers: seq<nat>): (r: seq<string>)
    ensures |r| == |numbers|
    ensures forall i :: 0 <= i < |r| ==> r[i] == NumberWord(numbers[i])
  {
    seq(|numbers|, i requires 0 <= i < |numbers| => NumberWord(numbers[i]))
  }

  /** `words` of `generateRoundData`: the round's words in the order the shuffle leaves them. */
  function RoundWords(round: nat, swaps: seq<(nat, nat)>): (r: seq<string>)
    requires round >= 1 && Chance.SwapsWithin(swaps, PairsPerRound)
    ensures multiset(r) == multiset(WordsOf(RoundNumbers(round)))
  {
    Chance.ShufflePermutes(WordsOf(RoundNumbers(round)), swaps);
    Chance.Shuffle(WordsOf(RoundNumbers(round)), swaps)
  }

  /** `numbers.find(num => getNumberWord(num) === word)`: the first number with that word. */
  function FindNumber(numbers: seq<nat>, word: string): (r: Option<nat>)
    ensures r.Some? ==> r.value in numbers && NumberWord(r.value) == word
    ensures r.None? ==> forall n :: n in numbers ==> NumberWord(n) != word
  {
    if numbers == [] then None
    else if NumberWord(numbers[0]) == word then Some(numbers[0])
    else FindNumber(numbers[1..], word)
  }

  /** Among numbers below 100, the word of n leads back to n, and to nothing when n is
      not on the board. */
  lemma {:induction false} FindNumberOfWord(numbers: seq<nat>, n: nat)
    requires n < 100
    requires forall k :: k in numbers ==> k < 100
    ensures n in numbers ==> FindNumber(numbers, NumberWord(n)) == Some(n)
    ensures n !in numbers ==> FindNumber(numbers, NumberWord(n)) == None
  {
    var r := FindNumber(numbers, NumberWord(n));
    if r.Some? {
      NumberWords.Below100Injective(r.value, n);
    }
  }

  /** Every number the game ever shows is below 100: the last round shows 12..17. */
  lemma RoundNumbersBelow100(round: nat)
    requires 1 <= round <= LastRound
    ensures forall k :: k in RoundNumbers(round) ==> k < 18
  {
  }

  /** The whole state of the hook. */
  datatype MatchState = MatchState(
    score: nat,
    round: nat,
    complete: bool,
    selectedNumber: Option<nat>,
    selectedWord: Option<string>,
    matched: set<nat>,
    wrongAttempts: nat,
    consecutive: nat,
    showRocket: bool,
    numbers: seq<nat>,
    words: seq<string>)

  /** What holds of every state the game can reach. The score is always 10 per pair
      matched so far, over all rounds. */
  ghost predicate Inv(s: MatchState)
  {
    && 1 <= s.round <= LastRound
    && s.numbers == RoundNumbers(s.round)
    && multiset(s.words) == multiset(WordsOf(s.numbers))
    && (forall n :: n in s.matched ==> n in s.numbers)
    && (if s.complete then s.round == LastRound && |s.matched| == PairsPerRound
        else |s.matched| < PairsPerRound)
    && s.consecutive < Streak.BonusAt
    && (s.selectedNumber.Some? ==>
          s.selectedNumber.value in s.numbers && s.selectedNumber.value !in s.matched)
    && (s.selectedWord.Some? ==>
          s.selectedWord.value in s.words &&
          (FindNumber(s.numbers, s.selectedWord.value).Some? ==>
             FindNumber(s.numbers, s.selectedWord.value).value !in s.matched))
    && s.score == 10 * (PairsPerRound * (s.round - 1) + |s.matched|)
  }

  /** The state when the game first shows: round 1, nothing matched. */
  function Initial(swaps: seq<(nat, nat)>): (s: MatchState)
    requires Chance.SwapsWithin(swaps, PairsPerRound)
    ensures s.score == 0 && s.round == 1 && !s.complete && s.matched == {}
    ensures s.selectedNumber == None && s.selectedWord == None
    ensures s.wrongAttempts == 0 && s.consecutive == 0 && !s.showRocket
    ensures s.numbers == RoundNumbers(1) && s.words == RoundWords(1, swaps)
  {
    MatchState(0, 1, false, None, None, {}, 0, 0, false, RoundNumbers(1), RoundWords(1, swaps))
  }

  /** `resetGame`: back to round 1 with nothing matched and nothing selected; the rocket
      flag is left as it is. */
  function Reset(s: MatchState, swaps: seq<(nat, nat)>): (t: MatchState)
    requires Chance.SwapsWithin(swaps, PairsPerRound)
    ensures t == Initial(swaps).(showRocket := s.showRocket)
  {
    MatchState(0, 1, false, None, None, {}, 0, 0, s.showRocket, RoundNumbers(1),
               RoundWords(1, swaps))
  }

  /** `checkMatch(number, word)`, including what its timers do once they fire. */
  function Checked(s: MatchState, number: nat, word: string, swaps: seq<(nat, nat)>): (t: MatchState)
    requires s.round >= 1 && Chance.SwapsWithin(swaps, PairsPerRound)
    // a correct pair scores 10, clears both selections and advances the streak
    ensures word == NumberWord(number) ==>
      && t.score == s.score + 10
      && t.selectedNumber == None && t.selectedWord == None
      && t.consecutive == Streak.Bump(s.consecutive)
      && t.showRocket == (s.showRocket || Streak.Fires(s.consecutive))
      && t.wrongAttempts == s.wrongAttempts
    // ... and is recorded, unless it completes a round that is not the last
    ensures word == NumberWord(number) && (|s.matched| + 1 < PairsPerRound || s.round >= LastRound) ==>
      && t.matched == s.matched + {number}
      && t.round == s.round && t.numbers == s.numbers && t.words == s.words
      && t.complete == (s.complete || |s.matched| + 1 >= PairsPerRound)
    // the sixth pair of rounds 1 and 2 starts the next round with nothing matched
    ensures word == NumberWord(number) && |s.matched| + 1 >= PairsPerRound && s.round < LastRound ==>
      && t.round == s.round + 1 && t.matched == {} && t.complete == s.complete
      && t.numbers == RoundNumbers(s.round + 1) && t.words == RoundWords(s.round + 1, swaps)
    // a wrong pair counts an attempt, breaks the streak and clears both selections
    ensures word != NumberWord(number) ==>
      t == s.(wrongAttempts := s.wrongAttempts + 1, consecutive := 0,
              selectedNumber := None, selectedWord := None)
  {
    if word == NumberWord(number) then
      var s' := Scored(s, number);
      if |s.matched| + 1 >= PairsPerRound then
        if s.round >= LastRound then s'.(complete := true) else NextRound(s', swaps)
      else s'
    else Missed(s)
  }

  /** The immediate effect of a correct pair. */
  function Scored(s: MatchState, number: nat): MatchState
  {
    s.(matched := s.matched + {number}, score := s.score + 10,
       selectedNumber := None, selectedWord := None,
       consecutive := Streak.Bump(s.consecutive),
       showRocket := s.showRocket || Streak.Fires(s.consecutive))
  }

  /** The timer after the sixth pair of a round that is not the last: the next round. */
  function NextRound(s: MatchState, swaps: seq<(nat, nat)>): MatchState
    requires Chance.SwapsWithin(swaps, PairsPerRound)
  {
    s.(round := s.round + 1, matched := {}, numbers := RoundNumbers(s.round + 1),
       words := RoundWords(s.round + 1, swaps))
  }

  /** The effect of a wrong pair, its timer included. */
  function Missed(s: MatchState): MatchState
  {
    s.(wrongAttempts := s.wrongAttempts + 1, consecutive := 0,
       selectedNumber := None, selectedWord := None)
  }

  /** The first state satisfies the invariant. */
  lemma InitialInv(swaps: seq<(nat, nat)>)
    requires Chance.SwapsWithin(swaps, PairsPerRound)
    ensures Inv(Initial(swaps))
  {
  }

  /** Checking an unmatched number of the board keeps the invariant, so in particular the
      score stays 10 per matched pair and a finished game has scored 180. */
  lemma CheckedInv(s: MatchState, number: nat, word: string, swaps: seq<(nat, nat)>)
    requires Inv(s) && !s.complete
    requires number in s.numbers && number !in s.matched
    requires Chance.SwapsWithin(swaps, PairsPerRound)
    ensures Inv(Checked(s, number, word, swaps))
  {
    if word == NumberWord(number) {
      assert |s.matched + {number}| == |s.matched| + 1;
      if |s.matched| + 1 < PairsPerRound {
        ScoredInv(s, number);
      } else if s.round >= LastRound {
        CompletedInv(s, number);
      } else {
        NextRoundInv(s, number, swaps);
      }
    } else {
      MissedInv(s);
    }
  }

  lemma ScoredInv(s: MatchState, number: nat)
    requires Inv(s) && !s.complete
    requires number in s.numbers && number !in s.matched
    requires |s.matched| + 1 < PairsPerRound
    ensures Inv(Scored(s, number))
  {
    assert |s.matched + {number}| == |s.matched| + 1;
  }

  lemma CompletedInv(s: MatchState, number: nat)
    requires Inv(s) && !s.complete
    requires number in s.numbers && number !in s.matched
    requires |s.matched| + 1 >= PairsPerRound && s.round >= LastRound
    ensures Inv(Scored(s, number).(complete := true))
  {
    assert |s.matched + {number}| == |s.matched| + 1;
  }

  lemma NextRoundInv(s: MatchState, number: nat, swaps: seq<(nat, nat)>)
    requires Inv(s) && !s.complete
    requires number in s.numbers && number !in s.matched
    requires |s.matched| + 1 >= PairsPerRound && s.round < LastRound
    requires Chance.SwapsWithin(swaps, PairsPerRound)
    ensures Inv(NextRound(Scored(s, number), swaps))
  {
    assert |s.matched + {number}| == |s.matched| + 1;
  }

  lemma MissedInv(s: MatchState)
    requires Inv(s) && !s.complete
    ensures Inv(Missed(s))
  {
  }

  /** A word is accepted for exactly one number of the board: its own. */
  lemma {:induction false} OnlyOwnWordMatches(s: MatchState, n: nat, m: nat)
    requires Inv(s)
    requires n in s.numbers && m in s.numbers
    requires NumberWord(m) == NumberWord(n)
    ensures m == n
  {
    RoundNumbersBelow100(s.round);
    NumberWords.Below100Injective(n, m);
  }

  /** The hook's state held in React's `useState` slots. */
  class NumberMatchGame {
    var score: nat
    var round: nat
    var complete: bool
    var selectedNumber: Option<nat>
    var selectedWord: Option<string>
    var matched: set<nat>
    var wrongAttempts: nat
    var consecutive: nat
    var showRocket: bool
    var numbers: seq<nat>
    var words: seq<string>

    /** The fields as one value. */
    function State(): MatchState
      reads this
    {
      MatchState(score, round, complete, selectedNumber, selectedWord, matched,
                 wrongAttempts, consecutive, showRocket, numbers, words)
    }

    ghost predicate Valid()
      reads this
    {
      Inv(State())
    }

    constructor (swaps: seq<(nat, nat)>)
      requires Chance.SwapsWithin(swaps, PairsPerRound)
      ensures State() == Initial(swaps) && Valid()
    {
      score, round, complete := 0, 1, false;
      selectedNumber, selectedWord := None, None;
      matched, wrongAttempts, consecutive, showRocket := {}, 0, 0, false;
      numbers := RoundNumbers(1);
      words := RoundWords(1, swaps);
      InitialInv(swaps);
    }

    /** `setSelectedNumber(number)`. */
    method SelectNumber(number: nat)
      modifies this`selectedNumber
      ensures State() == old(State()).(selectedNumber := Some(number))
    {
      selectedNumber := Some(number);
    }

    /** `setSelectedWord(word)`. */
    method SelectWord(word: string)
      modifies this`selectedWord
      ensures State() == old(State()).(selectedWord := Some(word))
    {
      selectedWord := Some(word);
    }

    /** `checkMatch(number, word)`; `swaps` shuffles the next round's words if one starts. */
    method CheckMatch(number: nat, word: string, swaps: seq<(nat, nat)>)
      requires Valid() && !complete
      requires number in numbers && number !in matched
      requires Chance.SwapsWithin(swaps, PairsPerRound)
      modifies this
      ensures State() == Checked(old(State()), number, word, swaps)
      ensures Valid()
    {
      CheckedInv(State(), number, word, swaps);
      if word == NumberWord(number) {
        var roundDone := |matched| + 1 >= PairsPerRound;
        Score(number);
        if roundDone {
          if round >= LastRound {
            complete := true;
          } else {
            StartNextRound(swaps);
          }
        }
      } else {
        Miss();
      }
    }

    /** The state updates of a correct pair. */
    method Score(number: nat)
      modifies this
      ensures State() == Scored(old(State()), number)
    {
      matched := matched + {number};
      score := score + 10;
      selectedNumber, selectedWord := None, None;
      showRocket := showRocket || Streak.Fires(consecutive);
      consecutive := Streak.Bump(consecutive);
    }

    /** The delayed start of the next round. */
    method StartNextRound(swaps: seq<(nat, nat)>)
      requires Chance.SwapsWithin(swaps, PairsPerRound)
      modifies this
      ensures State() == NextRound(old(State()), swaps)
    {
      var t := NextRound(State(), swaps);
      round, matched, numbers, words := t.round, t.matched, t.numbers, t.words;
    }

    /** The state updates of a wrong pair, with the delayed clearing of the selections. */
    method Miss()
      modifies this
      ensures State() == Missed(old(State()))
    {
      wrongAttempts := wrongAttempts + 1;
      consecutive := 0;
      selectedNumber, selectedWord := None, None;
    }

    /** `resetGame`. */
    method ResetGame(swaps: seq<(nat, nat)>)
      requires Chance.SwapsWithin(swaps, PairsPerRound)
      modifies this
      ensures State() == Reset(old(State()), swaps)
      ensures Valid()
    {
      score, round, complete := 0, 1, false;
      selectedNumber, selectedWord := None, None;
      matched, wrongAttempts, consecutive := {}, 0, 0;
      numbers := RoundNumbers(1);
      words := RoundWords(1, swaps);
    }
  }
}
