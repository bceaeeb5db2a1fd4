/** The click handlers of the number-matching board (the `NumberMatch` component): a click
    on a number or a word selects it, and when the other column already has a selection
    the pair is checked at once. Clicks on matched items do nothing. While the game is
    complete the board is replaced by the closing screen, so no click reaches it. */
module NumberMatchBoard {

  import opened Maybe
  import Chance
  import opened NumberMatchHook

  /** `handleNumberClick(number)`. */
  function NumberClicked(s: MatchState, number: nat, swaps: seq<(nat, nat)>): (t: MatchState)
    requires s.round >= 1 && Chance.SwapsWithin(swaps, PairsPerRound)
    ensures number in s.matched ==> t == s
    ensures number !in s.matched && s.selectedWord == None ==> t == s.(selectedNumber := Some(number))
    ensures number !in s.matched && s.selectedWord.Some? ==>
      && t.selectedNumber == None && t.selectedWord == None
      && t.score == s.score + (if s.selectedWord.value == NumberWord(number) then 10 else 0)
  {
    if number in s.matched then s
    else
      var s' := s.(selectedNumber := Some(number));
      if s.selectedWord.Some? then Checked(s', number, s.selectedWord.value, swaps) else s'
  }

  /** `handleWordClick(word)`: the word's number on the board decides whether it is matched. */
  function WordClicked(s: MatchState, word: string, swaps: seq<(nat, nat)>): (t: MatchState)
    requires s.round >= 1 && Chance.SwapsWithin(swaps, PairsPerRound)
    ensures FindNumber(s.numbers, word).Some? && FindNumber(s.numbers, word).value in s.matched ==> t == s
    ensures !(FindNumber(s.numbers, word).Some? && FindNumber(s.numbers, word).value in s.matched) ==>
      && (s.selectedNumber == None ==> t == s.(selectedWord := Some(word)))
      && (s.selectedNumber.Some? ==>
            && t.selectedNumber == None && t.selectedWord == None
            && t.score == s.score + (if word == NumberWord(s.selectedNumber.value) then 10 else 0))
  {
    var owner := FindNumber(s.numbers, word);
    if owner.Some? && owner.value in s.matched then s
    else
      var s' := s.(selectedWord := Some(word));
      if s.selectedNumber.Some? then Checked(s', s.selectedNumber.value, word, swaps) else s'
  }

  /** A number click on the board keeps the invariant. */
  lemma NumberClickedInv(s: MatchState, number: nat, swaps: seq<(nat, nat)>)
    requires Inv(s) && !s.complete && number in s.numbers
    requires Chance.SwapsWithin(swaps, PairsPerRound)
    ensures Inv(NumberClicked(s, number, swaps))
  {
    if number !in s.matched {
      var s' := s.(selectedNumber := Some(number));
      assert Inv(s');
      if s.selectedWord.Some? {
        CheckedInv(s', number, s.selectedWord.value, swaps);
      }
    }
  }

  /** A word click on the board keeps the invariant. */
  lemma WordClickedInv(s: MatchState, word: string, swaps: seq<(nat, nat)>)
    requires Inv(s) && !s.complete && word in s.words
    requires Chance.SwapsWithin(swaps, PairsPerRound)
    ensures Inv(WordClicked(s, word, swaps))
  {
    var owner := FindNumber(s.numbers, word);
    if !(owner.Some? && owner.value in s.matched) {
      var s' := s.(selectedWord := Some(word));
      assert Inv(s');
      if s.selectedNumber.Some? {
        CheckedInv(s', s.selectedNumber.value, word, swaps);
      }
    }
  }

  /** With nothing selected, clicking an unmatched number and then its own word scores the
      pair; clicking any other word instead counts a wrong attempt and scores nothing. */
  lemma {:induction false} NumberThenWord(s: MatchState, n: nat, word: string, swaps: seq<(nat, nat)>)
    requires Inv(s) && !s.complete
    requires s.selectedNumber == None && s.selectedWord == None
    requires n in s.numbers && n !in s.matched && word in s.words
    requires forall m :: m in s.matched ==> NumberWord(m) != word  // matched words are disabled
    requires Chance.SwapsWithin(swaps, PairsPerRound)
    ensures var t := WordClicked(NumberClicked(s, n, swaps), word, swaps);
      && (word == NumberWord(n) ==> t.score == s.score + 10 && t.wrongAttempts == s.wrongAttempts)
      && (word != NumberWord(n) ==> t.score == s.score && t.wrongAttempts == s.wrongAttempts + 1)
  {
  }

  /** `handleNumberClick(number)` on the hook's state; `swaps` shuffles the next round's
      words if the click completes a round. */
  method HandleNumberClick(g: NumberMatchGame, number: nat, swaps: seq<(nat, nat)>)
    requires g.Valid() && !g.complete && number in g.numbers
    requires Chance.SwapsWithin(swaps, PairsPerRound)
    modifies g
    ensures g.State() == NumberClicked(old(g.State()), number, swaps)
    ensures g.Valid()
  {
    NumberClickedInv(g.State(), number, swaps);
    if number in g.matched {
      return;
    }
    var word := g.selectedWord;
    g.SelectNumber(number);
    if word.Some? {
      g.CheckMatch(number, word.value, swaps);
    }
  }

  /** `handleWordClick(word)` on the hook's state. */
  method HandleWordClick(g: NumberMatchGame, word: string, swaps: seq<(nat, nat)>)
    requires g.Valid() && !g.complete && word in g.words
    requires Chance.SwapsWithin(swaps, PairsPerRound)
    modifies g
    ensures g.State() == WordClicked(old(g.State()), word, swaps)
    ensures g.Valid()
  {
    WordClickedInv(g.State(), word, swaps);
    var owner := FindNumber(g.numbers, word);
    if owner.Some? && owner.value in g.matched {
      return;
    }
    var number := g.selectedNumber;
    g.SelectWord(word);
    if number.Some? {
      g.CheckMatch(number.value, word, swaps);
    }
  }
}
