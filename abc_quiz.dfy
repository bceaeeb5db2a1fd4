/** The ABC quiz: for each of the 26 letters in turn the child hears the letter and picks
    its card among four options. A right pick scores one point; after the answer the next
    letter comes up, and after the last one the quiz shows the final score. The delay
    before the next question and the effect that builds its options are modelled by their
    net effect, applied at once. */
module ABCQuiz {

  import opened Maybe
  import Chance
  import opened Alphabet

  /** Number of options per question, and how many of them are wrong. */
  const OptionCount: nat := 4
  const WrongCount: nat := 3

  /** The other cards, `alphabetData.filter(item => item.letter !== correctAnswer.letter)`,
      as positions in the card table: every position but q's, in order. */
  function RestIndices(q: nat): (r: seq<nat>)
    requires q < Count
    ensures |r| == Count - 1
    ensures forall i: nat :: i in r <==> i < Count && i != q
    ensures Chance.Distinct(r)
  {
    RestIndicesMembers(q);
    seq(Count - 1, k requires 0 <= k < Count - 1 => if k < q then k else k + 1)
  }

  /** The positions kept are all those but q's. */
  lemma RestIndicesMembers(q: nat)
    requires q < Count
    ensures var r := seq(Count - 1, k requires 0 <= k < Count - 1 => if k < q then k else k + 1);
      forall i: nat :: i in r <==> i < Count && i != q
  {
    var r := seq(Count - 1, k requires 0 <= k < Count - 1 => if k < q then k else k + 1);
    forall i: nat | i < Count && i != q ensures i in r {
      var k := if i < q then i else i - 1;
      assert r[k] == i;
    }
  }

  /** Leaving out q's position keeps exactly the cards whose letter differs from q's, as
      the filter on letters does, since no two cards share a letter. */
  lemma RestIsFilter(q: nat)
    requires q < Count
    ensures forall i :: 0 <= i < Count ==> (i in RestIndices(q) <==> LetterAt(i) != LetterAt(q))
  {
    Alphabet.LettersDistinct();
  }

  /** A list of options for question `q`: four different cards, including the one asked. */
  ghost predicate OptionsFor(q: nat, options: seq<nat>)
  {
    && |options| == OptionCount
    && q in options
    && (forall k :: 0 <= k < |options| ==> options[k] < Count)
    && Chance.Distinct(options)
  }

  /** The right card followed by the first three of the shuffled other cards. */
  function Candidates(q: nat, restSwaps: seq<(nat, nat)>): (r: seq<nat>)
    requires q < Count && Chance.SwapsWithin(restSwaps, Count - 1)
    ensures OptionsFor(q, r)
  {
    var rest := RestIndices(q);
    var shuffled := Chance.Shuffle(rest, restSwaps);
    Chance.ShuffleKeepsDistinct(rest, restSwaps);
    Chance.ShufflePermutes(rest, restSwaps);
    assert forall x :: x in shuffled ==> x in rest by {
      forall x | x in shuffled ensures x in rest {
        assert x in multiset(shuffled);
      }
    }
    var r := [q] + shuffled[..WrongCount];
    assert forall k :: 0 < k < |r| ==> r[k] == shuffled[k - 1] && r[k] in rest;
    assert Chance.Distinct(r) by {
      forall i, j | 0 <= i < j < |r| ensures r[i] != r[j] {
        if i > 0 {
          assert r[i] == shuffled[i - 1] && r[j] == shuffled[j - 1];
        }
      }
    }
    r
  }

  /** Shuffling keeps what `OptionsFor` asks of a list of options. */
  lemma ShuffledOptions(q: nat, options: seq<nat>, swaps: seq<(nat, nat)>)
    requires Chance.SwapsWithin(swaps, |options|) && OptionsFor(q, options)
    ensures OptionsFor(q, Chance.Shuffle(options, swaps))
  {
    var r := Chance.Shuffle(options, swaps);
    Chance.ShuffleKeepsDistinct(options, swaps);
    Chance.ShufflePermutes(options, swaps);
    assert q in multiset(r);
    forall k | 0 <= k < |r| ensures r[k] < Count {
      assert r[k] in multiset(options);
    }
  }

  /** `generateQuestion`: three other cards from the shuffled rest of the alphabet, then
      those and the right card shuffled together. */
  function Options(q: nat, restSwaps: seq<(nat, nat)>, allSwaps: seq<(nat, nat)>): (r: seq<nat>)
    requires q < Count
    requires Chance.SwapsWithin(restSwaps, Count - 1) && Chance.SwapsWithin(allSwaps, OptionCount)
    ensures OptionsFor(q, r)
  {
    ShuffledOptions(q, Candidates(q, restSwaps), allSwaps);
    Chance.Shuffle(Candidates(q, restSwaps), allSwaps)
  }

  /** Exactly one option shows the letter asked: one does, and no two do. */
  lemma {:induction false} ExactlyOneRight(q: nat, options: seq<nat>)
    requires q < Count && OptionsFor(q, options)
    ensures exists k :: 0 <= k < |options| && LetterAt(options[k]) == LetterAt(q)
    ensures forall k, l :: 0 <= k < l < |options| ==>
              LetterAt(options[k]) != LetterAt(q) || LetterAt(options[l]) != LetterAt(q)
  {
    Alphabet.LettersDistinct();
    var m :| 0 <= m < |options| && options[m] == q;
    forall k, l | 0 <= k < l < |options|
      ensures LetterAt(options[k]) != LetterAt(q) || LetterAt(options[l]) != LetterAt(q)
    {
      assert options[k] != options[l];
      assert options[k] != q || options[l] != q;
    }
  }

  /** The quiz's state. The options are held as positions in the card table: the card
      shown for option k is `Data[options[k]]`. */
  datatype QuizState = QuizState(
    question: nat,
    score: nat,
    selected: Option<string>,
    showResult: bool,
    finished: bool,
    options: seq<nat>)

  /** What holds of every reachable state: the question is one of the 26, the options fit
      it, and the score is at most the number of questions answered. */
  ghost predicate Inv(s: QuizState)
  {
    && s.question < Count
    && (s.finished ==> s.question == Count - 1)
    && s.score <= s.question + (if s.finished then 1 else 0)
    && OptionsFor(s.question, s.options)
  }

  /** The first question, as the quiz opens and after `resetQuiz`. */
  function Initial(restSwaps: seq<(nat, nat)>, allSwaps: seq<(nat, nat)>): (s: QuizState)
    requires Chance.SwapsWithin(restSwaps, Count - 1) && Chance.SwapsWithin(allSwaps, OptionCount)
    ensures Inv(s)
    ensures s.question == 0 && s.score == 0 && !s.finished && !s.showResult && s.selected == None
  {
    QuizState(0, 0, None, false, false, Options(0, restSwaps, allSwaps))
  }

  /** `handleAnswer(letter)` with its timer and the effect that prepares the next question;
      the swaps shuffle that question's options. */
  function Answered(s: QuizState, letter: string, restSwaps: seq<(nat, nat)>, allSwaps: seq<(nat, nat)>): (t: QuizState)
    requires s.question < Count
    requires Chance.SwapsWithin(restSwaps, Count - 1) && Chance.SwapsWithin(allSwaps, OptionCount)
    // while a result is shown the options are disabled
    ensures s.showResult ==> t == s
    // one point exactly for the right letter
    ensures !s.showResult ==>
      t.score == s.score + (if letter == LetterAt(s.question) then 1 else 0)
    // then the next letter, with fresh options and no answer shown ...
    ensures !s.showResult && s.question + 1 < Count ==>
      && t.question == s.question + 1 && t.finished == s.finished
      && t.selected == None && !t.showResult && OptionsFor(t.question, t.options)
    // ... or, after Z, the end of the quiz with the last answer still shown
    ensures !s.showResult && s.question + 1 == Count ==>
      t == s.(score := t.score, finished := true, selected := Some(letter), showResult := true)
  {
    if s.showResult then s
    else if s.question < Count - 1 then NextQuestion(Recorded(s, letter), restSwaps, allSwaps)
    else Recorded(s, letter).(finished := true)
  }

  /** The immediate effect of an answer: it is shown, and scored if right. */
  function Recorded(s: QuizState, letter: string): QuizState
    requires s.question < Count
  {
    s.(selected := Some(letter), showResult := true,
       score := s.score + (if letter == LetterAt(s.question) then 1 else 0))
  }

  /** The timer after an answer that is not the last, and the effect it triggers. */
  function NextQuestion(s: QuizState, restSwaps: seq<(nat, nat)>, allSwaps: seq<(nat, nat)>): QuizState
    requires s.question < Count - 1
    requires Chance.SwapsWithin(restSwaps, Count - 1) && Chance.SwapsWithin(allSwaps, OptionCount)
  {
    s.(question := s.question + 1, selected := None, showResult := false,
       options := Options(s.question + 1, restSwaps, allSwaps))
  }

  /** Every answer keeps the invariant. */
  lemma AnsweredInv(s: QuizState, letter: string, restSwaps: seq<(nat, nat)>, allSwaps: seq<(nat, nat)>)
    requires Inv(s) && !s.finished
    requires Chance.SwapsWithin(restSwaps, Count - 1) && Chance.SwapsWithin(allSwaps, OptionCount)
    ensures Inv(Answered(s, letter, restSwaps, allSwaps))
  {
  }

  /** The score never exceeds the 26 letters. */
  lemma ScoreAtMost26(s: QuizState)
    requires Inv(s)
    ensures s.score <= Count && Count == 26
  {
  }

  /** The quiz's `useState` slots. */
  class Quiz {
    var question: nat
    var score: nat
    var selected: Option<string>
    var showResult: bool
    var finished: bool
    var options: seq<nat>

    function State(): QuizState
      reads this
    {
      QuizState(question, score, selected, showResult, finished, options)
    }

    ghost predicate Valid()
      reads this
    {
      Inv(State())
    }

    constructor (restSwaps: seq<(nat, nat)>, allSwaps: seq<(nat, nat)>)
      requires Chance.SwapsWithin(restSwaps, Count - 1) && Chance.SwapsWithin(allSwaps, OptionCount)
      ensures State() == Initial(restSwaps, allSwaps) && Valid()
    {
      question, score, selected, showResult, finished := 0, 0, None, false, false;
      options := Options(0, restSwaps, allSwaps);
    }

    /** `handleAnswer(letter)`; the answer screen is gone once the quiz is finished. */
    method HandleAnswer(letter: string, restSwaps: seq<(nat, nat)>, allSwaps: seq<(nat, nat)>)
      requires Valid() && !finished
      requires Chance.SwapsWithin(restSwaps, Count - 1) && Chance.SwapsWithin(allSwaps, OptionCount)
      modifies this
      ensures State() == Answered(old(State()), letter, restSwaps, allSwaps)
      ensures Valid()
    {
      AnsweredInv(State(), letter, restSwaps, allSwaps);
      if showResult {
        return;
      }
      Record(letter);
      if question < Count - 1 {
        Advance(restSwaps, allSwaps);
      } else {
        finished := true;
      }
    }

    /** The answer shown and scored. */
    method Record(letter: string)
      requires question < Count
      modifies this
      ensures State() == Recorded(old(State()), letter)
    {
      selected := Some(letter);
      showResult := true;
      if letter == LetterAt(question) {
        score := score + 1;
      }
    }

    /** The next question with its fresh options. */
    method Advance(restSwaps: seq<(nat, nat)>, allSwaps: seq<(nat, nat)>)
      requires question < Count - 1
      requires Chance.SwapsWithin(restSwaps, Count - 1) && Chance.SwapsWithin(allSwaps, OptionCount)
      modifies this
      ensures State() == NextQuestion(old(State()), restSwaps, allSwaps)
    {
      var t := NextQuestion(State(), restSwaps, allSwaps);
      question, options, selected, showResult := t.question, t.options, t.selected, t.showResult;
    }

    /** `resetQuiz`: back to the first letter with a score of 0. */
    method ResetQuiz(restSwaps: seq<(nat, nat)>, allSwaps: seq<(nat, nat)>)
      requires Chance.SwapsWithin(restSwaps, Count - 1) && Chance.SwapsWithin(allSwaps, OptionCount)
      modifies this
      ensures State() == Initial(restSwaps, allSwaps) && Valid()
    {
      question, score, finished := 0, 0, false;
      options := Options(0, restSwaps, allSwaps);
      selected, showResult := None, false;
    }
  }
}
