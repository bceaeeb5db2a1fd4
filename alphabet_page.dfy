/** The alphabet page: one card at a time, with "next" and "previous" buttons that wrap
    around, and a spoken sentence "<letter> for <word>" for the shown or clicked card. */
module AlphabetPage {

  import Alphabet
  import Carousel

  /** `nextLetter`. */
  function NextLetter(i: nat): (r: nat)
    requires i < |Alphabet.Data|
    ensures r < |Alphabet.Data|
    ensures i + 1 < |Alphabet.Data| ==> r == i + 1
    ensures i + 1 == |Alphabet.Data| ==> r == 0
  {
    Carousel.Next(i, |Alphabet.Data|)
  }

  /** `prevLetter`. */
  function PrevLetter(i: nat): (r: nat)
    requires i < |Alphabet.Data|
    ensures r < |Alphabet.Data|
    ensures i > 0 ==> r == i - 1
    ensures i == 0 ==> r == |Alphabet.Data| - 1
  {
    Carousel.Prev(i, |Alphabet.Data|)
  }

  /** Z is followed by A, A is preceded by Z, and the buttons undo each other. */
  lemma {:induction false} LetterNavigation(i: nat)
    requires i < |Alphabet.Data|
    ensures NextLetter(25) == 0 && PrevLetter(0) == 25
    ensures PrevLetter(NextLetter(i)) == i && NextLetter(PrevLetter(i)) == i
    ensures i < 25 ==> Alphabet.Data[NextLetter(i)].letter[0] as int == Alphabet.Data[i].letter[0] as int + 1
  {
    Alphabet.DataInOrder();
    Carousel.PrevAfterNext(i, 26);
    Carousel.NextAfterPrev(i, 26);
  }

  /** `${letter} for ${word}`. */
  function Sentence(letter: string, word: string): (r: string)
    ensures |r| == |letter| + 5 + |word|
    ensures r[..|letter|] == letter && r[|letter| + 5..] == word
    ensures r[|letter|..|letter| + 5] == " for "
  {
    letter + " for " + word
  }

  /** The sentence of a card names that card and no other: different cards are read out
      differently. */
  lemma {:induction false} SentencesDistinct(i: nat, j: nat)
    requires i < |Alphabet.Data| && j < |Alphabet.Data| && i != j
    ensures Sentence(Alphabet.Data[i].letter, Alphabet.Data[i].word)
         != Sentence(Alphabet.Data[j].letter, Alphabet.Data[j].word)
  {
    Alphabet.DataInOrder();
    var a := Sentence(Alphabet.Data[i].letter, Alphabet.Data[i].word);
    var b := Sentence(Alphabet.Data[j].letter, Alphabet.Data[j].word);
    assert a[0] == Alphabet.Data[i].letter[0] && b[0] == Alphabet.Data[j].letter[0];
  }
}
