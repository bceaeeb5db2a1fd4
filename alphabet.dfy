/** The alphabet cards shared by the alphabet page and the ABC quiz: one letter and one
    word starting with it per letter of the alphabet. Both components carry the same 26
    letter/word pairs; the emoji and colour of each card are presentation and are not
    kept here. */
module Alphabet {

  /** One card: the letter (a one-character string, as in the source) and its word. */
  datatype Entry = Entry(letter: string, word: string)

  const Data: seq<Entry> := [
    Entry("A", "Apple"), Entry("B", "Ball"), Entry("C", "Cat"), Entry("D", "Dog"),
    Entry("E", "Elephant"), Entry("F", "Fish"), Entry("G", "Giraffe"), Entry("H", "House"),
    Entry("I", "Ice Cream"), Entry("J", "Jellyfish"), Entry("K", "Kite"), Entry("L", "Lion"),
    Entry("M", "Moon"), Entry("N", "Nest"), Entry("O", "Orange"), Entry("P", "Penguin"),
    Entry("Q", "Queen"), Entry("R", "Rainbow"), Entry("S", "Sun"), Entry("T", "Tree"),
    Entry("U", "Umbrella"), Entry("V", "Volcano"), Entry("W", "Whale"), Entry("X", "Xylophone"),
    Entry("Y", "Yacht"), Entry("Z", "Zebra")]

  /** The number of cards. */
  const Count: nat := 26

  /** The letter on card i. */
  function LetterAt(i: nat): string
    requires i < Count
  {
    DataInOrder();
    Data[i].letter
  }

  /** No two entries of `s` share a letter. */
  ghost predicate DistinctLetters(s: seq<Entry>)
  {
    forall i, j :: 0 <= i < j < |s| ==> s[i].letter != s[j].letter
  }

  /** The cards are the 26 letters A..Z in alphabetical order, each word starting with
      its letter. */
  lemma DataInOrder()
    ensures |Data| == Count
    ensures forall i :: 0 <= i < 26 ==> Data[i].letter == [(65 + i) as char]
    ensures forall i :: 0 <= i < 26 ==> |Data[i].word| > 0 && Data[i].word[0] == Data[i].letter[0]
  {
  }

  /** No two cards share a letter. */
  lemma LettersDistinct()
    ensures DistinctLetters(Data)
    ensures forall i, j :: 0 <= i < Count && 0 <= j < Count ==> (LetterAt(i) == LetterAt(j) <==> i == j)
  {
    DataInOrder();
    forall i, j | 0 <= i < j < |Data|
      ensures Data[i].letter != Data[j].letter
    {
      assert Data[i].letter[0] != Data[j].letter[0];
    }
  }
}
