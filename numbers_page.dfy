/** The numbers page: for the chosen level, one card per number of the level's range (the
    numeral, the number's word, a count of objects capped at ten, and a colour and emoji
    taken in turn from tables of eighteen), with "next" and "previous" buttons that wrap
    around. The colour and emoji of a card are kept as their positions in those tables. */
module NumbersPage {

  import Carousel
  import Decimal
  import NumberWords
  import NumberMatchHook

  /** `getNumberWord` of this page: the word below 100, "One Hundred" for 100, the numeral
      above. */
  function PageWord(n: nat): (r: string)
    ensures n < 100 ==> r == NumberWords.Below100(n)
    ensures n == 100 ==> r == "One Hundred"
    ensures n > 100 ==> Decimal.AllDigits(r) && Decimal.Parse(r) == n
  {
    if n < 100 then NumberWords.Below100(n)
    else if n == 100 then "One Hundred"
    else Decimal.ParseShow(n); Decimal.Show(n)
  }

  /** The page and the number-matching game say the same word for every number below 100;
      they part only from 100 on, where only this page has a word. */
  lemma {:induction false} WordsAgree(n: nat)
    ensures n < 100 ==> PageWord(n) == NumberMatchHook.NumberWord(n)
    ensures n == 100 ==> PageWord(n) != NumberMatchHook.NumberWord(n)
  {
    if n == 100 {
      var w := NumberMatchHook.NumberWord(n);
      assert Decimal.AllDigits(w);
      assert !Decimal.IsDigit(PageWord(n)[0]);
    }
  }

  datatype Level = Beginner | Intermediate | Advanced

  /** `getNumberRange`: the first and last number shown, both included. */
  function Range(level: Level): (r: (nat, nat))
    ensures r.0 <= r.1 <= 100
  {
    match level
    case Beginner => (0, 20)
    case Intermediate => (20, 50)
    case Advanced => (50, 100)
  }

  /** Sizes of the colour and emoji tables. */
  const ColorCount: nat := 18
  const EmojiCount: nat := 18

  /** One card: its numeral, its word, its emoji's and colour's positions in their tables,
      and how many objects it shows. */
  datatype NumberCard = NumberCard(number: string, word: string, emoji: nat, count: nat, color: nat)

  /** The card for the number i. */
  function CardFor(i: nat): (c: NumberCard)
    ensures Decimal.AllDigits(c.number)
    ensures c.count <= 10 && c.count <= i && (c.count < 10 ==> c.count == i)
    ensures c.color < ColorCount && c.emoji < EmojiCount
    // the palettes are used cyclically, one step per number
    ensures c.word == PageWord(i) && c.color == i % ColorCount && c.emoji == i % EmojiCount
  {
    NumberCard(Decimal.Show(i), PageWord(i), i % EmojiCount, if i < 10 then i else 10, i % ColorCount)
  }

  /** Card i shows the digits of i, min(i, 10) objects, and a colour and an emoji from the
      palettes. */
  lemma CardShows(i: nat)
    ensures var c := CardFor(i);
      && Decimal.AllDigits(c.number) && Decimal.Parse(c.number) == i
      && c.count <= 10 && (i <= 10 ==> c.count == i) && (i >= 10 ==> c.count == 10)
      && c.color < ColorCount && c.emoji < EmojiCount
      && c.word == PageWord(i) && c.color == i % ColorCount && c.emoji == i % EmojiCount
  {
    Decimal.ParseShow(i);
  }

  /** The cards of a level, one per number from its start to its end. */
  function Cards(level: Level): (r: seq<NumberCard>)
    ensures |r| == Range(level).1 - Range(level).0 + 1
    ensures forall k :: 0 <= k < |r| ==> r[k] == CardFor(Range(level).0 + k)
  {
    var (start, end) := Range(level);
    seq(end - start + 1, k requires 0 <= k < end - start + 1 => CardFor(start + k))
  }

  /** `numbersData`: the loop from the level's start to its end, inclusive. */
  method BuildNumbersData(level: Level) returns (data: seq<NumberCard>)
    ensures data == Cards(level)
  {
    var (start, end) := Range(level);
    data := CardsBetween(start, end);
  }

  /** The loop body of `numbersData`: one card per number from start to end, inclusive. */
  method CardsBetween(start: nat, end: nat) returns (data: seq<NumberCard>)
    requires start <= end
    ensures |data| == end - start + 1
    ensures forall k :: 0 <= k < |data| ==> data[k] == CardFor(start + k)
  {
    data := [];
    var i := start;
    while i <= end
      invariant start <= i <= end + 1
      invariant |data| == i - start
      invariant forall k :: 0 <= k < |data| ==> data[k] == CardFor(start + k)
    {
      data := data + [CardFor(i)];
      i := i + 1;
    }
  }

  /** The three levels show 21, 31 and 51 cards; the numbers 20 and 50 each appear on two
      levels. */
  lemma LevelSizes()
    ensures |Cards(Beginner)| == 21 && |Cards(Intermediate)| == 31 && |Cards(Advanced)| == 51
    ensures Cards(Beginner)[20] == Cards(Intermediate)[0]
    ensures Cards(Intermediate)[30] == Cards(Advanced)[0]
  {
  }

  /** The cards show their numbers in increasing order without gaps: the cards for i < j
      read back j - i apart, so no number is shown twice. With the postcondition of
      `Cards`, which puts the card for start + k at position k, this orders every level. */
  lemma CardNumbersInOrder(i: nat, j: nat)
    requires i < j
    ensures Decimal.Parse(CardFor(j).number) == Decimal.Parse(CardFor(i).number) + (j - i)
    ensures CardFor(i).number != CardFor(j).number
  {
    CardShows(i);
    CardShows(j);
  }

  /** `nextNumber`. */
  function NextNumber(level: Level, i: nat): (r: nat)
    requires i < |Cards(level)|
    ensures r < |Cards(level)|
    ensures r == (i + 1) % |Cards(level)|
  {
    Carousel.Next(i, |Cards(level)|)
  }

  /** `prevNumber`. */
  function PrevNumber(level: Level, i: nat): (r: nat)
    requires i < |Cards(level)|
    ensures r < |Cards(level)|
    ensures r == (i + |Cards(level)| - 1) % |Cards(level)|
  {
    Carousel.Prev(i, |Cards(level)|)
  }

  /** The two buttons undo each other, and pressing "next" once per card comes back to the
      card shown first. */
  lemma {:induction false} NumberNavigation(level: Level, i: nat)
    requires i < |Cards(level)|
    ensures PrevNumber(level, NextNumber(level, i)) == i
    ensures NextNumber(level, PrevNumber(level, i)) == i
    ensures Carousel.Forward(i, |Cards(level)|, |Cards(level)|) == i
  {
    Carousel.PrevAfterNext(i, |Cards(level)|);
    Carousel.NextAfterPrev(i, |Cards(level)|);
    Carousel.ForwardIsModular(i, |Cards(level)|, |Cards(level)|);
    assert (i + |Cards(level)|) % |Cards(level)| == i;
  }
}
