/** The phonics page: for the chosen level, a list of sound cards (a letter or letter
    group, the sound it makes and an example word), each given a background colour from a
    palette of twelve by its position; "next" and "previous" buttons that wrap around; and
    a spoken sentence for the shown or clicked card. The emoji and example words of each
    card are presentation and are not kept. */
module PhonicsPage {

  import Arith
  import Carousel

  datatype Level = Beginner | Intermediate | Advanced

  /** One entry of a level's list. */
  datatype Sound = Sound(letter: string, sound: string, word: string)

  /** One card as shown: the entry and its colour. */
  datatype Card = Card(letter: string, sound: string, word: string, color: string)

  const BeginnerSounds: seq<Sound> := [
    Sound("A", "/æ/", "Apple"), Sound("B", "/b/", "Ball"), Sound("C", "/k/", "Cat"),
    Sound("D", "/d/", "Dog"), Sound("E", "/ɛ/", "Egg"), Sound("F", "/f/", "Fish"),
    Sound("G", "/g/", "Goat"), Sound("H", "/h/", "Hat"), Sound("I", "/ɪ/", "Igloo"),
    Sound("J", "/dʒ/", "Jump"), Sound("K", "/k/", "Kite"), Sound("L", "/l/", "Lion"),
    Sound("M", "/m/", "Moon"), Sound("N", "/n/", "Net"), Sound("O", "/ɒ/", "Orange"),
    Sound("P", "/p/", "Pig"), Sound("Q", "/kw/", "Queen"), Sound("R", "/r/", "Rabbit"),
    Sound("S", "/s/", "Sun"), Sound("T", "/t/", "Tiger"), Sound("U", "/ʌ/", "Umbrella"),
    Sound("V", "/v/", "Van"), Sound("W", "/w/", "Water"), Sound("X", "/ks/", "Fox"),
    Sound("Y", "/j/", "Yes"), Sound("Z", "/z/", "Zebra")]

  const IntermediateSounds: seq<Sound> := [
    Sound("CH", "/tʃ/", "Chair"), Sound("SH", "/ʃ/", "Ship"), Sound("TH", "/θ/", "Think"),
    Sound("WH", "/w/", "Whale"), Sound("PH", "/f/", "Phone"), Sound("CK", "/k/", "Duck"),
    Sound("NG", "/ŋ/", "Ring"), Sound("ST", "/st/", "Star"), Sound("SK", "/sk/", "Skate"),
    Sound("SP", "/sp/", "Spider"), Sound("SC", "/sk/", "Scare"), Sound("SM", "/sm/", "Smile")]

  const AdvancedSounds: seq<Sound> := [
    Sound("OUGH", "/ʌf/", "Tough"), Sound("TION", "/ʃən/", "Nation"),
    Sound("IGH", "/aɪ/", "Light"), Sound("EIGH", "/eɪ/", "Eight"),
    Sound("EAR", "/ɪər/", "Hear"), Sound("AIR", "/eər/", "Hair"),
    Sound("URE", "/jʊər/", "Pure"), Sound("OUR", "/aʊər/", "Hour"),
    Sound("AWE", "/ɔː/", "Awesome"), Sound("EW", "/juː/", "New")]

  /** The palette, used in turn. */
  const Colors: seq<string> := [
    "from-red-400 to-red-600", "from-blue-400 to-blue-600", "from-green-400 to-green-600",
    "from-yellow-400 to-yellow-600", "from-purple-400 to-purple-600", "from-pink-400 to-pink-600",
    "from-orange-400 to-orange-600", "from-teal-400 to-teal-600", "from-indigo-400 to-indigo-600",
    "from-cyan-400 to-cyan-600", "from-amber-400 to-amber-600", "from-rose-400 to-rose-600"]

  /** `getPhonicsForLevel`. */
  function SoundsFor(level: Level): seq<Sound>
  {
    match level
    case Beginner => BeginnerSounds
    case Intermediate => IntermediateSounds
    case Advanced => AdvancedSounds
  }

  /** The three levels have 26, 12 and 10 cards, and no level is empty, so the carousel
      always has a card to show. */
  lemma LevelSizes()
    ensures |SoundsFor(Beginner)| == 26
    ensures |SoundsFor(Intermediate)| == 12
    ensures |SoundsFor(Advanced)| == 10
    ensures forall level :: |SoundsFor(level)| > 0
  {
  }

  /** `phonicsData`: each entry with `colors[index % colors.length]`. */
  function WithColors(data: seq<Sound>): (r: seq<Card>)
    ensures |r| == |data|
    ensures forall i :: 0 <= i < |r| ==>
      && r[i].letter == data[i].letter && r[i].sound == data[i].sound && r[i].word == data[i].word
      && r[i].color == Colors[i % |Colors|]
  {
    seq(|data|, i requires 0 <= i < |data| =>
      Card(data[i].letter, data[i].sound, data[i].word, Colors[i % |Colors|]))
  }

  /** The palette has twelve different colours. */
  lemma ColorsDistinct()
    ensures |Colors| == 12
    ensures forall i, j :: 0 <= i < j < |Colors| ==> Colors[i] != Colors[j]
  {
    forall i, j | 0 <= i < j < |Colors| ensures Colors[i] != Colors[j] {
      assert Colors[i][5] != Colors[j][5] || Colors[i][6] != Colors[j][6] || Colors[i][7] != Colors[j][7];
    }
  }

  /** The colours repeat every twelve cards, and any twelve cards in a row all have
      different colours. */
  lemma {:induction false} ColorCycle(data: seq<Sound>, i: nat, j: nat)
    requires i < j < |data|
    ensures j - i == 12 ==> WithColors(data)[i].color == WithColors(data)[j].color
    ensures j - i < 12 ==> WithColors(data)[i].color != WithColors(data)[j].color
  {
    ColorsDistinct();
    var q, m := i / 12, i % 12;
    assert i == 12 * q + m;
    if j - i == 12 {
      Arith.DivModUnique(j, 12, q + 1, m);
    } else if j - i < 12 {
      if m + (j - i) < 12 {
        Arith.DivModUnique(j, 12, q, m + (j - i));
      } else {
        Arith.DivModUnique(j, 12, q + 1, m + (j - i) - 12);
      }
      var a, b := i % 12, j % 12;
      if a < b {
        assert Colors[a] != Colors[b];
      } else {
        assert Colors[b] != Colors[a];
      }
    }
  }

  /** `nextSound`. */
  function NextSound(level: Level, i: nat): (r: nat)
    requires i < |SoundsFor(level)|
    ensures r < |SoundsFor(level)|
    ensures r == (i + 1) % |SoundsFor(level)|
  {
    Carousel.Next(i, |SoundsFor(level)|)
  }

  /** `prevSound`. */
  function PrevSound(level: Level, i: nat): (r: nat)
    requires i < |SoundsFor(level)|
    ensures r < |SoundsFor(level)|
    ensures r == (i + |SoundsFor(level)| - 1) % |SoundsFor(level)|
  {
    Carousel.Prev(i, |SoundsFor(level)|)
  }

  /** The two buttons undo each other, on every level. */
  lemma {:induction false} SoundNavigation(level: Level, i: nat)
    requires i < |SoundsFor(level)|
    ensures PrevSound(level, NextSound(level, i)) == i
    ensures NextSound(level, PrevSound(level, i)) == i
  {
    Carousel.PrevAfterNext(i, |SoundsFor(level)|);
    Carousel.NextAfterPrev(i, |SoundsFor(level)|);
  }

  /** `${letter} makes the ${sound} sound, like in ${word}`. */
  function Sentence(letter: string, sound: string, word: string): (r: string)
    ensures |r| == |letter| + |sound| + |word| + 27
    ensures r[..|letter|] == letter
    ensures r[|letter|..|letter| + 11] == " makes the "
    ensures r[|letter| + 11..|letter| + 11 + |sound|] == sound
    ensures r[|letter| + 11 + |sound|..|r| - |word|] == " sound, like in "
    ensures r[|r| - |word|..] == word
  {
    letter + " makes the " + sound + " sound, like in " + word
  }

  /** Two cards whose letter groups do not begin one another are read out differently,
      whatever their sounds and words. */
  lemma SentencesDiffer(a: Sound, b: Sound)
    requires !(a.letter <= b.letter) && !(b.letter <= a.letter)
    ensures Sentence(a.letter, a.sound, a.word) != Sentence(b.letter, b.sound, b.word)
  {
    var x, y := Sentence(a.letter, a.sound, a.word), Sentence(b.letter, b.sound, b.word);
    if |a.letter| <= |b.letter| {
      assert x[..|a.letter|] == a.letter;
      assert y[..|a.letter|] == b.letter[..|a.letter|];
    } else {
      assert y[..|b.letter|] == b.letter;
      assert x[..|b.letter|] == a.letter[..|b.letter|];
    }
  }
}
