/** The word builder: the child spells eight words in turn by clicking letters from a
    shuffled pile into the word's slots. A click on a pile letter fills the first empty
    slot; a click on a filled slot gives its letter back to the pile. As soon as every slot
    is filled with the word, it scores ten points and, after a pause, the next word is
    dealt; every third word starts a new level, and after the eighth the game is over. The
    pause and the effects that re-deal a word are modelled by their net effect, applied at
    once. A slot is `None` where the source keeps an empty string. */
module WordBuilder {

  import opened Maybe
  import Arith
  import Chance
  import Streak

  /** The number of words. */
  const WordCount: nat := 8

  /** The words, in the order they are asked. */
  const Words: seq<string> := ["CAT", "DOG", "SUN", "BALL", "TREE", "HOUSE", "FLOWER", "RAINBOW"]

  /** The word asked at position i. */
  function WordAt(i: nat): (w: string)
    requires i < WordCount
    ensures 3 <= |w| <= 7
  {
    Words[i]
  }

  /** The letters that may be added to a word's own: the vowels, then every consonant
      but C and D. */
  function ExtraPool(): (r: string)
    ensures |r| == 24
  {
    seq(24, k requires 0 <= k < 24 => "AEIOUBFGHJKLMNPQRSTVWXYZ"[k])
  }

  /** `s.filter(keep)`: the elements of s that pass `keep`, in their order. */
  function Filter<T>(s: seq<T>, keep: T -> bool): seq<T>
  {
    if s == [] then [] else (if keep(s[0]) then [s[0]] else []) + Filter(s[1..], keep)
  }

  /** The filter keeps exactly the elements that pass. */
  lemma {:induction false} FilterMembers<T>(s: seq<T>, keep: T -> bool)
    ensures forall x :: x in Filter(s, keep) <==> x in s && keep(x)
  {
    if s != [] {
      FilterMembers(s[1..], keep);
      assert s == [s[0]] + s[1..];
    }
  }

  /** `pool.filter(letter => !word.includes(letter))`. */
  function Without(pool: string, word: string): string
  {
    Filter(pool, c => c !in word)
  }

  /** `Math.min(4, 8 - length)`: how many extra letters a word of that length gets. */
  function ExtraCount(length: nat): (n: nat)
    requires length <= 8
    ensures length + n <= 8
    ensures n == 4 || length + n == 8
  {
    if 8 - length < 4 then 8 - length else 4
  }

  /** The extra letters of `resetWord`: the pool letters the word does not use, shuffled,
      and `.slice(0, ExtraCount)` of them, which is all of them if there are fewer. */
  function Extras(word: string, swaps: seq<(nat, nat)>): (r: string)
    requires |word| <= 8
    ensures |r| <= ExtraCount(|word|)
    ensures |r| < ExtraCount(|word|) ==> |r| == |Without(ExtraPool(), word)|
  {
    var shuffled := Chance.Rearrange(Without(ExtraPool(), word), swaps);
    shuffled[..if ExtraCount(|word|) <= |shuffled| then ExtraCount(|word|) else |shuffled|]
  }

  /** At most `ExtraCount` extra letters are added, each from the pool and none from the
      word. */
  lemma ExtrasFromPool(word: string, swaps: seq<(nat, nat)>)
    requires |word| <= 8
    ensures |Extras(word, swaps)| <= ExtraCount(|word|)
    ensures forall c :: c in Extras(word, swaps) ==> c in ExtraPool() && c !in word
  {
    var left := Without(ExtraPool(), word);
    var shuffled := Chance.Rearrange(left, swaps);
    FilterMembers(ExtraPool(), c => c !in word);
    forall c | c in Extras(word, swaps)
      ensures c in ExtraPool() && c !in word
    {
      assert c in shuffled;
      assert c in multiset(shuffled);
      assert c in multiset(left);
    }
  }

  /** The pile of `resetWord`: the word's letters and the extras, shuffled together. */
  function Deal(word: string, extraSwaps: seq<(nat, nat)>, allSwaps: seq<(nat, nat)>): (r: string)
    requires |word| <= 8
    ensures multiset(r) == multiset(word) + multiset(Extras(word, extraSwaps))
    ensures |r| == |word| + |Extras(word, extraSwaps)|
  {
    Chance.Rearrange(word + Extras(word, extraSwaps), allSwaps)
  }

  /** `new Array(n).fill('')`. */
  function Empty(n: nat): (r: seq<Option<char>>)
    ensures |r| == n
    ensures forall k :: 0 <= k < n ==> r[k] == None
  {
    seq(n, _ => None)
  }

  /** `placedLetters.every(letter => letter !== '')`. */
  predicate Full(placed: seq<Option<char>>)
  {
    forall k :: 0 <= k < |placed| ==> placed[k].Some?
  }

  /** The letter in a slot, as a string: empty for an empty slot. */
  function Letter(slot: Option<char>): string
  {
    match slot
    case Some(c) => [c]
    case None => []
  }

  /** `placedLetters.join('')`: the letters in the slots from left to right. */
  function Formed(placed: seq<Option<char>>): (r: string)
    ensures |r| <= |placed|
  {
    if placed == [] then [] else Letter(placed[0]) + Formed(placed[1..])
  }

  /** When every slot is filled, the letters formed are the slots' letters in order. */
  lemma {:induction false} FormedFull(placed: seq<Option<char>>)
    requires Full(placed)
    ensures |Formed(placed)| == |placed|
    ensures forall k :: 0 <= k < |placed| ==> placed[k] == Some(Formed(placed)[k])
  {
    if placed != [] {
      FormedFull(placed[1..]);
      assert Formed(placed) == [placed[0].value] + Formed(placed[1..]);
    }
  }

  /** Filling an empty slot with c adds exactly c to the letters formed. */
  lemma {:induction false} FormedFill(placed: seq<Option<char>>, i: nat, c: char)
    requires i < |placed| && placed[i] == None
    ensures multiset(Formed(placed[i := Some(c)])) == multiset(Formed(placed)) + multiset{c}
  {
    var p := placed[i := Some(c)];
    if i == 0 {
      assert p[1..] == placed[1..];
      assert Formed(p) == [c] + Formed(placed[1..]);
      assert Formed(placed) == Formed(placed[1..]);
    } else {
      assert p[1..] == placed[1..][i - 1 := Some(c)];
      FormedFill(placed[1..], i - 1, c);
      assert Formed(p) == Letter(placed[0]) + Formed(p[1..]);
    }
  }

  /** `placedLetters.findIndex(slot => slot === '')`, `None` for -1. */
  function FirstEmpty(placed: seq<Option<char>>): (r: Option<nat>)
    ensures r.None? <==> Full(placed)
    ensures r.Some? ==> r.value < |placed| && placed[r.value] == None
    ensures r.Some? ==> forall k :: 0 <= k < r.value ==> placed[k].Some?
  {
    if placed == [] then None
    else if placed[0].None? then Some(0)
    else
      match FirstEmpty(placed[1..])
      case None => None
      case Some(e) => Some(e + 1)
  }

  /** `letters.indexOf(c)` for a letter of the list. */
  function IndexOf(letters: string, c: char): (i: nat)
    requires c in letters
    ensures i < |letters| && letters[i] == c
    ensures forall k :: 0 <= k < i ==> letters[k] != c
  {
    if letters[0] == c then 0 else 1 + IndexOf(letters[1..], c)
  }

  /** `letters.splice(letters.indexOf(c), 1)`: the list without its first c. */
  function Removed(letters: string, c: char): (r: string)
    requires c in letters
    ensures |r| == |letters| - 1
    ensures multiset(r) == multiset(letters) - multiset{c}
    // the first c goes; the letters before it and after it stay, in order
    ensures var i := IndexOf(letters, c); r == letters[..i] + letters[i + 1..]
  {
    var i := IndexOf(letters, c);
    assert letters == letters[..i] + [c] + letters[i + 1..];
    letters[..i] + letters[i + 1..]
  }

  /** The game's state. */
  datatype WordState = WordState(
    level: nat,
    score: nat,
    index: nat,
    placed: seq<Option<char>>,
    available: string,
    showSuccess: bool,
    complete: bool,
    consecutive: nat,
    showRocket: bool)

  /** All the letters on the board, in the slots and in the pile. */
  function Pool(s: WordState): multiset<char>
  {
    multiset(Formed(s.placed)) + multiset(s.available)
  }

  /** Whether the letters of `pool` suffice to spell w, one letter per position. */
  predicate CanSpell(w: string, pool: multiset<char>)
  {
    w == [] || (w[0] in pool && CanSpell(w[1..], pool - multiset{w[0]}))
  }

  /** Spelling from a pool is multiset inclusion. */
  lemma {:induction false} CanSpellIff(w: string, pool: multiset<char>)
    ensures CanSpell(w, pool) <==> multiset(w) <= pool
  {
    if w != [] {
      assert w == [w[0]] + w[1..];
      CanSpellIff(w[1..], pool - multiset{w[0]});
    }
  }

  /** What holds of every reachable state: the level and the score follow from the words
      spelled, the slots fit the word, and the letters on the board suffice to spell it. */
  ghost predicate Inv(s: WordState)
  {
    && s.index < WordCount
    && s.level == 1 + s.index / 3
    && s.score == 10 * (s.index + (if s.complete then 1 else 0))
    && (s.complete ==> s.index == WordCount - 1)
    && (s.showSuccess ==> s.complete)
    && s.consecutive < Streak.BonusAt
    && |s.placed| == |WordAt(s.index)|
    && CanSpell(WordAt(s.index), Pool(s))
  }

  /** `resetWord` for the current word, with the pile it dealt: the pile, and empty
      slots. */
  function Dealt(s: WordState, pile: string): (t: WordState)
    requires s.index < WordCount
    ensures t.placed == Empty(|WordAt(s.index)|) && !t.showSuccess
    ensures Pool(t) == multiset(pile)
    ensures t == s.(placed := t.placed, available := pile, showSuccess := false)
  {
    var w := WordAt(s.index);
    assert Formed(Empty(|w|)) == [] by {
      EmptyFormsNothing(|w|);
    }
    s.(available := pile, placed := Empty(|w|), showSuccess := false)
  }

  /** The piles `resetWord` can deal for `word`: its letters and at most `ExtraCount`
      others, each a pool letter the word does not use. */
  predicate IsDeal(word: string, pile: string)
    requires |word| <= 8
  {
    && multiset(word) <= multiset(pile)
    && |pile| <= |word| + ExtraCount(|word|)
    && forall c :: c in multiset(pile) - multiset(word) ==> c in ExtraPool() && c !in word
  }

  /** Every pile `Deal` makes is one `IsDeal` admits. */
  lemma DealIsDeal(word: string, extraSwaps: seq<(nat, nat)>, allSwaps: seq<(nat, nat)>)
    requires |word| <= 8
    ensures IsDeal(word, Deal(word, extraSwaps, allSwaps))
  {
    var pile := Deal(word, extraSwaps, allSwaps);
    var extras := Extras(word, extraSwaps);
    ExtrasFromPool(word, extraSwaps);
    assert multiset(pile) - multiset(word) == multiset(extras);
  }

  /** `pile` is a deal for the word after the one at `index`, if there is one. */
  predicate DealsNext(index: nat, pile: string)
  {
    index + 1 < WordCount ==> IsDeal(WordAt(index + 1), pile)
  }

  /** Empty slots form no letters. */
  lemma {:induction false} EmptyFormsNothing(n: nat)
    ensures Formed(Empty(n)) == []
  {
    if n > 0 {
      assert Empty(n)[1..] == Empty(n - 1);
      EmptyFormsNothing(n - 1);
    }
  }

  /** `handleLetterClick(c, true)`: the letter moves from the pile to the first empty slot,
      if there is one. */
  function LetterPicked(s: WordState, c: char): (t: WordState)
    requires c in s.available
    ensures Full(s.placed) ==> t == s
    ensures !Full(s.placed) ==>
      && t.placed == s.placed[FirstEmpty(s.placed).value := Some(c)]
      && t.available == Removed(s.available, c)
      && multiset(t.available) == multiset(s.available) - multiset{c}
      && t == s.(placed := t.placed, available := t.available)
  {
    match FirstEmpty(s.placed)
    case None => s
    case Some(e) =>
      s.(placed := s.placed[e := Some(c)], available := Removed(s.available, c))
  }

  /** Picking a letter moves it and keeps every letter on the board. */
  lemma PickKeepsLetters(s: WordState, c: char)
    requires c in s.available
    ensures Pool(LetterPicked(s, c)) == Pool(s)
  {
    if !Full(s.placed) {
      var e := FirstEmpty(s.placed).value;
      var t := LetterPicked(s, c);
      var formed, left := multiset(Formed(s.placed)), multiset(s.available);
      FormedFill(s.placed, e, c);
      assert multiset(Formed(t.placed)) == formed + multiset{c};
      assert multiset(t.available) + multiset{c} == left;
    }
  }

  /** `handleLetterClick(letter, false, i)`: a filled slot gives its letter back to the end
      of the pile; an empty one does nothing. */
  function SlotCleared(s: WordState, i: nat): (t: WordState)
    requires i < |s.placed|
    ensures Pool(t) == Pool(s)
    ensures s.placed[i].None? ==> t == s
    ensures s.placed[i].Some? ==>
      t == s.(placed := s.placed[i := None], available := s.available + [s.placed[i].value])
  {
    match s.placed[i]
    case None => s
    case Some(c) =>
      assert s.placed[i := None][i := Some(c)] == s.placed;
      FormedFill(s.placed[i := None], i, c);
      s.(placed := s.placed[i := None], available := s.available + [c])
  }

  /** Whether the slots spell the current word. */
  predicate Spelled(s: WordState)
    requires s.index < WordCount
  {
    Full(s.placed) && Formed(s.placed) == WordAt(s.index)
  }

  /** `checkWord`, run by the effect on the slots, with the pause that follows a success:
      a spelled word scores ten and moves the streak on, then the next word is dealt (a new
      level every third word), or after the last word the game is complete. */
  function Checked(s: WordState, pile: string): (t: WordState)
    requires s.index < WordCount
    ensures !Spelled(s) ==> t == s
    ensures Spelled(s) ==>
      && t.score == s.score + 10
      && t.consecutive == Streak.Bump(s.consecutive)
      && t.showRocket == (s.showRocket || Streak.Fires(s.consecutive))
    ensures Spelled(s) && s.index + 1 < WordCount ==>
      && t.index == s.index + 1 && t.complete == s.complete && !t.showSuccess
      && t.level == NextLevel(s.level, s.index)
      && t.placed == Empty(|WordAt(t.index)|) && t.available == pile
    ensures Spelled(s) && s.index + 1 == WordCount ==>
      t == s.(score := t.score, consecutive := t.consecutive, showRocket := t.showRocket,
              showSuccess := true, complete := true)
  {
    if !Spelled(s) then s else Advanced(Succeeded(s), pile)
  }

  /** The immediate effect of a spelled word: ten points, the success shown, and the
      streak moved on. */
  function Succeeded(s: WordState): (t: WordState)
    ensures t.score == s.score + 10 && t.showSuccess
    ensures t.consecutive == Streak.Bump(s.consecutive)
    ensures t.showRocket == (s.showRocket || Streak.Fires(s.consecutive))
    ensures t == s.(score := t.score, showSuccess := true, consecutive := t.consecutive, showRocket := t.showRocket)
  {
    s.(score := s.score + 10, showSuccess := true, consecutive := Streak.Bump(s.consecutive),
       showRocket := s.showRocket || Streak.Fires(s.consecutive))
  }

  /** The level once the word after `index` comes up: one more when that word's position
      is a multiple of three. */
  function NextLevel(level: nat, index: nat): nat
  {
    if (index + 1) % 3 == 0 then level + 1 else level
  }

  /** The pause after a success: the next word, a new level every third word, or after the
      last word the end of the game. */
  function Advanced(s: WordState, pile: string): (t: WordState)
    requires s.index < WordCount
    ensures s.index + 1 < WordCount ==>
      && t.index == s.index + 1 && t.complete == s.complete && !t.showSuccess
      && t.level == NextLevel(s.level, s.index)
      && t.placed == Empty(|WordAt(t.index)|) && t.available == pile
      && t.score == s.score && t.consecutive == s.consecutive && t.showRocket == s.showRocket
    ensures s.index + 1 == WordCount ==> t == s.(complete := true)
  {
    if s.index < WordCount - 1 then
      var next := s.(index := s.index + 1, level := NextLevel(s.level, s.index));
      Dealt(next, pile)
    else s.(complete := true)
  }

  /** A click on a pile letter: the letter is placed, and if that filled a slot the
      effect checks the word. */
  function AvailableClicked(s: WordState, c: char, pile: string): (t: WordState)
    requires s.index < WordCount && c in s.available
    ensures Full(s.placed) ==> t == s
    ensures !Full(s.placed) && !Spelled(LetterPicked(s, c)) ==> t == LetterPicked(s, c)
    ensures !Full(s.placed) && Spelled(LetterPicked(s, c)) ==> t.score == s.score + 10
  {
    if Full(s.placed) then s else Checked(LetterPicked(s, c), pile)
  }

  /** The state when the game opens: the first word dealt. */
  function Initial(extraSwaps: seq<(nat, nat)>, allSwaps: seq<(nat, nat)>): (s: WordState)
    ensures Inv(s)
    ensures s.index == 0 && s.score == 0 && s.level == 1 && !s.complete && s.placed == Empty(3)
    ensures s.available == Deal(WordAt(0), extraSwaps, allSwaps) && IsDeal(WordAt(0), s.available)
  {
    var pile := Deal(WordAt(0), extraSwaps, allSwaps);
    CanSpellIff(WordAt(0), multiset(pile));
    DealIsDeal(WordAt(0), extraSwaps, allSwaps);
    Dealt(WordState(1, 0, 0, [], [], false, false, 0, false), pile)
  }

  /** `restartGame`, with the effect that deals the first word again. The rocket is left as
      it is. */
  function Restarted(s: WordState, extraSwaps: seq<(nat, nat)>, allSwaps: seq<(nat, nat)>): (t: WordState)
    ensures Inv(t)
    ensures t.index == 0 && t.score == 0 && t.level == 1 && t.consecutive == 0 && !t.complete
    ensures t.placed == Empty(3) && t.showRocket == s.showRocket
    ensures t.available == Deal(WordAt(0), extraSwaps, allSwaps) && IsDeal(WordAt(0), t.available)
  {
    var pile := Deal(WordAt(0), extraSwaps, allSwaps);
    CanSpellIff(WordAt(0), multiset(pile));
    DealIsDeal(WordAt(0), extraSwaps, allSwaps);
    Dealt(s.(level := 1, score := 0, index := 0, complete := false, consecutive := 0), pile)
  }

  /** Dealing the current word again keeps the invariant, for a pile that holds the
      word's letters, as every pile `Deal` makes does. */
  lemma DealtInv(s: WordState, pile: string)
    requires Inv(s) && !s.complete && multiset(WordAt(s.index)) <= multiset(pile)
    ensures Inv(Dealt(s, pile))
  {
    CanSpellIff(WordAt(s.index), multiset(pile));
  }

  /** A check keeps the invariant: a success moves the level and the score on together
      with the word. */
  lemma CheckedInv(s: WordState, pile: string)
    requires Inv(s) && !s.complete && DealsNext(s.index, pile)
    ensures Inv(Checked(s, pile))
  {
    if Spelled(s) && s.index + 1 < WordCount {
      NextWordInv(s, pile);
    } else if Spelled(s) {
      var t := Checked(s, pile);
      assert t.score == 10 * (t.index + 1);
    }
  }

  /** A success before the last word deals the next word at the next level. */
  lemma NextWordInv(s: WordState, pile: string)
    requires Inv(s) && !s.complete && DealsNext(s.index, pile)
    requires Spelled(s) && s.index + 1 < WordCount
    ensures Inv(Checked(s, pile))
  {
    var t := Checked(s, pile);
    LevelStep(s.index);
    assert t.level == 1 + t.index / 3;
    assert Pool(t) == multiset(pile);
    CanSpellIff(WordAt(t.index), multiset(pile));
  }

  /** The level rule of the pause agrees with one level per three words. */
  lemma LevelStep(i: nat)
    ensures NextLevel(1 + i / 3, i) == 1 + (i + 1) / 3
  {
    var q, r := i / 3, i % 3;
    if r == 2 {
      Arith.DivModUnique(i + 1, 3, q + 1, 0);
    } else {
      Arith.DivModUnique(i + 1, 3, q, r + 1);
    }
  }

  /** Placing a pile letter keeps the invariant. */
  lemma PickedInv(s: WordState, c: char)
    requires Inv(s) && c in s.available
    ensures var t := LetterPicked(s, c); Inv(t) && t.index == s.index && t.complete == s.complete
  {
    var t := LetterPicked(s, c);
    PickKeepsLetters(s, c);
    if !Full(s.placed) {
      assert t == s.(placed := t.placed, available := t.available) && |t.placed| == |s.placed|;
    }
  }

  /** A click on a pile letter keeps the invariant. */
  lemma AvailableClickedInv(s: WordState, c: char, pile: string)
    requires Inv(s) && !s.complete && c in s.available && DealsNext(s.index, pile)
    ensures Inv(AvailableClicked(s, c, pile))
  {
    if !Full(s.placed) {
      PickedInv(s, c);
      CheckedInv(LetterPicked(s, c), pile);
    }
  }

  /** A click on a slot keeps the invariant. */
  lemma SlotClearedInv(s: WordState, i: nat)
    requires Inv(s) && i < |s.placed|
    ensures Inv(SlotCleared(s, i))
  {
  }

  /** Once the game is complete, all eight words have scored and the third level has been
      reached. */
  lemma CompleteScore(s: WordState)
    requires Inv(s) && s.complete
    ensures s.score == 80 && s.level == 3
  {
  }

  /** The state after clicking the pile letters `cs` in turn, `pile` being what is dealt
      if a word is spelled; a letter not in the pile has no button and is skipped. */
  function ClickAll(s: WordState, cs: string, pile: string): WordState
    requires s.index < WordCount
    decreases |cs|
  {
    if cs == [] || s.complete then s
    else
      var t := if cs[0] in s.available then AvailableClicked(s, cs[0], pile) else s;
      if t.index < WordCount then ClickAll(t, cs[1..], pile) else t
  }

  /** The first k slots hold the first k letters of w, the others are empty, and the pile
      still holds the rest of w. */
  ghost predicate BuiltUpTo(s: WordState, w: string, k: nat)
  {
    && k <= |w| && |s.placed| == |w|
    && (forall j :: 0 <= j < |w| ==> s.placed[j] == (if j < k then Some(w[j]) else None))
    && CanSpell(w[k..], multiset(s.available))
  }

  /** Clicking the word's letter k when the first k are in place puts it in slot k. */
  lemma PickNext(s: WordState, w: string, k: nat)
    requires BuiltUpTo(s, w, k) && k < |w|
    ensures w[k] in s.available
    ensures BuiltUpTo(LetterPicked(s, w[k]), w, k + 1)
    ensures LetterPicked(s, w[k]) == s.(placed := s.placed[k := Some(w[k])], available := LetterPicked(s, w[k]).available)
  {
    var c := w[k];
    assert w[k..][0] == c && w[k..][1..] == w[k + 1..];
    var e := FirstEmpty(s.placed).value;
    assert e == k by {
      assert s.placed[k] == None;
      assert s.placed[e] == None;
    }
  }

  /** Slots holding all of w spell it. */
  lemma BuiltSpells(s: WordState, w: string)
    requires BuiltUpTo(s, w, |w|)
    ensures Full(s.placed) && Formed(s.placed) == w
  {
    FormedFull(s.placed);
    var f := Formed(s.placed);
    forall j | 0 <= j < |w| ensures f[j] == w[j] {
      assert s.placed[j] == Some(f[j]);
    }
  }

  /** One click of `ClickAll` on a letter of the pile. */
  lemma ClickAllStep(s: WordState, cs: string, pile: string)
    requires s.index < WordCount && !s.complete && cs != [] && cs[0] in s.available
    requires AvailableClicked(s, cs[0], pile).index < WordCount
    ensures ClickAll(s, cs, pile) == ClickAll(AvailableClicked(s, cs[0], pile), cs[1..], pile)
  {
  }

  /** How a spelled word leaves the game: ten points more, the streak moved on, and the
      next word dealt from `pile`, or after the last word the game complete. */
  ghost predicate ScoredWord(s: WordState, t: WordState, pile: string)
  {
    && t.score == s.score + 10
    && t.consecutive == Streak.Bump(s.consecutive)
    && (s.index + 1 < WordCount ==> t.index == s.index + 1 && t.available == pile)
    && (s.index + 1 == WordCount ==> t.complete)
  }

  /** Clicking the word's last letter when the others are in place spells it. */
  lemma LastLetter(s: WordState, w: string, k: nat, pile: string)
    requires s.index < WordCount && !s.complete && w == WordAt(s.index)
    requires BuiltUpTo(s, w, k) && k + 1 == |w|
    ensures ScoredWord(s, ClickAll(s, w[k..], pile), pile)
  {
    var c := w[k];
    PickNext(s, w, k);
    var t := LetterPicked(s, c);
    BuiltSpells(t, w);
    var u := Checked(t, pile);
    assert AvailableClicked(s, c, pile) == u;
    assert t.score == s.score && t.consecutive == s.consecutive && t.index == s.index;
    ClickAllStep(s, w[k..], pile);
    assert w[k..][1..] == [];
    assert ClickAll(u, [], pile) == u;
  }

  /** Clicking the word's letter k when more letters follow places it and changes nothing
      else: `t` is the state it leaves. */
  lemma MidLetter(s: WordState, w: string, k: nat, pile: string) returns (t: WordState)
    requires s.index < WordCount && !s.complete
    requires BuiltUpTo(s, w, k) && k + 1 < |w|
    ensures BuiltUpTo(t, w, k + 1) && t.index == s.index && !t.complete
    ensures t.score == s.score && t.consecutive == s.consecutive
    ensures ClickAll(s, w[k..], pile) == ClickAll(t, w[k + 1..], pile)
  {
    var c := w[k];
    PickNext(s, w, k);
    t := LetterPicked(s, c);
    assert !Full(t.placed) by {
      assert t.placed[k + 1] == None;
    }
    assert AvailableClicked(s, c, pile) == t;
    assert w[k..][1..] == w[k + 1..];
    ClickAllStep(s, w[k..], pile);
  }

  /** Clicking the rest of the word's letters, from any point of building it, spells it:
      the word scores and the game moves on. */
  lemma {:induction false} BuildRest(s: WordState, w: string, k: nat, pile: string)
    requires s.index < WordCount && !s.complete && w == WordAt(s.index)
    requires BuiltUpTo(s, w, k) && k < |w|
    ensures ScoredWord(s, ClickAll(s, w[k..], pile), pile)
    decreases |w| - k, 1
  {
    if k + 1 == |w| {
      LastLetter(s, w, k, pile);
    } else {
      BuildFromMid(s, w, k, pile);
    }
  }

  /** The step of `BuildRest` for a letter before the last: click it, then build the rest. */
  lemma {:induction false} BuildFromMid(s: WordState, w: string, k: nat, pile: string)
    requires s.index < WordCount && !s.complete && w == WordAt(s.index)
    requires BuiltUpTo(s, w, k) && k + 1 < |w|
    ensures ScoredWord(s, ClickAll(s, w[k..], pile), pile)
    decreases |w| - k, 0
  {
    var t := MidLetter(s, w, k, pile);
    BuildRest(t, w, k + 1, pile);
    ScoredFrom(s, t, ClickAll(t, w[k + 1..], pile), pile);
  }

  /** A state that differs from s only in its slots and pile scores a word exactly when
      s does. */
  lemma ScoredFrom(s: WordState, t: WordState, u: WordState, pile: string)
    requires t.index == s.index && t.score == s.score && t.consecutive == s.consecutive
    requires ScoredWord(t, u, pile)
    ensures ScoredWord(s, u, pile)
  {
  }

  /** From a freshly dealt word, clicking its letters in order spells it: the word scores
      ten, and the next word is dealt or the game is complete. */
  lemma SpellingScores(s: WordState, pile: string)
    requires Inv(s) && !s.complete && s.placed == Empty(|WordAt(s.index)|)
    ensures ScoredWord(s, ClickAll(s, WordAt(s.index), pile), pile)
  {
    var w := WordAt(s.index);
    EmptyFormsNothing(|s.placed|);
    assert Pool(s) == multiset(s.available);
    assert w[0..] == w;
    assert BuiltUpTo(s, w, 0);
    BuildRest(s, w, 0, pile);
  }

  /** The game's `useState` slots. */
  class Builder {
    var level: nat
    var score: nat
    var index: nat
    var placed: seq<Option<char>>
    var available: string
    var showSuccess: bool
    var complete: bool
    var consecutive: nat
    var showRocket: bool

    function State(): WordState
      reads this
    {
      WordState(level, score, index, placed, available, showSuccess, complete, consecutive, showRocket)
    }

    ghost predicate Valid()
      reads this
    {
      Inv(State())
    }

    constructor (extraSwaps: seq<(nat, nat)>, allSwaps: seq<(nat, nat)>)
      ensures State() == Initial(extraSwaps, allSwaps) && Valid()
    {
      level, score, index := 1, 0, 0;
      complete, consecutive, showRocket := false, 0, false;
      available := Deal(WordAt(0), extraSwaps, allSwaps);
      placed := Empty(|WordAt(0)|);
      showSuccess := false;
    }

    /** `resetWord`: the "Reset Word" button, and the effect on a new word. */
    method ResetWord(extraSwaps: seq<(nat, nat)>, allSwaps: seq<(nat, nat)>)
      requires Valid() && !complete
      modifies this
      ensures State() == Dealt(old(State()), Deal(WordAt(old(index)), extraSwaps, allSwaps)) && Valid()
    {
      ghost var s := State();
      var pile := Deal(WordAt(index), extraSwaps, allSwaps);
      Redeal(pile);
      DealIsDeal(WordAt(s.index), extraSwaps, allSwaps);
      DealtInv(s, pile);
    }

    /** The state updates of `resetWord` once its pile is dealt. */
    method Redeal(pile: string)
      requires index < WordCount
      modifies this
      ensures State() == Dealt(old(State()), pile)
    {
      placed := Empty(|WordAt(index)|);
      available := pile;
      showSuccess := false;
    }

    /** A click on the pile letter `c`, with the check it triggers; `pile` is what
        `resetWord` deals if that spells the word and a next one follows. */
    method ClickAvailable(c: char, pile: string)
      requires Valid() && !complete && c in available && DealsNext(index, pile)
      modifies this
      ensures State() == AvailableClicked(old(State()), c, pile) && Valid()
    {
      ghost var s := State();
      var e := FirstEmpty(placed);
      if e.None? {
        AvailableClickedInv(s, c, pile);
        return;
      }
      assert !Full(s.placed);
      ghost var t := LetterPicked(s, c);
      assert t == s.(placed := placed[e.value := Some(c)], available := Removed(available, c));
      placed := placed[e.value := Some(c)];
      available := Removed(available, c);
      assert State() == s.(placed := placed, available := available);
      assert AvailableClicked(s, c, pile) == Checked(t, pile);
      CheckWord(pile);
      AvailableClickedInv(s, c, pile);
    }

    /** `checkWord`: a spelled word scores, then the pause moves on, dealing `pile` for
        the next word. */
    method CheckWord(pile: string)
      requires index < WordCount
      modifies this
      ensures State() == Checked(old(State()), pile)
    {
      ghost var s := State();
      if !(Full(placed) && Formed(placed) == WordAt(index)) {
        return;
      }
      score := score + 10;
      showSuccess := true;
      showRocket := showRocket || Streak.Fires(consecutive);
      consecutive := Streak.Bump(consecutive);
      assert State() == Succeeded(s);
      Advance(pile);
    }

    /** The timer callback of `checkWord`: the next word, at the next level every third
        word, or the end of the game. */
    method Advance(pile: string)
      requires index < WordCount
      modifies this
      ensures State() == Advanced(old(State()), pile)
    {
      ghost var u := State();
      if index < WordCount - 1 {
        if (index + 1) % 3 == 0 {
          level := level + 1;
        }
        index := index + 1;
        assert State() == u.(index := u.index + 1, level := NextLevel(u.level, u.index));
        Redeal(pile);
      } else {
        complete := true;
      }
    }

    /** A click on slot i. */
    method ClickSlot(i: nat)
      requires Valid() && i < |placed|
      modifies this
      ensures State() == SlotCleared(old(State()), i) && Valid()
    {
      ghost var s := State();
      if placed[i].Some? {
        available := available + [placed[i].value];
        placed := placed[i := None];
      }
      assert State() == SlotCleared(s, i);
      SlotClearedInv(s, i);
    }

    /** `restartGame`, offered once the game is complete. */
    method RestartGame(extraSwaps: seq<(nat, nat)>, allSwaps: seq<(nat, nat)>)
      modifies this
      ensures State() == Restarted(old(State()), extraSwaps, allSwaps) && Valid()
    {
      ghost var s := State();
      level, score, index, complete, consecutive := 1, 0, 0, false, 0;
      assert State() == s.(level := 1, score := 0, index := 0, complete := false, consecutive := 0);
      var pile := Deal(WordAt(0), extraSwaps, allSwaps);
      Redeal(pile);
    }
  }
}
