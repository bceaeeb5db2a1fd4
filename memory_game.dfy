/** The memory game: the game lights up a sequence of colours from a palette of six, and
    the child repeats it by clicking the colours in the same order. A wrong colour loses
    the round; the whole sequence right wins it, scores ten per colour and moves up a
    level, whose sequences are one colour longer. The timed playback of the sequence is
    modelled only by the lock it holds while it runs. */
module MemoryGame {

  import Chance
  import Streak

  /** The palette size. */
  const ColorCount: nat := 6

  datatype Phase = Waiting | Playing | Won | Lost

  /** The colours `Math.floor(Math.random() * colors.length)` gives for the draws. */
  function Picks(draws: seq<Chance.Draw>): (r: seq<nat>)
    ensures |r| == |draws|
    ensures forall k :: 0 <= k < |r| ==> r[k] < ColorCount
  {
    seq(|draws|, k requires 0 <= k < |draws| => Chance.Pick(draws[k], ColorCount))
  }

  /** Every colour sequence can come up: the draws c / 6 give the colours c. */
  lemma EverySequencePossible(colors: seq<nat>)
    requires forall k :: 0 <= k < |colors| ==> colors[k] < ColorCount
    ensures Picks(seq(|colors|, k requires 0 <= k < |colors| => (colors[k], ColorCount))) == colors
  {
    var draws: seq<Chance.Draw> := seq(|colors|, k requires 0 <= k < |colors| => (colors[k], ColorCount));
    forall k | 0 <= k < |colors| ensures Picks(draws)[k] == colors[k] {
      Chance.PickReaches(colors[k], ColorCount);
    }
  }

  /** `generateSequence(length)`, the draws being the successive `Math.random()` values. */
  method GenerateSequence(length: nat, draws: seq<Chance.Draw>) returns (s: seq<nat>)
    requires |draws| >= length
    ensures s == Picks(draws[..length])
    ensures |s| == length && forall k :: 0 <= k < |s| ==> s[k] < ColorCount
  {
    s := [];
    var i := 0;
    while i < length
      invariant i <= length && |s| == i
      invariant forall k :: 0 <= k < i ==> s[k] == Chance.Pick(draws[k], ColorCount)
    {
      s := s + [Chance.Pick(draws[i], ColorCount)];
      i := i + 1;
    }
  }

  /** The game's state. */
  datatype MemoryState = MemoryState(
    sequence: seq<nat>,
    player: seq<nat>,
    showing: bool,
    phase: Phase,
    score: nat,
    level: nat,
    consecutive: nat,
    showRocket: bool)

  /** The score that `level` levels reached from level 1 carry: a win at level l scores
      10 * (l + 2), so reaching level L has scored 5 * (L - 1) * (L + 4). */
  function ScoreAt(level: nat): nat
    requires level >= 1
  {
    5 * (level - 1) * (level + 4)
  }

  /** What holds of every reachable state. */
  ghost predicate Inv(s: MemoryState)
  {
    && s.level >= 1
    && s.score == ScoreAt(s.level)
    && s.consecutive < Streak.BonusAt
    && (forall k :: 0 <= k < |s.sequence| ==> s.sequence[k] < ColorCount)
    // while playing, the clicks so far repeat the start of a sequence of level + 2 colours
    && (s.phase == Playing ==>
          |s.sequence| == s.level + 2 && |s.player| < |s.sequence| && s.player == s.sequence[..|s.player|])
    // the playback runs only at the start of a round
    && (s.showing ==> s.phase == Playing && s.player == [])
  }

  /** The state when the game opens. */
  function Initial(): (s: MemoryState)
    ensures Inv(s)
  {
    MemoryState([], [], false, Waiting, 0, 1, 0, false)
  }

  /** `startGame` with the draws for the new sequence: a sequence of level + 2 colours,
      no clicks yet, and the playback lock taken. */
  function Started(s: MemoryState, draws: seq<Chance.Draw>): (t: MemoryState)
    requires |draws| >= s.level + 2
    ensures |t.sequence| == s.level + 2 && t.player == [] && t.phase == Playing && t.showing
    ensures t.score == s.score && t.level == s.level && t.consecutive == s.consecutive
  {
    s.(sequence := Picks(draws[..s.level + 2]), player := [], phase := Playing, showing := true)
  }

  /** `handleColorClick(c)`. */
  function Clicked(s: MemoryState, c: nat): (t: MemoryState)
    // ignored during playback and outside a round
    ensures s.showing || s.phase != Playing ==> t == s
    ensures !s.showing && s.phase == Playing ==> t.player == s.player + [c]
    // a colour other than the next one of the sequence loses; score and level stay
    ensures !s.showing && s.phase == Playing && !Expected(s, c) ==>
      t == s.(player := t.player, phase := Lost, consecutive := 0)
    // the last colour of the sequence wins: ten per colour and the next level
    ensures !s.showing && s.phase == Playing && Expected(s, c) && |s.player| + 1 == |s.sequence| ==>
      t == s.(player := t.player, phase := Won, score := s.score + 10 * |s.sequence|, level := s.level + 1,
              consecutive := Streak.Bump(s.consecutive),
              showRocket := s.showRocket || Streak.Fires(s.consecutive))
    // any other right colour only extends the clicks
    ensures !s.showing && s.phase == Playing && Expected(s, c) && |s.player| + 1 < |s.sequence| ==>
      t == s.(player := t.player)
  {
    if s.showing || s.phase != Playing then s
    else
      var player := s.player + [c];
      if !Expected(s, c) then s.(player := player, phase := Lost, consecutive := 0)
      else if |player| == |s.sequence| then
        s.(player := player, phase := Won, score := s.score + |s.sequence| * 10, level := s.level + 1,
           consecutive := Streak.Bump(s.consecutive),
           showRocket := s.showRocket || Streak.Fires(s.consecutive))
      else s.(player := player)
  }

  /** Whether `c` is the colour the sequence has at the next click's position; past the
      end of the sequence no colour is. */
  predicate Expected(s: MemoryState, c: nat)
  {
    |s.player| < |s.sequence| && s.sequence[|s.player|] == c
  }

  /** `resetGame`: level 1 with nothing scored; the playback lock and the rocket are left
      as they are. */
  function Reset(s: MemoryState): (t: MemoryState)
    ensures t.score == 0 && t.level == 1 && t.consecutive == 0 && t.phase == Waiting
    ensures t.sequence == [] && t.player == [] && t.showing == s.showing && t.showRocket == s.showRocket
  {
    s.(sequence := [], player := [], phase := Waiting, score := 0, level := 1, consecutive := 0)
  }

  /** Starting a round keeps the invariant. */
  lemma StartedInv(s: MemoryState, draws: seq<Chance.Draw>)
    requires Inv(s) && |draws| >= s.level + 2
    ensures Inv(Started(s, draws))
  {
  }

  /** A click keeps the invariant; in particular the score stays the one its level
      determines. */
  lemma ClickedInv(s: MemoryState, c: nat)
    requires Inv(s)
    ensures Inv(Clicked(s, c))
  {
    var t := Clicked(s, c);
    if !s.showing && s.phase == Playing && Expected(s, c) {
      assert t.player == s.sequence[..|t.player|];
      if |s.player| + 1 == |s.sequence| {
        var l := s.level;
        assert ScoreAt(l) + 10 * (l + 2) == ScoreAt(l + 1) by {
          assert 5 * (l - 1) * (l + 4) == 5 * l * l + 15 * l - 20;
          assert 5 * l * (l + 5) == 5 * l * l + 25 * l;
        }
      }
    }
  }

  /** Resetting keeps the invariant, once the playback is over. */
  lemma ResetInv(s: MemoryState)
    requires Inv(s) && !s.showing
    ensures Inv(Reset(s))
  {
  }

  /** The state after the clicks `cs`, one by one. */
  function ClickAll(s: MemoryState, cs: seq<nat>): MemoryState
    decreases |cs|
  {
    if cs == [] then s else ClickAll(Clicked(s, cs[0]), cs[1..])
  }

  /** Repeating the rest of the sequence from any point of a round wins it, with ten points
      per colour of the sequence and the next level. */
  lemma {:induction false} RepeatingWins(s: MemoryState)
    requires Inv(s) && s.phase == Playing && !s.showing
    ensures var t := ClickAll(s, s.sequence[|s.player|..]);
      && t.phase == Won && t.score == s.score + 10 * |s.sequence| && t.level == s.level + 1
      && t.player == s.sequence
    decreases |s.sequence| - |s.player|
  {
    var c := s.sequence[|s.player|];
    var rest := s.sequence[|s.player|..];
    assert rest[0] == c && rest[1..] == s.sequence[|s.player| + 1..];
    var t := Clicked(s, c);
    assert t.player == s.sequence[..|s.player| + 1];
    if |s.player| + 1 < |s.sequence| {
      ClickedInv(s, c);
      RepeatingWins(t);
    } else {
      assert rest[1..] == [];
    }
  }

  /** The game's `useState` slots. */
  class Game {
    var sequence: seq<nat>
    var player: seq<nat>
    var showing: bool
    var phase: Phase
    var score: nat
    var level: nat
    var consecutive: nat
    var showRocket: bool

    function State(): MemoryState
      reads this
    {
      MemoryState(sequence, player, showing, phase, score, level, consecutive, showRocket)
    }

    ghost predicate Valid()
      reads this
    {
      Inv(State())
    }

    constructor ()
      ensures State() == Initial() && Valid()
    {
      sequence, player, showing, phase := [], [], false, Waiting;
      score, level, consecutive, showRocket := 0, 1, 0, false;
    }

    /** `startGame`; `draws` are the `Math.random()` values for the sequence. */
    method StartGame(draws: seq<Chance.Draw>)
      requires Valid() && |draws| >= level + 2
      modifies this
      ensures State() == Started(old(State()), draws) && Valid()
    {
      StartedInv(State(), draws);
      sequence := GenerateSequence(2 + level, draws);
      player := [];
      phase := Playing;
      showing := true;
    }

    /** The end of the playback: the colours accept clicks. */
    method FinishShowing()
      requires Valid()
      modifies this`showing
      ensures State() == old(State()).(showing := false) && Valid()
    {
      showing := false;
    }

    /** `handleColorClick(c)` for one of the six colour buttons. */
    method HandleColorClick(c: nat)
      requires Valid() && c < ColorCount
      modifies this
      ensures State() == Clicked(old(State()), c) && Valid()
    {
      ClickedInv(State(), c);
      if showing || phase != Playing {
        return;
      }
      var expected := |player| < |sequence| && sequence[|player|] == c;
      player := player + [c];
      if !expected {
        phase := Lost;
        consecutive := 0;
        return;
      }
      if |player| == |sequence| {
        phase := Won;
        score := score + |sequence| * 10;
        level := level + 1;
        showRocket := showRocket || Streak.Fires(consecutive);
        consecutive := Streak.Bump(consecutive);
      }
    }

    /** `resetGame`, offered once a round is lost. */
    method ResetGame()
      requires Valid() && !showing
      modifies this
      ensures State() == Reset(old(State())) && Valid()
    {
      ResetInv(State());
      sequence, player, phase := [], [], Waiting;
      score, level, consecutive := 0, 1, 0;
    }
  }
}
