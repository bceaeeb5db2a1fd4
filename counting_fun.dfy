/** The counting game: a question shows some objects, and the child picks how many there
    are from four numbers. A right answer scores ten points and, after a pause, moves to
    the next question, whose count is one higher up to ten; a wrong answer shows the right
    one and offers the next question. A right answer from level eight on ends the game. */
module CountingFun {

  import opened Maybe
  import Chance
  import Streak

  /** The names of `objectTypes`; their emojis are not modelled. */
  const Objects: seq<string> :=
    ["apples", "stars", "balloons", "butterflies", "flowers", "frogs", "strawberries", "fish"]

  /** The number of numbers offered. */
  const OptionCount: nat := 4

  /** The level from which a right answer ends the game. */
  const FinalLevel: nat := 8

  /** `Math.min(currentLevel + 2, 10)`: how many objects the question at `level` shows. */
  function QuestionCount(level: nat): (n: nat)
    ensures n <= 10 && n <= level + 2
    ensures n < 10 ==> n == level + 2
  {
    if level + 2 < 10 then level + 2 else 10
  }

  /** From level 1 on, a question counts between 3 and 10 objects. */
  lemma QuestionCountBounds(level: nat)
    requires level >= 1
    ensures 3 <= QuestionCount(level) <= 10
    ensures level >= 8 ==> QuestionCount(level) == 10
  {
  }

  /** `Math.max(1, Math.floor(Math.random() * (count + 3)) + 1)` for the draw `d`. */
  function WrongAnswer(d: Chance.Draw, count: nat): (r: nat)
    ensures 1 <= r <= count + 3
  {
    Max(1, Chance.Pick(d, count + 3) + 1)
  }

  /** `Math.max` of two naturals. */
  function Max(a: nat, b: nat): nat
  {
    if a < b then b else a
  }

  /** One pass of the option loop: the drawn number joins the options unless it is there. */
  function Extended(count: nat, options: seq<nat>, d: Chance.Draw): seq<nat>
  {
    var w := WrongAnswer(d, count);
    if w in options then options else options + [w]
  }

  /** The option loop run on the successive draws until four options are there; `None`
      when the draws run out first. */
  function Grown(count: nat, options: seq<nat>, draws: seq<Chance.Draw>): (r: Option<seq<nat>>)
    ensures |options| >= OptionCount ==> r == Some(options)
    ensures r.Some? ==> options <= r.value && |r.value| >= OptionCount
    decreases |draws|
  {
    if |options| >= OptionCount then Some(options)
    else if draws == [] then None
    else Grown(count, Extended(count, options, draws[0]), draws[1..])
  }

  /** Whether the draws are enough for the option loop of a question counting `count`. */
  predicate Finishes(count: nat, draws: seq<Chance.Draw>)
  {
    Grown(count, [count], draws).Some?
  }

  /** Options as the loop keeps them: the right count first, then distinct wrong numbers
      in [1, count + 3], never more than four. */
  ghost predicate Partial(count: nat, options: seq<nat>)
  {
    && 1 <= |options| <= OptionCount
    && options[0] == count
    && Chance.Distinct(options)
    && forall k :: 1 <= k < |options| ==> 1 <= options[k] <= count + 3
  }

  /** The options the loop ends with: four distinct numbers, the first the right count and
      the other three wrong ones in [1, count + 3]. */
  lemma {:induction false} GrownOptions(count: nat, options: seq<nat>, draws: seq<Chance.Draw>)
    requires Partial(count, options)
    ensures Grown(count, options, draws).Some? ==>
      var r := Grown(count, options, draws).value;
      |r| == OptionCount && Partial(count, r)
    decreases |draws|
  {
    if |options| < OptionCount && draws != [] {
      var next := Extended(count, options, draws[0]);
      assert Partial(count, next);
      GrownOptions(count, next, draws[1..]);
    }
  }

  /** A number in [1, 4] that fewer than four options leave out. */
  lemma Unused(options: seq<nat>) returns (v: nat)
    requires |options| < OptionCount
    ensures 1 <= v <= OptionCount && v !in options
  {
    if 1 !in options { return 1; }
    if 2 !in options { return 2; }
    if 3 !in options { return 3; }
    if |options| == 3 {
      assert options == [options[0], options[1], options[2]];
    }
    return 4;
  }

  /** The loop is never stuck: while fewer than four options are there, some draw adds
      a new one, since [1, count + 3] holds at least four numbers. */
  lemma LoopProgresses(count: nat, options: seq<nat>) returns (d: Chance.Draw)
    requires |options| < OptionCount && count >= 1
    ensures Extended(count, options, d) == options + [WrongAnswer(d, count)]
  {
    var v := Unused(options);
    d := (v - 1, count + 3);
    Chance.PickReaches(v - 1, count + 3);
    assert WrongAnswer(d, count) == v;
  }

  /** Three draws are enough when they pick the three numbers above the count. */
  lemma ThreeDrawsSuffice(count: nat)
    ensures Grown(count, [count], [(count, count + 3), (count + 1, count + 3), (count + 2, count + 3)])
      == Some([count, count + 1, count + 2, count + 3])
  {
    Chance.PickReaches(count, count + 3);
    Chance.PickReaches(count + 1, count + 3);
    Chance.PickReaches(count + 2, count + 3);
    var draws: seq<Chance.Draw> := [(count, count + 3), (count + 1, count + 3), (count + 2, count + 3)];
    var two, three, four := [count, count + 1], [count, count + 1, count + 2], [count, count + 1, count + 2, count + 3];
    assert Extended(count, [count], draws[0]) == two;
    assert Extended(count, two, draws[1]) == three;
    assert Extended(count, three, draws[2]) == four;
    assert Grown(count, three, draws[2..]) == Grown(count, four, []);
    assert Grown(count, two, draws[1..]) == Grown(count, three, draws[2..]) by {
      assert draws[1..][1..] == draws[2..];
    }
  }

  /** The option loop of `generateQuestion`, fed the successive draws. */
  method GenerateOptions(count: nat, draws: seq<Chance.Draw>) returns (options: seq<nat>)
    requires Finishes(count, draws)
    ensures Grown(count, [count], draws) == Some(options)
  {
    options := [count];
    var i := 0;
    while |options| < OptionCount
      invariant i <= |draws|
      invariant Grown(count, options, draws[i..]) == Grown(count, [count], draws)
      decreases |draws| - i
    {
      assert draws[i..] != [];
      assert draws[i..][0] == draws[i] && draws[i..][1..] == draws[i + 1..];
      var wrongAnswer := WrongAnswer(draws[i], count);
      if wrongAnswer !in options {
        options := options + [wrongAnswer];
      }
      i := i + 1;
    }
  }

  /** The random values one call of `generateQuestion` consumes: the object's draw, the
      option loop's draws and the shuffle's transpositions. */
  datatype Rolls = Rolls(item: Chance.Draw, answers: seq<Chance.Draw>, swaps: seq<(nat, nat)>)

  /** A question: how many objects, which object, and the numbers offered. */
  datatype Question = Question(count: nat, item: nat, options: seq<nat>)

  /** What every asked question satisfies: one of the eight objects, and four distinct
      options in [1, count + 3], the right count among them. */
  ghost predicate WellAsked(count: nat, q: Question)
  {
    && q.count == count
    && q.item < |Objects|
    && |q.options| == OptionCount
    && Chance.Distinct(q.options)
    && count in q.options
    && forall k :: 0 <= k < |q.options| ==> 1 <= q.options[k] <= count + 3
  }

  /** `generateQuestion` at `level` for the rolls `r`. */
  function Asked(level: nat, r: Rolls): (q: Question)
    requires Finishes(QuestionCount(level), r.answers)
    ensures q.count == QuestionCount(level)
  {
    var count := QuestionCount(level);
    var options := Grown(count, [count], r.answers).value;
    Question(count, Chance.Pick(r.item, |Objects|), Chance.Rearrange(options, r.swaps))
  }

  /** Every generated question is well asked; the shuffled options are a permutation of
      the ones the loop built. */
  lemma AskedWell(level: nat, r: Rolls)
    requires level >= 1 && Finishes(QuestionCount(level), r.answers)
    ensures WellAsked(QuestionCount(level), Asked(level, r))
    ensures multiset(Asked(level, r).options) == multiset(Grown(QuestionCount(level), [QuestionCount(level)], r.answers).value)
  {
    var count := QuestionCount(level);
    GrownOptions(count, [count], r.answers);
    var options := Grown(count, [count], r.answers).value;
    Chance.ShuffleKeepsDistinct(options, Chance.Wrapped(r.swaps, |options|));
    var shuffled := Asked(level, r).options;
    assert count in multiset(options);
    forall k | 0 <= k < |shuffled| ensures 1 <= shuffled[k] <= count + 3 {
      assert shuffled[k] in multiset(options);
    }
  }

  /** An element of a list without repeats occurs in it once. */
  lemma {:induction false} OccursOnce<T>(s: seq<T>, x: T)
    requires Chance.Distinct(s) && x in s
    ensures multiset(s)[x] == 1
  {
    assert s == [s[0]] + s[1..];
    if s[0] == x {
      assert x !in s[1..];
    } else {
      OccursOnce(s[1..], x);
    }
  }

  /** Exactly one of the numbers offered is right. */
  lemma OneRightOption(count: nat, q: Question)
    requires WellAsked(count, q)
    ensures multiset(q.options)[count] == 1
  {
    OccursOnce(q.options, count);
  }

  /** The game's state. */
  datatype CountState = CountState(
    level: nat,
    score: nat,
    selected: Option<nat>,
    showResult: bool,
    isCorrect: bool,
    gameComplete: bool,
    consecutive: nat,
    showRocket: bool,
    question: Question)

  /** What holds of every state the game reaches. */
  ghost predicate Inv(s: CountState)
  {
    && s.level >= 1
    && WellAsked(QuestionCount(s.level), s.question)
    && s.consecutive < Streak.BonusAt
    // a result is shown exactly when an answer is selected, and tells whether it is right
    && (s.showResult <==> s.selected.Some?)
    && (s.isCorrect <==> s.showResult && s.selected.value == s.question.count)
    // at most one right answer per question
    && s.score % 10 == 0
    && s.score <= 10 * (s.level - 1) + (if s.isCorrect then 10 else 0)
    && (s.gameComplete ==> s.isCorrect && s.level >= FinalLevel)
  }

  /** The state when the game opens, after the level effect has asked the first question. */
  function Initial(r: Rolls): (s: CountState)
    requires Finishes(QuestionCount(1), r.answers)
    ensures s.level == 1 && s.score == 0 && !s.showResult && !s.gameComplete
  {
    CountState(1, 0, None, false, false, false, 0, false, Asked(1, r))
  }

  /** `handleAnswerSelect(answer)`. */
  function Selected(s: CountState, answer: nat): (t: CountState)
    // ignored while a result is shown
    ensures s.showResult ==> t == s
    ensures !s.showResult ==> t.showResult && t.selected == Some(answer) && (t.isCorrect <==> answer == s.question.count)
    // right: ten points and one success more
    ensures !s.showResult && answer == s.question.count ==>
      && t.score == s.score + 10 && t.consecutive == Streak.Bump(s.consecutive)
      && t.showRocket == (s.showRocket || Streak.Fires(s.consecutive))
    // wrong: the counter starts over and the score stays
    ensures !s.showResult && answer != s.question.count ==>
      t == s.(selected := Some(answer), isCorrect := false, showResult := true, consecutive := 0)
    ensures t.level == s.level && t.question == s.question && t.gameComplete == s.gameComplete
  {
    if s.showResult then s
    else
      var correct := answer == s.question.count;
      var shown := s.(selected := Some(answer), isCorrect := correct, showResult := true);
      if correct then
        shown.(score := s.score + 10, consecutive := Streak.Bump(s.consecutive),
               showRocket := s.showRocket || Streak.Fires(s.consecutive))
      else shown.(consecutive := 0)
  }

  /** `nextQuestion`, then the level effect asking the next level's question. */
  function NextAsked(s: CountState, r: Rolls): (t: CountState)
    requires Finishes(QuestionCount(s.level + 1), r.answers)
    ensures t.level == s.level + 1 && t.selected == None && !t.showResult && !t.isCorrect
    ensures t.question == Asked(s.level + 1, r)
    ensures t.score == s.score && t.consecutive == s.consecutive && t.gameComplete == s.gameComplete
  {
    s.(level := s.level + 1, selected := None, showResult := false, isCorrect := false, question := Asked(s.level + 1, r))
  }

  /** The timeout after a right answer: the end of the game from level 8 on, the next
      question below it. */
  function AfterRightAnswer(s: CountState, r: Rolls): (t: CountState)
    requires Finishes(QuestionCount(s.level + 1), r.answers)
    ensures s.level >= FinalLevel ==> t == s.(gameComplete := true)
    ensures s.level < FinalLevel ==> t == NextAsked(s, r)
  {
    if s.level >= FinalLevel then s.(gameComplete := true) else NextAsked(s, r)
  }

  /** `resetGame`, whose net effect, once the level effect has run, is a first question
      at level 1; the rocket is left as it is. */
  function Reset(s: CountState, r: Rolls): (t: CountState)
    requires Finishes(QuestionCount(1), r.answers)
    ensures t.level == 1 && t.score == 0 && t.consecutive == 0 && !t.gameComplete
    ensures t.selected == None && !t.showResult && !t.isCorrect
    ensures t.question == Asked(1, r) && t.showRocket == s.showRocket
  {
    CountState(1, 0, None, false, false, false, 0, s.showRocket, Asked(1, r))
  }

  lemma InitialInv(r: Rolls)
    requires Finishes(QuestionCount(1), r.answers)
    ensures Inv(Initial(r))
  {
    AskedWell(1, r);
  }

  /** Answering keeps the invariant. */
  lemma SelectedInv(s: CountState, answer: nat)
    requires Inv(s)
    ensures Inv(Selected(s, answer))
  {
  }

  /** The next question keeps the invariant; it is offered after a right answer below
      level 8, and by the button after a wrong one. */
  lemma NextQuestionInv(s: CountState, r: Rolls)
    requires Inv(s) && s.showResult && !s.gameComplete && Finishes(QuestionCount(s.level + 1), r.answers)
    ensures Inv(NextAsked(s, r))
  {
    AskedWell(s.level + 1, r);
  }

  lemma AfterRightInv(s: CountState, r: Rolls)
    requires Inv(s) && s.isCorrect && Finishes(QuestionCount(s.level + 1), r.answers)
    ensures Inv(AfterRightAnswer(s, r))
  {
    if s.level < FinalLevel {
      NextQuestionInv(s, r);
    }
  }

  lemma ResetInv(s: CountState, r: Rolls)
    requires Finishes(QuestionCount(1), r.answers)
    ensures Inv(Reset(s, r))
  {
    AskedWell(1, r);
  }

  /** The score never passes ten points per level reached. */
  lemma ScoreBound(s: CountState)
    requires Inv(s)
    ensures s.score <= 10 * s.level
  {
  }

  /** Rolls that always finish the option loop, whatever the count. */
  function SteadyRolls(count: nat): (r: Rolls)
    ensures Finishes(count, r.answers)
  {
    ThreeDrawsSuffice(count);
    Rolls((0, 1), [(count, count + 3), (count + 1, count + 3), (count + 2, count + 3)], [])
  }

  /** Answering every question right from `s` on, each next question asked with
      `SteadyRolls`. */
  ghost function AllRight(s: CountState): CountState
    requires Inv(s) && !s.showResult
    decreases FinalLevel - s.level
  {
    var answered := Selected(s, s.question.count);
    var next := AfterRightAnswer(answered, SteadyRolls(QuestionCount(s.level + 1)));
    if s.level >= FinalLevel then next
    else
      SelectedInv(s, s.question.count);
      NextQuestionInv(answered, SteadyRolls(QuestionCount(s.level + 1)));
      AllRight(next)
  }

  /** Answering right all the way ends the game, with ten points for every question from
      the current one to level 8. */
  lemma {:induction false} AllRightCompletes(s: CountState)
    requires Inv(s) && !s.showResult && s.level <= FinalLevel
    ensures AllRight(s).gameComplete && AllRight(s).level == FinalLevel
    ensures AllRight(s).score == s.score + 10 * (FinalLevel + 1 - s.level)
    decreases FinalLevel - s.level
  {
    if s.level < FinalLevel {
      var answered := Selected(s, s.question.count);
      var next := AfterRightAnswer(answered, SteadyRolls(QuestionCount(s.level + 1)));
      SelectedInv(s, s.question.count);
      NextQuestionInv(answered, SteadyRolls(QuestionCount(s.level + 1)));
      AllRightCompletes(next);
    }
  }

  /** A perfect game from the start scores 80 points. */
  lemma PerfectGame(r: Rolls)
    requires Finishes(QuestionCount(1), r.answers)
    ensures Inv(Initial(r))
    ensures AllRight(Initial(r)).gameComplete && AllRight(Initial(r)).score == 80
  {
    InitialInv(r);
    AllRightCompletes(Initial(r));
  }

  /** The game's `useState` slots. */
  class Counter {
    var level: nat
    var score: nat
    var selected: Option<nat>
    var showResult: bool
    var isCorrect: bool
    var gameComplete: bool
    var consecutive: nat
    var showRocket: bool
    var question: Question

    function State(): CountState
      reads this
    {
      CountState(level, score, selected, showResult, isCorrect, gameComplete, consecutive, showRocket, question)
    }

    ghost predicate Valid()
      reads this
    {
      Inv(State())
    }

    /** Mounting: the state's initial values, then the level effect asks the first
        question. */
    constructor (r: Rolls)
      requires Finishes(QuestionCount(1), r.answers)
      ensures State() == Initial(r) && Valid()
    {
      level, score, selected, showResult, isCorrect := 1, 0, None, false, false;
      gameComplete, consecutive, showRocket := false, 0, false;
      question := Question(0, 0, [1, 2, 3, 4]);
      new;
      GenerateQuestion(r);
      InitialInv(r);
    }

    /** `generateQuestion` at the current level. */
    method GenerateQuestion(r: Rolls)
      requires Finishes(QuestionCount(level), r.answers)
      modifies this
      ensures State() == old(State()).(question := Asked(old(level), r))
    {
      var count := QuestionCount(level);
      var randomObject := Chance.Pick(r.item, |Objects|);
      var options := GenerateOptions(count, r.answers);
      question := Question(count, randomObject, Chance.Rearrange(options, r.swaps));
    }

    /** `handleAnswerSelect(answer)` for one of the options shown. */
    method HandleAnswerSelect(answer: nat)
      requires Valid()
      modifies this
      ensures State() == Selected(old(State()), answer) && Valid()
    {
      ghost var s := State();
      if showResult {
        return;
      }
      selected := Some(answer);
      var correct := answer == question.count;
      isCorrect := correct;
      showResult := true;
      if correct {
        score := score + 10;
        showRocket := showRocket || Streak.Fires(consecutive);
        consecutive := Streak.Bump(consecutive);
      } else {
        consecutive := 0;
      }
      SelectedInv(s, answer);
    }

    /** `nextQuestion`, then the level effect; offered once a result is shown. */
    method NextQuestion(r: Rolls)
      requires Valid() && showResult && !gameComplete && Finishes(QuestionCount(level + 1), r.answers)
      modifies this
      ensures State() == NextAsked(old(State()), r) && Valid()
    {
      ghost var s := State();
      level := level + 1;
      selected := None;
      showResult := false;
      isCorrect := false;
      GenerateQuestion(r);
      NextQuestionInv(s, r);
    }

    /** The timeout set by a right answer. */
    method AfterRight(r: Rolls)
      requires Valid() && isCorrect && Finishes(QuestionCount(level + 1), r.answers)
      modifies this
      ensures State() == AfterRightAnswer(old(State()), r) && Valid()
    {
      ghost var s := State();
      if level >= FinalLevel {
        gameComplete := true;
      } else {
        NextQuestion(r);
      }
      AfterRightInv(s, r);
    }

    /** `resetGame`. */
    method ResetGame(r: Rolls)
      requires Finishes(QuestionCount(1), r.answers)
      modifies this
      ensures State() == Reset(old(State()), r) && Valid()
    {
      ghost var s := State();
      level, score, selected, showResult, isCorrect := 1, 0, None, false, false;
      gameComplete, consecutive := false, 0;
      GenerateQuestion(r);
      ResetInv(s, r);
    }
  }
}
