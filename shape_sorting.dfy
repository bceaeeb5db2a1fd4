/** The shape-sorting game: each level deals a row of coloured shapes, and the child
    drags every shape into the bin of its colour, or of its kind in the levels that sort
    by kind. When the last shape is sorted the level is complete: it scores ten points per
    level number, and two seconds later the game moves to the next level, up to level
    five. The drag itself, the animations and the spoken feedback are not modelled. */
module ShapeSorting {

  import opened Maybe
  import Chance
  import Decimal
  import Streak

  datatype Kind = Circle | Square | Triangle | Hexagon

  datatype Color = Red | Blue | Green | Yellow | Purple | Orange

  /** `sortingMode`: whether the bins are the colours or the kinds. */
  datatype Mode = ByColor | ByKind

  /** A drop target: the bin of one colour or of one kind. */
  datatype Bin = ColorBin(color: Color) | KindBin(kind: Kind)

  /** `shapeTypes` and `colors`, in the order the random draws index them. */
  const Kinds: seq<Kind> := [Circle, Square, Triangle, Hexagon]
  const Colors: seq<Color> := [Red, Blue, Green, Yellow, Purple, Orange]

  /** The level after which the game advances no further. */
  const LastLevel: nat := 5

  datatype Shape = Shape(id: string, kind: Kind, color: Color, sorted: bool)

  /** `Math.min(6 + level * 2, 12)`. */
  function ShapesPerLevel(level: nat): (n: nat)
    ensures n <= 12 && n <= 6 + 2 * level
    ensures n < 12 ==> n == 6 + 2 * level
  {
    if 6 + level * 2 < 12 then 6 + level * 2 else 12
  }

  /** Levels one and two deal eight and ten shapes, every later level twelve. */
  lemma ShapeCounts(level: nat)
    requires level >= 1
    ensures 8 <= ShapesPerLevel(level) <= 12
    ensures level >= 3 ==> ShapesPerLevel(level) == 12
    ensures ShapesPerLevel(1) == 8 && ShapesPerLevel(2) == 10
  {
  }

  /** The id of the i-th shape dealt: `shape-i`. */
  function ShapeId(i: nat): string
  {
    "shape-" + Decimal.Show(i)
  }

  /** Different positions give different ids. */
  lemma ShapeIdInjective(i: nat, j: nat)
    ensures ShapeId(i) == ShapeId(j) ==> i == j
  {
    if ShapeId(i) == ShapeId(j) {
      assert ShapeId(i)[6..] == Decimal.Show(i);
      assert ShapeId(j)[6..] == Decimal.Show(j);
      Decimal.ParseShow(i);
      Decimal.ParseShow(j);
    }
  }

  /** The i-th shape for the pair of draws `d`: the first picks the kind, the second the
      colour, and no shape is sorted when dealt. */
  function NewShape(i: nat, d: (Chance.Draw, Chance.Draw)): (r: Shape)
    ensures r.id == ShapeId(i) && !r.sorted
  {
    Shape(ShapeId(i), Kinds[Chance.Pick(d.0, |Kinds|)], Colors[Chance.Pick(d.1, |Colors|)], false)
  }

  /** The shapes `generateShapes` deals at `level` for the successive draws. */
  function Generated(level: nat, draws: seq<(Chance.Draw, Chance.Draw)>): (r: seq<Shape>)
    requires |draws| >= ShapesPerLevel(level)
    ensures |r| == ShapesPerLevel(level) && Numbered(r)
    ensures forall k :: 0 <= k < |r| ==> !r[k].sorted
  {
    seq(ShapesPerLevel(level), k requires 0 <= k < ShapesPerLevel(level) => NewShape(k, draws[k]))
  }

  /** The position of a kind in `Kinds`. */
  function KindIndex(k: Kind): (r: nat)
    ensures r < |Kinds| && Kinds[r] == k
  {
    match k
    case Circle => 0
    case Square => 1
    case Triangle => 2
    case Hexagon => 3
  }

  /** The position of a colour in `Colors`. */
  function ColorIndex(c: Color): (r: nat)
    ensures r < |Colors| && Colors[r] == c
  {
    match c
    case Red => 0
    case Blue => 1
    case Green => 2
    case Yellow => 3
    case Purple => 4
    case Orange => 5
  }

  /** Every deal can come up: for any kinds and colours of the right number, some draws
      deal exactly those. */
  lemma EveryDealPossible(level: nat, kinds: seq<Kind>, colors: seq<Color>)
    requires |kinds| == |colors| == ShapesPerLevel(level)
    ensures var draws: seq<(Chance.Draw, Chance.Draw)> :=
              seq(|kinds|, k requires 0 <= k < |kinds| => ((KindIndex(kinds[k]), |Kinds|), (ColorIndex(colors[k]), |Colors|)));
            var r := Generated(level, draws);
            forall k :: 0 <= k < |r| ==> r[k].kind == kinds[k] && r[k].color == colors[k]
  {
    var draws: seq<(Chance.Draw, Chance.Draw)> :=
      seq(|kinds|, k requires 0 <= k < |kinds| => ((KindIndex(kinds[k]), |Kinds|), (ColorIndex(colors[k]), |Colors|)));
    forall k | 0 <= k < |kinds|
      ensures Generated(level, draws)[k].kind == kinds[k] && Generated(level, draws)[k].color == colors[k]
    {
      Chance.PickReaches(KindIndex(kinds[k]), |Kinds|);
      Chance.PickReaches(ColorIndex(colors[k]), |Colors|);
    }
  }

  /** The loop of `generateShapes`, pushing one new shape per draw. */
  method GenerateShapes(level: nat, draws: seq<(Chance.Draw, Chance.Draw)>) returns (shapes: seq<Shape>)
    requires |draws| >= ShapesPerLevel(level)
    ensures shapes == Generated(level, draws)
  {
    var n := ShapesPerLevel(level);
    shapes := [];
    var i := 0;
    while i < n
      invariant i <= n && |shapes| == i
      invariant forall k :: 0 <= k < i ==> shapes[k] == NewShape(k, draws[k])
    {
      shapes := shapes + [NewShape(i, draws[i])];
      i := i + 1;
    }
  }

  /** Each shape's id is `shape-` followed by its position. */
  predicate Numbered(shapes: seq<Shape>)
  {
    forall k :: 0 <= k < |shapes| ==> shapes[k].id == ShapeId(k)
  }

  /** The bins shown in each mode, in the order they are drawn. */
  function Bins(mode: Mode): (r: seq<Bin>)
    ensures mode == ByColor ==> |r| == |Colors| && forall k :: 0 <= k < |r| ==> r[k] == ColorBin(Colors[k])
    ensures mode == ByKind ==> |r| == |Kinds| && forall k :: 0 <= k < |r| ==> r[k] == KindBin(Kinds[k])
  {
    match mode
    case ByColor => seq(|Colors|, k requires 0 <= k < |Colors| => ColorBin(Colors[k]))
    case ByKind => seq(|Kinds|, k requires 0 <= k < |Kinds| => KindBin(Kinds[k]))
  }

  /** `isCorrect`: in colour mode the bin names the shape's colour, in kind mode its kind. */
  predicate Matches(mode: Mode, shape: Shape, bin: Bin)
  {
    match mode
    case ByColor => bin.ColorBin? && bin.color == shape.color
    case ByKind => bin.KindBin? && bin.kind == shape.kind
  }

  /** The position, among the bins of `mode`, of the one that accepts `shape`. */
  function RightBinIndex(mode: Mode, shape: Shape): nat
  {
    match mode
    case ByColor => ColorIndex(shape.color)
    case ByKind => KindIndex(shape.kind)
  }

  /** Of the bins shown, exactly one accepts a given shape. */
  lemma OneRightBin(mode: Mode, shape: Shape)
    ensures RightBinIndex(mode, shape) < |Bins(mode)|
    ensures forall k :: 0 <= k < |Bins(mode)| ==> (Matches(mode, shape, Bins(mode)[k]) <==> k == RightBinIndex(mode, shape))
  {
  }

  /** The shapes after a right drop of the shape with id `id`: the `shapes.map` that sorts
      every shape with that id and keeps the others. */
  function Marked(shapes: seq<Shape>, id: string): (r: seq<Shape>)
    ensures |r| == |shapes|
    ensures forall k :: 0 <= k < |r| ==> r[k].(sorted := shapes[k].sorted) == shapes[k]
    ensures forall k :: 0 <= k < |r| ==> (r[k].sorted <==> shapes[k].sorted || shapes[k].id == id)
  {
    seq(|shapes|, k requires 0 <= k < |shapes| => if shapes[k].id == id then shapes[k].(sorted := true) else shapes[k])
  }

  /** Since the ids are distinct, a right drop sorts the one shape dragged and no other. */
  lemma MarkedAt(shapes: seq<Shape>, j: nat)
    requires Numbered(shapes) && j < |shapes|
    ensures Marked(shapes, ShapeId(j)) == shapes[j := shapes[j].(sorted := true)]
  {
    forall k | 0 <= k < |shapes|
      ensures Marked(shapes, ShapeId(j))[k] == shapes[j := shapes[j].(sorted := true)][k]
    {
      ShapeIdInjective(k, j);
    }
  }

  function Bit(b: bool): nat
  {
    if b then 1 else 0
  }

  /** How many shapes are sorted. */
  function SortedCount(shapes: seq<Shape>): (n: nat)
    ensures n <= |shapes|
  {
    if shapes == [] then 0 else Bit(shapes[0].sorted) + SortedCount(shapes[1..])
  }

  /** `shapes.length > 0 && shapes.every(shape => shape.sorted)`. */
  predicate AllSorted(shapes: seq<Shape>)
  {
    |shapes| > 0 && forall k :: 0 <= k < |shapes| ==> shapes[k].sorted
  }

  /** Every shape is sorted exactly when all of them are counted. */
  lemma {:induction false} SortedCountFull(shapes: seq<Shape>)
    ensures SortedCount(shapes) == |shapes| <==> forall k :: 0 <= k < |shapes| ==> shapes[k].sorted
  {
    if shapes != [] {
      SortedCountFull(shapes[1..]);
      if SortedCount(shapes) == |shapes| {
        forall k | 0 <= k < |shapes| ensures shapes[k].sorted {
          if k > 0 {
            assert shapes[k] == shapes[1..][k - 1];
          }
        }
      }
      if forall k :: 0 <= k < |shapes| ==> shapes[k].sorted {
        assert forall k :: 0 <= k < |shapes[1..]| ==> shapes[1..][k].sorted by {
          forall k | 0 <= k < |shapes[1..]| ensures shapes[1..][k].sorted {
            assert shapes[1..][k] == shapes[k + 1];
          }
        }
      }
    }
  }

  /** Replacing one shape changes the count by the difference of the two. */
  lemma {:induction false} SortedCountUpdate(shapes: seq<Shape>, j: nat, v: Shape)
    requires j < |shapes|
    ensures SortedCount(shapes[j := v]) + Bit(shapes[j].sorted) == SortedCount(shapes) + Bit(v.sorted)
  {
    if j == 0 {
      assert shapes[j := v][1..] == shapes[1..];
    } else {
      assert shapes[j := v][1..] == shapes[1..][j - 1 := v];
      SortedCountUpdate(shapes[1..], j - 1, v);
    }
  }

  /** The game's state. */
  datatype SortState = SortState(
    shapes: seq<Shape>,
    mode: Mode,
    score: nat,
    level: nat,
    completed: bool,
    dragged: Option<Shape>,
    consecutive: nat,
    showRocket: bool)

  /** `level % 2 === 0 ? 'type' : 'color'`: the mode set on leaving `level`. */
  function NextMode(level: nat): (m: Mode)
    ensures m == ByColor <==> (level + 1) % 2 == 0
  {
    if level % 2 == 0 then ByKind else ByColor
  }

  /** The mode in force at `level`, reached from level 1 in colour mode. */
  function ModeAt(level: nat): Mode
  {
    if level <= 1 then ByColor else NextMode(level - 1)
  }

  /** Colour, colour, kind, colour, kind: the modes of the five levels. */
  lemma ModesByLevel()
    ensures ModeAt(1) == ByColor && ModeAt(2) == ByColor && ModeAt(3) == ByKind
    ensures ModeAt(4) == ByColor && ModeAt(5) == ByKind
  {
  }

  /** The score a game at `level` has: ten times each earlier level number, plus the
      current one's once it is complete. */
  function ScoreAt(level: nat, completed: bool): nat
  {
    5 * level * (level - 1) + (if completed then 10 * level else 0)
  }

  /** What holds of every state the game reaches. */
  ghost predicate Inv(s: SortState)
  {
    && 1 <= s.level <= LastLevel
    && s.mode == ModeAt(s.level)
    && |s.shapes| == ShapesPerLevel(s.level)
    && Numbered(s.shapes)
    && s.score == ScoreAt(s.level, s.completed)
    // the completion effect has run: the level is complete exactly when all is sorted
    && (s.completed <==> AllSorted(s.shapes))
    && s.consecutive < Streak.BonusAt
  }

  /** The game after mounting: level 1 in colour mode, its shapes dealt by the level effect. */
  function Initial(draws: seq<(Chance.Draw, Chance.Draw)>): (s: SortState)
    requires |draws| >= ShapesPerLevel(1)
    ensures s.level == 1 && s.mode == ByColor && s.score == 0 && !s.completed
    ensures s.shapes == Generated(1, draws)
  {
    SortState(Generated(1, draws), ByColor, 0, 1, false, None, 0, false)
  }

  lemma InitialInv(draws: seq<(Chance.Draw, Chance.Draw)>)
    requires |draws| >= ShapesPerLevel(1)
    ensures Inv(Initial(draws))
  {
    assert !Initial(draws).shapes[0].sorted;
  }

  /** `handleDragStart(shape)`. */
  function DragStarted(s: SortState, shape: Shape): (t: SortState)
    ensures t.dragged == Some(shape)
    ensures t.(dragged := s.dragged) == s
  {
    s.(dragged := Some(shape))
  }

  /** The effect that watches for the last shape sorted: the level completes, scores ten
      points per level number and counts one more success. */
  function Settled(s: SortState): (t: SortState)
    ensures !AllSorted(s.shapes) || s.completed ==> t == s
    ensures AllSorted(s.shapes) && !s.completed ==>
      && t.completed && t.score == s.score + 10 * s.level
      && t.consecutive == Streak.Bump(s.consecutive)
      && t.showRocket == (s.showRocket || Streak.Fires(s.consecutive))
      && t.(completed := s.completed, score := s.score, consecutive := s.consecutive, showRocket := s.showRocket) == s
  {
    if AllSorted(s.shapes) && !s.completed then
      s.(completed := true, score := s.score + s.level * 10,
         consecutive := Streak.Bump(s.consecutive),
         showRocket := s.showRocket || Streak.Fires(s.consecutive))
    else s
  }

  /** `handleDrop(bin)` followed by the completion effect. */
  function Dropped(s: SortState, bin: Bin): (t: SortState)
    ensures s.dragged.None? ==> t == s
    ensures |t.shapes| == |s.shapes| && t.level == s.level && t.mode == s.mode && t.dragged == None
  {
    match s.dragged
    case None => s
    case Some(d) =>
      if Matches(s.mode, d, bin) then Settled(s.(shapes := Marked(s.shapes, d.id), dragged := None))
      else Settled(s.(consecutive := 0, dragged := None))
  }

  /** The timeout two seconds after completion: below the last level, the next level with
      the mode `NextMode` gives and, from the level effect, fresh shapes. */
  function Advanced(s: SortState, draws: seq<(Chance.Draw, Chance.Draw)>): (t: SortState)
    requires |draws| >= ShapesPerLevel(s.level + 1)
    ensures s.level >= LastLevel ==> t == s
    ensures s.level < LastLevel ==>
      && t.level == s.level + 1 && t.mode == NextMode(s.level)
      && t.shapes == Generated(s.level + 1, draws) && !t.completed
      && t.score == s.score && t.consecutive == s.consecutive
      && t.showRocket == s.showRocket && t.dragged == s.dragged
  {
    if s.level < LastLevel then
      s.(level := s.level + 1, mode := NextMode(s.level), shapes := Generated(s.level + 1, draws), completed := false)
    else s
  }

  /** `resetGame`: level 1 in colour mode with nothing scored and fresh shapes; the
      dragged shape and the rocket are left as they are. */
  function Reset(s: SortState, draws: seq<(Chance.Draw, Chance.Draw)>): (t: SortState)
    requires |draws| >= ShapesPerLevel(1)
    ensures t.level == 1 && t.score == 0 && t.mode == ByColor && t.consecutive == 0 && !t.completed
    ensures |t.shapes| == ShapesPerLevel(1) && forall k :: 0 <= k < |t.shapes| ==> !t.shapes[k].sorted
    ensures t.dragged == s.dragged && t.showRocket == s.showRocket
  {
    s.(level := 1, score := 0, mode := ByColor, consecutive := 0, shapes := Generated(1, draws), completed := false)
  }

  lemma DragStartedInv(s: SortState, shape: Shape)
    requires Inv(s)
    ensures Inv(DragStarted(s, shape))
  {
  }

  /** A drop keeps the invariant: a completed level stays complete, and an incomplete one
      completes exactly when its last shape is sorted. */
  lemma DroppedInv(s: SortState, bin: Bin)
    requires Inv(s)
    ensures Inv(Dropped(s, bin))
  {
    if s.dragged.Some? && Matches(s.mode, s.dragged.value, bin) {
      var u := s.(shapes := Marked(s.shapes, s.dragged.value.id), dragged := None);
      assert Numbered(u.shapes);
      if s.completed {
        assert AllSorted(u.shapes);
      }
    }
  }

  /** A wrong drop only clears the dragged shape and the success counter. */
  lemma WrongDrop(s: SortState, bin: Bin)
    requires Inv(s) && s.dragged.Some? && !Matches(s.mode, s.dragged.value, bin)
    ensures Dropped(s, bin) == s.(consecutive := 0, dragged := None)
  {
  }

  /** A right drop of the shape at position j sorts that shape and no other, counts it if
      it was not sorted yet, and completes the level when it was the last one. */
  lemma RightDrop(s: SortState, bin: Bin, j: nat)
    requires Inv(s) && j < |s.shapes| && s.dragged == Some(s.shapes[j])
    requires Matches(s.mode, s.shapes[j], bin)
    ensures var t := Dropped(s, bin);
      && t.shapes == s.shapes[j := s.shapes[j].(sorted := true)]
      && SortedCount(t.shapes) == SortedCount(s.shapes) + (if s.shapes[j].sorted then 0 else 1)
      && (t.completed <==> SortedCount(t.shapes) == |t.shapes|)
      && (!s.completed && t.completed ==> t.score == s.score + 10 * s.level)
      && (s.completed || !t.completed ==> t.score == s.score && t.consecutive == s.consecutive)
  {
    MarkedAt(s.shapes, j);
    var shapes := s.shapes[j := s.shapes[j].(sorted := true)];
    SortedCountUpdate(s.shapes, j, s.shapes[j].(sorted := true));
    SortedCountFull(shapes);
    DroppedInv(s, bin);
  }

  /** Advancing after a completed level keeps the invariant. */
  lemma AdvancedInv(s: SortState, draws: seq<(Chance.Draw, Chance.Draw)>)
    requires Inv(s) && s.completed && |draws| >= ShapesPerLevel(s.level + 1)
    ensures Inv(Advanced(s, draws))
  {
    var l := s.level;
    if l < LastLevel {
      var t := Advanced(s, draws);
      assert !AllSorted(t.shapes) by {
        assert !t.shapes[0].sorted;
      }
      assert 5 * l * (l - 1) + 10 * l == 5 * (l + 1) * l;
    }
  }

  lemma ResetInv(s: SortState, draws: seq<(Chance.Draw, Chance.Draw)>)
    requires |draws| >= ShapesPerLevel(1)
    ensures Inv(Reset(s, draws))
  {
    var t := Reset(s, draws);
    assert !AllSorted(t.shapes) by {
      assert !t.shapes[0].sorted;
    }
  }

  /** Completing the last level leaves 150 points: 10 * (1 + 2 + 3 + 4 + 5). */
  lemma FinalScore(s: SortState)
    requires Inv(s) && s.level == LastLevel && s.completed
    ensures s.score == 150
  {
  }

  /** The bin that accepts `shape` in `mode`. */
  function RightBin(mode: Mode, shape: Shape): (b: Bin)
    ensures Matches(mode, shape, b)
  {
    OneRightBin(mode, shape);
    Bins(mode)[RightBinIndex(mode, shape)]
  }

  /** Dragging the shapes from position k on, one by one, into their right bins. */
  function SortFrom(s: SortState, k: nat): SortState
    decreases |s.shapes| - k
  {
    if k >= |s.shapes| then s
    else SortFrom(Dropped(DragStarted(s, s.shapes[k]), RightBin(s.mode, s.shapes[k])), k + 1)
  }

  /** One step of `SortFrom`: dragging the shape at position k into its right bin sorts
      it, keeps the invariant, and scores only if it completes the level. */
  lemma SortStep(s: SortState, k: nat) returns (u: SortState)
    requires Inv(s) && k < |s.shapes|
    ensures u == Dropped(DragStarted(s, s.shapes[k]), RightBin(s.mode, s.shapes[k]))
    ensures SortFrom(s, k) == SortFrom(u, k + 1)
    ensures Inv(u) && u.level == s.level && u.shapes == s.shapes[k := s.shapes[k].(sorted := true)]
    ensures !s.completed && u.completed ==> u.score == s.score + 10 * s.level && u.consecutive == Streak.Bump(s.consecutive)
    ensures s.completed || !u.completed ==> u.score == s.score && u.consecutive == s.consecutive
    ensures s.completed ==> u.completed
  {
    var bin := RightBin(s.mode, s.shapes[k]);
    var d := DragStarted(s, s.shapes[k]);
    DragStartedInv(s, s.shapes[k]);
    u := Dropped(d, bin);
    RightDrop(d, bin, k);
    DroppedInv(d, bin);
  }

  /** Once a level is complete, further right drops change neither the score, the level
      nor the counter. */
  lemma {:induction false} SortFromCompleted(s: SortState, k: nat)
    requires Inv(s) && s.completed
    ensures var t := SortFrom(s, k);
      Inv(t) && t.completed && t.level == s.level && t.score == s.score && t.consecutive == s.consecutive
    decreases |s.shapes| - k
  {
    if k < |s.shapes| {
      var u := SortStep(s, k);
      SortFromCompleted(u, k + 1);
    }
  }

  /** Sorting every shape from position k on, when the ones before it are sorted,
      completes the level: ten points per level number and one success more. */
  lemma {:induction false} SortingCompletes(s: SortState, k: nat)
    requires Inv(s) && !s.completed && k < |s.shapes|
    requires forall i :: 0 <= i < k ==> s.shapes[i].sorted
    ensures var t := SortFrom(s, k);
      && Inv(t) && t.completed && t.level == s.level && t.score == s.score + 10 * s.level
      && t.consecutive == Streak.Bump(s.consecutive)
    decreases |s.shapes| - k
  {
    var u := SortStep(s, k);
    if u.completed {
      SortFromCompleted(u, k + 1);
    } else {
      assert k + 1 < |s.shapes|;
      SortingCompletes(u, k + 1);
    }
  }

  /** From the deal of a level, sorting every shape completes it. */
  lemma SortingEveryShape(s: SortState)
    requires Inv(s) && !s.completed
    ensures var t := SortFrom(s, 0);
      t.completed && t.level == s.level && t.score == s.score + 10 * s.level
  {
    SortingCompletes(s, 0);
  }

  /** The game's `useState` slots. */
  class Sorter {
    var shapes: seq<Shape>
    var mode: Mode
    var score: nat
    var level: nat
    var completed: bool
    var dragged: Option<Shape>
    var consecutive: nat
    var showRocket: bool

    function State(): SortState
      reads this
    {
      SortState(shapes, mode, score, level, completed, dragged, consecutive, showRocket)
    }

    ghost predicate Valid()
      reads this
    {
      Inv(State())
    }

    /** Mounting: the state's initial values, then the level effect deals level 1. */
    constructor (draws: seq<(Chance.Draw, Chance.Draw)>)
      requires |draws| >= ShapesPerLevel(1)
      ensures State() == Initial(draws) && Valid()
    {
      mode, score, level, completed := ByColor, 0, 1, false;
      dragged, consecutive, showRocket := None, 0, false;
      new;
      Deal(draws);
      InitialInv(draws);
    }

    /** `generateShapes` at the current level: the new shapes, and the level not complete. */
    method Deal(draws: seq<(Chance.Draw, Chance.Draw)>)
      requires |draws| >= ShapesPerLevel(level)
      modifies this
      ensures State() == old(State()).(shapes := Generated(old(level), draws), completed := false)
    {
      shapes := GenerateShapes(level, draws);
      completed := false;
    }

    /** `handleDragStart(shape)`. */
    method HandleDragStart(shape: Shape)
      requires Valid()
      modifies this
      ensures State() == DragStarted(old(State()), shape) && Valid()
    {
      dragged := Some(shape);
      DragStartedInv(old(State()), shape);
    }

    /** The completion effect, run after every change of the shapes. */
    method CompletionEffect()
      modifies this
      ensures State() == Settled(old(State()))
    {
      var allSorted := |shapes| > 0 && forall k :: 0 <= k < |shapes| ==> shapes[k].sorted;
      if allSorted && !completed {
        completed := true;
        score := score + level * 10;
        showRocket := showRocket || Streak.Fires(consecutive);
        consecutive := Streak.Bump(consecutive);
      }
    }

    /** `handleDrop(bin)`, and the completion effect it triggers. */
    method HandleDrop(bin: Bin)
      requires Valid()
      modifies this
      ensures State() == Dropped(old(State()), bin) && Valid()
    {
      ghost var s := State();
      if dragged.None? {
        return;
      }
      var d := dragged.value;
      if Matches(mode, d, bin) {
        shapes := Marked(shapes, d.id);
      } else {
        consecutive := 0;
      }
      dragged := None;
      CompletionEffect();
      DroppedInv(s, bin);
    }

    /** The timeout after completion: the next level and mode below the last level, after
        which the level effect deals the new level's shapes. */
    method Advance(draws: seq<(Chance.Draw, Chance.Draw)>)
      requires Valid() && completed && |draws| >= ShapesPerLevel(level + 1)
      modifies this
      ensures State() == Advanced(old(State()), draws) && Valid()
    {
      ghost var s := State();
      if level < LastLevel {
        mode := NextMode(level);
        level := level + 1;
        Deal(draws);
      }
      AdvancedInv(s, draws);
    }

    /** `resetGame`, whose net effect, once the level effect has run, is one deal at
        level 1. */
    method ResetGame(draws: seq<(Chance.Draw, Chance.Draw)>)
      requires |draws| >= ShapesPerLevel(1)
      modifies this
      ensures State() == Reset(old(State()), draws) && Valid()
    {
      ghost var s := State();
      level, score, mode, consecutive := 1, 0, ByColor, 0;
      Deal(draws);
      ResetInv(s, draws);
    }
  }
}
