/** The jigsaw puzzle: a square grid of pieces, each with a home cell and a current cell.
    The puzzle is laid out, its current cells are shuffled, and the child drags pieces onto
    cells; a piece counts as placed once it lies on its home cell, and the puzzle is done
    when every piece is placed. The picture, the preview and the timer's display are
    presentation and are not kept. */
module Puzzle {

  import opened Maybe
  import Arith
  import Chance

  datatype Difficulty = Easy | Medium | Hard

  /** `getDimensions`: rows and columns of the grid. */
  function Dimensions(d: Difficulty): (r: (nat, nat))
    ensures r.0 == r.1 && 3 <= r.0 <= 5
  {
    match d
    case Easy => (3, 3)
    case Medium => (4, 4)
    case Hard => (5, 5)
  }

  /** The number of pieces of a grid. */
  function Size(d: Difficulty): (n: nat)
    ensures n >= 9
  {
    Dimensions(d).0 * Dimensions(d).1
  }

  /** A harder puzzle has a bigger grid: 9, 16 and 25 pieces. */
  lemma HarderIsBigger()
    ensures Dimensions(Easy).0 < Dimensions(Medium).0 < Dimensions(Hard).0
    ensures Size(Easy) == 9 && Size(Medium) == 16 && Size(Hard) == 25
  {
  }

  type Cell = (nat, nat)

  /** One piece: its number, its home cell, the cell it lies on and whether it is placed. */
  datatype Piece = Piece(id: nat, row: nat, col: nat, currentRow: nat, currentCol: nat, isPlaced: bool)

  function Home(p: Piece): Cell
  {
    (p.row, p.col)
  }

  function At(p: Piece): Cell
  {
    (p.currentRow, p.currentCol)
  }

  /** The cells the pieces lie on, in piece order. */
  function Cells(ps: seq<Piece>): (r: seq<Cell>)
    ensures |r| == |ps| && forall k :: 0 <= k < |ps| ==> r[k] == At(ps[k])
  {
    seq(|ps|, k requires 0 <= k < |ps| => At(ps[k]))
  }

  /** The same piece, wherever it lies. */
  predicate SameTile(p: Piece, q: Piece)
  {
    p.id == q.id && p.row == q.row && p.col == q.col && p.isPlaced == q.isPlaced
  }

  /** The pieces as the layout loops push them, piece k at home (k / cols, k % cols)
      and lying on `cells[k]`. */
  function Laid(d: Difficulty, cells: seq<Cell>): (r: seq<Piece>)
    requires |cells| == Size(d)
    ensures |r| == Size(d) && Cells(r) == cells
    ensures forall k :: 0 <= k < |r| ==> !r[k].isPlaced
  {
    var cols := Dimensions(d).1;
    var r := seq(Size(d), k requires 0 <= k < Size(d) =>
      Piece(k, k / cols, k % cols, cells[k].0, cells[k].1, false));
    assert Cells(r) == cells;
    r
  }

  /** Piece k's home is the k-th cell in reading order: every home lies in the grid, and
      the piece's number is `row * cols + col`. */
  lemma {:induction false} HomesInReadingOrder(d: Difficulty, cells: seq<Cell>, k: nat)
    requires |cells| == Size(d) && k < Size(d)
    ensures var (rows, cols) := Dimensions(d); var p := Laid(d, cells)[k];
      p.row < rows && p.col < cols && p.id == p.row * cols + p.col
  {
    var (rows, cols) := Dimensions(d);
    var p := Laid(d, cells)[k];
    assert p.id == k && p.row == k / cols && p.col == k % cols;
    assert k == cols * (k / cols) + k % cols;
    assert p.row * cols == cols * p.row;
    Arith.DivBelow(k, cols, rows);
  }

  /** Every cell of the grid, in reading order: the current cells of a solved puzzle. */
  function HomeCells(d: Difficulty): (r: seq<Cell>)
    ensures |r| == Size(d)
  {
    var cols := Dimensions(d).1;
    seq(Size(d), k requires 0 <= k < Size(d) => (k / cols, k % cols))
  }

  /** No cell comes twice in reading order. */
  lemma HomeCellsDistinct(d: Difficulty)
    ensures Chance.Distinct(HomeCells(d))
  {
    var cols := Dimensions(d).1;
    var r := HomeCells(d);
    forall i, j | 0 <= i < j < |r| ensures r[i] != r[j] {
      assert i == cols * (i / cols) + i % cols;
      assert j == cols * (j / cols) + j % cols;
    }
  }

  /** The cells drawn at random by the layout loop of the source: the row
      `Math.floor(Math.random() * rows)` and the column likewise. */
  function RandomCells(d: Difficulty, draws: seq<(Chance.Draw, Chance.Draw)>): (r: seq<Cell>)
    requires |draws| == Size(d)
    ensures |r| == Size(d)
    ensures forall k :: 0 <= k < |r| ==> r[k].0 < Dimensions(d).0 && r[k].1 < Dimensions(d).1
  {
    var (rows, cols) := Dimensions(d);
    seq(Size(d), k requires 0 <= k < Size(d) => (Chance.Pick(draws[k].0, rows), Chance.Pick(draws[k].1, cols)))
  }

  /** The layout loops, over rows and then columns. */
  method LayOut(d: Difficulty, cells: seq<Cell>) returns (ps: seq<Piece>)
    requires |cells| == Size(d)
    ensures ps == Laid(d, cells)
  {
    var (rows, cols) := Dimensions(d);
    ps := [];
    var row := 0;
    while row < rows
      invariant row <= rows && |ps| == row * cols
      invariant forall k :: 0 <= k < |ps| ==> ps[k] == Laid(d, cells)[k]
    {
      var col := 0;
      while col < cols
        invariant col <= cols && |ps| == row * cols + col
        invariant forall k :: 0 <= k < |ps| ==> ps[k] == Laid(d, cells)[k]
      {
        var id := row * cols + col;
        Arith.DivModUnique(id, cols, row, col);
        assert row * cols + cols <= rows * cols by {
          Arith.MulBounds(cols, rows - row - 1);
        }
        ps := ps + [Piece(id, row, col, cells[id].0, cells[id].1, false)];
        col := col + 1;
      }
      row := row + 1;
    }
  }

  /** Piece i and piece j exchange their current cells. */
  function Exchange(ps: seq<Piece>, i: nat, j: nat): (r: seq<Piece>)
    requires i < |ps| && j < |ps|
    ensures |r| == |ps| && Cells(r) == Chance.Swap(Cells(ps), i, j)
    ensures forall k :: 0 <= k < |ps| ==> SameTile(r[k], ps[k])
  {
    var r := ps[i := ps[i].(currentRow := ps[j].currentRow, currentCol := ps[j].currentCol)]
                [j := ps[j].(currentRow := ps[i].currentRow, currentCol := ps[i].currentCol)];
    assert Cells(r) == Chance.Swap(Cells(ps), i, j);
    r
  }

  /** The exchanges `swaps`, in order. Whatever they are, the pieces keep their tiles and
      the cells they lie on are only rearranged. */
  function Exchanges(ps: seq<Piece>, swaps: seq<(nat, nat)>): (r: seq<Piece>)
    requires Chance.SwapsWithin(swaps, |ps|)
    ensures |r| == |ps| && Cells(r) == Chance.Shuffle(Cells(ps), swaps)
    ensures forall k :: 0 <= k < |ps| ==> SameTile(r[k], ps[k])
    decreases |swaps|
  {
    if swaps == [] then ps
    else Exchanges(Exchange(ps, swaps[0].0, swaps[0].1), swaps[1..])
  }

  /** One more exchange at the end of a list of exchanges. */
  lemma {:induction false} ExchangesSnoc(ps: seq<Piece>, swaps: seq<(nat, nat)>, i: nat, j: nat)
    requires Chance.SwapsWithin(swaps, |ps|) && i < |ps| && j < |ps|
    ensures Chance.SwapsWithin(swaps + [(i, j)], |ps|)
    ensures Exchanges(ps, swaps + [(i, j)]) == Exchange(Exchanges(ps, swaps), i, j)
    decreases |swaps|
  {
    var sw := swaps + [(i, j)];
    assert forall k :: 0 <= k < |sw| ==> sw[k] == if k < |swaps| then swaps[k] else (i, j);
    if swaps != [] {
      assert sw[1..] == swaps[1..] + [(i, j)];
      ExchangesSnoc(Exchange(ps, swaps[0].0, swaps[0].1), swaps[1..], i, j);
    }
  }

  /** The source's shuffle loop: for i from the last piece down to 1, piece i exchanges
      its cell with piece `Math.floor(Math.random() * (i + 1))`. */
  function FisherYates(n: nat, draws: seq<Chance.Draw>): (r: seq<(nat, nat)>)
    requires |draws| + 1 >= n
    ensures |r| == if n <= 1 then 0 else n - 1
    ensures Chance.SwapsWithin(r, n)
    ensures forall k :: 0 <= k < |r| ==> r[k] == (n - 1 - k, Chance.Pick(draws[k], n - k))
  {
    if n <= 1 then []
    else seq(n - 1, k requires 0 <= k < n - 1 => (n - 1 - k, Chance.Pick(draws[k], n - k)))
  }

  /** The shuffle loop, exchanging the cells of the pieces in place. */
  method ShuffleCells(a: array<Piece>, draws: seq<Chance.Draw>)
    requires |draws| + 1 >= a.Length
    modifies a
    ensures a[..] == Exchanges(old(a[..]), FisherYates(a.Length, draws))
  {
    ghost var swaps := FisherYates(a.Length, draws);
    ghost var done: seq<(nat, nat)> := [];
    if a.Length == 0 {
      return;
    }
    var i := a.Length - 1;
    while i > 0
      invariant 0 <= i < a.Length
      invariant done == swaps[..a.Length - 1 - i] && Chance.SwapsWithin(done, a.Length)
      invariant a[..] == Exchanges(old(a[..]), done)
    {
      var j := Chance.Pick(draws[a.Length - 1 - i], i + 1);
      ExchangesSnoc(old(a[..]), done, i, j);
      FisherYatesStep(a.Length, draws, i);
      ExchangeInPlace(a, i, j);
      done := done + [(i, j)];
      i := i - 1;
    }
    assert done == swaps;
  }

  /** The loop's step at i adds the exchange of i with its draw to those done before. */
  lemma FisherYatesStep(n: nat, draws: seq<Chance.Draw>, i: nat)
    requires |draws| + 1 >= n && 0 < i < n
    ensures var swaps := FisherYates(n, draws);
      swaps[..n - i] == swaps[..n - 1 - i] + [(i, Chance.Pick(draws[n - 1 - i], i + 1))]
  {
    var swaps := FisherYates(n, draws);
    assert swaps[n - 1 - i] == (i, Chance.Pick(draws[n - 1 - i], i + 1));
    assert swaps[..n - i] == swaps[..n - 1 - i] + [swaps[n - 1 - i]];
  }

  /** One step of the shuffle loop: piece i takes piece j's cell and piece j the cell
      piece i had. */
  method ExchangeInPlace(a: array<Piece>, i: nat, j: nat)
    requires i < a.Length && j < a.Length
    modifies a
    ensures a[..] == Exchange(old(a[..]), i, j)
  {
    var tempRow, tempCol := a[i].currentRow, a[i].currentCol;
    a[i] := a[i].(currentRow := a[j].currentRow, currentCol := a[j].currentCol);
    a[j] := a[j].(currentRow := tempRow, currentCol := tempCol);
  }

  /** Every cell a piece lies on after exchanges is a cell some piece lay on before. */
  lemma ExchangedCellsCameFrom(ps: seq<Piece>, swaps: seq<(nat, nat)>, k: nat)
    requires Chance.SwapsWithin(swaps, |ps|) && k < |ps|
    ensures exists l :: 0 <= l < |ps| && At(ps[l]) == At(Exchanges(ps, swaps)[k])
  {
    var c := Cells(Exchanges(ps, swaps));
    Chance.ShufflePermutes(Cells(ps), swaps);
    assert c[k] in multiset(c);
    assert c[k] in multiset(Cells(ps));
    var l :| 0 <= l < |ps| && Cells(ps)[l] == c[k];
  }

  /** `initializePuzzle` as written: every piece is put on a cell drawn at random, and the
      shuffle then exchanges those cells. */
  function InitialPiecesAsWritten(d: Difficulty, cellDraws: seq<(Chance.Draw, Chance.Draw)>,
                                  draws: seq<Chance.Draw>): (r: seq<Piece>)
    requires |cellDraws| == Size(d) && |draws| + 1 >= Size(d)
    ensures |r| == Size(d) && forall k :: 0 <= k < |r| ==> r[k].id == k && !r[k].isPlaced
  {
    Exchanges(Laid(d, RandomCells(d, cellDraws)), FisherYates(Size(d), draws))
  }

  /** As written, two pieces can start on the same cell (and some cell empty): when every
      draw is 0, all the pieces lie on the top left cell. */
  lemma InitialPiecesCanStack(d: Difficulty, draws: seq<Chance.Draw>)
    requires |draws| + 1 >= Size(d)
    ensures var cellDraws := seq(Size(d), k => ((0, 1), (0, 1)));
      var ps := InitialPiecesAsWritten(d, cellDraws, draws);
      At(ps[0]) == At(ps[1]) == (0, 0)
  {
    var cellDraws: seq<(Chance.Draw, Chance.Draw)> := seq(Size(d), k => ((0, 1), (0, 1)));
    var laid := Laid(d, RandomCells(d, cellDraws));
    var swaps := FisherYates(Size(d), draws);
    assert forall l :: 0 <= l < |laid| ==> At(laid[l]) == (0, 0);
    ExchangedCellsCameFrom(laid, swaps, 0);
    ExchangedCellsCameFrom(laid, swaps, 1);
  }

  /** `initializePuzzle` as intended: the pieces start on their home cells, and the shuffle
      exchanges those cells, so every piece gets a cell of its own. */
  function InitialPieces(d: Difficulty, draws: seq<Chance.Draw>): (r: seq<Piece>)
    requires |draws| + 1 >= Size(d)
    ensures |r| == Size(d)
    ensures forall k :: 0 <= k < |r| ==> r[k].id == k && Home(r[k]) == HomeCells(d)[k] && !r[k].isPlaced
  {
    Exchanges(Laid(d, HomeCells(d)), FisherYates(Size(d), draws))
  }

  /** The layout loops and the shuffle loop of `initializePuzzle`, as intended. */
  method InitialLayout(d: Difficulty, draws: seq<Chance.Draw>) returns (ps: seq<Piece>)
    requires |draws| + 1 >= Size(d)
    ensures ps == InitialPieces(d, draws)
  {
    var laid := LayOut(d, HomeCells(d));
    var a := new Piece[|laid|](k requires 0 <= k < |laid| => laid[k]);
    assert a[..] == laid;
    ShuffleCells(a, draws);
    ps := a[..];
  }

  /** What a board in play keeps: the pieces in order, each with its home in reading order,
      each on a cell of the grid, no two on one cell, and a piece marked placed only when it
      lies on its home. */
  ghost predicate Board(d: Difficulty, ps: seq<Piece>)
  {
    var (rows, cols) := Dimensions(d);
    && |ps| == Size(d)
    && (forall k :: 0 <= k < |ps| ==> ps[k].id == k && ps[k].row == k / cols && ps[k].col == k % cols)
    && (forall k :: 0 <= k < |ps| ==> ps[k].currentRow < rows && ps[k].currentCol < cols)
    && Chance.Distinct(Cells(ps))
    && (forall k :: 0 <= k < |ps| ==> ps[k].isPlaced ==> At(ps[k]) == Home(ps[k]))
  }

  /** The intended start is a board, with nothing placed yet. */
  lemma InitialPiecesBoard(d: Difficulty, draws: seq<Chance.Draw>)
    requires |draws| + 1 >= Size(d)
    ensures Board(d, InitialPieces(d, draws))
    ensures forall k :: 0 <= k < Size(d) ==> !InitialPieces(d, draws)[k].isPlaced
  {
    InitialCellsInGrid(d, draws);
    InitialCellsDistinct(d, draws);
  }

  /** The intended start puts every piece on a cell of the grid. */
  lemma InitialCellsInGrid(d: Difficulty, draws: seq<Chance.Draw>)
    requires |draws| + 1 >= Size(d)
    ensures forall k :: 0 <= k < Size(d) ==>
      InitialPieces(d, draws)[k].currentRow < Dimensions(d).0 && InitialPieces(d, draws)[k].currentCol < Dimensions(d).1
  {
    var homes := HomeCells(d);
    var laid := Laid(d, homes);
    var swaps := FisherYates(Size(d), draws);
    forall k | 0 <= k < Size(d)
      ensures InitialPieces(d, draws)[k].currentRow < Dimensions(d).0 && InitialPieces(d, draws)[k].currentCol < Dimensions(d).1
    {
      ExchangedCellsCameFrom(laid, swaps, k);
      var l :| 0 <= l < |laid| && At(laid[l]) == At(Exchanges(laid, swaps)[k]);
      HomesInReadingOrder(d, homes, l);
    }
  }

  /** The intended start puts no two pieces on one cell. */
  lemma InitialCellsDistinct(d: Difficulty, draws: seq<Chance.Draw>)
    requires |draws| + 1 >= Size(d)
    ensures Chance.Distinct(Cells(InitialPieces(d, draws)))
  {
    HomeCellsDistinct(d);
    Chance.ShuffleKeepsDistinct(HomeCells(d), FisherYates(Size(d), draws));
  }

  /** `pieces.find(...)`: the first piece lying on cell c, if any. */
  function FindAt(ps: seq<Piece>, c: Cell): (r: Option<nat>)
    ensures r.Some? ==> r.value < |ps| && At(ps[r.value]) == c
    ensures r.Some? ==> forall k :: 0 <= k < r.value ==> At(ps[k]) != c
    ensures r.None? ==> forall k :: 0 <= k < |ps| ==> At(ps[k]) != c
    decreases |ps|
  {
    if ps == [] then None
    else if At(ps[0]) == c then Some(0)
    else match FindAt(ps[1..], c)
      case None => None
      case Some(k) => Some(k + 1)
  }

  /** Piece d's placed flag, recomputed from where it lies. */
  function Recheck(ps: seq<Piece>, d: nat): (r: seq<Piece>)
    requires d < |ps|
  {
    ps[d := ps[d].(isPlaced := At(ps[d]) == Home(ps[d]))]
  }

  /** `handleDrop` as written. `draggedPieceData` is the very object the first assignment
      updates, so when it is read for the occupant's new cell it already holds the target
      cell. Only the dragged piece's flag is recomputed. */
  function DroppedAsWritten(ps: seq<Piece>, d: nat, target: Cell): (r: seq<Piece>)
    requires d < |ps|
    ensures |r| == |ps| && At(r[d]) == target && r[d].isPlaced == (target == Home(ps[d]))
    ensures forall k :: 0 <= k < |ps| && k != d ==> At(r[k]) == At(ps[k])
  {
    var moved := ps[d := ps[d].(currentRow := target.0, currentCol := target.1)];
    var draggedData := moved[d];
    var r := match FindAt(ps, target)
      case Some(t) => moved[t := moved[t].(currentRow := draggedData.currentRow, currentCol := draggedData.currentCol)]
      case None => moved;
    Recheck(r, d)
  }

  /** As written, a drop on another piece's cell leaves that piece where it is: the two
      pieces end up on one cell. */
  lemma DropOnPieceStacks(ps: seq<Piece>, d: nat, target: Cell)
    requires d < |ps| && FindAt(ps, target).Some? && FindAt(ps, target).value != d
    ensures var t := FindAt(ps, target).value; var r := DroppedAsWritten(ps, d, target);
      At(r[t]) == At(r[d]) == target && r[t] == ps[t]
  {
  }

  /** A board of two pieces where dropping the first piece onto its home, which the second
      occupies, stacks them. */
  lemma DropStacksExample()
    ensures var ps := [Piece(0, 0, 0, 0, 1, false), Piece(1, 0, 1, 0, 0, false)];
      && Chance.Distinct(Cells(ps))
      && var r := DroppedAsWritten(ps, 0, (0, 0)); At(r[0]) == At(r[1]) && !Chance.Distinct(Cells(r))
  {
    var ps := [Piece(0, 0, 0, 0, 1, false), Piece(1, 0, 1, 0, 0, false)];
    assert FindAt(ps, (0, 0)) == Some(1);
    var r := DroppedAsWritten(ps, 0, (0, 0));
    assert Cells(r)[0] == Cells(r)[1];
  }

  /** `handleDrop` as intended: the occupant of the target cell, if any, takes the dragged
      piece's old cell, and both moved pieces have their flags recomputed. */
  function Dropped(ps: seq<Piece>, d: nat, target: Cell): (r: seq<Piece>)
    requires d < |ps|
    ensures |r| == |ps| && forall k :: 0 <= k < |ps| ==> r[k].id == ps[k].id && Home(r[k]) == Home(ps[k])
    ensures At(r[d]) == target && r[d].isPlaced == (target == Home(ps[d]))
    ensures FindAt(ps, target).Some? ==> var t := FindAt(ps, target).value;
      t != d ==> At(r[t]) == At(ps[d]) && r[t].isPlaced == (At(ps[d]) == Home(ps[t]))
    ensures forall k :: 0 <= k < |ps| && k != d && Some(k) != FindAt(ps, target) ==> r[k] == ps[k]
  {
    var saved := At(ps[d]);
    var moved := ps[d := ps[d].(currentRow := target.0, currentCol := target.1)];
    match FindAt(ps, target)
    case Some(t) =>
      Recheck(Recheck(moved[t := moved[t].(currentRow := saved.0, currentCol := saved.1)], d), t)
    case None => Recheck(moved, d)
  }

  /** A drop onto a cell of the grid keeps the board: no two pieces ever share a cell, and
      a placed piece lies on its home. */
  lemma DroppedBoard(dif: Difficulty, ps: seq<Piece>, d: nat, target: Cell)
    requires Board(dif, ps) && d < |ps|
    requires target.0 < Dimensions(dif).0 && target.1 < Dimensions(dif).1
    ensures Board(dif, Dropped(ps, d, target))
  {
    var r := Dropped(ps, d, target);
    match FindAt(ps, target)
    case Some(t) =>
      if t != d {
        assert Cells(r) == Chance.Swap(Cells(ps), d, t);
        Chance.SwapKeepsDistinct(Cells(ps), d, t);
      } else {
        assert Cells(r) == Cells(ps);
      }
    case None =>
      assert Cells(r) == Cells(ps)[d := target];
  }

  /** The number of placed pieces, `pieces.filter(p => p.isPlaced).length`. */
  function PlacedCount(ps: seq<Piece>): (r: nat)
    ensures r <= |ps|
    ensures r == |ps| <==> forall k :: 0 <= k < |ps| ==> ps[k].isPlaced
    ensures r == 0 <==> forall k :: 0 <= k < |ps| ==> !ps[k].isPlaced
    decreases |ps|
  {
    if ps == [] then 0
    else PlacedCount(ps[1..]) + (if ps[0].isPlaced then 1 else 0)
  }

  /** Whether the completion effect declares the puzzle done. */
  predicate Complete(ps: seq<Piece>)
  {
    |ps| > 0 && PlacedCount(ps) == |ps|
  }

  /** On a board, done means solved: every piece lies on its home cell. */
  lemma CompleteIsSolved(dif: Difficulty, ps: seq<Piece>)
    requires Board(dif, ps) && Complete(ps)
    ensures forall k :: 0 <= k < |ps| ==> At(ps[k]) == Home(ps[k])
  {
  }

  /** The game's state: the difficulty chosen, the pieces, the piece being dragged, the
      progress counter, and whether the game is started and done. */
  datatype PuzzleState = PuzzleState(
    difficulty: Difficulty,
    pieces: seq<Piece>,
    dragged: Option<nat>,
    completed: nat,
    started: bool,
    elapsed: nat,
    done: bool)

  /** What holds of every reachable state: a game in play has a board, and the progress
      counter counts its placed pieces. */
  ghost predicate Inv(s: PuzzleState)
  {
    s.started ==> Board(s.difficulty, s.pieces) && s.completed == PlacedCount(s.pieces)
  }

  /** `initializePuzzle`, followed by the completion effect it triggers. */
  function Started(s: PuzzleState, draws: seq<Chance.Draw>): (t: PuzzleState)
    requires |draws| + 1 >= Size(s.difficulty)
    ensures t.started && !t.done && t.completed == 0 && t.elapsed == 0
    ensures Inv(t)
  {
    InitialPiecesBoard(s.difficulty, draws);
    s.(pieces := InitialPieces(s.difficulty, draws), completed := 0, elapsed := 0, done := false, started := true)
  }

  /** `handleDrop` onto `target`, followed by the completion effect. */
  function DroppedOn(s: PuzzleState, target: Cell): (t: PuzzleState)
    requires s.dragged.Some? ==> s.dragged.value < |s.pieces|
    ensures s.dragged.None? ==> t == s
    ensures s.dragged.Some? ==>
      && t.pieces == Dropped(s.pieces, s.dragged.value, target) && t.dragged == None
      && t.completed == PlacedCount(t.pieces) && t.done == (s.done || Complete(t.pieces))
  {
    match s.dragged
    case None => s
    case Some(d) =>
      var ps := Dropped(s.pieces, d, target);
      s.(pieces := ps, dragged := None, completed := PlacedCount(ps), done := s.done || Complete(ps))
  }

  /** Every drop onto the grid keeps the invariant, and a drop that completes the puzzle
      leaves every piece on its home cell. */
  lemma DroppedOnInv(s: PuzzleState, target: Cell)
    requires Inv(s) && s.started && (s.dragged.Some? ==> s.dragged.value < |s.pieces|)
    requires target.0 < Dimensions(s.difficulty).0 && target.1 < Dimensions(s.difficulty).1
    ensures Inv(DroppedOn(s, target))
    ensures var t := DroppedOn(s, target);
      !s.done && t.done ==> forall k :: 0 <= k < |t.pieces| ==> At(t.pieces[k]) == Home(t.pieces[k])
  {
    if s.dragged.Some? {
      var t := DroppedOn(s, target);
      DroppedBoard(s.difficulty, s.pieces, s.dragged.value, target);
      if !s.done && t.done {
        CompleteIsSolved(s.difficulty, t.pieces);
      }
    }
  }

  /** The game's `useState` slots. */
  class Game {
    var difficulty: Difficulty
    var pieces: seq<Piece>
    var dragged: Option<nat>
    var completed: nat
    var started: bool
    var elapsed: nat
    var done: bool

    function State(): PuzzleState
      reads this
    {
      PuzzleState(difficulty, pieces, dragged, completed, started, elapsed, done)
    }

    ghost predicate Valid()
      reads this
    {
      Inv(State())
    }

    constructor ()
      ensures State() == PuzzleState(Easy, [], None, 0, false, 0, false) && Valid()
    {
      difficulty, pieces, dragged := Easy, [], None;
      completed, started, elapsed, done := 0, false, 0, false;
    }

    /** The difficulty buttons of the start screen. */
    method SetDifficulty(d: Difficulty)
      requires Valid() && !started
      modifies this`difficulty
      ensures State() == old(State()).(difficulty := d) && Valid()
    {
      difficulty := d;
    }

    /** `initializePuzzle`; `draws` are the `Math.random()` values of the shuffle. */
    method Initialize(draws: seq<Chance.Draw>)
      requires |draws| + 1 >= Size(difficulty)
      modifies this
      ensures State() == Started(old(State()), draws) && Valid()
    {
      ghost var s := State();
      var ps := InitialLayout(difficulty, draws);
      pieces, completed, elapsed, done, started := ps, 0, 0, false, true;
      assert State() == Started(s, draws);
    }

    /** `handleDragStart` on the piece at position i. */
    method DragStart(i: nat)
      requires Valid() && started && i < |pieces|
      modifies this`dragged
      ensures State() == old(State()).(dragged := Some(i)) && Valid()
    {
      dragged := Some(i);
    }

    /** `handleDrop` on a cell of the grid, with the completion effect. */
    method HandleDrop(target: Cell)
      requires Valid() && started
      requires dragged.Some? ==> dragged.value < |pieces|
      requires target.0 < Dimensions(difficulty).0 && target.1 < Dimensions(difficulty).1
      modifies this
      ensures State() == DroppedOn(old(State()), target) && Valid()
    {
      DroppedOnInv(State(), target);
      if dragged.None? {
        return;
      }
      pieces := Dropped(pieces, dragged.value, target);
      dragged := None;
      completed := PlacedCount(pieces);
      if Complete(pieces) {
        done := true;
      }
    }

    /** One tick of the timer, which runs while the game is started and not done. */
    method Tick()
      requires Valid()
      modifies this`elapsed
      ensures elapsed == if old(started) && !old(done) then old(elapsed) + 1 else old(elapsed)
      ensures Valid()
    {
      if started && !done {
        elapsed := elapsed + 1;
      }
    }

    /** The "choose another" button of the completion screen. */
    method ChooseAnother()
      requires Valid()
      modifies this`started
      ensures State() == old(State()).(started := false) && Valid()
    {
      started := false;
    }
  }
}
