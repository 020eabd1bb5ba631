/**
 * Spawning a tile. The two random draws of `add_new_tile` are parameters:
 * `pick` is the index `random.choice` would return into the list of empty
 * cells, and `isTwo` is the outcome of the draw that makes the new tile a 2
 * (otherwise it is a 4).
 */
module Spawning {
  import opened Lines
  import opened Boards
  import opened Engine

  /**
   * Every entry of `cells` is a cell of row `r` before column `c` that is
   * empty in `b`.
   */
  ghost predicate EmptyCellsOf(b: Board, cells: seq<(int, int)>, rows: int) {
    forall i :: 0 <= i < |cells| ==>
      0 <= cells[i].0 < rows && 0 <= cells[i].1 < 4 && cells[i].0 < 4 && b[cells[i].0][cells[i].1] == 0
  }

  /** The empty cells of row `r` in the columns before `c`, left to right. */
  function EmptyInRow(b: Board, r: int, c: int): seq<(int, int)>
    requires 0 <= r < 4 && 0 <= c <= 4
    decreases c
  {
    if c == 0 then []
    else EmptyInRow(b, r, c - 1) + (if b[r][c - 1] == 0 then [(r, c - 1)] else [])
  }

  /** The empty cells of the rows before `r`, in row-major order. */
  function EmptyInRows(b: Board, r: int): seq<(int, int)>
    requires 0 <= r <= 4
  {
    if r == 0 then [] else EmptyInRows(b, r - 1) + EmptyInRow(b, r - 1, |b[r - 1]|)
  }

  lemma {:induction false} EmptyInRowSound(b: Board, r: int, c: int)
    requires 0 <= r < 4 && 0 <= c <= 4
    ensures EmptyCellsOf(b, EmptyInRow(b, r, c), r + 1)
    decreases c
  {
    if c > 0 {
      EmptyInRowSound(b, r, c - 1);
    }
  }

  lemma {:induction false} EmptyInRowsSound(b: Board, r: int)
    requires 0 <= r <= 4
    ensures EmptyCellsOf(b, EmptyInRows(b, r), r)
  {
    if r > 0 {
      EmptyInRowsSound(b, r - 1);
      EmptyInRowSound(b, r - 1, |b[r - 1]|);
    }
  }

  /** `empty_cells`: the empty cells of the board, in row-major order. */
  function EmptyCells(b: Board): (cells: seq<(int, int)>)
    ensures EmptyCellsOf(b, cells, 4)
  {
    EmptyInRowsSound(b, |b|);
    EmptyInRows(b, |b|)
  }

  /** Every empty cell is in the list of empty cells. */
  lemma EmptyCellsComplete(b: Board, r: int, c: int)
    requires 0 <= r < 4 && 0 <= c < 4 && b[r][c] == 0
    ensures (r, c) in EmptyCells(b)
  {
    var i := EmptyInRowsAt(b, r, c);
    EmptyInRowsPrefix(b, r + 1);
    assert EmptyCells(b)[i] == (r, c);
  }

  /** The empty cell `(r, c)` has an index in the list of the first `r + 1` rows. */
  lemma EmptyInRowsAt(b: Board, r: int, c: int) returns (i: nat)
    requires 0 <= r < 4 && 0 <= c < 4 && b[r][c] == 0
    ensures i < |EmptyInRows(b, r + 1)| && EmptyInRows(b, r + 1)[i] == (r, c)
  {
    var j := EmptyInRowAt(b, r, c);
    var before := EmptyInRows(b, r);
    assert EmptyInRows(b, r + 1) == before + EmptyInRow(b, r, |b[r]|);
    i := |before| + j;
  }

  /** The empty cell `(r, c)` has an index in the list of its row. */
  lemma EmptyInRowAt(b: Board, r: int, c: int) returns (j: nat)
    requires 0 <= r < 4 && 0 <= c < 4 && b[r][c] == 0
    ensures j < |EmptyInRow(b, r, |b[r]|)| && EmptyInRow(b, r, |b[r]|)[j] == (r, c)
  {
    var row := EmptyInRow(b, r, c + 1);
    assert row == EmptyInRow(b, r, c) + [(r, c)];
    EmptyInRowPrefix(b, r, c + 1);
    j := |row| - 1;
  }

  lemma {:induction false} EmptyInRowPrefix(b: Board, r: int, c: int)
    requires 0 <= r < 4 && 0 <= c <= 4
    ensures EmptyInRow(b, r, c) <= EmptyInRow(b, r, |b[r]|)
    decreases 4 - c
  {
    if c < 4 {
      EmptyInRowPrefix(b, r, c + 1);
      assert EmptyInRow(b, r, c) <= EmptyInRow(b, r, c + 1);
    }
  }

  lemma {:induction false} EmptyInRowsPrefix(b: Board, r: int)
    requires 0 <= r <= 4
    ensures EmptyInRows(b, r) <= EmptyCells(b)
    decreases 4 - r
  {
    if r < 4 {
      EmptyInRowsPrefix(b, r + 1);
      assert EmptyInRows(b, r) <= EmptyInRows(b, r + 1);
    }
  }

  /** The value `random.random() < 0.9` selects. */
  function NewTile(isTwo: bool): int {
    if isTwo then 2 else 4
  }

  /** What `random.choice` can return: an index into a non-empty list of empty cells. */
  predicate ValidPick(b: Board, pick: nat) {
    EmptyCells(b) == [] || pick < |EmptyCells(b)|
  }

  /** `add_new_tile`: fill the picked empty cell with 2 or 4; a full board stays as it is. */
  function Spawn(b: Board, pick: nat, isTwo: bool): Board
    requires ValidPick(b, pick)
  {
    var cells := EmptyCells(b);
    if cells == [] then b
    else
      SetCell(b, cells[pick].0, cells[pick].1, NewTile(isTwo))
  }

  /** A row has as many empty cells as it has cells without a tile. */
  lemma EmptyInRowCount(b: Board, r: int)
    requires 0 <= r < 4
    ensures |EmptyInRow(b, r, 4)| == 4 - |NonZeros(b[r])|
  {
    RowCount(b[r]);
    assert |EmptyInRow(b, r, 1)| == 1 - Ind(b[r][0]);
    assert |EmptyInRow(b, r, 2)| == |EmptyInRow(b, r, 1)| + 1 - Ind(b[r][1]);
    assert |EmptyInRow(b, r, 3)| == |EmptyInRow(b, r, 2)| + 1 - Ind(b[r][2]);
    assert |EmptyInRow(b, r, 4)| == |EmptyInRow(b, r, 3)| + 1 - Ind(b[r][3]);
  }

  /** The list of empty cells and the tiles account for all sixteen cells. */
  lemma EmptyCellsCount(b: Board)
    ensures |EmptyCells(b)| == 16 - TileCount(b)
  {
    EmptyInRowCount(b, 0);
    EmptyInRowCount(b, 1);
    EmptyInRowCount(b, 2);
    EmptyInRowCount(b, 3);
    assert |EmptyInRows(b, 1)| == 4 - |NonZeros(b[0])|;
    assert |EmptyInRows(b, 2)| == |EmptyInRows(b, 1)| + 4 - |NonZeros(b[1])|;
    assert |EmptyInRows(b, 3)| == |EmptyInRows(b, 2)| + 4 - |NonZeros(b[2])|;
  }

  /**
   * Spawning touches exactly one cell: the picked cell, which was empty,
   * becomes 2 or 4, and every other cell keeps its value.
   */
  lemma SpawnPlacesOneTile(b: Board, pick: nat, isTwo: bool)
    requires ValidPick(b, pick) && EmptyCells(b) != []
    ensures
      var (r, c) := EmptyCells(b)[pick];
      0 <= r < 4 && 0 <= c < 4 && b[r][c] == 0 &&
      Spawn(b, pick, isTwo)[r][c] == NewTile(isTwo) &&
      forall i, j :: 0 <= i < 4 && 0 <= j < 4 && (i != r || j != c) ==> Spawn(b, pick, isTwo)[i][j] == b[i][j]
  {
  }

  /**
   * A spawn on a full board changes nothing; otherwise it adds exactly one
   * tile, and the board's total grows by the new tile's value.
   */
  lemma SpawnMeasures(b: Board, pick: nat, isTwo: bool)
    requires ValidPick(b, pick)
    ensures EmptyCells(b) == [] ==> Spawn(b, pick, isTwo) == b
    ensures TileCount(Spawn(b, pick, isTwo)) == TileCount(b) + (if EmptyCells(b) == [] then 0 else 1)
    ensures Total(Spawn(b, pick, isTwo)) == Total(b) + (if EmptyCells(b) == [] then 0 else NewTile(isTwo))
  {
    var cells := EmptyCells(b);
    if cells != [] {
      SetCellMeasures(b, cells[pick].0, cells[pick].1, NewTile(isTwo));
    }
  }

  /** The tile count tells whether a spawn has a free cell. */
  lemma SpawnHasRoom(b: Board)
    ensures EmptyCells(b) != [] <==> TileCount(b) < 16
  {
    EmptyCellsCount(b);
  }

  /** The list comprehension of `add_new_tile`: the empty cells, row by row. */
  method ListEmptyCells(board: array2<int>) returns (emptyCells: seq<(int, int)>)
    requires Is4x4(board)
    ensures emptyCells == EmptyCells(Grid(board))
  {
    ghost var b := Grid(board);
    emptyCells := [];
    for r := 0 to 4
      invariant emptyCells == EmptyInRows(b, r)
    {
      for c := 0 to 4
        invariant emptyCells == EmptyInRows(b, r) + EmptyInRow(b, r, c)
      {
        if board[r, c] == 0 {
          emptyCells := emptyCells + [(r, c)];
        }
      }
    }
  }

  /**
   * `add_new_tile`: fills the picked empty cell in place with 2 or 4; on a
   * full board it does nothing.
   */
  method AddNewTile(board: array2<int>, pick: nat, isTwo: bool)
    requires Is4x4(board)
    requires ValidPick(Grid(board), pick)
    modifies board
    ensures Grid(board) == Spawn(old(Grid(board)), pick, isTwo)
  {
    ghost var b := Grid(board);
    var emptyCells := ListEmptyCells(board);
    if emptyCells != [] {
      var (r, c) := emptyCells[pick];
      board[r, c] := if isTwo then 2 else 4;
      BoardExt(Grid(board), SetCell(b, r, c, NewTile(isTwo)));
    }
  }

  /** A board without tiles has sixteen empty cells, and one spawn leaves fifteen. */
  lemma PicksIntoEmpty(b: Board, p1: nat, t1: bool)
    requires TileCount(b) == 0 && p1 < 16
    ensures |EmptyCells(b)| == 16
    ensures |EmptyCells(Spawn(b, p1, t1))| == 15
  {
    EmptyCellsCount(b);
    SpawnMeasures(b, p1, t1);
    var b1 := Spawn(b, p1, t1);
    EmptyCellsCount(b1);
  }

  /** The picks of `initialize_board` range over sixteen and then fifteen empty cells. */
  lemma InitialPicks(p1: nat, t1: bool)
    requires p1 < 16
    ensures |EmptyCells(Empty())| == 16
    ensures |EmptyCells(Spawn(Empty(), p1, t1))| == 15
  {
    TileCountCells(Empty());
    PicksIntoEmpty(Empty(), p1, t1);
  }

  /** `initialize_board`: the empty board with two tiles spawned into it. */
  function InitialBoard(p1: nat, t1: bool, p2: nat, t2: bool): Board
    requires p1 < 16 && p2 < 15
  {
    InitialPicks(p1, t1);
    Spawn(Spawn(Empty(), p1, t1), p2, t2)
  }

  /** A spawn keeps every cell empty, a 2 or a 4. */
  lemma SpawnKeepsSmallTiles(b: Board, pick: nat, isTwo: bool)
    requires ValidPick(b, pick)
    requires forall r, c :: 0 <= r < 4 && 0 <= c < 4 ==> b[r][c] in {0, 2, 4}
    ensures forall r, c :: 0 <= r < 4 && 0 <= c < 4 ==> Spawn(b, pick, isTwo)[r][c] in {0, 2, 4}
  {
    if EmptyCells(b) != [] {
      SpawnPlacesOneTile(b, pick, isTwo);
    }
  }

  /** Two spawns into a board without tiles give two tiles, each a 2 or a 4. */
  lemma SpawnTwiceIntoEmpty(b: Board, p1: nat, t1: bool, p2: nat, t2: bool)
    requires TileCount(b) == 0
    requires ValidPick(b, p1) && ValidPick(Spawn(b, p1, t1), p2)
    ensures TileCount(Spawn(Spawn(b, p1, t1), p2, t2)) == 2
    ensures forall r, c :: 0 <= r < 4 && 0 <= c < 4 ==> Spawn(Spawn(b, p1, t1), p2, t2)[r][c] in {0, 2, 4}
  {
    TileCountCells(b);
    assert forall r, c :: 0 <= r < 4 && 0 <= c < 4 ==> Ind(b[r][c]) == 0;
    var b1 := Spawn(b, p1, t1);
    SpawnMeasures(b, p1, t1);
    EmptyCellsCount(b1);
    SpawnMeasures(b1, p2, t2);
    SpawnKeepsSmallTiles(b, p1, t1);
    SpawnKeepsSmallTiles(b1, p2, t2);
  }

  /** A new game has exactly two tiles, each a 2 or a 4. */
  lemma InitialBoardTiles(p1: nat, t1: bool, p2: nat, t2: bool)
    requires p1 < 16 && p2 < 15
    ensures TileCount(InitialBoard(p1, t1, p2, t2)) == 2
    ensures forall r, c :: 0 <= r < 4 && 0 <= c < 4 ==>
      InitialBoard(p1, t1, p2, t2)[r][c] in {0, 2, 4}
  {
    InitialPicks(p1, t1);
    SpawnTwiceIntoEmpty(Empty(), p1, t1, p2, t2);
  }

  /** `initialize_board` on arrays. */
  method InitializeBoard(p1: nat, t1: bool, p2: nat, t2: bool) returns (board: array2<int>)
    requires p1 < 16 && p2 < 15
    ensures fresh(board) && Is4x4(board)
    ensures Grid(board) == InitialBoard(p1, t1, p2, t2)
  {
    InitialPicks(p1, t1);
    board := ToArray(Empty());
    AddNewTile(board, p1, t1);
    AddNewTile(board, p2, t2);
  }
}
