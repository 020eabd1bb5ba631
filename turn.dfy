/**
 * One turn of the game, `update_board`: apply the move a button selects to
 * a copy of the board, keep the result and spawn a tile only when the move
 * changed something, then ask whether the game is over. The random choices
 * of the spawn are the parameters `pick` and `isTwo`; the game-over warning
 * the page shows is the returned flag.
 */
module Game {
  import opened Lines
  import opened Boards
  import opened Engine
  import opened Spawning
  import opened Endgame

  /** The move a direction selects; any other direction leaves the board as it is. */
  function Move(b: Board, direction: string): Board {
    if direction == "Left" then MoveLeft(b)
    else if direction == "Right" then MoveRight(b)
    else if direction == "Up" then MoveUp(b)
    else if direction == "Down" then MoveDown(b)
    else b
  }

  /** The board after a turn and whether the game is over on it. */
  datatype TurnResult = TurnResult(board: Board, gameOver: bool)

  /**
   * What a pick must be for a turn: an index into the empty cells of the
   * moved board, needed only when the move changed the board.
   */
  predicate TurnPick(b: Board, direction: string, pick: nat) {
    Move(b, direction) != b ==> ValidPick(Move(b, direction), pick)
  }

  /** `update_board` on values. */
  function Turn(b: Board, direction: string, pick: nat, isTwo: bool): TurnResult
    requires TurnPick(b, direction, pick)
  {
    var moved := Move(b, direction);
    var next := if moved != b then Spawn(moved, pick, isTwo) else b;
    TurnResult(next, GameOver(next))
  }

  /** Each direction's move conserves the total and never adds a tile. */
  lemma MoveKeeps(b: Board, direction: string)
    ensures Total(Move(b, direction)) == Total(b)
    ensures TileCount(Move(b, direction)) <= TileCount(b)
    ensures AllTileValues(b) ==> AllTileValues(Move(b, direction))
    ensures Move(b, direction) != b ==> TileCount(Move(b, direction)) < 16
  {
    MovesKeep(b);
    MoveChangeFreesCell(b);
    if direction == "Left" {
      assert Move(b, direction) == MoveLeft(b);
    } else if direction == "Right" {
      assert Move(b, direction) == MoveRight(b);
    } else if direction == "Up" {
      assert Move(b, direction) == MoveUp(b);
    } else if direction == "Down" {
      assert Move(b, direction) == MoveDown(b);
    } else {
      assert Move(b, direction) == b;
    }
  }

  /**
   * A turn spawns a tile exactly when its move changed the board: an
   * unchanged board (in particular after an unknown direction) is kept as
   * it was, and a changed one gets one more tile, whose value is added to
   * the total.
   */
  lemma TurnSpawnsOnlyOnChange(b: Board, direction: string, pick: nat, isTwo: bool)
    requires TurnPick(b, direction, pick)
    ensures direction !in ["Left", "Right", "Up", "Down"] ==> Turn(b, direction, pick, isTwo).board == b
    ensures Move(b, direction) == b ==> Turn(b, direction, pick, isTwo).board == b
    ensures Move(b, direction) != b ==>
      && TileCount(Turn(b, direction, pick, isTwo).board) == TileCount(Move(b, direction)) + 1
      && Total(Turn(b, direction, pick, isTwo).board) == Total(b) + NewTile(isTwo)
  {
    var moved := Move(b, direction);
    if moved != b {
      MoveKeeps(b, direction);
      SpawnHasRoom(moved);
      SpawnMeasures(moved, pick, isTwo);
    }
  }

  /** A spawn keeps every cell empty or a power of two. */
  lemma SpawnKeepsTileValues(b: Board, pick: nat, isTwo: bool)
    requires ValidPick(b, pick) && AllTileValues(b)
    ensures AllTileValues(Spawn(b, pick, isTwo))
  {
    if EmptyCells(b) != [] {
      SpawnPlacesOneTile(b, pick, isTwo);
      assert IsTileValue(4) by { assert IsTileValue(2); }
    }
  }

  /** Every cell stays empty or a power of two from one turn to the next. */
  lemma TurnKeepsTileValues(b: Board, direction: string, pick: nat, isTwo: bool)
    requires TurnPick(b, direction, pick) && AllTileValues(b)
    ensures AllTileValues(Turn(b, direction, pick, isTwo).board)
  {
    var moved := Move(b, direction);
    MoveKeeps(b, direction);
    if moved != b {
      SpawnKeepsTileValues(moved, pick, isTwo);
    }
  }

  /**
   * The flag a turn reports holds exactly when the new board has a tile and
   * no move can change it any more.
   */
  lemma TurnGameOver(b: Board, direction: string, pick: nat, isTwo: bool)
    requires TurnPick(b, direction, pick)
    ensures var t := Turn(b, direction, pick, isTwo);
      t.gameOver <==>
        && TileCount(t.board) > 0
        && Move(t.board, "Left") == t.board && Move(t.board, "Right") == t.board
        && Move(t.board, "Up") == t.board && Move(t.board, "Down") == t.board
  {
    var t := Turn(b, direction, pick, isTwo);
    GameOverIffStuck(t.board);
  }

  /** A new game's board: two tiles, each a 2 or a 4, so every cell is a tile value or empty. */
  lemma InitialBoardTileValues(p1: nat, t1: bool, p2: nat, t2: bool)
    requires p1 < 16 && p2 < 15
    ensures AllTileValues(InitialBoard(p1, t1, p2, t2))
  {
    InitialBoardTiles(p1, t1, p2, t2);
    assert IsTileValue(2) && IsTileValue(4);
  }

  /**
   * The move on arrays: `move_left` runs the array engine; the other
   * directions apply numpy's `fliplr` and `rot90` around it, as values.
   * An unknown direction returns the copy unchanged.
   */
  method MoveArray(board: array2<int>, direction: string) returns (newBoard: array2<int>)
    requires Is4x4(board)
    ensures fresh(newBoard) && Is4x4(newBoard)
    ensures Grid(newBoard) == Move(Grid(board), direction)
  {
    if direction == "Left" {
      newBoard := MoveLeftArray(board);
    } else if direction == "Right" {
      var flipped := ToArray(FlipLR(Grid(board)));
      var moved := MoveLeftArray(flipped);
      newBoard := ToArray(FlipLR(Grid(moved)));
    } else if direction == "Up" {
      var turned := ToArray(Rot90Cw(Grid(board)));
      var moved := MoveLeftArray(turned);
      newBoard := ToArray(Rot90Ccw(Grid(moved)));
    } else if direction == "Down" {
      var turned := ToArray(Rot90Ccw(Grid(board)));
      var moved := MoveLeftArray(turned);
      newBoard := ToArray(Rot90Cw(Grid(moved)));
    } else {
      newBoard := ToArray(Grid(board));
    }
  }

  /** The page's session state: the board that lives across button presses. */
  class Session {
    var board: array2<int>

    /** The board is 4x4 and every cell is empty or a power of two. */
    ghost predicate Valid()
      reads this, board
    {
      Is4x4(board) && AllTileValues(Grid(board))
    }

    /** A new session starts from `initialize_board`. */
    constructor(p1: nat, t1: bool, p2: nat, t2: bool)
      requires p1 < 16 && p2 < 15
      ensures Valid()
      ensures Grid(board) == InitialBoard(p1, t1, p2, t2)
    {
      var initial := InitializeBoard(p1, t1, p2, t2);
      InitialBoardTileValues(p1, t1, p2, t2);
      ghost var start := Grid(initial);
      board := initial;
      new;
      assert Grid(board) == start;
    }

    /**
     * `update_board`: moves a copy of the board; if the copy differs, it
     * becomes the board and a tile is spawned into it; then reports whether
     * the game is over.
     */
    method UpdateBoard(direction: string, pick: nat, isTwo: bool) returns (gameOver: bool)
      requires Valid()
      requires TurnPick(Grid(board), direction, pick)
      modifies this
      ensures Valid()
      ensures TurnResult(Grid(board), gameOver) == Turn(old(Grid(board)), direction, pick, isTwo)
    {
      ghost var b := Grid(board);
      var newBoard := MoveArray(board, direction);
      if Grid(newBoard) != Grid(board) {
        board := newBoard;
        AddNewTile(board, pick, isTwo);
      }
      gameOver := IsGameOver(board);
      TurnKeepsTileValues(b, direction, pick, isTwo);
    }
  }
}
