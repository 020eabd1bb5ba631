/**
 * The end of a game: `is_game_over` holds when no cell is empty and no two
 * neighbouring cells, in a row or in a column, hold the same value. The
 * lemmas show that this is exactly the situation in which a board with at
 * least one tile can no longer be changed by any of the four moves.
 */
module Endgame {
  import opened Lines
  import opened Boards
  import opened Engine

  /** `np.any(board == 0)`. */
  predicate HasEmptyCell(b: Board) {
    exists r, c :: 0 <= r < 4 && 0 <= c < 4 && b[r][c] == 0
  }

  /** The condition `is_game_over` returns. */
  predicate GameOver(b: Board) {
    && !HasEmptyCell(b)
    && (forall r :: 0 <= r < 4 ==> NoPair(b[r]))
    && (forall c :: 0 <= c < 4 ==> NoPair(ColumnDownward(b, c)))
  }

  /**
   * `is_game_over`: first looks for an empty cell, then scans each row for
   * two equal neighbours, then each column; the first hit answers false.
   */
  method IsGameOver(board: array2<int>) returns (over: bool)
    requires Is4x4(board)
    ensures over == GameOver(Grid(board))
  {
    ghost var b := Grid(board);
    if HasEmptyCell(Grid(board)) {
      return false;
    }
    for r := 0 to 4
      invariant forall i :: 0 <= i < r ==> NoPair(b[i])
    {
      for c := 0 to 3
        invariant forall j :: 0 <= j < c ==> b[r][j] != b[r][j + 1]
      {
        if board[r, c] == board[r, c + 1] {
          assert !NoPair(b[r]) by { assert b[r][c] == b[r][c + 1]; }
          return false;
        }
      }
    }
    for r := 0 to 3
      invariant forall c :: 0 <= c < 4 ==> forall i :: 0 <= i < r ==> ColumnDownward(b, c)[i] != ColumnDownward(b, c)[i + 1]
    {
      for c := 0 to 4
        invariant forall j :: 0 <= j < c ==> ColumnDownward(b, j)[r] != ColumnDownward(b, j)[r + 1]
        invariant forall j :: 0 <= j < 4 ==> forall i :: 0 <= i < r ==> ColumnDownward(b, j)[i] != ColumnDownward(b, j)[i + 1]
      {
        if board[r, c] == board[r + 1, c] {
          assert !NoPair(ColumnDownward(b, c)) by {
            assert ColumnDownward(b, c)[r] == ColumnDownward(b, c)[r + 1];
          }
          return false;
        }
      }
    }
    return true;
  }

  /** On a line of four, `NoPair` compares the three neighbouring pairs. */
  lemma NoPairRow(s: Row)
    ensures NoPair(s) <==> s[0] != s[1] && s[1] != s[2] && s[2] != s[3]
  {
    if s[0] != s[1] && s[1] != s[2] && s[2] != s[3] {
      forall i | 0 <= i < 3 ensures s[i] != s[i + 1] {
        if i == 1 { } else if i == 2 { }
      }
    }
  }

  /** A finished game has a tile in every cell. */
  lemma GameOverFull(b: Board)
    requires GameOver(b)
    ensures forall r, c :: 0 <= r < 4 && 0 <= c < 4 ==> b[r][c] != 0
  {
  }

  /** A finished game stays finished when it is flipped or rotated. */
  lemma GameOverTransforms(b: Board)
    requires GameOver(b)
    ensures GameOver(FlipLR(b))
    ensures GameOver(Rot90Cw(b))
    ensures GameOver(Rot90Ccw(b))
  {
    GameOverFull(b);
    forall i | 0 <= i < 4
      ensures b[i][0] != b[i][1] && b[i][1] != b[i][2] && b[i][2] != b[i][3]
      ensures b[0][i] != b[1][i] && b[1][i] != b[2][i] && b[2][i] != b[3][i]
    {
      NoPairRow(b[i]);
      NoPairRow(ColumnDownward(b, i));
    }
    var f, cw, ccw := FlipLR(b), Rot90Cw(b), Rot90Ccw(b);
    forall i | 0 <= i < 4 ensures NoPair(f[i]) && NoPair(ColumnDownward(f, i)) {
      NoPairRow(f[i]);
      NoPairRow(ColumnDownward(f, i));
    }
    forall i | 0 <= i < 4 ensures NoPair(cw[i]) && NoPair(ColumnDownward(cw, i)) {
      NoPairRow(cw[i]);
      NoPairRow(ColumnDownward(cw, i));
    }
    forall i | 0 <= i < 4 ensures NoPair(ccw[i]) && NoPair(ColumnDownward(ccw, i)) {
      NoPairRow(ccw[i]);
      NoPairRow(ColumnDownward(ccw, i));
    }
  }

  /** On a finished game `move_left` changes nothing. */
  lemma GameOverLeftFixed(b: Board)
    requires GameOver(b)
    ensures MoveLeft(b) == b
  {
    MoveLeftRows(b);
    forall i | 0 <= i < 4 ensures MoveLine(b[i]) == b[i] {
      GameOverFull(b);
      assert AllNonZero(b[i]);
      CompressLineOfFull(b[i]);
      MergeLineNoPair(b[i]);
    }
  }

  /** A full line of four without equal neighbours is kept by a move. */
  lemma FullNoPairLineFixed(s: Row)
    requires AllNonZero(s) && NoPair(s)
    ensures MoveLine(s) == s
  {
    CompressLineOfFull(s);
    MergeLineNoPair(s);
  }

  /**
   * A board with no empty cell and no two equal neighbours in any row is
   * kept by `move_left` and by `move_right`, whatever its columns hold.
   */
  lemma FullNoRowPairFixed(b: Board)
    requires forall r, c :: 0 <= r < 4 && 0 <= c < 4 ==> b[r][c] != 0
    requires forall r :: 0 <= r < 4 ==> NoPair(b[r])
    ensures MoveLeft(b) == b && MoveRight(b) == b
  {
    MoveLeftRows(b);
    MoveRightRows(b);
    forall i | 0 <= i < 4
      ensures MoveLeft(b)[i] == b[i] && RowLeftward(MoveRight(b), i) == RowLeftward(b, i)
    {
      assert AllNonZero(b[i]);
      FullNoPairLineFixed(b[i]);
      var w := RowLeftward(b, i);
      assert AllNonZero(w);
      NoPairRow(b[i]);
      NoPairRow(w);
      FullNoPairLineFixed(w);
    }
    var m := MoveRight(b);
    forall i | 0 <= i < 4 ensures m[i] == b[i] {
      assert RowLeftward(m, i) == RowLeftward(b, i);
      assert m[i][0] == b[i][0] && m[i][1] == b[i][1] && m[i][2] == b[i][2] && m[i][3] == b[i][3];
    }
  }

  /**
   * A board with no empty cell and no two equal neighbours in any column is
   * kept by `move_up` and by `move_down`, whatever its rows hold.
   */
  lemma FullNoColumnPairFixed(b: Board)
    requires forall r, c :: 0 <= r < 4 && 0 <= c < 4 ==> b[r][c] != 0
    requires forall c :: 0 <= c < 4 ==> NoPair(ColumnDownward(b, c))
    ensures MoveUp(b) == b && MoveDown(b) == b
  {
    MoveUpColumns(b);
    MoveDownColumns(b);
    forall c | 0 <= c < 4
      ensures ColumnDownward(MoveDown(b), c) == ColumnDownward(b, c)
      ensures ColumnUpward(MoveUp(b), c) == ColumnUpward(b, c)
    {
      var d := ColumnDownward(b, c);
      var u := ColumnUpward(b, c);
      assert AllNonZero(d) && AllNonZero(u);
      NoPairRow(d);
      NoPairRow(u);
      FullNoPairLineFixed(d);
      FullNoPairLineFixed(u);
    }
    var up, down := MoveUp(b), MoveDown(b);
    forall r | 0 <= r < 4 ensures up[r] == b[r] && down[r] == b[r] {
      forall c | 0 <= c < 4 ensures up[r][c] == b[r][c] && down[r][c] == b[r][c] {
        assert ColumnUpward(up, c) == ColumnUpward(b, c);
        assert ColumnDownward(down, c) == ColumnDownward(b, c);
      }
    }
  }

  /** On a finished game none of the four moves changes anything. */
  lemma GameOverMovesAreNoOps(b: Board)
    requires GameOver(b)
    ensures MoveLeft(b) == b && MoveRight(b) == b && MoveUp(b) == b && MoveDown(b) == b
  {
    GameOverLeftFixed(b);
    GameOverTransforms(b);
    GameOverLeftFixed(FlipLR(b));
    FlipLRInvolution(b);
    GameOverLeftFixed(Rot90Cw(b));
    GameOverLeftFixed(Rot90Ccw(b));
    RotationsInverse(b);
  }

  /** A line of four that is packed from both ends is either full or empty. */
  lemma PackedBothWays(s: Row)
    requires Packed(s) && Packed([s[3], s[2], s[1], s[0]])
    ensures s[0] == 0 || s[1] == 0 || s[2] == 0 || s[3] == 0 ==> s == [0, 0, 0, 0]
  {
    var t := [s[3], s[2], s[1], s[0]];
    if s[0] == 0 || s[1] == 0 || s[2] == 0 || s[3] == 0 {
      var k :| 0 <= k < 4 && s[k] == 0;
      forall j | 0 <= j < 4 ensures s[j] == 0 {
        if j < k {
          assert t[3 - k] == 0 && t[3 - j] == s[j];
        }
      }
    }
  }

  /** When no move changes the board, each row and column is packed towards both of its ends. */
  lemma FixedMovesPack(b: Board)
    requires MoveLeft(b) == b && MoveRight(b) == b && MoveUp(b) == b && MoveDown(b) == b
    ensures forall i :: 0 <= i < 4 ==> Packed(b[i]) && Packed(RowLeftward(b, i))
    ensures forall c :: 0 <= c < 4 ==> Packed(ColumnDownward(b, c)) && Packed(ColumnUpward(b, c))
  {
    MoveLeftRows(b);
    MoveRightRows(b);
    MoveUpColumns(b);
    MoveDownColumns(b);
    forall i | 0 <= i < 4 ensures Packed(b[i]) && Packed(RowLeftward(b, i)) {
      MoveLineTiles(b[i]);
      MoveLineTiles(RowLeftward(b, i));
    }
    forall c | 0 <= c < 4 ensures Packed(ColumnDownward(b, c)) && Packed(ColumnUpward(b, c)) {
      MoveLineTiles(ColumnDownward(b, c));
      MoveLineTiles(ColumnUpward(b, c));
    }
  }

  /**
   * A board whose rows and columns are all packed from both ends and that
   * has a tile is full: the tile fills its row, and that row fills every
   * column in the same way.
   */
  lemma PackedWithTileIsFull(b: Board, r0: int, c0: int)
    requires 0 <= r0 < 4 && 0 <= c0 < 4 && b[r0][c0] != 0
    requires forall i :: 0 <= i < 4 ==> Packed(b[i]) && Packed(RowLeftward(b, i))
    requires forall c :: 0 <= c < 4 ==> Packed(ColumnDownward(b, c)) && Packed(ColumnUpward(b, c))
    ensures forall r, c :: 0 <= r < 4 && 0 <= c < 4 ==> b[r][c] != 0
  {
    assert RowLeftward(b, r0) == [b[r0][3], b[r0][2], b[r0][1], b[r0][0]];
    PackedBothWays(b[r0]);
    forall r, c | 0 <= r < 4 && 0 <= c < 4 ensures b[r][c] != 0 {
      var col := ColumnDownward(b, c);
      assert ColumnUpward(b, c) == [col[3], col[2], col[1], col[0]];
      PackedBothWays(col);
      assert col[r0] != 0;
      assert col[r] == b[r][c];
    }
  }

  /** A full board whose rows and columns a move keeps has no two equal neighbours. */
  lemma FixedFullNoPairs(b: Board)
    requires forall r, c :: 0 <= r < 4 && 0 <= c < 4 ==> b[r][c] != 0
    requires forall i :: 0 <= i < 4 ==> MoveLine(b[i]) == b[i]
    requires forall c :: 0 <= c < 4 ==> MoveLine(ColumnDownward(b, c)) == ColumnDownward(b, c)
    ensures forall i :: 0 <= i < 4 ==> NoPair(b[i])
    ensures forall c :: 0 <= c < 4 ==> NoPair(ColumnDownward(b, c))
  {
    forall i | 0 <= i < 4 ensures NoPair(b[i]) {
      assert AllNonZero(b[i]);
      MoveLineFixedNoPair(b[i]);
    }
    forall c | 0 <= c < 4 ensures NoPair(ColumnDownward(b, c)) {
      assert AllNonZero(ColumnDownward(b, c));
      MoveLineFixedNoPair(ColumnDownward(b, c));
    }
  }

  /**
   * A board with a tile on which no move changes anything is a finished
   * game: it is full, and a full line that a move keeps has no two equal
   * neighbours.
   */
  lemma StuckIsGameOver(b: Board)
    requires TileCount(b) > 0
    requires MoveLeft(b) == b && MoveRight(b) == b && MoveUp(b) == b && MoveDown(b) == b
    ensures GameOver(b)
  {
    TileCountCells(b);
    var r0, c0 :| 0 <= r0 < 4 && 0 <= c0 < 4 && b[r0][c0] != 0;
    FixedMovesPack(b);
    PackedWithTileIsFull(b, r0, c0);
    MoveLeftRows(b);
    MoveDownColumns(b);
    FixedFullNoPairs(b);
  }

  /**
   * The game is over exactly when the board holds a tile and none of the
   * four moves changes it.
   */
  lemma GameOverIffStuck(b: Board)
    ensures GameOver(b) <==>
      TileCount(b) > 0 && MoveLeft(b) == b && MoveRight(b) == b && MoveUp(b) == b && MoveDown(b) == b
  {
    if GameOver(b) {
      GameOverMovesAreNoOps(b);
      TileCountCells(b);
      GameOverFull(b);
    } else if TileCount(b) > 0 && MoveLeft(b) == b && MoveRight(b) == b && MoveUp(b) == b && MoveDown(b) == b {
      StuckIsGameOver(b);
    }
  }
}
