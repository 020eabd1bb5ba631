/**
 * The 4x4 board as a value, the whole-board `compress` and `merge` rules,
 * the moves in the four directions, and what a move keeps.
 *
 * `FlipLR`, `Rot90Ccw` and `Rot90Cw` are the index maps of numpy's
 * `fliplr(m)`, `rot90(m, 1)` and `rot90(m, -1)` on a 4x4 grid. The moves are
 * written exactly as `app.py` composes them; the lemmas below say where
 * each one gathers the tiles.
 */
module Boards {
  import opened Lines

  type Row = s: seq<int> | |s| == 4 witness [0, 0, 0, 0]

  /** `b[r][c]` is the cell in row `r` (0 = top) and column `c` (0 = left). */
  type Board = b: seq<Row> | |b| == 4
    witness var z: Row := [0, 0, 0, 0]; [z, z, z, z]

  /** The all-empty board, `np.zeros((4, 4))`. */
  function Empty(): (b: Board)
    ensures forall r, c :: 0 <= r < 4 && 0 <= c < 4 ==> b[r][c] == 0
  {
    var z: Row := [0, 0, 0, 0];
    [z, z, z, z]
  }

  // ---------------------------------------------------------------------
  // Measures of a board

  /** Number of non-empty cells. */
  function TileCount(b: Board): nat {
    |NonZeros(b[0])| + |NonZeros(b[1])| + |NonZeros(b[2])| + |NonZeros(b[3])|
  }

  /** Sum of all cell values. */
  function Total(b: Board): int {
    Sum(b[0]) + Sum(b[1]) + Sum(b[2]) + Sum(b[3])
  }

  /** Every cell is empty or holds a power of two >= 2. */
  ghost predicate AllTileValues(b: Board) {
    forall r, c :: 0 <= r < 4 && 0 <= c < 4 ==> b[r][c] == 0 || IsTileValue(b[r][c])
  }

  function Ind(v: int): nat { if v != 0 then 1 else 0 }

  lemma RowCount(s: Row)
    ensures |NonZeros(s)| == Ind(s[0]) + Ind(s[1]) + Ind(s[2]) + Ind(s[3])
  {
    var s1, s2, s3 := s[1..], s[2..], s[3..];
    assert s1[1..] == s2 && s2[1..] == s3 && s3[1..] == [];
    assert |NonZeros(s3)| == Ind(s[3]);
    assert |NonZeros(s2)| == Ind(s[2]) + |NonZeros(s3)|;
    assert |NonZeros(s1)| == Ind(s[1]) + |NonZeros(s2)|;
  }

  lemma RowSum(s: Row)
    ensures Sum(s) == s[0] + s[1] + s[2] + s[3]
  {
    var s1, s2, s3 := s[1..], s[2..], s[3..];
    assert s1[1..] == s2 && s2[1..] == s3 && s3[1..] == [];
    assert Sum(s3) == s[3];
    assert Sum(s2) == s[2] + Sum(s3);
    assert Sum(s1) == s[1] + Sum(s2);
  }

  /** The tile count cell by cell. */
  lemma TileCountCells(b: Board)
    ensures TileCount(b) ==
      Ind(b[0][0]) + Ind(b[0][1]) + Ind(b[0][2]) + Ind(b[0][3]) +
      Ind(b[1][0]) + Ind(b[1][1]) + Ind(b[1][2]) + Ind(b[1][3]) +
      Ind(b[2][0]) + Ind(b[2][1]) + Ind(b[2][2]) + Ind(b[2][3]) +
      Ind(b[3][0]) + Ind(b[3][1]) + Ind(b[3][2]) + Ind(b[3][3])
  {
    RowCount(b[0]); RowCount(b[1]); RowCount(b[2]); RowCount(b[3]);
  }

  /** The total cell by cell. */
  lemma TotalCells(b: Board)
    ensures Total(b) ==
      b[0][0] + b[0][1] + b[0][2] + b[0][3] +
      b[1][0] + b[1][1] + b[1][2] + b[1][3] +
      b[2][0] + b[2][1] + b[2][2] + b[2][3] +
      b[3][0] + b[3][1] + b[3][2] + b[3][3]
  {
    RowSum(b[0]); RowSum(b[1]); RowSum(b[2]); RowSum(b[3]);
  }

  /** Two boards with the same cells are the same board. */
  lemma BoardExt(x: Board, y: Board)
    requires forall i, j :: 0 <= i < 4 && 0 <= j < 4 ==> x[i][j] == y[i][j]
    ensures x == y
  {
    forall i | 0 <= i < 4 ensures x[i] == y[i] {
      assert forall j :: 0 <= j < 4 ==> x[i][j] == y[i][j];
    }
  }

  /** The board `b` with the cell in row `r`, column `c` set to `v`. */
  function SetCell(b: Board, r: int, c: int, v: int): (s: Board)
    requires 0 <= r < 4 && 0 <= c < 4
    ensures forall i, j :: 0 <= i < 4 && 0 <= j < 4 ==> s[i][j] == if i == r && j == c then v else b[i][j]
  {
    b[r := b[r][c := v]]
  }

  /** Putting a tile into an empty cell adds one tile and its value. */
  lemma SetCellMeasures(b: Board, r: int, c: int, v: int)
    requires 0 <= r < 4 && 0 <= c < 4 && b[r][c] == 0 && v != 0
    ensures TileCount(SetCell(b, r, c, v)) == TileCount(b) + 1
    ensures Total(SetCell(b, r, c, v)) == Total(b) + v
  {
    var s := SetCell(b, r, c, v);
    RowCount(b[r]);
    RowCount(s[r]);
    RowSum(b[r]);
    RowSum(s[r]);
    assert forall i :: 0 <= i < 4 && i != r ==> s[i] == b[i];
  }

  // ---------------------------------------------------------------------
  // compress, merge and move_left on the whole board

  /** `compress`: each row packed to the left, in a fresh board. */
  function Compressed(b: Board): Board {
    seq(4, i requires 0 <= i < 4 => CompressLine(b[i]))
  }

  /** `merge`: the left-to-right scan applied to each row. */
  function Merged(b: Board): Board {
    seq(4, i requires 0 <= i < 4 => MergeLine(b[i]))
  }

  /** `move_left`: compress, merge, compress. */
  function MoveLeft(b: Board): Board {
    Compressed(Merged(Compressed(b)))
  }

  // ---------------------------------------------------------------------
  // The coordinate transforms

  /** `np.fliplr(m)`: `[i][j]` is `m[i][3 - j]`. */
  function FlipLR(m: Board): Board {
    seq(4, i requires 0 <= i < 4 => seq(4, j requires 0 <= j < 4 => m[i][3 - j]))
  }

  /** `np.rot90(m, 1)`, a quarter turn counterclockwise: `[i][j]` is `m[j][3 - i]`. */
  function Rot90Ccw(m: Board): Board {
    seq(4, i requires 0 <= i < 4 => seq(4, j requires 0 <= j < 4 => m[j][3 - i]))
  }

  /** `np.rot90(m, -1)`, a quarter turn clockwise: `[i][j]` is `m[3 - j][i]`. */
  function Rot90Cw(m: Board): Board {
    seq(4, i requires 0 <= i < 4 => seq(4, j requires 0 <= j < 4 => m[3 - j][i]))
  }

  /** `move_right`. */
  function MoveRight(b: Board): Board {
    FlipLR(MoveLeft(FlipLR(b)))
  }

  /** `move_up` as written: rotate clockwise, move left, rotate back. */
  function MoveUp(b: Board): Board {
    Rot90Ccw(MoveLeft(Rot90Cw(b)))
  }

  /** `move_down` as written: rotate counterclockwise, move left, rotate back. */
  function MoveDown(b: Board): Board {
    Rot90Cw(MoveLeft(Rot90Ccw(b)))
  }

  // ---------------------------------------------------------------------
  // The transforms undo each other

  lemma FlipLRInvolution(m: Board)
    ensures FlipLR(FlipLR(m)) == m
  {
    var f := FlipLR(FlipLR(m));
    forall i | 0 <= i < 4 ensures f[i] == m[i] {
      assert forall j :: 0 <= j < 4 ==> f[i][j] == m[i][j];
    }
  }

  lemma RotationsInverse(m: Board)
    ensures Rot90Ccw(Rot90Cw(m)) == m
    ensures Rot90Cw(Rot90Ccw(m)) == m
  {
    var f := Rot90Ccw(Rot90Cw(m));
    forall i | 0 <= i < 4 ensures f[i] == m[i] {
      assert forall j :: 0 <= j < 4 ==> f[i][j] == m[i][j];
    }
    var g := Rot90Cw(Rot90Ccw(m));
    forall i | 0 <= i < 4 ensures g[i] == m[i] {
      assert forall j :: 0 <= j < 4 ==> g[i][j] == m[i][j];
    }
  }

  // ---------------------------------------------------------------------
  // Lines of a board, read from the edge the tiles are pushed towards

  /** Row `i` read from right to left. */
  function RowLeftward(b: Board, i: int): Row
    requires 0 <= i < 4
  {
    [b[i][3], b[i][2], b[i][1], b[i][0]]
  }

  /** Column `c` read from the bottom row (3) to the top row (0). */
  function ColumnUpward(b: Board, c: int): Row
    requires 0 <= c < 4
  {
    [b[3][c], b[2][c], b[1][c], b[0][c]]
  }

  /** Column `c` read from the top row (0) to the bottom row (3). */
  function ColumnDownward(b: Board, c: int): Row
    requires 0 <= c < 4
  {
    [b[0][c], b[1][c], b[2][c], b[3][c]]
  }

  /**
   * `move_left` moves every row on its own, towards column 0, and the result
   * is the reference slide of the row's tiles.
   */
  lemma MoveLeftRows(b: Board)
    ensures forall i :: 0 <= i < 4 ==> MoveLeft(b)[i] == MoveLine(b[i])
    ensures forall i :: 0 <= i < 4 ==> MoveLeft(b)[i] == Pad(Slide(NonZeros(b[i])), 4)
  {
    forall i | 0 <= i < 4 ensures MoveLeft(b)[i] == Pad(Slide(NonZeros(b[i])), 4) {
      MoveLineSlides(b[i]);
    }
  }

  /** `move_right` moves every row on its own, towards column 3. */
  lemma MoveRightRows(b: Board)
    ensures forall i :: 0 <= i < 4 ==> RowLeftward(MoveRight(b), i) == MoveLine(RowLeftward(b, i))
  {
    var f := FlipLR(b);
    forall i | 0 <= i < 4 ensures RowLeftward(MoveRight(b), i) == MoveLine(RowLeftward(b, i)) {
      assert f[i] == RowLeftward(b, i);
    }
  }

  /**
   * `move_up`, as `app.py` composes it, moves every column on its own
   * towards row 3, the bottom row.
   */
  lemma MoveUpColumns(b: Board)
    ensures forall c :: 0 <= c < 4 ==> ColumnUpward(MoveUp(b), c) == MoveLine(ColumnUpward(b, c))
  {
    var t := Rot90Cw(b);
    forall c | 0 <= c < 4 ensures ColumnUpward(MoveUp(b), c) == MoveLine(ColumnUpward(b, c)) {
      assert t[c] == ColumnUpward(b, c);
    }
  }

  /**
   * `move_down`, as `app.py` composes it, moves every column on its own
   * towards row 0, the top row.
   */
  lemma MoveDownColumns(b: Board)
    ensures forall c :: 0 <= c < 4 ==> ColumnDownward(MoveDown(b), c) == MoveLine(ColumnDownward(b, c))
  {
    var t := Rot90Ccw(b);
    forall c | 0 <= c < 4 ensures ColumnDownward(MoveDown(b), c) == MoveLine(ColumnDownward(b, c)) {
      assert t[3 - c] == ColumnDownward(b, c);
    }
  }

  /**
   * Where each move leaves the tiles: along the line a move works on, an
   * empty cell has only empty cells beyond it, seen from the edge the move
   * pushes towards. `move_left` gathers the tiles at column 0.
   */
  lemma MoveLeftGathers(b: Board)
    ensures forall r, c, c' :: 0 <= r < 4 && 0 <= c < c' < 4 && MoveLeft(b)[r][c] == 0 ==> MoveLeft(b)[r][c'] == 0
  {
    forall r | 0 <= r < 4 ensures Packed(MoveLeft(b)[r]) {
      MoveLineTiles(b[r]);
    }
  }

  /** `move_right` gathers the tiles at column 3. */
  lemma MoveRightGathers(b: Board)
    ensures forall r, c, c' :: 0 <= r < 4 && 0 <= c' < c < 4 && MoveRight(b)[r][c] == 0 ==> MoveRight(b)[r][c'] == 0
  {
    MoveRightRows(b);
    forall r, c, c' | 0 <= r < 4 && 0 <= c' < c < 4 && MoveRight(b)[r][c] == 0 ensures MoveRight(b)[r][c'] == 0 {
      MoveLineTiles(RowLeftward(b, r));
      var line := RowLeftward(MoveRight(b), r);
      assert line[3 - c] == 0 && line[3 - c'] == MoveRight(b)[r][c'];
    }
  }

  /** `move_up`, as `app.py` composes it, gathers the tiles at row 3, the bottom row. */
  lemma MoveUpGathers(b: Board)
    ensures forall r, r', c :: 0 <= r' < r < 4 && 0 <= c < 4 && MoveUp(b)[r][c] == 0 ==> MoveUp(b)[r'][c] == 0
  {
    MoveUpColumns(b);
    forall r, r', c | 0 <= r' < r < 4 && 0 <= c < 4 && MoveUp(b)[r][c] == 0 ensures MoveUp(b)[r'][c] == 0 {
      MoveLineTiles(ColumnUpward(b, c));
      var line := ColumnUpward(MoveUp(b), c);
      assert line[3 - r] == 0 && line[3 - r'] == MoveUp(b)[r'][c];
    }
  }

  /** `move_down`, as `app.py` composes it, gathers the tiles at row 0, the top row. */
  lemma MoveDownGathers(b: Board)
    ensures forall r, r', c :: 0 <= r < r' < 4 && 0 <= c < 4 && MoveDown(b)[r][c] == 0 ==> MoveDown(b)[r'][c] == 0
  {
    MoveDownColumns(b);
    forall r, r', c | 0 <= r < r' < 4 && 0 <= c < 4 && MoveDown(b)[r][c] == 0 ensures MoveDown(b)[r'][c] == 0 {
      MoveLineTiles(ColumnDownward(b, c));
      var line := ColumnDownward(MoveDown(b), c);
      assert line[r] == 0 && line[r'] == MoveDown(b)[r'][c];
    }
  }

  // ---------------------------------------------------------------------
  // What a move keeps

  lemma TransformsKeepMeasures(m: Board)
    ensures Total(FlipLR(m)) == Total(m) && TileCount(FlipLR(m)) == TileCount(m)
    ensures Total(Rot90Ccw(m)) == Total(m) && TileCount(Rot90Ccw(m)) == TileCount(m)
    ensures Total(Rot90Cw(m)) == Total(m) && TileCount(Rot90Cw(m)) == TileCount(m)
    ensures AllTileValues(m) ==> AllTileValues(FlipLR(m)) && AllTileValues(Rot90Ccw(m)) && AllTileValues(Rot90Cw(m))
  {
    TotalCells(m); TileCountCells(m);
    TotalCells(FlipLR(m)); TileCountCells(FlipLR(m));
    TotalCells(Rot90Ccw(m)); TileCountCells(Rot90Ccw(m));
    TotalCells(Rot90Cw(m)); TileCountCells(Rot90Cw(m));
  }

  lemma MoveLeftKeeps(b: Board)
    ensures Total(MoveLeft(b)) == Total(b)
    ensures TileCount(MoveLeft(b)) <= TileCount(b)
    ensures AllTileValues(b) ==> AllTileValues(MoveLeft(b))
  {
    var m := MoveLeft(b);
    forall i | 0 <= i < 4 ensures Sum(m[i]) == Sum(b[i]) && |NonZeros(m[i])| <= |NonZeros(b[i])| {
      MoveLineSum(b[i]);
      MoveLineTiles(b[i]);
    }
    if AllTileValues(b) {
      forall r, c | 0 <= r < 4 && 0 <= c < 4 ensures m[r][c] == 0 || IsTileValue(m[r][c]) {
        assert AllTiles(b[r]) by {
          forall j | 0 <= j < 4 ensures b[r][j] == 0 || IsTileValue(b[r][j]) { }
        }
        MoveLineKeepsTiles(b[r]);
      }
    }
  }

  /**
   * Every move keeps the sum of the cell values (v + v becomes 2v), never
   * adds tiles, and keeps every cell empty or a power of two >= 2.
   */
  lemma MovesKeep(b: Board)
    ensures Total(MoveLeft(b)) == Total(b) && TileCount(MoveLeft(b)) <= TileCount(b)
    ensures Total(MoveRight(b)) == Total(b) && TileCount(MoveRight(b)) <= TileCount(b)
    ensures Total(MoveUp(b)) == Total(b) && TileCount(MoveUp(b)) <= TileCount(b)
    ensures Total(MoveDown(b)) == Total(b) && TileCount(MoveDown(b)) <= TileCount(b)
    ensures AllTileValues(b) ==>
      AllTileValues(MoveLeft(b)) && AllTileValues(MoveRight(b)) &&
      AllTileValues(MoveUp(b)) && AllTileValues(MoveDown(b))
  {
    MoveLeftKeeps(b);
    TransformsKeepMeasures(b);
    MoveLeftKeeps(FlipLR(b));
    TransformsKeepMeasures(MoveLeft(FlipLR(b)));
    MoveLeftKeeps(Rot90Cw(b));
    TransformsKeepMeasures(MoveLeft(Rot90Cw(b)));
    MoveLeftKeeps(Rot90Ccw(b));
    TransformsKeepMeasures(MoveLeft(Rot90Ccw(b)));
  }

  // ---------------------------------------------------------------------
  // A move that changes the board leaves an empty cell

  lemma FullBoard(b: Board)
    ensures TileCount(b) <= 16
    ensures TileCount(b) == 16 <==> forall r, c :: 0 <= r < 4 && 0 <= c < 4 ==> b[r][c] != 0
  {
    TileCountCells(b);
  }

  lemma MoveLeftChangeFreesCell(b: Board)
    requires MoveLeft(b) != b
    ensures TileCount(MoveLeft(b)) < 16
  {
    MoveLeftKeeps(b);
    FullBoard(b);
    FullBoard(MoveLeft(b));
    if TileCount(MoveLeft(b)) == 16 {
      assert TileCount(b) == 16;
      forall i | 0 <= i < 4 ensures MoveLeft(b)[i] == b[i] {
        assert AllNonZero(b[i]) by {
          forall j | 0 <= j < 4 ensures b[i][j] != 0 { }
        }
        assert AllNonZero(MoveLeft(b)[i]) by {
          forall j | 0 <= j < 4 ensures MoveLeft(b)[i][j] != 0 { }
        }
        MoveLineFull(b[i]);
      }
      assert false;
    }
  }

  /**
   * Whenever a move changes the board, the moved board has an empty cell, so
   * the spawn that follows in a turn always finds a free cell.
   */
  lemma MoveChangeFreesCell(b: Board)
    ensures MoveLeft(b) != b ==> TileCount(MoveLeft(b)) < 16
    ensures MoveRight(b) != b ==> TileCount(MoveRight(b)) < 16
    ensures MoveUp(b) != b ==> TileCount(MoveUp(b)) < 16
    ensures MoveDown(b) != b ==> TileCount(MoveDown(b)) < 16
  {
    if MoveLeft(b) != b { MoveLeftChangeFreesCell(b); }
    if MoveRight(b) != b {
      FlipLRInvolution(b);
      MoveLeftChangeFreesCell(FlipLR(b));
      TransformsKeepMeasures(MoveLeft(FlipLR(b)));
    }
    if MoveUp(b) != b {
      RotationsInverse(b);
      MoveLeftChangeFreesCell(Rot90Cw(b));
      TransformsKeepMeasures(MoveLeft(Rot90Cw(b)));
    }
    if MoveDown(b) != b {
      RotationsInverse(b);
      MoveLeftChangeFreesCell(Rot90Ccw(b));
      TransformsKeepMeasures(MoveLeft(Rot90Ccw(b)));
    }
  }
}
