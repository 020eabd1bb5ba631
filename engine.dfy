/**
 * The numpy board as a 4x4 `array2<int>`, and the array-level `compress`,
 * `merge` and `move_left`, each proved against the board functions of
 * module `Boards`.
 */
module Engine {
  import opened Lines
  import opened Boards

  predicate Is4x4(a: array2<int>) {
    a.Length0 == 4 && a.Length1 == 4
  }

  /** Row `r` of the array, as a value. */
  function RowOf(a: array2<int>, r: int): Row
    reads a
    requires Is4x4(a) && 0 <= r < 4
  {
    seq(4, j requires 0 <= j < 4 reads a => a[r, j])
  }

  /** The board an array holds. */
  function Grid(a: array2<int>): Board
    reads a
    requires Is4x4(a)
  {
    seq(4, i requires 0 <= i < 4 reads a => RowOf(a, i))
  }

  /** A fresh array holding the board `b`. */
  method ToArray(b: Board) returns (a: array2<int>)
    ensures fresh(a) && Is4x4(a)
    ensures Grid(a) == b
  {
    a := new int[4, 4]((i, j) => if 0 <= i < 4 && 0 <= j < 4 then b[i][j] else 0);
    forall i | 0 <= i < 4 ensures RowOf(a, i) == b[i] {
      assert forall j :: 0 <= j < 4 ==> RowOf(a, i)[j] == b[i][j];
    }
  }

  /**
   * `compress`: writes the non-zero cells of each row, in order, from column 0
   * of a fresh zero board. The argument is only read.
   */
  method Compress(board: array2<int>) returns (newBoard: array2<int>)
    requires Is4x4(board)
    ensures fresh(newBoard) && Is4x4(newBoard)
    ensures Grid(newBoard) == Compressed(Grid(board))
  {
    newBoard := new int[4, 4]((_, _) => 0);
    for row := 0 to 4
      invariant forall r :: 0 <= r < row ==> RowOf(newBoard, r) == CompressLine(RowOf(board, r))
      invariant forall r, c :: row <= r < 4 && 0 <= c < 4 ==> newBoard[r, c] == 0
    {
      ghost var line := RowOf(board, row);
      var pos := 0;
      for col := 0 to 4
        invariant pos == |NonZeros(line[..col])|
        invariant forall c :: 0 <= c < pos ==> newBoard[row, c] == NonZeros(line[..col])[c]
        invariant forall c :: pos <= c < 4 ==> newBoard[row, c] == 0
        invariant forall r :: 0 <= r < row ==> RowOf(newBoard, r) == CompressLine(RowOf(board, r))
        invariant forall r, c :: row < r < 4 && 0 <= c < 4 ==> newBoard[r, c] == 0
      {
        assert line[..col + 1] == line[..col] + [line[col]];
        NonZerosAppend(line[..col], [line[col]]);
        if board[row, col] != 0 {
          newBoard[row, pos] := board[row, col];
          pos := pos + 1;
        }
      }
      assert line[..4] == line;
      assert RowOf(newBoard, row) == CompressLine(line);
    }
    assert Grid(newBoard) == Compressed(Grid(board));
  }

  /**
   * `merge`: scans each row left to right in place; an equal non-zero pair at
   * columns `col` and `col + 1` doubles the left cell and empties the right
   * one. Returns the same array.
   */
  method Merge(board: array2<int>) returns (merged: array2<int>)
    requires Is4x4(board)
    modifies board
    ensures merged == board
    ensures Grid(board) == Merged(old(Grid(board)))
  {
    ghost var start := Grid(board);
    for row := 0 to 4
      invariant forall r :: 0 <= r < row ==> RowOf(board, r) == MergeLine(start[r])
      invariant forall r :: row <= r < 4 ==> RowOf(board, r) == start[r]
    {
      MergeRow(board, row);
    }
    merged := board;
    assert Grid(board) == Merged(start);
  }

  /** The inner loop of `merge`, over the columns of row `row`. */
  method MergeRow(board: array2<int>, row: int)
    requires Is4x4(board) && 0 <= row < 4
    modifies board
    ensures RowOf(board, row) == MergeLine(old(RowOf(board, row)))
    ensures forall r :: 0 <= r < 4 && r != row ==> RowOf(board, r) == old(RowOf(board, r))
  {
    ghost var line := RowOf(board, row);
    for col := 0 to 3
      invariant RowOf(board, row)[..col] + MergeLine(RowOf(board, row)[col..]) == MergeLine(line)
      invariant forall r, c :: 0 <= r < 4 && r != row && 0 <= c < 4 ==> board[r, c] == old(board[r, c])
    {
      ghost var s := RowOf(board, row);
      if board[row, col] == board[row, col + 1] && board[row, col] != 0 {
        MergeScanDouble(s, col);
        board[row, col] := board[row, col] * 2;
        board[row, col + 1] := 0;
        assert RowOf(board, row) == s[col := 2 * s[col]][col + 1 := 0];
      } else {
        MergeScanSkip(s, col);
      }
    }
    ghost var s := RowOf(board, row);
    assert s[..3] + s[3..] == s;
  }

  /** `move_left`: compress, merge, compress; the argument is only read. */
  method MoveLeftArray(board: array2<int>) returns (finalBoard: array2<int>)
    requires Is4x4(board)
    ensures fresh(finalBoard) && Is4x4(finalBoard)
    ensures Grid(finalBoard) == MoveLeft(Grid(board))
  {
    var compressedBoard := Compress(board);
    var mergedBoard := Merge(compressedBoard);
    finalBoard := Compress(mergedBoard);
  }
}
