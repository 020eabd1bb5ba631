# 2048 board engine in Dafny

This project models the board engine of a one-file 2048 game (`app.py`) and
proves properties of the model. The engine covers:

- the 4x4 grid of integer cells, where 0 is an empty cell;
- the `compress`, `merge` and `move_left` rules;
- the three other directions, which reduce to `move_left` through numpy's
  `fliplr` and `rot90`;
- spawning a random 2 or 4 into an empty cell;
- setting up a new game;
- the game-over test;
- the board logic of one button press, `update_board`.

The model has six modules, one per file:

| file | module | what it holds |
|---|---|---|
| `lines.dfy` | `Lines` | The rules on one line of cells. `CompressLine`, `MergeLine` (the left-to-right in-place scan) and `MoveLine` model the code. `Slide` is an independent reference definition of a 2048 move, in which every tile merges at most once. |
| `board.dfy` | `Boards` | The board as a value, `Board = seq<Row>`, with its measures: tile count and total. It defines numpy's `fliplr`, `rot90(m, 1)` and `rot90(m, -1)` as index maps, and the four moves composed exactly as the code composes them. |
| `engine.dfy` | `Engine` | `compress`, `merge` and `move_left` as methods over `array2<int>`, proved against the functions of `Boards`. `Grid(a)` reads an array as a `Board`. |
| `spawn.dfy` | `Spawning` | The row-major list of empty cells, `add_new_tile` (as a function and as an in-place method), and `initialize_board`. |
| `gameover.dfy` | `Endgame` | The `is_game_over` predicate, its array method, and the proof that game over means exactly "a board with a tile that no move changes". |
| `turn.dfy` | `Game` | `update_board` as a value function `Turn` and as the method of a `Session` class. The class holds the board that the page keeps in its session state. |

Randomness enters as two parameters:

- `pick` is the index that `random.choice` returns into the list of empty
  cells;
- `isTwo` is the outcome of `random.random() < 0.9`. The new tile is 2 when
  it is true and 4 otherwise.

Directions are modelled as the code writes them. Under numpy's index
conventions, `move_up` (app.py:44-45) gathers the tiles at row 3, the bottom
row, and `move_down` (app.py:47-48) gathers them at row 0, the top row.
`Boards.MoveUpGathers` and `Boards.MoveDownGathers` state this.

The code ignores any direction other than the four names: the board is left
unchanged and no tile is spawned. The model does the same and does not
reject such a direction.

## Model

| member | source | states |
|---|---|---|
| `Lines.CompressLine` | app.py:17-25 | Definition of `compress` on one row: the row's tiles in order, then empty cells. Its only ensures is that the length is kept. |
| `Lines.MergeLine` | app.py:27-33 | Definition of the left-to-right merge scan on one row. Its only ensures is that the length is kept. |
| `Lines.MoveLine` | app.py:35-39 | Definition of `move_left` on one row: compress, merge, compress. Its only ensures is that the length is kept. |
| `Lines.CompressLinePacks` | app.py:17-25 | Compress keeps a row's tiles, in their order, and leaves every empty cell after every tile. |
| `Lines.CompressLineIdempotent` | app.py:17-25 | Compressing a compressed row changes nothing. |
| `Lines.CompressLineOfFull` | app.py:17-25 | A row with no empty cell is unchanged by compress. |
| `Lines.CompressLineSum` | app.py:17-25 | Compress keeps the sum of a row. |
| `Lines.MergeLineEmptiesPartner` | app.py:30-32 | When the first two cells are equal and non-zero, merge doubles the first and empties the second. |
| `Lines.MergeScanDouble` | app.py:29-32 | A merging step at column `col` keeps the scan invariant "cells before `col` are final, and the rest is still to be merged". |
| `Lines.MergeScanSkip` | app.py:29-30 | A non-merging step keeps the same scan invariant. |
| `Lines.MergeLineNoPair` | app.py:30 | A row without two equal non-zero neighbours is unchanged by merge. |
| `Lines.MergeLineSum` | app.py:27-33 | Merge keeps the sum of a row. |
| `Lines.MergeLineOfPacked` | app.py:27-33 | On a compressed row, the tiles merge leaves are the reference slide of the row's tiles, so no cell merges twice. |
| `Lines.MergeLineFull` | app.py:27-33 | If merge leaves a full row full, it changed nothing. |
| `Lines.MoveLineSlides` | app.py:35-39 | `move_left` on a row equals the reference slide of its tiles, padded with empty cells. |
| `Lines.MoveLineExamples` | app.py:35-39 | `[2,2,2,2]` and `[2,0,2,4]` both become `[4,4,0,0]`: no cell is used twice. |
| `Lines.MoveLineSum` | app.py:35-39 | A move keeps the sum of a row. |
| `Lines.MoveLineTiles` | app.py:35-39 | A move never adds a tile to a row, its tiles are the slide of the old tiles, and its empty cells come last. |
| `Lines.MoveLineKeepsTiles` | app.py:35-39 | If every cell of a row is empty or a power of two (at least 2), the moved row is too. |
| `Lines.MoveLineFull` | app.py:35-39 | If a move leaves a full row full, it changed nothing. |
| `Lines.MoveLineFixedNoPair` | app.py:35-39 | A full row that a move leaves unchanged has no two equal neighbours. |
| `Boards.Compressed` | app.py:17-25 | Definition: `compress` applied to every row of the board. |
| `Boards.Merged` | app.py:27-33 | Definition: `merge` applied to every row of the board. |
| `Boards.MoveLeft` | app.py:35-39 | Definition: compress, merge, compress on the board. |
| `Boards.FlipLR` | app.py:42 | Definition: numpy's `fliplr` as the index map `m[i][3 - j]`. |
| `Boards.Rot90Ccw` | app.py:44-48 | Definition: numpy's `rot90(m, 1)` as the index map `m[j][3 - i]`. |
| `Boards.Rot90Cw` | app.py:44-48 | Definition: numpy's `rot90(m, -1)` as the index map `m[3 - j][i]`. |
| `Boards.MoveRight` | app.py:41-42 | Definition: `fliplr` of `move_left` of `fliplr`. |
| `Boards.MoveUp` | app.py:44-45 | Definition: `rot90(., 1)` of `move_left` of `rot90(., -1)`. |
| `Boards.MoveDown` | app.py:47-48 | Definition: `rot90(., -1)` of `move_left` of `rot90(., 1)`. |
| `Boards.SetCellMeasures` | app.py:15 | Writing a tile `v` into an empty cell adds one tile and adds `v` to the total. |
| `Boards.FlipLRInvolution` | app.py:41-42 | `fliplr` undoes itself. |
| `Boards.RotationsInverse` | app.py:44-48 | `rot90(., 1)` and `rot90(., -1)` undo each other. |
| `Boards.MoveLeftRows` | app.py:35-39 | `move_left` acts row by row, and each row becomes the reference slide of its tiles. |
| `Boards.MoveRightRows` | app.py:41-42 | `move_right` moves every row read from right to left. |
| `Boards.MoveUpColumns` | app.py:44-45 | `move_up` moves every column read from row 3 up to row 0. |
| `Boards.MoveDownColumns` | app.py:47-48 | `move_down` moves every column read from row 0 down to row 3. |
| `Boards.MoveLeftGathers` | app.py:35-39 | After `move_left`, every empty cell of a row lies to the right of every tile. |
| `Boards.MoveRightGathers` | app.py:41-42 | After `move_right`, every empty cell of a row lies to the left of every tile. |
| `Boards.MoveUpGathers` | app.py:44-45 | After `move_up`, the tiles of each column sit at the bottom (row 3) and the empty cells above them. |
| `Boards.MoveDownGathers` | app.py:47-48 | After `move_down`, the tiles of each column sit at the top (row 0) and the empty cells below them. |
| `Boards.TransformsKeepMeasures` | app.py:41-48 | Flipping and rotating keep the total, the tile count and the power-of-two property. |
| `Boards.MoveLeftKeeps` | app.py:35-39 | `move_left` keeps the total, never adds a tile, and keeps the power-of-two property. |
| `Boards.MovesKeep` | app.py:35-48 | The same three facts for all four moves. |
| `Boards.FullBoard` | app.py:12-13 | A board has at most 16 tiles, and exactly 16 if and only if no cell is empty. |
| `Boards.MoveLeftChangeFreesCell` | app.py:35-39 | A `move_left` that changes the board leaves an empty cell. |
| `Boards.MoveChangeFreesCell` | app.py:80-82 | A move in any direction that changes the board leaves an empty cell, so the spawn that follows always finds room. |
| `Engine.ToArray` | app.py:70 | The copy is a fresh 4x4 array holding the same board. |
| `Engine.Compress` | app.py:17-25 | Returns a fresh array holding the compressed board. The argument is only read. |
| `Engine.Merge` | app.py:27-33 | Merges every row in place and returns the same array. |
| `Engine.MergeRow` | app.py:29-32 | The column scan makes its row the merged row and leaves the other rows alone. |
| `Engine.MoveLeftArray` | app.py:35-39 | compress, merge, compress on arrays gives `MoveLeft` of the board, in a fresh array. |
| `Spawning.Spawn` | app.py:11-15 | Definition of `add_new_tile` on values: a full board is returned unchanged, otherwise the picked empty cell gets 2 or 4. |
| `Spawning.InitialBoard` | app.py:5-9 | Definition of `initialize_board` on values: two spawns into the zero board. |
| `Spawning.EmptyCells` | app.py:12 | Every listed cell is an in-range cell that is empty. |
| `Spawning.EmptyCellsComplete` | app.py:12 | Every empty cell is listed. |
| `Spawning.EmptyCellsCount` | app.py:12 | The list has 16 minus the tile count entries. |
| `Spawning.ListEmptyCells` | app.py:12 | The nested row-major loop builds exactly that list. |
| `Spawning.SpawnHasRoom` | app.py:13 | The list is non-empty if and only if the board has fewer than 16 tiles. |
| `Spawning.SpawnPlacesOneTile` | app.py:13-15 | The picked cell was empty and now holds 2 or 4. Every other cell keeps its value. |
| `Spawning.SpawnMeasures` | app.py:13-15 | A full board is unchanged. Otherwise the tile count grows by one and the total by the new tile's value. |
| `Spawning.AddNewTile` | app.py:11-15 | The in-place method leaves the array holding that spawned board. |
| `Spawning.PicksIntoEmpty` | app.py:6-8 | A board without tiles has 16 empty cells, and 15 after one spawn. |
| `Spawning.InitialPicks` | app.py:5-9 | The two picks of a new game range over 16 and then 15 cells. |
| `Spawning.SpawnKeepsSmallTiles` | app.py:15 | If every cell is 0, 2 or 4 before a spawn, the same holds after it. |
| `Spawning.SpawnTwiceIntoEmpty` | app.py:6-8 | Two spawns into a board without tiles give exactly two tiles, each 2 or 4. |
| `Spawning.InitialBoardTiles` | app.py:5-9 | A new game has exactly two tiles, and every cell is 0, 2 or 4. |
| `Spawning.InitializeBoard` | app.py:5-9 | The array method returns a fresh 4x4 array holding that initial board. |
| `Endgame.GameOver` | app.py:50-61 | Definition: no empty cell, and no two equal neighbours in any row or any column. |
| `Endgame.IsGameOver` | app.py:50-61 | The early-return scan answers true exactly when there is no empty cell and no equal neighbours in any row or column. |
| `Endgame.GameOverFull` | app.py:51-52 | A finished game has a tile in every cell. |
| `Endgame.GameOverTransforms` | app.py:53-60 | Flipping or rotating a finished board gives a finished board. |
| `Endgame.GameOverLeftFixed` | app.py:50-61 | On a finished board `move_left` changes nothing. |
| `Endgame.FullNoPairLineFixed` | app.py:35-39 | A full row without two equal neighbours is unchanged by `move_left`. |
| `Endgame.FullNoRowPairFixed` | app.py:35-42 | With no empty cell and no equal neighbours in any row, `move_left` and `move_right` both change nothing. The columns may hold pairs. |
| `Endgame.FullNoColumnPairFixed` | app.py:44-48 | With no empty cell and no equal neighbours in any column, `move_up` and `move_down` both change nothing. The rows may hold pairs. |
| `Endgame.GameOverMovesAreNoOps` | app.py:50-61 | On a finished board none of the four moves changes anything. |
| `Endgame.FixedMovesPack` | app.py:35-48 | If no move changes a board, every row and column is packed towards both of its ends. |
| `Endgame.StuckIsGameOver` | app.py:50-61 | A board with a tile that no move changes is a finished game. |
| `Endgame.GameOverIffStuck` | app.py:50-61 | Game over holds if and only if the board has a tile and none of the four moves changes it. |
| `Game.Move` | app.py:71-78 | Definition: the move each of the four direction names selects. Any other direction leaves the board as it is. |
| `Game.Turn` | app.py:69-85 | Definition of `update_board` on values: move, spawn only if the board changed, then report `GameOver` of the result. |
| `Game.MoveKeeps` | app.py:71-78 | The move a direction selects keeps the total, never adds a tile, keeps powers of two, and leaves an empty cell whenever it changes the board. |
| `Game.TurnSpawnsOnlyOnChange` | app.py:69-82 | An unknown direction or an unchanged board keeps the board as it was. A changed board gets exactly one more tile, and its total grows by that tile's value. |
| `Game.SpawnKeepsTileValues` | app.py:15 | A spawn keeps every cell empty or a power of two. |
| `Game.TurnKeepsTileValues` | app.py:69-82 | A turn keeps every cell empty or a power of two. |
| `Game.TurnGameOver` | app.py:84-85 | The flag a turn reports holds exactly when the new board has a tile and no move changes it. |
| `Game.InitialBoardTileValues` | app.py:5-9 | A new game's cells are empty or powers of two. |
| `Game.MoveArray` | app.py:70-78 | The array move for a direction returns a fresh array holding `Move` of the board. An unknown direction returns an unchanged copy. |
| `Game.Session.constructor` | app.py:66-67 | A session starts from the initial board, and its invariant holds. |
| `Game.Session.UpdateBoard` | app.py:69-85 | The new board and the returned flag are exactly `Turn` of the old board, and the session invariant (a 4x4 board whose cells are empty or powers of two) is kept. |

## Left out

- The Streamlit page is not modelled, because it is presentation. That covers the title, the markdown, `display_board` and its colour table, the four buttons, and the game-over warning text. The warning becomes the `gameOver` flag that `Game.Session.UpdateBoard` returns.
- Python's `random` module is not modelled; its two draws become the parameters `pick` and `isTwo`. Where a pick is needed, it must index the list of empty cells. The 90 / 10 probability split is not modelled.
- numpy is modelled only by what the code uses of it:
  - `fliplr` and `rot90` are index maps on board values.
  - `np.zeros` is `Boards.Empty`.
  - `copy` is `Engine.ToArray`.
  - `np.array_equal` and `np.any(board == 0)` are comparisons of board values.
  - Views and copies are not modelled beyond the fact that `compress` and `move_left` only read their argument.
- The fixed-width integer type of the numpy array (`dtype=int`, 64-bit on Linux) is not modelled: cells are unbounded integers. Tile values on a 16-cell board stay far below 2^31, so wrap-around cannot occur at either common width.
- `st.session_state` is modelled by the field of `Game.Session`. The check `"board" not in st.session_state` becomes the constructor. Streamlit's re-running of the script on each interaction is not modelled.
- Rejecting an unknown direction with an error is not modelled, because the code has no such check: `update_board` ignores an unknown direction.
- Scoring is not modelled, because the code keeps no score.
