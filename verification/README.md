# 2048 game logic in Dafny

This project models the game logic of `Game2048.java`, a one-window Swing
version of 2048. The model covers:

- the four move methods (`moveLeft`, `moveRight`, `moveUp`, `moveDown`)
- the game-over test `checkGameOver`
- the tile spawner `addNewTile`
- `startNewGame`
- what the key handler `keyPressed` does with them: move, then spawn and re-check when the move returned true

The model is functional. A board is a 4×4 `seq<seq<int>>` in which 0 is an
empty cell, and every operation returns a new value instead of mutating the
window's fields.

- `Line` models the column loop of a move on one line, read from the wall
  outward:
  - `Slide` is the inner `while` loop.
  - `Visit` is the body for one cell: slide, then merge into an equal neighbour.
  - `Scan` is the loop over the cells.
  - `MoveLine` is the whole pass.
  - It also holds the conservation, score, compaction and change lemmas, and
    concrete lines.
- `Board` is the 4×4 board.
  - The four Java move methods are one loop on the board itself, written four
    times over different coordinates. Here they are one function `Move(b, d)`
    that addresses the cell at distance `i` from the wall on line `j` through
    `At(d, j, i)`.
  - Lemmas show that this board loop moves each line on its own exactly as
    `Line.MoveLine` does (`MoveByLines`). The board-level properties follow
    from that.
  - `moveRight` is `moveLeft` on the mirrored board, and `moveUp`/`moveDown`
    are `moveLeft`/`moveRight` on the transposed board. These are theorems,
    not definitions.
- `Terminal` models `checkGameOver` without its dialog. It proves that the
  test is exact: on a board with a tile it holds exactly when no arrow key can
  move anything.
- `Game` holds the session state (board, score, `gameOver`), `addNewTile`,
  `startNewGame` and the key handler. It also holds an invariant `Valid` that
  every reachable state keeps:
  - a board of tiles with at least one tile
  - a score between 0 and the board's "worth"
  - `gameOver` as `checkGameOver` computes it

  Worth is the sum of v·log2 v over the tiles, and a merge raises it by exactly
  the points it scores.

The code, not the usual 2048 rule, is what is modelled:

- A tile that has just been doubled can be doubled again in the same move.
  `[2, 2, 4, 0]` moves left to `[8, 0, 0, 0]` and scores 12
  (`Line.RepeatedMerge`).
- Moves are therefore not idempotent: `[2, 2, 2, 2]` becomes `[4, 4, 0, 0]`,
  and a second move left gives `[8, 0, 0, 0]` (`Line.SecondPassMergesAgain`).
  Textbook 2048 allows one merge per tile per move and makes moves
  idempotent; this code does neither, and the model follows the code.
- The second loop of `checkGameOver` reuses `i` and `j` for both the row pairs
  `board[i][j], board[i][j+1]` and the column pairs `board[j][i], board[j+1][i]`.
  On the square board this still visits all 24 neighbour pairs, so the test is
  complete (`Terminal.CheckGameOver`).

## Model

| member | source | states |
|---|---|---|
| Line.Slide | Game2048.java:159-165 | the sliding tile ends on the first cell of the empty run in front of it: its old cell is cleared, its new cell holds its value, every cell it passed was empty, and the cell in front of where it stops is the wall or a tile |
| Line.Visit | Game2048.java:158-171 | visiting a cell changes nothing beyond it, keeps the length, and reports a move exactly when the line changed |
| Line.Scan | Game2048.java:157-173 | the column loop keeps the line's length and leaves the line unchanged when it reports no move |
| Line.MoveLine | Game2048.java:157-173 | one line of a move keeps the line's length, and when it reports no move the line is as it was and nothing is scored |
| Line.ScanKeepsSum | Game2048.java:157-171 | the pass never creates or destroys value: the sum of the cells is the same afterwards |
| Line.ScanCount | Game2048.java:157-171 | the pass never adds a tile |
| Line.ScanWorth | Game2048.java:166-171 | on non-negative cells the points scored are never negative and equal the increase of the line's worth |
| Line.ScanTiles | Game2048.java:166-167 | a line of empty cells and powers of two stays one |
| Line.StillScanGainsNothing | Game2048.java:164-170 | a pass that reports no move scores no points |
| Line.MoveLineCompacts | Game2048.java:157-173 | after the pass every tile sits against the wall, before every empty cell |
| Line.StableUntouched | Game2048.java:157-173 | a compact line without two touching equal tiles passes through unchanged, scoring nothing and reporting no move |
| Line.PairMerges | Game2048.java:166-171 | a compact line with two touching equal tiles loses a tile and reports a move |
| Line.MoveLineChanges | Game2048.java:155-175 | the pass reports a move exactly when the line is not stable, exactly when the line changes, and a changed line ends with an empty cell |
| Line.RoomAfterMove | Game2048.java:157-175 | a line the pass moved has an empty cell afterwards |
| Line.AdjacentPair | Game2048.java:166-171 | [2,2,0,0] moves to [4,0,0,0] scoring 4 |
| Line.GappedPair | Game2048.java:160-171 | [2,0,2,0] slides together and merges to [4,0,0,0] scoring 4 |
| Line.RepeatedMerge | Game2048.java:157-171 | [2,2,4,0] moves to [8,0,0,0] scoring 12: a freshly doubled tile is doubled again |
| Line.FourTwos | Game2048.java:157-171 | [2,2,2,2] moves to [4,4,0,0] scoring 8 |
| Line.SecondPassMergesAgain | Game2048.java:154-176 | moving [2,2,2,2] twice in the same direction changes the line the second time as well: moves are not idempotent |
| Board.SlideCell | Game2048.java:160-165 | the inner while loop on the board: the tile ends at a stop no further out than where it started, holding its value; the cell in front of the stop is the wall or a tile; a tile that does not slide leaves the board unchanged |
| Board.VisitCell | Game2048.java:158-171 | the body of the column loop for one cell: when it sets no `moved` flag the board is unchanged and nothing is scored |
| Board.ScanCells | Game2048.java:157-173 | the column loop over one line: when no step of it moved or merged a tile the board is unchanged and nothing is scored |
| Board.ScanLines | Game2048.java:156-174 | the loop over the lines: when it returns false the board is unchanged and nothing is scored |
| Board.Move | Game2048.java:154-248 | moveLeft, moveRight, moveUp and moveDown: a move that returns false leaves the board as it was and scores nothing |
| Board.MoveByLines | Game2048.java:154-248 | the in-place board loop moves each line of the direction on its own as the one-line pass does; its score is the sum of the lines' scores and it reports a move when some line moved |
| Board.LinesDetermineBoard | Game2048.java:154-248 | the lines of one direction determine the whole board, so the line-by-line view of a move loses nothing |
| Board.MoveKeepsSum | Game2048.java:154-176 | a move keeps the sum of all values on the board |
| Board.MoveAddsNoTile | Game2048.java:154-176 | a move never adds a tile to the board |
| Board.MoveScore | Game2048.java:166-168 | on a non-negative board a move scores a non-negative amount equal to the increase of the board's worth, and keeps the board non-negative |
| Board.MoveKeepsTiles | Game2048.java:166-167 | a board of empty cells and powers of two stays one after any move |
| Board.MoveCompacts | Game2048.java:154-176 | after a move every line of its direction has its tiles against the wall, before every empty cell |
| Board.MoveChanges | Game2048.java:154-176 | a move returns true exactly when it changes the board, and exactly when some line of its direction is not stable |
| Board.RoomToSpawn | Game2048.java:154-176 | after a move that returned true the board has an empty cell |
| Board.RightMirrorsLeft | Game2048.java:178-200 | moving right is moving the mirrored board left and mirroring back, with the same score and result |
| Board.UpTransposesLeft | Game2048.java:202-224 | moving up is moving the transposed board left and transposing back, with the same score and result |
| Board.DownTransposesRight | Game2048.java:226-248 | moving down is moving the transposed board right and transposing back, with the same score and result |
| Terminal.EmptyInRow | Game2048.java:255-260 | the inner empty-cell loop finds a zero exactly when row i has one from column j on |
| Terminal.EmptyFrom | Game2048.java:254-261 | the empty-cell scan finds a zero exactly when some row from i on has an empty cell |
| Terminal.PairInLine | Game2048.java:265-270 | the inner merge loop for index i finds an equal pair exactly when row i has two equal horizontal neighbours or column i two equal vertical neighbours from position j on |
| Terminal.PairFrom | Game2048.java:264-271 | the merge scan finds an equal pair exactly when some row or column from index i on has two equal neighbours |
| Terminal.CheckGameOver | Game2048.java:250-271 | the game is over exactly when no cell is empty and no two horizontally or vertically adjacent cells are equal |
| Terminal.GameOverMeansStuck | Game2048.java:250-271 | on a board declared over, no direction moves anything |
| Terminal.StuckMeansGameOver | Game2048.java:250-271 | a board with a tile on which no direction moves anything is declared over |
| Terminal.GameOverExact | Game2048.java:250-271 | on a board with a tile, the game-over test holds exactly when all four moves return false |
| Game.TileValue | Game2048.java:145 | the new tile is 2 or 4, and 4 exactly on the tenth roll |
| Game.AddTile | Game2048.java:144-152 | the chosen empty cell receives the rolled value, 2 or 4; no other cell changes, the board gains exactly one tile, and the sum of values grows by the new tile |
| Game.AddTileValid | Game2048.java:144-152 | a new tile keeps a board of powers of two, puts a tile on it and raises its worth |
| Game.EmptyGrid | Game2048.java:130-134 | the cleared board is 4×4 with every cell empty |
| Game.NewGame | Game2048.java:128-142 | a new game has score 0, is not over, and holds exactly two tiles, each 2 or 4, on two distinct cells, with every other cell empty |
| Game.NewGameValid | Game2048.java:128-142 | a new game is a reachable state: tiles only, score within the worth, and not over by the game-over test |
| Game.Step | Game2048.java:32-54 | when the game is over or the key is not an arrow nothing changes; after a move that returned true the board is the moved board with the spawn cell set to the rolled value and every other cell as the move left it, the score rises by the move's merges, the board gains exactly one tile, and gameOver is recomputed on the new board |
| Game.StillKeyChangesNothing | Game2048.java:49-53 | an arrow key whose move returns false leaves board, score and gameOver as they were and spawns nothing |
| Game.OverIgnoresInput | Game2048.java:33 | once the game is over, no key changes anything |
| Game.SpawnAlwaysFits | Game2048.java:147-150 | whatever the key, there is a spawn the retry loop of addNewTile can settle on |
| Game.StepValid | Game2048.java:32-54 | every key keeps the game in a reachable state, and the score never goes down |
| Game.StepScoresMerges | Game2048.java:36-53 | a key that moves the board raises the score by exactly the non-negative points its merges made, changes the sum of values only by the new tile, and adds at most one tile |
| Game.OverExactlyWhenStuck | Game2048.java:52 | in a reachable state gameOver holds exactly when no arrow key can move the board |

## Left out

- The Swing window, its painting, colours, fonts and labels (`initializeUI`,
  `updateUI`, the panel's `paintComponent`): presentation only, with no effect
  on the game state.
- The game-over dialog of `checkGameOver` (lines 273-275): it is I/O. The model
  returns the boolean the method stores in `gameOver`.
- The pseudo-random generator. Each `addNewTile` call becomes a `Spawn`
  parameter holding the `nextInt(10)` roll for the value and the cell the
  retry loop settles on. The loop only stops on an empty cell, so `CanSpawn`
  requires the cell to be empty. How likely each cell is, and the loop's
  termination, are not modelled. `Board.RoomToSpawn` and `Game.SpawnAlwaysFits`
  show that an empty cell exists whenever the code calls `addNewTile`.
- Key-code decoding: `Key` is either one of the four arrows or any other key.
- 32-bit `int` arithmetic. Cells and the score are mathematical integers, so
  overflow of `score` or of a doubled tile is not modelled.
- The constructor, window placement and the key listener's registration.
  They are only wiring around `startNewGame` and the key handler.
