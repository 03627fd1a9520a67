# Connect Four engine

A Dafny model of the game engine of `C4_game.py`: a 6 × 7 Connect Four board
with gravity, detection of four in a row, the heuristic evaluation of a
position, a depth-limited minimax search with alpha-beta pruning, and a one-ply
greedy move picker. Row 0 is the bottom row. A cell holds 0 (empty), 1 (the
player) or 2 (the AI).

The model follows the shape of the code:

- `board.dfy` (module `Board`) holds the board as a fixed-size `array2<Cell>`.
  Each operation is a method: `CreateBoard`, `DropPiece`,
  `CheckValidLocation` (`is_valid_location`), `GetNextOpenRow`,
  `GetValidLocations` and the `board.copy()` used by the search.
  - Each method is proved against a function on the value `Cells(board)`, a
    `seq<seq<Cell>>`.
  - The module also proves the gravity invariant: every column is a run of
    pieces from row 0 up.
- `win.dfy` (module `WinDetector`) has `WinningMove`. It runs the four nested
  scans of the source in order: horizontal, vertical, rising diagonal, falling
  diagonal. Each scan goes column by column and, within a column, row by row,
  and returns at the first line of four it finds. `IsTerminalNode` is built on it.
- `evaluate.dfy` (module `Evaluator`) has:
  - `EvaluateWindow`, a pure function;
  - `ScorePosition`, which adds three times the count of pieces in the centre
    column to the sums of the four direction loops `ScoreHorizontal`,
    `ScoreVertical`, `ScoreAscending` and `ScoreDescending`. Each of those
    nested loops adds the window scores of one direction, 69 windows in all.
- `search.dfy` (module `Search`) has:
  - the specification `AlphaBeta` of `minimax`, and an unpruned reference
    `PlainMinimax`;
  - the imperative `Minimax`, which copies the board for every child and
    stops a column loop as soon as `alpha >= beta`;
  - the greedy `PickBestMove`.

The search is proved sound:
- Limited to its window, the pruned search always returns the unpruned value.
- At the root window `(-inf, +inf)` it returns exactly the unpruned result,
  column included.
- The unpruned search, and so by `RootIsExact` the root call, picks the
  lowest valid column whose child reaches the best score. Away from the root
  a pruned call can cut off early, and then its column need not be the best.

`math.inf` is the integer `Infinity = 10^15`. Every score the search can
produce lies in `[-10^13, 10^14]`, so no score reaches it.

The random placeholder columns of `minimax` and `pick_best_move` are modelled
as "no column yet" (`None`). The model proves that the first valid column
always replaces them:
- in `minimax`, because every child score is finite;
- in `pick_best_move`, because every evaluation is at least -276 and the seed
  is -10000.

Scan order of `winning_move`:
- The code (C4_game.py:55-56, 73-74) scans column by column in every
  direction. Its falling diagonals start in rows 3, 4 and 5, in that order.
- The order decides which line is returned when a board holds several lines.
  `WinningMove` returns the first line in the code's order.

## Model

| member | source | states |
|---|---|---|
| `Board.CreateBoard` | C4_game.py:30-32 | returns a new 6 × 7 board whose every cell is empty |
| `Board.DropPiece` | C4_game.py:35-36 | the cell (row, col) holds piece afterwards and every other cell keeps its old value |
| `Board.CopyBoard` | C4_game.py:159 | the copy is a new array with the same contents, so writing it leaves the original alone |
| `Board.NextOpenRow` | C4_game.py:43-46 | the lowest row whose cell in col is empty; None exactly when every cell of the column is occupied |
| `Board.CheckValidLocation` | C4_game.py:39-40 | reads only the row-5 cell of col: true exactly when it is empty (the predicate `IsValidLocation`, tied to the column height by `OpenRowIsHeight`), and then the column has an open row |
| `Board.GetNextOpenRow` | C4_game.py:43-46 | the loop over the rows returns NextOpenRow of the board |
| `Board.ValidLocations` | C4_game.py:187-192 | contains a column exactly when its top cell (row 5) is empty, in strictly ascending order |
| `Board.GetValidLocations` | C4_game.py:187-192 | the appending loop builds ValidLocations of the board |
| `Board.EmptyBoardAllValid` | C4_game.py:187-192 | on an empty board every column 0..6 is valid, in order |
| `Board.OpenRowIsHeight` | C4_game.py:39-46 | under gravity the open row is the column's height, and the column is valid exactly when its height is below 6 |
| `Board.DropAtOpenRow` | C4_game.py:35-46 | dropping at the open row keeps gravity, adds one to that column's height and leaves every other height unchanged |
| `Board.DropMany` | C4_game.py:35-36 | dropping pieces one after another keeps gravity and raises the column by their number |
| `Board.SixDropsFillColumn` | C4_game.py:39-40 | a column of an empty board that has received six drops is no longer valid |
| `WinDetector.CandidateIsWinLine` | C4_game.py:57-76 | four equal pieces from a scanned start in one direction form a line of four |
| `WinDetector.LineHolds` | C4_game.py:57-76 | when the four cells from a start in a direction hold piece, each of them is on the board and holds piece |
| `WinDetector.WinLineIsCandidate` | C4_game.py:53-78 | every line of four on the board starts at a position the scan of its direction visits, and its four cells hold piece |
| `WinDetector.FirstWinUnique` | C4_game.py:53-78 | the first line of four in scan order is unique |
| `WinDetector.FourAt` | C4_game.py:57 | the test of one start is true exactly when the four cells from it in the scanned direction are on the board and hold piece |
| `WinDetector.ScanDirection` | C4_game.py:55-76 | the first start in column-outer, row-inner order whose four cells hold piece, or None when that direction has none |
| `WinDetector.WinningMove` | C4_game.py:53-78 | True exactly when a line of four of piece exists; the line returned is that line's four coordinates and is the first in scan order; otherwise `[]` |
| `WinDetector.TerminalMeansGameOver` | C4_game.py:137-138 | a board is terminal exactly when either piece has four in a row or no column is open |
| `WinDetector.IsTerminalNode` | C4_game.py:137-138 | returns whether the board is terminal |
| `Evaluator.Count` | C4_game.py:88 | the number of occurrences, at most the length of the window |
| `Evaluator.CountIsMultiplicity` | C4_game.py:88 | `count` equals the multiplicity of the value in the window |
| `Evaluator.Opponent` | C4_game.py:84-86 | the opponent piece differs from piece (so it is 2 for 1 and 1 for 2) |
| `Evaluator.CountPartition` | C4_game.py:84-96 | piece, opponent and empty counts add up to the window length |
| `Evaluator.EvaluateWindow` | C4_game.py:82-98 | every window scores between -4 and 100 |
| `Evaluator.WindowScores` | C4_game.py:82-98 | 100 exactly for four of piece, 5 for three and an empty cell, 2 for two and two empties, -4 for three of the opponent and an empty; otherwise 0 |
| `Evaluator.ScoreByCounts` | C4_game.py:82-98 | in terms of counts: 100 exactly for four of piece, 5 for three and one empty, 2 for two and two empties, -4 for three of the opponent and one empty, and no other value |
| `Evaluator.FourOwn` | C4_game.py:88-89 | a window scores 100 exactly when it holds four of piece |
| `Evaluator.ThreeOwn` | C4_game.py:90-91 | a window scores 5 exactly when it holds three of piece and one empty cell, in any order |
| `Evaluator.TwoOwn` | C4_game.py:92-93 | a window scores 2 exactly when it holds two of piece and two empty cells, in any order |
| `Evaluator.ThreeOpponent` | C4_game.py:95-96 | a window scores -4 exactly when it holds three of the opponent and one empty cell, in any order |
| `Evaluator.WindowStartsAreCandidates` | C4_game.py:110-132 | the scoring loops visit every window of four on the board once, the same starts the win scan visits |
| `Evaluator.WindowTotal` | C4_game.py:110-132 | each direction has (rows scanned) × (windows per row) windows, 24 + 21 + 12 + 12 = 69 in all |
| `Evaluator.InnerBounds` | C4_game.py:112-114 | the sum over n windows of one row lies in [-4n, 100n] |
| `Evaluator.OuterBounds` | C4_game.py:110-132 | the sum over the rows of a direction lies in [-4, 100] times the number of windows in those rows |
| `Evaluator.WindowCountIsProduct` | C4_game.py:110-132 | n rows of a direction hold n times as many windows as one row |
| `Evaluator.PositionScore` | C4_game.py:101-134 | three times the centre-column count plus the sum over the 69 windows, hence between -276 and 6918 |
| `Evaluator.EmptyBoardScoresZero` | C4_game.py:101-134 | an empty board scores 0 for either piece |
| `Evaluator.WinningWindow` | C4_game.py:88-89 | the window of a line of four of piece scores 100 |
| `Evaluator.RowArray` | C4_game.py:111 | `board[r, :]` is row r of the board |
| `Evaluator.ColumnArray` | C4_game.py:105 | `board[:, c]` is column c of the board, bottom first |
| `Evaluator.AscendingArray` | C4_game.py:126 | the rising window list is the window from (r, c) up and to the right |
| `Evaluator.DescendingArray` | C4_game.py:131 | the falling window list is the window from (r + 3, c) down and to the right |
| `Evaluator.RowWindow` | C4_game.py:113 | the slice `row_array[c:c + 4]` is the horizontal window at (r, c) |
| `Evaluator.ColumnWindow` | C4_game.py:120 | the slice `col_array[r:r + 4]` is the vertical window at (r, c) |
| `Evaluator.ScoreHorizontal` | C4_game.py:109-114 | the loop adds the scores of the 24 horizontal windows |
| `Evaluator.ScoreVertical` | C4_game.py:116-121 | the loop adds the scores of the 21 vertical windows |
| `Evaluator.ScoreAscending` | C4_game.py:123-127 | the loop adds the scores of the 12 rising diagonal windows |
| `Evaluator.ScoreDescending` | C4_game.py:129-132 | the loop adds the scores of the 12 falling diagonal windows |
| `Evaluator.ScorePosition` | C4_game.py:101-134 | returns PositionScore of the board |
| `Search.LeafScore` | C4_game.py:143-153 | the score of a leaf is a search score, within [-10^13, 10^14] |
| `Search.Scan` | C4_game.py:154-184 | a loop that has seen a column returns a column of the list and a score within range |
| `Search.ScanStep` | C4_game.py:161-168 | one turn of the loop either cuts off with the updated value and column or continues with them |
| `Search.AlphaBeta` | C4_game.py:141-184 | the score is within range; the column is None exactly at depth 0 or on a terminal board, and otherwise a valid column |
| `Search.PlainMinimax` | C4_game.py:141-184 | the unpruned search: same ranges, column None exactly at a leaf |
| `Search.PlainScan` | C4_game.py:154-184 | the loop without a cut-off never ends worse than its starting value |
| `Search.ScanSound` | C4_game.py:154-184 | with sound children, the pruned loop and the unpruned loop agree once limited to the window |
| `Search.ChildValue` | C4_game.py:157-161 | the pruned score of a child is a search score |
| `Search.ChildScore` | C4_game.py:157-161 | the unpruned score of a child is a search score |
| `Search.ChildSound` | C4_game.py:157-161 | a child's pruned and unpruned scores agree once limited to the window it was searched with |
| `Search.ChildrenSound` | C4_game.py:154-184 | this holds for every valid column and every window inside (-inf, +inf) |
| `Search.PruningSound` | C4_game.py:141-184 | limited to its window (alpha, beta), the pruned score equals the unpruned score limited to the same window |
| `Search.RootScan` | C4_game.py:154-168 | at the root window the pruned loop never cuts off and equals the unpruned loop |
| `Search.RootIsExact` | C4_game.py:456 | called with (-inf, +inf) the pruned search returns exactly the unpruned column and score |
| `Search.PlainScanBound` | C4_game.py:154-184 | no remaining child scores strictly better than the loop's result |
| `Search.PlainScanFirst` | C4_game.py:161-164 | the result is either the starting value, or the earliest column reaching the best score with every earlier child strictly worse |
| `Search.BestColumn` | C4_game.py:154-184 | the unpruned non-leaf search (and so, by `RootIsExact`, the root call) picks a valid column whose child scores best, and every lower valid column scores strictly worse |
| `Search.TerminalScores` | C4_game.py:143-153 | an AI win scores 10^14 even if the player also has four; a player win scores -10^13; a full board 0; depth 0 the AI's PositionScore |
| `Search.ImmediateWin` | C4_game.py:141-184 | when the AI can complete four in one drop, the root search scores the position 10^14 |
| `Search.WinningChild` | C4_game.py:143-161 | one ply deep, a child of the AI scores 10^14 exactly when the AI's drop completes four |
| `Search.ImmediateWinColumn` | C4_game.py:154-168 | at depth 1, whenever a drop completes four for the AI, the root call returns the lowest such column |
| `Search.ChildBoard` | C4_game.py:158-160 | a new board equal to the old one with piece dropped at the open row of col |
| `Search.SearchChild` | C4_game.py:157-161 | the child's score as the pruned search with the current window computes it |
| `Search.Leaf` | C4_game.py:143-153 | returns LeafScore of the board, checking the AI's win before the player's |
| `Search.Minimax` | C4_game.py:141-184 | returns AlphaBeta of the board; it writes no existing array |
| `Search.MaximizingLoop` | C4_game.py:154-168 | the maximiser's loop with break returns Scan from -inf over the valid columns |
| `Search.MinimizingLoop` | C4_game.py:170-184 | the minimiser's loop with break returns Scan from +inf over the valid columns |
| `Search.ScoreAfterDrop` | C4_game.py:199-203 | the evaluation after a drop lies in [-276, 6918], above the seed -10000 |
| `Search.GreedyPick` | C4_game.py:195-208 | the strict-improvement loop seeded with -10000 has no column exactly when no column is valid |
| `Search.GreedyFullBoard` | C4_game.py:195-208 | the pick is None exactly when no column is open |
| `Search.GreedyBest` | C4_game.py:195-208 | the pick is the lowest valid column whose drop scores highest for piece |
| `Search.BestDropLoop` | C4_game.py:199-206 | the loop over the valid columns returns GreedyPick's column |
| `Search.PickBestMove` | C4_game.py:195-208 | returns GreedyPick: the lowest valid column whose drop scores highest, or None on a full board |

## Left out

- Drawing, animation, menus and the event loop (C4_game.py:211-554) are not
  modelled. They are display and input handling.
- `print_board` (C4_game.py:49-50) is not modelled. It is console output.
- `random.choice` at C4_game.py:156, 172 and 198 is not modelled, because its
  value is always replaced. The random first turn (C4_game.py:412) is part of
  the game loop and is not modelled either.
- `pick_best_move` on a board with no valid column: Python's
  `random.choice([])` raises. `PickBestMove` returns None instead.
- numpy stores cells as floats. They only ever hold 0, 1 or 2, so cells are
  integers here.
- `math.inf` is the integer sentinel `Infinity`. Every score is proved to lie
  strictly between `-Infinity` and `Infinity`, so no comparison changes, but
  the sentinel itself is not a float.
- The search depth is a `nat`. The source is never called with a negative
  depth. At a negative depth it never meets `depth == 0` and searches until
  the board is terminal; this is not modelled.
- The loops of `winning_move`, `score_position` and `minimax` are split into
  helper methods:
  - `ScanDirection` for each direction of `winning_move`;
  - `ScoreHorizontal` and the like for `score_position`;
  - `MaximizingLoop`, `MinimizingLoop` and `SearchChild` for `minimax`.

  Each helper keeps the source's loop order, early exits and updates.
- `Search.AlphaBeta`'s result away from the root is stated differently: it is
  not stated as "the extremum over the children that were scanned". It is
  stated as the window relation of `PruningSound`. The exact value and column
  are stated at the root call (`RootIsExact`, `BestColumn`).
- `Search.Minimax` has no postcondition saying the board is unchanged. Having
  no `modifies` clause already guarantees this, because children are written
  only into fresh copies.
- `Search.ImmediateWin` states only the score of an immediate win, not the
  column. Scores are not discounted by depth (C4_game.py:146-147), so from
  depth 3 on, a lower column whose drop forces a win two plies later also
  scores 10^14. The strict `>` at C4_game.py:162 then keeps that lower column,
  which does not win at once. An example: the AI threatens four in column 1
  and along row 0 at the same time, and a drop in column 0 leaves the player
  unable to block both. Only at depth 1 is the winning column itself proved
  (`ImmediateWinColumn`).
