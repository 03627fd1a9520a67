/** Detection of four pieces in a row, in the engine's fixed scan order:
    horizontal, vertical, ascending diagonal, descending diagonal; within each
    direction, columns left to right and, for each column, rows upward. */
module WinDetector {
  import opened Board

  /** The scan of direction d visits the columns 0 .. ColumnLimit(d) - 1 and
      the rows RowFirst(d) .. RowLimit(d) - 1. */
  function ColumnLimit(d: Direction): int {
    if d == Vertical then ColumnCount else ColumnCount - 3
  }

  function RowFirst(d: Direction): int {
    if d == Descending then 3 else 0
  }

  function RowLimit(d: Direction): int {
    if d == Horizontal || d == Descending then RowCount else RowCount - 3
  }

  predicate InScan(d: Direction, r: int, c: int) {
    0 <= c < ColumnLimit(d) && RowFirst(d) <= r < RowLimit(d)
  }

  /** Start (r1, c1) comes before start (r2, c2) in the column-outer,
      row-inner scan of one direction. */
  predicate Precedes(r1: int, c1: int, r2: int, c2: int) {
    c1 < c2 || (c1 == c2 && r1 < r2)
  }

  function DirectionRank(d: Direction): int {
    match d
    case Horizontal => 0
    case Vertical => 1
    case Ascending => 2
    case Descending => 3
  }

  /** Candidate (d1, r1, c1) comes before candidate (d2, r2, c2) in the whole scan. */
  predicate ScanBefore(d1: Direction, r1: int, c1: int, d2: Direction, r2: int, c2: int) {
    DirectionRank(d1) < DirectionRank(d2) || (d1 == d2 && Precedes(r1, c1, r2, c2))
  }

  /** The four cells from (r, c) in direction d are on the board and hold piece. */
  predicate Filled(g: Grid, piece: Piece, d: Direction, r: int, c: int)
    requires IsGrid(g)
  {
    var dr, dc := RowStep(d), ColumnStep(d);
    InBounds((r, c)) && InBounds((r + 3 * dr, c + 3 * dc)) &&
    g[r][c] == piece && g[r + dr][c + dc] == piece &&
    g[r + 2 * dr][c + 2 * dc] == piece && g[r + 3 * dr][c + 3 * dc] == piece
  }

  // ---------------------------------------------------------------------------
  // Lines of four, independently of the scan

  /** Four in-bounds coordinates, consecutive in one of the four directions,
      every one holding piece. */
  ghost predicate IsWinLine(g: Grid, line: seq<Coord>, piece: Piece)
    requires IsGrid(g)
  {
    |line| == WindowLength &&
    (exists d :: line == LineAt(d, line[0].0, line[0].1)) &&
    forall i :: 0 <= i < |line| ==> InBounds(line[i]) && At(g, line[i]) == piece
  }

  ghost predicate HasWin(g: Grid, piece: Piece)
    requires IsGrid(g)
  {
    exists line :: IsWinLine(g, line, piece)
  }

  /** A candidate whose four cells hold piece is a line of four. */
  lemma CandidateIsWinLine(g: Grid, piece: Piece, d: Direction, r: int, c: int)
    requires IsGrid(g) && Filled(g, piece, d, r, c)
    ensures IsWinLine(g, LineAt(d, r, c), piece)
  {
    var line := LineAt(d, r, c);
    assert line == LineAt(d, line[0].0, line[0].1);
    LineHolds(g, piece, d, r, c);
  }

  /** Each of the four cells of a filled candidate is on the board and holds piece. */
  lemma LineHolds(g: Grid, piece: Piece, d: Direction, r: int, c: int)
    requires IsGrid(g) && Filled(g, piece, d, r, c)
    ensures forall i :: 0 <= i < WindowLength ==> InBounds(LineAt(d, r, c)[i]) && At(g, LineAt(d, r, c)[i]) == piece
  {
    var line := LineAt(d, r, c);
    match d
    case Horizontal =>
      assert line == [(r, c), (r, c + 1), (r, c + 2), (r, c + 3)];
    case Vertical =>
      assert line == [(r, c), (r + 1, c), (r + 2, c), (r + 3, c)];
    case Ascending =>
      assert line == [(r, c), (r + 1, c + 1), (r + 2, c + 2), (r + 3, c + 3)];
    case Descending =>
      assert line == [(r, c), (r - 1, c + 1), (r - 2, c + 2), (r - 3, c + 3)];
  }

  /** Every line of four starts at a position the scan of its direction visits. */
  lemma WinLineIsCandidate(g: Grid, piece: Piece, line: seq<Coord>, d: Direction)
    requires IsGrid(g) && IsWinLine(g, line, piece) && line == LineAt(d, line[0].0, line[0].1)
    ensures InScan(d, line[0].0, line[0].1) && Filled(g, piece, d, line[0].0, line[0].1)
  {
    LineCells(g, piece, line);
    LineStartFilled(g, piece, line, d, line[0].0, line[0].1);
  }

  /** The four cells of a line of four, one by one. */
  lemma LineCells(g: Grid, piece: Piece, line: seq<Coord>)
    requires IsGrid(g) && IsWinLine(g, line, piece)
    ensures InBounds(line[0]) && InBounds(line[3])
    ensures At(g, line[0]) == piece && At(g, line[1]) == piece && At(g, line[2]) == piece && At(g, line[3]) == piece
  {
  }

  lemma LineStartFilled(g: Grid, piece: Piece, line: seq<Coord>, d: Direction, r: int, c: int)
    requires IsGrid(g) && line == LineAt(d, r, c)
    requires InBounds(line[0]) && InBounds(line[3])
    requires At(g, line[0]) == piece && At(g, line[1]) == piece && At(g, line[2]) == piece && At(g, line[3]) == piece
    ensures InScan(d, r, c) && Filled(g, piece, d, r, c)
  {
    var dr, dc := RowStep(d), ColumnStep(d);
    assert line[0] == (r, c) && line[1] == (r + dr, c + dc);
    assert line[2] == (r + 2 * dr, c + 2 * dc) && line[3] == (r + 3 * dr, c + 3 * dc);
    assert InBounds((r, c)) && InBounds((r + 3 * dr, c + 3 * dc));
    StartInScan(d, r, c);
    assert g[r][c] == piece && g[r + dr][c + dc] == piece;
    assert g[r + 2 * dr][c + 2 * dc] == piece && g[r + 3 * dr][c + 3 * dc] == piece;
  }

  /** A start whose line of four stays on the board is visited by the scan. */
  lemma StartInScan(d: Direction, r: int, c: int)
    requires InBounds((r, c)) && InBounds((r + 3 * RowStep(d), c + 3 * ColumnStep(d)))
    ensures InScan(d, r, c)
  {
    match d
    case Horizontal =>
    case Vertical =>
    case Ascending =>
    case Descending =>
  }

  // ---------------------------------------------------------------------------
  // The scan

  /** No candidate of direction d before (r, c) holds four of piece. */
  ghost predicate NoneUpTo(g: Grid, piece: Piece, d: Direction, r: int, c: int)
    requires IsGrid(g)
  {
    forall r', c' :: InScan(d, r', c') && Precedes(r', c', r, c) ==> !Filled(g, piece, d, r', c')
  }

  /** No candidate of direction d holds four of piece. */
  ghost predicate NoneIn(g: Grid, piece: Piece, d: Direction)
    requires IsGrid(g)
  {
    forall r', c' :: InScan(d, r', c') ==> !Filled(g, piece, d, r', c')
  }

  /** No candidate before (d, r, c) in scan order holds four of piece. */
  ghost predicate NoneBefore(g: Grid, piece: Piece, d: Direction, r: int, c: int)
    requires IsGrid(g)
  {
    forall d', r', c' :: InScan(d', r', c') && ScanBefore(d', r', c', d, r, c) ==>
      !Filled(g, piece, d', r', c')
  }

  /** (d, r, c) is the first candidate in scan order that holds four of piece:
      the line winning_move reports. */
  ghost predicate IsFirstWin(g: Grid, piece: Piece, d: Direction, r: int, c: int)
    requires IsGrid(g)
  {
    InScan(d, r, c) && Filled(g, piece, d, r, c) && NoneBefore(g, piece, d, r, c)
  }

  lemma NoneUpToRow(g: Grid, piece: Piece, d: Direction, r: int, c: int)
    requires IsGrid(g) && NoneUpTo(g, piece, d, r, c) && !Filled(g, piece, d, r, c)
    ensures NoneUpTo(g, piece, d, r + 1, c)
  {
  }

  lemma NoneUpToColumn(g: Grid, piece: Piece, d: Direction, c: int)
    requires IsGrid(g) && NoneUpTo(g, piece, d, RowLimit(d), c)
    ensures NoneUpTo(g, piece, d, RowFirst(d), c + 1)
  {
  }

  lemma NoneUpToEnd(g: Grid, piece: Piece, d: Direction)
    requires IsGrid(g) && NoneUpTo(g, piece, d, RowFirst(d), ColumnLimit(d))
    ensures NoneIn(g, piece, d)
  {
  }

  /** A filled candidate met after every earlier direction came up empty and
      every earlier candidate of its own direction was passed over is the first
      win, and its line is a line of four. */
  lemma Found(g: Grid, piece: Piece, d: Direction, r: int, c: int, line: seq<Coord>)
    requires IsGrid(g) && InScan(d, r, c) && Filled(g, piece, d, r, c)
    requires NoneUpTo(g, piece, d, r, c)
    requires forall d' :: DirectionRank(d') < DirectionRank(d) ==> NoneIn(g, piece, d')
    requires line == LineAt(d, r, c)
    ensures IsFirstWin(g, piece, d, r, c)
    ensures IsWinLine(g, line, piece) && HasWin(g, piece)
    ensures exists d', r', c' :: line == LineAt(d', r', c') && IsFirstWin(g, piece, d', r', c')
  {
    CandidateIsWinLine(g, piece, d, r, c);
    assert IsFirstWin(g, piece, d, r, c);
  }

  /** When every direction comes up empty there is no line of four. */
  lemma NoWin(g: Grid, piece: Piece)
    requires IsGrid(g)
    requires NoneIn(g, piece, Horizontal) && NoneIn(g, piece, Vertical)
    requires NoneIn(g, piece, Ascending) && NoneIn(g, piece, Descending)
    ensures !HasWin(g, piece)
  {
    if HasWin(g, piece) {
      var line: seq<Coord> :| IsWinLine(g, line, piece);
      var d :| line == LineAt(d, line[0].0, line[0].1);
      WinLineIsCandidate(g, piece, line, d);
    }
  }

  /** At most one candidate is the first win, so the reported line is determined. */
  lemma FirstWinUnique(g: Grid, piece: Piece, d1: Direction, r1: int, c1: int, d2: Direction, r2: int, c2: int)
    requires IsGrid(g) && IsFirstWin(g, piece, d1, r1, c1) && IsFirstWin(g, piece, d2, r2, c2)
    ensures d1 == d2 && r1 == r2 && c1 == c2
  {
    if !ScanBefore(d1, r1, c1, d2, r2, c2) && !ScanBefore(d2, r2, c2, d1, r1, c1) {
      assert DirectionRank(d1) == DirectionRank(d2);
    }
  }

  /** One direction of the scan: columns left to right, rows upward, stopping
      at the first start whose four cells hold piece. */
  method ScanDirection(board: array2<Cell>, piece: Piece, d: Direction) returns (start: Option<Coord>)
    requires IsBoard(board)
    ensures start.Some? ==>
      InScan(d, start.value.0, start.value.1) && Filled(Cells(board), piece, d, start.value.0, start.value.1) &&
      NoneUpTo(Cells(board), piece, d, start.value.0, start.value.1)
    ensures start.None? ==> NoneIn(Cells(board), piece, d)
  {
    ghost var g := Cells(board);
    for c := 0 to ColumnLimit(d)
      invariant NoneUpTo(g, piece, d, RowFirst(d), c)
    {
      for r := RowFirst(d) to RowLimit(d)
        invariant NoneUpTo(g, piece, d, r, c)
      {
        var hit := FourAt(board, piece, d, r, c);
        if hit {
          return Some((r, c));
        }
        NoneUpToRow(g, piece, d, r, c);
      }
      NoneUpToColumn(g, piece, d, c);
    }
    NoneUpToEnd(g, piece, d);
    return None;
  }

  /** The test of one start: its four cells in direction d all hold piece. */
  method FourAt(board: array2<Cell>, piece: Piece, d: Direction, r: int, c: int) returns (hit: bool)
    requires IsBoard(board) && InScan(d, r, c)
    ensures hit == Filled(Cells(board), piece, d, r, c)
  {
    var dr, dc := RowStep(d), ColumnStep(d);
    hit := board[r, c] == piece && board[r + dr, c + dc] == piece &&
           board[r + 2 * dr, c + 2 * dc] == piece && board[r + 3 * dr, c + 3 * dc] == piece;
  }

  /** winning_move: horizontal, vertical, ascending and descending lines in
      turn, returning the first line of four found, or (false, []). */
  method WinningMove(board: array2<Cell>, piece: Piece) returns (won: bool, line: seq<Coord>)
    requires IsBoard(board)
    ensures won <==> HasWin(Cells(board), piece)
    ensures won ==> IsWinLine(Cells(board), line, piece)
    ensures won ==> exists d, r, c :: line == LineAt(d, r, c) && IsFirstWin(Cells(board), piece, d, r, c)
    ensures !won ==> line == []
  {
    ghost var g := Cells(board);
    var horizontal := ScanDirection(board, piece, Horizontal);
    if horizontal.Some? {
      var (r, c) := horizontal.value;
      line := LineAt(Horizontal, r, c);
      Found(g, piece, Horizontal, r, c, line);
      return true, line;
    }
    var vertical := ScanDirection(board, piece, Vertical);
    if vertical.Some? {
      var (r, c) := vertical.value;
      line := LineAt(Vertical, r, c);
      Found(g, piece, Vertical, r, c, line);
      return true, line;
    }
    var ascending := ScanDirection(board, piece, Ascending);
    if ascending.Some? {
      var (r, c) := ascending.value;
      line := LineAt(Ascending, r, c);
      Found(g, piece, Ascending, r, c, line);
      return true, line;
    }
    var descending := ScanDirection(board, piece, Descending);
    if descending.Some? {
      var (r, c) := descending.value;
      line := LineAt(Descending, r, c);
      Found(g, piece, Descending, r, c, line);
      return true, line;
    }
    NoWin(g, piece);
    return false, [];
  }

  // ---------------------------------------------------------------------------
  // End of game

  /** The game is over: a piece has four in a row, or no column accepts a piece. */
  ghost predicate IsTerminal(g: Grid)
    requires IsGrid(g)
  {
    HasWin(g, PlayerPiece) || HasWin(g, AiPiece) || |ValidLocations(g)| == 0
  }

  /** An empty list of valid columns means every column is full. */
  lemma TerminalMeansGameOver(g: Grid)
    requires IsGrid(g)
    ensures IsTerminal(g) <==>
      HasWin(g, PlayerPiece) || HasWin(g, AiPiece) || forall c :: 0 <= c < ColumnCount ==> !IsValidLocation(g, c)
  {
    var cols := ValidLocations(g);
    if |cols| > 0 {
      assert cols[0] in cols;
    }
  }

  /** is_terminal_node, with the short-circuit order of the source. */
  method IsTerminalNode(board: array2<Cell>) returns (terminal: bool)
    requires IsBoard(board)
    ensures terminal == IsTerminal(Cells(board))
  {
    var playerWon, _ := WinningMove(board, PlayerPiece);
    if playerWon {
      return true;
    }
    var aiWon, _ := WinningMove(board, AiPiece);
    if aiWon {
      return true;
    }
    var validLocations := GetValidLocations(board);
    return |validLocations| == 0;
  }
}
