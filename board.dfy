/** The 6x7 board of the game: cells, gravity placement and the queries on
    which columns still accept a piece. Row 0 is the bottom row. */
module Board {

  datatype Option<T> = None | Some(value: T)

  const RowCount: int := 6
  const ColumnCount: int := 7
  const WindowLength: int := 4

  /** A cell holds 0 (empty), 1 (the player's piece) or 2 (the AI's piece). */
  type Cell = x: int | 0 <= x <= 2
  type Piece = x: int | x == 1 || x == 2 witness 1

  const Empty: Cell := 0
  const PlayerPiece: Piece := 1
  const AiPiece: Piece := 2

  /** The value of a board: a sequence of rows, each a sequence of cells. */
  type Grid = seq<seq<Cell>>

  predicate IsGrid(g: Grid) {
    |g| == RowCount && forall r :: 0 <= r < RowCount ==> |g[r]| == ColumnCount
  }

  predicate IsBoard(board: array2<Cell>) {
    board.Length0 == RowCount && board.Length1 == ColumnCount
  }

  /** The current contents of a board array, as a value. */
  function Cells(board: array2<Cell>): (g: Grid)
    requires IsBoard(board)
    reads board
    ensures IsGrid(g)
    ensures forall r, c :: 0 <= r < RowCount && 0 <= c < ColumnCount ==> g[r][c] == board[r, c]
  {
    seq(RowCount, r requires 0 <= r < RowCount reads board =>
      seq(ColumnCount, c requires 0 <= c < ColumnCount reads board => board[r, c]))
  }

  lemma GridEquality(g: Grid, h: Grid)
    requires IsGrid(g) && IsGrid(h)
    requires forall r, c :: 0 <= r < RowCount && 0 <= c < ColumnCount ==> g[r][c] == h[r][c]
    ensures g == h
  {
    forall r | 0 <= r < RowCount
      ensures g[r] == h[r]
    {
      assert forall c :: 0 <= c < ColumnCount ==> g[r][c] == h[r][c];
    }
  }

  function EmptyGrid(): (g: Grid)
    ensures IsGrid(g)
    ensures forall r, c :: 0 <= r < RowCount && 0 <= c < ColumnCount ==> g[r][c] == Empty
  {
    seq(RowCount, r => seq(ColumnCount, c => Empty))
  }

  // ---------------------------------------------------------------------------
  // Coordinates and the four directions of a line of four

  /** A (row, column) pair, as the source's coordinate tuples. */
  type Coord = (int, int)

  predicate InBounds(p: Coord) {
    0 <= p.0 < RowCount && 0 <= p.1 < ColumnCount
  }

  function At(g: Grid, p: Coord): Cell
    requires IsGrid(g) && InBounds(p)
  {
    g[p.0][p.1]
  }

  /** +column, +row, +row+column and -row+column. */
  datatype Direction = Horizontal | Vertical | Ascending | Descending

  function RowStep(d: Direction): int {
    match d
    case Horizontal => 0
    case Vertical => 1
    case Ascending => 1
    case Descending => -1
  }

  function ColumnStep(d: Direction): int {
    if d == Vertical then 0 else 1
  }

  /** The four coordinates starting at (r, c) and stepping in direction d. */
  function LineAt(d: Direction, r: int, c: int): (line: seq<Coord>)
    ensures |line| == WindowLength && line[0] == (r, c)
  {
    var dr, dc := RowStep(d), ColumnStep(d);
    [(r, c), (r + dr, c + dc), (r + 2 * dr, c + 2 * dc), (r + 3 * dr, c + 3 * dc)]
  }

  // ---------------------------------------------------------------------------
  // Placement

  /** The board after setting cell (row, col) to piece. */
  function Drop(g: Grid, row: int, col: int, piece: Piece): (h: Grid)
    requires IsGrid(g) && 0 <= row < RowCount && 0 <= col < ColumnCount
    ensures IsGrid(h)
    ensures h[row][col] == piece
    ensures forall r, c :: 0 <= r < RowCount && 0 <= c < ColumnCount && (r, c) != (row, col) ==> h[r][c] == g[r][c]
  {
    var cell: Cell := piece;
    var newRow: seq<Cell> := g[row][col := cell];
    g[row := newRow]
  }

  /** The lowest empty row of column col, or None when the column is full. */
  function NextOpenRow(g: Grid, col: int): (row: Option<int>)
    requires IsGrid(g) && 0 <= col < ColumnCount
    ensures row.Some? ==> 0 <= row.value < RowCount && g[row.value][col] == Empty
    ensures row.Some? ==> forall r :: 0 <= r < row.value ==> g[r][col] != Empty
    ensures row.None? <==> forall r :: 0 <= r < RowCount ==> g[r][col] != Empty
  {
    OpenRowFrom(g, col, 0)
  }

  function OpenRowFrom(g: Grid, col: int, from: int): (row: Option<int>)
    requires IsGrid(g) && 0 <= col < ColumnCount && 0 <= from <= RowCount
    ensures row.Some? ==> from <= row.value < RowCount && g[row.value][col] == Empty
    ensures row.Some? ==> forall r :: from <= r < row.value ==> g[r][col] != Empty
    ensures row.None? <==> forall r :: from <= r < RowCount ==> g[r][col] != Empty
    decreases RowCount - from
  {
    if from == RowCount then None
    else if g[from][col] == Empty then Some(from)
    else OpenRowFrom(g, col, from + 1)
  }

  /** A piece may be dropped in col when its top cell is empty. */
  predicate IsValidLocation(g: Grid, col: int)
    requires IsGrid(g) && 0 <= col < ColumnCount
  {
    g[RowCount - 1][col] == Empty
  }

  /** The board after dropping piece into the valid column col. */
  function Child(g: Grid, col: int, piece: Piece): (h: Grid)
    requires IsGrid(g) && 0 <= col < ColumnCount && IsValidLocation(g, col)
    ensures IsGrid(h)
  {
    Drop(g, NextOpenRow(g, col).value, col, piece)
  }

  /** The valid columns, in ascending order. */
  function ValidLocations(g: Grid): (cols: seq<int>)
    requires IsGrid(g)
    ensures forall c :: c in cols <==> 0 <= c < ColumnCount && IsValidLocation(g, c)
    ensures forall i, j :: 0 <= i < j < |cols| ==> cols[i] < cols[j]
  {
    ValidBelow(g, ColumnCount)
  }

  /** The valid columns among 0 .. n-1, in ascending order. */
  function ValidBelow(g: Grid, n: int): (cols: seq<int>)
    requires IsGrid(g) && 0 <= n <= ColumnCount
    ensures forall c :: c in cols <==> 0 <= c < n && IsValidLocation(g, c)
    ensures forall i :: 0 <= i < |cols| ==> 0 <= cols[i] < n
    ensures forall i, j :: 0 <= i < j < |cols| ==> cols[i] < cols[j]
  {
    if n == 0 then []
    else ValidBelow(g, n - 1) + (if IsValidLocation(g, n - 1) then [n - 1] else [])
  }

  /** When every column below n is valid, ValidBelow lists them all. */
  lemma {:induction false} AllColumnsValidBelow(g: Grid, n: int)
    requires IsGrid(g) && 0 <= n <= ColumnCount
    requires forall c :: 0 <= c < n ==> IsValidLocation(g, c)
    ensures ValidBelow(g, n) == seq(n, i => i)
  {
    if n > 0 {
      AllColumnsValidBelow(g, n - 1);
      assert seq(n - 1, i => i) + [n - 1] == seq(n, i => i);
    }
  }

  /** On an empty board every column is valid. */
  lemma EmptyBoardAllValid()
    ensures ValidLocations(EmptyGrid()) == [0, 1, 2, 3, 4, 5, 6]
  {
    AllColumnsValidBelow(EmptyGrid(), ColumnCount);
    assert seq(ColumnCount, i => i) == [0, 1, 2, 3, 4, 5, 6];
  }

  // ---------------------------------------------------------------------------
  // Gravity: the occupied cells of each column form a run from row 0

  predicate Gravity(g: Grid)
    requires IsGrid(g)
  {
    forall r1, r2, c :: 0 <= r1 < r2 < RowCount && 0 <= c < ColumnCount && g[r2][c] != Empty ==> g[r1][c] != Empty
  }

  /** The number of occupied cells among rows 0 .. n-1 of column c. */
  function Occupied(g: Grid, c: int, n: int): (k: int)
    requires IsGrid(g) && 0 <= c < ColumnCount && 0 <= n <= RowCount
    ensures 0 <= k <= n
  {
    if n == 0 then 0 else Occupied(g, c, n - 1) + (if g[n - 1][c] != Empty then 1 else 0)
  }

  function Height(g: Grid, c: int): int
    requires IsGrid(g) && 0 <= c < ColumnCount
  {
    Occupied(g, c, RowCount)
  }

  /** A column whose cells are occupied exactly below h holds min(n, h) pieces below n. */
  lemma {:induction false} OccupiedRun(g: Grid, c: int, h: int, n: int)
    requires IsGrid(g) && 0 <= c < ColumnCount && 0 <= h <= RowCount && 0 <= n <= RowCount
    requires forall r :: 0 <= r < RowCount ==> (g[r][c] != Empty <==> r < h)
    ensures Occupied(g, c, n) == if n < h then n else h
  {
    if n > 0 {
      OccupiedRun(g, c, h, n - 1);
    }
  }

  lemma {:induction false} OccupiedSameColumn(g: Grid, g': Grid, c: int, n: int)
    requires IsGrid(g) && IsGrid(g') && 0 <= c < ColumnCount && 0 <= n <= RowCount
    requires forall r :: 0 <= r < RowCount ==> g[r][c] == g'[r][c]
    ensures Occupied(g, c, n) == Occupied(g', c, n)
  {
    if n > 0 {
      OccupiedSameColumn(g, g', c, n - 1);
    }
  }

  /** Under gravity the next open row is the column's height, and a column is
      valid exactly when it is not full. */
  lemma OpenRowIsHeight(g: Grid, c: int)
    requires IsGrid(g) && Gravity(g) && 0 <= c < ColumnCount
    ensures 0 <= Height(g, c) <= RowCount
    ensures NextOpenRow(g, c) == if Height(g, c) < RowCount then Some(Height(g, c)) else None
    ensures IsValidLocation(g, c) <==> Height(g, c) < RowCount
  {
    match NextOpenRow(g, c)
    case Some(h) =>
      assert forall r :: 0 <= r < RowCount ==> (g[r][c] != Empty <==> r < h);
      OccupiedRun(g, c, h, RowCount);
    case None =>
      OccupiedRun(g, c, RowCount, RowCount);
  }

  /** Dropping a piece at the next open row of a valid column keeps gravity,
      raises that column by one and leaves the other columns' heights alone. */
  lemma DropAtOpenRow(g: Grid, c: int, piece: Piece)
    requires IsGrid(g) && Gravity(g) && 0 <= c < ColumnCount && IsValidLocation(g, c)
    ensures Gravity(Child(g, c, piece))
    ensures Height(Child(g, c, piece), c) == Height(g, c) + 1
    ensures forall c' :: 0 <= c' < ColumnCount && c' != c ==> Height(Child(g, c, piece), c') == Height(g, c')
  {
    var h := Child(g, c, piece);
    OpenRowIsHeight(g, c);
    var row := Height(g, c);
    assert h == Drop(g, row, c, piece);
    assert forall r :: 0 <= r < RowCount ==> (h[r][c] != Empty <==> r < row + 1);
    OccupiedRun(h, c, row + 1, RowCount);
    forall c' | 0 <= c' < ColumnCount && c' != c
      ensures Height(h, c') == Height(g, c')
    {
      OccupiedSameColumn(g, h, c', RowCount);
    }
    forall r1, r2, c' | 0 <= r1 < r2 < RowCount && 0 <= c' < ColumnCount && h[r2][c'] != Empty
      ensures h[r1][c'] != Empty
    {
      if c' != c {
        assert g[r2][c'] != Empty;
      }
    }
  }

  /** The board after dropping the given pieces one by one into column c. */
  function DropMany(g: Grid, c: int, pieces: seq<Piece>): (h: Grid)
    requires IsGrid(g) && Gravity(g) && 0 <= c < ColumnCount
    requires Height(g, c) + |pieces| <= RowCount
    ensures IsGrid(h) && Gravity(h)
    ensures Height(h, c) == Height(g, c) + |pieces|
    decreases |pieces|
  {
    if pieces == [] then g
    else
      OpenRowIsHeight(g, c);
      DropAtOpenRow(g, c, pieces[0]);
      DropMany(Child(g, c, pieces[0]), c, pieces[1..])
  }

  /** A column that has received six drops is no longer a valid location. */
  lemma SixDropsFillColumn(c: int, pieces: seq<Piece>)
    requires 0 <= c < ColumnCount && |pieces| == RowCount
    ensures Gravity(EmptyGrid()) && Height(EmptyGrid(), c) == 0
    ensures c !in ValidLocations(DropMany(EmptyGrid(), c, pieces))
  {
    var e := EmptyGrid();
    OccupiedRun(e, c, 0, RowCount);
    var h := DropMany(e, c, pieces);
    OpenRowIsHeight(h, c);
  }

  // ---------------------------------------------------------------------------
  // The imperative operations on a board array

  method CreateBoard() returns (board: array2<Cell>)
    ensures fresh(board) && IsBoard(board)
    ensures Cells(board) == EmptyGrid()
  {
    board := new Cell[RowCount, ColumnCount]((r, c) => Empty);
    GridEquality(Cells(board), EmptyGrid());
  }

  /** Writes piece into cell (row, col), without checking anything. */
  method DropPiece(board: array2<Cell>, row: int, col: int, piece: Piece)
    requires IsBoard(board) && 0 <= row < RowCount && 0 <= col < ColumnCount
    modifies board
    ensures board[row, col] == piece
    ensures forall r, c :: 0 <= r < RowCount && 0 <= c < ColumnCount && (r, c) != (row, col) ==> board[r, c] == old(board[r, c])
    ensures Cells(board) == Drop(old(Cells(board)), row, col, piece)
  {
    ghost var before := Cells(board);
    board[row, col] := piece;
    GridEquality(Cells(board), Drop(before, row, col, piece));
  }

  /** An independent copy of the board. */
  method CopyBoard(board: array2<Cell>) returns (copy: array2<Cell>)
    requires IsBoard(board)
    ensures fresh(copy) && IsBoard(copy)
    ensures Cells(copy) == Cells(board)
  {
    copy := new Cell[RowCount, ColumnCount]((r, c) requires 0 <= r < RowCount && 0 <= c < ColumnCount reads board => board[r, c]);
    GridEquality(Cells(copy), Cells(board));
  }

  method GetNextOpenRow(board: array2<Cell>, col: int) returns (row: Option<int>)
    requires IsBoard(board) && 0 <= col < ColumnCount
    ensures row == NextOpenRow(Cells(board), col)
  {
    ghost var g := Cells(board);
    for r := 0 to RowCount
      invariant OpenRowFrom(g, col, r) == OpenRowFrom(g, col, 0)
    {
      if board[r, col] == Empty {
        return Some(r);
      }
    }
    return None;
  }

  /** is_valid_location: reads the top cell of col only. A valid column
      always has an open row for the drop that follows. */
  method CheckValidLocation(board: array2<Cell>, col: int) returns (valid: bool)
    requires IsBoard(board) && 0 <= col < ColumnCount
    ensures valid == IsValidLocation(Cells(board), col)
    ensures valid ==> NextOpenRow(Cells(board), col).Some?
  {
    valid := board[RowCount - 1, col] == Empty;
  }

  method GetValidLocations(board: array2<Cell>) returns (validLocations: seq<int>)
    requires IsBoard(board)
    ensures validLocations == ValidLocations(Cells(board))
  {
    validLocations := [];
    for col := 0 to ColumnCount
      invariant validLocations == ValidBelow(Cells(board), col)
    {
      var valid := CheckValidLocation(board, col);
      if valid {
        validLocations := validLocations + [col];
      }
    }
  }
}
