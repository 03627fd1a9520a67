/** The static evaluation of a position: each window of four cells is scored
    for one piece, the centre column earns a bonus, and the position score is
    the total. */
module Evaluator {
  import opened Board
  import opened WinDetector

  /** How many times x occurs in s (list.count). */
  function Count(s: seq<Cell>, x: Cell): (n: nat)
    ensures n <= |s|
  {
    if |s| == 0 then 0 else Count(s[..|s| - 1], x) + (if s[|s| - 1] == x then 1 else 0)
  }

  lemma {:induction false} CountIsMultiplicity(s: seq<Cell>, x: Cell)
    ensures Count(s, x) == multiset(s)[x]
  {
    if |s| > 0 {
      CountIsMultiplicity(s[..|s| - 1], x);
      assert s == s[..|s| - 1] + [s[|s| - 1]];
    }
  }

  /** The other player's piece. */
  function Opponent(piece: Piece): (opp: Piece)
    ensures opp != piece
  {
    if piece == PlayerPiece then AiPiece else PlayerPiece
  }

  // ---------------------------------------------------------------------------
  // One window

  /** The score of a window for piece: a bonus for own pieces with room to
      complete four, minus a penalty for an opponent threat. */
  function EvaluateWindow(window: seq<Cell>, piece: Piece): (score: int)
    ensures -4 <= score <= 100
  {
    var own := Count(window, piece);
    var empty := Count(window, Empty);
    var bonus :=
      if own == 4 then 100
      else if own == 3 && empty == 1 then 5
      else if own == 2 && empty == 2 then 2
      else 0;
    var penalty := if Count(window, Opponent(piece)) == 3 && empty == 1 then 4 else 0;
    bonus - penalty
  }

  /** Every cell is empty, holds piece or holds the opponent's piece. */
  lemma {:induction false} CountPartition(s: seq<Cell>, piece: Piece)
    ensures Count(s, piece) + Count(s, Opponent(piece)) + Count(s, Empty) == |s|
  {
    if |s| > 0 {
      CountPartition(s[..|s| - 1], piece);
    }
  }

  /** A window of four holding a piece of the given multiplicities. */
  lemma FourOf(window: seq<Cell>, piece: Piece, x: Cell, k: nat, expected: multiset<Cell>)
    requires |window| == WindowLength && x != piece && k <= 4
    requires expected[piece] == k && expected[x] == 4 - k && |expected| == 4
    ensures multiset(window) == expected <==> Count(window, piece) == k && Count(window, x) == 4 - k
  {
    CountIsMultiplicity(window, piece);
    CountIsMultiplicity(window, x);
    var m := multiset(window);
    assert |m| == 4;
    if Count(window, piece) == k && Count(window, x) == 4 - k {
      forall y: Cell | y != piece && y != x
        ensures m[y] == 0 && expected[y] == 0
      {
        MultiplicitiesFit(m, piece, x, y);
        MultiplicitiesFit(expected, piece, x, y);
      }
      assert m == expected;
    }
  }

  /** Three distinct elements together occur no more often than the size of the multiset. */
  lemma MultiplicitiesFit(m: multiset<Cell>, a: Cell, b: Cell, c: Cell)
    requires a != b && b != c && a != c
    ensures m[a] + m[b] + m[c] <= |m|
  {
    var rest := m[a := 0][b := 0][c := 0];
    var part := multiset{}[a := m[a]][b := m[b]][c := m[c]];
    assert m == rest + part;
  }

  /** The score of a window of four in terms of its counts: each score
      value corresponds to exactly one combination of counts. */
  lemma ScoreByCounts(window: seq<Cell>, piece: Piece)
    requires |window| == WindowLength
    ensures var score, own, opp, empty :=
        EvaluateWindow(window, piece), Count(window, piece), Count(window, Opponent(piece)), Count(window, Empty);
      (score == 100 <==> own == 4) &&
      (score == 5 <==> own == 3 && empty == 1) &&
      (score == 2 <==> own == 2 && empty == 2) &&
      (score == -4 <==> opp == 3 && empty == 1) &&
      (score == 100 || score == 5 || score == 2 || score == -4 || score == 0)
  {
    CountPartition(window, piece);
  }

  /** For a window of four cells the score is decided by the window's contents
      alone, and each value belongs to exactly one pattern. */
  lemma WindowScores(window: seq<Cell>, piece: Piece)
    requires |window| == WindowLength
    ensures var score, opp := EvaluateWindow(window, piece), Opponent(piece);
      (score == 100 <==> multiset(window) == multiset{piece, piece, piece, piece}) &&
      (score == 5 <==> multiset(window) == multiset{piece, piece, piece, Empty}) &&
      (score == 2 <==> multiset(window) == multiset{piece, piece, Empty, Empty}) &&
      (score == -4 <==> multiset(window) == multiset{opp, opp, opp, Empty}) &&
      (score == 100 || score == 5 || score == 2 || score == -4 || score == 0)
  {
    FourOwn(window, piece);
    ThreeOwn(window, piece);
    TwoOwn(window, piece);
    ThreeOpponent(window, piece);
    ScoreByCounts(window, piece);
  }

  lemma FourOwn(window: seq<Cell>, piece: Piece)
    requires |window| == WindowLength
    ensures EvaluateWindow(window, piece) == 100 <==> multiset(window) == multiset{piece, piece, piece, piece}
  {
    CountPartition(window, piece);
    ScoreByCounts(window, piece);
    FourOf(window, piece, Empty, 4, multiset{piece, piece, piece, piece});
  }

  lemma ThreeOwn(window: seq<Cell>, piece: Piece)
    requires |window| == WindowLength
    ensures EvaluateWindow(window, piece) == 5 <==> multiset(window) == multiset{piece, piece, piece, Empty}
  {
    ScoreByCounts(window, piece);
    FourOf(window, piece, Empty, 3, multiset{piece, piece, piece, Empty});
  }

  lemma TwoOwn(window: seq<Cell>, piece: Piece)
    requires |window| == WindowLength
    ensures EvaluateWindow(window, piece) == 2 <==> multiset(window) == multiset{piece, piece, Empty, Empty}
  {
    ScoreByCounts(window, piece);
    FourOf(window, piece, Empty, 2, multiset{piece, piece, Empty, Empty});
  }

  lemma ThreeOpponent(window: seq<Cell>, piece: Piece)
    requires |window| == WindowLength
    ensures var opp := Opponent(piece);
      EvaluateWindow(window, piece) == -4 <==> multiset(window) == multiset{opp, opp, opp, Empty}
  {
    var opp := Opponent(piece);
    ScoreByCounts(window, piece);
    FourOf(window, opp, Empty, 3, multiset{opp, opp, opp, Empty});
  }

  // ---------------------------------------------------------------------------
  // The windows of a position

  /** The cells of the four positions from (r, c) in direction d. */
  function Window(g: Grid, d: Direction, r: int, c: int): (window: seq<Cell>)
    requires IsGrid(g) && InBounds((r, c)) && InBounds((r + 3 * RowStep(d), c + 3 * ColumnStep(d)))
    ensures |window| == WindowLength
  {
    var dr, dc := RowStep(d), ColumnStep(d);
    [g[r][c], g[r + dr][c + dc], g[r + 2 * dr][c + 2 * dc], g[r + 3 * dr][c + 3 * dc]]
  }

  /** The number of outer and inner iterations of the scoring loops of each
      direction: rows then columns, except vertical, columns then rows. */
  function OuterCount(d: Direction): int {
    match d
    case Horizontal => RowCount
    case Vertical => ColumnCount
    case Ascending => RowCount - 3
    case Descending => RowCount - 3
  }

  function InnerCount(d: Direction): int {
    if d == Vertical then RowCount - 3 else ColumnCount - 3
  }

  /** The first cell of the window in outer iteration i, inner iteration j;
      a descending window starts three rows up and steps down. */
  function WindowStart(d: Direction, i: int, j: int): Coord {
    match d
    case Horizontal => (i, j)
    case Vertical => (j, i)
    case Ascending => (i, j)
    case Descending => (i + 3, j)
  }

  /** The scoring loops visit exactly the starts the win scan visits: every
      window of four on the board, each once. */
  lemma WindowStartsAreCandidates(d: Direction)
    ensures forall i, j :: 0 <= i < OuterCount(d) && 0 <= j < InnerCount(d) ==>
      InScan(d, WindowStart(d, i, j).0, WindowStart(d, i, j).1)
    ensures forall r, c :: InScan(d, r, c) ==>
      exists i, j :: 0 <= i < OuterCount(d) && 0 <= j < InnerCount(d) && WindowStart(d, i, j) == (r, c)
    ensures forall i1, j1, i2, j2 ::
      (0 <= i1 < OuterCount(d) && 0 <= j1 < InnerCount(d) && 0 <= i2 < OuterCount(d) && 0 <= j2 < InnerCount(d) &&
       WindowStart(d, i1, j1) == WindowStart(d, i2, j2)) ==> i1 == i2 && j1 == j2
  {
    forall r, c | InScan(d, r, c)
      ensures exists i, j :: 0 <= i < OuterCount(d) && 0 <= j < InnerCount(d) && WindowStart(d, i, j) == (r, c)
    {
      match d
      case Horizontal => assert WindowStart(d, r, c) == (r, c);
      case Vertical => assert WindowStart(d, c, r) == (r, c);
      case Ascending => assert WindowStart(d, r, c) == (r, c);
      case Descending => assert WindowStart(d, r - 3, c) == (r, c);
    }
  }

  /** There are 69 windows: 24 horizontal, 21 vertical and 12 on each diagonal. */
  lemma WindowTotal()
    ensures forall d :: WindowCount(d, OuterCount(d)) == OuterCount(d) * InnerCount(d)
    ensures WindowCount(Horizontal, OuterCount(Horizontal)) + WindowCount(Vertical, OuterCount(Vertical)) +
            WindowCount(Ascending, OuterCount(Ascending)) + WindowCount(Descending, OuterCount(Descending)) == 69
  {
    forall d: Direction
      ensures WindowCount(d, OuterCount(d)) == OuterCount(d) * InnerCount(d)
    {
      WindowCountIsProduct(d, OuterCount(d));
    }
  }

  /** Every outer iteration has the same number of windows. */
  lemma {:induction false} WindowCountIsProduct(d: Direction, n: nat)
    ensures WindowCount(d, n) == n * InnerCount(d)
  {
    if n > 0 {
      WindowCountIsProduct(d, n - 1);
    }
  }

  function WindowIn(g: Grid, d: Direction, i: int, j: int): (window: seq<Cell>)
    requires IsGrid(g) && 0 <= i < OuterCount(d) && 0 <= j < InnerCount(d)
    ensures |window| == WindowLength
  {
    var start := WindowStart(d, i, j);
    Window(g, d, start.0, start.1)
  }

  /** The total over the first n inner iterations of outer iteration i. */
  function InnerSum(g: Grid, piece: Piece, d: Direction, i: int, n: int): int
    requires IsGrid(g) && 0 <= i < OuterCount(d) && 0 <= n <= InnerCount(d)
  {
    if n == 0 then 0 else InnerSum(g, piece, d, i, n - 1) + EvaluateWindow(WindowIn(g, d, i, n - 1), piece)
  }

  /** The total over the first n outer iterations. */
  function OuterSum(g: Grid, piece: Piece, d: Direction, n: int): int
    requires IsGrid(g) && 0 <= n <= OuterCount(d)
  {
    if n == 0 then 0 else OuterSum(g, piece, d, n - 1) + InnerSum(g, piece, d, n - 1, InnerCount(d))
  }

  /** n windows score between -4n and 100n together. */
  lemma {:induction false} InnerBounds(g: Grid, piece: Piece, d: Direction, i: int, n: int)
    requires IsGrid(g) && 0 <= i < OuterCount(d) && 0 <= n <= InnerCount(d)
    ensures -4 * n <= InnerSum(g, piece, d, i, n) <= 100 * n
  {
    if n == 0 {
      assert InnerSum(g, piece, d, i, n) == 0;
    } else {
      InnerBounds(g, piece, d, i, n - 1);
      var before, score := InnerSum(g, piece, d, i, n - 1), EvaluateWindow(WindowIn(g, d, i, n - 1), piece);
      assert InnerSum(g, piece, d, i, n) == before + score;
      assert -4 * n <= before + score <= 100 * n;
    }
  }

  /** The number of windows in the first n outer iterations of direction d. */
  function WindowCount(d: Direction, n: nat): nat {
    if n == 0 then 0 else WindowCount(d, n - 1) + InnerCount(d)
  }

  /** The windows of the first n outer iterations score between -4 and 100
      each. */
  lemma {:induction false} OuterBounds(g: Grid, piece: Piece, d: Direction, n: int)
    requires IsGrid(g) && 0 <= n <= OuterCount(d)
    ensures -4 * WindowCount(d, n) <= OuterSum(g, piece, d, n) <= 100 * WindowCount(d, n)
  {
    if n == 0 {
      assert OuterSum(g, piece, d, n) == 0 && WindowCount(d, n) == 0;
    } else {
      OuterBounds(g, piece, d, n - 1);
      InnerBounds(g, piece, d, n - 1, InnerCount(d));
      var k := InnerCount(d);
      var before, row := OuterSum(g, piece, d, n - 1), InnerSum(g, piece, d, n - 1, k);
      var windows := WindowCount(d, n - 1);
      assert OuterSum(g, piece, d, n) == before + row;
      assert WindowCount(d, n) == windows + k;
      assert -4 * (windows + k) <= before + row <= 100 * (windows + k);
    }
  }

  function DirectionScore(g: Grid, piece: Piece, d: Direction): int
    requires IsGrid(g)
  {
    OuterSum(g, piece, d, OuterCount(d))
  }

  /** Column c, bottom to top. */
  function Column(g: Grid, c: int): (column: seq<Cell>)
    requires IsGrid(g) && 0 <= c < ColumnCount
    ensures |column| == RowCount
    ensures forall r :: 0 <= r < RowCount ==> column[r] == g[r][c]
  {
    seq(RowCount, r requires 0 <= r < RowCount => g[r][c])
  }

  /** score_position: three points per own piece in the centre column plus
      the score of every window of four. All 69 windows score at least -4
      and at most 100, and the centre bonus is between 0 and 18. */
  function PositionScore(g: Grid, piece: Piece): (score: int)
    requires IsGrid(g)
    ensures -276 <= score <= 6918
  {
    OuterBounds(g, piece, Horizontal, 6);
    OuterBounds(g, piece, Vertical, 7);
    OuterBounds(g, piece, Ascending, 3);
    OuterBounds(g, piece, Descending, 3);
    assert WindowCount(Horizontal, 6) == 24 && WindowCount(Vertical, 7) == 21;
    assert WindowCount(Ascending, 3) == 12 && WindowCount(Descending, 3) == 12;
    3 * Count(Column(g, ColumnCount / 2), piece) +
    DirectionScore(g, piece, Horizontal) + DirectionScore(g, piece, Vertical) +
    DirectionScore(g, piece, Ascending) + DirectionScore(g, piece, Descending)
  }

  // ---------------------------------------------------------------------------
  // Properties of the evaluation

  lemma {:induction false} CountAbsent(s: seq<Cell>, x: Cell)
    requires forall i :: 0 <= i < |s| ==> s[i] != x
    ensures Count(s, x) == 0
  {
    if |s| > 0 {
      CountAbsent(s[..|s| - 1], x);
    }
  }

  /** A window of four empty cells scores 0. */
  lemma EmptyWindow(window: seq<Cell>, piece: Piece)
    requires window == [Empty, Empty, Empty, Empty]
    ensures EvaluateWindow(window, piece) == 0
  {
    CountAbsent(window, piece);
    CountAbsent(window, Opponent(piece));
  }

  lemma EmptyWindowIn(g: Grid, d: Direction, i: int, j: int)
    requires g == EmptyGrid() && 0 <= i < OuterCount(d) && 0 <= j < InnerCount(d)
    ensures WindowIn(g, d, i, j) == [Empty, Empty, Empty, Empty]
  {
  }

  /** Inner iterations whose windows all score 0 add up to 0. */
  lemma {:induction false} EmptyInnerSum(g: Grid, piece: Piece, d: Direction, i: int, n: int)
    requires IsGrid(g) && 0 <= i < OuterCount(d) && 0 <= n <= InnerCount(d)
    requires forall j :: 0 <= j < n ==> EvaluateWindow(WindowIn(g, d, i, j), piece) == 0
    ensures InnerSum(g, piece, d, i, n) == 0
  {
    if n == 0 {
      assert InnerSum(g, piece, d, i, n) == 0;
    } else {
      EmptyInnerSum(g, piece, d, i, n - 1);
      var before, score := InnerSum(g, piece, d, i, n - 1), EvaluateWindow(WindowIn(g, d, i, n - 1), piece);
      assert InnerSum(g, piece, d, i, n) == before + score;
    }
  }

  /** Outer iterations whose inner totals are all 0 add up to 0. */
  lemma {:induction false} EmptyOuterSum(g: Grid, piece: Piece, d: Direction, n: int)
    requires IsGrid(g) && 0 <= n <= OuterCount(d)
    requires forall i :: 0 <= i < n ==> InnerSum(g, piece, d, i, InnerCount(d)) == 0
    ensures OuterSum(g, piece, d, n) == 0
  {
    if n == 0 {
      assert OuterSum(g, piece, d, n) == 0;
    } else {
      EmptyOuterSum(g, piece, d, n - 1);
      var before, row := OuterSum(g, piece, d, n - 1), InnerSum(g, piece, d, n - 1, InnerCount(d));
      assert OuterSum(g, piece, d, n) == before + row;
    }
  }

  /** On the empty board every window of direction d scores 0, so d does too. */
  lemma EmptyDirection(g: Grid, piece: Piece, d: Direction)
    requires g == EmptyGrid()
    ensures DirectionScore(g, piece, d) == 0
  {
    forall i | 0 <= i < OuterCount(d)
      ensures InnerSum(g, piece, d, i, InnerCount(d)) == 0
    {
      forall j | 0 <= j < InnerCount(d)
        ensures EvaluateWindow(WindowIn(g, d, i, j), piece) == 0
      {
        EmptyWindowIn(g, d, i, j);
        EmptyWindow(WindowIn(g, d, i, j), piece);
      }
      EmptyInnerSum(g, piece, d, i, InnerCount(d));
    }
    EmptyOuterSum(g, piece, d, OuterCount(d));
  }

  /** The empty board is worth nothing to either piece. */
  lemma EmptyBoardScoresZero(g: Grid, piece: Piece)
    requires g == EmptyGrid()
    ensures PositionScore(g, piece) == 0
  {
    EmptyDirection(g, piece, Horizontal);
    EmptyDirection(g, piece, Vertical);
    EmptyDirection(g, piece, Ascending);
    EmptyDirection(g, piece, Descending);
    CountAbsent(Column(g, ColumnCount / 2), piece);
  }

  /** A line of four of piece is a window worth 100 to piece. */
  lemma WinningWindow(g: Grid, piece: Piece, d: Direction, r: int, c: int)
    requires IsGrid(g) && Filled(g, piece, d, r, c)
    ensures EvaluateWindow(Window(g, d, r, c), piece) == 100
  {
    var w := Window(g, d, r, c);
    assert w == [piece, piece, piece, piece];
    WindowScores(w, piece);
  }

  // ---------------------------------------------------------------------------
  // score_position as the source writes it

  /** row_array: a copy of row r of the board. */
  function RowArray(board: array2<Cell>, r: int): (row: seq<Cell>)
    requires IsBoard(board) && 0 <= r < RowCount
    reads board
    ensures row == Cells(board)[r]
  {
    seq(ColumnCount, c requires 0 <= c < ColumnCount reads board => board[r, c])
  }

  /** col_array (and center_array): a copy of column c of the board. */
  function ColumnArray(board: array2<Cell>, c: int): (column: seq<Cell>)
    requires IsBoard(board) && 0 <= c < ColumnCount
    reads board
    ensures column == Column(Cells(board), c)
  {
    seq(RowCount, r requires 0 <= r < RowCount reads board => board[r, c])
  }

  /** [board[r + i][c + i] for i in range(4)] */
  function AscendingArray(board: array2<Cell>, r: int, c: int): (window: seq<Cell>)
    requires IsBoard(board) && 0 <= r < OuterCount(Ascending) && 0 <= c < InnerCount(Ascending)
    reads board
    ensures window == WindowIn(Cells(board), Ascending, r, c)
  {
    seq(WindowLength, i requires 0 <= i < WindowLength reads board => board[r + i, c + i])
  }

  /** [board[r + 3 - i][c + i] for i in range(4)] */
  function DescendingArray(board: array2<Cell>, r: int, c: int): (window: seq<Cell>)
    requires IsBoard(board) && 0 <= r < OuterCount(Descending) && 0 <= c < InnerCount(Descending)
    reads board
    ensures window == WindowIn(Cells(board), Descending, r, c)
  {
    seq(WindowLength, i requires 0 <= i < WindowLength reads board => board[r + 3 - i, c + i])
  }

  lemma RowWindow(g: Grid, r: int, c: int)
    requires IsGrid(g) && 0 <= r < OuterCount(Horizontal) && 0 <= c < InnerCount(Horizontal)
    ensures g[r][c..c + WindowLength] == WindowIn(g, Horizontal, r, c)
  {
  }

  lemma ColumnWindow(g: Grid, c: int, r: int)
    requires IsGrid(g) && 0 <= c < OuterCount(Vertical) && 0 <= r < InnerCount(Vertical)
    ensures Column(g, c)[r..r + WindowLength] == WindowIn(g, Vertical, c, r)
  {
  }

  /** One inner iteration adds the score of its window. */
  lemma InnerStep(g: Grid, piece: Piece, d: Direction, i: int, j: int, window: seq<Cell>)
    requires IsGrid(g) && 0 <= i < OuterCount(d) && 0 <= j < InnerCount(d) && window == WindowIn(g, d, i, j)
    ensures InnerSum(g, piece, d, i, j + 1) == InnerSum(g, piece, d, i, j) + EvaluateWindow(window, piece)
  {
  }

  /** One outer iteration adds the total of its inner iterations. */
  lemma OuterStep(g: Grid, piece: Piece, d: Direction, i: int)
    requires IsGrid(g) && 0 <= i < OuterCount(d)
    ensures OuterSum(g, piece, d, i + 1) == OuterSum(g, piece, d, i) + InnerSum(g, piece, d, i, InnerCount(d))
  {
  }

  /** The horizontal loops: each row copied, then its four windows scored. */
  method ScoreHorizontal(board: array2<Cell>, piece: Piece) returns (score: int)
    requires IsBoard(board)
    ensures score == DirectionScore(Cells(board), piece, Horizontal)
  {
    ghost var g := Cells(board);
    score := 0;
    for r := 0 to RowCount
      invariant score == OuterSum(g, piece, Horizontal, r)
    {
      var rowArray := RowArray(board, r);
      for c := 0 to ColumnCount - 3
        invariant score == OuterSum(g, piece, Horizontal, r) + InnerSum(g, piece, Horizontal, r, c)
      {
        var window := rowArray[c..c + WindowLength];
        RowWindow(g, r, c);
        InnerStep(g, piece, Horizontal, r, c, window);
        score := score + EvaluateWindow(window, piece);
      }
      OuterStep(g, piece, Horizontal, r);
    }
  }

  /** The vertical loops: each column copied, then its three windows scored. */
  method ScoreVertical(board: array2<Cell>, piece: Piece) returns (score: int)
    requires IsBoard(board)
    ensures score == DirectionScore(Cells(board), piece, Vertical)
  {
    ghost var g := Cells(board);
    score := 0;
    for c := 0 to ColumnCount
      invariant score == OuterSum(g, piece, Vertical, c)
    {
      var colArray := ColumnArray(board, c);
      for r := 0 to RowCount - 3
        invariant score == OuterSum(g, piece, Vertical, c) + InnerSum(g, piece, Vertical, c, r)
      {
        var window := colArray[r..r + WindowLength];
        ColumnWindow(g, c, r);
        InnerStep(g, piece, Vertical, c, r, window);
        score := score + EvaluateWindow(window, piece);
      }
      OuterStep(g, piece, Vertical, c);
    }
  }

  /** The positively sloped loops: window cells (r + i, c + i). */
  method ScoreAscending(board: array2<Cell>, piece: Piece) returns (score: int)
    requires IsBoard(board)
    ensures score == DirectionScore(Cells(board), piece, Ascending)
  {
    ghost var g := Cells(board);
    score := 0;
    for r := 0 to RowCount - 3
      invariant score == OuterSum(g, piece, Ascending, r)
    {
      for c := 0 to ColumnCount - 3
        invariant score == OuterSum(g, piece, Ascending, r) + InnerSum(g, piece, Ascending, r, c)
      {
        var window := AscendingArray(board, r, c);
        InnerStep(g, piece, Ascending, r, c, window);
        score := score + EvaluateWindow(window, piece);
      }
      OuterStep(g, piece, Ascending, r);
    }
  }

  /** The negatively sloped loops: window cells (r + 3 - i, c + i). */
  method ScoreDescending(board: array2<Cell>, piece: Piece) returns (score: int)
    requires IsBoard(board)
    ensures score == DirectionScore(Cells(board), piece, Descending)
  {
    ghost var g := Cells(board);
    score := 0;
    for r := 0 to RowCount - 3
      invariant score == OuterSum(g, piece, Descending, r)
    {
      for c := 0 to ColumnCount - 3
        invariant score == OuterSum(g, piece, Descending, r) + InnerSum(g, piece, Descending, r, c)
      {
        var window := DescendingArray(board, r, c);
        InnerStep(g, piece, Descending, r, c, window);
        score := score + EvaluateWindow(window, piece);
      }
      OuterStep(g, piece, Descending, r);
    }
  }

  /** score_position: the centre bonus, then the four families of windows in
      the order of the source. */
  method ScorePosition(board: array2<Cell>, piece: Piece) returns (score: int)
    requires IsBoard(board)
    ensures score == PositionScore(Cells(board), piece)
  {
    score := 0;
    var centerArray := ColumnArray(board, ColumnCount / 2);
    var centerCount := Count(centerArray, piece);
    score := score + centerCount * 3;
    var horizontal := ScoreHorizontal(board, piece);
    score := score + horizontal;
    var vertical := ScoreVertical(board, piece);
    score := score + vertical;
    var ascending := ScoreAscending(board, piece);
    score := score + ascending;
    var descending := ScoreDescending(board, piece);
    score := score + descending;
  }
}
