/** The move search: depth-limited minimax with alpha-beta pruning over the
    children of the valid columns, and the one-ply greedy picker. */
module Search {
  import opened Board
  import opened WinDetector
  import opened Evaluator

  /** The score of a position the AI has won, and of one the player has won. */
  const AiWinScore: int := 100000000000000
  const PlayerWinScore: int := -10000000000000
  /** Stands in for math.inf: larger than every score the search produces. */
  const Infinity: int := 1000000000000000

  /** The range of every score the search returns. */
  predicate InRange(score: int) {
    PlayerWinScore <= score <= AiWinScore
  }

  function Max(a: int, b: int): int {
    if a >= b then a else b
  }

  function Min(a: int, b: int): int {
    if a <= b then a else b
  }

  /** x limited to the window [lo, hi]. */
  function Clamp(x: int, lo: int, hi: int): int {
    if x < lo then lo else if x > hi then hi else x
  }

  /** The piece the side to move drops: the AI maximises, the player minimises. */
  function Mover(maximizing: bool): Piece {
    if maximizing then AiPiece else PlayerPiece
  }

  /** The starting value of the loop: -inf for the maximiser, +inf for the minimiser. */
  function Sentinel(maximizing: bool): int {
    if maximizing then -Infinity else Infinity
  }

  /** x is strictly better than y for the side to move. */
  predicate Prefers(maximizing: bool, x: int, y: int) {
    if maximizing then x > y else x < y
  }

  /** A column (None at a leaf) and its score. */
  datatype SearchResult = SearchResult(column: Option<int>, score: int)

  /** The score of a leaf: a finished game, or the static evaluation for the AI
      when the depth is used up. A win for the AI is looked for first. */
  ghost function LeafScore(g: Grid): (score: int)
    requires IsGrid(g)
    ensures InRange(score)
  {
    if IsTerminal(g) then
      if HasWin(g, AiPiece) then AiWinScore
      else if HasWin(g, PlayerPiece) then PlayerWinScore
      else 0
    else PositionScore(g, AiPiece)
  }

  // ---------------------------------------------------------------------------
  // The column loop of minimax, given the scores of the children

  /** f(c, alpha, beta) is the score of the child reached through column c
      when it is searched with the window (alpha, beta). */
  type ChildValues = (int, int, int) -> int

  ghost predicate Bounded(f: ChildValues) {
    forall c, a, b :: InRange(f(c, a, b))
  }

  /** The loop from index i of cols on, with the current value, column and
      window; it stops as soon as alpha >= beta. Only a strictly better score
      replaces the value, so ties keep the earlier column. */
  function Scan(maximizing: bool, f: ChildValues, cols: seq<int>, i: int,
                alpha: int, beta: int, value: int, column: Option<int>): (result: SearchResult)
    requires Bounded(f) && 0 <= i <= |cols|
    requires column.None? ==> value == Sentinel(maximizing)
    requires column.Some? ==> InRange(value) && column.value in cols
    ensures result.column.Some? ==> InRange(result.score) && result.column.value in cols
    ensures column.Some? || i < |cols| ==> result.column.Some?
    decreases |cols| - i
  {
    if i == |cols| then SearchResult(column, value)
    else
      var col := cols[i];
      var newScore := f(col, alpha, beta);
      var better := Prefers(maximizing, newScore, value);
      var value' := if better then newScore else value;
      var column' := if better then Some(col) else column;
      var alpha' := if maximizing then Max(alpha, value') else alpha;
      var beta' := if maximizing then beta else Min(beta, value');
      if alpha' >= beta' then SearchResult(column', value')
      else Scan(maximizing, f, cols, i + 1, alpha', beta', value', column')
  }

  /** One turn of the loop, written out: either it cuts off with the updated
      value and column, or the rest of the loop continues with them. */
  lemma ScanStep(maximizing: bool, f: ChildValues, cols: seq<int>, i: int, col: int,
                 alpha: int, beta: int, value: int, column: Option<int>,
                 alpha': int, beta': int, value': int, column': Option<int>)
    requires Bounded(f) && 0 <= i < |cols| && col == cols[i]
    requires column.None? ==> value == Sentinel(maximizing)
    requires column.Some? ==> InRange(value) && column.value in cols
    requires var better := Prefers(maximizing, f(col, alpha, beta), value);
      value' == (if better then f(col, alpha, beta) else value) && column' == (if better then Some(col) else column)
    requires alpha' == (if maximizing then Max(alpha, value') else alpha)
    requires beta' == (if maximizing then beta else Min(beta, value'))
    ensures column'.Some? && InRange(value') && column'.value in cols
    ensures alpha' >= beta' ==> Scan(maximizing, f, cols, i, alpha, beta, value, column) == SearchResult(column', value')
    ensures alpha' < beta' ==>
      Scan(maximizing, f, cols, i, alpha, beta, value, column) == Scan(maximizing, f, cols, i + 1, alpha', beta', value', column')
  {
  }

  /** The same loop without the cut-off, over child scores m(c) that do not
      depend on a window. Before the first column the value is a seed that
      every score beats. */
  function PlainScan(maximizing: bool, m: int -> int, cols: seq<int>, i: int,
                     value: int, column: Option<int>): (result: SearchResult)
    requires (forall c :: InRange(m(c))) && 0 <= i <= |cols|
    requires column.None? ==> forall c :: Prefers(maximizing, m(c), value)
    requires column.Some? ==> InRange(value)
    ensures column.Some? || i < |cols| ==> result.column.Some? && InRange(result.score)
    ensures !Prefers(maximizing, value, result.score)
    decreases |cols| - i
  {
    if i == |cols| then SearchResult(column, value)
    else
      var col := cols[i];
      var better := Prefers(maximizing, m(col), value);
      PlainScan(maximizing, m, cols, i + 1, if better then m(col) else value, if better then Some(col) else column)
  }

  // ---------------------------------------------------------------------------
  // minimax with alpha-beta pruning, as the source computes it

  /** minimax(board, depth, alpha, beta, maximizingPlayer). */
  ghost function AlphaBeta(g: Grid, depth: nat, alpha: int, beta: int, maximizing: bool): (result: SearchResult)
    requires IsGrid(g)
    ensures InRange(result.score)
    ensures result.column.None? <==> depth == 0 || IsTerminal(g)
    ensures result.column.Some? ==> result.column.value in ValidLocations(g)
    decreases depth, 2
  {
    if depth == 0 || IsTerminal(g) then SearchResult(None, LeafScore(g))
    else Scan(maximizing, Children(g, depth, maximizing), ValidLocations(g), 0, alpha, beta, Sentinel(maximizing), None)
  }

  /** The pruned score of the child reached through column c, searched with
      the window (a, b); 0 for a column that cannot be played. */
  ghost function ChildValue(g: Grid, depth: nat, maximizing: bool, c: int, a: int, b: int): (score: int)
    requires IsGrid(g) && depth > 0
    ensures InRange(score)
    decreases depth, 0
  {
    if 0 <= c < ColumnCount && IsValidLocation(g, c)
    then AlphaBeta(Child(g, c, Mover(maximizing)), depth - 1, a, b, !maximizing).score
    else 0
  }

  /** The pruned scores of the children of g, one drop of the side to move
      away. */
  ghost function Children(g: Grid, depth: nat, maximizing: bool): (f: ChildValues)
    requires IsGrid(g) && depth > 0
    ensures Bounded(f)
    decreases depth, 1
  {
    (c, a, b) => ChildValue(g, depth, maximizing, c, a, b)
  }

  // ---------------------------------------------------------------------------
  // The same search without pruning: the reference the pruning is checked against

  ghost function PlainMinimax(g: Grid, depth: nat, maximizing: bool): (result: SearchResult)
    requires IsGrid(g)
    ensures InRange(result.score)
    ensures result.column.None? <==> depth == 0 || IsTerminal(g)
    decreases depth, 2
  {
    if depth == 0 || IsTerminal(g) then SearchResult(None, LeafScore(g))
    else PlainScan(maximizing, PlainChildren(g, depth, maximizing), ValidLocations(g), 0, Sentinel(maximizing), None)
  }

  /** The unpruned score of the child reached by dropping into col; 0 for a
      column that cannot be played. */
  ghost function ChildScore(g: Grid, depth: nat, maximizing: bool, col: int): (score: int)
    requires IsGrid(g) && depth > 0
    ensures InRange(score)
    decreases depth, 0
  {
    if 0 <= col < ColumnCount && IsValidLocation(g, col)
    then PlainMinimax(Child(g, col, Mover(maximizing)), depth - 1, !maximizing).score
    else 0
  }

  ghost function PlainChildren(g: Grid, depth: nat, maximizing: bool): (m: int -> int)
    requires IsGrid(g) && depth > 0
    ensures forall c :: InRange(m(c))
    decreases depth, 1
  {
    c => ChildScore(g, depth, maximizing, c)
  }

  // ---------------------------------------------------------------------------
  // Pruning is sound

  /** One column of the loop keeps the pruned and the unpruned values equal
      once both are limited to the window [lo, hi] of the call. */
  lemma StepClamp(maximizing: bool, lo: int, hi: int, alpha: int, beta: int, v: int, w: int, ab: int, m: int)
    requires lo < hi && alpha < beta
    requires maximizing ==> beta == hi && alpha == Max(lo, v)
    requires !maximizing ==> alpha == lo && beta == Min(hi, v)
    requires Clamp(v, lo, hi) == Clamp(w, lo, hi)
    requires Clamp(ab, alpha, beta) == Clamp(m, alpha, beta)
    ensures Clamp(if Prefers(maximizing, ab, v) then ab else v, lo, hi) ==
            Clamp(if Prefers(maximizing, m, w) then m else w, lo, hi)
  {
    if maximizing {
      assert Clamp(v, lo, hi) == alpha;
    } else {
      assert Clamp(v, lo, hi) == beta;
    }
  }

  /** Each child's pruned score, limited to the window it was searched with,
      equals its unpruned score limited to the same window. */
  ghost predicate SoundChildren(f: ChildValues, m: int -> int, cols: seq<int>) {
    forall c, a, b :: c in cols && -Infinity <= a < b <= Infinity ==> Clamp(f(c, a, b), a, b) == Clamp(m(c), a, b)
  }

  /** With sound children, the pruned loop limited to the window [lo, hi] of
      the call equals the unpruned loop limited to the same window. */
  lemma {:induction false} ScanSound(maximizing: bool, f: ChildValues, m: int -> int, cols: seq<int>, i: int,
                                     lo: int, hi: int, alpha: int, beta: int,
                                     v: int, column: Option<int>, w: int, plainColumn: Option<int>)
    requires Bounded(f) && (forall c :: InRange(m(c))) && SoundChildren(f, m, cols) && 0 <= i <= |cols|
    requires column.None? ==> v == Sentinel(maximizing)
    requires column.Some? ==> InRange(v) && column.value in cols
    requires plainColumn.None? ==> w == Sentinel(maximizing)
    requires plainColumn.Some? ==> InRange(w)
    requires -Infinity <= lo < hi <= Infinity && alpha < beta
    requires maximizing ==> beta == hi && alpha == Max(lo, v)
    requires !maximizing ==> alpha == lo && beta == Min(hi, v)
    requires Clamp(v, lo, hi) == Clamp(w, lo, hi)
    ensures Clamp(Scan(maximizing, f, cols, i, alpha, beta, v, column).score, lo, hi) ==
            Clamp(PlainScan(maximizing, m, cols, i, w, plainColumn).score, lo, hi)
    decreases |cols| - i
  {
    if i < |cols| {
      var col := cols[i];
      var ab, mc := f(col, alpha, beta), m(col);
      StepClamp(maximizing, lo, hi, alpha, beta, v, w, ab, mc);
      var better := Prefers(maximizing, ab, v);
      var plainBetter := Prefers(maximizing, mc, w);
      var v' := if better then ab else v;
      var w' := if plainBetter then mc else w;
      var column' := if better then Some(col) else column;
      var plainColumn' := if plainBetter then Some(col) else plainColumn;
      var alpha' := if maximizing then Max(alpha, v') else alpha;
      var beta' := if maximizing then beta else Min(beta, v');
      if alpha' < beta' {
        ScanSound(maximizing, f, m, cols, i + 1, lo, hi, alpha', beta', v', column', w', plainColumn');
      }
    }
  }

  /** Fail-soft alpha-beta: inside the window the pruned search returns the
      minimax value, and outside it returns a bound on the same side. */
  lemma {:induction false} PruningSound(g: Grid, depth: nat, alpha: int, beta: int, maximizing: bool)
    requires IsGrid(g) && -Infinity <= alpha < beta <= Infinity
    ensures Clamp(AlphaBeta(g, depth, alpha, beta, maximizing).score, alpha, beta) ==
            Clamp(PlainMinimax(g, depth, maximizing).score, alpha, beta)
    decreases depth, 2
  {
    if depth > 0 && !IsTerminal(g) {
      ChildrenSound(g, depth, maximizing);
      var s := Sentinel(maximizing);
      ScanSound(maximizing, Children(g, depth, maximizing), PlainChildren(g, depth, maximizing), ValidLocations(g), 0,
                alpha, beta, alpha, beta, s, None, s, None);
    }
  }

  lemma {:induction false} ChildrenSound(g: Grid, depth: nat, maximizing: bool)
    requires IsGrid(g) && depth > 0
    ensures SoundChildren(Children(g, depth, maximizing), PlainChildren(g, depth, maximizing), ValidLocations(g))
    decreases depth, 1
  {
    forall c, a, b | c in ValidLocations(g) && -Infinity <= a < b <= Infinity
      ensures Clamp(ChildValue(g, depth, maximizing, c, a, b), a, b) == Clamp(ChildScore(g, depth, maximizing, c), a, b)
    {
      ChildSound(g, depth, maximizing, c, a, b);
    }
  }

  /** One child: its pruned and unpruned scores agree within the window. */
  lemma {:induction false} ChildSound(g: Grid, depth: nat, maximizing: bool, c: int, a: int, b: int)
    requires IsGrid(g) && depth > 0 && -Infinity <= a < b <= Infinity
    ensures Clamp(ChildValue(g, depth, maximizing, c, a, b), a, b) == Clamp(ChildScore(g, depth, maximizing, c), a, b)
    decreases depth, 0
  {
    if 0 <= c < ColumnCount && IsValidLocation(g, c) {
      PruningSound(Child(g, c, Mover(maximizing)), depth - 1, a, b, !maximizing);
    }
  }

  /** At the root window a child's pruned score moves the value exactly when
      its unpruned score does, and then to the same number. */
  lemma RootStep(maximizing: bool, v: int, ab: int, m: int)
    requires InRange(ab) && InRange(m) && (InRange(v) || v == Sentinel(maximizing))
    requires maximizing ==> Clamp(ab, v, Infinity) == Clamp(m, v, Infinity)
    requires !maximizing ==> Clamp(ab, -Infinity, v) == Clamp(m, -Infinity, v)
    ensures Prefers(maximizing, ab, v) == Prefers(maximizing, m, v)
    ensures Prefers(maximizing, ab, v) ==> ab == m
  {
  }

  /** With sound children and the window (-inf, +inf) the pruned loop never
      cuts off and returns what the unpruned loop returns. */
  lemma {:induction false} RootScan(maximizing: bool, f: ChildValues, m: int -> int, cols: seq<int>, i: int,
                                    alpha: int, beta: int, v: int, column: Option<int>)
    requires Bounded(f) && (forall c :: InRange(m(c))) && SoundChildren(f, m, cols) && 0 <= i <= |cols|
    requires column.None? ==> v == Sentinel(maximizing)
    requires column.Some? ==> InRange(v) && column.value in cols
    requires maximizing ==> alpha == v && beta == Infinity
    requires !maximizing ==> alpha == -Infinity && beta == v
    ensures Scan(maximizing, f, cols, i, alpha, beta, v, column) == PlainScan(maximizing, m, cols, i, v, column)
    decreases |cols| - i
  {
    if i < |cols| {
      var col := cols[i];
      RootStep(maximizing, v, f(col, alpha, beta), m(col));
      var better := Prefers(maximizing, m(col), v);
      var v' := if better then m(col) else v;
      var column' := if better then Some(col) else column;
      RootScan(maximizing, f, m, cols, i + 1, if maximizing then v' else alpha, if maximizing then beta else v', v', column');
    }
  }

  /** Called with (-inf, +inf) the pruned search returns exactly the unpruned
      result, column included. */
  lemma RootIsExact(g: Grid, depth: nat, maximizing: bool)
    requires IsGrid(g)
    ensures AlphaBeta(g, depth, -Infinity, Infinity, maximizing) == PlainMinimax(g, depth, maximizing)
  {
    if depth > 0 && !IsTerminal(g) {
      ChildrenSound(g, depth, maximizing);
      var s := Sentinel(maximizing);
      RootScan(maximizing, Children(g, depth, maximizing), PlainChildren(g, depth, maximizing), ValidLocations(g), 0,
               if maximizing then s else -Infinity, if maximizing then Infinity else s, s, None);
    }
  }

  // ---------------------------------------------------------------------------
  // Which column the search chooses

  /** No child from index i on scores strictly better than s. */
  ghost predicate NoneBetter(maximizing: bool, m: int -> int, cols: seq<int>, i: int, s: int)
    requires 0 <= i
  {
    forall j :: i <= j < |cols| ==> !Prefers(maximizing, m(cols[j]), s)
  }

  /** Every child at an index in [i, k) scores strictly worse than s. */
  ghost predicate AllWorse(maximizing: bool, m: int -> int, cols: seq<int>, i: int, k: int, s: int)
    requires 0 <= i && k <= |cols|
  {
    forall j :: i <= j < k ==> Prefers(maximizing, s, m(cols[j]))
  }

  /** The unpruned loop ends on a score no remaining child beats. */
  lemma {:induction false} PlainScanBound(maximizing: bool, m: int -> int, cols: seq<int>, i: int, v: int, column: Option<int>)
    requires (forall c :: InRange(m(c))) && 0 <= i <= |cols|
    requires column.None? ==> forall c :: Prefers(maximizing, m(c), v)
    requires column.Some? ==> InRange(v)
    ensures NoneBetter(maximizing, m, cols, i, PlainScan(maximizing, m, cols, i, v, column).score)
    decreases |cols| - i
  {
    if i < |cols| {
      var better := Prefers(maximizing, m(cols[i]), v);
      var v' := if better then m(cols[i]) else v;
      var column' := if better then Some(cols[i]) else column;
      PlainScanBound(maximizing, m, cols, i + 1, v', column');
      var r := PlainScan(maximizing, m, cols, i + 1, v', column');
      assert r == PlainScan(maximizing, m, cols, i, v, column);
      assert !Prefers(maximizing, m(cols[i]), r.score);
      forall j | i <= j < |cols|
        ensures !Prefers(maximizing, m(cols[j]), r.score)
      {
        if j > i {
          assert NoneBetter(maximizing, m, cols, i + 1, r.score);
        }
      }
    }
  }

  /** The unpruned loop ends on the earliest column of the best child score,
      or keeps its starting value when no child beats it. */
  lemma {:induction false} PlainScanFirst(maximizing: bool, m: int -> int, cols: seq<int>, i: int, v: int, column: Option<int>)
    requires (forall c :: InRange(m(c))) && 0 <= i <= |cols|
    requires column.None? ==> forall c :: Prefers(maximizing, m(c), v)
    requires column.Some? ==> InRange(v)
    ensures var r := PlainScan(maximizing, m, cols, i, v, column);
      (r.column == column && r.score == v) ||
      exists k :: i <= k < |cols| && r.column == Some(cols[k]) && r.score == m(cols[k]) &&
        Prefers(maximizing, r.score, v) && AllWorse(maximizing, m, cols, i, k, r.score)
    decreases |cols| - i
  {
    if i < |cols| {
      var better := Prefers(maximizing, m(cols[i]), v);
      var v' := if better then m(cols[i]) else v;
      var column' := if better then Some(cols[i]) else column;
      PlainScanFirst(maximizing, m, cols, i + 1, v', column');
      var r := PlainScan(maximizing, m, cols, i + 1, v', column');
      assert r == PlainScan(maximizing, m, cols, i, v, column);
      if r.column == column' && r.score == v' {
        if better {
          assert AllWorse(maximizing, m, cols, i, i, r.score);
        }
      } else {
        var k :| i + 1 <= k < |cols| && r.column == Some(cols[k]) && r.score == m(cols[k]) &&
          Prefers(maximizing, r.score, v') && AllWorse(maximizing, m, cols, i + 1, k, r.score);
        assert Prefers(maximizing, r.score, m(cols[i]));
        forall j | i <= j < k
          ensures Prefers(maximizing, r.score, m(cols[j]))
        {
          if j > i {
            assert AllWorse(maximizing, m, cols, i + 1, k, r.score);
          }
        }
        assert AllWorse(maximizing, m, cols, i, k, r.score);
      }
    }
  }

  /** A non-leaf minimax call picks the lowest valid column whose child has
      the best score, and no valid column's child scores better. */
  lemma BestColumn(g: Grid, depth: nat, maximizing: bool)
    requires IsGrid(g) && depth > 0 && !IsTerminal(g)
    ensures var r := PlainMinimax(g, depth, maximizing);
      r.column.Some? && 0 <= r.column.value < ColumnCount && IsValidLocation(g, r.column.value) &&
      r.score == ChildScore(g, depth, maximizing, r.column.value) &&
      forall c :: 0 <= c < ColumnCount && IsValidLocation(g, c) ==>
        !Prefers(maximizing, ChildScore(g, depth, maximizing, c), r.score) &&
        (c < r.column.value ==> Prefers(maximizing, r.score, ChildScore(g, depth, maximizing, c)))
  {
    var cols := ValidLocations(g);
    var m := PlainChildren(g, depth, maximizing);
    PlainScanBound(maximizing, m, cols, 0, Sentinel(maximizing), None);
    PlainScanFirst(maximizing, m, cols, 0, Sentinel(maximizing), None);
    var r := PlainMinimax(g, depth, maximizing);
    assert r == PlainScan(maximizing, m, cols, 0, Sentinel(maximizing), None);
    var k :| 0 <= k < |cols| && r.column == Some(cols[k]) && r.score == m(cols[k]) && AllWorse(maximizing, m, cols, 0, k, r.score);
    assert r.score == ChildScore(g, depth, maximizing, cols[k]);
    forall c | 0 <= c < ColumnCount && IsValidLocation(g, c)
      ensures !Prefers(maximizing, ChildScore(g, depth, maximizing, c), r.score)
      ensures c < r.column.value ==> Prefers(maximizing, r.score, ChildScore(g, depth, maximizing, c))
    {
      assert c in cols;
      var j :| 0 <= j < |cols| && cols[j] == c;
      assert NoneBetter(maximizing, m, cols, 0, r.score);
      if c < cols[k] {
        assert j < k;
        assert AllWorse(maximizing, m, cols, 0, k, r.score);
      }
    }
  }

  // ---------------------------------------------------------------------------
  // Leaves and forced wins

  /** The results at a leaf: an AI win scores AiWinScore even when the player
      also has four in a row; a full board without a win scores 0. */
  lemma TerminalScores(g: Grid, depth: nat, alpha: int, beta: int, maximizing: bool)
    requires IsGrid(g)
    ensures HasWin(g, AiPiece) ==> AlphaBeta(g, depth, alpha, beta, maximizing) == SearchResult(None, AiWinScore)
    ensures !HasWin(g, AiPiece) && HasWin(g, PlayerPiece) ==>
      AlphaBeta(g, depth, alpha, beta, maximizing) == SearchResult(None, PlayerWinScore)
    ensures !HasWin(g, AiPiece) && !HasWin(g, PlayerPiece) && (forall c :: 0 <= c < ColumnCount ==> !IsValidLocation(g, c)) ==>
      AlphaBeta(g, depth, alpha, beta, maximizing) == SearchResult(None, 0)
    ensures depth == 0 && !HasWin(g, AiPiece) && !HasWin(g, PlayerPiece) && (exists c :: 0 <= c < ColumnCount && IsValidLocation(g, c)) ==>
      AlphaBeta(g, depth, alpha, beta, maximizing) == SearchResult(None, PositionScore(g, AiPiece))
  {
    TerminalMeansGameOver(g);
  }

  /** When the AI can complete four in one move, the search at the root scores
      the position as a won game. */
  lemma ImmediateWin(g: Grid, depth: nat, col: int)
    requires IsGrid(g) && depth > 0 && !IsTerminal(g)
    requires 0 <= col < ColumnCount && IsValidLocation(g, col) && HasWin(Child(g, col, AiPiece), AiPiece)
    ensures AlphaBeta(g, depth, -Infinity, Infinity, true).score == AiWinScore
  {
    RootIsExact(g, depth, true);
    BestColumn(g, depth, true);
    TerminalScores(Child(g, col, AiPiece), depth - 1, -Infinity, Infinity, false);
    RootIsExact(Child(g, col, AiPiece), depth - 1, false);
    assert ChildScore(g, depth, true, col) == AiWinScore;
  }

  /** One ply deep, a child scores a won game exactly when the AI's drop
      completes four. */
  lemma WinningChild(g: Grid, col: int)
    requires IsGrid(g) && 0 <= col < ColumnCount && IsValidLocation(g, col)
    ensures ChildScore(g, 1, true, col) == AiWinScore <==> HasWin(Child(g, col, AiPiece), AiPiece)
  {
    var h := Child(g, col, AiPiece);
    assert PlainMinimax(h, 0, false).score == LeafScore(h);
  }

  /** At depth 1 the root call plays the lowest column whose drop completes
      four for the AI, whenever there is one. */
  lemma ImmediateWinColumn(g: Grid)
    requires IsGrid(g) && !IsTerminal(g)
    requires exists col :: 0 <= col < ColumnCount && IsValidLocation(g, col) && HasWin(Child(g, col, AiPiece), AiPiece)
    ensures var r := AlphaBeta(g, 1, -Infinity, Infinity, true);
      r.column.Some? && 0 <= r.column.value < ColumnCount && IsValidLocation(g, r.column.value) &&
      HasWin(Child(g, r.column.value, AiPiece), AiPiece) &&
      forall c :: 0 <= c < r.column.value && IsValidLocation(g, c) ==> !HasWin(Child(g, c, AiPiece), AiPiece)
  {
    var col :| 0 <= col < ColumnCount && IsValidLocation(g, col) && HasWin(Child(g, col, AiPiece), AiPiece);
    RootIsExact(g, 1, true);
    BestColumn(g, 1, true);
    var r := PlainMinimax(g, 1, true);
    WinningChild(g, col);
    WinningChild(g, r.column.value);
    forall c | 0 <= c < r.column.value && IsValidLocation(g, c)
      ensures !HasWin(Child(g, c, AiPiece), AiPiece)
    {
      WinningChild(g, c);
    }
  }

  // ---------------------------------------------------------------------------
  // The imperative search

  /** The board a child search receives: a copy of board with piece dropped
      into col. */
  method ChildBoard(board: array2<Cell>, col: int, piece: Piece) returns (child: array2<Cell>)
    requires IsBoard(board) && 0 <= col < ColumnCount && IsValidLocation(Cells(board), col)
    ensures fresh(child) && IsBoard(child)
    ensures Cells(child) == Child(Cells(board), col, piece)
  {
    var row := GetNextOpenRow(board, col);
    child := CopyBoard(board);
    DropPiece(child, row.value, col, piece);
  }

  /** One branch of the loop: the score of the child reached through col,
      searched one level deeper with the current window; the side to move
      there is maximizingChild. */
  method SearchChild(board: array2<Cell>, depth: nat, col: int, alpha: int, beta: int, maximizingChild: bool)
    returns (newScore: int)
    requires IsBoard(board) && depth > 0 && 0 <= col < ColumnCount && IsValidLocation(Cells(board), col)
    ensures newScore == Children(Cells(board), depth, !maximizingChild)(col, alpha, beta)
    decreases depth, 0
  {
    var bCopy := ChildBoard(board, col, Mover(!maximizingChild));
    var _, score := Minimax(bCopy, depth - 1, alpha, beta, maximizingChild);
    newScore := score;
  }

  /** The score minimax returns without searching: the result of a finished
      game, or the static evaluation when the depth is used up. */
  method Leaf(board: array2<Cell>, isTerminal: bool) returns (value: int)
    requires IsBoard(board) && isTerminal == IsTerminal(Cells(board))
    ensures value == LeafScore(Cells(board))
  {
    if isTerminal {
      var aiWon, _ := WinningMove(board, AiPiece);
      if aiWon {
        return AiWinScore;
      }
      var playerWon, _ := WinningMove(board, PlayerPiece);
      if playerWon {
        return PlayerWinScore;
      }
      return 0;
    } else {
      value := ScorePosition(board, AiPiece);
    }
  }

  /** minimax(board, depth, alpha, beta, maximizingPlayer): the column to play
      and its score. The board itself is never written: children are copies. */
  method Minimax(board: array2<Cell>, depth: nat, alpha: int, beta: int, maximizingPlayer: bool)
    returns (column: Option<int>, value: int)
    requires IsBoard(board)
    ensures SearchResult(column, value) == AlphaBeta(Cells(board), depth, alpha, beta, maximizingPlayer)
    decreases depth, 2
  {
    var validLocations := GetValidLocations(board);
    var isTerminal := IsTerminalNode(board);
    if depth == 0 || isTerminal {
      value := Leaf(board, isTerminal);
      return None, value;
    }
    if maximizingPlayer {
      column, value := MaximizingLoop(board, depth, validLocations, alpha, beta);
    } else {
      column, value := MinimizingLoop(board, depth, validLocations, alpha, beta);
    }
  }

  /** The maximising branch of minimax: the AI's drops, each child searched
      by the minimiser; the value starts at -inf. */
  method MaximizingLoop(board: array2<Cell>, depth: nat, validLocations: seq<int>, alpha: int, beta: int)
    returns (column: Option<int>, value: int)
    requires IsBoard(board) && depth > 0 && validLocations == ValidLocations(Cells(board))
    ensures SearchResult(column, value) ==
      Scan(true, Children(Cells(board), depth, true), validLocations, 0, alpha, beta, -Infinity, None)
    decreases depth, 1
  {
    ghost var f := Children(Cells(board), depth, true);
    ghost var target := Scan(true, f, validLocations, 0, alpha, beta, -Infinity, None);
    var a, b := alpha, beta;
    value := -Infinity;
    column := None;
    for i := 0 to |validLocations|
      invariant column.None? ==> value == -Infinity
      invariant column.Some? ==> InRange(value) && column.value in validLocations
      invariant b == beta
      invariant Scan(true, f, validLocations, i, a, b, value, column) == target
    {
      var col := validLocations[i];
      var newScore := SearchChild(board, depth, col, a, b, false);
      ghost var a0, value0, column0 := a, value, column;
      if newScore > value {
        value := newScore;
        column := Some(col);
      }
      a := Max(a, value);
      ScanStep(true, f, validLocations, i, col, a0, b, value0, column0, a, b, value, column);
      if a >= b {
        return;
      }
    }
  }

  /** The minimising branch of minimax: the player's drops, each child
      searched by the maximiser; the value starts at +inf. */
  method MinimizingLoop(board: array2<Cell>, depth: nat, validLocations: seq<int>, alpha: int, beta: int)
    returns (column: Option<int>, value: int)
    requires IsBoard(board) && depth > 0 && validLocations == ValidLocations(Cells(board))
    ensures SearchResult(column, value) ==
      Scan(false, Children(Cells(board), depth, false), validLocations, 0, alpha, beta, Infinity, None)
    decreases depth, 1
  {
    ghost var f := Children(Cells(board), depth, false);
    ghost var target := Scan(false, f, validLocations, 0, alpha, beta, Infinity, None);
    var a, b := alpha, beta;
    value := Infinity;
    column := None;
    for i := 0 to |validLocations|
      invariant column.None? ==> value == Infinity
      invariant column.Some? ==> InRange(value) && column.value in validLocations
      invariant a == alpha
      invariant Scan(false, f, validLocations, i, a, b, value, column) == target
    {
      var col := validLocations[i];
      var newScore := SearchChild(board, depth, col, a, b, true);
      ghost var b0, value0, column0 := b, value, column;
      if newScore < value {
        value := newScore;
        column := Some(col);
      }
      b := Min(b, value);
      ScanStep(false, f, validLocations, i, col, a, b0, value0, column0, a, b, value, column);
      if a >= b {
        return;
      }
    }
  }

  // ---------------------------------------------------------------------------
  // The one-ply greedy picker

  /** The evaluation, for piece, of the board after piece is dropped into col. */
  function ScoreAfterDrop(g: Grid, col: int, piece: Piece): (score: int)
    requires IsGrid(g) && 0 <= col < ColumnCount && IsValidLocation(g, col)
    ensures -276 <= score <= 6918
  {
    PositionScore(Child(g, col, piece), piece)
  }

  /** ScoreAfterDrop for every valid column (0 elsewhere). */
  ghost function DropScores(g: Grid, piece: Piece): (m: int -> int)
    requires IsGrid(g)
    ensures forall c :: -276 <= m(c) <= 6918
  {
    c => if 0 <= c < ColumnCount && IsValidLocation(g, c) then ScoreAfterDrop(g, c, piece) else 0
  }

  /** The column pick_best_move returns: the loop over the valid columns,
      seeded with -10000, that keeps the first strictly higher score. */
  ghost function GreedyPick(g: Grid, piece: Piece): (result: SearchResult)
    requires IsGrid(g)
    ensures result.column.None? <==> |ValidLocations(g)| == 0
  {
    PlainScan(true, DropScores(g, piece), ValidLocations(g), 0, -10000, None)
  }

  /** The greedy pick is None exactly on a full board. */
  lemma GreedyFullBoard(g: Grid, piece: Piece)
    requires IsGrid(g)
    ensures GreedyPick(g, piece).column.None? <==> forall c :: 0 <= c < ColumnCount ==> !IsValidLocation(g, c)
  {
    var cols := ValidLocations(g);
    if |cols| > 0 {
      assert cols[0] in cols;
    }
  }

  /** The greedy pick is the lowest valid column whose drop scores highest;
      the seed -10000 never survives. */
  lemma GreedyBest(g: Grid, piece: Piece)
    requires IsGrid(g) && GreedyPick(g, piece).column.Some?
    ensures var col := GreedyPick(g, piece).column.value;
      0 <= col < ColumnCount && IsValidLocation(g, col) &&
      forall c :: 0 <= c < ColumnCount && IsValidLocation(g, c) ==>
        ScoreAfterDrop(g, c, piece) <= ScoreAfterDrop(g, col, piece) &&
        (c < col ==> ScoreAfterDrop(g, c, piece) < ScoreAfterDrop(g, col, piece))
  {
    var cols := ValidLocations(g);
    var m := DropScores(g, piece);
    var r := GreedyPick(g, piece);
    PlainScanBound(true, m, cols, 0, -10000, None);
    PlainScanFirst(true, m, cols, 0, -10000, None);
    var k :| 0 <= k < |cols| && r.column == Some(cols[k]) && r.score == m(cols[k]) && AllWorse(true, m, cols, 0, k, r.score);
    var col := cols[k];
    assert col in cols;
    assert r.score == ScoreAfterDrop(g, col, piece);
    forall c | 0 <= c < ColumnCount && IsValidLocation(g, c)
      ensures ScoreAfterDrop(g, c, piece) <= r.score
      ensures c < col ==> ScoreAfterDrop(g, c, piece) < r.score
    {
      assert c in cols;
      var j :| 0 <= j < |cols| && cols[j] == c;
      assert ScoreAfterDrop(g, c, piece) == m(c);
      assert NoneBetter(true, m, cols, 0, r.score);
      if c < col {
        assert j < k;
        assert AllWorse(true, m, cols, 0, k, r.score);
      }
    }
  }

  /** pick_best_move(board, piece). Where Python's random.choice would raise on
      a full board, None is returned. */
  method PickBestMove(board: array2<Cell>, piece: Piece) returns (bestCol: Option<int>)
    requires IsBoard(board)
    ensures bestCol == GreedyPick(Cells(board), piece).column
    ensures bestCol.None? <==> forall c :: 0 <= c < ColumnCount ==> !IsValidLocation(Cells(board), c)
    ensures bestCol.Some? ==>
      0 <= bestCol.value < ColumnCount && IsValidLocation(Cells(board), bestCol.value) &&
      forall c :: 0 <= c < ColumnCount && IsValidLocation(Cells(board), c) ==>
        ScoreAfterDrop(Cells(board), c, piece) <= ScoreAfterDrop(Cells(board), bestCol.value, piece) &&
        (c < bestCol.value ==> ScoreAfterDrop(Cells(board), c, piece) < ScoreAfterDrop(Cells(board), bestCol.value, piece))
  {
    var validLocations := GetValidLocations(board);
    bestCol := BestDropLoop(board, piece, validLocations);
    GreedyFullBoard(Cells(board), piece);
    if bestCol.Some? {
      GreedyBest(Cells(board), piece);
    }
  }

  /** The loop of pick_best_move: score each valid column's drop on a copy of
      the board and keep the first strictly higher score. */
  method BestDropLoop(board: array2<Cell>, piece: Piece, validLocations: seq<int>) returns (bestCol: Option<int>)
    requires IsBoard(board) && validLocations == ValidLocations(Cells(board))
    ensures bestCol == GreedyPick(Cells(board), piece).column
  {
    ghost var g := Cells(board);
    ghost var m := DropScores(g, piece);
    ghost var target := PlainScan(true, m, validLocations, 0, -10000, None);
    var bestScore := -10000;
    bestCol := None;
    for i := 0 to |validLocations|
      invariant Cells(board) == g
      invariant bestCol.Some? ==> InRange(bestScore)
      invariant bestCol.None? ==> bestScore == -10000
      invariant PlainScan(true, m, validLocations, i, bestScore, bestCol) == target
    {
      var col := validLocations[i];
      var tempBoard := ChildBoard(board, col, piece);
      var score := ScorePosition(tempBoard, piece);
      assert score == m(col);
      if score > bestScore {
        bestScore := score;
        bestCol := Some(col);
      }
    }
  }
}
