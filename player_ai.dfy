/**
 * The heuristic AI player: win if a move wins, else block a move that
 * would win for its opponent, else take the first move of highest
 * heuristic score.  Its win check takes the number of columns as the
 * target and looks only at full-width rows and at the top of each column;
 * its heuristic rewards short vertical and horizontal alignments.  It
 * works on copies of the board and hands its memory back unchanged.
 */
module Ai {
  import opened Board
  import opened Outcomes
  import opened Selection
  import Windows

  /** The opponent's mark: 2 for player 1, 1 for anyone else. */
  function Opponent(player: int): (o: int)
    ensures o == 1 || o == 2
    ensures o != player
    ensures player == 0 ==> o == 1
  {
    if player == 1 then 2 else 1
  }

  /** Every column holds a cell at row and each of them holds p. */
  predicate RowFilled(b: Grid, row: int, p: int)
  {
    forall c | 0 <= c < |b| :: OwnedBy(b, Pos(c, row), p)
  }

  /** The column has at least n marks and its last n marks are all p. */
  predicate TopFilled(column: seq<int>, n: int, p: int)
  {
    |column| >= n && forall r | |column| - n <= r < |column| :: column[r] == p
  }

  /**
   * The win check, with the target equal to the number of columns: a
   * row below the number of columns filled by p across the whole board,
   * or a column whose last marks, as many as there are columns, are p's.
   */
  predicate IsWinning(b: Grid, p: int)
  {
    (exists row | 0 <= row < |b| :: RowFilled(b, row, p))
      || exists c | 0 <= c < |b| :: TopFilled(b[c], |b|, p)
  }

  /** A win the check reports is a line of |b| marks of p: a row from the first column or a column run. */
  lemma IsWinningIsRun(b: Grid, p: int)
    requires IsWinning(b, p)
    ensures (exists row | 0 <= row < |b| :: RunAt(b, |b|, East, Pos(0, row), p))
      || exists c | 0 <= c < |b| :: |b[c]| >= |b| && RunAt(b, |b|, North, Pos(c, |b[c]| - |b|), p)
  {
    if row :| 0 <= row < |b| && RowFilled(b, row, p) {
      forall k | 0 <= k < |b| ensures OwnedBy(b, Offset(East, Pos(0, row), k), p) {
        assert Offset(East, Pos(0, row), k) == Pos(k, row);
      }
      assert RunAt(b, |b|, East, Pos(0, row), p);
    } else {
      var c :| 0 <= c < |b| && TopFilled(b[c], |b|, p);
      var q := Pos(c, |b[c]| - |b|);
      forall k | 0 <= k < |b| ensures OwnedBy(b, Offset(North, q, k), p) {
        assert Offset(North, q, k) == Pos(c, |b[c]| - |b| + k);
      }
      assert RunAt(b, |b|, North, q, p);
    }
  }

  /** Every horizontal line of |b| >= 1 marks of p in one of the first |b| rows is found: it fills its row. */
  lemma RowRunWins(b: Grid, p: int, q: Pos)
    requires |b| >= 1 && RunAt(b, |b|, East, q, p) && q.row < |b|
    ensures IsWinning(b, p)
  {
    assert OwnedBy(b, Offset(East, q, 0), p);
    assert OwnedBy(b, Offset(East, q, |b| - 1), p);
    assert q.col == 0;
    forall c | 0 <= c < |b| ensures OwnedBy(b, Pos(c, q.row), p) {
      assert OwnedBy(b, Offset(East, q, c), p);
    }
    assert RowFilled(b, q.row, p);
  }

  /**
   * A column run that is not at the top of its column can be missed: on two
   * columns, two marks of player 1 under a mark of player 0 are not a win
   * for player 1.
   */
  lemma BuriedColumnMissed(b: Grid)
    requires b == [[1, 1, 0], [0]]
    ensures RunAt(b, 2, North, Pos(0, 0), 1)
    ensures !IsWinning(b, 1)
  {
    assert Offset(North, Pos(0, 0), 1) == Pos(0, 1);
    assert !RowFilled(b, 0, 1) by { assert !OwnedBy(b, Pos(1, 0), 1); }
    assert !RowFilled(b, 1, 1) by { assert !OwnedBy(b, Pos(1, 1), 1); }
    assert !TopFilled(b[0], 2, 1) by { assert b[0][2] == 0; }
    assert !TopFilled(b[1], 2, 1);
  }

  /**
   * Rows at or above the number of columns are not checked, so a run there can be missed: on two
   * columns, a row 2 filled by player 1 is not a win for player 1.
   */
  lemma HighRowMissed(b: Grid)
    requires b == [[0, 0, 1], [1, 0, 1]]
    ensures RunAt(b, 2, East, Pos(0, 2), 1)
    ensures !IsWinning(b, 1)
  {
    assert Offset(East, Pos(0, 2), 1) == Pos(1, 2);
    assert !RowFilled(b, 0, 1) by { assert !OwnedBy(b, Pos(0, 0), 1); }
    assert !RowFilled(b, 1, 1) by { assert !OwnedBy(b, Pos(0, 1), 1); }
    assert !TopFilled(b[0], 2, 1) by { assert b[0][1] == 0; }
    assert !TopFilled(b[1], 2, 1) by { assert b[1][1] == 0; }
  }

  /** Diagonals are not checked, so a diagonal run can be missed: a rising pair of player 1 marks on two columns is not a win. */
  lemma DiagonalMissed(b: Grid)
    requires b == [[1], [0, 1]]
    ensures RunAt(b, 2, NorthEast, Pos(0, 0), 1)
    ensures !IsWinning(b, 1)
  {
    assert Offset(NorthEast, Pos(0, 0), 1) == Pos(1, 1);
    assert !RowFilled(b, 0, 1) by { assert !OwnedBy(b, Pos(1, 0), 1); }
    assert !RowFilled(b, 1, 1) by { assert !OwnedBy(b, Pos(0, 1), 1); }
    assert !TopFilled(b[0], 2, 1);
    assert !TopFilled(b[1], 2, 1) by { assert b[1][0] == 0; }
  }

  /** Dropping p's mark into column col of a copy of the board wins for p. */
  predicate WinningMove(b: Grid, col: int, p: int)
  {
    0 <= col < |b| && IsWinning(Windows.Place(b, col, p), p)
  }

  /** The winning-move test as a function of the column. */
  function Wins(b: Grid, p: int): int -> bool
  {
    c => WinningMove(b, c, p)
  }

  /**
   * The opponent of player 1 is mark 2, which the game never drops: on a
   * board of two or more columns holding only marks other than 2, no
   * move wins for mark 2, so player 1 never blocks.
   */
  lemma PlayerOneNeverBlocks(b: Grid, col: int)
    requires |b| >= 2
    requires forall c, r | 0 <= c < |b| && 0 <= r < |b[c]| :: b[c][r] != 2
    ensures !WinningMove(b, col, Opponent(1))
  {
    if 0 <= col < |b| {
      var tb := Windows.Place(b, col, 2);
      var other := if col == 0 then 1 else 0;
      forall row | 0 <= row < |b| ensures !RowFilled(tb, row, 2) {
        if |tb[other]| > row {
          assert tb[other][row] == b[other][row];
        }
        assert !OwnedBy(tb, Pos(other, row), 2);
      }
      forall c | 0 <= c < |b| ensures !TopFilled(tb[c], |b|, 2) {
        if |tb[c]| >= |b| {
          var r := |tb[c]| - |b|;
          if c == col {
            assert tb[c][r] == b[c][r];
          } else {
            assert tb[c][r] == b[c][r];
          }
        }
      }
    }
  }

  /** The first row of the vertical window that ends at row: up to three cells, stopping at the bottom. */
  function WindowBottom(row: int): int
  {
    if row >= 2 then row - 2 else 0
  }

  /** The cells of the vertical window ending at row all hold p. */
  predicate Aligned(column: seq<int>, p: int, row: int)
    requires 0 <= row < |column|
  {
    forall i | WindowBottom(row) <= i <= row :: column[i] == p
  }

  /** The vertical score of the first k rows: 10 for each row whose window is aligned, when the column has three marks or more. */
  function ColumnScore(column: seq<int>, p: int, k: int): nat
    requires k <= |column|
    decreases k
  {
    if k <= 0 then 0
    else ColumnScore(column, p, k - 1) + (if |column| >= 3 && Aligned(column, p, k - 1) then 10 else 0)
  }

  /** The length of the run of p's marks in row r that ends just before column c. */
  function RunBefore(b: Grid, r: int, p: int, c: int): nat
    requires r >= 0
    decreases c
  {
    if c <= 0 || !OwnedBy(b, Pos(c - 1, r), p) then 0 else RunBefore(b, r, p, c - 1) + 1
  }

  /** The counted run is a run of p's marks ending at column c - 1, and the cell before it is not p's. */
  lemma {:induction false} RunBeforeIsRun(b: Grid, r: int, p: int, c: int)
    requires r >= 0
    decreases c
    ensures var k := RunBefore(b, r, p, c);
      && (k <= c || k == 0)
      && RunAt(b, k, East, Pos(c - k, r), p)
      && (k < c ==> !OwnedBy(b, Pos(c - k - 1, r), p))
  {
    if c > 0 && OwnedBy(b, Pos(c - 1, r), p) {
      RunBeforeIsRun(b, r, p, c - 1);
    }
  }

  /** The points a horizontal run earns as it grows: 5 when it reaches two, 10 more when it reaches three. */
  function Bonus(k: int): nat
  {
    if k == 2 then 5 else if k == 3 then 10 else 0
  }

  /** The horizontal score of row r over the first n columns. */
  function RowScore(b: Grid, r: int, p: int, n: int): nat
    requires r >= 0
    decreases n
  {
    if n <= 0 then 0 else RowScore(b, r, p, n - 1) + Bonus(RunBefore(b, r, p, n))
  }

  /** The horizontal score of rows [0, m), each over n columns. */
  function RowsScore(b: Grid, p: int, m: int, n: int): nat
    decreases m
  {
    if m <= 0 then 0 else RowsScore(b, p, m - 1, n) + RowScore(b, m - 1, p, n)
  }

  /**
   * The heuristic of a move into column col: on the board with p's mark
   * dropped there, the vertical score of that column plus the horizontal
   * score of the first |b| rows over all |b| columns.
   */
  function Evaluation(b: Grid, col: int, p: int): nat
    requires 0 <= col < |b|
  {
    var tb := Windows.Place(b, col, p);
    ColumnScore(tb[col], p, |tb[col]|) + RowsScore(tb, p, |b|, |b|)
  }

  /** The heuristic as a function of the column. */
  function Scores(b: Grid, p: int): int -> int
  {
    c => if 0 <= c < |b| then Evaluation(b, c, p) else 0
  }

  lemma {:induction false} ColumnScoreTens(column: seq<int>, p: int, k: int)
    requires k <= |column|
    ensures ColumnScore(column, p, k) % 10 == 0
    decreases k
  {
    if k > 0 {
      ColumnScoreTens(column, p, k - 1);
    }
  }

  lemma {:induction false} RowScoreFives(b: Grid, r: int, p: int, n: int)
    requires r >= 0
    ensures RowScore(b, r, p, n) % 5 == 0
    decreases n
  {
    if n > 0 {
      RowScoreFives(b, r, p, n - 1);
      assert (RowScore(b, r, p, n - 1) + Bonus(RunBefore(b, r, p, n))) % 5 == 0;
    }
  }

  lemma {:induction false} RowsScoreFives(b: Grid, p: int, m: int, n: int)
    ensures RowsScore(b, p, m, n) % 5 == 0
    decreases m
  {
    if m > 0 {
      RowsScoreFives(b, p, m - 1, n);
      RowScoreFives(b, m - 1, p, n);
      assert (RowsScore(b, p, m - 1, n) + RowScore(b, m - 1, p, n)) % 5 == 0;
    }
  }

  /** Every heuristic score is a multiple of 5. */
  lemma EvaluationFives(b: Grid, col: int, p: int)
    requires 0 <= col < |b|
    ensures Evaluation(b, col, p) % 5 == 0
  {
    var tb := Windows.Place(b, col, p);
    ColumnScoreTens(tb[col], p, |tb[col]|);
    RowsScoreFives(tb, p, |b|, |b|);
    assert (ColumnScore(tb[col], p, |tb[col]|) + RowsScore(tb, p, |b|, |b|)) % 5 == 0;
  }

  /**
   * The vertical score is positive exactly when the column has three
   * marks or more and either its bottom mark is p's (the short windows of
   * rows 0 and 1 reach down to it) or three consecutive marks are p's.
   */
  lemma {:induction false} ColumnScorePositive(column: seq<int>, p: int, k: int)
    requires 0 <= k <= |column|
    ensures ColumnScore(column, p, k) > 0 <==>
      |column| >= 3 && ((k >= 1 && column[0] == p) || exists r | 2 <= r < k :: column[r - 2] == p && column[r - 1] == p && column[r] == p)
    decreases k
  {
    if k > 0 {
      ColumnScorePositive(column, p, k - 1);
      var row := k - 1;
      if row >= 2 {
        assert Aligned(column, p, row) <==> column[row - 2] == p && column[row - 1] == p && column[row] == p by {
          if column[row - 2] == p && column[row - 1] == p && column[row] == p {
            forall i | WindowBottom(row) <= i <= row ensures column[i] == p {
              assert i == row - 2 || i == row - 1 || i == row;
            }
          }
        }
      } else {
        assert Aligned(column, p, row) ==> column[0] == p;
        if row == 0 && column[0] == p {
          assert Aligned(column, p, row);
        }
      }
    }
  }

  /** Columns c - 1 and c of row r both hold p's marks. */
  predicate Pair(b: Grid, r: int, p: int, c: int)
  {
    OwnedBy(b, Pos(c - 1, r), p) && OwnedBy(b, Pos(c, r), p)
  }

  /** A pair of p's marks at columns c - 1 and c makes the row score by column c. */
  lemma {:induction false} PairScores(b: Grid, r: int, p: int, c: int)
    requires r >= 0 && 1 <= c && Pair(b, r, p, c)
    ensures RowScore(b, r, p, c + 1) > 0
    decreases c
  {
    if c >= 2 && OwnedBy(b, Pos(c - 2, r), p) {
      PairScores(b, r, p, c - 1);
      RowScoreGrows(b, r, p, c, c + 1);
    } else {
      assert RunBefore(b, r, p, c) == 1;
      assert RunBefore(b, r, p, c + 1) == 2;
    }
  }

  /** A run that earns points ends with a pair. */
  lemma BonusPair(b: Grid, r: int, p: int, n: int)
    requires r >= 0 && Bonus(RunBefore(b, r, p, n)) > 0
    ensures 2 <= n && Pair(b, r, p, n - 1)
  {
    var k := RunBefore(b, r, p, n);
    RunBeforeIsRun(b, r, p, n);
    var q := Pos(n - k, r);
    assert OwnedBy(b, Offset(East, q, k - 2), p);
    assert OwnedBy(b, Offset(East, q, k - 1), p);
  }

  lemma {:induction false} RowScoreGrows(b: Grid, r: int, p: int, n: int, n': int)
    requires r >= 0 && n <= n'
    ensures RowScore(b, r, p, n) <= RowScore(b, r, p, n')
    decreases n' - n
  {
    if n < n' {
      RowScoreGrows(b, r, p, n, n' - 1);
    }
  }

  /**
   * A row scores exactly when two horizontally adjacent cells among the
   * first n columns hold p's marks.
   */
  lemma {:induction false} RowScorePositive(b: Grid, r: int, p: int, n: int)
    requires r >= 0
    ensures RowScore(b, r, p, n) > 0 <==> exists c | 1 <= c < n :: Pair(b, r, p, c)
    decreases n
  {
    if n > 0 {
      RowScorePositive(b, r, p, n - 1);
      if RowScore(b, r, p, n) > 0 {
        if RowScore(b, r, p, n - 1) > 0 {
          var c :| 1 <= c < n - 1 && Pair(b, r, p, c);
          assert 1 <= c < n && Pair(b, r, p, c);
        } else {
          BonusPair(b, r, p, n);
          assert 1 <= n - 1 < n && Pair(b, r, p, n - 1);
        }
      }
      if c :| 1 <= c < n && Pair(b, r, p, c) {
        PairScores(b, r, p, c);
        RowScoreGrows(b, r, p, c + 1, n);
      }
    }
  }

  /** The vertical score of a column: its windows scanned bottom to top. */
  method ScoreColumn(column: seq<int>, p: int) returns (score: nat)
    ensures score == ColumnScore(column, p, |column|)
  {
    score := 0;
    var row := 0;
    while row < |column|
      invariant 0 <= row <= |column|
      invariant score == ColumnScore(column, p, row)
    {
      if |column| >= 3 && Aligned(column, p, row) {
        score := score + 10;
      }
      row := row + 1;
    }
  }

  /** The horizontal score of row r over the first n columns, with a run counter reset at every cell that is not p's. */
  method ScoreRow(b: Grid, r: int, p: int, n: int) returns (score: nat)
    requires 0 <= r && n <= |b|
    ensures score == RowScore(b, r, p, n)
  {
    score := 0;
    var inRow := 0;
    var c := 0;
    while c < n
      invariant 0 <= c && (c <= n || c == 0)
      invariant inRow == RunBefore(b, r, p, c)
      invariant score == RowScore(b, r, p, c)
      decreases n - c
    {
      if |b[c]| > r && b[c][r] == p {
        inRow := inRow + 1;
        if inRow == 2 {
          score := score + 5;
        }
        if inRow == 3 {
          score := score + 10;
        }
      } else {
        inRow := 0;
      }
      c := c + 1;
    }
  }

  /**
   * The heuristic of a move, on a copy of the board with p's mark dropped
   * into column col: first the vertical windows of that column, then each
   * of the first |board| rows across all columns.
   */
  method EvaluatePosition(board: Grid, col: int, p: int) returns (score: nat)
    requires 0 <= col < |board|
    ensures score == Scores(board, p)(col)
  {
    var temp := board[col := board[col] + [p]];
    assert temp == Windows.Place(board, col, p);
    score := ScoreColumn(temp[col], p);
    ghost var vertical := score;
    var r := 0;
    while r < |board|
      invariant 0 <= r <= |board|
      invariant score == vertical + RowsScore(temp, p, r, |board|)
    {
      var s := ScoreRow(temp, r, p, |board|);
      score := score + s;
      r := r + 1;
    }
  }

  /** The move the player makes: the three-step pick over the legal moves, blocking against Opponent(player). */
  function Choice(b: Grid, choices: seq<int>, player: int): int
    requires choices != []
  {
    Pick(choices, Wins(b, player), Wins(b, Opponent(player)), Scores(b, player))
  }

  /** Player 1 on a board of two or more columns of marks 0 and 1 skips straight from winning to the heuristic. */
  lemma PlayerOneWinsOrScores(b: Grid, choices: seq<int>)
    requires |b| >= 2 && choices != []
    requires forall c, r | 0 <= c < |b| && 0 <= r < |b[c]| :: b[c][r] == 0 || b[c][r] == 1
    requires forall i | 0 <= i < |choices| :: !WinningMove(b, choices[i], 1)
    ensures IsFirstMax(choices, Choice(b, choices, 1), Scores(b, 1))
  {
    forall i | 0 <= i < |choices| ensures !Wins(b, Opponent(1))(choices[i]) {
      PlayerOneNeverBlocks(b, choices[i]);
    }
  }

  /** Probe the legal moves in order and return the first that wins for p. */
  method FirstWinningMove(board: Grid, choices: seq<int>, p: int) returns (r: Option<int>)
    ensures r == FirstWhere(choices, Wins(board, p))
  {
    var i := 0;
    while i < |choices|
      invariant 0 <= i <= |choices|
      invariant FirstWhere(choices[i..], Wins(board, p)) == FirstWhere(choices, Wins(board, p))
    {
      assert choices[i..][1..] == choices[i + 1..];
      if WinningMove(board, choices[i], p) {
        return Some(choices[i]);
      }
      i := i + 1;
    }
    r := None;
  }

  /**
   * The last step: score every legal move and keep the first of highest
   * score; the best score starts below every score, and with no legal
   * move no move is kept.
   */
  method BestMove(board: Grid, choices: seq<int>, p: int) returns (best: Option<int>)
    requires forall i | 0 <= i < |choices| :: 0 <= choices[i] < |board|
    ensures choices == [] ==> best == None
    ensures choices != [] ==> best == Some(choices[ArgMaxFirst(choices, Scores(board, p))])
  {
    ghost var score := Scores(board, p);
    var bestScore: int := -1;
    best := None;
    ghost var k := 0;
    var i := 0;
    while i < |choices|
      invariant 0 <= i <= |choices|
      invariant i == 0 ==> bestScore == -1 && best == None
      invariant i > 0 ==>
        && k == ArgMaxFirst(choices[..i], score)
        && best == Some(choices[k]) && bestScore == score(choices[k])
    {
      var s := EvaluatePosition(board, choices[i], p);
      KeepBest(choices, score, i, k, bestScore);
      if s > bestScore {
        bestScore, best, k := s, Some(choices[i]), i;
      }
      i := i + 1;
    }
    assert choices[..|choices|] == choices;
  }

  /**
   * One move of the player: the first winning move, else the first move
   * that wins for Opponent(player), else the first move of highest
   * heuristic score; no move at all when there is no legal move.  The
   * memory comes back as it was.
   */
  method Play<M>(board: Grid, choices: seq<int>, player: int, memory: M) returns (move: Option<int>, memory': M)
    requires forall i | 0 <= i < |choices| :: 0 <= choices[i] < |board|
    ensures memory' == memory
    ensures choices == [] ==> move == None
    ensures choices != [] ==> move == Some(Choice(board, choices, player))
  {
    var opponent := if player == 1 then 2 else 1;
    var win := FirstWinningMove(board, choices, player);
    if win.Some? {
      return win, memory;
    }
    var block := FirstWinningMove(board, choices, opponent);
    if block.Some? {
      return block, memory;
    }
    move := BestMove(board, choices, player);
    memory' := memory;
  }
}
