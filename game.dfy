/**
 * The connect-N game: a board of columns that two player strategies fill
 * in turn, a full-rescan win check, and the turn loop that times each
 * move, awards the game to the opponent of a player that fails, and
 * breaks a full board in favour of the faster player.
 */
module Game {
  import opened Board
  import opened Scan
  import opened Outcomes

  /**
   * One step of a scan: a cell above the top of its column clears the run,
   * a cell of the run's mark lengthens it, any other mark starts a new run
   * of one; the flag says whether the run has reached the target.
   */
  function CheckCell(b: Grid, target: int, i: int, j: int, last: int, count: int): (r: (int, int, bool))
    requires 0 <= i < |b| && 0 <= j
    ensures r.0 == (if j < |b[i]| then b[i][j] else Empty)
    ensures j < |b[i]| && b[i][j] == last ==> r.1 == count + 1
    ensures (j >= |b[i]| ==> r.1 == 0) && (j < |b[i]| && b[i][j] != last ==> r.1 == 1)
    ensures r.2 <==> r.1 >= target
  {
    var (last', count') :=
      if j >= |b[i]| then (Empty, 0)
      else if b[i][j] == last then (last, count + 1)
      else (b[i][j], 1);
    (last', count', count' >= target)
  }

  /** A scan step turns the run state of a line prefix into the run state of the prefix one cell longer. */
  lemma CheckCellExtendsRun(b: Grid, target: int, p: Pos, s: seq<int>, last: int, count: int)
    requires 0 <= p.col < |b| && 0 <= p.row
    requires p.row < |b[p.col]| ==> b[p.col][p.row] != Empty
    requires last == LastOf(s) && count == Run(s)
    ensures var s' := s + [Cell(b, p)];
      CheckCell(b, target, p.col, p.row, last, count) == (LastOf(s'), Run(s'), Run(s') >= target)
  {
    var s' := s + [Cell(b, p)];
    assert s'[..|s'| - 1] == s;
  }

  /**
   * One step of a line scan: checking the k-th cell of the line from start
   * leaves the run state of the line's first k + 1 cells, and reports a win
   * exactly where the scan of the line stops.
   */
  lemma ScanStep(b: Grid, m: int, target: int, d: Dir, start: Pos, k: nat, last: int, count: int)
    requires WellFormed(b, m) && InGrid(|b|, m, Offset(d, start, k)) && k <= |Line(b, m, d, start)|
    requires last == LastOf(Line(b, m, d, start)[..k]) && count == Run(Line(b, m, d, start)[..k])
    ensures var s, p := Line(b, m, d, start), Offset(d, start, k);
      var r := CheckCell(b, target, p.col, p.row, last, count);
      && k < |s| && r.0 == s[k] && r.0 == LastOf(s[..k + 1]) && r.1 == Run(s[..k + 1])
      && (r.2 ==> LineWinner(s, target, k) == Some(r.0))
      && (!r.2 ==> LineWinner(s, target, k) == LineWinner(s, target, k + 1))
      && Offset(d, p, 1) == Offset(d, start, k + 1)
  {
    var s, p := Line(b, m, d, start), Offset(d, start, k);
    LineIndex(b, m, d, start, k);
    CheckCellExtendsRun(b, target, p, s[..k], last, count);
    assert s[..k] + [s[k]] == s[..k + 1];
    assert Offset(d, Offset(d, start, k), 1) == Offset(d, start, k + 1);
  }

  /** The sum of a player's recorded turn times. */
  function Sum(ts: seq<nat>): nat
  {
    if ts == [] then 0 else Sum(ts[..|ts| - 1]) + ts[|ts| - 1]
  }

  /** A player's mean turn time. */
  function Mean(ts: seq<nat>): real
    requires ts != []
  {
    Sum(ts) as real / |ts| as real
  }

  /**
   * The full-board tiebreak: player 1 wins when its mean turn time is
   * strictly lower, player 0 otherwise; means are compared by
   * cross-multiplying the totals.
   */
  function FastestWins(times0: seq<nat>, times1: seq<nat>): (w: int)
    requires times0 != [] && times1 != []
    ensures w == 0 || w == 1
  {
    if Sum(times1) * |times0| < Sum(times0) * |times1| then 1 else 0
  }

  /** The cross-multiplied comparison is the comparison of the two means. */
  lemma FastestWinsByMean(times0: seq<nat>, times1: seq<nat>)
    requires times0 != [] && times1 != []
    ensures FastestWins(times0, times1) == 1 <==> Mean(times1) < Mean(times0)
    ensures FastestWins(times0, times1) == 0 <==> Mean(times0) <= Mean(times1)
  {
    CrossMultiply(Sum(times1), |times1|, Sum(times0), |times0|);
  }

  lemma CrossMultiply(a: nat, b: nat, c: nat, d: nat)
    requires b > 0 && d > 0
    ensures a * d < c * b <==> a as real / b as real < c as real / d as real
  {
    var x, y := a as real / b as real, c as real / d as real;
    assert a as real == x * b as real;
    assert c as real == y * d as real;
    assert (a * d) as real == a as real * d as real;
    assert (c * b) as real == c as real * b as real;
    var bd := b as real * d as real;
    assert bd > 0.0;
    assert a as real * d as real == x * bd;
    assert c as real * b as real == y * bd;
    if x < y {
      assert x * bd < y * bd;
    } else {
      assert y * bd <= x * bd;
    }
  }

  /** The tiebreak scenario: mean times 10 for player 0 and 5 for player 1 give player 1. */
  lemma FasterPlayerOneWins()
    ensures FastestWins([10], [5]) == 1
  {
  }

  /**
   * A player strategy: it receives a copy of the columns, the legal moves,
   * its own index and its memory, and returns a column and its new memory,
   * or raises.
   */
  type Strategy<!M> = (Grid, seq<int>, int, Option<M>) -> Outcome<(int, Option<M>)>

  /** The three ways a player loses the game on its own turn. */
  datatype Fault = StrategyFault | TimeoutFault | IllegalMoveFault

  /** How a game ended: a player's fault, a run of target marks, or a full board. */
  datatype Ending = Forfeit(offender: int, fault: Fault) | Connected | BoardFull

  /** The result of a game: the winner and each player's turn times. */
  datatype Report = Report(winner: int, times0: seq<nat>, times1: seq<nat>)

  /**
   * What a game is played with: the two strategies, the clock (elapsed(k)
   * is the time the k-th call into a strategy took) and the game's row
   * limit, target and time budget.
   */
  datatype Setup<!M> = Setup(player1: Strategy<M>, player2: Strategy<M>, elapsed: nat -> nat,
                             maxRows: int, target: int, timeout: int)

  /**
   * The game between two passes of its loop: the board, the player that
   * moved last, the two memories and the two lists of recorded times, and
   * the number of calls into a strategy made so far.
   */
  datatype State<!M> = State(board: Grid, last: int, memory: seq<Option<M>>, times: seq<seq<nat>>, turn: nat)

  /** How a game ended, on which board, with which recorded times and which result. */
  datatype Final = Final(ending: Ending, board: Grid, times: seq<seq<nat>>, result: Outcome<Report>)

  /** One pass of the game loop either ends the game or leads to the next pass. */
  datatype Step<!M> = Over(final: Final) | Next(state: State<M>)

  /** The full-board result: the faster player, or a raise when a player has no recorded time. */
  function Tiebreak(times0: seq<nat>, times1: seq<nat>): Outcome<Report>
  {
    if times0 == [] || times1 == [] then Raised else Returned(Report(FastestWins(times0, times1), times0, times1))
  }

  class TicTacToe {
    /** The board: one list of marks per column, bottom to top. */
    var columns: Grid
    const maxRows: int
    const target: int
    /** The per-turn time budget; 0 or less means no budget. */
    const timeout: int

    ghost predicate Valid()
      reads this
    {
      WellFormed(columns, maxRows)
    }

    constructor (nRows: int, nCols: int, nTarget: int, timeout: int)
      ensures Valid()
      ensures |columns| == (if nCols < 0 then 0 else nCols)
      ensures forall c | 0 <= c < |columns| :: columns[c] == []
      ensures maxRows == nRows && target == nTarget && this.timeout == timeout
    {
      columns := seq(if nCols < 0 then 0 else nCols, _ => []);
      maxRows := nRows;
      target := nTarget;
      this.timeout := timeout;
    }

    /** Walk one scan line from start, counting runs; stop at the first run of target marks. */
    method ScanLine(start: Pos, d: Dir) returns (win: bool, last: int)
      requires Valid()
      ensures (if win then Some(last) else None) == LineWinner(Line(columns, maxRows, d, start), target, 0)
    {
      var b := columns;
      ghost var s := Line(b, maxRows, d, start);
      var p := start;
      var count := 0;
      last := Empty;
      ghost var k := 0;
      while InGrid(|b|, maxRows, p)
        invariant 0 <= k <= |s| && p == Offset(d, start, k)
        invariant last == LastOf(s[..k]) && count == Run(s[..k])
        invariant LineWinner(s, target, k) == LineWinner(s, target, 0)
        decreases |s| - k
      {
        ScanStep(b, maxRows, target, d, start, k, last, count);
        var r := CheckCell(b, target, p.col, p.row, last, count);
        last, count, win := r.0, r.1, r.2;
        if win {
          return;
        }
        p := Offset(d, p, 1);
        k := k + 1;
      }
      LineIndex(b, maxRows, d, start, k);
      win := false;
    }

    /** Scan every line of one sweep, stopping at the first line with a run of target marks. */
    method Sweep(f: Family) returns (win: bool, last: int)
      requires Valid()
      ensures (if win then Some(last) else None) == SweepWinner(columns, maxRows, target, f, 0)
    {
      var size := FamilySize(f, |columns|, maxRows);
      var x := 0;
      while x < size
        invariant 0 <= x
        invariant SweepWinner(columns, maxRows, target, f, x) == SweepWinner(columns, maxRows, target, f, 0)
        decreases size - x
      {
        var start := FamilyStart(f, |columns|, maxRows, x);
        win, last := ScanLine(start, FamilyDir(f));
        if win {
          return;
        }
        x := x + 1;
      }
      win, last := false, Empty;
    }

    /**
     * The win check: a full rescan in six sweeps (columns, rows, rising
     * diagonals from the bottom row and from the first column, falling
     * diagonals from the top row and from the last column).  A mark it
     * returns has a run it can see; with a target of at least 1 it returns
     * no winner exactly when the board holds no such run.
     */
    method CheckWin() returns (m: int)
      requires Valid()
      ensures m == Winner(columns, maxRows, target)
      ensures Reported(columns, maxRows, target, m)
      ensures target >= 1 ==> (m == Empty <==> Unconnected(columns, maxRows, target))
    {
      WinnerSoundComplete(columns, maxRows, target);
      var win;
      win, m := Sweep(Columns);
      if win { return; }
      win, m := Sweep(Rows);
      if win { return; }
      win, m := Sweep(RisingFromBottom);
      if win { return; }
      win, m := Sweep(RisingFromLeft);
      if win { return; }
      win, m := Sweep(FallingFromTop);
      if win { return; }
      win, m := Sweep(FallingFromRight);
      if win { return; }
      m := Empty;
    }

    /** Drop the mark of a player into a legal column. */
    method Drop(col: int, mark: int)
      requires Valid() && col in Choices(columns, maxRows) && (mark == 0 || mark == 1)
      modifies this
      ensures Valid()
      ensures columns == old(columns)[col := old(columns)[col] + [mark]]
    {
      DropKeepsWellFormed(columns, maxRows, col, mark);
      columns := columns[col := columns[col] + [mark]];
    }

    /** Drop the player's mark into a legal column, then run the win check. */
    method Move(col: int, player: int) returns (winner: int)
      requires Valid() && col in Choices(columns, maxRows) && (player == 0 || player == 1)
      modifies this
      ensures Valid() && columns == old(columns)[col := old(columns)[col] + [player]]
      ensures forall c | 0 <= c < |columns| :: old(columns)[c] <= columns[c]
      ensures Total(columns) == Total(old(columns)) + 1 <= Capacity(|columns|, maxRows)
      ensures winner == Winner(columns, maxRows, target)
      ensures Reported(columns, maxRows, target, winner)
      ensures target >= 1 && winner == Empty ==> Unconnected(columns, maxRows, target)
    {
      TotalAppend(columns, col, player);
      Drop(col, player);
      TotalBounded(columns, maxRows);
      winner := CheckWin();
    }

    /**
     * One pass of the game loop from state s: with no legal move the board
     * is full and the tiebreak decides; otherwise the other player's
     * strategy is called, which may raise; its time is recorded and judged,
     * over a positive budget the turn is forfeited, and so it is when the
     * answer is not a legal move; otherwise the mark is dropped and the
     * win check decides whether the game goes on.
     */
    method Turn<M>(g: Setup<M>, s: State<M>) returns (step: Step<M>)
      requires Valid() && columns == s.board && Sane(g, s)
      requires g.maxRows == maxRows && g.target == target && g.timeout == timeout
      modifies this
      ensures step == Pass(g, s)
      ensures Valid() && columns == (if step.Over? then step.final.board else step.state.board)
    {
      var choices := Choices(columns, maxRows);
      if |choices| == 0 {
        return Over(Final(BoardFull, columns, s.times, Tiebreak(s.times[0], s.times[1])));
      }
      var player := 1 - s.last;
      var t := g.elapsed(s.turn);
      var response := StrategyOf(g, player)(columns, choices, player, s.memory[player]);
      if response.Raised? {
        return Over(Final(Forfeit(player, StrategyFault), columns, s.times, Returned(Report(1 - player, s.times[0], s.times[1]))));
      }
      var times := s.times[player := s.times[player] + [t]];
      var memory := s.memory[player := response.value.1];
      if timeout > 0 && t > timeout {
        return Over(Final(Forfeit(player, TimeoutFault), columns, times, Returned(Report(1 - player, times[0], times[1]))));
      }
      var move := response.value.0;
      if move !in choices {
        return Over(Final(Forfeit(player, IllegalMoveFault), columns, times, Returned(Report(1 - player, times[0], times[1]))));
      }
      var winner := Move(move, player);
      if winner >= 0 {
        return Over(Final(Connected, columns, times, Returned(Report(winner, times[0], times[1]))));
      }
      return Next(State(columns, player, memory, times, s.turn + 1));
    }

    /**
     * Play one game.  first is the player that "moved last" before the
     * game (the coin flip), so player 1 - first moves first.  Both
     * memories start empty and no time is recorded.  The result and the
     * final board are those of the reference game Play, which ends as
     * Concluded says.
     */
    method Start<M>(player1: Strategy<M>, player2: Strategy<M>, first: int, elapsed: nat -> nat)
      returns (result: Outcome<Report>)
      requires Valid() && (first == 0 || first == 1)
      modifies this
      ensures var f := Play(Setup(player1, player2, elapsed, maxRows, target, timeout),
                            State(old(columns), first, [None, None], [[], []], 0));
        Valid() && result == f.result && columns == f.board
    ensures Concluded(Setup(player1, player2, elapsed, maxRows, target, timeout), first, old(columns),
                      Play(Setup(player1, player2, elapsed, maxRows, target, timeout),
                           State(old(columns), first, [None, None], [[], []], 0)))
    {
      var g := Setup(player1, player2, elapsed, maxRows, target, timeout);
      GameConcludes(g, first, columns);
      var s := State(columns, first, [None, None], [[], []], 0);
      ghost var s0 := s;
      while true
        invariant Valid() && columns == s.board && Sane(g, s)
        invariant Play(g, s) == Play(g, s0)
        decreases Capacity(|columns|, maxRows) - Total(columns)
      {
        TotalBounded(columns, maxRows);
        var step := Turn(g, s);
        if step.Over? {
          return step.final.result;
        }
        s := step.state;
      }
    }
  }

  /** The board b has grown from b0 by k marks, each column by appending. */
  ghost predicate Grown(b0: Grid, b: Grid, k: int)
  {
    && |b| == |b0|
    && (forall c | 0 <= c < |b| :: b0[c] <= b[c])
    && Total(b) == Total(b0) + k
  }

  lemma GrownStep(b0: Grid, b: Grid, k: int, c: int, x: int)
    requires Grown(b0, b, k) && 0 <= c < |b|
    ensures Grown(b0, b[c := b[c] + [x]], k + 1)
  {
    TotalAppend(b, c, x);
  }

  /**
   * The recorded times after a turn of player last: the players have
   * taken turns, starting with the one after first, and in a positive
   * budget every recorded time is within it.
   */
  ghost predicate Alternating(first: int, last: int, times: seq<seq<nat>>, timeout: int)
  {
    && |times| == 2 && (last == 0 || last == 1)
    && Lead(first, times[0], times[1]) == (if last == first then 0 else 1)
    && (timeout > 0 ==> WithinBudget(times[0], timeout) && WithinBudget(times[1], timeout))
  }

  /**
   * Recording player's time t after the other player's turn counts one
   * more turn, and keeps the alternation unless t is over a positive
   * budget.
   */
  lemma RecordKeepsTurns(first: int, times: seq<seq<nat>>, player: int, t: nat, timeout: int)
    requires (first == 0 || first == 1) && (player == 0 || player == 1)
    requires Alternating(first, 1 - player, times, timeout)
    ensures var r := times[player := times[player] + [t]];
      && |r| == 2
      && |r[0]| + |r[1]| == |times[0]| + |times[1]| + 1
      && 0 <= Lead(first, r[0], r[1]) <= 1
      && LastTime(r[player]) == t
      && (!(timeout > 0 && t > timeout) ==> Alternating(first, player, r, timeout))
  {
  }

  /** How many more turns the player moving first has recorded than the other. */
  function Lead(first: int, times0: seq<nat>, times1: seq<nat>): int
  {
    if first == 0 then |times1| - |times0| else |times0| - |times1|
  }

  /** Every recorded time is within the budget. */
  predicate WithinBudget(ts: seq<nat>, timeout: int)
  {
    forall k | 0 <= k < |ts| :: ts[k] <= timeout
  }

  /** The most recent recorded time (0 when there is none). */
  function LastTime(ts: seq<nat>): nat
  {
    if ts == [] then 0 else ts[|ts| - 1]
  }

  /** The strategy of player p. */
  function StrategyOf<M>(g: Setup<M>, p: int): Strategy<M>
  {
    if p == 0 then g.player1 else g.player2
  }

  /** The shape every state of the game loop has. */
  predicate Sane<M>(g: Setup<M>, s: State<M>)
  {
    WellFormed(s.board, g.maxRows) && |s.memory| == 2 && |s.times| == 2 && (s.last == 0 || s.last == 1)
  }

  /**
   * One pass of the game loop, as a function of the state it starts in:
   * the reference the method Turn is proved against.  With no legal move
   * the board is full and the tiebreak decides; otherwise the player to
   * move answers.
   */
  function Pass<M>(g: Setup<M>, s: State<M>): (r: Step<M>)
    requires Sane(g, s)
    ensures r.Next? ==> Sane(g, r.state) && |r.state.board| == |s.board| && Total(r.state.board) == Total(s.board) + 1
  {
    var choices := Choices(s.board, g.maxRows);
    if choices == [] then
      Over(Final(BoardFull, s.board, s.times, Tiebreak(s.times[0], s.times[1])))
    else
      var p := 1 - s.last;
      Answered(g, s, StrategyOf(g, p)(s.board, choices, p, s.memory[p]))
  }

  /**
   * The rest of a pass once the player to move has answered: a raise
   * forfeits the turn; otherwise the time is recorded, and a time over a
   * positive budget or a column that is not a legal move forfeits it.
   */
  function Answered<M>(g: Setup<M>, s: State<M>, response: Outcome<(int, Option<M>)>): (r: Step<M>)
    requires Sane(g, s)
    ensures r.Next? ==> Sane(g, r.state) && |r.state.board| == |s.board| && Total(r.state.board) == Total(s.board) + 1
  {
    var p := 1 - s.last;
    var t := g.elapsed(s.turn);
    if response.Raised? then
      Over(Final(Forfeit(p, StrategyFault), s.board, s.times, Returned(Report(1 - p, s.times[0], s.times[1]))))
    else
      var times := s.times[p := s.times[p] + [t]];
      var move := response.value.0;
      if g.timeout > 0 && t > g.timeout then
        Over(Final(Forfeit(p, TimeoutFault), s.board, times, Returned(Report(1 - p, times[0], times[1]))))
      else if move !in Choices(s.board, g.maxRows) then
        Over(Final(Forfeit(p, IllegalMoveFault), s.board, times, Returned(Report(1 - p, times[0], times[1]))))
      else
        Dropped(g, s, move, response.value.1, times)
  }

  /**
   * The rest of a pass once the legal move has been made in time: the
   * mark is dropped and the win check decides whether the game goes on.
   */
  function Dropped<M>(g: Setup<M>, s: State<M>, move: int, memory: Option<M>, times: seq<seq<nat>>): (r: Step<M>)
    requires Sane(g, s) && move in Choices(s.board, g.maxRows) && |times| == 2
    ensures r.Next? ==> Sane(g, r.state) && |r.state.board| == |s.board| && Total(r.state.board) == Total(s.board) + 1
  {
    var board := s.board[move := s.board[move] + [1 - s.last]];
    Settled(g, s, move, Winner(board, g.maxRows, g.target), memory, times)
  }

  /** The end of a pass once the win check has returned winner for the board with the mark dropped. */
  function Settled<M>(g: Setup<M>, s: State<M>, move: int, winner: int, memory: Option<M>, times: seq<seq<nat>>): (r: Step<M>)
    requires Sane(g, s) && move in Choices(s.board, g.maxRows) && |times| == 2
    ensures r.Next? ==> Sane(g, r.state) && |r.state.board| == |s.board| && Total(r.state.board) == Total(s.board) + 1
  {
    var p := 1 - s.last;
    var board := s.board[move := s.board[move] + [p]];
    DropKeepsWellFormed(s.board, g.maxRows, move, p);
    TotalAppend(s.board, move, p);
    if winner >= 0 then
      Over(Final(Connected, board, times, Returned(Report(winner, times[0], times[1]))))
    else
      Next(State(board, p, s.memory[p := memory], times, s.turn + 1))
  }

  /** The reference game: passes of the loop from state s until one ends the game. */
  function Play<M>(g: Setup<M>, s: State<M>): Final
    requires Sane(g, s)
    decreases Capacity(|s.board|, g.maxRows) - Total(s.board)
  {
    TotalBounded(s.board, g.maxRows);
    match Pass(g, s)
    case Over(f) => f
    case Next(s') => TotalBounded(s'.board, g.maxRows); Play(g, s')
  }

  /** The player making the k-th call into a strategy (counted from 0): the one after first, then alternately. */
  function Mover(first: int, k: int): int
  {
    if k % 2 == 0 then 1 - first else first
  }

  /** The calls alternate between the players. */
  lemma MoverNext(first: int, k: nat)
    requires first == 0 || first == 1
    ensures Mover(first, k + 1) == 1 - Mover(first, k)
  {
    assert (k + 1) % 2 == 0 <==> k % 2 != 0;
  }

  /**
   * What holds of every state the loop reaches from board b0 after the coin
   * flip first: each pass so far made a move, the other player is next,
   * the times alternate within the budget, the board grew by one mark per
   * move, and after a move no covered run is on the board.
   */
  ghost predicate Consistent<M>(g: Setup<M>, first: int, b0: Grid, s: State<M>)
  {
    && Sane(g, s) && (first == 0 || first == 1)
    && s.turn == |s.times[0]| + |s.times[1]|
    && 1 - s.last == Mover(first, s.turn)
    && Alternating(first, s.last, s.times, g.timeout)
    && Grown(b0, s.board, s.turn)
    && (s.turn > 0 && g.target >= 1 ==> Unconnected(s.board, g.maxRows, g.target))
  }

  /** The moves made in a game that ended as f: every recorded time but the one of a forfeited turn. */
  function Moves(f: Final): int
    requires |f.times| == 2
  {
    |f.times[0]| + |f.times[1]| - (if f.ending.Forfeit? && f.ending.fault != StrategyFault then 1 else 0)
  }

  /**
   * What holds of the end of a game from board b0 after the coin flip
   * first: the board grew by one mark per move; a player at fault is the
   * one whose turn it was and loses to the other; a timeout is the last
   * recorded time of the offender, over the budget; a connected game is
   * won by the player the win check reports; a full board goes to the
   * tiebreak; and a game that ends otherwise after a move leaves no
   * covered run on the board.
   */
  ghost predicate Concluded<M>(g: Setup<M>, first: int, b0: Grid, f: Final)
  {
    && |f.times| == 2
    && var k := Moves(f);
    && k >= 0
    && Grown(b0, f.board, k)
    && 0 <= Lead(first, f.times[0], f.times[1]) <= 1
    && (f.ending.Forfeit? ==>
          && (f.ending.offender == 0 || f.ending.offender == 1)
          && f.ending.offender == Mover(first, k)
          && f.result == Returned(Report(1 - f.ending.offender, f.times[0], f.times[1])))
    && (f.ending.Forfeit? && f.ending.fault == TimeoutFault ==>
          g.timeout > 0 && LastTime(f.times[f.ending.offender]) == g.elapsed(k) > g.timeout)
    && (g.timeout > 0 && !(f.ending.Forfeit? && f.ending.fault == TimeoutFault) ==>
          WithinBudget(f.times[0], g.timeout) && WithinBudget(f.times[1], g.timeout))
    && (f.ending.Connected? ==>
          && f.result == Returned(Report(Winner(f.board, g.maxRows, g.target), f.times[0], f.times[1]))
          && Winner(f.board, g.maxRows, g.target) >= 0
          && Reported(f.board, g.maxRows, g.target, Winner(f.board, g.maxRows, g.target)))
    && (f.ending.BoardFull? ==> Choices(f.board, g.maxRows) == [] && f.result == Tiebreak(f.times[0], f.times[1]))
    && (!f.ending.Connected? && k > 0 && g.target >= 1 ==> Unconnected(f.board, g.maxRows, g.target))
  }

  /** The game starts consistent. */
  lemma StartConsistent<M>(g: Setup<M>, first: int, b0: Grid)
    requires WellFormed(b0, g.maxRows) && (first == 0 || first == 1)
    ensures Consistent(g, first, b0, State(b0, first, [None, None], [[], []], 0))
  {
  }

  /** A full board after a consistent state concludes the game by the tiebreak. */
  lemma FullConcludes<M>(g: Setup<M>, first: int, b0: Grid, s: State<M>)
    requires Consistent(g, first, b0, s) && Choices(s.board, g.maxRows) == []
    ensures Concluded(g, first, b0, Final(BoardFull, s.board, s.times, Tiebreak(s.times[0], s.times[1])))
  {
  }

  /** A strategy raising after a consistent state forfeits the turn, with no time recorded. */
  lemma RaisedConcludes<M>(g: Setup<M>, first: int, b0: Grid, s: State<M>)
    requires Consistent(g, first, b0, s)
    ensures var p := 1 - s.last;
      Concluded(g, first, b0, Final(Forfeit(p, StrategyFault), s.board, s.times, Returned(Report(1 - p, s.times[0], s.times[1]))))
  {
  }

  /**
   * A time t over a positive budget, or else a column that is not a legal
   * move, after a consistent state forfeits the turn with t recorded.
   */
  lemma FaultConcludes<M>(g: Setup<M>, first: int, b0: Grid, s: State<M>, fault: Fault)
    requires Consistent(g, first, b0, s) && fault != StrategyFault
    requires fault == TimeoutFault <==> g.timeout > 0 && g.elapsed(s.turn) > g.timeout
    ensures var p := 1 - s.last;
      var times := s.times[p := s.times[p] + [g.elapsed(s.turn)]];
      Concluded(g, first, b0, Final(Forfeit(p, fault), s.board, times, Returned(Report(1 - p, times[0], times[1]))))
  {
    RecordKeepsTurns(first, s.times, 1 - s.last, g.elapsed(s.turn), g.timeout);
  }

  /** A legal move in time after a consistent state that connects ends the game, won by the player the win check reports. */
  lemma ConnectConcludes<M>(g: Setup<M>, first: int, b0: Grid, s: State<M>, move: int)
    requires Consistent(g, first, b0, s) && move in Choices(s.board, g.maxRows)
    requires !(g.timeout > 0 && g.elapsed(s.turn) > g.timeout)
    requires Winner(s.board[move := s.board[move] + [1 - s.last]], g.maxRows, g.target) >= 0
    ensures var p := 1 - s.last;
      var times := s.times[p := s.times[p] + [g.elapsed(s.turn)]];
      var board := s.board[move := s.board[move] + [p]];
      Concluded(g, first, b0, Final(Connected, board, times, Returned(Report(Winner(board, g.maxRows, g.target), times[0], times[1]))))
  {
    var p := 1 - s.last;
    var board := s.board[move := s.board[move] + [p]];
    RecordKeepsTurns(first, s.times, p, g.elapsed(s.turn), g.timeout);
    GrownStep(b0, s.board, s.turn, move, p);
    DropKeepsWellFormed(s.board, g.maxRows, move, p);
    WinnerSoundComplete(board, g.maxRows, g.target);
    var times := s.times[p := s.times[p] + [g.elapsed(s.turn)]];
    var w := Winner(board, g.maxRows, g.target);
    var f := Final(Connected, board, times, Returned(Report(w, times[0], times[1])));
    assert Moves(f) == s.turn + 1;
    assert Grown(b0, f.board, Moves(f));
    assert Alternating(first, p, times, g.timeout);
    assert w >= 0 && Reported(board, g.maxRows, g.target, w);
  }

  /** A legal move in time after a consistent state that does not connect reaches the next consistent state. */
  lemma MoveContinues<M>(g: Setup<M>, first: int, b0: Grid, s: State<M>, move: int, memory: seq<Option<M>>)
    requires Consistent(g, first, b0, s) && move in Choices(s.board, g.maxRows) && |memory| == 2
    requires !(g.timeout > 0 && g.elapsed(s.turn) > g.timeout)
    requires g.target >= 1 ==> Unconnected(s.board[move := s.board[move] + [1 - s.last]], g.maxRows, g.target)
    ensures var p := 1 - s.last;
      var times := s.times[p := s.times[p] + [g.elapsed(s.turn)]];
      var board := s.board[move := s.board[move] + [p]];
      Consistent(g, first, b0, State(board, p, memory, times, s.turn + 1))
  {
    var p := 1 - s.last;
    var board := s.board[move := s.board[move] + [p]];
    RecordKeepsTurns(first, s.times, p, g.elapsed(s.turn), g.timeout);
    GrownStep(b0, s.board, s.turn, move, p);
    MoverNext(first, s.turn);
    DropKeepsWellFormed(s.board, g.maxRows, move, p);
    var times := s.times[p := s.times[p] + [g.elapsed(s.turn)]];
    NextConsistent(g, first, b0, s, board, memory, times);
  }

  /** The pieces of a consistent state after a move by the player to move make the next consistent state. */
  lemma NextConsistent<M>(g: Setup<M>, first: int, b0: Grid, s: State<M>, board: Grid, memory: seq<Option<M>>, times: seq<seq<nat>>)
    requires Consistent(g, first, b0, s) && |memory| == 2
    requires WellFormed(board, g.maxRows) && Grown(b0, board, s.turn + 1)
    requires g.target >= 1 ==> Unconnected(board, g.maxRows, g.target)
    requires |times| == 2 && |times[0]| + |times[1]| == s.turn + 1 && Alternating(first, 1 - s.last, times, g.timeout)
    ensures Consistent(g, first, b0, State(board, 1 - s.last, memory, times, s.turn + 1))
  {
    MoverNext(first, s.turn);
  }

  /** A pass from a consistent state either concludes the game or reaches the next consistent state. */
  lemma PassConcludes<M>(g: Setup<M>, first: int, b0: Grid, s: State<M>)
    requires Consistent(g, first, b0, s)
    ensures Pass(g, s).Over? ==> Concluded(g, first, b0, Pass(g, s).final)
    ensures Pass(g, s).Next? ==> Consistent(g, first, b0, Pass(g, s).state) && Pass(g, s).state.turn == s.turn + 1
  {
    var choices := Choices(s.board, g.maxRows);
    if choices == [] {
      FullConcludes(g, first, b0, s);
    } else {
      var p := 1 - s.last;
      var response := StrategyOf(g, p)(s.board, choices, p, s.memory[p]);
      assert Pass(g, s) == Answered(g, s, response);
      AnsweredConcludes(g, first, b0, s, response);
    }
  }

  /** Whatever the player to move answers after a consistent state, the pass concludes the game or goes on consistently. */
  lemma AnsweredConcludes<M>(g: Setup<M>, first: int, b0: Grid, s: State<M>, response: Outcome<(int, Option<M>)>)
    requires Consistent(g, first, b0, s)
    ensures Answered(g, s, response).Over? ==> Concluded(g, first, b0, Answered(g, s, response).final)
    ensures Answered(g, s, response).Next? ==>
      Consistent(g, first, b0, Answered(g, s, response).state) && Answered(g, s, response).state.turn == s.turn + 1
  {
    var p := 1 - s.last;
    var t := g.elapsed(s.turn);
    if response.Raised? {
      RaisedConcludes(g, first, b0, s);
    } else if g.timeout > 0 && t > g.timeout {
      FaultConcludes(g, first, b0, s, TimeoutFault);
    } else if response.value.0 !in Choices(s.board, g.maxRows) {
      FaultConcludes(g, first, b0, s, IllegalMoveFault);
    } else {
      var times := s.times[p := s.times[p] + [t]];
      assert Answered(g, s, response) == Dropped(g, s, response.value.0, response.value.1, times);
      var move := response.value.0;
      if Winner(s.board[move := s.board[move] + [p]], g.maxRows, g.target) >= 0 {
        DroppedConnects(g, first, b0, s, move, response.value.1);
      } else {
        DroppedContinues(g, first, b0, s, move, response.value.1);
      }
    }
  }

  /** A legal move in time after a consistent state that connects concludes the game. */
  lemma DroppedConnects<M>(g: Setup<M>, first: int, b0: Grid, s: State<M>, move: int, memory: Option<M>)
    requires Consistent(g, first, b0, s) && move in Choices(s.board, g.maxRows)
    requires !(g.timeout > 0 && g.elapsed(s.turn) > g.timeout)
    requires Winner(s.board[move := s.board[move] + [1 - s.last]], g.maxRows, g.target) >= 0
    ensures var times := s.times[1 - s.last := s.times[1 - s.last] + [g.elapsed(s.turn)]];
      Dropped(g, s, move, memory, times).Over? && Concluded(g, first, b0, Dropped(g, s, move, memory, times).final)
  {
    var p := 1 - s.last;
    var board := s.board[move := s.board[move] + [p]];
    var times := s.times[p := s.times[p] + [g.elapsed(s.turn)]];
    ConnectConcludes(g, first, b0, s, move);
    SettledConnects(g, s, move, Winner(board, g.maxRows, g.target), memory, times);
  }

  /** With a winner reported, the pass ends the game as connected, reporting that winner. */
  lemma SettledConnects<M>(g: Setup<M>, s: State<M>, move: int, winner: int, memory: Option<M>, times: seq<seq<nat>>)
    requires Sane(g, s) && move in Choices(s.board, g.maxRows) && |times| == 2 && winner >= 0
    ensures Settled(g, s, move, winner, memory, times)
      == Over(Final(Connected, s.board[move := s.board[move] + [1 - s.last]], times, Returned(Report(winner, times[0], times[1]))))
  {
    var r := Settled(g, s, move, winner, memory, times);
    assert r.Over?;
    assert r.final.board == s.board[move := s.board[move] + [1 - s.last]];
  }

  /** A legal move in time after a consistent state that does not connect goes on consistently. */
  lemma DroppedContinues<M>(g: Setup<M>, first: int, b0: Grid, s: State<M>, move: int, memory: Option<M>)
    requires Consistent(g, first, b0, s) && move in Choices(s.board, g.maxRows)
    requires !(g.timeout > 0 && g.elapsed(s.turn) > g.timeout)
    requires Winner(s.board[move := s.board[move] + [1 - s.last]], g.maxRows, g.target) < 0
    ensures var times := s.times[1 - s.last := s.times[1 - s.last] + [g.elapsed(s.turn)]];
      && Dropped(g, s, move, memory, times).Next?
      && Consistent(g, first, b0, Dropped(g, s, move, memory, times).state)
      && Dropped(g, s, move, memory, times).state.turn == s.turn + 1
  {
    var board := s.board[move := s.board[move] + [1 - s.last]];
    DropKeepsWellFormed(s.board, g.maxRows, move, 1 - s.last);
    NoWinnerUnconnected(board, g.maxRows, g.target);
    SettledContinues(g, first, b0, s, move, Winner(board, g.maxRows, g.target), memory);
  }

  /** With no winner reported after a legal move in time, the pass reaches the next consistent state. */
  lemma SettledContinues<M>(g: Setup<M>, first: int, b0: Grid, s: State<M>, move: int, winner: int, memory: Option<M>)
    requires Consistent(g, first, b0, s) && move in Choices(s.board, g.maxRows)
    requires !(g.timeout > 0 && g.elapsed(s.turn) > g.timeout)
    requires winner < 0 && (g.target >= 1 ==> Unconnected(s.board[move := s.board[move] + [1 - s.last]], g.maxRows, g.target))
    ensures var times := s.times[1 - s.last := s.times[1 - s.last] + [g.elapsed(s.turn)]];
      && Settled(g, s, move, winner, memory, times).Next?
      && Consistent(g, first, b0, Settled(g, s, move, winner, memory, times).state)
      && Settled(g, s, move, winner, memory, times).state.turn == s.turn + 1
  {
    var p := 1 - s.last;
    var times := s.times[p := s.times[p] + [g.elapsed(s.turn)]];
    MoveContinues(g, first, b0, s, move, s.memory[p := memory]);
    SettledGoesOn(g, s, move, winner, memory, times);
  }

  /** A board on which the win check reports no winner holds no run of target marks. */
  lemma NoWinnerUnconnected(b: Grid, m: int, t: int)
    requires WellFormed(b, m) && Winner(b, m, t) < 0
    ensures t >= 1 ==> Unconnected(b, m, t)
  {
    WinnerSoundComplete(b, m, t);
  }

  /** With no winner reported, the pass goes on to the next state. */
  lemma SettledGoesOn<M>(g: Setup<M>, s: State<M>, move: int, winner: int, memory: Option<M>, times: seq<seq<nat>>)
    requires Sane(g, s) && move in Choices(s.board, g.maxRows) && |times| == 2 && winner < 0
    ensures Settled(g, s, move, winner, memory, times)
      == Next(State(s.board[move := s.board[move] + [1 - s.last]], 1 - s.last, s.memory[1 - s.last := memory], times, s.turn + 1))
  {
    var r := Settled(g, s, move, winner, memory, times);
    assert r.Next?;
    assert r.state.board == s.board[move := s.board[move] + [1 - s.last]];
  }

  /** Every game from a consistent state concludes as Concluded says. */
  lemma {:induction false} PlayConcludes<M>(g: Setup<M>, first: int, b0: Grid, s: State<M>)
    requires Consistent(g, first, b0, s)
    decreases Capacity(|s.board|, g.maxRows) - Total(s.board)
    ensures Concluded(g, first, b0, Play(g, s))
  {
    PassConcludes(g, first, b0, s);
    TotalBounded(s.board, g.maxRows);
    match Pass(g, s)
    case Over(f) =>
    case Next(s') =>
      TotalBounded(s'.board, g.maxRows);
      PlayConcludes(g, first, b0, s');
  }

  /** A whole game, from the start state that Start sets up, concludes as Concluded says. */
  lemma GameConcludes<M>(g: Setup<M>, first: int, b0: Grid)
    requires WellFormed(b0, g.maxRows) && (first == 0 || first == 1)
    ensures Concluded(g, first, b0, Play(g, State(b0, first, [None, None], [[], []], 0)))
  {
    StartConsistent(g, first, b0);
    PlayConcludes(g, first, b0, State(b0, first, [None, None], [[], []], 0));
  }

  /** A first mover whose strategy raises loses at once, with no time recorded and the board unchanged. */
  lemma RaisingMoverLoses<M>(g: Setup<M>, first: int, b0: Grid)
    requires WellFormed(b0, g.maxRows) && (first == 0 || first == 1) && Choices(b0, g.maxRows) != []
    requires StrategyOf(g, 1 - first)(b0, Choices(b0, g.maxRows), 1 - first, None).Raised?
    ensures Play(g, State(b0, first, [None, None], [[], []], 0))
      == Final(Forfeit(1 - first, StrategyFault), b0, [[], []], Returned(Report(first, [], [])))
  {
    var s := State(b0, first, [None, None], [[], []], 0);
    assert Pass(g, s) == Over(Final(Forfeit(1 - first, StrategyFault), b0, [[], []], Returned(Report(first, [], []))));
  }

  /** A first mover that answers in time with a column that is not a legal move loses at once. */
  lemma IllegalFirstMoveLoses<M>(g: Setup<M>, first: int, b0: Grid)
    requires WellFormed(b0, g.maxRows) && (first == 0 || first == 1) && Choices(b0, g.maxRows) != []
    requires var response := StrategyOf(g, 1 - first)(b0, Choices(b0, g.maxRows), 1 - first, None);
      response.Returned? && response.value.0 !in Choices(b0, g.maxRows)
    requires !(g.timeout > 0 && g.elapsed(0) > g.timeout)
    ensures var times := [[], []][1 - first := [g.elapsed(0)]];
      Play(g, State(b0, first, [None, None], [[], []], 0))
        == Final(Forfeit(1 - first, IllegalMoveFault), b0, times, Returned(Report(first, times[0], times[1])))
  {
    var s := State(b0, first, [None, None], [[], []], 0);
    var times := [[], []][1 - first := [g.elapsed(0)]];
    var response := StrategyOf(g, 1 - first)(b0, Choices(b0, g.maxRows), 1 - first, None);
    assert [] + [g.elapsed(0)] == [g.elapsed(0)];
    assert Pass(g, s) == Answered(g, s, response);
    assert Answered(g, s, response) == Over(Final(Forfeit(1 - first, IllegalMoveFault), b0, times, Returned(Report(first, times[0], times[1]))));
  }
}
