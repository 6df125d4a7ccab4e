/**
 * The window check and the window count shared by two of the AI players:
 * a window is `t` cells in a row, a column, a rising or a falling
 * diagonal, all holding the player's mark, and the scans visit window
 * starts over fixed ranges of rows and columns.  The player's copy of the
 * board is a list of columns that the probes extend by one mark and then
 * shorten again, in place.
 */
module Windows {
  import opened Board
  import opened Outcomes
  import opened Selection

  /** A player's memory: a dictionary from names to numbers. */
  type Memory = map<string, int>

  /** The other player's mark. */
  function Opponent(player: int): (o: int)
    ensures o == 0 || o == 1
    ensures (player == 0 || player == 1) ==> o == 1 - player
  {
    if player == 0 then 1 else 0
  }

  /** The height of the tallest column (0 for a board without columns). A non-recursive wrapper, so that proofs using it do not unfold the recursion. */
  function MaxLen(b: Grid): (h: nat)
    ensures forall c | 0 <= c < |b| :: |b[c]| <= h
    ensures b != [] ==> exists c | 0 <= c < |b| :: |b[c]| == h
  {
    Tallest(b)
  }

  /** The height of the tallest column, column by column. */
  function Tallest(b: Grid): (h: nat)
    ensures forall c | 0 <= c < |b| :: |b[c]| <= h
    ensures b != [] ==> exists c | 0 <= c < |b| :: |b[c]| == h
  {
    if b == [] then 0
    else
      var init := b[..|b| - 1];
      var h := Tallest(init);
      assert forall c | 0 <= c < |init| :: init[c] == b[c];
      if |b[|b| - 1]| > h then |b[|b| - 1]| else h
  }

  /** The board with mark p appended to column col. */
  function Place(b: Grid, col: int, p: int): (r: Grid)
    requires 0 <= col < |b|
    ensures |r| == |b| && r[col] == b[col] + [p]
    ensures forall c | 0 <= c < |b| && c != col :: r[c] == b[c]
  {
    b[col := b[col] + [p]]
  }

  /** The window starts p owns: q starts t cells in direction d that all hold p's mark. */
  function Owns(b: Grid, t: int, p: int, d: Dir): Pos -> bool
  {
    q => Stretch(b, t, d, q, p)
  }

  /** The run test cell by cell: q holds p and the t - 1 cells after it in direction d do too. */
  predicate Stretch(b: Grid, t: int, d: Dir, q: Pos, p: int)
    decreases t
  {
    t <= 0 || (OwnedBy(b, q, p) && Stretch(b, t - 1, d, Offset(d, q, 1), p))
  }

  /** The cell-by-cell test agrees with the run predicate. */
  lemma {:induction false} StretchIsRun(b: Grid, t: int, d: Dir, q: Pos, p: int)
    ensures Stretch(b, t, d, q, p) <==> RunAt(b, t, d, q, p)
    decreases t
  {
    if t > 0 {
      var next := Offset(d, q, 1);
      StretchIsRun(b, t - 1, d, next, p);
      forall k | 0 <= k < t - 1 ensures Offset(d, next, k) == Offset(d, q, k + 1) {
        assert Offset(d, Offset(d, q, 1), k) == Offset(d, q, 1 + k);
      }
      assert Offset(d, q, 0) == q;
      if OwnedBy(b, q, p) && RunAt(b, t - 1, d, next, p) {
        forall k | 0 <= k < t ensures OwnedBy(b, Offset(d, q, k), p) {
          if k > 0 {
            assert OwnedBy(b, Offset(d, next, k - 1), p);
          }
        }
      }
    }
  }

  /** Some start in a row of [lo, hi) and a column of [0, w) is owned. */
  predicate WindowIn(own: Pos -> bool, lo: int, hi: int, w: int)
  {
    exists r, c | lo <= r < hi && 0 <= c < w :: own(Pos(c, r))
  }

  /** Some column among the first n, at least t high, has an owned start with room for t cells above it. */
  predicate ColumnWindow(b: Grid, t: int, own: Pos -> bool, n: int)
    requires n <= |b|
  {
    exists c, r | 0 <= c < n && |b[c]| >= t && 0 <= r < |b[c]| - t + 1 :: own(Pos(c, r))
  }

  /**
   * The window check: a row window starting in a row below the tallest
   * column, a column window inside its column, a rising window whose top
   * row is below the tallest column, or a falling window whose bottom row
   * is row 0 or above; every start column leaves room for t columns.
   */
  predicate IsWinning(b: Grid, t: int, p: int)
  {
    var w := |b| - t + 1;
    || WindowIn(Owns(b, t, p, East), 0, MaxLen(b), w)
    || ColumnWindow(b, t, Owns(b, t, p, North), |b|)
    || WindowIn(Owns(b, t, p, NorthEast), 0, MaxLen(b) - t + 1, w)
    || WindowIn(Owns(b, t, p, SouthEast), t - 1, MaxLen(b), w)
  }

  /** A run's first and last cells are occupied, which bounds where it can start. */
  lemma RunEnds(b: Grid, t: int, d: Dir, q: Pos, p: int)
    requires t >= 1 && RunAt(b, t, d, q, p)
    ensures Occupied(b, q) && Occupied(b, Offset(d, q, t - 1))
  {
    assert OwnedBy(b, Offset(d, q, 0), p);
    assert OwnedBy(b, Offset(d, q, t - 1), p);
  }

  /**
   * For t >= 1 the window ranges leave no run out: p owns a window
   * exactly when it holds t cells in a row, a column or a diagonal
   * anywhere on the board.
   */
  lemma IsWinningIffRun(b: Grid, t: int, p: int)
    requires t >= 1
    ensures IsWinning(b, t, p) <==> exists d, q :: d != NorthWest && RunAt(b, t, d, q, p)
  {
    if d, q :| d != NorthWest && RunAt(b, t, d, q, p) {
      RunIsWindow(b, t, p, d, q);
    }
    if IsWinning(b, t, p) {
      var d, q := WindowIsRun(b, t, p);
    }
  }

  /** A run of t >= 1 in one of the four directions starts inside its scan's window range. */
  lemma RunIsWindow(b: Grid, t: int, p: int, d: Dir, q: Pos)
    requires t >= 1 && d != NorthWest && RunAt(b, t, d, q, p)
    ensures IsWinning(b, t, p)
  {
    RunEnds(b, t, d, q, p);
    var last := Offset(d, q, t - 1);
    var w := |b| - t + 1;
    StretchIsRun(b, t, d, q, p);
    assert Owns(b, t, p, d)(Pos(q.col, q.row));
    match d {
      case East =>
        assert 0 <= q.row < MaxLen(b) && 0 <= q.col < w;
        assert WindowIn(Owns(b, t, p, East), 0, MaxLen(b), w);
      case North =>
        assert 0 <= q.col < |b| && |b[q.col]| >= t && 0 <= q.row < |b[q.col]| - t + 1;
        assert ColumnWindow(b, t, Owns(b, t, p, North), |b|);
      case NorthEast =>
        assert |b[last.col]| <= MaxLen(b);
        assert 0 <= q.row < MaxLen(b) - t + 1 && 0 <= q.col < w;
        assert WindowIn(Owns(b, t, p, NorthEast), 0, MaxLen(b) - t + 1, w);
      case SouthEast =>
        assert t - 1 <= q.row < MaxLen(b) && 0 <= q.col < w;
        assert WindowIn(Owns(b, t, p, SouthEast), t - 1, MaxLen(b), w);
    }
  }

  /** An owned window is a run in one of the four directions. */
  lemma WindowIsRun(b: Grid, t: int, p: int) returns (d: Dir, q: Pos)
    requires IsWinning(b, t, p)
    ensures d != NorthWest && RunAt(b, t, d, q, p)
  {
    var w := |b| - t + 1;
    if WindowIn(Owns(b, t, p, East), 0, MaxLen(b), w) {
      var r, c :| 0 <= r < MaxLen(b) && 0 <= c < w && Owns(b, t, p, East)(Pos(c, r));
      d, q := East, Pos(c, r);
    } else if ColumnWindow(b, t, Owns(b, t, p, North), |b|) {
      var c, r :| 0 <= c < |b| && |b[c]| >= t && 0 <= r < |b[c]| - t + 1 && Owns(b, t, p, North)(Pos(c, r));
      d, q := North, Pos(c, r);
    } else if WindowIn(Owns(b, t, p, NorthEast), 0, MaxLen(b) - t + 1, w) {
      var r, c :| 0 <= r < MaxLen(b) - t + 1 && 0 <= c < w && Owns(b, t, p, NorthEast)(Pos(c, r));
      d, q := NorthEast, Pos(c, r);
    } else {
      var r, c :| t - 1 <= r < MaxLen(b) && 0 <= c < w && Owns(b, t, p, SouthEast)(Pos(c, r));
      d, q := SouthEast, Pos(c, r);
    }
    StretchIsRun(b, t, d, q, p);
  }

  /** The number of owned starts (c, r) with c in [0, w). */
  function RowCount(own: Pos -> bool, r: int, w: int): nat
    decreases w
  {
    if w <= 0 then 0 else RowCount(own, r, w - 1) + (if own(Pos(w - 1, r)) then 1 else 0)
  }

  /** The number of owned starts over rows [lo, hi) and columns [0, w). */
  function RowsCount(own: Pos -> bool, lo: int, hi: int, w: int): nat
    decreases hi - lo
  {
    if hi <= lo then 0 else RowsCount(own, lo, hi - 1, w) + RowCount(own, hi - 1, w)
  }

  /** The number of owned starts (c, r) with r in [0, h). */
  function ColumnCount(own: Pos -> bool, c: int, h: int): nat
    decreases h
  {
    if h <= 0 then 0 else ColumnCount(own, c, h - 1) + (if own(Pos(c, h - 1)) then 1 else 0)
  }

  /** The number of owned column starts in the first n columns (columns shorter than t have none). */
  function ColumnsCount(b: Grid, t: int, own: Pos -> bool, n: int): nat
    requires n <= |b|
    decreases n
  {
    if n <= 0 then 0
    else ColumnsCount(b, t, own, n - 1) + (if |b[n - 1]| >= t then ColumnCount(own, n - 1, |b[n - 1]| - t + 1) else 0)
  }

  /** The owned starts of a row or diagonal scan. A non-recursive wrapper, so that proofs using it do not unfold the recursion. */
  function RowWindows(own: Pos -> bool, lo: int, hi: int, w: int): nat
  {
    RowsCount(own, lo, hi, w)
  }

  /** The owned starts of the column scan. A non-recursive wrapper, so that proofs using it do not unfold the recursion. */
  function ColumnWindows(b: Grid, t: int, own: Pos -> bool): nat
  {
    ColumnsCount(b, t, own, |b|)
  }

  /** The windows the heuristic counts: the same four scans as IsWinning, each window that p owns counted once. */
  function WindowCount(b: Grid, t: int, p: int): nat
  {
    var w := |b| - t + 1;
    RowWindows(Owns(b, t, p, East), 0, MaxLen(b), w)
      + ColumnWindows(b, t, Owns(b, t, p, North))
      + RowWindows(Owns(b, t, p, NorthEast), 0, MaxLen(b) - t + 1, w)
      + RowWindows(Owns(b, t, p, SouthEast), t - 1, MaxLen(b), w)
  }

  lemma {:induction false} RowCountPositive(own: Pos -> bool, r: int, w: int)
    ensures RowCount(own, r, w) > 0 <==> exists c | 0 <= c < w :: own(Pos(c, r))
    decreases w
  {
    if w > 0 {
      RowCountPositive(own, r, w - 1);
      if !own(Pos(w - 1, r)) {
        forall c | 0 <= c < w && own(Pos(c, r)) ensures c < w - 1 {
        }
      }
    }
  }

  lemma {:induction false} RowsCountPositive(own: Pos -> bool, lo: int, hi: int, w: int)
    ensures RowsCount(own, lo, hi, w) > 0 <==> WindowIn(own, lo, hi, w)
    decreases hi - lo
  {
    if hi > lo {
      RowsCountPositive(own, lo, hi - 1, w);
      RowCountPositive(own, hi - 1, w);
      if RowCount(own, hi - 1, w) == 0 {
        forall r, c | lo <= r < hi && 0 <= c < w && own(Pos(c, r)) ensures r < hi - 1 {
        }
      }
    }
  }

  lemma {:induction false} ColumnCountPositive(own: Pos -> bool, c: int, h: int)
    ensures ColumnCount(own, c, h) > 0 <==> exists r | 0 <= r < h :: own(Pos(c, r))
    decreases h
  {
    if h > 0 {
      ColumnCountPositive(own, c, h - 1);
      if !own(Pos(c, h - 1)) {
        forall r | 0 <= r < h && own(Pos(c, r)) ensures r < h - 1 {
        }
      }
    }
  }

  lemma {:induction false} ColumnsCountPositive(b: Grid, t: int, own: Pos -> bool, n: int)
    requires n <= |b|
    ensures ColumnsCount(b, t, own, n) > 0 <==> ColumnWindow(b, t, own, n)
    decreases n
  {
    if n > 0 {
      ColumnsCountPositive(b, t, own, n - 1);
      ColumnCountPositive(own, n - 1, |b[n - 1]| - t + 1);
      if ColumnsCount(b, t, own, n) > 0 {
        if ColumnsCount(b, t, own, n - 1) > 0 {
          var c, r :| 0 <= c < n - 1 && |b[c]| >= t && 0 <= r < |b[c]| - t + 1 && own(Pos(c, r));
          assert ColumnWindow(b, t, own, n);
        } else {
          var r :| 0 <= r < |b[n - 1]| - t + 1 && own(Pos(n - 1, r));
          assert ColumnWindow(b, t, own, n);
        }
      }
      if ColumnWindow(b, t, own, n) {
        var c, r :| 0 <= c < n && |b[c]| >= t && 0 <= r < |b[c]| - t + 1 && own(Pos(c, r));
        if c < n - 1 {
          assert ColumnWindow(b, t, own, n - 1);
        }
      }
    }
  }

  /** The heuristic is positive exactly when the window check holds. */
  lemma WindowCountPositive(b: Grid, t: int, p: int)
    ensures WindowCount(b, t, p) > 0 <==> IsWinning(b, t, p)
  {
    var east, north, rising, falling := Owns(b, t, p, East), Owns(b, t, p, North), Owns(b, t, p, NorthEast), Owns(b, t, p, SouthEast);
    var h, w := MaxLen(b), |b| - t + 1;
    ScansPositive(b, t, east, north, rising, falling, h, w);
    assert WindowCount(b, t, p) == RowWindows(east, 0, h, w) + ColumnWindows(b, t, north)
      + RowWindows(rising, 0, h - t + 1, w) + RowWindows(falling, t - 1, h, w);
    assert IsWinning(b, t, p) == (WindowIn(east, 0, h, w) || ColumnWindow(b, t, north, |b|)
      || WindowIn(rising, 0, h - t + 1, w) || WindowIn(falling, t - 1, h, w));
  }

  /** The four scans, over any owned-start tests, count a window exactly when one of them finds one. */
  lemma ScansPositive(b: Grid, t: int, east: Pos -> bool, north: Pos -> bool, rising: Pos -> bool,
      falling: Pos -> bool, h: int, w: int)
    ensures RowWindows(east, 0, h, w) + ColumnWindows(b, t, north)
        + RowWindows(rising, 0, h - t + 1, w) + RowWindows(falling, t - 1, h, w) > 0
      <==> (WindowIn(east, 0, h, w) || ColumnWindow(b, t, north, |b|)
        || WindowIn(rising, 0, h - t + 1, w) || WindowIn(falling, t - 1, h, w))
  {
    RowWindowsPositive(east, 0, h, w);
    ColumnWindowsPositive(b, t, north);
    RowWindowsPositive(rising, 0, h - t + 1, w);
    RowWindowsPositive(falling, t - 1, h, w);
  }

  lemma RowWindowsPositive(own: Pos -> bool, lo: int, hi: int, w: int)
    ensures RowWindows(own, lo, hi, w) > 0 <==> WindowIn(own, lo, hi, w)
  {
    RowsCountPositive(own, lo, hi, w);
  }

  lemma ColumnWindowsPositive(b: Grid, t: int, own: Pos -> bool)
    ensures ColumnWindows(b, t, own) > 0 <==> ColumnWindow(b, t, own, |b|)
  {
    ColumnsCountPositive(b, t, own, |b|);
  }

  /** Placing p's mark in column c gives p a window of t. */
  predicate WinningMove(b: Grid, t: int, p: int, c: int)
  {
    0 <= c < |b| && IsWinning(Place(b, c, p), t, p)
  }

  /**
   * Probe a move: append p to column col, run the window check, remove
   * the mark again.
   */
  method Probe(board: array<seq<int>>, col: int, p: int, t: int) returns (result: bool)
    requires 0 <= col < board.Length
    modifies board
    ensures board[..] == old(board[..])
    ensures result == WinningMove(old(board[..]), t, p, col)
  {
    ghost var before := board[..];
    board[col] := board[col] + [p];
    assert board[..] == Place(before, col, p);
    result := IsWinning(board[..], t, p);
    board[col] := board[col][..|board[col]| - 1];
    assert board[..] == before;
  }

  /** The winning-move test as a function of the column. */
  function Wins(b: Grid, t: int, p: int): int -> bool
  {
    c => WinningMove(b, t, p, c)
  }

  /** Probe the legal moves in order and return the first that wins for p. */
  method FirstWinningMove(board: array<seq<int>>, choices: seq<int>, p: int, t: int) returns (r: Option<int>)
    requires forall i | 0 <= i < |choices| :: 0 <= choices[i] < board.Length
    modifies board
    ensures board[..] == old(board[..])
    ensures r == FirstWhere(choices, Wins(old(board[..]), t, p))
  {
    ghost var b := board[..];
    var i := 0;
    while i < |choices|
      invariant 0 <= i <= |choices| && board[..] == b
      invariant FirstWhere(choices[i..], Wins(b, t, p)) == FirstWhere(choices, Wins(b, t, p))
    {
      var wins := Probe(board, choices[i], p, t);
      assert choices[i..][1..] == choices[i + 1..];
      if wins {
        return Some(choices[i]);
      }
      i := i + 1;
    }
    r := None;
  }

  /** Count the windows in direction d that p owns, start rows [lo, hi), start columns [0, |board| - t + 1). */
  method CountRows(board: array<seq<int>>, t: int, p: int, d: Dir, lo: int, hi: int) returns (score: nat)
    ensures score == RowWindows(Owns(board[..], t, p, d), lo, hi, board.Length - t + 1)
  {
    ghost var b := board[..];
    ghost var own := Owns(b, t, p, d);
    var w := board.Length - t + 1;
    score := 0;
    var r := lo;
    while r < hi
      invariant lo <= r && (r <= hi || r == lo)
      invariant score == RowsCount(own, lo, r, w)
      decreases hi - r
    {
      var c := 0;
      ghost var before := score;
      while c < w
        invariant 0 <= c && (c <= w || c == 0)
        invariant score == before + RowCount(own, r, c)
        decreases w - c
      {
        StretchIsRun(board[..], t, d, Pos(c, r), p);
        if RunAt(board[..], t, d, Pos(c, r), p) {
          score := score + 1;
        }
        c := c + 1;
      }
      r := r + 1;
    }
  }

  /** Count the column windows that p owns, column by column. */
  method CountColumns(board: array<seq<int>>, t: int, p: int) returns (score: nat)
    ensures score == ColumnWindows(board[..], t, Owns(board[..], t, p, North))
  {
    ghost var b := board[..];
    ghost var own := Owns(b, t, p, North);
    score := 0;
    var c := 0;
    while c < board.Length
      invariant 0 <= c <= board.Length
      invariant score == ColumnsCount(b, t, own, c)
    {
      if |board[c]| >= t {
        var r := 0;
        ghost var before := score;
        while r < |board[c]| - t + 1
          invariant 0 <= r <= |board[c]| - t + 1
          invariant score == before + ColumnCount(own, c, r)
        {
          StretchIsRun(board[..], t, North, Pos(c, r), p);
          if RunAt(board[..], t, North, Pos(c, r), p) {
            score := score + 1;
          }
          r := r + 1;
        }
      }
      c := c + 1;
    }
  }

  /** The window heuristic on the board as it stands: the four scans, each owned window adding one. */
  method Score(board: array<seq<int>>, t: int, p: int) returns (score: nat)
    ensures score == WindowCount(board[..], t, p)
  {
    var h := MaxLen(board[..]);
    var horizontal := CountRows(board, t, p, East, 0, h);
    var vertical := CountColumns(board, t, p);
    var rising := CountRows(board, t, p, NorthEast, 0, h - t + 1);
    var falling := CountRows(board, t, p, SouthEast, t - 1, h);
    score := horizontal + vertical + rising + falling;
  }
}
