/**
 * The adaptive AI player.  It keeps its target in its memory and moves it
 * before every move: one up when the player already has a streak as long
 * as the target, one down towards the longest streak plus one when it is
 * two or more short.  Then it wins if it can, blocks if it must, and
 * otherwise takes the first move of highest search score; the search is
 * a scoring function given to the model.
 */
module AiNew {
  import opened Board
  import opened Outcomes
  import opened Windows
  import opened Selection

  /**
   * The memory the player works on: a fresh one holding target 3 when it
   * has none; a memory without a target fails the lookup.
   */
  function StartMemory(memory: Option<Memory>): (r: Outcome<Memory>)
    ensures r.Raised? <==> memory.Some? && "n_target" !in memory.value
    ensures r.Returned? ==> "n_target" in r.value
    ensures memory.Some? && r.Returned? ==> r.value == memory.value
    ensures memory.None? ==> r.value["n_target"] == 3 && |r.value| == 1
  {
    match memory
    case None => Returned(map["n_target" := 3])
    case Some(m) => if "n_target" in m then Returned(m) else Raised
  }

  /**
   * The length of the streak of p's marks that starts at q and goes in
   * direction d, looking at no more than limit cells.
   */
  function Streak(b: Grid, p: int, q: Pos, d: Dir, limit: int): (k: nat)
    decreases limit
    ensures k <= limit || k == 0
    ensures RunAt(b, k, d, q, p)
    ensures k < limit ==> !OwnedBy(b, Offset(d, q, k), p)
  {
    if limit <= 0 || !OwnedBy(b, q, p) then 0
    else
      var k := Streak(b, p, Offset(d, q, 1), d, limit - 1);
      RunAtStep(b, k, d, q, p);
      assert Offset(d, Offset(d, q, 1), k) == Offset(d, q, 1 + k);
      1 + k
  }

  /** A run from the next cell, preceded by an owned cell, is one longer. */
  lemma RunAtStep(b: Grid, k: int, d: Dir, q: Pos, p: int)
    requires OwnedBy(b, q, p) && RunAt(b, k, d, Offset(d, q, 1), p)
    ensures RunAt(b, k + 1, d, q, p)
  {
    forall j | 1 <= j < k + 1 ensures OwnedBy(b, Offset(d, q, j), p) {
      assert Offset(d, Offset(d, q, 1), j - 1) == Offset(d, q, j);
    }
  }

  /**
   * How far each scan looks from its start: to the last column along a
   * row, to the top of the column, to the last column or the tallest
   * column's height along a rising diagonal, to the last column or row 0
   * along a falling one.
   */
  function Limit(b: Grid, d: Dir, q: Pos): (n: int)
    ensures 0 <= q.col < |b| && 0 <= q.row ==>
      forall k | 0 <= k < n :: 0 <= Offset(d, q, k).col < |b| && 0 <= Offset(d, q, k).row
  {
    match d
    case East => |b| - q.col
    case North => if 0 <= q.col < |b| then |b[q.col]| else 0
    case NorthEast => Min(|b| - q.col, MaxLen(b) - q.row)
    case SouthEast => Min(|b| - q.col, q.row + 1)
    case NorthWest => 0
  }

  /** The streak a scan counts from start q in direction d. */
  function StreakFrom(b: Grid, p: int, d: Dir, q: Pos): nat
  {
    Streak(b, p, q, d, Limit(b, d, q))
  }

  /**
   * The streaks the adjustment measures: from every cell below the
   * tallest column along a row, a rising and a falling diagonal, and from
   * the bottom of every column upwards.
   */
  ghost function Streaks(b: Grid, p: int): set<nat>
  {
    SweepStreaks(b, p, East) + ColumnStreaks(b, p) + SweepStreaks(b, p, NorthEast) + SweepStreaks(b, p, SouthEast)
  }

  /** The streaks in direction d from every cell below the tallest column. */
  ghost function SweepStreaks(b: Grid, p: int, d: Dir): set<nat>
  {
    set c, r | 0 <= c < |b| && 0 <= r < MaxLen(b) :: StreakFrom(b, p, d, Pos(c, r))
  }

  /** The streaks up every column from its bottom cell. */
  ghost function ColumnStreaks(b: Grid, p: int): set<nat>
  {
    set c | 0 <= c < |b| :: StreakFrom(b, p, North, Pos(c, 0))
  }

  /** The largest element of a set of naturals (0 for the empty set). */
  ghost function SetMax(s: set<nat>): (m: nat)
    ensures forall x | x in s :: x <= m
    ensures s != {} ==> m in s
    decreases s
  {
    if s == {} then 0
    else
      var x :| x in s;
      var m := SetMax(s - {x});
      assert forall y | y in s :: y == x || y in s - {x};
      if x > m then x else m
  }

  /** An upper bound that is an element, or 0, is the largest element. */
  lemma SetMaxIs(s: set<nat>, m: nat)
    requires forall x | x in s :: x <= m
    requires m == 0 || m in s
    ensures SetMax(s) == m
  {
  }

  /**
   * A run of k cells that stops at the limit or at a cell p does not own
   * is the streak: the streak is the longest run from q.
   */
  lemma {:induction false} StreakIs(b: Grid, p: int, q: Pos, d: Dir, limit: int, k: int)
    requires 0 <= k && (k <= limit || k == 0) && RunAt(b, k, d, q, p)
    requires k < limit ==> !OwnedBy(b, Offset(d, q, k), p)
    ensures Streak(b, p, q, d, limit) == k
    decreases k
  {
    if k > 0 {
      assert OwnedBy(b, Offset(d, q, 0), p);
      var next := Offset(d, q, 1);
      forall j | 0 <= j < k - 1 ensures OwnedBy(b, Offset(d, next, j), p) {
        assert Offset(d, Offset(d, q, 1), j) == Offset(d, q, 1 + j);
      }
      assert Offset(d, Offset(d, q, 1), k - 1) == Offset(d, q, k);
      StreakIs(b, p, next, d, limit - 1, k - 1);
    }
  }

  /** Walk from q in direction d while the cells are p's, for at most limit cells, and count them. */
  method Consecutive(board: array<seq<int>>, p: int, q: Pos, d: Dir, limit: int) returns (k: nat)
    ensures k == Streak(board[..], p, q, d, limit)
  {
    ghost var b := board[..];
    k := 0;
    while k < limit
      invariant 0 <= k && (k <= limit || k == 0)
      invariant RunAt(b, k, d, q, p)
      decreases limit - k
    {
      var cell := Offset(d, q, k);
      var owned := 0 <= cell.col < board.Length && 0 <= cell.row < |board[cell.col]| && board[cell.col][cell.row] == p;
      assert owned == OwnedBy(b, cell, p);
      if !owned {
        StreakIs(b, p, q, d, limit, k);
        return;
      }
      k := k + 1;
    }
    StreakIs(b, p, q, d, limit, k);
  }

  /** The streak lengths one scan measures, by start. */
  function StreaksOf(b: Grid, p: int, d: Dir): Pos -> int
  {
    q => StreakFrom(b, p, d, q)
  }

  /** Start (c', r') of a board of n columns comes before start (c, r) in a scan of rows bottom up, each row left to right. */
  predicate Before(n: int, c': int, r': int, c: int, r: int)
  {
    0 <= r' && 0 <= c' < n && (r' < r || (r' == r && c' < c))
  }

  /** No length f gives a start before (c, r) exceeds m. */
  ghost predicate Bounded(n: int, f: Pos -> int, c: int, r: int, m: int)
  {
    forall c', r' | Before(n, c', r', c, r) :: f(Pos(c', r')) <= m
  }

  /** Some start before (c, r) has length m under f. */
  ghost predicate Attained(n: int, f: Pos -> int, c: int, r: int, m: int)
  {
    exists c', r' | Before(n, c', r', c, r) :: f(Pos(c', r')) == m
  }

  /** The streak a scan counts from start q, walked on the board. */
  method StreakAt(board: array<seq<int>>, p: int, d: Dir, q: Pos) returns (k: nat)
    ensures k == StreaksOf(board[..], p, d)(q)
  {
    k := Consecutive(board, p, q, d, Limit(board[..], d, q));
  }

  /**
   * One of the row and diagonal scans: from every cell below the tallest
   * column, count the streak in direction d and keep the maximum, which
   * starts at m0.
   */
  method SweepLongest(board: array<seq<int>>, p: int, d: Dir, m0: nat) returns (m: nat)
    ensures m0 <= m && Bounded(board.Length, StreaksOf(board[..], p, d), 0, MaxLen(board[..]), m)
    ensures m == m0 || Attained(board.Length, StreaksOf(board[..], p, d), 0, MaxLen(board[..]), m)
  {
    ghost var b := board[..];
    ghost var f := StreaksOf(b, p, d);
    m := m0;
    var r := 0;
    while r < MaxLen(board[..])
      invariant 0 <= r <= MaxLen(b) && m0 <= m && board[..] == b
      invariant Bounded(board.Length, f, 0, r, m)
      invariant m == m0 || Attained(board.Length, f, 0, r, m)
    {
      var c := 0;
      while c < board.Length
        invariant 0 <= c <= board.Length && m0 <= m
        invariant Bounded(board.Length, f, c, r, m)
        invariant m == m0 || Attained(board.Length, f, c, r, m)
      {
        var k := StreakAt(board, p, d, Pos(c, r));
        KeepLongest(board.Length, f, c, r, m0, m, k);
        if k > m {
          m := k;
        }
        c := c + 1;
      }
      RowDone(board.Length, f, r, m0, m);
      r := r + 1;
    }
  }

  /** One start more: the maximum so far, raised to the new length k when that is longer. */
  lemma KeepLongest(n: int, f: Pos -> int, c: int, r: int, m0: int, m: int, k: int)
    requires 0 <= c < n && 0 <= r && k == f(Pos(c, r))
    requires Bounded(n, f, c, r, m) && (m == m0 || Attained(n, f, c, r, m))
    ensures var m' := if k > m then k else m;
      Bounded(n, f, c + 1, r, m') && (m' == m0 || Attained(n, f, c + 1, r, m'))
  {
    assert Before(n, c, r, c + 1, r);
    if m != m0 && k <= m {
      var c', r' :| Before(n, c', r', c, r) && f(Pos(c', r')) == m;
      assert Before(n, c', r', c + 1, r);
    }
  }

  /** A finished row: the starts before the end of row r are those before the start of row r + 1. */
  lemma RowDone(n: int, f: Pos -> int, r: int, m0: int, m: int)
    requires 0 <= r && Bounded(n, f, n, r, m) && (m == m0 || Attained(n, f, n, r, m))
    ensures Bounded(n, f, 0, r + 1, m) && (m == m0 || Attained(n, f, 0, r + 1, m))
  {
    if m != m0 {
      var c', r' :| Before(n, c', r', n, r) && f(Pos(c', r')) == m;
      assert Before(n, c', r', 0, r + 1);
    }
  }

  /** The column scan: count each column's streak from its bottom cell and keep the maximum, which starts at m0. */
  method ColumnLongest(board: array<seq<int>>, p: int, m0: nat) returns (m: nat)
    ensures m0 <= m
    ensures forall c | 0 <= c < board.Length :: StreakFrom(board[..], p, North, Pos(c, 0)) <= m
    ensures m == m0 || exists c | 0 <= c < board.Length :: StreakFrom(board[..], p, North, Pos(c, 0)) == m
  {
    ghost var b := board[..];
    m := m0;
    var c := 0;
    while c < board.Length
      invariant 0 <= c <= board.Length && m0 <= m
      invariant forall c' | 0 <= c' < c :: StreakFrom(b, p, North, Pos(c', 0)) <= m
      invariant m == m0 || exists c' | 0 <= c' < c :: StreakFrom(b, p, North, Pos(c', 0)) == m
    {
      var k := Consecutive(board, p, Pos(c, 0), North, |board[c]|);
      if k > m {
        m := k;
      }
      c := c + 1;
    }
  }

  /**
   * The longest streak the adjustment finds: the row scan, the column
   * scan, the rising and the falling scan in turn, each raising the
   * maximum from 0.
   */
  method LongestStreak(board: array<seq<int>>, p: int) returns (m: nat)
    ensures m == SetMax(Streaks(board[..], p))
  {
    ghost var b := board[..];
    var horizontal := SweepLongest(board, p, East, 0);
    SweepSet(b, p, East, 0, horizontal);
    var vertical := ColumnLongest(board, p, horizontal);
    ColumnSet(b, p, horizontal, vertical);
    var rising := SweepLongest(board, p, NorthEast, vertical);
    SweepSet(b, p, NorthEast, vertical, rising);
    m := SweepLongest(board, p, SouthEast, rising);
    SweepSet(b, p, SouthEast, rising, m);
    ChainMax(SweepStreaks(b, p, East), ColumnStreaks(b, p), SweepStreaks(b, p, NorthEast), SweepStreaks(b, p, SouthEast),
      horizontal, vertical, rising, m);
  }

  /** Four running maxima taken one after the other give the largest element of the four sets together. */
  lemma ChainMax(s1: set<nat>, s2: set<nat>, s3: set<nat>, s4: set<nat>, m1: nat, m2: nat, m3: nat, m4: nat)
    requires m1 <= m2 <= m3 <= m4
    requires (forall x | x in s1 :: x <= m1) && (m1 == 0 || m1 in s1)
    requires (forall x | x in s2 :: x <= m2) && (m2 == m1 || m2 in s2)
    requires (forall x | x in s3 :: x <= m3) && (m3 == m2 || m3 in s3)
    requires (forall x | x in s4 :: x <= m4) && (m4 == m3 || m4 in s4)
    ensures SetMax(s1 + s2 + s3 + s4) == m4
  {
    SetMaxIs(s1 + s2 + s3 + s4, m4);
  }

  /** What a row or diagonal scan finds, in terms of the streaks it measures. */
  lemma SweepSet(b: Grid, p: int, d: Dir, m0: nat, m: nat)
    requires Bounded(|b|, StreaksOf(b, p, d), 0, MaxLen(b), m)
    requires m == m0 || Attained(|b|, StreaksOf(b, p, d), 0, MaxLen(b), m)
    ensures forall x | x in SweepStreaks(b, p, d) :: x <= m
    ensures m == m0 || m in SweepStreaks(b, p, d)
  {
    var f := StreaksOf(b, p, d);
    forall x | x in SweepStreaks(b, p, d) ensures x <= m {
      var c, r :| 0 <= c < |b| && 0 <= r < MaxLen(b) && x == StreakFrom(b, p, d, Pos(c, r));
      assert Before(|b|, c, r, 0, MaxLen(b)) && x == f(Pos(c, r));
    }
    if m != m0 {
      var c, r :| Before(|b|, c, r, 0, MaxLen(b)) && f(Pos(c, r)) == m;
      InSweep(b, p, d, c, r);
    }
  }

  /** What the column scan finds, in terms of the streaks it measures. */
  lemma ColumnSet(b: Grid, p: int, m0: nat, m: nat)
    requires forall c | 0 <= c < |b| :: StreakFrom(b, p, North, Pos(c, 0)) <= m
    requires m == m0 || exists c | 0 <= c < |b| :: StreakFrom(b, p, North, Pos(c, 0)) == m
    ensures forall x | x in ColumnStreaks(b, p) :: x <= m
    ensures m == m0 || m in ColumnStreaks(b, p)
  {
  }

  /** A measured streak from a start of the scanned range is in the scan's set. */
  lemma InSweep(b: Grid, p: int, d: Dir, c: int, r: int)
    requires 0 <= c < |b| && 0 <= r < MaxLen(b)
    ensures StreakFrom(b, p, d, Pos(c, r)) in SweepStreaks(b, p, d)
  {
  }

  /** On a single column no row or diagonal streak is longer than 1. */
  lemma NarrowSweep(b: Grid, p: int, d: Dir)
    requires |b| == 1 && (d == East || d == NorthEast || d == SouthEast)
    ensures forall x | x in SweepStreaks(b, p, d) :: x <= 1
  {
    forall x | x in SweepStreaks(b, p, d) ensures x <= 1 {
      var c, r :| 0 <= c < |b| && 0 <= r < MaxLen(b) && x == StreakFrom(b, p, d, Pos(c, r));
      assert Limit(b, d, Pos(c, r)) <= 1;
    }
  }

  /** On a single column whose bottom cell is not p's, the upward streak is 0. */
  lemma NarrowColumn(b: Grid, p: int)
    requires |b| == 1 && !OwnedBy(b, Pos(0, 0), p)
    ensures forall x | x in ColumnStreaks(b, p) :: x == 0
  {
  }

  /**
   * Only the bottom streak of a column is measured upwards: on one column
   * holding 1, 0, 0, 0 from the bottom, player 0 has three marks in a
   * column, yet the longest streak measured is 1.
   */
  lemma ColumnBottomOnly(b: Grid)
    requires b == [[1, 0, 0, 0]]
    ensures RunAt(b, 3, North, Pos(0, 1), 0)
    ensures SetMax(Streaks(b, 0)) == 1
  {
    assert RunAt(b, 3, North, Pos(0, 1), 0) by {
      forall k | 0 <= k < 3 ensures OwnedBy(b, Offset(North, Pos(0, 1), k), 0) {
        assert b[0][k + 1] == 0;
      }
    }
    assert SetMax(Streaks(b, 0)) <= 1 by {
      assert |b| == 1 && !OwnedBy(b, Pos(0, 0), 0);
      OneColumnLongest(b, 0);
    }
    assert 1 in Streaks(b, 0) by {
      assert MaxLen(b) == |b[0]| == 4;
      assert Limit(b, East, Pos(0, 1)) == 1 && OwnedBy(b, Pos(0, 1), 0);
      StreakIs(b, 0, Pos(0, 1), East, 1, 1);
      InSweep(b, 0, East, 0, 1);
    }
  }

  /** On a single column whose bottom cell is not p's, no measured streak is longer than 1. */
  lemma OneColumnLongest(b: Grid, p: int)
    requires |b| == 1 && !OwnedBy(b, Pos(0, 0), p)
    ensures SetMax(Streaks(b, p)) <= 1
  {
    NarrowSweep(b, p, East);
    NarrowSweep(b, p, NorthEast);
    NarrowSweep(b, p, SouthEast);
    NarrowColumn(b, p);
  }

  /**
   * The new target from the old target n and the longest streak m: one
   * up when the streak reaches the target, unchanged when it is one
   * short, and otherwise one more than the streak but never below 3.
   */
  function Adjusted(n: int, m: int): (r: int)
    ensures m >= n ==> r == n + 1
    ensures m == n - 1 ==> r == n
    ensures m < n - 1 ==> 3 <= r && m < r && (r == 3 || r == m + 1)
    ensures n >= 3 ==> r >= 3
    ensures m >= 0 && n >= 3 ==> r <= n + 1
  {
    if m >= n then n + 1
    else if m < n - 1 then (if m + 1 > 3 then m + 1 else 3)
    else n
  }

  /** The search score of each move: the scorer applied to the board with the move made. */
  function SearchScores(b: Grid, p: int, scorer: Grid -> int): int -> int
  {
    c => if 0 <= c < |b| then scorer(Place(b, c, p)) else 0
  }

  /** The move the player makes on board b with the adjusted target t. */
  function Choice(b: Grid, choices: seq<int>, player: int, t: int, scorer: Grid -> int): int
    requires choices != []
  {
    Pick(choices, Wins(b, t, player), Wins(b, t, Opponent(player)), SearchScores(b, player, scorer))
  }

  /** The target the player moves with: its stored target, adjusted to the longest streak. */
  ghost function NewTarget(b: Grid, player: int, memory: Memory): int
    requires "n_target" in memory
  {
    Adjusted(memory["n_target"], SetMax(Streaks(b, player)))
  }

  /** The search score of a move, probed in place: append p to column col, search, remove the mark. */
  method SearchScore(board: array<seq<int>>, col: int, p: int, scorer: Grid -> int) returns (score: int)
    requires 0 <= col < board.Length
    modifies board
    ensures board[..] == old(board[..])
    ensures score == SearchScores(old(board[..]), p, scorer)(col)
  {
    ghost var before := board[..];
    board[col] := board[col] + [p];
    assert board[..] == Place(before, col, p);
    score := scorer(board[..]);
    board[col] := board[col][..|board[col]| - 1];
    assert board[..] == before;
  }

  /**
   * The last step: score every legal move by the search on the board with
   * the move made, and keep the first of highest score; the first move
   * always replaces the initial best, which is below every score.
   */
  method BestSearchMove(board: array<seq<int>>, choices: seq<int>, p: int, scorer: Grid -> int) returns (bestCol: int)
    requires choices != [] && forall i | 0 <= i < |choices| :: 0 <= choices[i] < board.Length
    modifies board
    ensures board[..] == old(board[..])
    ensures bestCol == choices[ArgMaxFirst(choices, SearchScores(old(board[..]), p, scorer))]
  {
    ghost var b := board[..];
    ghost var score := SearchScores(b, p, scorer);
    var bestScore := 0;
    assert choices[0] in choices;
    bestCol :| bestCol in choices;
    ghost var best := 0;
    var i := 0;
    while i < |choices|
      invariant 0 <= i <= |choices| && board[..] == b
      invariant i > 0 ==>
        && best == ArgMaxFirst(choices[..i], score)
        && bestCol == choices[best] && bestScore == score(bestCol)
    {
      var s := SearchScore(board, choices[i], p, scorer);
      KeepBest(choices, score, i, best, if i == 0 then s - 1 else bestScore);
      if i == 0 || s > bestScore {
        bestScore, bestCol, best := s, choices[i], i;
      }
      i := i + 1;
    }
    assert choices[..|choices|] == choices;
  }

  /**
   * The final check can never raise the target: the kept move is a legal
   * move, and when the last step runs no legal move wins.
   */
  lemma FinalCheckNeverWins(b: Grid, choices: seq<int>, player: int, t: int, score: int -> int)
    requires choices != [] && FirstWhere(choices, Wins(b, t, player)) == None
    ensures !WinningMove(b, t, player, choices[ArgMaxFirst(choices, score)])
  {
    var i := ArgMaxFirst(choices, score);
    assert !Wins(b, t, player)(choices[i]);
  }

  /**
   * One move of the player: set up the memory, adjust and store the
   * target, win, block or search, and raise the target once more if the
   * searched move wins.  The memory comes back holding the adjusted
   * target.
   */
  method Play(board: array<seq<int>>, choices: seq<int>, player: int, memory: Option<Memory>, scorer: Grid -> int)
    returns (result: Outcome<(int, Memory)>)
    requires forall i | 0 <= i < |choices| :: 0 <= choices[i] < board.Length
    modifies board
    ensures board[..] == old(board[..])
    ensures StartMemory(memory).Raised? || choices == [] ==> result == Raised
    ensures StartMemory(memory).Returned? && choices != [] ==>
      var mem := StartMemory(memory).value;
      var t := NewTarget(old(board[..]), player, mem);
      result == Returned((Choice(old(board[..]), choices, player, t, scorer), mem["n_target" := t]))
  {
    ghost var b := board[..];
    var mem: Memory := if memory.None? then map["n_target" := 3] else memory.value;
    if "n_target" !in mem {
      return Raised;
    }
    if board.Length == 0 {
      return Raised;
    }
    var longest := LongestStreak(board, player);
    var n := Adjusted(mem["n_target"], longest);
    mem := mem["n_target" := n];
    var opponent := if player == 0 then 1 else 0;
    var win := FirstWinningMove(board, choices, player, n);
    if win.Some? {
      return Returned((win.value, mem));
    }
    var block := FirstWinningMove(board, choices, opponent, n);
    if block.Some? {
      return Returned((block.value, mem));
    }
    if choices == [] {
      return Raised;
    }
    var bestCol := BestSearchMove(board, choices, player, scorer);
    var wins := Probe(board, bestCol, player, n);
    FinalCheckNeverWins(b, choices, player, n, SearchScores(b, player, scorer));
    if wins {
      mem := mem["n_target" := n + 1];
    }
    return Returned((bestCol, mem));
  }
}
