/**
 * Concrete boards run through the win check: a row and a column that it
 * reports, and the falling diagonal it does not see because that diagonal
 * touches neither the top row nor the last column.
 */
module Scenarios {
  import opened Board
  import opened Scan
  import opened Game

  /** A mark the win check reports on a board holding only mark x is x. */
  lemma ReportedOnlyMark(b: Grid, m: int, t: int, v: int, x: int)
    requires forall c, r | 0 <= c < |b| && 0 <= r < |b[c]| :: b[c][r] == x
    requires Reported(b, m, t, v) && v != Empty && t >= 1
    ensures v == x
  {
    var d, p :| Detectable(b, m, t, d, p, v);
    assert OwnedBy(b, Offset(d, p, 0), v);
  }

  /** On a board holding only mark x and a run of x the sweeps can see, the win check returns x. */
  method CheckOnlyMark(g: TicTacToe, x: int, d: Dir, p: Pos) returns (w: int)
    requires g.Valid() && g.target >= 1
    requires forall c, r | 0 <= c < |g.columns| && 0 <= r < |g.columns[c]| :: g.columns[c][r] == x
    requires Detectable(g.columns, g.maxRows, g.target, d, p, x)
    ensures w == x
  {
    w := g.CheckWin();
    ReportedOnlyMark(g.columns, g.maxRows, g.target, w, x);
  }

  /** Three columns holding one mark of player 0 each, target 3: player 0 wins along row 0. */
  method RowWin() returns (w: int)
    ensures w == 0
  {
    var g := new TicTacToe(3, 3, 3, 0);
    g.columns := [[0], [0], [0]];
    assert RunAt(g.columns, 3, East, Pos(0, 0), 0) by {
      forall k | 0 <= k < 3 ensures OwnedBy(g.columns, Offset(East, Pos(0, 0), k), 0) {
        assert g.columns[k] == [0];
      }
    }
    assert Detectable(g.columns, 3, 3, East, Pos(0, 0), 0);
    w := CheckOnlyMark(g, 0, East, Pos(0, 0));
  }

  /** A 4 by 4 board whose column 0 holds three marks of player 1, target 3: player 1 wins. */
  method ColumnWin() returns (w: int)
    ensures w == 1
  {
    var g := new TicTacToe(4, 4, 3, 0);
    g.columns := [[1, 1, 1], [], [], []];
    assert RunAt(g.columns, 3, North, Pos(0, 0), 1);
    assert Detectable(g.columns, 4, 3, North, Pos(0, 0), 1);
    w := CheckOnlyMark(g, 1, North, Pos(0, 0));
  }

  /** The board of the falling-diagonal gap: player 0 holds (0,2), (1,1), (2,0). */
  const GapBoard: Grid := [[1, 1, 0], [1, 0], [0], []]

  /** On the gap board the only run of three is the falling one from (0,2), which no sweep covers. */
  lemma GapBoardHasNoVisibleRun()
    ensures RunAt(GapBoard, 3, SouthEast, Pos(0, 2), 0)
    ensures forall d, p, v :: !Detectable(GapBoard, 4, 3, d, p, v)
  {
    forall d, p, v ensures !Detectable(GapBoard, 4, 3, d, p, v) {
      GapNoVisibleRunAt(d, p, v);
    }
  }

  /**
   * The marks of the gap board: its cells are those with col + row <= 2,
   * player 0 on the falling diagonal col + row == 2, player 1 below it.
   */
  lemma GapCells(q: Pos, v: int)
    ensures OwnedBy(GapBoard, q, v) ==>
      0 <= q.col && 0 <= q.row && q.col + q.row <= 2 && v == (if q.col + q.row == 2 then 0 else 1)
  {
  }

  lemma GapNoVisibleRunAt(d: Dir, p: Pos, v: int)
    ensures !Detectable(GapBoard, 4, 3, d, p, v)
  {
    if Detectable(GapBoard, 4, 3, d, p, v) {
      assert OwnedBy(GapBoard, Offset(d, p, 0), v);
      assert OwnedBy(GapBoard, Offset(d, p, 1), v);
      assert OwnedBy(GapBoard, Offset(d, p, 2), v);
      GapCells(Offset(d, p, 0), v);
      GapCells(Offset(d, p, 1), v);
      GapCells(Offset(d, p, 2), v);
      assert false;
    }
  }

  /** On the gap board, target 3, the win check returns no winner although player 0 has a run. */
  method DescendingGap() returns (w: int)
    ensures w == Empty
  {
    var g := new TicTacToe(4, 4, 3, 0);
    g.columns := GapBoard;
    GapBoardHasNoVisibleRun();
    w := g.CheckWin();
  }
}
