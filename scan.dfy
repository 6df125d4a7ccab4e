/**
 * The run counting behind the game's win detection: a scan line is the
 * list of cells met when walking from a start cell in one direction
 * until the walk leaves the grid, and a scan keeps the owner and length
 * of the run of equal marks that ends at the cell last visited.
 */
module Scan {
  import opened Board
  import opened Outcomes

  /** The position lies in the grid of n columns and m rows. */
  predicate InGrid(n: int, m: int, p: Pos)
  {
    0 <= p.col < n && 0 <= p.row < m
  }

  /** The mark at p, or Empty when p lies above the top of its column. */
  function Cell(b: Grid, p: Pos): (v: int)
    requires 0 <= p.col < |b| && 0 <= p.row
    ensures v == Empty || OwnedBy(b, p, v)
  {
    if p.row < |b[p.col]| then b[p.col][p.row] else Empty
  }

  /** The mark that ends s, Empty for no cell yet. */
  function LastOf(s: seq<int>): int
  {
    if s == [] then Empty else s[|s| - 1]
  }

  /** The length of the run of equal marks that ends s (0 after an empty cell). */
  function Run(s: seq<int>): nat
  {
    if |s| == 0 || s[|s| - 1] == Empty then 0
    else if |s| >= 2 && s[|s| - 2] == s[|s| - 1] then Run(s[..|s| - 1]) + 1
    else 1
  }

  /** A run of at least t ends s exactly when the last t cells carry one and the same mark. */
  lemma {:induction false} RunCovers(s: seq<int>, t: int)
    requires t >= 1
    ensures Run(s) >= t <==>
      t <= |s| && s[|s| - 1] != Empty && forall q | |s| - t <= q < |s| :: s[q] == s[|s| - 1]
  {
    if |s| == 0 || s[|s| - 1] == Empty {
    } else if t == 1 {
    } else {
      var init := s[..|s| - 1];
      if |s| >= 2 && s[|s| - 2] == s[|s| - 1] {
        RunCovers(init, t - 1);
        if Run(s) >= t {
          forall q | |s| - t <= q < |s| ensures s[q] == s[|s| - 1] {
            if q < |s| - 1 {
              assert s[q] == init[q];
            }
          }
        }
        if t <= |s| && forall q | |s| - t <= q < |s| :: s[q] == s[|s| - 1] {
          forall q | |init| - (t - 1) <= q < |init| ensures init[q] == init[|init| - 1] {
            assert init[q] == s[q];
          }
        }
      } else if t <= |s| {
        assert s[|s| - 2] != s[|s| - 1];
      }
    }
  }

  /** The length of the run that ends at cell e of s. */
  function RunTo(s: seq<int>, e: int): nat
    requires 0 <= e < |s|
  {
    Run(s[..e + 1])
  }

  /** No run on the line ever reaches length t. */
  ghost predicate Clean(s: seq<int>, t: int)
  {
    CleanBefore(s, |s|, t)
  }

  /** No run ending before index k reaches length t. */
  ghost predicate CleanBefore(s: seq<int>, k: int, t: int)
    requires k <= |s|
  {
    forall e | 0 <= e < k :: RunTo(s, e) < t
  }

  /** How many steps of a walk from p in direction d stay in the n-column, m-row grid. */
  function Steps(n: int, m: int, d: Dir, p: Pos): nat
  {
    if !InGrid(n, m, p) then 0
    else
      match d
      case North => m - p.row
      case East => n - p.col
      case NorthEast => Min(n - p.col, m - p.row)
      case SouthEast => Min(n - p.col, p.row + 1)
      case NorthWest => Min(p.col + 1, m - p.row)
  }

  /** A walk that starts in the grid is in it after k steps exactly while k is below Steps. */
  lemma StepsInGrid(n: int, m: int, d: Dir, p: Pos, k: int)
    requires 0 <= k && InGrid(n, m, p)
    ensures InGrid(n, m, Offset(d, p, k)) <==> k < Steps(n, m, d, p)
  {
  }

  /**
   * The cells met walking from p in direction d while the walk stays in
   * the grid of |b| columns and m rows (every step below Steps is in it).
   */
  function Line(b: Grid, m: int, d: Dir, p: Pos): seq<int>
  {
    seq(Steps(|b|, m, d, p), k => if InGrid(|b|, m, Offset(d, p, k)) then Cell(b, Offset(d, p, k)) else Empty)
  }

  /** Position k of a line is its k-th step; the step just past its end lies off the grid. */
  lemma LineIndex(b: Grid, m: int, d: Dir, p: Pos, k: int)
    requires 0 <= k
    ensures k < |Line(b, m, d, p)| ==>
      InGrid(|b|, m, Offset(d, p, k)) && Line(b, m, d, p)[k] == Cell(b, Offset(d, p, k))
    ensures k == |Line(b, m, d, p)| ==> !InGrid(|b|, m, Offset(d, p, k))
  {
    if InGrid(|b|, m, p) {
      StepsInGrid(|b|, m, d, p, k);
    }
  }

  /** A walk that starts and ends in the grid stays in it, so its end is on the line. */
  lemma LineReaches(b: Grid, m: int, d: Dir, p: Pos, k: int)
    requires 0 <= k && InGrid(|b|, m, p) && InGrid(|b|, m, Offset(d, p, k))
    ensures k < |Line(b, m, d, p)|
  {
    StepsInGrid(|b|, m, d, p, k);
  }

  /** A window of t cells of one mark on a line means the line is not clean. */
  lemma WindowInLine(b: Grid, m: int, d: Dir, p: Pos, a: int, t: int, v: int)
    requires WellFormed(b, m) && InGrid(|b|, m, p) && 0 <= a && t >= 1 && v != Empty
    requires forall q | a <= q < a + t :: OwnedBy(b, Offset(d, p, q), v)
    ensures !Clean(Line(b, m, d, p), t)
  {
    var s := Line(b, m, d, p);
    var top := Offset(d, p, a + t - 1);
    assert OwnedBy(b, top, v);
    assert Fits(b[top.col], m);
    LineReaches(b, m, d, p, a + t - 1);
    var w := s[..a + t];
    LineIndex(b, m, d, p, a + t - 1);
    assert w[|w| - 1] == v;
    forall q | |w| - t <= q < |w| ensures w[q] == w[|w| - 1] {
      assert OwnedBy(b, Offset(d, p, q), v);
      LineIndex(b, m, d, p, q);
      assert w[q] == s[q];
    }
    RunCovers(w, t);
    assert RunTo(s, a + t - 1) >= t;
  }

  /** The six sweeps of the win check, in the order it runs them. */
  datatype Family = Columns | Rows | RisingFromBottom | RisingFromLeft | FallingFromTop | FallingFromRight

  function FamilyDir(f: Family): Dir
  {
    match f
    case Columns => North
    case Rows => East
    case RisingFromBottom => NorthEast
    case RisingFromLeft => NorthEast
    case FallingFromTop => SouthEast
    case FallingFromRight => NorthWest
  }

  /** The number of lines of a sweep: one per column or one per row. */
  function FamilySize(f: Family, n: int, m: int): int
  {
    match f
    case Columns => n
    case RisingFromBottom => n
    case FallingFromTop => n
    case _ => m
  }

  /** Where line x of a sweep starts. */
  function FamilyStart(f: Family, n: int, m: int, x: int): Pos
  {
    match f
    case Columns => Pos(x, 0)
    case Rows => Pos(0, x)
    case RisingFromBottom => Pos(x, 0)
    case RisingFromLeft => Pos(0, x)
    case FallingFromTop => Pos(x, m - 1)
    case FallingFromRight => Pos(n - 1, x)
  }

  /** No line of the sweep holds a run of t. */
  ghost predicate SweepClean(b: Grid, m: int, t: int, f: Family)
  {
    forall x | 0 <= x < FamilySize(f, |b|, m) ::
      Clean(Line(b, m, FamilyDir(f), FamilyStart(f, |b|, m, x)), t)
  }

  /**
   * The runs the sweeps can see: every vertical, horizontal and rising run,
   * and a falling run only when its anti-diagonal meets the top row or the
   * last column, that is when col + row >= min(columns, rows) - 1.
   */
  predicate Covered(n: int, m: int, d: Dir, p: Pos)
  {
    d != NorthWest && (d == SouthEast ==> p.col + p.row >= Min(n, m) - 1)
  }

  ghost predicate Detectable(b: Grid, m: int, t: int, d: Dir, p: Pos, v: int)
  {
    Covered(|b|, m, d, p) && RunAt(b, t, d, p, v)
  }

  /** What the win check may report: no winner, or a player with a run it can see. */
  ghost predicate Reported(b: Grid, m: int, t: int, v: int)
  {
    v == Empty || ((v == 0 || v == 1) && exists d, p :: Detectable(b, m, t, d, p, v))
  }

  /**
   * t cells of one mark v, found from index a on a line, are a run of v in
   * the line's direction; on a line scanned north-west they are also a
   * run south-east from their last cell.
   */
  lemma LineWindowOwned(b: Grid, m: int, d: Dir, p: Pos, a: int, t: int, v: int)
    requires 0 <= a && 0 <= t && a + t <= |Line(b, m, d, p)| && v != Empty
    requires forall q | a <= q < a + t :: Line(b, m, d, p)[q] == v
    ensures RunAt(b, t, d, Offset(d, p, a), v)
    ensures d == NorthWest && t >= 1 ==> RunAt(b, t, SouthEast, Offset(NorthWest, p, a + t - 1), v)
  {
    forall k | 0 <= k < t ensures OwnedBy(b, Offset(d, Offset(d, p, a), k), v) {
      assert Offset(d, Offset(d, p, a), k) == Offset(d, p, a + k);
      LineIndex(b, m, d, p, a + k);
    }
    if d == NorthWest && t >= 1 {
      var r := Offset(NorthWest, p, a + t - 1);
      forall k | 0 <= k < t ensures OwnedBy(b, Offset(SouthEast, r, k), v) {
        assert Offset(SouthEast, r, k) == Offset(NorthWest, p, a + t - 1 - k);
        LineIndex(b, m, d, p, a + t - 1 - k);
      }
    }
  }

  /**
   * Every cell on a line of a sweep is a start the win check covers: in
   * the line's direction, or south-east for the lines scanned north-west.
   */
  lemma SweepCellsCovered(f: Family, n: int, m: int, x: int, a: int)
    requires 0 <= x < FamilySize(f, n, m) && 0 <= a
    ensures FamilyDir(f) != NorthWest ==> Covered(n, m, FamilyDir(f), Offset(FamilyDir(f), FamilyStart(f, n, m, x), a))
    ensures FamilyDir(f) == NorthWest ==> Covered(n, m, SouthEast, Offset(NorthWest, FamilyStart(f, n, m, x), a))
  {
  }

  /** A run of t >= 1 ending at index e covers the t cells up to e, which all hold the mark at e. */
  lemma RunEndsWindow(s: seq<int>, e: int, t: int)
    requires 0 <= e < |s| && t >= 1 && Run(s[..e + 1]) >= t
    ensures 0 <= e + 1 - t && forall q | e + 1 - t <= q < e + 1 :: s[q] == s[e]
  {
    RunCovers(s[..e + 1], t);
    forall q | e + 1 - t <= q < e + 1 ensures s[q] == s[e] {
      assert s[q] == s[..e + 1][q];
    }
  }

  lemma LineRunReported(b: Grid, m: int, t: int, f: Family, x: int, e: int)
    requires WellFormed(b, m) && 0 <= x < FamilySize(f, |b|, m)
    requires 0 <= e < |Line(b, m, FamilyDir(f), FamilyStart(f, |b|, m, x))|
    requires Run(Line(b, m, FamilyDir(f), FamilyStart(f, |b|, m, x))[..e + 1]) >= t
    ensures Reported(b, m, t, Line(b, m, FamilyDir(f), FamilyStart(f, |b|, m, x))[e])
  {
    var d, p := FamilyDir(f), FamilyStart(f, |b|, m, x);
    var s := Line(b, m, d, p);
    var v := s[e];
    LineIndex(b, m, d, p, e);
    if v != Empty {
      assert OwnedBy(b, Offset(d, p, e), v);
      if t <= 0 {
        assert Detectable(b, m, t, North, Pos(0, 0), v);
      } else {
        RunEndsWindow(s, e, t);
        var a := e + 1 - t;
        LineWindowOwned(b, m, d, p, a, t, v);
        SweepCellsCovered(f, |b|, m, x, a);
        SweepCellsCovered(f, |b|, m, x, e);
        if d != NorthWest {
          assert Detectable(b, m, t, d, Offset(d, p, a), v);
        } else {
          assert Detectable(b, m, t, SouthEast, Offset(NorthWest, p, e), v);
        }
      }
    }
  }

  /** The sweep whose lines pass through a run starting at p in direction d. */
  function SweepOf(m: int, d: Dir, p: Pos): Family
  {
    match d
    case North => Columns
    case East => Rows
    case NorthEast => if p.col >= p.row then RisingFromBottom else RisingFromLeft
    case SouthEast => if p.col + p.row >= m - 1 then FallingFromTop else FallingFromRight
    case NorthWest => FallingFromRight
  }

  /** The descending case of DetectableRunIsSwept: one of the two falling sweeps sees the run. */
  lemma DescendingRunIsSwept(b: Grid, m: int, t: int, p: Pos, v: int)
    requires WellFormed(b, m) && t >= 1 && v != Empty && Detectable(b, m, t, SouthEast, p, v)
    ensures !SweepClean(b, m, t, SweepOf(m, SouthEast, p))
  {
    var n := |b|;
    var sum := p.col + p.row;
    assert OwnedBy(b, Offset(SouthEast, p, 0), v);
    assert Fits(b[p.col], m);
    if sum >= m - 1 {
      var f, x, a := FallingFromTop, sum - m + 1, m - 1 - p.row;
      var s := FamilyStart(f, n, m, x);
      forall q | a <= q < a + t ensures OwnedBy(b, Offset(SouthEast, s, q), v) {
        assert Offset(SouthEast, s, q) == Offset(SouthEast, p, q - a);
      }
      WindowInLine(b, m, SouthEast, s, a, t, v);
    } else {
      assert OwnedBy(b, Offset(SouthEast, p, t - 1), v);
      var f, x, a := FallingFromRight, sum - n + 1, n - p.col - t;
      var s := FamilyStart(f, n, m, x);
      forall q | a <= q < a + t ensures OwnedBy(b, Offset(NorthWest, s, q), v) {
        assert Offset(NorthWest, s, q) == Offset(SouthEast, p, n - 1 - p.col - q);
      }
      WindowInLine(b, m, NorthWest, s, a, t, v);
    }
  }

  /** Every run the sweeps can see lies on a line of some sweep, which is then not clean. */
  lemma DetectableRunIsSwept(b: Grid, m: int, t: int, d: Dir, p: Pos, v: int)
    requires WellFormed(b, m) && t >= 1
    ensures Detectable(b, m, t, d, p, v) ==> !SweepClean(b, m, t, SweepOf(m, d, p))
  {
    if Detectable(b, m, t, d, p, v) {
      var n := |b|;
      assert OwnedBy(b, Offset(d, p, 0), v);
      assert Fits(b[p.col], m);
      assert v != Empty by {
        assert b[p.col][p.row] == 0 || b[p.col][p.row] == 1;
      }
      match d {
        case North =>
          var f, x := Columns, p.col;
          var s := FamilyStart(f, n, m, x);
          forall q | p.row <= q < p.row + t ensures OwnedBy(b, Offset(North, s, q), v) {
            assert Offset(North, s, q) == Offset(North, p, q - p.row);
          }
          WindowInLine(b, m, North, s, p.row, t, v);
        case East =>
          var f, x := Rows, p.row;
          var s := FamilyStart(f, n, m, x);
          forall q | p.col <= q < p.col + t ensures OwnedBy(b, Offset(East, s, q), v) {
            assert Offset(East, s, q) == Offset(East, p, q - p.col);
          }
          WindowInLine(b, m, East, s, p.col, t, v);
        case NorthEast =>
          var f := if p.col >= p.row then RisingFromBottom else RisingFromLeft;
          var x := if p.col >= p.row then p.col - p.row else p.row - p.col;
          var a := if p.col >= p.row then p.row else p.col;
          var s := FamilyStart(f, n, m, x);
          forall q | a <= q < a + t ensures OwnedBy(b, Offset(NorthEast, s, q), v) {
            assert Offset(NorthEast, s, q) == Offset(NorthEast, p, q - a);
          }
          WindowInLine(b, m, NorthEast, s, a, t, v);
        case SouthEast =>
          DescendingRunIsSwept(b, m, t, p, v);
      }
    }
  }

  /** No run of t that the sweeps can see is on the board. */
  ghost predicate Unconnected(b: Grid, m: int, t: int)
  {
    forall d, p, v :: !Detectable(b, m, t, d, p, v)
  }

  /** Where a scan of line s stops, from index e on: the mark ending the first run of t, if any. */
  function LineWinner(s: seq<int>, t: int, e: nat): Option<int>
    decreases |s| - e
  {
    if e >= |s| then None
    else if RunTo(s, e) >= t then Some(s[e])
    else LineWinner(s, t, e + 1)
  }

  /** A scan stops at a cell ending a run of t, and runs off the line only when no run reaches t. */
  lemma {:induction false} LineWinnerFound(s: seq<int>, t: int, e: nat)
    requires e <= |s|
    decreases |s| - e
    ensures LineWinner(s, t, e).Some? ==>
      exists i | e <= i < |s| :: RunTo(s, i) >= t && LineWinner(s, t, e).value == s[i]
    ensures LineWinner(s, t, e).None? ==> forall i | e <= i < |s| :: RunTo(s, i) < t
  {
    if e < |s| && RunTo(s, e) < t {
      LineWinnerFound(s, t, e + 1);
    }
  }

  /** Where a sweep stops, from its line x on: the first line on which a scan stops. */
  function SweepWinner(b: Grid, m: int, t: int, f: Family, x: nat): Option<int>
    decreases FamilySize(f, |b|, m) - x
  {
    if x >= FamilySize(f, |b|, m) then None
    else
      var w := LineWinner(Line(b, m, FamilyDir(f), FamilyStart(f, |b|, m, x)), t, 0);
      if w.Some? then w else SweepWinner(b, m, t, f, x + 1)
  }

  /** The first of two results that is present. */
  function Or(a: Option<int>, b: Option<int>): Option<int>
  {
    if a.Some? then a else b
  }

  /** The result of the win check: the six sweeps in order, -1 when none stops. */
  function Winner(b: Grid, m: int, t: int): int
  {
    var w :=
      Or(SweepWinner(b, m, t, Columns, 0),
      Or(SweepWinner(b, m, t, Rows, 0),
      Or(SweepWinner(b, m, t, RisingFromBottom, 0),
      Or(SweepWinner(b, m, t, RisingFromLeft, 0),
      Or(SweepWinner(b, m, t, FallingFromTop, 0),
         SweepWinner(b, m, t, FallingFromRight, 0))))));
    if w.Some? then w.value else Empty
  }

  /**
   * A sweep that stops reports a covered run of a real mark (for t >= 1);
   * one that runs through finds every line from x on clean.
   */
  lemma SweepWinnerFound(b: Grid, m: int, t: int, f: Family, x: nat)
    requires WellFormed(b, m)
    ensures SweepWinner(b, m, t, f, x).Some? ==>
      Reported(b, m, t, SweepWinner(b, m, t, f, x).value) && (t >= 1 ==> SweepWinner(b, m, t, f, x).value != Empty)
    ensures SweepWinner(b, m, t, f, x).None? ==>
      forall y | x <= y < FamilySize(f, |b|, m) :: Clean(Line(b, m, FamilyDir(f), FamilyStart(f, |b|, m, y)), t)
  {
    if SweepWinner(b, m, t, f, x).Some? {
      SweepWinnerStops(b, m, t, f, x);
    } else {
      SweepWinnerRunsThrough(b, m, t, f, x);
    }
  }

  /** A sweep that stops, stops on a line whose scan reports a covered run of a real mark (for t >= 1). */
  lemma {:induction false} SweepWinnerStops(b: Grid, m: int, t: int, f: Family, x: nat)
    requires WellFormed(b, m) && SweepWinner(b, m, t, f, x).Some?
    decreases FamilySize(f, |b|, m) - x
    ensures Reported(b, m, t, SweepWinner(b, m, t, f, x).value)
    ensures t >= 1 ==> SweepWinner(b, m, t, f, x).value != Empty
  {
    var s := Line(b, m, FamilyDir(f), FamilyStart(f, |b|, m, x));
    var w := LineWinner(s, t, 0);
    assert SweepWinner(b, m, t, f, x) == if w.Some? then w else SweepWinner(b, m, t, f, x + 1);
    if w.Some? {
      LineWinnerStops(s, t);
      var e :| 0 <= e < |s| && RunTo(s, e) >= t && w.value == s[e];
      LineRunReported(b, m, t, f, x, e);
    } else {
      SweepWinnerStops(b, m, t, f, x + 1);
    }
  }

  /** A sweep that runs through finds every line from x on clean. */
  lemma {:induction false} SweepWinnerRunsThrough(b: Grid, m: int, t: int, f: Family, x: nat)
    requires SweepWinner(b, m, t, f, x).None?
    decreases FamilySize(f, |b|, m) - x
    ensures forall y | x <= y < FamilySize(f, |b|, m) :: Clean(Line(b, m, FamilyDir(f), FamilyStart(f, |b|, m, y)), t)
  {
    if x < FamilySize(f, |b|, m) {
      var s := Line(b, m, FamilyDir(f), FamilyStart(f, |b|, m, x));
      assert LineWinner(s, t, 0).None? && SweepWinner(b, m, t, f, x + 1).None?;
      LineWinnerClean(s, t);
      SweepWinnerRunsThrough(b, m, t, f, x + 1);
    }
  }

  /** A scan that stops does so at the end of a run of t, on a real mark when t >= 1. */
  lemma LineWinnerStops(s: seq<int>, t: int)
    requires LineWinner(s, t, 0).Some?
    ensures exists e | 0 <= e < |s| :: RunTo(s, e) >= t && LineWinner(s, t, 0).value == s[e]
    ensures t >= 1 ==> LineWinner(s, t, 0).value != Empty
  {
    LineWinnerFound(s, t, 0);
    var e :| 0 <= e < |s| && RunTo(s, e) >= t && LineWinner(s, t, 0).value == s[e];
    if t >= 1 {
      RunCovers(s[..e + 1], t);
    }
  }

  /** A scan that runs off the line has found it clean. */
  lemma LineWinnerClean(s: seq<int>, t: int)
    requires LineWinner(s, t, 0).None?
    ensures Clean(s, t)
  {
    LineWinnerFound(s, t, 0);
  }

  /**
   * The win check reports a covered run of a real mark or -1, and for a
   * target of at least 1 it reports -1 exactly when no covered run exists.
   */
  lemma WinnerSoundComplete(b: Grid, m: int, t: int)
    requires WellFormed(b, m)
    ensures Reported(b, m, t, Winner(b, m, t))
    ensures t >= 1 ==> (Winner(b, m, t) == Empty <==> Unconnected(b, m, t))
  {
    var w1, w2, w3 := SweepWinner(b, m, t, Columns, 0), SweepWinner(b, m, t, Rows, 0), SweepWinner(b, m, t, RisingFromBottom, 0);
    var w4, w5, w6 := SweepWinner(b, m, t, RisingFromLeft, 0), SweepWinner(b, m, t, FallingFromTop, 0), SweepWinner(b, m, t, FallingFromRight, 0);
    SweepFound(b, m, t, Columns);
    SweepFound(b, m, t, Rows);
    SweepFound(b, m, t, RisingFromBottom);
    SweepFound(b, m, t, RisingFromLeft);
    SweepFound(b, m, t, FallingFromTop);
    SweepFound(b, m, t, FallingFromRight);
    var w := Or(w1, Or(w2, Or(w3, Or(w4, Or(w5, w6)))));
    assert Winner(b, m, t) == if w.Some? then w.value else Empty;
    if t >= 1 {
      if w.None? {
        CleanSweepsUnconnected(b, m, t);
      } else {
        assert w.value != Empty;
        var d, p :| Detectable(b, m, t, d, p, w.value);
      }
    }
  }

  /** What a whole sweep yields: a covered run of a real mark, or a clean sweep. */
  lemma SweepFound(b: Grid, m: int, t: int, f: Family)
    requires WellFormed(b, m)
    ensures SweepWinner(b, m, t, f, 0).Some? ==>
      Reported(b, m, t, SweepWinner(b, m, t, f, 0).value) && (t >= 1 ==> SweepWinner(b, m, t, f, 0).value != Empty)
    ensures SweepWinner(b, m, t, f, 0).None? ==> SweepClean(b, m, t, f)
  {
    SweepWinnerFound(b, m, t, f, 0);
  }

  /** When all six sweeps are clean, no run they cover is on the board. */
  lemma CleanSweepsUnconnected(b: Grid, m: int, t: int)
    requires WellFormed(b, m) && t >= 1
    requires SweepClean(b, m, t, Columns) && SweepClean(b, m, t, Rows)
    requires SweepClean(b, m, t, RisingFromBottom) && SweepClean(b, m, t, RisingFromLeft)
    requires SweepClean(b, m, t, FallingFromTop) && SweepClean(b, m, t, FallingFromRight)
    ensures Unconnected(b, m, t)
  {
    forall d, p, v ensures !Detectable(b, m, t, d, p, v) {
      var f := SweepOf(m, d, p);
      assert SweepClean(b, m, t, f) by {
        match f
        case Columns =>
        case Rows =>
        case RisingFromBottom =>
        case RisingFromLeft =>
        case FallingFromTop =>
        case FallingFromRight =>
      }
      DetectableRunIsSwept(b, m, t, d, p, v);
    }
  }
}
