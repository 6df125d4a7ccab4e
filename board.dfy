/**
 * The board of the connect-N game: a list of columns, each column an
 * append-only list of owner marks (0 or 1) filled from the bottom, so
 * that row 0 of a column is its lowest cell.  Everything here is a value
 * and a pure function; the game loop and the players build on it.
 */
module Board {

  /** Columns, each listed bottom to top. */
  type Grid = seq<seq<int>>

  /** The "no mark / no winner" sentinel of the game (-1). */
  const Empty: int := -1

  /** A cell position: column index and row index (row 0 is the bottom). */
  datatype Pos = Pos(col: int, row: int)

  /** The directions a run of marks can take, by compass. */
  datatype Dir = North | East | NorthEast | SouthEast | NorthWest

  /** The smaller of two numbers. */
  function Min(a: int, b: int): int
  {
    if a <= b then a else b
  }

  /** The position k steps from p in direction d. */
  function Offset(d: Dir, p: Pos, k: int): Pos
  {
    match d
    case North => Pos(p.col, p.row + k)
    case East => Pos(p.col + k, p.row)
    case NorthEast => Pos(p.col + k, p.row + k)
    case SouthEast => Pos(p.col + k, p.row - k)
    case NorthWest => Pos(p.col - k, p.row + k)
  }

  /** A mark has been dropped at p. */
  predicate Occupied(b: Grid, p: Pos)
  {
    0 <= p.col < |b| && 0 <= p.row < |b[p.col]|
  }

  /** The cell at p is occupied by mark v. */
  predicate OwnedBy(b: Grid, p: Pos, v: int)
  {
    Occupied(b, p) && b[p.col][p.row] == v
  }

  /** t cells starting at p and going in direction d are all occupied by v. */
  predicate RunAt(b: Grid, t: int, d: Dir, p: Pos, v: int)
  {
    forall k | 0 <= k < t :: OwnedBy(b, Offset(d, p, k), v)
  }

  /** A column may hold no more than maxRows marks (an empty column always fits). */
  predicate Fits(column: seq<int>, maxRows: int)
  {
    column == [] || |column| <= maxRows
  }

  /** The board invariant: every column fits and every mark is a player index. */
  predicate WellFormed(b: Grid, maxRows: int)
  {
    && (forall c | 0 <= c < |b| :: Fits(b[c], maxRows))
    && (forall c, r | 0 <= c < |b| && 0 <= r < |b[c]| :: b[c][r] == 0 || b[c][r] == 1)
  }

  /** The number of marks a well-formed board of n columns can hold. */
  function Capacity(n: nat, maxRows: int): nat
  {
    if maxRows <= 0 then 0 else n * maxRows
  }

  /** The number of marks on the board. A non-recursive wrapper, so that proofs using it do not unfold the recursion. */
  function Total(b: Grid): nat
  {
    Heights(b)
  }

  /** The column heights added up, last column first. */
  function Heights(b: Grid): nat
  {
    if b == [] then 0 else Heights(b[..|b| - 1]) + |b[|b| - 1]|
  }

  lemma TotalBounded(b: Grid, maxRows: int)
    requires WellFormed(b, maxRows)
    ensures Total(b) <= Capacity(|b|, maxRows)
  {
    HeightsBounded(b, maxRows);
  }

  lemma {:induction false} HeightsBounded(b: Grid, maxRows: int)
    requires WellFormed(b, maxRows)
    ensures Heights(b) <= Capacity(|b|, maxRows)
  {
    if b != [] {
      var init := b[..|b| - 1];
      assert WellFormed(init, maxRows) by {
        forall c | 0 <= c < |init| ensures Fits(init[c], maxRows) {
          assert init[c] == b[c];
        }
        forall c, r | 0 <= c < |init| && 0 <= r < |init[c]|
          ensures init[c][r] == 0 || init[c][r] == 1
        {
          assert init[c] == b[c];
        }
      }
      HeightsBounded(init, maxRows);
      assert Fits(b[|b| - 1], maxRows);
    }
  }

  lemma TotalAppend(b: Grid, c: int, x: int)
    requires 0 <= c < |b|
    ensures Total(b[c := b[c] + [x]]) == Total(b) + 1
  {
    HeightsAppend(b, c, x);
  }

  lemma {:induction false} HeightsAppend(b: Grid, c: int, x: int)
    requires 0 <= c < |b|
    ensures Heights(b[c := b[c] + [x]]) == Heights(b) + 1
  {
    var b' := b[c := b[c] + [x]];
    if c == |b| - 1 {
      assert b'[..|b'| - 1] == b[..|b| - 1];
    } else {
      assert b'[..|b'| - 1] == b[..|b| - 1][c := b[c] + [x]];
      HeightsAppend(b[..|b| - 1], c, x);
    }
  }


  /** The legal columns, ascending, from index i on. */
  function ChoicesFrom(b: Grid, maxRows: int, i: nat): (r: seq<int>)
    decreases |b| - i
    ensures forall k | 0 <= k < |r| :: i <= r[k] < |b| && |b[r[k]]| < maxRows
    ensures forall c | i <= c < |b| && |b[c]| < maxRows :: c in r
    ensures forall k, l | 0 <= k < l < |r| :: r[k] < r[l]
  {
    if i >= |b| then []
    else (if |b[i]| < maxRows then [i] else []) + ChoicesFrom(b, maxRows, i + 1)
  }

  /**
   * The legal moves: the ascending list of the columns holding fewer
   * than maxRows marks.
   */
  function Choices(b: Grid, maxRows: int): (r: seq<int>)
    ensures forall c :: c in r <==> 0 <= c < |b| && |b[c]| < maxRows
    ensures forall k, l | 0 <= k < l < |r| :: r[k] < r[l]
  {
    ChoicesFrom(b, maxRows, 0)
  }

  /** A drop of mark x into a legal column keeps the board well formed. */
  lemma DropKeepsWellFormed(b: Grid, maxRows: int, c: int, x: int)
    requires WellFormed(b, maxRows) && c in Choices(b, maxRows) && (x == 0 || x == 1)
    ensures WellFormed(b[c := b[c] + [x]], maxRows)
  {
    var b' := b[c := b[c] + [x]];
    forall c', r | 0 <= c' < |b'| && 0 <= r < |b'[c']|
      ensures b'[c'][r] == 0 || b'[c'][r] == 1
    {
      if c' == c && r == |b[c]| {
        assert b'[c'][r] == x;
      } else {
        assert b'[c'][r] == b[c'][r];
      }
    }
  }

  /** The legal-move scenario (3 columns of heights 3, 1, 3 with 3 rows): only column 1. */
  lemma ChoicesExample()
    ensures Choices([[0, 1, 0], [1], [1, 0, 1]], 3) == [1]
  {
    var b := [[0, 1, 0], [1], [1, 0, 1]];
    var r := Choices(b, 3);
    assert 1 in r;
    assert forall k | 0 <= k < |r| :: r[k] == 1;
  }
}
