/**
 * How the AI players pick a column from the legal moves: the first move
 * that passes a test, or the first move of highest score when scanning
 * the moves in order and replacing the best only on a strictly higher
 * score.
 */
module Selection {
  import opened Outcomes

  /** x is an element of cs that passes ok, and no element before it passes. */
  ghost predicate IsFirstWhere(cs: seq<int>, x: int, ok: int -> bool)
  {
    exists i | 0 <= i < |cs| :: cs[i] == x && ok(x) && forall j | 0 <= j < i :: !ok(cs[j])
  }

  /** x is an element of cs of highest score, and every element before it scores lower. */
  ghost predicate IsFirstMax(cs: seq<int>, x: int, score: int -> int)
  {
    exists i | 0 <= i < |cs| :: cs[i] == x
      && (forall j | 0 <= j < |cs| :: score(cs[j]) <= score(x))
      && forall j | 0 <= j < i :: score(cs[j]) < score(x)
  }

  /** The first element of cs that passes ok, if any. */
  function FirstWhere(cs: seq<int>, ok: int -> bool): (r: Option<int>)
    ensures r.Some? ==> IsFirstWhere(cs, r.value, ok)
    ensures r.None? <==> forall i | 0 <= i < |cs| :: !ok(cs[i])
  {
    if cs == [] then None
    else if ok(cs[0]) then Some(cs[0])
    else
      var r := FirstWhere(cs[1..], ok);
      assert forall i | 0 < i < |cs| :: cs[i] == cs[1..][i - 1];
      if r.Some? then
        var i :| 0 <= i < |cs[1..]| && cs[1..][i] == r.value && ok(cs[1..][i]) && forall j | 0 <= j < i :: !ok(cs[1..][j]);
        assert cs[i + 1] == r.value && forall j | 0 <= j < i + 1 :: !ok(cs[j]);
        r
      else
        r
  }

  /** An element that passes ok with no passing element before it is the one FirstWhere finds. */
  lemma {:induction false} FirstWhereAt(cs: seq<int>, ok: int -> bool, i: int)
    requires 0 <= i < |cs| && ok(cs[i]) && forall j | 0 <= j < i :: !ok(cs[j])
    ensures FirstWhere(cs, ok) == Some(cs[i])
  {
    if i > 0 {
      assert forall j | 0 <= j < i - 1 :: cs[1..][j] == cs[j + 1];
      FirstWhereAt(cs[1..], ok, i - 1);
    }
  }

  /**
   * The index of the move the best-score loop keeps: scanning cs in
   * order, a later move replaces the kept one only with a strictly higher
   * score, so the kept move has the highest score and comes before every
   * other move of that score.
   */
  function ArgMaxFirst(cs: seq<int>, score: int -> int): (i: nat)
    requires cs != []
    ensures i < |cs|
    ensures forall j | 0 <= j < |cs| :: score(cs[j]) <= score(cs[i])
    ensures forall j | 0 <= j < i :: score(cs[j]) < score(cs[i])
  {
    if |cs| == 1 then 0
    else
      var k := ArgMaxFirst(cs[..|cs| - 1], score);
      assert forall j | 0 <= j < |cs| - 1 :: cs[..|cs| - 1][j] == cs[j];
      if score(cs[|cs| - 1]) > score(cs[k]) then |cs| - 1 else k
  }

  /**
   * One round of the best-score loop: the kept index of cs[..i] (none yet
   * when i is 0, in which case the first score always replaces the initial
   * best) becomes the kept index of cs[..i + 1] when the new score is
   * strictly higher.
   */
  lemma KeepBest(cs: seq<int>, score: int -> int, i: int, best: int, bestScore: int)
    requires 0 <= i < |cs|
    requires i == 0 ==> score(cs[0]) > bestScore
    requires i > 0 ==> best == ArgMaxFirst(cs[..i], score) && bestScore == score(cs[best])
    ensures ArgMaxFirst(cs[..i + 1], score) == if score(cs[i]) > bestScore then i else best
  {
    if i > 0 {
      assert cs[..i + 1][..i] == cs[..i];
    }
  }

  /**
   * The three-step pick of the AI players: the first move that wins,
   * else the first move that blocks, else the first move of highest
   * score.
   */
  function Pick(cs: seq<int>, win: int -> bool, block: int -> bool, score: int -> int): (r: int)
    requires cs != []
    ensures r in cs
    ensures (exists i | 0 <= i < |cs| :: win(cs[i])) ==> IsFirstWhere(cs, r, win)
    ensures (forall i | 0 <= i < |cs| :: !win(cs[i])) && (exists i | 0 <= i < |cs| :: block(cs[i])) ==>
      IsFirstWhere(cs, r, block)
    ensures (forall i | 0 <= i < |cs| :: !win(cs[i]) && !block(cs[i])) ==> IsFirstMax(cs, r, score)
  {
    match FirstWhere(cs, win)
    case Some(c) => c
    case None =>
      match FirstWhere(cs, block)
      case Some(c) => c
      case None =>
        var k := ArgMaxFirst(cs, score);
        assert IsFirstMax(cs, cs[k], score);
        cs[k]
  }

  /** With no winning and no blocking move and every score the same, the pick is the first move. */
  lemma PickTakesFirstOnTie(cs: seq<int>, win: int -> bool, block: int -> bool, score: int -> int)
    requires cs != []
    requires forall i | 0 <= i < |cs| :: !win(cs[i]) && !block(cs[i]) && score(cs[i]) == score(cs[0])
    ensures Pick(cs, win, block, score) == cs[0]
  {
    var r := Pick(cs, win, block, score);
    assert IsFirstMax(cs, r, score);
  }
}
