/**
 * The test AI player: win if a move wins, else block a move that would
 * win for the opponent, else take the move whose placement gives the most
 * owned windows.  Its target comes from its memory, which it hands back
 * unchanged; its probes extend the board in place and shorten it again.
 */
module TestAi {
  import opened Board
  import opened Outcomes
  import opened Windows
  import opened Selection

  /** The target: the stored n_target of a non-empty memory, 3 when there is none. */
  function Target(memory: Option<Memory>): (t: int)
    ensures memory.Some? && "n_target" in memory.value ==> t == memory.value["n_target"]
    ensures !(memory.Some? && "n_target" in memory.value) ==> t == 3
  {
    if memory.Some? && memory.value != map[] then
      (if "n_target" in memory.value then memory.value["n_target"] else 3)
    else 3
  }

  /** The heuristic of a move: the windows p owns once its mark is placed in column c. */
  function MoveScore(b: Grid, t: int, p: int, c: int): nat
  {
    if 0 <= c < |b| then WindowCount(Place(b, c, p), t, p) else 0
  }

  /** The heuristic as a function of the column. */
  function Scores(b: Grid, t: int, p: int): int -> int
  {
    c => MoveScore(b, t, p, c)
  }

  /** A move scores above zero exactly when it wins. */
  lemma MoveScorePositive(b: Grid, t: int, p: int, c: int)
    requires 0 <= c < |b|
    ensures MoveScore(b, t, p, c) > 0 <==> WinningMove(b, t, p, c)
  {
    WindowCountPositive(Place(b, c, p), t, p);
  }

  /** The move the player makes on board b with target t. */
  function Choice(b: Grid, choices: seq<int>, player: int, t: int): int
    requires choices != []
  {
    Pick(choices, Wins(b, t, player), Wins(b, t, Opponent(player)), Scores(b, t, player))
  }

  /**
   * When no legal move wins, every heuristic is zero, so a player that
   * has nothing to block takes the first legal move.
   */
  lemma HeuristicStepTakesFirst(b: Grid, choices: seq<int>, player: int, t: int)
    requires choices != [] && forall i | 0 <= i < |choices| :: 0 <= choices[i] < |b|
    requires forall i | 0 <= i < |choices| :: !WinningMove(b, t, player, choices[i])
    requires forall i | 0 <= i < |choices| :: !WinningMove(b, t, Opponent(player), choices[i])
    ensures Choice(b, choices, player, t) == choices[0]
  {
    var win, block, score := Wins(b, t, player), Wins(b, t, Opponent(player)), Scores(b, t, player);
    forall i | 0 <= i < |choices|
      ensures !win(choices[i]) && !block(choices[i]) && score(choices[i]) == score(choices[0])
    {
      MoveScorePositive(b, t, player, choices[i]);
      MoveScorePositive(b, t, player, choices[0]);
    }
    PickTakesFirstOnTie(choices, win, block, score);
  }

  /** The heuristic of a move, probed in place: append p to column col, count, remove the mark. */
  method HeuristicScore(board: array<seq<int>>, col: int, p: int, t: int) returns (score: nat)
    requires 0 <= col < board.Length
    modifies board
    ensures board[..] == old(board[..])
    ensures score == Scores(old(board[..]), t, p)(col)
  {
    ghost var before := board[..];
    board[col] := board[col] + [p];
    assert board[..] == Place(before, col, p);
    score := Score(board, t, p);
    board[col] := board[col][..|board[col]| - 1];
    assert board[..] == before;
  }

  /**
   * The last step: score every legal move and keep the first of highest
   * score, starting below every score from a random legal move.
   */
  method BestMove(board: array<seq<int>>, choices: seq<int>, p: int, t: int) returns (bestCol: int)
    requires choices != [] && forall i | 0 <= i < |choices| :: 0 <= choices[i] < board.Length
    modifies board
    ensures board[..] == old(board[..])
    ensures bestCol == choices[ArgMaxFirst(choices, Scores(old(board[..]), t, p))]
  {
    ghost var b := board[..];
    ghost var score := Scores(b, t, p);
    var bestScore: int := -1;
    assert choices[0] in choices;
    bestCol :| bestCol in choices;
    ghost var best := 0;
    var i := 0;
    while i < |choices|
      invariant 0 <= i <= |choices| && board[..] == b
      invariant i == 0 ==> bestScore == -1
      invariant i > 0 ==>
        && best == ArgMaxFirst(choices[..i], score)
        && bestCol == choices[best] && bestScore == score(bestCol)
    {
      var s := HeuristicScore(board, choices[i], p, t);
      KeepBest(choices, score, i, best, bestScore);
      if s > bestScore {
        bestScore, bestCol, best := s, choices[i], i;
      }
      i := i + 1;
    }
    assert choices[..|choices|] == choices;
  }

  /**
   * One move of the player.  The memory comes back as it was; with no
   * legal move the random pick of the last step raises.
   */
  method Play(board: array<seq<int>>, choices: seq<int>, player: int, memory: Option<Memory>)
    returns (result: Outcome<(int, Option<Memory>)>)
    requires forall i | 0 <= i < |choices| :: 0 <= choices[i] < board.Length
    modifies board
    ensures board[..] == old(board[..])
    ensures choices == [] ==> result == Raised
    ensures choices != [] ==> result == Returned((Choice(old(board[..]), choices, player, Target(memory)), memory))
  {
    ghost var b := board[..];
    var opponent := if player == 0 then 1 else 0;
    var t := Target(memory);
    var win := FirstWinningMove(board, choices, player, t);
    if win.Some? {
      return Returned((win.value, memory));
    }
    var block := FirstWinningMove(board, choices, opponent, t);
    if block.Some? {
      return Returned((block.value, memory));
    }
    if choices == [] {
      return Raised;
    }
    var col := BestMove(board, choices, player, t);
    return Returned((col, memory));
  }
}
