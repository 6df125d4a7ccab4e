# Connect-N game engine and its AI players, in Dafny

This project models a small connect-N ("TicTacToe") game engine and three of
its computer players.

The board is a list of columns. Each column is a bottom-to-top list of owner
marks: 0 for the first player, 1 for the second. A move appends a mark to a
column that still has room below the row limit.

The game object works as follows:

- It keeps the columns, the row limit, the target run length and a per-turn
  time budget.
- Its turn loop asks the two player callbacks for moves in alternation.
- A player loses on its turn if its callback raises, if it goes over a
  positive time budget, or if it answers with a column that is not a legal
  move (a full column, or any index outside the board).
- After every legal move the board is scanned from scratch for a run of
  `target` equal marks.
- When the board is full, the player with the lower mean turn time wins.

The three players:

- **The test AI** first takes a move that wins. Failing that, it takes a move
  that would win for its opponent. Failing that, it takes the first move of
  highest window count. Its target comes from its memory.
- **The adaptive AI** is like the test AI, but it first moves its target
  towards the player's longest streak. Its third step ranks moves by a
  search score.
- **The heuristic AI** takes the board width as its target. Its win check
  sees only two things: full-width rows below the row equal to the width, and
  the top of each column. It ranks moves by short vertical and horizontal
  alignments.

Module layout:

- `Board`: the grid, positions, directions, runs of one mark, the legal
  moves and the mark count. It is shared by everything else.
- `Scan` and `Game`: the game file. `Scan` holds the line and run
  definitions behind the win check. `Game` holds the check and the class
  `TicTacToe` with its turn loop. `Scenarios` applies the check to concrete
  boards.
- `Selection`: the "first legal move that wins", "first of highest score" and
  three-step choice, shared by all players.
- `Windows`: the window check and window count of the test AI. The adaptive
  AI shares them.
- `TestAi`, `AiNew` and `Ai`: one module per player file.

The test AI and the adaptive AI probe moves in place on the copy of the board
they are given. They append a mark, evaluate, and remove it again. They take
the board as an `array` of columns and prove that it comes back unchanged. The
heuristic AI copies the board before every probe, so it works on values.

Properties proved:

- **The win check:**
  - It is sound: a reported player really has a run of `target` marks.
  - For `target >= 1` it is complete for every run that its six sweeps cover.
  - Falling runs in the lower-left corner are not covered: they are runs whose
    anti-diagonal meets neither the top row nor the last column.
  - A concrete board shows that gap.
- **The turn loop:**
  - One pass of the loop is the function `Game.Pass`. `Game.Play` is the
    reference game: it runs passes until one ends the game. `Turn` and
    `Start` are proved to compute exactly those, from the strategies, the
    clock and the coin flip.
  - The reference game terminates, because every pass that goes on adds a
    mark to the board.
  - At its end (`Game.Concluded`):
    - a player at fault is the one whose turn it was, and it loses to the
      other;
    - a timeout is the offender's last recorded time, over the budget;
    - a connected game is won by the player the win check reports;
    - a full board goes to the tiebreak;
    - the board has grown only by appends, one mark per move;
    - the players alternated, starting with the one after the coin flip.
  - After every move, the win check reports no winner only when the board
    holds no run it can see. So a game that ends otherwise after a move
    leaves no such run on the board.
  - Two concrete consequences are proved. A first mover whose strategy
    raises loses at once. A first mover that answers with a column that is
    not a legal move loses at once.
  - The winner on a full board is the player with the smaller mean time.
  - On a full board with a player who never moved, the division by zero
    surfaces as a raise.
- **Each player:** the move it returns was proved to be the three-step choice
  given by a specification function (`Choice`). The properties of that choice
  are proved separately:
  - it is the first winning move, else the first blocking move, else the first
    move of highest score;
  - the test AI's and the heuristic AI's scores are above zero exactly when
    they should be (the adaptive AI's search score is opaque);
  - the adaptive AI's target adjustment follows the stated rules;
  - its final "did the chosen move win" check can never fire.
- **Where the code departs from its own docstring or leaves a case open**, the model follows the code:
  - The docstring of `check_win` at game.py:126 promises runs in "any
    direction", and so every falling diagonal. As written, the second sweep starts
    from the last column and walks north-west, which leaves the lower-left
    anti-diagonals unscanned. `Scan.Covered` states exactly which falling
    runs the code sees, and `Scenarios.DescendingGap` exhibits one it
    misses.
  - The source does not say what a full board means when a player never
    moved. The mean divides by zero at game.py:81, so `Game.Tiebreak`, and
    with it `Game.TicTacToe.Start`, returns a raise there.
- **The heuristic AI's quirks:**
  - Player 1's opponent mark is 2, so on a board of two or more columns
    player 1 never blocks.
  - Its win check can miss rows at or above the board width, buried column
    runs and diagonals; a concrete board shows each miss.
  - Its scores are multiples of five.

## Model

| member | source | states |
|---|---|---|
| Board.Choices | game.py:78 | the legal moves are exactly the columns below the row limit, in increasing order |
| Board.ChoicesFrom | game.py:78 | the list comprehension from column i on: every element is a legal column from i on, every such column is listed, strictly increasing |
| Board.ChoicesExample | game.py:78 | on a concrete board only the one non-full column is offered |
| Board.TotalBounded | game.py:79-83 | a well-formed board never holds more marks than columns times rows, which bounds the turn loop |
| Board.HeightsBounded | game.py:79-83 | the recursive mark count is bounded by the capacity, by induction over the columns |
| Board.TotalAppend | game.py:112 | appending one mark to a column raises the mark count by exactly one |
| Board.HeightsAppend | game.py:112 | the recursive mark count grows by one under a single append, by induction |
| Board.DropKeepsWellFormed | game.py:112 | appending 0 or 1 to a legal column keeps every column within the row limit and every mark 0 or 1 |
| Scan.Cell | game.py:129-136 | the value a scan sees at a cell is either the no-mark sentinel or the mark that cell holds |
| Scan.RunCovers | game.py:129-138 | the run counter reaches t exactly when the last t cells scanned carry one and the same real mark |
| Scan.RunEndsWindow | game.py:129-138 | a run of t ending at cell e of a line means cells e-t+1 through e of the line hold the mark at e |
| Scan.StepsInGrid | game.py:166-218 | a walk that starts in the grid stays in it for exactly its first Steps steps, which is where each while loop of the sweeps stops |
| Scan.LineIndex | game.py:166-218 | the k-th cell of a scan line is the cell k steps on from its start, and the line ends exactly where the walk leaves the grid |
| Scan.LineReaches | game.py:169 | a walk that stays in the grid for k steps gives a line longer than k |
| Scan.WindowInLine | game.py:142-218 | t owned cells in a row along a line's direction make that line hold a run of t |
| Scan.LineWindowOwned | game.py:142-218 | t equal marks found on a scan line are a run on the board, and on a line walked north-west they are a falling run from their upper cell |
| Scan.SweepCellsCovered | game.py:142-218 | every cell of every sweep line lies on a run the sweeps are said to cover |
| Scan.LineRunReported | game.py:147-150 | a scan that stops on a run of t returns a mark that really has a covered run of t |
| Scan.DescendingRunIsSwept | game.py:194-218 | a falling run whose anti-diagonal meets the top row or the last column lies on a line of one of the two falling sweeps |
| Scan.DetectableRunIsSwept | game.py:142-218 | a covered run of t in any direction makes the sweep for that direction unclean |
| Scan.LineWinner | game.py:145-150 | where the scan of one line stops: the mark at the first cell whose run reaches t, or nothing when the scan runs off the line |
| Scan.LineWinnerFound | game.py:145-150 | a scan that stops does so on a cell ending a run of t and returns its mark; a scan that runs off the line saw no run of t from its start on |
| Scan.LineWinnerStops | game.py:147-150 | a scan that stops returns the mark ending a run of t, which is a real mark when t is at least 1 |
| Scan.LineWinnerClean | game.py:145-150 | a scan that runs off the line has found no run of t on it |
| Scan.SweepWinner | game.py:141-218 | where one sweep stops: the first of its lines whose scan stops, in the order of the outer loop |
| Scan.SweepWinnerFound | game.py:141-218 | a sweep that stops reports a covered run of a real mark, for t at least 1; one that runs through finds every remaining line clean |
| Scan.SweepWinnerStops | game.py:141-218 | by induction over the lines: the line where a sweep stops reports a covered run of a real mark |
| Scan.SweepWinnerRunsThrough | game.py:141-218 | by induction over the lines: a sweep that runs through leaves every one of its remaining lines clean |
| Scan.SweepFound | game.py:141-218 | a whole sweep yields a covered run of a real mark, or is clean |
| Scan.Winner | game.py:125-220 | the result of the win check: the six sweeps in the code's order, the first that stops gives the mark, -1 when none stops |
| Scan.WinnerSoundComplete | game.py:125-220 | the win check reports -1 or a mark with a covered run, and for t at least 1 it reports -1 exactly when no covered run exists |
| Scan.CleanSweepsUnconnected | game.py:141-220 | when all six sweeps are clean no covered run is on the board, since each covered run lies on a line of the sweep for its direction |
| Game.CheckCell | game.py:129-138 | one scan step: the last mark becomes the cell's value, or -1 above the column's top; the count grows by one on a repeat, restarts at 1 on a new mark and at 0 on an empty cell; the flag says the count reached the target |
| Game.CheckCellExtendsRun | game.py:129-138 | one cell step turns the last mark and count of a line prefix into those of the prefix one cell longer, and the flag into "count reached target" |
| Game.ScanStep | game.py:145-150 | checking the k-th cell of a line leaves the run state of the first k + 1 cells, and the flag is set exactly where the line's scan stops |
| Game.FastestWins | game.py:81-82 | the full-board winner is player 0 or player 1 |
| Game.FastestWinsByMean | game.py:81-82 | player 1 wins a full board exactly when its mean time is below player 0's, and player 0 wins exactly otherwise, ties included |
| Game.CrossMultiply | game.py:81-82 | comparing cross-products of sums and counts is the same as comparing the real-valued means |
| Game.FasterPlayerOneWins | game.py:81-82 | a concrete full board where player 1 is faster is won by player 1 |
| Game.Tiebreak | game.py:79-83 | the full-board result: the faster player with both time lists, or a raise when a player has no recorded time, since the mean then divides by zero |
| Game.TicTacToe.constructor | game.py:23-35 | a new game has the given number of empty columns, row limit, target and time budget |
| Game.TicTacToe.ScanLine | game.py:142-150 | walking one line gives exactly where the line's scan stops: the win flag and mark of the first run of target, or no win |
| Game.TicTacToe.Sweep | game.py:141-218 | one family of scan lines gives exactly where the sweep stops |
| Game.TicTacToe.CheckWin | game.py:125-220 | the result is the win check's result: -1 or a player with a covered run of target, and for target at least 1, -1 exactly when no covered run exists |
| Game.TicTacToe.Drop | game.py:112 | the move appends the mark to the chosen column and keeps the board well formed |
| Game.TicTacToe.Move | game.py:112-116 | only the chosen column grows, by the player's mark; the mark count grows by one within capacity; the winner is the win check's result, so a real covered run or -1, and -1 only when no covered run is on the board |
| Game.TicTacToe.Turn | game.py:78-116 | one pass of the loop, equal to the reference pass Pass: the board afterwards is the board of the step returned |
| Game.TicTacToe.Start | game.py:58-123 | the result and the final board are those of the reference game Play from the coin flip, empty memories and no times, and that game ends as Concluded says |
| Game.Pass | game.py:78-92 | with no legal move the board is full and the tiebreak decides; otherwise the player after the last one is asked; a pass that goes on keeps the board well formed and adds exactly one mark |
| Game.Answered | game.py:92-110 | a raise forfeits with no time recorded; otherwise the time is recorded, and a time over a positive budget or a column that is not a legal move forfeits the turn; a pass that goes on adds exactly one mark |
| Game.Dropped | game.py:111-116 | the mark is dropped and the win check decides; a pass that goes on adds exactly one mark |
| Game.Settled | game.py:116 | a reported winner ends the game as connected; otherwise the game goes on with the mover's memory and time recorded and one more turn counted |
| Game.Play | game.py:76-116 | the reference game: passes until one ends the game, bounded by the free cells of the board |
| Game.MoverNext | game.py:86 | the player to move alternates from one call into a strategy to the next |
| Game.GrownStep | game.py:112 | one append keeps the board an append-only growth of its start with one more mark |
| Game.RecordKeepsTurns | game.py:98-104 | recording the mover's time after the other player's turn counts one more turn and keeps the alternation, unless the time is over the budget |
| Game.StartConsistent | game.py:66-71 | the state Start sets up is consistent: no move made, no time recorded, player 1 - first to move |
| Game.FullConcludes | game.py:79-83 | a full board after a consistent state ends the game by the tiebreak, as Concluded says |
| Game.RaisedConcludes | game.py:92-96 | a raise after a consistent state forfeits the mover's turn, as Concluded says |
| Game.FaultConcludes | game.py:98-109 | a time over a positive budget, or else a column that is not a legal move, forfeits the mover's turn with its time recorded, as Concluded says |
| Game.ConnectConcludes | game.py:111-116 | a legal move in time that connects ends the game, won by the player the win check reports, as Concluded says |
| Game.MoveContinues | game.py:111-116 | a legal move in time that leaves no covered run leads to the next consistent state |
| Game.NextConsistent | game.py:86-116 | the pieces of a state after one more move by the player to move make a consistent state |
| Game.PassConcludes | game.py:76-116 | a pass from a consistent state either ends the game as Concluded says, or leads to a consistent state with one more turn |
| Game.AnsweredConcludes | game.py:92-116 | the same for a pass once the player to move has answered |
| Game.DroppedConnects | game.py:111-116 | a legal move in time whose drop the win check reports ends the game as Concluded says |
| Game.SettledConnects | game.py:116 | with a winner reported the pass ends the game as connected, reporting that winner |
| Game.DroppedContinues | game.py:111-116 | a legal move in time whose drop the win check does not report leads to a consistent state with one more turn |
| Game.SettledContinues | game.py:111-116 | the same with the win check's result given: no winner and no covered run lead to the next consistent state |
| Game.NoWinnerUnconnected | game.py:116 | a board on which the win check reports no winner holds no covered run, for a target of at least 1 |
| Game.SettledGoesOn | game.py:111-116 | with no winner reported the next state has the new board, the mover as last player, its memory and time recorded and one more turn |
| Game.PlayConcludes | game.py:76-116 | by induction over the free cells: every game from a consistent state ends as Concluded says |
| Game.GameConcludes | game.py:58-123 | every game from the state Start sets up ends as Concluded says |
| Game.RaisingMoverLoses | game.py:92-96 | a first mover whose strategy raises loses at once: the other player wins, no time is recorded and the board is unchanged |
| Game.IllegalFirstMoveLoses | game.py:98-109 | a first mover that answers in time with a column that is not a legal move loses at once, with its one time recorded and the board unchanged |
| Scenarios.ReportedOnlyMark | game.py:125-220 | on a board holding only mark x, any player reported is x |
| Scenarios.CheckOnlyMark | game.py:125-220 | on a board holding only mark x and a covered run of x, the win check returns x |
| Scenarios.RowWin | game.py:154-162 | three bottom marks of player 0 across three columns are reported as a win for player 0 |
| Scenarios.ColumnWin | game.py:142-150 | three stacked marks of player 1 are reported as a win for player 1 |
| Scenarios.GapBoardHasNoVisibleRun | game.py:194-218 | a concrete 4 by 4 board has a falling run of three for player 0 that no sweep covers |
| Scenarios.GapCells | game.py:194-218 | the cells of that board and their owners |
| Scenarios.GapNoVisibleRunAt | game.py:194-218 | no covered run of three exists on that board, in any direction, for any mark |
| Scenarios.DescendingGap | game.py:194-220 | the win check returns -1 on that board although player 0 has a falling run of three |
| Selection.FirstWhere | player_test_ai.py:85-92 | the first legal move that satisfies the test, and none exactly when no legal move does |
| Selection.FirstWhereAt | player_test_ai.py:85-87 | the first index whose move satisfies the test determines the move found |
| Selection.ArgMaxFirst | player_test_ai.py:95-101 | the index of a move of highest score, and before it every move scores strictly less, so a later tie never replaces it |
| Selection.KeepBest | player_test_ai.py:97-101 | one loop step keeps the best index of the prefix: the new move replaces it only on a strictly higher score |
| Selection.Pick | player_test_ai.py:85-103 | the three-step choice is a legal move: the first winning one if any, else the first blocking one if any, else the first of highest score |
| Selection.PickTakesFirstOnTie | player_test_ai.py:95-101 | with nothing to win or block and all scores equal, the first legal move is taken |
| Windows.MaxLen | player_test_ai.py:22 | the height of the tallest column: no column is taller, and some column is that tall |
| Windows.Opponent | player_test_ai.py:7 | the opponent of player 0 is 1 and of player 1 is 0, and it is always 0 or 1 |
| Windows.Tallest | player_test_ai.py:22 | the same height, computed by recursion |
| Windows.Place | player_test_ai.py:12 | a probed move appends the mark to its column and changes no other column |
| Windows.StretchIsRun | player_test_ai.py:24 | the recursive window test holds exactly when the t cells from q in direction d are owned by p |
| Windows.IsWinning | player_test_ai.py:17-46 | the four scans of the test AI's win check, with the start ranges of the code: rows below the tallest column, every column, rising and falling diagonals; the adaptive AI uses the same check (player_ai_new.py:22-49); its meaning is proved in Windows.IsWinningIffRun |
| Windows.RunEnds | player_test_ai.py:24 | the first and last cells of a run hold marks |
| Windows.IsWinningIffRun | player_test_ai.py:17-46 | the four scans report a win exactly when some run of target exists in a row, a column, or a rising or falling diagonal |
| Windows.RunIsWindow | player_test_ai.py:17-46 | every run of target is inside the start ranges of the scans |
| Windows.WindowIsRun | player_test_ai.py:17-46 | every window the scans find is a run of target |
| Windows.RowCountPositive | player_test_ai.py:57-60 | the count along one row is positive exactly when some start in that row holds a window |
| Windows.RowsCountPositive | player_test_ai.py:57-60 | the count over a range of rows is positive exactly when a window starts in it |
| Windows.ColumnCountPositive | player_test_ai.py:63-67 | the count up one column is positive exactly when a window starts in it |
| Windows.ColumnsCountPositive | player_test_ai.py:63-67 | the vertical count over the columns is positive exactly when some column holds a window |
| Windows.RowWindowsPositive | player_test_ai.py:56-79 | the windows counted over a row range are positive exactly when a window starts there |
| Windows.ColumnWindowsPositive | player_test_ai.py:62-67 | the vertical windows counted are positive exactly when some column holds one |
| Windows.ScansPositive | player_test_ai.py:56-79 | the sum of the four scan counts is positive exactly when one of the four scans finds a window |
| Windows.WindowCount | player_test_ai.py:48-82 | the test AI's heuristic: the windows of target owned by the player, counted over the four scans with the ranges of the code; its meaning is proved in Windows.WindowCountPositive |
| Windows.WindowCountPositive | player_test_ai.py:48-82 | the window count is positive exactly when the board is winning for the player |
| Windows.Probe | player_test_ai.py:10-15 | probing a move in place reports whether the move wins and leaves the board as it was |
| Windows.FirstWinningMove | player_test_ai.py:85-92 | the first legal move that wins for the player, found by probing, with the board unchanged |
| Windows.CountRows | player_test_ai.py:56-60 | the horizontal or diagonal window count over a row range, computed by loops over rows and starts |
| Windows.CountColumns | player_test_ai.py:62-67 | the vertical window count, computed by loops over columns and starts |
| Windows.Score | player_test_ai.py:53-82 | the number of windows of target owned by the player in all four scans |
| TestAi.Target | player_test_ai.py:8 | the target is the stored "n_target" of a memory that holds one, and 3 otherwise |
| TestAi.MoveScorePositive | player_test_ai.py:48-82 | a move's heuristic is positive exactly when the move wins |
| TestAi.HeuristicStepTakesFirst | player_test_ai.py:84-103 | with no winning move for either player, the first legal move is chosen |
| TestAi.HeuristicScore | player_test_ai.py:48-82 | the heuristic of a move, probed in place, with the board restored |
| TestAi.BestMove | player_test_ai.py:95-101 | the first move of highest heuristic, with the board restored |
| TestAi.Play | player_test_ai.py:4-103 | the move is the three-step choice with the target from memory, the memory comes back as given, the board is unchanged, and no legal move raises |
| AiNew.StartMemory | player_ai_new.py:8-10 | no memory gives a fresh one holding target 3; a memory without the target key fails the lookup; otherwise the memory is used as given |
| AiNew.Streak | player_ai_new.py:117-122 | the streak from a cell within a limit is a run of the player's mark, stopped by the limit or by a cell it does not own |
| AiNew.Limit | player_ai_new.py:117-150 | how far each inner loop of the streak count looks; every cell it looks at lies within the columns, at row 0 or above |
| AiNew.RunAtStep | player_ai_new.py:119-120 | an owned cell followed by a run of k is a run of k + 1 |
| AiNew.SetMax | player_ai_new.py:123 | the maximum of a set of streaks bounds every element and is one of them |
| AiNew.SetMaxIs | player_ai_new.py:123 | a bound that is attained, or 0, is the maximum |
| AiNew.StreakIs | player_ai_new.py:117-122 | any run stopped by the limit or by an unowned cell is the streak |
| AiNew.Consecutive | player_ai_new.py:117-122 | the inner loop counts the streak from a cell |
| AiNew.StreakAt | player_ai_new.py:116-123 | the streak counted at one cell of a sweep |
| AiNew.SweepLongest | player_ai_new.py:114-155 | a sweep over all rows and columns leaves the longest streak seen in that direction |
| AiNew.KeepLongest | player_ai_new.py:123 | taking the maximum with one more streak keeps the maximum of the streaks seen so far |
| AiNew.RowDone | player_ai_new.py:115-116 | the maximum over a finished row is the maximum up to the start of the next row |
| AiNew.ColumnLongest | player_ai_new.py:125-133 | the vertical pass leaves the longest streak from the bottom of any column |
| AiNew.LongestStreak | player_ai_new.py:112-155 | the four passes leave the longest streak of the player in any direction |
| AiNew.ChainMax | player_ai_new.py:112-155 | the running maximum over the four passes is the maximum of their union |
| AiNew.SweepSet | player_ai_new.py:114-155 | the result of a sweep is the maximum of that sweep's set of streaks |
| AiNew.ColumnSet | player_ai_new.py:125-133 | the result of the vertical pass is the maximum of its set of streaks |
| AiNew.InSweep | player_ai_new.py:114-155 | every cell's streak is among those a sweep takes the maximum of |
| AiNew.NarrowSweep | player_ai_new.py:114-155 | on a one-column board no horizontal or diagonal streak exceeds one |
| AiNew.NarrowColumn | player_ai_new.py:125-133 | on a one-column board whose bottom cell is not the player's, every vertical streak is zero |
| AiNew.ColumnBottomOnly | player_ai_new.py:125-133 | a column whose run of three sits above a different bottom mark gives a longest streak of one, since the vertical pass counts only from the bottom |
| AiNew.OneColumnLongest | player_ai_new.py:112-155 | a one-column board without the player's mark at the bottom has longest streak at most one |
| AiNew.Adjusted | player_ai_new.py:157-162 | the target rises by one when the longest streak reaches it, stays when the streak is one short, and otherwise drops to the streak plus one but never below 3 |
| AiNew.SearchScore | player_ai_new.py:182-184 | the search score of a move, probed in place, with the board restored |
| AiNew.BestSearchMove | player_ai_new.py:178-187 | the first move of highest search score, with the board restored |
| AiNew.FinalCheckNeverWins | player_ai_new.py:189-193 | the move chosen after no legal move won does not win either, so the final target bump never happens |
| AiNew.Play | player_ai_new.py:4-195 | a missing target key or no legal move raises; otherwise the move is the three-step choice with the adjusted target, and the memory comes back with the adjusted target stored |
| Ai.Opponent | player_ai.py:12-15 | the opponent mark is 2 for player 1 and 1 otherwise; it is never the player's own mark |
| Ai.IsWinning | player_ai.py:23-37 | the heuristic AI's win check: a row below the width filled by the player across the whole board, or a column whose top width marks are the player's; its meaning is proved in Ai.IsWinningIsRun |
| Ai.IsWinningIsRun | player_ai.py:23-37 | a reported win is a full-width run in a row below the width, or a run of width length at the top of a column |
| Ai.RowRunWins | player_ai.py:27-30 | a full-width run in a row below the width is reported |
| Ai.BuriedColumnMissed | player_ai.py:33-35 | on a concrete two-column board, a vertical run of player 1 that a later mark of player 0 covers is not reported |
| Ai.HighRowMissed | player_ai.py:27-30 | on a concrete two-column board, a row 2 filled by player 1 is not reported, because rows at or above the board width are not checked |
| Ai.DiagonalMissed | player_ai.py:23-37 | on a concrete two-column board, a rising pair of player 1 marks is not reported, because diagonals are not checked |
| Ai.PlayerOneNeverBlocks | player_ai.py:12-15 | player 1's opponent mark is 2, which never appears on a board of players 0 and 1, so on a board of two or more columns player 1's blocking step never finds a move |
| Ai.RunBeforeIsRun | player_ai.py:55-64 | the horizontal counter at a column is the run of owned cells ending just before it, stopped by an unowned cell |
| Ai.ColumnScoreTens | player_ai.py:48-51 | the vertical score is a multiple of ten |
| Ai.RowScoreFives | player_ai.py:56-64 | the score of one row is a multiple of five |
| Ai.RowsScoreFives | player_ai.py:54-64 | the horizontal score is a multiple of five |
| Ai.Evaluation | player_ai.py:39-66 | the heuristic of a move: the vertical score of the played column plus the horizontal score of the rows, on the board with the move made; its properties are proved in Ai.EvaluationFives and the score lemmas |
| Ai.EvaluationFives | player_ai.py:39-66 | every heuristic evaluation is a multiple of five |
| Ai.ColumnScorePositive | player_ai.py:48-51 | the vertical score is positive exactly when the column has three marks and either its bottom is the player's or three of the player's marks stand in a row |
| Ai.PairScores | player_ai.py:59-60 | two adjacent owned cells in a row earn points |
| Ai.BonusPair | player_ai.py:59-62 | a bonus means the two cells before the current one are owned |
| Ai.RowScoreGrows | player_ai.py:56-64 | the row score never falls as more columns are scanned |
| Ai.RowScorePositive | player_ai.py:56-64 | a row scores above zero exactly when two adjacent cells in it are the player's |
| Ai.ScoreColumn | player_ai.py:48-51 | the vertical loop computes the vertical score |
| Ai.ScoreRow | player_ai.py:55-64 | the counter loop over one row computes that row's score |
| Ai.EvaluatePosition | player_ai.py:39-66 | the heuristic of a move, on a copy of the board with the move made |
| Ai.PlayerOneWinsOrScores | player_ai.py:68-87 | for player 1 on a board of two or more columns of players 0 and 1 with no winning move, the choice is the first move of highest heuristic |
| Ai.FirstWinningMove | player_ai.py:69-76 | the first legal move that wins for the given mark |
| Ai.BestMove | player_ai.py:79-85 | no move without legal moves; otherwise the first move of highest heuristic |
| Ai.Play | player_ai.py:9-87 | the move is the three-step choice, none without legal moves, and the memory comes back as given |

## Left out

- Printing is not modelled: the board picture, the turn messages and the summary lines.
- The constructor's default arguments (5 rows, 5 columns, target 5 and no time budget, game.py:23) are not modelled; `Game.TicTacToe.constructor` takes all four values.
- `import_players` and the command-line entry point of game.py are left out. They load modules and parse arguments, which is file-system and process work.
- The human and random players are not part of this model.
- `random.randint` in `start` becomes the parameter `first`. The starting player is `1 - first`, which is what `(player + 1) % 2` gives on 0 and 1.
- `random.choice` in the test AI's and the adaptive AI's last step becomes a nondeterministic pick of a legal move. That pick is always overwritten, because every score beats the starting best score.
- `time.time()` becomes the parameter `elapsed`, a function from the turn index to a whole number of time units. The time budget is a whole number too; floating-point seconds are not modelled.
- The means on a full board are compared by cross-multiplying sums and counts instead of with floating-point division. `Game.CrossMultiply` shows the two agree for exact reals; rounding is not modelled.
- `copy.deepcopy` of the board and the legal moves: a strategy gets the columns and the moves as values.
- Game.TicTacToe.Turn and Game.TicTacToe.Start: a player callback is a total function from board, moves, index and memory to a move and memory, or a raise. Callback side effects other than the returned memory are not modelled.
- The adaptive AI's `minimax`, with its own `heuristic_score`, becomes an opaque scoring function `scorer` of the probed board. Its internals are not modelled: the depth-3 alpha-beta recursion, its in-place probes, and its use of the outer legal-move list at every depth.
- The adaptive AI appends its target to `n_target.txt`. That file write is not modelled.
- AiNew.Play: the memory dictionary is updated in place in the source, so the caller's dictionary changes too. The model returns the new memory as a value.
- AiNew.StartMemory: a memory without the target key raises `KeyError` in the source. The model returns a raise at that point and does not model any earlier mutation.
- Ai.BestMove: the starting best score of minus infinity is modelled as -1. That is below every score, because the scores are natural numbers.
- All three players: the player index and the marks are whole numbers; no type checks are modelled.
