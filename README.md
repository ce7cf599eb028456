# Minesweeper game, automatic player helpers and simple solver, in Dafny

This project models a terminal Minesweeper game together with the helpers of an
automatic player and a simple rule-based solver, and proves properties of the
model.

- **`Grid`** (`grid.dfy`) holds what all three parts share. It defines the board
  (`rows` lists of `cols` one-character strings) and its bounds-checked lookup
  `safeGet`. It also lists the eight neighbour coordinates in the game's order,
  plus a few counting facts about sets and lists.
- **`Minesweeper`** (`minesweeper.dfy`) is the game.
  - Its free functions count neighbouring mines, list unrevealed neighbours,
    test for a win and check a player's selection.
  - The class `Minesweeper` holds the game state and updates it in place:
    `inProgress`, `seen`, `mines`, `mineLocations` and `board`. Its methods are
    `Reset`, `RevealMinesInBoard` and `RevealSquare`.
  - The flood fill of `revealSquare` is a loop (`FloodFill`). It works in rounds:
    each round reveals every queued square, then queues the unrevealed neighbours
    of the squares that came out blank.
  - The flood fill is proved to reveal exactly the least set that contains the
    chosen square and that the flood rule cannot leave. It also writes each
    revealed square's true count and adds the number of revealed squares to `seen`.
- **`MinesweeperAI`** (`minesweeper_ai.dfy`) holds the helpers of the automatic
  player:
  - the square classifiers (`isMine`, `isUnknown`, `isNum`, `isSafe`) and
    `distance`;
  - the condition combinators (`seenFn`, `notCondFn`, `composeCond`) and `asCount`;
  - `getSurroundingSquares`;
  - the postcondition of `getRandomConfig`.

  The board lookup is a parameter of `getSurroundingSquares`. The plain player
  reads the game board, while the solver reads it through its own marks.
- **`MinesweeperSolver`** (`minesweeper_solver.dfy`) is the solver.
  - It keeps the squares it knows to be mines and the unrevealed squares it knows
    to be safe, and reads the board through those marks.
  - From every numbered square it applies two rules. The mine rule: if the
    unknown neighbours are exactly as many as the missing mines, they are all
    mines. The safe rule: otherwise, if every neighbouring mine is known, the
    unknown neighbours are all safe.
  - One step is the function `Step`. A pass over the numbered squares is `Pass`,
    in which later squares see the marks earlier ones made.
  - These are proved sound against the true mine locations whenever the board
    shows true counts. Both rules mark only true mines or only mine-free squares.
    The marks stay disjoint and on unrevealed neighbours.
  - The class `MinesweeperSolver` holds the marks and the last move. Its methods
    are `ResetSolverState`, `NextGame`, `MarkSafeAndMines`, `AnalyzeBoard` and
    `MakeMove`.

Mine placement, the random moves and the random game sizes come from a random
number generator, so the model takes them as parameters:
- the mine locations are passed to `Reset` and to the constructors;
- the fallback move is passed to `MakeMove`;
- the sequence of `randint` draws is passed to `GetRandomConfig`.

Several calls in the solver do not match the signatures they call (listed under
"## Left out"). Where they disagree, the model follows the evident intent.
The one mismatch that silently changes the solver's behaviour is under "## Findings".

## Model

| member | source | states |
|---|---|---|
| Grid.SafeGet | minesweeper.py:89-96 | `None` exactly off the board; on the board, the stored character |
| Grid.Filled | minesweeper.py:170 | the new board has the given dimensions and every square shows the given character |
| Grid.Write | minesweeper.py:223-225 | writing one square keeps the dimensions and changes that square only |
| Grid.Adjacent | minesweeper.py:84-85 | eight neighbour coordinates, in the game's order |
| Grid.AdjacentAreTouching | minesweeper.py:102-103 | the eight coordinates are distinct and are exactly the squares touching the centre |
| Grid.RectSize | minesweeper.py:201 | a board has rows * cols squares, the total the win test starts from |
| Grid.DigitValue | minesweeper_solver.py:55 | `int` of a digit character is a number from 0 to 9 |
| Minesweeper.CountMines | minesweeper.py:80-87 | the mine count of a square is at most 8 |
| Minesweeper.CountMinesSpec | minesweeper.py:80-87 | the count equals the number of mines touching the square, and it is zero exactly when no touching square holds a mine |
| Minesweeper.CellChar | minesweeper.py:222-225 | a revealed square shows ' ' exactly for count 0, otherwise the digit whose value is the count; it never shows '?', '*' or 'S' |
| Minesweeper.UnknownAmong | minesweeper.py:105 | keeps exactly the listed squares the board shows as '?' |
| Minesweeper.AdjacentSquares | minesweeper.py:98-105 | yields exactly the on-board squares touching the given one that are still unrevealed |
| Minesweeper.RowAndColInBounds | minesweeper.py:38-47 | true exactly when the one-based row and column address a square of the board |
| Minesweeper.NeverChosen | minesweeper.py:49-53 | true only for an on-board square, and exactly when that square is unrevealed |
| Minesweeper.ValidSquareRowCol | minesweeper.py:55-59 | a selection is valid exactly when it is on the board and unrevealed |
| Minesweeper.IsWon | minesweeper.py:200-204 | the game is won exactly when the revealed squares and the mines together make up the whole board |
| Minesweeper.WonIffSafeSquaresUncovered | minesweeper.py:200-204 | when `seen` counts the revealed mine-free squares, `isWon` holds exactly when every mine-free square is revealed |
| Minesweeper.NextSquares | minesweeper.py:227-232 | the next queue holds every unrevealed neighbour of a blank square of this round, and nothing else |
| Minesweeper.RevealRound | minesweeper.py:219-225 | each queued square shows its count, the rest of the board is unchanged, and `seen` grows by the number of queued squares |
| Minesweeper.FloodStart | minesweeper.py:216 | the flood invariant holds when only the chosen square is queued |
| Minesweeper.FloodStep | minesweeper.py:218-232 | one round keeps the flood invariant: revealed squares show true counts, closure so far, minimality |
| Minesweeper.FloodDone | minesweeper.py:218 | an empty queue means the revealed squares form the flood region and show their counts |
| Minesweeper.FloodFill | minesweeper.py:216-232 | the revealed set is the least set that holds the start and that the flood rule cannot leave; it holds no mine and otherwise only unrevealed squares; each of its squares shows its count and every other square is unchanged; `seen` grows by its size |
| Minesweeper.ShowMinesAfterFlood | minesweeper.py:234-238 | after the flood fill, showing the mines only when the game is won gives the outcome of `revealSquare` |
| Minesweeper.RevealKeepsCount | minesweeper.py:216-225 | revealing from an unrevealed square adds exactly the revealed squares to the revealed mine-free squares |
| Minesweeper.RevealKeepsConsistent | minesweeper.py:206-238 | a reveal that does not end the game keeps every revealed square mine-free and showing its true count |
| Minesweeper.BlankHasNoUnknownNeighbour | minesweeper.py:222-232 | after a reveal, no blank square the reveal uncovered touches an unrevealed square |
| Minesweeper.Minesweeper.constructor | minesweeper.py:174-179 | a game set up without prompts is the reset game |
| Minesweeper.Minesweeper.Reset | minesweeper.py:162-172 | game in progress, nothing seen, every square '?', the configured mines and their locations; the counting and truthfulness invariants hold |
| Minesweeper.Minesweeper.RevealMinesInBoard | minesweeper.py:30-36 | the game ends; every mine shows '*', every other square is unchanged, `seen` and the mines are unchanged |
| Minesweeper.Minesweeper.RevealSquare | minesweeper.py:206-238 | on a mine: the game is lost and the mines are shown. Otherwise: the flood-fill outcome, `seen` grows by the revealed count, the mines are shown exactly when the game is won, the game stays in progress exactly when it was and is not won; `seen` keeps counting the revealed mine-free squares when the chosen square was unrevealed |
| MinesweeperAI.IsMine | minesweeper_ai.py:23-25 | a square shown as a mine is neither unrevealed nor a number |
| MinesweeperAI.IsUnknown | minesweeper_ai.py:27-29 | an unrevealed square is not a number |
| MinesweeperAI.IsNum | minesweeper_ai.py:31-33 | a numbered square is not a mine, not unrevealed, not blank and not marked safe |
| MinesweeperAI.IsSafe | minesweeper_ai.py:35-37 | a safe square is neither a mine, nor unknown, nor a number |
| MinesweeperAI.IsSafeAsWritten | minesweeper_ai.py:35-37 | the written `isSafe` raises on every call |
| MinesweeperAI.IsSafeAsWrittenFailsOnBlank | minesweeper_ai.py:35-37 | on a blank square the intended answer is true and the written one is not returned |
| MinesweeperAI.Distance | minesweeper_ai.py:43-45 | the distance is at least each coordinate difference and equals one of them |
| MinesweeperAI.DistanceIsSymmetric | minesweeper_ai.py:43-45 | the distance is symmetric and is zero exactly between equal squares |
| MinesweeperAI.DistanceTriangle | minesweeper_ai.py:43-45 | the distance obeys the triangle inequality |
| MinesweeperAI.TouchingIsDistanceOne | minesweeper_ai.py:43-45 | two squares touch exactly when their distance is one |
| MinesweeperAI.AsCount | minesweeper_ai.py:55-57 | counting the generated elements one by one gives their number |
| MinesweeperAI.SeenFn | minesweeper_ai.py:59-61 | the condition holds exactly for positions in `seen` |
| MinesweeperAI.NotCondFn | minesweeper_ai.py:63-65 | the condition holds exactly where the given one fails |
| MinesweeperAI.ComposeCond | minesweeper_ai.py:67-69 | the condition holds exactly where both given ones hold |
| MinesweeperAI.WindowHoldsNeighbours | minesweeper_ai.py:223-224 | the 3 x 3 block holds the centre and exactly the touching squares, each once |
| MinesweeperAI.Collect | minesweeper_ai.py:222-227 | every collected square is a non-centre block square on the board with its value, meeting the condition; every such square is collected |
| MinesweeperAI.CollectDistinct | minesweeper_ai.py:222-227 | no position is collected twice |
| MinesweeperAI.GetSurroundingSquares | minesweeper_ai.py:215-227 | at most eight squares; each touches the centre, is on the board with its value and meets the condition; every such square is listed; no position twice |
| MinesweeperAI.SurroundingCount | minesweeper_ai.py:215-227 | counting the surrounding squares gives the number of qualifying neighbours |
| MinesweeperAI.AroundSplits | minesweeper_ai.py:63-65 | the neighbours meeting a condition and those failing it partition the on-board neighbours |
| MinesweeperAI.NotCondSplits | minesweeper_ai.py:63-65 | the counts under a condition and under its negation add up to the count of all surrounding squares |
| MinesweeperAI.ComposeCondIntersects | minesweeper_ai.py:67-69 | filtering by a composed condition keeps exactly the squares both filters keep |
| MinesweeperAI.SeenFnSelects | minesweeper_ai.py:59-61 | filtering by `seenFn(seen)` keeps exactly the on-board touching squares in `seen` |
| MinesweeperAI.GetRandomConfig | minesweeper_ai.py:126-136 | a returned configuration has 1..100 rows and columns, more than one square, and between 1 and rows*cols - 1 mines; it is one of the draws; none is returned only when every draw has a single square |
| MinesweeperSolver.OverlayGet | minesweeper_solver.py:35-41 | the solver reads '*' exactly on known mines (or on a shown unmarked mine), reads '?' or a digit exactly where an unmarked square shows it, and reads nothing only off the board and unmarked |
| MinesweeperSolver.OverlayClasses | minesweeper_ai.py:23-37 | with sound marks every square the solver reads is a mine, unknown, a number or safe: a mine is a known mine, an unknown is unmarked and unrevealed, a number is the true count of a mine-free square, and a safe square holds no mine |
| MinesweeperSolver.PositionsWith | minesweeper_solver.py:57-58 | lists exactly the positions of the surrounding squares showing the character |
| MinesweeperSolver.PositionsWithDistinct | minesweeper_solver.py:57-58 | no position is listed twice |
| MinesweeperSolver.ListedAreAround | minesweeper_solver.py:56-58 | every listed position is a neighbour showing the character |
| MinesweeperSolver.AroundAreListed | minesweeper_solver.py:56-58 | every neighbour showing the character is listed |
| MinesweeperSolver.PositionsWithCount | minesweeper_solver.py:56-59 | the lists `unknowns` and `mines` hold each neighbour showing '?' or '*' once, so their lengths are the numbers of such neighbours |
| MinesweeperSolver.Step | minesweeper_solver.py:54-69 | a step only adds marks, and adds to at most one of the two sets |
| MinesweeperSolver.StepRules | minesweeper_solver.py:59-69 | the mine rule and the safe rule on the sets of unknown and known-mine neighbours |
| MinesweeperSolver.StepMarksOnlyUnknowns | minesweeper_solver.py:61-67 | a step marks only neighbours the solver reads as unknown |
| MinesweeperSolver.UnknownsAreUnrevealedNeighbours | minesweeper_solver.py:57 | an unknown neighbour touches the square and is unmarked and unrevealed |
| MinesweeperSolver.StepMarksUnknownNeighbours | minesweeper_solver.py:56-69 | every new mark is an unmarked, unrevealed square touching the numbered square |
| MinesweeperSolver.NumberIsTrueCount | minesweeper_solver.py:55 | on a truthful board a number the solver reads is the true count of neighbouring mines, on a mine-free square |
| MinesweeperSolver.KnownMinesAreMines | minesweeper_solver.py:58 | with sound marks, the neighbours read as mines are true mines |
| MinesweeperSolver.MinesAreKnownOrUnknown | minesweeper_solver.py:56-58 | with sound marks, every neighbouring mine is read either as a mine or as unknown |
| MinesweeperSolver.MineRuleSets | minesweeper_solver.py:59-62 | if the unknowns are exactly as many as the missing mines, every unknown is a mine |
| MinesweeperSolver.SafeRuleSets | minesweeper_solver.py:65-67 | if every mine is known, no unknown is a mine |
| MinesweeperSolver.StepSound | minesweeper_solver.py:54-69 | from sound marks on a truthful board, a step marks only true mines as mines and only mine-free squares as safe |
| MinesweeperSolver.StepKeepsApart | minesweeper_solver.py:61-67 | a step never marks a square both a mine and safe |
| MinesweeperSolver.StepKeepsNumbered | minesweeper_solver.py:54-55 | a square read as a number still reads as one after a step, so the list computed at the start of the pass stays valid |
| MinesweeperSolver.Pass | minesweeper_solver.py:54-69 | a pass only adds marks and keeps numbered squares numbered |
| MinesweeperSolver.PassExtends | minesweeper_solver.py:54-55 | the pass over one more square is one more step, from a square still read as a number |
| MinesweeperSolver.PassSound | minesweeper_solver.py:54-69 | a pass from sound marks gives sound marks |
| MinesweeperSolver.PassKeepsApart | minesweeper_solver.py:54-69 | a pass keeps known mines and known safe squares disjoint |
| MinesweeperSolver.PassMarksUnknownNeighbours | minesweeper_solver.py:54-69 | every mark a pass adds was unmarked and unrevealed when the pass began, and touches a numbered square it visited |
| MinesweeperSolver.PassOnBoard | minesweeper_solver.py:54-69 | after a pass the marks are on the board and disjoint, new marks are unrevealed squares, and sound marks stay sound |
| MinesweeperSolver.ApplyRules | minesweeper_solver.py:54-69 | the loop over the numbered squares computes the pass |
| MinesweeperSolver.RowNumbered | minesweeper_solver.py:47-52 | lists exactly the squares of the row, from the given column on, that the solver reads as digits |
| MinesweeperSolver.NumberedFrom | minesweeper_solver.py:47-52 | lists exactly the squares of the given row and below that the solver reads as digits |
| MinesweeperSolver.NumberedSquares | minesweeper_solver.py:47-52 | lists exactly the squares the solver reads as digits |
| MinesweeperSolver.Item | minesweeper_solver.py:57-58 | items 0 and 1 of a surrounding-square triple are numbers, item 2 is the value |
| MinesweeperSolver.ItemsAsWritten | minesweeper_solver.py:57-58 | the written list is no longer than the surrounding squares |
| MinesweeperSolver.ItemsAsWrittenEmpty | minesweeper_solver.py:57-58 | the written comparison never holds, so the list is always empty |
| MinesweeperSolver.StepAsWritten | minesweeper_solver.py:54-69 | the written step adds to at most one of the two sets |
| MinesweeperSolver.StepAsWrittenMarksNothing | minesweeper_solver.py:54-69 | the written step never marks anything |
| MinesweeperSolver.OneRowBoard | minesweeper_solver.py:51-58 | the example board "1?" |
| MinesweeperSolver.OneRowBoardConsistent | minesweeper.py:80-87 | "1?" with its mine at (0, 1) shows true counts |
| MinesweeperSolver.OneRowBoardNeighbours | minesweeper_solver.py:56-58 | around (0, 0) of "1?" the solver reads one unknown and no mine |
| MinesweeperSolver.StepAsWrittenMissesForcedMine | minesweeper_solver.py:57-62 | on "1?" with its mine at (0, 1), the rules mark (0, 1) a mine and the written step marks nothing |
| MinesweeperSolver.MinesweeperSolver.constructor | minesweeper_solver.py:9-11 | a new solver has a fresh reset game, no marks and no last move; its marks are sound |
| MinesweeperSolver.MinesweeperSolver.ResetSolverState | minesweeper_solver.py:13-24 | no marks and no last move; the marks are then sound on any truthful board |
| MinesweeperSolver.MinesweeperSolver.NextGame | minesweeper_solver.py:29-31 | no marks, no last move, and a reset game |
| MinesweeperSolver.MinesweeperSolver.MarkSafeAndMines | minesweeper_solver.py:46-69 | the new marks are the pass over the squares read as numbers at the start; they are on the board, disjoint and unrevealed, and sound marks stay sound |
| MinesweeperSolver.MinesweeperSolver.AnalyzeBoard | minesweeper_solver.py:71-77 | drops the revealed squares from the safe set, then makes a pass; afterwards every known safe square is still unrevealed, and sound marks stay sound |
| MinesweeperSolver.MinesweeperSolver.MakeMove | minesweeper_solver.py:79-87 | with known safe squares, one is removed and revealed as `revealSquare` does: a mine ends the game and shows every mine; otherwise the flood region is revealed, `seen` grows by its size and the game goes on unless it is won. Under sound marks the square holds no mine and ends up showing its count. Without any, the fallback move is returned and the game is untouched. The last move is recorded, and sound marks stay sound while the game goes on |

## Left out

- Console input and output are not modelled:
  - `printBoard`, `getValidSelection`, `getGameConfig`, `startGame`, the `__main__` entry and every `print`;
  - the message strings file.
- Random choices are parameters, not modelled:
  - `placeMines` becomes the `mineLocations` argument: a set of `mines` distinct squares of the board, which is what the loop produces;
  - `determineMove` becomes the `guess` argument of `MakeMove`;
  - the `randint` calls of `getRandomConfig` become a list of draws.
- `playGame` and `playGames` are not modelled. They are driver loops whose work is timing, printing and tallying wins.
- Not modelled: `justPosition`, `asIs`, `asSet`, and the `transformSqFn`/`transformGenFn` parameters of `getSurroundingSquares`. Every caller uses the defaults, which yield `(row, col, value)` triples in a list.
- Interface mismatches, where the model follows the evident intent:
  - The solver overrides `safeGet` with one tuple argument, but `getSurroundingSquares` calls `self.safeGet(i, j)` with two. `analyzeBoard` passes one tuple to the base `safeGet(row, col)`.
  - `super().makeMove()` names no method.
  - `MinesweeperAI.__init__` passes the configuration tuple positionally to a constructor that accepts only keywords.
  - `playGame` calls `revealSquare` with an extra argument.
  - `MinesweeperAI.nextGame` (minesweeper_ai.py:78) passes the configuration as one tuple to `reset(rows, cols, mines)` (minesweeper.py:162), which takes three arguments. `NextGame` passes the three values.
  - The solver's `safeGet` falls back to the base `safeGet(row, col)` with one tuple argument (minesweeper_solver.py:41). `OverlayGet` falls back to the board's `SafeGet` at that square.
- MinesweeperAI.GetRandomConfig: weaker than the source. The source redraws without bound until the board has more than one square. The model walks a finite list of draws and returns `None` when the list runs out.
- MinesweeperSolver.MinesweeperSolver.MarkSafeAndMines: the rule loop runs on values (`ApplyRules`), and the marks are assigned once at the end. The partly updated marks between two squares are visible to no caller.
- MinesweeperSolver.MinesweeperSolver.MakeMove: the square `set.pop` removes is left unspecified, because Python fixes no order.
- MinesweeperSolver.MinesweeperSolver.MakeMove: the fallback move is returned and recorded, but not played on the game. The source takes it from `super().makeMove()`, which names no method, so no reveal of it is there to model.
- Minesweeper.Minesweeper.RevealSquare: revealing an already revealed square counts it in `seen` again, as the source does. The invariant that `seen` counts the revealed mine-free squares is therefore promised only when the chosen square was unrevealed.
- Minesweeper.FloodFill visits each round's squares in an unspecified order. The source iterates a Python set, whose order is also unspecified. The result does not depend on the order.
- Grid.IsDigit accepts the ASCII digits only. `str.isdigit` also accepts other Unicode digits, but the board never holds any.
- Solver soundness needs the board to show true counts. The game stops doing that once it ends and shows its mines as '*'. The soundness results therefore apply while the game is in progress.

## Findings

| source | as written | input that shows it | evidently intended | confidence | as-written member | corrected member |
|---|---|---|---|---|---|---|
| minesweeper_ai.py:35-37 | `isSafe` reads a variable `v` that is not defined, so every call raises `NameError` | `isSafe(0, 0, ' ')` | test the `value` parameter: `value in (' ', 'S')` | not executed | MinesweeperAI.IsSafeAsWritten | MinesweeperAI.IsSafe |
| minesweeper_solver.py:57-58 | `sq[1] == '?'` and `sq[1] == '*'` compare the column number of a `(row, col, value)` triple with a string, so `unknowns` and `mines` are always empty and the solver never marks a square | the one-row board "1?" with its mine at (0, 1): square (0, 0) shows 1 and its only unknown neighbour must be the mine | collect the position `(sq[0], sq[1])` of each square whose value `sq[2]` is '?' or '*'; the corrected step is proved sound by `MinesweeperSolver.StepSound` | not executed | MinesweeperSolver.StepAsWrittenMissesForcedMine | MinesweeperSolver.Step |
