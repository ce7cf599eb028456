/**
 The game itself: a board of unrevealed squares ('?'), a fixed set of mine
 locations, and the reveal operation with its flood fill over squares that
 have no neighbouring mine. Revealed squares show ' ' (no neighbouring mine)
 or the digit of the neighbouring mine count; when the game ends every mine
 is shown as '*'.
 */
module Minesweeper {
  import opened Grid

  /** How many of the squares listed in `s` are in `m`. */
  function CountIn(s: seq<Pos>, m: set<Pos>): (n: nat)
    ensures n <= |s|
  {
    if s == [] then 0 else (if s[0] in m then 1 else 0) + CountIn(s[1..], m)
  }

  lemma {:induction false} CountInSize(s: seq<Pos>, m: set<Pos>)
    requires Distinct(s)
    ensures CountIn(s, m) == |set q | q in s && q in m|
  {
    if s != [] {
      CountInSize(s[1..], m);
      var here, rest := set q | q in s && q in m, set q | q in s[1..] && q in m;
      if s[0] in m {
        assert here == {s[0]} + rest;
        assert s[0] !in rest;
      } else {
        assert here == rest;
      }
    }
  }

  /** The mines among the eight neighbour coordinates of `rowCol`. */
  function MinesAround(mineLocations: set<Pos>, rowCol: Pos): set<Pos>
  {
    set q | q in Adjacent(rowCol) && q in mineLocations
  }

  /** The number of mines among the eight neighbour coordinates of `rowCol`. */
  function CountMines(mineLocations: set<Pos>, rowCol: Pos): (n: nat)
    ensures n <= 8
  {
    CountIn(Adjacent(rowCol), mineLocations)
  }

  /** The count is the number of neighbouring mines; it is zero exactly when no
      touching square holds a mine. */
  lemma CountMinesSpec(mineLocations: set<Pos>, rowCol: Pos)
    ensures CountMines(mineLocations, rowCol) == |MinesAround(mineLocations, rowCol)|
    ensures CountMines(mineLocations, rowCol) == 0 <==> forall q :: Touching(rowCol, q) ==> q !in mineLocations
  {
    AdjacentAreTouching(rowCol);
    CountInSize(Adjacent(rowCol), mineLocations);
    var n := CountMines(mineLocations, rowCol);
    assert n == 0 ==> MinesAround(mineLocations, rowCol) == {};
    assert forall q :: Touching(rowCol, q) && q in mineLocations ==> q in MinesAround(mineLocations, rowCol);
  }

  /** What a revealed square shows: ' ' for no neighbouring mine, else the count as a digit. */
  function CellChar(count: nat): (ch: char)
    requires count <= 8
    ensures ch != '?' && ch != '*' && ch != 'S'
    ensures ch == ' ' <==> count == 0
    ensures count > 0 ==> IsDigit(ch) && DigitValue(ch) == count
    ensures count == 0 ==> !IsDigit(ch)
  {
    if count == 0 then ' ' else ('0' as int + count) as char
  }

  /** The squares of `s` that the board shows as unrevealed, in order. */
  function UnknownAmong(b: Board, s: seq<Pos>): (r: seq<Pos>)
    ensures forall q :: q in r <==> q in s && SafeGet(b, q) == Some('?')
  {
    if s == [] then []
    else (if SafeGet(b, s[0]) == Some('?') then [s[0]] else []) + UnknownAmong(b, s[1..])
  }

  /** The on-board neighbours of `square` that are still unrevealed. */
  function AdjacentSquares(b: Board, square: Pos): (r: seq<Pos>)
    ensures forall q :: q in r <==> Touching(square, q) && InBounds(b, q) && SafeGet(b, q) == Some('?')
  {
    AdjacentAreTouching(square);
    UnknownAmong(b, Adjacent(square))
  }

  /** Won once the revealed squares and the mines together make up the whole board. */
  function IsWon(b: Board, mines: int, seen: int): (won: bool)
    ensures won <==> seen + mines == b.rows * b.cols
  {
    var nonMineSquareCount := b.rows * b.cols - mines;
    seen == nonMineSquareCount
  }

  /** Whether one-based row and column numbers typed by the player lie on the board. */
  function RowAndColInBounds(b: Board, row: int, col: int): (ok: bool)
    ensures ok <==> InBounds(b, Pos(row - 1, col - 1))
  {
    var rowInBounds := row >= 1 && row <= b.rows;
    var colInBounds := col >= 1 && col <= b.cols;
    rowInBounds && colInBounds
  }

  /** Whether the square at one-based row and column has not been revealed yet. */
  function NeverChosen(b: Board, row: int, col: int): (ok: bool)
    ensures ok ==> InBounds(b, Pos(row - 1, col - 1))
    ensures ok <==> SafeGet(b, Pos(row - 1, col - 1)) == Some('?')
  {
    SafeGet(b, Pos(row - 1, col - 1)) == Some('?')
  }

  /** A selection the player may make: on the board and not revealed before. */
  function ValidSquareRowCol(b: Board, row: int, col: int): (ok: bool)
    ensures ok <==> InBounds(b, Pos(row - 1, col - 1)) && b.cells[row - 1][col - 1] == '?'
  {
    RowAndColInBounds(b, row, col) && NeverChosen(b, row, col)
  }

  /** The squares that are revealed and hold no mine. */
  function Uncovered(b: Board, mineLocations: set<Pos>): set<Pos>
  {
    set p | p in Rect(b.rows, b.cols) && SafeGet(b, p) != Some('?') && p !in mineLocations
  }

  /** Every revealed square holds no mine and shows its true neighbour count. */
  ghost predicate Consistent(b: Board, mineLocations: set<Pos>)
  {
    forall p :: SafeGet(b, p).Some? && SafeGet(b, p) != Some('?') ==>
      p !in mineLocations && SafeGet(b, p) == Some(CellChar(CountMines(mineLocations, p)))
  }

  /** `s` is closed under the flood rule on board `b`: the unrevealed neighbours of
      a square of `s` without neighbouring mines belong to `s`. */
  ghost predicate FloodClosed(b: Board, mineLocations: set<Pos>, s: set<Pos>)
  {
    forall p, q :: p in s && CountMines(mineLocations, p) == 0 && q in AdjacentSquares(b, p) ==> q in s
  }

  /** With `seen` counting the revealed mine-free squares, the win test holds exactly
      when every square without a mine has been revealed. */
  lemma WonIffSafeSquaresUncovered(b: Board, mineLocations: set<Pos>, mines: int, seen: int)
    requires mineLocations <= Rect(b.rows, b.cols) && |mineLocations| == mines
    requires seen == |Uncovered(b, mineLocations)|
    ensures IsWon(b, mines, seen) <==>
      forall p :: InBounds(b, p) && p !in mineLocations ==> SafeGet(b, p) != Some('?')
  {
    var all := Rect(b.rows, b.cols);
    var safe := all - mineLocations;
    var u := Uncovered(b, mineLocations);
    assert |safe| == b.rows * b.cols - mines by {
      RectSize(b.rows, b.cols);
      assert all == safe + mineLocations;
      assert safe !! mineLocations;
    }
    assert u <= safe;
    if IsWon(b, mines, seen) {
      SubsetSameSize(u, safe);
      forall p | InBounds(b, p) && p !in mineLocations
        ensures SafeGet(b, p) != Some('?')
      {
        assert p in safe;
        assert p in u;
      }
    } else {
      assert u != safe;
      var p :| p in safe && p !in u;
      assert InBounds(b, p) && p !in mineLocations && SafeGet(b, p) == Some('?');
    }
  }

  /** The squares to reveal next: the unrevealed neighbours of every square of `squares`
      that shows ' '. */
  method NextSquares(b: Board, squares: set<Pos>) returns (newSquares: set<Pos>)
    ensures forall p, q :: p in squares && SafeGet(b, p) == Some(' ') && q in AdjacentSquares(b, p) ==> q in newSquares
    ensures forall q :: q in newSquares ==>
      exists p :: p in squares && SafeGet(b, p) == Some(' ') && q in AdjacentSquares(b, p)
  {
    newSquares := {};
    var todo := squares;
    while todo != {}
      invariant todo <= squares
      invariant forall p, q :: p in squares - todo && SafeGet(b, p) == Some(' ') && q in AdjacentSquares(b, p) ==> q in newSquares
      invariant forall q :: q in newSquares ==>
        exists p :: p in squares - todo && SafeGet(b, p) == Some(' ') && q in AdjacentSquares(b, p)
      decreases todo
    {
      var square :| square in todo;
      if SafeGet(b, square) == Some(' ') {
        newSquares := newSquares + Elems(AdjacentSquares(b, square));
      }
      todo := todo - {square};
    }
  }

  /** One round of the flood fill on board `b` with `seen` squares seen so far: every
      square of `squares` is counted as seen and shows its neighbour count. */
  method RevealRound(b: Board, seen: nat, mineLocations: set<Pos>, squares: set<Pos>)
    returns (b': Board, seen': nat)
    requires squares <= Rect(b.rows, b.cols)
    ensures b'.rows == b.rows && b'.cols == b.cols
    ensures seen' == seen + |squares|
    ensures forall p :: SafeGet(b', p) ==
              if p in squares then Some(CellChar(CountMines(mineLocations, p))) else SafeGet(b, p)
  {
    b', seen' := b, seen;
    var todo := squares;
    while todo != {}
      invariant todo <= squares
      invariant b'.rows == b.rows && b'.cols == b.cols
      invariant seen' == seen + |squares| - |todo|
      invariant forall p :: SafeGet(b', p) ==
                  if p in squares && p !in todo then Some(CellChar(CountMines(mineLocations, p)))
                  else SafeGet(b, p)
      decreases todo
    {
      var square :| square in todo;
      seen' := seen' + 1;
      var curCount := CountMines(mineLocations, square);
      ghost var prev := b';
      b' := Write(b', square, CellChar(curCount));
      todo := todo - {square};
      forall p
        ensures SafeGet(b', p) == if p in squares && p !in todo then Some(CellChar(CountMines(mineLocations, p)))
                                  else SafeGet(b, p)
      {
        if p != square {
          assert SafeGet(b', p) == SafeGet(prev, p);
        }
      }
    }
  }

  /** `revealed` is what a flood fill from `start` on board `b` uncovers: it holds
      `start`, lies on the board, holds no mine, holds only unrevealed squares apart
      from `start`, and is the least set containing `start` that the flood rule cannot
      leave. */
  ghost predicate FloodRegion(b: Board, mineLocations: set<Pos>, start: Pos, revealed: set<Pos>)
  {
    && start in revealed
    && revealed <= Rect(b.rows, b.cols)
    && revealed !! mineLocations
    && (forall p :: p in revealed && p != start ==> SafeGet(b, p) == Some('?'))
    && FloodClosed(b, mineLocations, revealed)
    && (forall s: set<Pos> :: start in s && FloodClosed(b, mineLocations, s) ==> revealed <= s)
  }

  /** Board `b'` is board `b` with every square of `revealed` showing its neighbour count. */
  ghost predicate RevealsAs(b: Board, b': Board, mineLocations: set<Pos>, revealed: set<Pos>)
  {
    && b'.rows == b.rows && b'.cols == b.cols
    && forall p :: SafeGet(b', p) ==
         if p in revealed then Some(CellChar(CountMines(mineLocations, p))) else SafeGet(b, p)
  }

  /** The state of the flood fill between rounds: `done` has been revealed on `b`,
      `squares` is the next round. */
  ghost predicate FloodInv(b0: Board, mineLocations: set<Pos>, start: Pos, done: set<Pos>, squares: set<Pos>, b: Board)
  {
    && done <= Rect(b0.rows, b0.cols) && squares <= Rect(b0.rows, b0.cols) && done !! squares
    && start in done + squares
    && (done + squares) !! mineLocations
    && (forall p :: p in done + squares && p != start ==> SafeGet(b0, p) == Some('?'))
    && RevealsAs(b0, b, mineLocations, done)
    && (forall p, q :: p in done && CountMines(mineLocations, p) == 0 && q in AdjacentSquares(b0, p) ==>
          q in done + squares)
    && (forall s: set<Pos> :: start in s && FloodClosed(b0, mineLocations, s) ==> done + squares <= s)
  }

  /** A square found next to a ' ' square of the round was unrevealed before the
      flood fill, is new, holds no mine, and touches a zero-count square of the round. */
  lemma FreshNeighbours(b0: Board, mineLocations: set<Pos>, done: set<Pos>, squares: set<Pos>,
                        b: Board, b1: Board, newSquares: set<Pos>)
    requires RevealsAs(b0, b, mineLocations, done)
    requires b1.rows == b.rows && b1.cols == b.cols
    requires forall p :: SafeGet(b1, p) ==
               if p in squares then Some(CellChar(CountMines(mineLocations, p))) else SafeGet(b, p)
    requires forall q :: q in newSquares ==>
               exists p :: p in squares && SafeGet(b1, p) == Some(' ') && q in AdjacentSquares(b1, p)
    ensures forall q :: q in newSquares ==>
              && q in Rect(b0.rows, b0.cols) && q !in done + squares && q !in mineLocations
              && SafeGet(b0, q) == Some('?')
              && exists p :: p in squares && CountMines(mineLocations, p) == 0 && q in AdjacentSquares(b0, p)
  {
    forall q | q in newSquares
      ensures q in Rect(b0.rows, b0.cols) && q !in done + squares && q !in mineLocations
      ensures SafeGet(b0, q) == Some('?')
      ensures exists p :: p in squares && CountMines(mineLocations, p) == 0 && q in AdjacentSquares(b0, p)
    {
      var p :| p in squares && SafeGet(b1, p) == Some(' ') && q in AdjacentSquares(b1, p);
      assert CountMines(mineLocations, p) == 0;
      CountMinesSpec(mineLocations, p);
      assert q in AdjacentSquares(b0, p);
    }
  }

  /** After a round, every zero-count square revealed so far has its unrevealed
      neighbours revealed or queued. */
  lemma StepClosure(b0: Board, mineLocations: set<Pos>, done: set<Pos>, squares: set<Pos>,
                    b: Board, b1: Board, newSquares: set<Pos>)
    requires RevealsAs(b0, b, mineLocations, done)
    requires forall p, q :: p in done && CountMines(mineLocations, p) == 0 && q in AdjacentSquares(b0, p) ==>
               q in done + squares
    requires b1.rows == b.rows && b1.cols == b.cols
    requires forall p :: SafeGet(b1, p) ==
               if p in squares then Some(CellChar(CountMines(mineLocations, p))) else SafeGet(b, p)
    requires forall p, q :: p in squares && SafeGet(b1, p) == Some(' ') && q in AdjacentSquares(b1, p) ==> q in newSquares
    ensures forall p, q :: p in done + squares && CountMines(mineLocations, p) == 0 && q in AdjacentSquares(b0, p) ==>
              q in done + squares + newSquares
  {
    forall p, q | p in done + squares && CountMines(mineLocations, p) == 0 && q in AdjacentSquares(b0, p)
      ensures q in done + squares + newSquares
    {
      if p in squares && q !in done + squares {
        assert SafeGet(b1, p) == Some(' ');
        assert SafeGet(b1, q) == Some('?');
        assert q in AdjacentSquares(b1, p);
      }
    }
  }

  /** Every set the flood rule cannot leave that holds the squares revealed so far
      also holds the next round. */
  lemma StepMinimal(b0: Board, mineLocations: set<Pos>, start: Pos, done: set<Pos>, squares: set<Pos>,
                    newSquares: set<Pos>)
    requires forall s: set<Pos> :: start in s && FloodClosed(b0, mineLocations, s) ==> done + squares <= s
    requires forall q :: q in newSquares ==>
               exists p :: p in squares && CountMines(mineLocations, p) == 0 && q in AdjacentSquares(b0, p)
    ensures forall s: set<Pos> :: start in s && FloodClosed(b0, mineLocations, s) ==> done + squares + newSquares <= s
  {
    forall s: set<Pos> | start in s && FloodClosed(b0, mineLocations, s)
      ensures done + squares + newSquares <= s
    {
      forall q | q in newSquares
        ensures q in s
      {
        var p :| p in squares && CountMines(mineLocations, p) == 0 && q in AdjacentSquares(b0, p);
      }
    }
  }

  /** A round of the flood fill keeps its invariant. */
  lemma FloodStep(b0: Board, mineLocations: set<Pos>, start: Pos, done: set<Pos>, squares: set<Pos>,
                  b: Board, b1: Board, newSquares: set<Pos>)
    requires FloodInv(b0, mineLocations, start, done, squares, b)
    requires b1.rows == b.rows && b1.cols == b.cols
    requires forall p :: SafeGet(b1, p) ==
               if p in squares then Some(CellChar(CountMines(mineLocations, p))) else SafeGet(b, p)
    requires forall p, q :: p in squares && SafeGet(b1, p) == Some(' ') && q in AdjacentSquares(b1, p) ==> q in newSquares
    requires forall q :: q in newSquares ==>
               exists p :: p in squares && SafeGet(b1, p) == Some(' ') && q in AdjacentSquares(b1, p)
    ensures FloodInv(b0, mineLocations, start, done + squares, newSquares, b1)
  {
    FreshNeighbours(b0, mineLocations, done, squares, b, b1, newSquares);
    StepClosure(b0, mineLocations, done, squares, b, b1, newSquares);
    StepMinimal(b0, mineLocations, start, done, squares, newSquares);
    assert done + squares + newSquares == (done + squares) + newSquares;
    assert RevealsAs(b0, b1, mineLocations, done + squares);
  }

  /** Before the first round only `start` is queued. */
  lemma FloodStart(b0: Board, mineLocations: set<Pos>, start: Pos)
    requires InBounds(b0, start) && start !in mineLocations
    ensures FloodInv(b0, mineLocations, start, {}, {start}, b0)
  {
  }

  /** When a round queues nothing, the squares revealed form the flood region. */
  lemma FloodDone(b0: Board, mineLocations: set<Pos>, start: Pos, done: set<Pos>, b: Board)
    requires FloodInv(b0, mineLocations, start, done, {}, b)
    ensures FloodRegion(b0, mineLocations, start, done)
    ensures RevealsAs(b0, b, mineLocations, done)
  {
    assert done + {} == done;
  }

  /** The flood fill of `revealSquare` from a mine-free square `start`: rounds of
      squares are revealed until a round adds nothing. */
  method FloodFill(b0: Board, seen0: nat, mineLocations: set<Pos>, start: Pos)
    returns (b: Board, seen: nat, ghost revealed: set<Pos>)
    requires InBounds(b0, start) && start !in mineLocations
    ensures b.rows == b0.rows && b.cols == b0.cols
    ensures FloodRegion(b0, mineLocations, start, revealed)
    ensures RevealsAs(b0, b, mineLocations, revealed)
    ensures seen == seen0 + |revealed|
  {
    b, seen := b0, seen0;
    var squares := {start};
    ghost var done: set<Pos> := {};
    ghost var all := Rect(b0.rows, b0.cols);
    FloodStart(b0, mineLocations, start);
    while |squares| > 0
      invariant FloodInv(b0, mineLocations, start, done, squares, b)
      invariant seen == seen0 + |done|
      decreases all - done
    {
      var b1, seen1 := RevealRound(b, seen, mineLocations, squares);
      var newSquares := NextSquares(b1, squares);
      FloodStep(b0, mineLocations, start, done, squares, b, b1, newSquares);
      b, seen := b1, seen1;
      done := done + squares;
      squares := newSquares;
    }
    FloodDone(b0, mineLocations, start, done, b);
    revealed := done;
  }

  /** The board `b2` that `revealSquare` leaves after a flood fill from the mine-free
      square `start` on board `b0`: the flood region shows its neighbour counts and,
      when the game was thereby won, every mine shows '*'; nothing else changes. */
  ghost predicate RevealOutcome(b0: Board, b2: Board, mineLocations: set<Pos>, start: Pos,
                                revealed: set<Pos>, won: bool)
  {
    && FloodRegion(b0, mineLocations, start, revealed)
    && b2.rows == b0.rows && b2.cols == b0.cols
    && forall p :: SafeGet(b2, p) ==
         if p in revealed then Some(CellChar(CountMines(mineLocations, p)))
         else if won && p in mineLocations then Some('*')
         else SafeGet(b0, p)
  }

  /** Showing the mines after a winning flood fill, or leaving the board alone
      otherwise, gives the outcome of `revealSquare`. */
  lemma ShowMinesAfterFlood(b0: Board, b: Board, b2: Board, mineLocations: set<Pos>, start: Pos,
                            revealed: set<Pos>, won: bool)
    requires FloodRegion(b0, mineLocations, start, revealed) && RevealsAs(b0, b, mineLocations, revealed)
    requires b2.rows == b.rows && b2.cols == b.cols
    requires won ==> forall p :: SafeGet(b2, p) == if p in mineLocations then Some('*') else SafeGet(b, p)
    requires !won ==> b2 == b
    ensures RevealOutcome(b0, b2, mineLocations, start, revealed, won)
  {
  }

  /** Revealing an unrevealed square adds exactly the flood region to the revealed
      mine-free squares, so `seen` keeps counting them. */
  lemma RevealKeepsCount(b0: Board, b2: Board, mineLocations: set<Pos>, start: Pos, revealed: set<Pos>, won: bool)
    requires RevealOutcome(b0, b2, mineLocations, start, revealed, won)
    ensures SafeGet(b0, start) == Some('?') ==>
              |Uncovered(b2, mineLocations)| == |Uncovered(b0, mineLocations)| + |revealed|
  {
    if SafeGet(b0, start) == Some('?') {
      var u0, u := Uncovered(b0, mineLocations), Uncovered(b2, mineLocations);
      assert u == u0 + revealed;
      assert u0 !! revealed;
    }
  }

  /** A reveal that does not end the game keeps every revealed square truthful. */
  lemma RevealKeepsConsistent(b0: Board, b2: Board, mineLocations: set<Pos>, start: Pos, revealed: set<Pos>)
    requires RevealOutcome(b0, b2, mineLocations, start, revealed, false)
    requires Consistent(b0, mineLocations)
    ensures Consistent(b2, mineLocations)
  {
  }

  /** After a reveal no revealed ' ' square touches an unrevealed square: the flood
      fill has uncovered every neighbour of a square without neighbouring mines. */
  lemma BlankHasNoUnknownNeighbour(b0: Board, b2: Board, mineLocations: set<Pos>, start: Pos,
                                   revealed: set<Pos>, won: bool)
    requires RevealOutcome(b0, b2, mineLocations, start, revealed, won)
    ensures forall p, q :: p in revealed && SafeGet(b2, p) == Some(' ') && Touching(p, q) ==>
              SafeGet(b2, q) != Some('?')
  {
    forall p, q | p in revealed && SafeGet(b2, p) == Some(' ') && Touching(p, q)
      ensures SafeGet(b2, q) != Some('?')
    {
      assert CountMines(mineLocations, p) == 0;
      if SafeGet(b0, q) == Some('?') {
        assert q in AdjacentSquares(b0, p);
        assert q in revealed;
      }
    }
  }

  class Minesweeper {
    var inProgress: bool
    var seen: nat
    var mines: nat
    var mineLocations: set<Pos>
    var board: Board

    /** The mines are distinct squares of the board, as many as configured. */
    ghost predicate Valid()
      reads this
    {
      mineLocations <= Rect(board.rows, board.cols) && |mineLocations| == mines
    }

    /** `seen` counts the revealed squares that hold no mine. */
    ghost predicate Counted()
      reads this
    {
      seen == |Uncovered(board, mineLocations)|
    }

    /** A game set up without prompting; `mineLocations` stands for the random placement. */
    constructor (rows: nat, cols: nat, mines: nat, mineLocations: set<Pos>)
      requires mineLocations <= Rect(rows, cols) && |mineLocations| == mines
      ensures Valid() && Counted() && Consistent(board, this.mineLocations)
      ensures inProgress && seen == 0
      ensures board == Filled(rows, cols, '?')
      ensures this.mines == mines && this.mineLocations == mineLocations
    {
      inProgress, seen, this.mines, this.mineLocations := false, 0, 0, {};
      board := Filled(0, 0, '?');
      new;
      Reset(rows, cols, mines, mineLocations);
    }

    /** Starts a new game: every square unrevealed, nothing seen, game in progress. */
    method Reset(rows: nat, cols: nat, mines: nat, mineLocations: set<Pos>)
      requires mineLocations <= Rect(rows, cols) && |mineLocations| == mines
      modifies this
      ensures Valid() && Counted() && Consistent(board, this.mineLocations)
      ensures inProgress && seen == 0
      ensures board == Filled(rows, cols, '?')
      ensures this.mines == mines && this.mineLocations == mineLocations
    {
      inProgress := true;
      seen := 0;
      this.mines := mines;
      board := Filled(rows, cols, '?');
      this.mineLocations := mineLocations;
      assert Uncovered(board, mineLocations) == {} by {
        forall p | p in Rect(board.rows, board.cols)
          ensures SafeGet(board, p) == Some('?')
        {
          assert InBounds(board, p);
        }
      }
    }

    /** Ends the game and shows '*' on every mine; nothing else changes. */
    method RevealMinesInBoard()
      requires Valid()
      modifies this
      ensures Valid() && !inProgress
      ensures seen == old(seen) && mines == old(mines) && mineLocations == old(mineLocations)
      ensures board.rows == old(board.rows) && board.cols == old(board.cols)
      ensures forall p :: SafeGet(board, p) == if p in mineLocations then Some('*') else old(SafeGet(board, p))
      ensures Uncovered(board, mineLocations) == old(Uncovered(board, mineLocations))
    {
      inProgress := false;
      var rows, cols := board.rows, board.cols;
      for i := 0 to rows
        invariant !inProgress && seen == old(seen) && mines == old(mines) && mineLocations == old(mineLocations)
        invariant board.rows == rows && board.cols == cols
        invariant forall p :: SafeGet(board, p) ==
                    if p in mineLocations && p.row < i then Some('*') else old(SafeGet(board, p))
      {
        for j := 0 to cols
          invariant !inProgress && seen == old(seen) && mines == old(mines) && mineLocations == old(mineLocations)
          invariant board.rows == rows && board.cols == cols
          invariant forall p :: SafeGet(board, p) ==
                      if p in mineLocations && (p.row < i || (p.row == i && p.col < j)) then Some('*')
                      else old(SafeGet(board, p))
        {
          if Pos(i, j) in mineLocations {
            board := Write(board, Pos(i, j), '*');
          }
        }
      }
      assert forall p :: p in mineLocations ==> p.row < rows;
      assert Uncovered(board, mineLocations) == old(Uncovered(board, mineLocations));
    }

    /** Reveals the square at (row, col). On a mine the game is lost and every mine is
        shown. Otherwise the flood fill reveals `revealed` (see FloodRegion), `seen`
        grows by its size, and if that wins the game every mine is shown. */
    method RevealSquare(row: int, col: int) returns (ghost revealed: set<Pos>)
      requires Valid()
      requires InBounds(board, Pos(row, col))
      modifies this
      ensures Valid() && board.rows == old(board.rows) && board.cols == old(board.cols)
      ensures mines == old(mines) && mineLocations == old(mineLocations)
      ensures Pos(row, col) in mineLocations ==>
        && revealed == {} && !inProgress && seen == old(seen)
        && forall p :: SafeGet(board, p) == if p in mineLocations then Some('*') else old(SafeGet(board, p))
      ensures Pos(row, col) !in mineLocations ==>
        && RevealOutcome(old(board), board, mineLocations, Pos(row, col), revealed, IsWon(board, mines, seen))
        && seen == old(seen) + |revealed|
        && (inProgress <==> old(inProgress) && !IsWon(board, mines, seen))
      ensures old(Counted()) && old(SafeGet(board, Pos(row, col))) == Some('?') ==> Counted()
    {
      var start := Pos(row, col);
      if start in mineLocations {
        RevealMinesInBoard();
        revealed := {};
        return;
      }
      var b0, m := board, mineLocations;
      var b: Board, seen': nat;
      b, seen', revealed := FloodFill(b0, seen, m, start);
      ghost var won := IsWon(b, mines, seen');
      board, seen := b, seen';
      if IsWon(board, mines, seen) {
        RevealMinesInBoard();
      }
      ShowMinesAfterFlood(b0, b, board, m, start, revealed, won);
      RevealKeepsCount(b0, board, m, start, revealed, won);
    }
  }
}
