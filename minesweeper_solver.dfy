/**
 The simple solver: it keeps the squares it has deduced to be mines and the
 unrevealed squares it has deduced to be free of mines, reads the game board
 through those marks, and from every numbered square applies two elimination
 rules. It then plays a square known to be safe.
 */
module MinesweeperSolver {
  import opened Grid
  import opened Minesweeper
  import opened MinesweeperAI

  /** The solver's marks: squares known to hold mines, and unrevealed squares known
      to be free of them. */
  datatype Marks = Marks(mines: set<Pos>, safe: set<Pos>)

  /** The solver's `safeGet`: '*' on a known mine, 'S' on a known safe square, the
      board's own character otherwise. */
  function OverlayGet(b: Board, m: Marks, rowCol: Pos): (v: Option<char>)
    ensures v.None? <==> rowCol !in m.mines && rowCol !in m.safe && !InBounds(b, rowCol)
    ensures v == Some('?') <==> rowCol !in m.mines && rowCol !in m.safe && SafeGet(b, rowCol) == Some('?')
    ensures v.Some? && IsDigit(v.value) <==>
              rowCol !in m.mines && rowCol !in m.safe && SafeGet(b, rowCol).Some? && IsDigit(SafeGet(b, rowCol).value)
    ensures v == Some('*') <==> rowCol in m.mines || (rowCol !in m.safe && SafeGet(b, rowCol) == Some('*'))
  {
    if rowCol in m.mines then Some('*')
    else if rowCol in m.safe then Some('S')
    else SafeGet(b, rowCol)
  }

  /** The board as the solver reads it. */
  function Overlay(b: Board, m: Marks): Lookup
  {
    p => OverlayGet(b, m, p)
  }

  /** The solver reads a digit at `p`. */
  predicate Numbered(b: Board, m: Marks, p: Pos)
  {
    var v := OverlayGet(b, m, p);
    v.Some? && IsDigit(v.value)
  }

  /** The positions of the squares showing `ch`, in order. */
  function PositionsWith(surrounding: seq<Square>, ch: char): (r: seq<Pos>)
    ensures forall q :: q in r <==> Square(q.row, q.col, ch) in surrounding
  {
    if surrounding == [] then []
    else
      var rest := PositionsWith(surrounding[1..], ch);
      assert forall sq :: sq in surrounding <==> sq == surrounding[0] || sq in surrounding[1..];
      if surrounding[0].value == ch then [surrounding[0].Position()] + rest
      else rest
  }

  /** From squares at distinct positions, each position is listed once. */
  lemma {:induction false} PositionsWithDistinct(surrounding: seq<Square>, ch: char)
    requires Distinct(Positions(surrounding))
    ensures Distinct(PositionsWith(surrounding, ch))
  {
    if surrounding != [] {
      var sq0, tail := surrounding[0], surrounding[1..];
      assert Positions(surrounding) == [sq0.Position()] + Positions(tail);
      assert Distinct(Positions(tail));
      PositionsWithDistinct(tail, ch);
      if sq0.value == ch {
        var q := sq0.Position();
        forall i | 0 <= i < |tail|
          ensures tail[i] != Square(q.row, q.col, ch)
        {
          assert Positions(surrounding)[i + 1] == tail[i].Position();
        }
        assert q !in PositionsWith(tail, ch);
      }
    }
  }

  /** The condition "the square shows `ch`". */
  function Shows(ch: char): Cond
  {
    (row, col, value) => value == ch
  }

  /** The positions around `sq`, as the solver reads the board, that show `ch`. */
  ghost function AroundShowing(b: Board, m: Marks, sq: Pos, ch: char): set<Pos>
  {
    Around(Overlay(b, m), sq.row, sq.col, Shows(ch))
  }

  /** Every listed position showing `ch` is a neighbour showing it. */
  lemma ListedAreAround(look: Lookup, sq: Pos, ch: char)
    ensures Elems(PositionsWith(GetSurroundingSquares(look, sq.row, sq.col, Always), ch))
         <= Around(look, sq.row, sq.col, Shows(ch))
  {
    AdjacentAreTouching(sq);
  }

  /** Every neighbour showing `ch` is listed. */
  lemma AroundAreListed(look: Lookup, sq: Pos, ch: char)
    ensures Around(look, sq.row, sq.col, Shows(ch))
         <= Elems(PositionsWith(GetSurroundingSquares(look, sq.row, sq.col, Always), ch))
  {
    var surrounding := GetSurroundingSquares(look, sq.row, sq.col, Always);
    AdjacentAreTouching(sq);
    forall q | q in Around(look, sq.row, sq.col, Shows(ch))
      ensures q in PositionsWith(surrounding, ch)
    {
      assert Square(q.row, q.col, look(q).value) in surrounding;
    }
  }

  /** The surrounding positions listed as showing `ch` are the neighbours showing it. */
  lemma PositionsWithAreAround(b: Board, m: Marks, sq: Pos, ch: char)
    ensures Elems(PositionsWith(GetSurroundingSquares(Overlay(b, m), sq.row, sq.col, Always), ch))
         == AroundShowing(b, m, sq, ch)
  {
    ListedAreAround(Overlay(b, m), sq, ch);
    AroundAreListed(Overlay(b, m), sq, ch);
  }

  /** The list of surrounding positions showing `ch` holds each such neighbour once. */
  lemma PositionsWithCount(b: Board, m: Marks, sq: Pos, ch: char)
    ensures var r := PositionsWith(GetSurroundingSquares(Overlay(b, m), sq.row, sq.col, Always), ch);
            Elems(r) == AroundShowing(b, m, sq, ch) && |r| == |AroundShowing(b, m, sq, ch)|
  {
    var surrounding := GetSurroundingSquares(Overlay(b, m), sq.row, sq.col, Always);
    PositionsWithAreAround(b, m, sq, ch);
    PositionsWithDistinct(surrounding, ch);
    DistinctSize(PositionsWith(surrounding, ch));
  }

  /** One application of the two rules from the numbered square `sq`: if the unknown
      neighbours are exactly the mines still missing, they are all mines; otherwise, if
      every neighbouring mine is known, the unknown neighbours are all safe. */
  function Step(b: Board, m: Marks, sq: Pos): (r: Marks)
    requires Numbered(b, m, sq)
    ensures m.mines <= r.mines && m.safe <= r.safe
    ensures r.mines == m.mines || r.safe == m.safe
  {
    var number := DigitValue(OverlayGet(b, m, sq).value);
    var surrounding := GetSurroundingSquares(Overlay(b, m), sq.row, sq.col, Always);
    var unknowns := PositionsWith(surrounding, '?');
    var mines := PositionsWith(surrounding, '*');
    var numRemainingMines := number - |mines|;
    if |unknowns| == numRemainingMines then Marks(m.mines + Elems(unknowns), m.safe)
    else if number == |mines| then Marks(m.mines, m.safe + Elems(unknowns))
    else m
  }

  /** The two rules stated on the sets of neighbours: with `n` the number shown at `sq`,
      `u` the unknown neighbours and `k` the known mines around it. */
  lemma StepRules(b: Board, m: Marks, sq: Pos)
    requires Numbered(b, m, sq)
    ensures var n := DigitValue(OverlayGet(b, m, sq).value);
            var u, k := AroundShowing(b, m, sq, '?'), AroundShowing(b, m, sq, '*');
            Step(b, m, sq) ==
              if |u| == n - |k| then Marks(m.mines + u, m.safe)
              else if n == |k| then Marks(m.mines, m.safe + u)
              else m
  {
    PositionsWithCount(b, m, sq, '?');
    PositionsWithCount(b, m, sq, '*');
  }

  /** A step marks only squares the solver reads as unknown around its square. */
  lemma StepMarksOnlyUnknowns(b: Board, m: Marks, sq: Pos)
    requires Numbered(b, m, sq)
    ensures var r := Step(b, m, sq);
            (r.mines - m.mines) + (r.safe - m.safe) <= AroundShowing(b, m, sq, '?')
  {
    StepRules(b, m, sq);
  }

  /** The squares the solver reads as unknown are unmarked, unrevealed neighbours. */
  lemma UnknownsAreUnrevealedNeighbours(b: Board, m: Marks, sq: Pos)
    ensures forall q :: q in AroundShowing(b, m, sq, '?') ==> Touching(sq, q) && OverlayGet(b, m, q) == Some('?')
  {
    AdjacentAreTouching(sq);
  }

  /** A step marks only unrevealed, unmarked neighbours of its square. */
  lemma StepMarksUnknownNeighbours(b: Board, m: Marks, sq: Pos)
    requires Numbered(b, m, sq)
    ensures var r := Step(b, m, sq);
            forall q :: q in (r.mines - m.mines) + (r.safe - m.safe) ==>
              Touching(sq, q) && OverlayGet(b, m, q) == Some('?')
  {
    StepMarksOnlyUnknowns(b, m, sq);
    UnknownsAreUnrevealedNeighbours(b, m, sq);
  }

  /** The marks agree with the true mines: every known mine is one, no known safe
      square is one, and the board itself shows true counts. */
  ghost predicate SoundMarks(b: Board, mineLocations: set<Pos>, m: Marks)
  {
    && mineLocations <= Rect(b.rows, b.cols)
    && Consistent(b, mineLocations)
    && m.mines <= mineLocations
    && m.safe !! mineLocations
  }

  /** With sound marks, every square of the board falls into one of the helper
      classes as the solver reads it, and each class means what its name says: a
      mine is a known mine, an unknown is unrevealed and unmarked, a number is the
      true count of a square without a mine, and a safe square holds no mine. */
  lemma OverlayClasses(b: Board, mineLocations: set<Pos>, m: Marks, p: Pos)
    requires SoundMarks(b, mineLocations, m) && InBounds(b, p)
    ensures var v := OverlayGet(b, m, p).value;
            && (IsMine(p.row, p.col, v) || IsUnknown(p.row, p.col, v) || IsNum(p.row, p.col, v) || IsSafe(p.row, p.col, v))
            && (IsMine(p.row, p.col, v) <==> p in m.mines)
            && (IsUnknown(p.row, p.col, v) <==> p !in m.mines && p !in m.safe && SafeGet(b, p) == Some('?'))
            && (IsNum(p.row, p.col, v) ==> p !in mineLocations && DigitValue(v) == CountMines(mineLocations, p))
            && (IsSafe(p.row, p.col, v) ==> p !in mineLocations)
  {
  }

  /** On a consistent board, a digit the solver reads is the true number of
      neighbouring mines. */
  lemma NumberIsTrueCount(b: Board, mineLocations: set<Pos>, m: Marks, sq: Pos)
    requires Consistent(b, mineLocations) && Numbered(b, m, sq)
    ensures sq !in mineLocations
    ensures DigitValue(OverlayGet(b, m, sq).value) == |MinesAround(mineLocations, sq)|
  {
    CountMinesSpec(mineLocations, sq);
  }

  /** With sound marks, the neighbours read as mines are known mines, hence true mines. */
  lemma KnownMinesAreMines(b: Board, mineLocations: set<Pos>, m: Marks, sq: Pos)
    requires SoundMarks(b, mineLocations, m)
    ensures AroundShowing(b, m, sq, '*') <= MinesAround(mineLocations, sq)
  {
  }

  /** With sound marks, every neighbouring mine is read either as a mine or as unknown. */
  lemma MinesAreKnownOrUnknown(b: Board, mineLocations: set<Pos>, m: Marks, sq: Pos)
    requires SoundMarks(b, mineLocations, m)
    ensures MinesAround(mineLocations, sq) <= AroundShowing(b, m, sq, '*') + AroundShowing(b, m, sq, '?')
  {
    forall q | q in MinesAround(mineLocations, sq)
      ensures q in AroundShowing(b, m, sq, '*') + AroundShowing(b, m, sq, '?')
    {
      assert q in Rect(b.rows, b.cols);
      if q !in m.mines {
        assert SafeGet(b, q) == Some('?');
      }
    }
  }

  /** The mine rule on sets: the true mines `t` lie among the known `k` and the
      unknown `u`; if there are exactly as many unknowns as missing mines, every
      unknown is a mine. */
  lemma MineRuleSets<T>(t: set<T>, k: set<T>, u: set<T>)
    requires k <= t <= k + u && k !! u
    requires |u| == |t| - |k|
    ensures u <= t
  {
    assert |t - k| == |t| - |k|;
    SubsetSameSize(t - k, u);
  }

  /** The safe rule on sets: if every true mine is known, no unknown is a mine. */
  lemma SafeRuleSets<T>(t: set<T>, k: set<T>, u: set<T>)
    requires k <= t && |t| == |k| && k !! u
    ensures u !! t
  {
    SubsetSameSize(k, t);
  }

  /** A step from sound marks gives sound marks: the mine rule marks only true mines
      and the safe rule marks only squares free of mines. */
  lemma StepSound(b: Board, mineLocations: set<Pos>, m: Marks, sq: Pos)
    requires SoundMarks(b, mineLocations, m) && Numbered(b, m, sq)
    ensures SoundMarks(b, mineLocations, Step(b, m, sq))
  {
    StepRules(b, m, sq);
    NumberIsTrueCount(b, mineLocations, m, sq);
    KnownMinesAreMines(b, mineLocations, m, sq);
    MinesAreKnownOrUnknown(b, mineLocations, m, sq);
    var n := DigitValue(OverlayGet(b, m, sq).value);
    var u, k := AroundShowing(b, m, sq, '?'), AroundShowing(b, m, sq, '*');
    var t := MinesAround(mineLocations, sq);
    if |u| == n - |k| {
      MineRuleSets(t, k, u);
    } else if n == |k| {
      SafeRuleSets(t, k, u);
      forall q | q in u ensures q !in mineLocations {
        assert q in Adjacent(sq);
      }
    }
  }

  /** A step keeps the known mines and the known safe squares apart. */
  lemma StepKeepsApart(b: Board, m: Marks, sq: Pos)
    requires Numbered(b, m, sq) && m.mines !! m.safe
    ensures Step(b, m, sq).mines !! Step(b, m, sq).safe
  {
    StepMarksUnknownNeighbours(b, m, sq);
  }

  /** A step leaves every numbered square numbered: it marks only squares read as
      unknown. */
  lemma StepKeepsNumbered(b: Board, m: Marks, sq: Pos, p: Pos)
    requires Numbered(b, m, sq) && Numbered(b, m, p)
    ensures Numbered(b, Step(b, m, sq), p)
  {
    StepMarksOnlyUnknowns(b, m, sq);
    UnknownsAreUnrevealedNeighbours(b, m, sq);
  }

  /** One pass of `markSafeAndMines` over `sqs`, each step reading the marks left by
      the steps before it. */
  function Pass(b: Board, m: Marks, sqs: seq<Pos>): (r: Marks)
    requires forall sq | sq in sqs :: Numbered(b, m, sq)
    ensures m.mines <= r.mines && m.safe <= r.safe
    ensures forall p :: Numbered(b, m, p) ==> Numbered(b, r, p)
    decreases |sqs|
  {
    if sqs == [] then m
    else
      var init, last := sqs[..|sqs| - 1], sqs[|sqs| - 1];
      assert forall sq | sq in init :: sq in sqs;
      var m' := Pass(b, m, init);
      assert Numbered(b, m', last);
      var r := Step(b, m', last);
      assert forall p :: Numbered(b, m', p) ==> Numbered(b, r, p) by {
        forall p | Numbered(b, m', p) ensures Numbered(b, r, p) {
          StepKeepsNumbered(b, m', last, p);
        }
      }
      r
  }

  /** A pass from sound marks gives sound marks. */
  lemma {:induction false} PassSound(b: Board, mineLocations: set<Pos>, m: Marks, sqs: seq<Pos>)
    requires forall sq | sq in sqs :: Numbered(b, m, sq)
    requires SoundMarks(b, mineLocations, m)
    ensures SoundMarks(b, mineLocations, Pass(b, m, sqs))
    decreases |sqs|
  {
    if sqs != [] {
      var init, last := sqs[..|sqs| - 1], sqs[|sqs| - 1];
      assert forall sq | sq in init :: sq in sqs;
      PassSound(b, mineLocations, m, init);
      StepSound(b, mineLocations, Pass(b, m, init), last);
    }
  }

  /** A pass keeps the known mines and the known safe squares apart. */
  lemma {:induction false} PassKeepsApart(b: Board, m: Marks, sqs: seq<Pos>)
    requires forall sq | sq in sqs :: Numbered(b, m, sq)
    requires m.mines !! m.safe
    ensures Pass(b, m, sqs).mines !! Pass(b, m, sqs).safe
    decreases |sqs|
  {
    if sqs != [] {
      var init, last := sqs[..|sqs| - 1], sqs[|sqs| - 1];
      assert forall sq | sq in init :: sq in sqs;
      PassKeepsApart(b, m, init);
      StepKeepsApart(b, Pass(b, m, init), last);
    }
  }

  /** A pass marks only squares that were unrevealed and unmarked when it began, each
      touching one of the numbered squares it visited. */
  lemma {:induction false} PassMarksUnknownNeighbours(b: Board, m: Marks, sqs: seq<Pos>)
    requires forall sq | sq in sqs :: Numbered(b, m, sq)
    ensures var r := Pass(b, m, sqs);
            forall q :: q in (r.mines - m.mines) + (r.safe - m.safe) ==>
              OverlayGet(b, m, q) == Some('?') && exists sq :: sq in sqs && Touching(sq, q)
    decreases |sqs|
  {
    if sqs != [] {
      var init, last := sqs[..|sqs| - 1], sqs[|sqs| - 1];
      assert forall sq | sq in init :: sq in sqs;
      var r0 := Pass(b, m, init);
      var r := Step(b, r0, last);
      PassMarksUnknownNeighbours(b, m, init);
      StepMarksUnknownNeighbours(b, r0, last);
      forall q | q in (r.mines - m.mines) + (r.safe - m.safe)
        ensures OverlayGet(b, m, q) == Some('?') && exists sq :: sq in sqs && Touching(sq, q)
      {
        if q in (r0.mines - m.mines) + (r0.safe - m.safe) {
          var sq :| sq in init && Touching(sq, q);
          assert sq in sqs;
        } else {
          assert OverlayGet(b, r0, q) == Some('?');
          assert last in sqs;
        }
      }
    }
  }

  /** The squares of row `i`, from column `j` on, that the solver reads as digits,
      left to right. */
  function RowNumbered(b: Board, m: Marks, i: int, j: nat): (r: seq<Pos>)
    requires j <= b.cols
    ensures forall q :: q in r <==> q.row == i && j <= q.col && Numbered(b, m, q)
    decreases b.cols - j
  {
    if j == b.cols then []
    else (if Numbered(b, m, Pos(i, j)) then [Pos(i, j)] else []) + RowNumbered(b, m, i, j + 1)
  }

  /** The squares of rows `i` onwards that the solver reads as digits, row by row. */
  function NumberedFrom(b: Board, m: Marks, i: nat): (r: seq<Pos>)
    requires i <= b.rows
    ensures forall q :: q in r <==> i <= q.row && Numbered(b, m, q)
    decreases b.rows - i
  {
    if i == b.rows then []
    else RowNumbered(b, m, i, 0) + NumberedFrom(b, m, i + 1)
  }

  /** The squares the solver reads as digits, in row-major order: exactly the
      numbered squares. */
  function NumberedSquares(b: Board, m: Marks): (r: seq<Pos>)
    ensures forall q :: q in r <==> Numbered(b, m, q)
  {
    NumberedFrom(b, m, 0)
  }

  /** What a pass keeps: marks on the board and apart, new marks only on unrevealed
      squares, and sound marks sound. */
  lemma PassOnBoard(b: Board, mineLocations: set<Pos>, m: Marks, sqs: seq<Pos>)
    requires forall sq | sq in sqs :: Numbered(b, m, sq)
    requires m.mines + m.safe <= Rect(b.rows, b.cols) && m.mines !! m.safe
    ensures var r := Pass(b, m, sqs);
            && r.mines + r.safe <= Rect(b.rows, b.cols) && r.mines !! r.safe
            && (forall q :: q in (r.mines - m.mines) + (r.safe - m.safe) ==> SafeGet(b, q) == Some('?'))
            && (SoundMarks(b, mineLocations, m) ==> SoundMarks(b, mineLocations, r))
  {
    var r := Pass(b, m, sqs);
    PassKeepsApart(b, m, sqs);
    PassMarksUnknownNeighbours(b, m, sqs);
    forall q | q in (r.mines - m.mines) + (r.safe - m.safe)
      ensures SafeGet(b, q) == Some('?') && q in Rect(b.rows, b.cols)
    {
      assert OverlayGet(b, m, q) == Some('?');
    }
    if SoundMarks(b, mineLocations, m) {
      PassSound(b, mineLocations, m, sqs);
    }
  }

  /** The squares of `s` that board `b` still shows as unrevealed. */
  function StillUnrevealed(b: Board, s: set<Pos>): (r: set<Pos>)
    ensures r <= s
  {
    set q | q in s && SafeGet(b, q) == Some('?')
  }

  /** The pass over one more square is one more step. */
  lemma PassExtends(b: Board, m: Marks, sqs: seq<Pos>, k: nat)
    requires forall sq | sq in sqs :: Numbered(b, m, sq)
    requires k < |sqs|
    ensures Numbered(b, Pass(b, m, sqs[..k]), sqs[k])
    ensures Pass(b, m, sqs[..k + 1]) == Step(b, Pass(b, m, sqs[..k]), sqs[k])
  {
    assert sqs[..k + 1][..k] == sqs[..k];
    assert sqs[k] in sqs;
  }

  /** Applies the rules from each square of `numberedSquares` in turn, each step
      reading the marks the steps before it left. */
  method ApplyRules(b: Board, m: Marks, numberedSquares: seq<Pos>) returns (r: Marks)
    requires forall sq | sq in numberedSquares :: Numbered(b, m, sq)
    ensures r == Pass(b, m, numberedSquares)
  {
    r := m;
    for k := 0 to |numberedSquares|
      invariant r == Pass(b, m, numberedSquares[..k])
    {
      PassExtends(b, m, numberedSquares, k);
      r := Step(b, r, numberedSquares[k]);
    }
    assert numberedSquares[..|numberedSquares|] == numberedSquares;
  }

  /** A Python value held in a surrounding-square triple: a row or column number, or
      a one-character string. */
  datatype PyItem = PyInt(n: int) | PyStr(c: char)

  /** `sq[i]` for the triple `(row, col, value)` that `getSurroundingSquares` yields;
      indices past 1 give the value. */
  function Item(sq: Square, i: int): (v: PyItem)
    ensures (i == 0 || i == 1) <==> v.PyInt?
  {
    if i == 0 then PyInt(sq.row) else if i == 1 then PyInt(sq.col) else PyStr(sq.value)
  }

  /** The list `[sq[0] for sq in surrounding if sq[1] == ch]` as `markSafeAndMines`
      builds it: it compares the column number with a character. */
  function ItemsAsWritten(surrounding: seq<Square>, ch: char): (r: seq<PyItem>)
    ensures |r| <= |surrounding|
  {
    if surrounding == [] then []
    else
      var sq, rest := surrounding[0], ItemsAsWritten(surrounding[1..], ch);
      if Item(sq, 1) == PyStr(ch) then [Item(sq, 0)] + rest else rest
  }

  /** The written comparison never holds, so both lists are always empty. */
  lemma {:induction false} ItemsAsWrittenEmpty(surrounding: seq<Square>, ch: char)
    ensures ItemsAsWritten(surrounding, ch) == []
  {
    if surrounding != [] {
      ItemsAsWrittenEmpty(surrounding[1..], ch);
      assert Item(surrounding[0], 1).PyInt?;
    }
  }

  /** What one step of `markSafeAndMines` as written adds to the known mines and to
      the known safe squares. */
  datatype Added = Added(mines: set<PyItem>, safe: set<PyItem>)

  /** One step of `markSafeAndMines` as written, from the numbered square `sq`. */
  function StepAsWritten(b: Board, m: Marks, sq: Pos): (r: Added)
    requires Numbered(b, m, sq)
    ensures r.mines == {} || r.safe == {}
  {
    var number := DigitValue(OverlayGet(b, m, sq).value);
    var surrounding := GetSurroundingSquares(Overlay(b, m), sq.row, sq.col, Always);
    var unknowns := ItemsAsWritten(surrounding, '?');
    var mines := ItemsAsWritten(surrounding, '*');
    var numRemainingMines := number - |mines|;
    if |unknowns| == numRemainingMines then Added(Elems(unknowns), {})
    else if number == |mines| then Added({}, Elems(unknowns))
    else Added({}, {})
  }

  /** As written, a step never marks anything. */
  lemma StepAsWrittenMarksNothing(b: Board, m: Marks, sq: Pos)
    requires Numbered(b, m, sq)
    ensures StepAsWritten(b, m, sq) == Added({}, {})
  {
    var surrounding := GetSurroundingSquares(Overlay(b, m), sq.row, sq.col, Always);
    ItemsAsWrittenEmpty(surrounding, '?');
    ItemsAsWrittenEmpty(surrounding, '*');
  }

  /** The one-row board "1?": a revealed 1 beside an unrevealed square. */
  function OneRowBoard(): (b: Board)
    ensures b.rows == 1 && b.cols == 2
    ensures SafeGet(b, Pos(0, 0)) == Some('1') && SafeGet(b, Pos(0, 1)) == Some('?')
  {
    RawBoard(1, 2, ["1?"])
  }

  /** With its mine at (0, 1), the board "1?" is consistent. */
  lemma OneRowBoardConsistent()
    ensures Consistent(OneRowBoard(), {Pos(0, 1)})
  {
    var b, sq := OneRowBoard(), Pos(0, 0);
    assert CountMines({Pos(0, 1)}, sq) == 1 by {
      CountMinesSpec({Pos(0, 1)}, sq);
      assert MinesAround({Pos(0, 1)}, sq) == {Pos(0, 1)};
    }
    forall p | SafeGet(b, p).Some? && SafeGet(b, p) != Some('?')
      ensures p !in {Pos(0, 1)} && SafeGet(b, p) == Some(CellChar(CountMines({Pos(0, 1)}, p)))
    {
      assert p == sq;
    }
  }

  /** Around (0, 0) of "1?", unmarked, the solver reads one unknown and no mine. */
  lemma OneRowBoardNeighbours()
    ensures AroundShowing(OneRowBoard(), Marks({}, {}), Pos(0, 0), '?') == {Pos(0, 1)}
    ensures AroundShowing(OneRowBoard(), Marks({}, {}), Pos(0, 0), '*') == {}
  {
    var b, m, sq := OneRowBoard(), Marks({}, {}), Pos(0, 0);
    forall q | q in Adjacent(sq) && q != Pos(0, 1) ensures OverlayGet(b, m, q).None? {
    }
    assert Pos(0, 1) in Adjacent(sq);
  }

  /** On the board "1?" whose mine is at (0, 1), the square (0, 0) shows 1 and has a
      single unknown neighbour: the rule marks it a mine, the written step marks
      nothing. */
  lemma StepAsWrittenMissesForcedMine()
    ensures var b, m, sq := OneRowBoard(), Marks({}, {}), Pos(0, 0);
            && Consistent(b, {Pos(0, 1)}) && Numbered(b, m, sq)
            && Step(b, m, sq).mines == {Pos(0, 1)}
            && StepAsWritten(b, m, sq).mines == {}
  {
    var b, m, sq := OneRowBoard(), Marks({}, {}), Pos(0, 0);
    OneRowBoardConsistent();
    OneRowBoardNeighbours();
    assert Numbered(b, m, sq);
    StepRules(b, m, sq);
    StepAsWrittenMarksNothing(b, m, sq);
  }

  /** The solver: the game it plays, the squares it knows to be mines, the unrevealed
      squares it knows to be safe, and the last move it made. */
  class MinesweeperSolver {
    const game: Minesweeper
    var mines: set<Pos>
    var safeUnrevealed: set<Pos>
    var lastMove: Option<Pos>

    /** The solver's marks. */
    function Marked(): Marks
      reads this
    {
      Marks(mines, safeUnrevealed)
    }

    /** The game is well formed and the marks are squares of its board, never both
        a mine and safe. */
    ghost predicate Valid()
      reads this, game
    {
      && game.Valid()
      && mines + safeUnrevealed <= Rect(game.board.rows, game.board.cols)
      && mines !! safeUnrevealed
    }

    /** The marks agree with where the mines really are. */
    ghost predicate Sound()
      reads this, game
    {
      SoundMarks(game.board, game.mineLocations, Marked())
    }

    /** A solver for a fresh game; `mineLocations` stands for the game's random placement. */
    constructor (rows: nat, cols: nat, mines: nat, mineLocations: set<Pos>)
      requires mineLocations <= Rect(rows, cols) && |mineLocations| == mines
      ensures Valid() && Sound() && fresh(game)
      ensures game.inProgress && game.seen == 0 && game.board == Filled(rows, cols, '?')
      ensures game.mines == mines && game.mineLocations == mineLocations
      ensures this.mines == {} && safeUnrevealed == {} && lastMove == None
    {
      game := new Minesweeper(rows, cols, mines, mineLocations);
      new;
      ResetSolverState();
    }

    /** Forgets every mark and the last move; the game is untouched. */
    method ResetSolverState()
      modifies this
      ensures mines == {} && safeUnrevealed == {} && lastMove == None
      ensures game.Valid() ==> Valid()
      ensures (game.mineLocations <= Rect(game.board.rows, game.board.cols) &&
               Consistent(game.board, game.mineLocations)) ==> Sound()
    {
      safeUnrevealed := {};
      mines := {};
      lastMove := None;
    }

    /** Forgets the marks and starts a new game. */
    method NextGame(rows: nat, cols: nat, mines: nat, mineLocations: set<Pos>)
      requires mineLocations <= Rect(rows, cols) && |mineLocations| == mines
      modifies this, game
      ensures Valid() && Sound()
      ensures game.inProgress && game.seen == 0 && game.board == Filled(rows, cols, '?')
      ensures game.mines == mines && game.mineLocations == mineLocations
      ensures this.mines == {} && safeUnrevealed == {} && lastMove == None
    {
      ResetSolverState();
      game.Reset(rows, cols, mines, mineLocations);
    }

    /** One pass of the two rules over the squares read as digits when the pass
        begins, each square reading the marks the squares before it left. */
    method MarkSafeAndMines()
      requires Valid()
      modifies this
      ensures Marked() == Pass(game.board, old(Marked()), NumberedSquares(game.board, old(Marked())))
      ensures lastMove == old(lastMove) && Valid()
      ensures forall q :: q in (mines - old(mines)) + (safeUnrevealed - old(safeUnrevealed)) ==>
                SafeGet(game.board, q) == Some('?')
      ensures old(Sound()) ==> Sound()
    {
      var b := game.board;
      var numberedSquares := NumberedSquares(b, Marked());
      var m := ApplyRules(b, Marked(), numberedSquares);
      PassOnBoard(b, game.mineLocations, Marked(), numberedSquares);
      mines, safeUnrevealed := m.mines, m.safe;
    }

    /** Drops the safe squares the last move revealed, then makes a pass of the rules. */
    method AnalyzeBoard()
      requires Valid()
      modifies this
      ensures var kept := Marks(old(mines), StillUnrevealed(game.board, old(safeUnrevealed)));
              Marked() == Pass(game.board, kept, NumberedSquares(game.board, kept))
      ensures forall q :: q in safeUnrevealed ==> SafeGet(game.board, q) == Some('?')
      ensures lastMove == old(lastMove) && Valid()
      ensures old(Sound()) ==> Sound()
    {
      ghost var kept := StillUnrevealed(game.board, safeUnrevealed);
      safeUnrevealed := safeUnrevealed - set q | q in safeUnrevealed && SafeGet(game.board, q) != Some('?');
      assert safeUnrevealed == kept;
      MarkSafeAndMines();
    }

    /** Plays a square known to be safe, removing it from the safe set, when there is
        one; otherwise takes `guess`, standing for the move of the fallback player,
        without playing it. */
    method MakeMove(guess: Pos) returns (move: Pos, ghost revealed: set<Pos>)
      requires Valid()
      modifies this, game
      ensures Valid() && mines == old(mines) && lastMove == Some(move)
      ensures game.mines == old(game.mines) && game.mineLocations == old(game.mineLocations)
      ensures old(safeUnrevealed) == {} ==>
                && move == guess && safeUnrevealed == {}
                && game.board == old(game.board) && game.seen == old(game.seen)
                && game.inProgress == old(game.inProgress)
      ensures old(safeUnrevealed) != {} ==>
                && move in old(safeUnrevealed) && safeUnrevealed == old(safeUnrevealed) - {move}
      ensures old(safeUnrevealed) != {} && move in game.mineLocations ==>
                && revealed == {} && !game.inProgress && game.seen == old(game.seen)
                && forall p :: SafeGet(game.board, p) ==
                                 if p in game.mineLocations then Some('*') else old(SafeGet(game.board, p))
      ensures old(safeUnrevealed) != {} && move !in game.mineLocations ==>
                && RevealOutcome(old(game.board), game.board, game.mineLocations, move, revealed,
                                 IsWon(game.board, game.mines, game.seen))
                && game.seen == old(game.seen) + |revealed|
                && (game.inProgress <==> old(game.inProgress) && !IsWon(game.board, game.mines, game.seen))
      ensures old(Sound()) && old(safeUnrevealed) != {} ==>
                && move !in game.mineLocations
                && SafeGet(game.board, move) == Some(CellChar(CountMines(game.mineLocations, move)))
      ensures old(Sound()) && game.inProgress ==> Sound()
    {
      if safeUnrevealed != {} {
        var safeMove :| safeMove in safeUnrevealed;
        safeUnrevealed := safeUnrevealed - {safeMove};
        ghost var b0 := game.board;
        revealed := game.RevealSquare(safeMove.row, safeMove.col);
        move := safeMove;
        if old(Sound()) && game.inProgress {
          RevealKeepsConsistent(b0, game.board, game.mineLocations, move, revealed);
        }
      } else {
        move, revealed := guess, {};
      }
      lastMove := Some(move);
    }
  }
}
