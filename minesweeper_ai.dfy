/**
 The helper functions an automatic Minesweeper player uses to look around a
 square: condition functions on (row, column, value) triples, the Chebyshev
 distance between squares, counting, and the collection of the squares
 surrounding a given one. The board lookup is a parameter, because the player
 reads the game board directly while the solver reads it through its own marks.
 */
module MinesweeperAI {
  import opened Grid

  /** A square as the surrounding-squares helper reports it: position and value. */
  datatype Square = Square(row: int, col: int, value: char)
  {
    function Position(): Pos
    {
      Pos(row, col)
    }
  }

  /** A condition on a square, given its row, column and value. */
  type Cond = (int, int, char) -> bool

  /** How a player reads the board: `None` off the board, the shown character on it. */
  type Lookup = Pos -> Option<char>

  /** A square shown as a mine: never also a number or unrevealed. */
  predicate IsMine(row: int, col: int, value: char): (r: bool)
    ensures r ==> !IsUnknown(row, col, value) && !IsNum(row, col, value)
  {
    value == '*'
  }

  /** An unrevealed square: never also a number. */
  predicate IsUnknown(row: int, col: int, value: char): (r: bool)
    ensures r ==> !IsNum(row, col, value)
  {
    value == '?'
  }

  /** A revealed count of neighbouring mines: never a mine, unrevealed, blank or safe mark. */
  predicate IsNum(row: int, col: int, value: char): (r: bool)
    ensures r ==> value != '*' && value != '?' && value != ' ' && value != 'S'
  {
    IsDigit(value)
  }

  /** A square known to be free of mines: revealed empty, or marked safe. */
  predicate IsSafe(row: int, col: int, value: char): (r: bool)
    ensures r ==> !IsMine(row, col, value) && !IsUnknown(row, col, value) && !IsNum(row, col, value)
  {
    value == ' ' || value == 'S'
  }

  /** The outcome of a Python call: a value, or an exception by name. */
  datatype Outcome<T> = Returns(result: T) | Raises(error: string)

  /** `isSafe` as it is written: its body reads a variable `v` that no scope defines,
      so every call raises `NameError`. */
  function IsSafeAsWritten(row: int, col: int, value: char): (r: Outcome<bool>)
    ensures r.Raises?
  {
    Raises("NameError")
  }

  /** The written `isSafe` fails on a square that is plainly safe. */
  lemma IsSafeAsWrittenFailsOnBlank()
    ensures IsSafe(0, 0, ' ') && IsSafeAsWritten(0, 0, ' ') != Returns(true)
  {
  }

  /** The default condition, which accepts every square. */
  predicate Always(row: int, col: int, value: char)
  {
    true
  }

  /** Distance between two squares: the number of king moves between them. */
  function Distance(sq1: Pos, sq2: Pos): (d: nat)
    ensures d >= sq1.row - sq2.row && d >= sq2.row - sq1.row
    ensures d >= sq1.col - sq2.col && d >= sq2.col - sq1.col
    ensures d == sq1.row - sq2.row || d == sq2.row - sq1.row || d == sq1.col - sq2.col || d == sq2.col - sq1.col
  {
    var dr := if sq1.row >= sq2.row then sq1.row - sq2.row else sq2.row - sq1.row;
    var dc := if sq1.col >= sq2.col then sq1.col - sq2.col else sq2.col - sq1.col;
    if dr >= dc then dr else dc
  }

  /** The distance is symmetric and is zero exactly between a square and itself. */
  lemma DistanceIsSymmetric(sq1: Pos, sq2: Pos)
    ensures Distance(sq1, sq2) == Distance(sq2, sq1)
    ensures Distance(sq1, sq2) == 0 <==> sq1 == sq2
  {
  }

  /** The distance obeys the triangle inequality. */
  lemma DistanceTriangle(sq1: Pos, sq2: Pos, sq3: Pos)
    ensures Distance(sq1, sq3) <= Distance(sq1, sq2) + Distance(sq2, sq3)
  {
  }

  /** The squares touching a square are exactly those at distance one from it. */
  lemma TouchingIsDistanceOne(p: Pos, q: Pos)
    ensures Touching(p, q) <==> Distance(p, q) == 1
  {
  }

  /** The number of elements a generator yields, counted one by one. */
  function AsCount<T>(s: seq<T>): (n: nat)
    ensures n == |s|
  {
    if s == [] then 0 else 1 + AsCount(s[1..])
  }

  /** The condition "the square is in `seen`". */
  function SeenFn(seen: set<Pos>): (f: Cond)
    ensures forall row, col, value :: f(row, col, value) <==> Pos(row, col) in seen
  {
    (row, col, value) => Pos(row, col) in seen
  }

  /** The negation of a condition. */
  function NotCondFn(condFn: Cond): (f: Cond)
    ensures forall row, col, value :: f(row, col, value) <==> !condFn(row, col, value)
  {
    (row, col, value) => !condFn(row, col, value)
  }

  /** The conjunction of two conditions. */
  function ComposeCond(condFn1: Cond, condFn2: Cond): (f: Cond)
    ensures forall row, col, value :: f(row, col, value) <==> condFn1(row, col, value) && condFn2(row, col, value)
  {
    (row, col, value) => condFn1(row, col, value) && condFn2(row, col, value)
  }

  /** The nine squares of the 3 x 3 block centred on (row, col), row by row. */
  function Window(row: int, col: int): (r: seq<Pos>)
    ensures |r| == 9
  {
    [Pos(row - 1, col - 1), Pos(row - 1, col), Pos(row - 1, col + 1),
     Pos(row, col - 1), Pos(row, col), Pos(row, col + 1),
     Pos(row + 1, col - 1), Pos(row + 1, col), Pos(row + 1, col + 1)]
  }

  /** The window holds the centre and the squares touching it, each once. */
  lemma WindowHoldsNeighbours(row: int, col: int)
    ensures forall q :: q in Window(row, col) <==> q == Pos(row, col) || Touching(Pos(row, col), q)
    ensures Distinct(Window(row, col))
  {
  }

  /** The positions of a list of squares, in order. */
  function Positions(r: seq<Square>): (ps: seq<Pos>)
    ensures |ps| == |r|
    ensures forall i :: 0 <= i < |r| ==> ps[i] == r[i].Position()
  {
    if r == [] then [] else [r[0].Position()] + Positions(r[1..])
  }

  /** The squares of `ps`, other than `centre`, that are on the board and satisfy
      `condFn`, each with its value, in the order of `ps`. */
  function Collect(look: Lookup, ps: seq<Pos>, centre: Pos, condFn: Cond): (r: seq<Square>)
    ensures |r| <= |ps| && (centre in ps ==> |r| < |ps|)
    ensures forall sq :: sq in r ==>
              && sq.Position() in ps && sq.Position() != centre
              && look(sq.Position()) == Some(sq.value) && condFn(sq.row, sq.col, sq.value)
    ensures forall p :: p in ps && p != centre && look(p).Some? && condFn(p.row, p.col, look(p).value) ==>
              Square(p.row, p.col, look(p).value) in r
  {
    if ps == [] then []
    else
      var p, v := ps[0], look(ps[0]);
      var rest := Collect(look, ps[1..], centre, condFn);
      if v.Some? && p != centre && condFn(p.row, p.col, v.value) then
        assert forall sq :: sq in rest ==> sq.Position() in ps[1..];
        [Square(p.row, p.col, v.value)] + rest
      else rest
  }

  /** Collecting from distinct positions yields squares at distinct positions. */
  lemma {:induction false} CollectDistinct(look: Lookup, ps: seq<Pos>, centre: Pos, condFn: Cond)
    requires Distinct(ps)
    ensures Distinct(Positions(Collect(look, ps, centre, condFn)))
  {
    if ps != [] {
      var p, v := ps[0], look(ps[0]);
      var rest := Collect(look, ps[1..], centre, condFn);
      CollectDistinct(look, ps[1..], centre, condFn);
      if v.Some? && p != centre && condFn(p.row, p.col, v.value) {
        var sq := Square(p.row, p.col, v.value);
        assert ([sq] + rest)[1..] == rest;
        assert Positions([sq] + rest) == [p] + Positions(rest);
        assert p !in ps[1..];
        forall i | 0 <= i < |rest|
          ensures Positions(rest)[i] != p
        {
          assert rest[i] in rest;
        }
      }
    }
  }

  /** The squares surrounding (row, col) that are on the board and satisfy `conditionFn`,
      as (row, column, value) squares in row-major order. */
  function GetSurroundingSquares(look: Lookup, row: int, col: int, conditionFn: Cond): (r: seq<Square>)
    ensures |r| <= 8
    ensures forall sq :: sq in r ==>
              && Touching(Pos(row, col), sq.Position())
              && look(sq.Position()) == Some(sq.value) && conditionFn(sq.row, sq.col, sq.value)
    ensures forall q :: Touching(Pos(row, col), q) && look(q).Some? && conditionFn(q.row, q.col, look(q).value) ==>
              Square(q.row, q.col, look(q).value) in r
    ensures Distinct(Positions(r))
  {
    WindowHoldsNeighbours(row, col);
    CollectDistinct(look, Window(row, col), Pos(row, col), conditionFn);
    Collect(look, Window(row, col), Pos(row, col), conditionFn)
  }

  /** The positions around (row, col), among the eight the game lists, that are on
      the board and satisfy `condFn`. */
  ghost function Around(look: Lookup, row: int, col: int, condFn: Cond): set<Pos>
  {
    set q | q in Adjacent(Pos(row, col)) && look(q).Some? && condFn(q.row, q.col, look(q).value)
  }

  /** A list of squares at distinct positions, whose positions make up `a`, is as
      long as `a` is large. */
  lemma PositionsCount(r: seq<Square>, a: set<Pos>)
    requires Distinct(Positions(r))
    requires forall i | 0 <= i < |r| :: r[i].Position() in a
    requires forall q | q in a :: exists i | 0 <= i < |r| :: r[i].Position() == q
    ensures |r| == |a|
  {
    var ps := Positions(r);
    DistinctSize(ps);
    assert Elems(ps) == a;
  }

  /** Counting the surrounding squares counts the qualifying neighbours. */
  lemma SurroundingCount(look: Lookup, row: int, col: int, condFn: Cond)
    ensures AsCount(GetSurroundingSquares(look, row, col, condFn)) == |Around(look, row, col, condFn)|
  {
    var r, around := GetSurroundingSquares(look, row, col, condFn), Around(look, row, col, condFn);
    AdjacentAreTouching(Pos(row, col));
    forall i | 0 <= i < |r|
      ensures r[i].Position() in around
    {
      assert r[i] in r;
    }
    forall q | q in around
      ensures exists i | 0 <= i < |r| :: r[i].Position() == q
    {
      var sq := Square(q.row, q.col, look(q).value);
      assert sq in r;
      var i :| 0 <= i < |r| && r[i] == sq;
      assert r[i].Position() == q;
    }
    PositionsCount(r, around);
  }

  /** A condition and its negation split the surrounding squares between them. */
  lemma NotCondSplits(look: Lookup, row: int, col: int, condFn: Cond)
    ensures AsCount(GetSurroundingSquares(look, row, col, condFn))
          + AsCount(GetSurroundingSquares(look, row, col, NotCondFn(condFn)))
         == AsCount(GetSurroundingSquares(look, row, col, Always))
  {
    AroundSplits(look, row, col, condFn);
    SurroundingCount(look, row, col, condFn);
    SurroundingCount(look, row, col, NotCondFn(condFn));
    SurroundingCount(look, row, col, Always);
  }

  /** The neighbours satisfying a condition and those failing it are disjoint and
      together make up all the neighbours on the board. */
  lemma AroundSplits(look: Lookup, row: int, col: int, condFn: Cond)
    ensures |Around(look, row, col, condFn)| + |Around(look, row, col, NotCondFn(condFn))|
         == |Around(look, row, col, Always)|
  {
    var a, b := Around(look, row, col, condFn), Around(look, row, col, NotCondFn(condFn));
    assert a + b == Around(look, row, col, Always);
    assert a !! b;
  }

  /** Composing two conditions keeps exactly the squares both keep. */
  lemma ComposeCondIntersects(look: Lookup, row: int, col: int, condFn1: Cond, condFn2: Cond)
    ensures forall sq :: sq in GetSurroundingSquares(look, row, col, ComposeCond(condFn1, condFn2)) <==>
              sq in GetSurroundingSquares(look, row, col, condFn1) && sq in GetSurroundingSquares(look, row, col, condFn2)
  {
    var both := ComposeCond(condFn1, condFn2);
    forall sq | sq in GetSurroundingSquares(look, row, col, condFn1) && sq in GetSurroundingSquares(look, row, col, condFn2)
      ensures sq in GetSurroundingSquares(look, row, col, both)
    {
      var q := sq.Position();
      assert Square(q.row, q.col, look(q).value) == sq;
    }
  }

  /** Filtering with `seenFn(seen)` keeps exactly the surrounding squares in `seen`. */
  lemma SeenFnSelects(look: Lookup, row: int, col: int, seen: set<Pos>)
    ensures Around(look, row, col, SeenFn(seen)) ==
              set q | q in seen && Touching(Pos(row, col), q) && look(q).Some?
  {
    AdjacentAreTouching(Pos(row, col));
  }

  /** One draw of `randint` for each of rows, columns and mines. */
  datatype Draw = Draw(rows: int, cols: int, mines: int)

  /** The number of squares of the drawn board. */
  function Area(d: Draw): int
  {
    d.rows * d.cols
  }

  /** Numbers `randint` may return for one call of `getRandomConfig`: rows and columns
      in 1 .. 100 and, when the board has more than one square, mines in
      1 .. rows*cols - 1. */
  predicate InRange(d: Draw)
  {
    1 <= d.rows <= 100 && 1 <= d.cols <= 100 && (Area(d) != 1 ==> 1 <= d.mines <= Area(d) - 1)
  }

  /** A random game configuration: the draws are tried in order until one gives a
      board with more than one square; `None` when the draws run out first. */
  function GetRandomConfig(draws: seq<Draw>): (r: Option<Draw>)
    requires forall d | d in draws :: InRange(d)
    ensures r.Some? ==>
              && 1 <= r.value.rows <= 100 && 1 <= r.value.cols <= 100
              && Area(r.value) > 1 && 1 <= r.value.mines < Area(r.value)
    ensures r.Some? ==> r.value in draws
    ensures r.None? <==> forall d | d in draws :: Area(d) == 1
  {
    if draws == [] then None
    else if Area(draws[0]) == 1 then
      assert forall d | d in draws :: d == draws[0] || d in draws[1..];
      GetRandomConfig(draws[1..])
    else
      assert draws[0] in draws;
      assert InRange(draws[0]);
      Some(draws[0])
  }
}
