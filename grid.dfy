/**
 The board of a Minesweeper game as the game stores it: `rows` lists of `cols`
 one-character strings, addressed by zero-based (row, column) pairs. Shared by
 the game, the helper functions of the automatic player and the solver.
 */
module Grid {

  datatype Option<+T> = None | Some(value: T)

  /** A square of the board, by zero-based row and column. */
  datatype Pos = Pos(row: int, col: int)

  /** The raw board: its dimensions and one row of characters per board row. */
  datatype RawBoard = RawBoard(rows: nat, cols: nat, cells: seq<seq<char>>)

  /** A board whose shape agrees with its dimensions. */
  type Board = b: RawBoard | |b.cells| == b.rows && forall i | 0 <= i < |b.cells| :: |b.cells[i]| == b.cols
    witness RawBoard(0, 0, [])

  predicate InBounds(b: Board, p: Pos)
  {
    0 <= p.row < b.rows && 0 <= p.col < b.cols
  }

  /** Bounds-checked lookup: nothing off the board, the stored character on it. */
  function SafeGet(b: Board, rowCol: Pos): (v: Option<char>)
    ensures v.None? <==> !(0 <= rowCol.row < b.rows && 0 <= rowCol.col < b.cols)
    ensures v.Some? ==> v.value == b.cells[rowCol.row][rowCol.col]
  {
    if rowCol.row < 0 || rowCol.row >= b.rows || rowCol.col < 0 || rowCol.col >= b.cols then None
    else Some(b.cells[rowCol.row][rowCol.col])
  }

  /** The board with one square overwritten, as `board[row][col] = ch` does. */
  function Write(b: Board, p: Pos, ch: char): (r: Board)
    requires InBounds(b, p)
    ensures r.rows == b.rows && r.cols == b.cols
    ensures forall q :: SafeGet(r, q) == if q == p then Some(ch) else SafeGet(b, q)
  {
    var row := b.cells[p.row][p.col := ch];
    RawBoard(b.rows, b.cols, b.cells[p.row := row])
  }

  /** A rows x cols board holding `ch` everywhere. */
  function Filled(rows: nat, cols: nat, ch: char): (r: Board)
    ensures r.rows == rows && r.cols == cols
    ensures forall q :: InBounds(r, q) ==> SafeGet(r, q) == Some(ch)
  {
    RawBoard(rows, cols, seq(rows, _ => seq(cols, _ => ch)))
  }

  /** Every square of a rows x cols board. */
  function Rect(rows: nat, cols: nat): (r: set<Pos>)
    ensures forall p :: p in r <==> 0 <= p.row < rows && 0 <= p.col < cols
  {
    set i, j | 0 <= i < rows && 0 <= j < cols :: Pos(i, j)
  }

  /** The squares of one row, `row`, in columns 0 .. cols-1. */
  function RowSquares(row: int, cols: nat): (r: set<Pos>)
    ensures forall p :: p in r <==> p.row == row && 0 <= p.col < cols
  {
    set j | 0 <= j < cols :: Pos(row, j)
  }

  lemma {:induction false} RowSquaresSize(row: int, cols: nat)
    ensures |RowSquares(row, cols)| == cols
  {
    if cols > 0 {
      RowSquaresSize(row, cols - 1);
      assert RowSquares(row, cols) == RowSquares(row, cols - 1) + {Pos(row, cols - 1)};
    }
  }

  /** A board has rows * cols squares. */
  lemma {:induction false} RectSize(rows: nat, cols: nat)
    ensures |Rect(rows, cols)| == rows * cols
  {
    if rows > 0 {
      assert |Rect(rows, cols)| == (rows - 1) * cols + cols by {
        var upper, last := Rect(rows - 1, cols), RowSquares(rows - 1, cols);
        RectSize(rows - 1, cols);
        RowSquaresSize(rows - 1, cols);
        assert Rect(rows, cols) == upper + last;
        assert upper * last == {};
        assert |upper + last| == |upper| + |last|;
      }
      assert (rows - 1) * cols + cols == rows * cols;
    }
  }

  /** Squares sharing an edge or a corner with `p`, `p` itself excluded. */
  predicate Touching(p: Pos, q: Pos)
  {
    p != q && -1 <= q.row - p.row <= 1 && -1 <= q.col - p.col <= 1
  }

  /** The eight neighbour coordinates in the order the game lists them. */
  function Adjacent(p: Pos): (r: seq<Pos>)
    ensures |r| == 8
  {
    var row, col := p.row, p.col;
    [Pos(row - 1, col - 1), Pos(row - 1, col), Pos(row - 1, col + 1), Pos(row, col - 1),
     Pos(row, col + 1), Pos(row + 1, col - 1), Pos(row + 1, col), Pos(row + 1, col + 1)]
  }

  /** The eight coordinates are distinct and are exactly the squares touching `p`. */
  lemma AdjacentAreTouching(p: Pos)
    ensures forall q :: q in Adjacent(p) <==> Touching(p, q)
    ensures Distinct(Adjacent(p))
  {
  }

  predicate Distinct<T(==)>(s: seq<T>)
  {
    forall i, j | 0 <= i < j < |s| :: s[i] != s[j]
  }

  function Elems<T(==)>(s: seq<T>): set<T>
  {
    set x | x in s
  }

  /** A list without repetitions has as many elements as its set. */
  lemma {:induction false} DistinctSize<T>(s: seq<T>)
    requires Distinct(s)
    ensures |Elems(s)| == |s|
  {
    if s != [] {
      DistinctSize(s[1..]);
      assert Elems(s) == {s[0]} + Elems(s[1..]);
      assert s[0] !in Elems(s[1..]);
    }
  }

  /** A subset as large as its superset is the superset. */
  lemma SubsetSameSize<T>(a: set<T>, b: set<T>)
    requires a <= b && |a| == |b|
    ensures a == b
  {
    assert |b - a| == |b| - |a|;
  }

  /** The digit characters, as Python's `str.isdigit` tests them on one ASCII character. */
  predicate IsDigit(ch: char)
  {
    '0' <= ch <= '9'
  }

  /** Python's `int` applied to a one-digit string. */
  function DigitValue(ch: char): (n: nat)
    requires IsDigit(ch)
    ensures n <= 9
  {
    ch as int - '0' as int
  }
}
