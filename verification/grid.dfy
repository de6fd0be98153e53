/** Grid geometry: cells of the square board and the four unit directions. */
module Grid {

  /** A board cell; (0, 0) is the top-left corner and y grows downwards. */
  datatype Cell = Cell(x: int, y: int)

  /** A movement vector, applied to the head once per tick. */
  datatype Dir = Dir(x: int, y: int)

  const Up := Dir(0, -1)
  const Down := Dir(0, 1)
  const Left := Dir(-1, 0)
  const Right := Dir(1, 0)

  /** The directions the game ever holds. */
  predicate IsUnit(d: Dir) {
    d == Up || d == Down || d == Left || d == Right
  }

  /** The cell is on a board of `tileCount` x `tileCount` cells. */
  predicate InGrid(c: Cell, tileCount: int) {
    0 <= c.x < tileCount && 0 <= c.y < tileCount
  }

  /** The direction pointing the other way. */
  function Opposite(d: Dir): (r: Dir)
    ensures IsUnit(d) ==> IsUnit(r) && r != d
  {
    Dir(-d.x, -d.y)
  }

  /** The neighbouring cell reached by moving one step along `d`. */
  function Move(c: Cell, d: Dir): (r: Cell)
    ensures IsUnit(d) ==> r != c
  {
    Cell(c.x + d.x, c.y + d.y)
  }

  /** Stepping along `d` and then back along its opposite returns to the start. */
  lemma MoveThenBack(c: Cell, d: Dir)
    ensures Opposite(Opposite(d)) == d
    ensures Move(Move(c, d), Opposite(d)) == c
  {
  }

  /** The cells of row `y` with x below `width`. */
  function RowCells(y: int, width: nat): (r: set<Cell>)
    ensures |r| == width
    ensures forall c :: c in r <==> 0 <= c.x < width && c.y == y
  {
    if width == 0 then {} else RowCells(y, width - 1) + {Cell(width - 1, y)}
  }

  /** The cells of the first `rows` rows, each `width` cells wide. */
  function BoardCells(width: nat, rows: nat): (r: set<Cell>)
    ensures |r| == width * rows
    ensures forall c :: c in r <==> 0 <= c.x < width && 0 <= c.y < rows
  {
    if rows == 0 then {}
    else
      var above := BoardCells(width, rows - 1);
      var row := RowCells(rows - 1, width);
      assert above !! row;
      assert width * (rows - 1) + width == width * rows;
      above + row
  }

  /** A subset is no larger than its superset. */
  lemma {:induction false} SubsetCardinality(a: set<Cell>, b: set<Cell>)
    requires a <= b
    ensures |a| <= |b|
    decreases |b|
  {
    if a != {} {
      var x :| x in a;
      SubsetCardinality(a - {x}, b - {x});
    }
  }
}
