/** The hexagon background: which hexagons the cache pixmap is painted with,
    where their centres are and which of the three greys each one gets.
    The hexagon outlines (six vertices by sine and cosine) are not modelled. */
module HexTiling {

  const HexRadius := 12
  /** `hex_h * 0.75` with `hex_h = 2 * r`: consecutive rows are 18 pixels apart. */
  const RowStep: real := 18.0
  /** `sqrt(3) * r` as a double. The proofs use only that it is positive. */
  const HexWidth: real := 20.784609690826528

  /** A hexagon of the background: its grid position, its centre and its
      colour index into (light, mid, dark). */
  datatype HexCell = HexCell(row: int, col: int, cx: real, cy: real, colour: int)

  /** `((row % 3) + col) % 3` with Python's floor modulo, which agrees with
      Dafny's `%` for a positive divisor. */
  function ColourIndex(row: int, col: int): (ci: int)
    ensures 0 <= ci < 3
  {
    ((row % 3) + col) % 3
  }

  /** Neighbours in a row never share a colour, nor do hexagons directly
      above each other, and the pattern repeats every three rows and every
      three columns. */
  lemma ColoursAlternate(row: int, col: int)
    ensures ColourIndex(row, col + 1) != ColourIndex(row, col)
    ensures ColourIndex(row + 1, col) != ColourIndex(row, col)
    ensures ColourIndex(row + 3, col) == ColourIndex(row, col)
    ensures ColourIndex(row, col + 3) == ColourIndex(row, col)
  {
  }

  /** Floor modulo on -1: row -1 counts as odd (`-1 % 2 == 1`) and colours
      like row 2 (`-1 % 3 == 2`). */
  lemma RowMinusOne()
    ensures ColourIndex(-1, -1) == 1 && ColourIndex(-1, 0) == 2 && (-1) % 2 == 1
  {
  }

  /** `int(h / row_step) + 3` for a positive height: the loop's rows stop
      three past the last whole row step inside the height. */
  function RowCount(h: int): (rows: int)
    requires h > 0
    ensures rows >= 3
    ensures (rows - 3) * 18 <= h < (rows - 2) * 18
  {
    h / 18 + 3
  }

  /** `int(w / hex_w) + 3` for a positive width: the loop's columns stop
      three past the last whole hexagon width inside the width. */
  function ColCount(w: int, hexW: real): (cols: int)
    requires w > 0 && hexW > 0.0
    ensures cols >= 3
    ensures (cols - 3) as real * hexW <= w as real < (cols - 2) as real * hexW
  {
    FloorScaled(w as real, hexW);
    (w as real / hexW).Floor + 3
  }

  /** The hexagon at `(row, col)`: rows with `row % 2 == 1`, row -1 among
      them, are shifted right by half a hexagon. */
  function Cell(row: int, col: int, hexW: real): HexCell {
    HexCell(row, col,
      col as real * hexW + (if row % 2 == 1 then hexW * 0.5 else 0.0),
      row as real * RowStep,
      ColourIndex(row, col))
  }

  /** Row `row` in the inner loop's order: columns -1 up to `cols - 1`. */
  function RowCells(row: int, cols: int, hexW: real): (cells: seq<HexCell>)
    requires cols >= 0
    ensures |cells| == cols + 1
  {
    seq(cols + 1, j requires 0 <= j <= cols => Cell(row, j - 1, hexW))
  }

  /** Rows `lo` up to `hi - 1` in the outer loop's order. */
  function Rows(lo: int, hi: int, cols: int, hexW: real): seq<HexCell>
    requires cols >= 0
    decreases hi - lo
  {
    if hi <= lo then [] else Rows(lo, hi - 1, cols, hexW) + RowCells(hi - 1, cols, hexW)
  }

  /** Every hexagon the loops paint for a `w` x `h` cache: one per row
      `-1 .. RowCount(h) - 1` and column `-1 .. ColCount - 1`, at its place in
      the grid and with its colour. */
  function Tiling(w: int, h: int, hexW: real): (cells: seq<HexCell>)
    requires w > 0 && h > 0 && hexW > 0.0
    ensures forall c :: c in cells <==>
      -1 <= c.row < RowCount(h) && -1 <= c.col < ColCount(w, hexW) && c == Cell(c.row, c.col, hexW)
  {
    var cells := Rows(-1, RowCount(h), ColCount(w, hexW), hexW);
    forall c ensures c in cells <==>
      -1 <= c.row < RowCount(h) && -1 <= c.col < ColCount(w, hexW) && c == Cell(c.row, c.col, hexW)
    {
      RowsHoldExactly(-1, RowCount(h), ColCount(w, hexW), hexW, c);
    }
    cells
  }

  /** Exactly the cells of rows `lo..hi-1` and columns `-1..cols-1` are painted. */
  lemma {:induction false} RowsHoldExactly(lo: int, hi: int, cols: int, hexW: real, c: HexCell)
    requires cols >= 0
    ensures c in Rows(lo, hi, cols, hexW) <==>
      lo <= c.row < hi && -1 <= c.col < cols && c == Cell(c.row, c.col, hexW)
    decreases hi - lo
  {
    if hi > lo {
      RowsHoldExactly(lo, hi - 1, cols, hexW, c);
      var last := RowCells(hi - 1, cols, hexW);
      if c.row == hi - 1 && -1 <= c.col < cols && c == Cell(c.row, c.col, hexW) {
        assert last[c.col + 1] == c;
      }
    }
  }

  /** The painted rows reach one row step beyond the top and bottom edges of
      the pixmap, and the columns at least half a hexagon beyond the left edge
      and one hexagon width beyond the right edge (the half-width shift of odd
      rows only moves them further right), so the hexagons cover the whole
      pixmap. */
  lemma {:induction false} TilingPassesEdges(w: int, h: int, hexW: real)
    requires w > 0 && h > 0 && hexW > 0.0
    ensures Cell(-1, 0, hexW).cy == -RowStep
    ensures Cell(RowCount(h) - 1, 0, hexW).cy >= h as real + RowStep
    ensures forall r :: Cell(r, -1, hexW).cx <= -hexW * 0.5
    ensures Cell(0, ColCount(w, hexW) - 1, hexW).cx > w as real + hexW
  {
    var x := w as real / hexW;
    var q := x.Floor;
    assert x * hexW == w as real;
    MulStrict(q as real + 1.0, x, hexW);
    assert (ColCount(w, hexW) - 1) as real * hexW == (q as real + 1.0) * hexW + hexW;
    assert (ColCount(w, hexW) - 1) as real * hexW > w as real + hexW;
    assert Cell(0, ColCount(w, hexW) - 1, hexW).cx == (ColCount(w, hexW) - 1) as real * hexW;
    assert (h / 18) * 18 > h - 18;
  }

  /** The whole number of `c`-wide steps inside `v`, times `c`, is at most
      `v`, and one more step passes it. */
  lemma FloorScaled(v: real, c: real)
    requires c > 0.0
    ensures (v / c).Floor as real * c <= v < ((v / c).Floor as real + 1.0) * c
  {
    var x := v / c;
    var f := x.Floor as real;
    assert x * c == v;
    MulStrict(f + 1.0, x, c);
    MulAtMost(f, x, c);
    assert v < (f + 1.0) * c;
  }

  lemma MulAtMost(a: real, b: real, c: real)
    requires a <= b && c > 0.0
    ensures a * c <= b * c
  {
  }

  lemma MulStrict(a: real, b: real, c: real)
    requires a > b && c > 0.0
    ensures a * c > b * c
  {
  }
}
