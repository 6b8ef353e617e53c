/** The board grid: a rectangle of cell kinds (model/PositionContent.java)
    and the read-only queries of model/BoardModel.java over it. */
module Grids {
  import opened Wrappers

  datatype PositionContent = NoSnow | Snow | Block | Snowman

  /** Row-major grid, `g[row][col]`; the source keeps a list of row lists. */
  type Grid = seq<seq<PositionContent>>

  /** getRows. */
  function Rows(g: Grid): nat
  {
    |g|
  }

  /** getCols: the width of row 0, or 0 on an empty board. */
  function Cols(g: Grid): nat
  {
    if |g| == 0 then 0 else |g[0]|
  }

  /** Every row has the width of row 0. */
  ghost predicate Rectangular(g: Grid)
  {
    forall r :: 0 <= r < |g| ==> |g[r]| == Cols(g)
  }

  /** The bounds test of validPosition, which measures columns on row 0. */
  predicate InBounds(g: Grid, row: int, col: int)
  {
    0 <= row < Rows(g) && 0 <= col < Cols(g)
  }

  ghost predicate SameShape(g1: Grid, g2: Grid)
  {
    |g1| == |g2| && forall r :: 0 <= r < |g1| ==> |g1[r]| == |g2[r]|
  }

  /** getPositionContent: the cell, or an out-of-range failure. On a
      rectangular grid it fails exactly outside [0,rows) x [0,cols). */
  function GetPositionContent(g: Grid, row: int, col: int): (res: Result<PositionContent>)
    ensures Rectangular(g) ==> (res.Ok? <==> InBounds(g, row, col))
    ensures res.Ok? ==> 0 <= row < |g| && 0 <= col < |g[row]| && res.value == g[row][col]
  {
    if row < 0 || row >= |g| || col < 0 || col >= |g[row]| then OutOfBounds
    else Ok(g[row][col])
  }

  /** validPosition: on the board and not a BLOCK. NO_SNOW, SNOW and SNOWMAN
      cells are all valid. */
  function ValidPosition(g: Grid, row: int, col: int): (v: bool)
    requires Rectangular(g)
    ensures v ==> GetPositionContent(g, row, col).Ok?
    ensures GetPositionContent(g, row, col).Ok? ==>
      (v <==> g[row][col] in {NoSnow, Snow, Snowman})
  {
    if row < 0 || row >= |g| || col < 0 || col >= Cols(g) then false
    else g[row][col] != Block
  }

  /** setPositionContent, on a value: one cell replaced, shape and every
      other cell kept. */
  function SetCell(g: Grid, row: int, col: int, v: PositionContent): (g': Grid)
    requires 0 <= row < |g| && 0 <= col < |g[row]|
    ensures SameShape(g', g)
    ensures g'[row][col] == v
    ensures forall r, c :: 0 <= r < |g| && 0 <= c < |g[r]| && (r != row || c != col) ==> g'[r][c] == g[r][c]
  {
    g[row := g[row][col := v]]
  }

  /** The level is complete when some cell holds a SNOWMAN. */
  ghost predicate HasSnowman(g: Grid)
  {
    exists r, c :: 0 <= r < |g| && 0 <= c < |g[r]| && g[r][c] == Snowman
  }

  lemma SameShapeRectangular(g1: Grid, g2: Grid)
    requires SameShape(g1, g2) && Rectangular(g2)
    ensures Rectangular(g1) && Cols(g1) == Cols(g2)
  {
    if |g1| > 0 {
      assert |g1[0]| == |g2[0]|;
    }
  }

  lemma SameShapeTransitive(g1: Grid, g2: Grid, g3: Grid)
    requires SameShape(g1, g2) && SameShape(g2, g3)
    ensures SameShape(g1, g3)
  {
  }

  /** Grids of the same shape that agree on every cell are equal. */
  lemma SameCells(g: Grid, h: Grid)
    requires SameShape(g, h)
    requires forall r, c :: 0 <= r < |g| && 0 <= c < |g[r]| ==> g[r][c] == h[r][c]
    ensures g == h
  {
    forall r | 0 <= r < |g|
      ensures g[r] == h[r]
    {
    }
  }

  /** Writing the value a cell already holds changes nothing. */
  lemma SetCellUnchanged(g: Grid, row: int, col: int, v: PositionContent)
    requires 0 <= row < |g| && 0 <= col < |g[row]| && g[row][col] == v
    ensures SetCell(g, row, col, v) == g
  {
    assert g[row][col := v] == g[row];
  }
}
