/** Snowballs as values, the full board state, and snowballInPosition
    (model/Snowball.java, model/GameState.java, model/BoardModel.java). */
module GameStates {
  import opened Wrappers
  import opened SnowballTypes
  import opened Grids

  /** A position on the grid: the row/col pair of model/MobileElement.java. */
  datatype Pos = Pos(row: int, col: int)

  /** A snowball as a value: its position and its tier. */
  datatype Snowball = Snowball(row: int, col: int, snowballType: SnowballType)

  /** The snapshot of model/GameState.java: grid, monster position and
      snowball list; the getters are the field names. */
  datatype GameState = GameState(boardState: Grid, monsterState: Pos, snowballsState: seq<Snowball>)

  predicate At(b: Snowball, row: int, col: int)
  {
    b.row == row && b.col == col
  }

  /** No snowball of `sbs` stands on (row, col). */
  ghost predicate Free(sbs: seq<Snowball>, row: int, col: int)
  {
    forall k :: 0 <= k < |sbs| ==> !At(sbs[k], row, col)
  }

  /** snowballInPosition: the index of the first snowball, in list order,
      that stands on (row, col), or `None` (the source's `null`). */
  function SnowballInPosition(sbs: seq<Snowball>, row: int, col: int): (res: Option<nat>)
    ensures res.Some? ==> res.value < |sbs| && At(sbs[res.value], row, col)
    ensures res.Some? ==> forall k :: 0 <= k < res.value ==> !At(sbs[k], row, col)
    ensures res.None? <==> Free(sbs, row, col)
  {
    FirstFrom(sbs, row, col, 0)
  }

  function FirstFrom(sbs: seq<Snowball>, row: int, col: int, from: nat): (res: Option<nat>)
    requires from <= |sbs|
    ensures res.Some? ==> from <= res.value < |sbs| && At(sbs[res.value], row, col)
    ensures res.Some? ==> forall k :: from <= k < res.value ==> !At(sbs[k], row, col)
    ensures res.None? <==> forall k :: from <= k < |sbs| ==> !At(sbs[k], row, col)
    decreases |sbs| - from
  {
    if from == |sbs| then None
    else if At(sbs[from], row, col) then Some(from)
    else FirstFrom(sbs, row, col, from + 1)
  }

  /** The state is well formed for the monster's moves: the grid is a
      rectangle and the monster stands on it. */
  ghost predicate Placed(s: GameState)
  {
    Rectangular(s.boardState) && InBounds(s.boardState, s.monsterState.row, s.monsterState.col)
  }
}
