/** The four movement directions of the game and their grid deltas
    (model/Direction.java). Rows grow downwards, columns to the right. */
module Directions {

  datatype Direction = Up | Down | Left | Right

  /** The change in row index of one step in direction `d`. */
  function DeltaRow(d: Direction): (dr: int)
    ensures dr == -1 <==> d == Up
    ensures dr == 1 <==> d == Down
    ensures dr == 0 <==> d == Left || d == Right
  {
    match d
    case Up => -1
    case Down => 1
    case Left => 0
    case Right => 0
  }

  /** The change in column index of one step in direction `d`. */
  function DeltaCol(d: Direction): (dc: int)
    ensures dc == -1 <==> d == Left
    ensures dc == 1 <==> d == Right
    ensures dc == 0 <==> d == Up || d == Down
  {
    match d
    case Up => 0
    case Down => 0
    case Left => -1
    case Right => 1
  }

  /** Every direction is a unit step along exactly one axis. */
  lemma UnitStep(d: Direction)
    ensures (DeltaRow(d) == 0) != (DeltaCol(d) == 0)
    ensures DeltaRow(d) * DeltaRow(d) + DeltaCol(d) * DeltaCol(d) == 1
  {
  }

  /** UP undoes DOWN and LEFT undoes RIGHT. */
  lemma OppositeDeltas()
    ensures DeltaRow(Up) == -DeltaRow(Down) && DeltaCol(Up) == -DeltaCol(Down)
    ensures DeltaRow(Left) == -DeltaRow(Right) && DeltaCol(Left) == -DeltaCol(Right)
  {
  }
}
