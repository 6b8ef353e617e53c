/** Move resolution on board values: Snowball.move, tryToCombineSnowballs and
    Monster.move (model/Snowball.java, model/Monster.java), with the
    structural invariants every successful move preserves. */
module Moves {
  import opened Wrappers
  import opened Directions
  import opened SnowballTypes
  import opened Grids
  import opened GameStates

  /** List removal by position; the source removes by object identity, which
      is removal of that object's position in the list. */
  function RemoveAt<T>(s: seq<T>, k: nat): (r: seq<T>)
    requires k < |s|
    ensures |r| == |s| - 1
    ensures forall m :: 0 <= m < |r| ==> r[m] == s[if m < k then m else m + 1]
  {
    s[..k] + s[k+1..]
  }

  /** Removal takes exactly one occurrence of the removed element. */
  lemma RemoveAtMultiset<T>(s: seq<T>, k: nat)
    requires k < |s|
    ensures multiset(RemoveAt(s, k)) == multiset(s) - multiset{s[k]}
  {
    assert s == s[..k] + [s[k]] + s[k+1..];
  }

  /** The list without the mover `i` and the stationary snowball `j`, in
      the source's order of removal: `j` first, then `i`. The survivors keep
      their order. */
  function RemoveBoth(sbs: seq<Snowball>, i: nat, j: nat): (rest: seq<Snowball>)
    requires i < |sbs| && j < |sbs| && i != j
    ensures |rest| == |sbs| - 2
  {
    var withoutOther := RemoveAt(sbs, j);
    var i' := if i < j then i else i - 1;
    RemoveAt(withoutOther, i')
  }

  /** Exactly the mover and the stationary snowball leave the list. */
  lemma RemoveBothMultiset(sbs: seq<Snowball>, i: nat, j: nat)
    requires i < |sbs| && j < |sbs| && i != j
    ensures multiset(RemoveBoth(sbs, i, j)) == multiset(sbs) - multiset{sbs[i], sbs[j]}
  {
    var withoutOther := RemoveAt(sbs, j);
    var i' := if i < j then i else i - 1;
    assert withoutOther[i'] == sbs[i];
    RemoveAtMultiset(sbs, j);
    RemoveAtMultiset(withoutOther, i');
    calc {
      multiset(RemoveBoth(sbs, i, j));
      multiset(withoutOther) - multiset{sbs[i]};
      multiset(sbs) - multiset{sbs[j]} - multiset{sbs[i]};
      multiset(sbs) - multiset{sbs[i], sbs[j]};
    }
  }

  /** tryToCombineSnowballs: snowball `i` (the mover) is pushed into the cell
      of snowball `j` (the stationary one). On success both leave the list;
      a two-part result joins the end of the list at `j`'s cell, a COMPLETE
      result instead turns `j`'s cell into a SNOWMAN. On failure nothing changes. */
  function CombineSnowballs(s: GameState, i: nat, j: nat): (res: Option<GameState>)
    requires i < |s.snowballsState| && j < |s.snowballsState| && i != j
    requires var o := s.snowballsState[j]; 0 <= o.row < |s.boardState| && 0 <= o.col < |s.boardState[o.row]|
    ensures var t := CalculateCombinedType(s.snowballsState[i].snowballType, s.snowballsState[j].snowballType);
      res.Some? <==> t.Some?
    ensures res.Some? ==> res.value.monsterState == s.monsterState
    ensures res.Some? ==>
      var mover, other := s.snowballsState[i], s.snowballsState[j];
      var t := CalculateCombinedType(mover.snowballType, other.snowballType).value;
      var sbs' := res.value.snowballsState;
      if t == Complete then
        && |sbs'| == |s.snowballsState| - 2
        && res.value.boardState == SetCell(s.boardState, other.row, other.col, Snowman)
      else
        && |sbs'| == |s.snowballsState| - 1
        && sbs'[|sbs'| - 1] == Snowball(other.row, other.col, t)
        && res.value.boardState == s.boardState
  {
    var mover, other := s.snowballsState[i], s.snowballsState[j];
    match CalculateCombinedType(mover.snowballType, other.snowballType)
    case None => None
    case Some(t) =>
      var rest := RemoveBoth(s.snowballsState, i, j);
      if t == Complete then
        Some(s.(boardState := SetCell(s.boardState, other.row, other.col, Snowman), snowballsState := rest))
      else
        Some(s.(snowballsState := rest + [Snowball(other.row, other.col, t)]))
  }

  /** A combination consumes exactly its two snowballs; a two-part result
      adds exactly one new snowball, of the combined type, at the cell of
      the stationary one. Every other snowball survives unchanged. */
  lemma CombinationReplaces(s: GameState, i: nat, j: nat)
    requires i < |s.snowballsState| && j < |s.snowballsState| && i != j
    requires var o := s.snowballsState[j]; 0 <= o.row < |s.boardState| && 0 <= o.col < |s.boardState[o.row]|
    requires CombineSnowballs(s, i, j).Some?
    ensures var mover, other := s.snowballsState[i], s.snowballsState[j];
      var t := CalculateCombinedType(mover.snowballType, other.snowballType).value;
      var removed := multiset(s.snowballsState) - multiset{mover, other};
      multiset(CombineSnowballs(s, i, j).value.snowballsState) ==
        if t == Complete then removed else removed + multiset{Snowball(other.row, other.col, t)}
  {
    RemoveBothMultiset(s.snowballsState, i, j);
  }

  /** The cell one step from snowball `i` in direction `d`. */
  function Ahead(b: Snowball, d: Direction): Pos
  {
    Pos(b.row + DeltaRow(d), b.col + DeltaCol(d))
  }

  /** Snowball.move: snowball `i` is pushed one step in direction `d`.
      Fails on an invalid destination; combines with a snowball found there;
      otherwise moves, growing one size and clearing the cell if it held snow.
      Two-part tiers are pushed like any other. */
  function SnowballMove(s: GameState, i: nat, d: Direction): (res: Option<GameState>)
    requires i < |s.snowballsState| && Rectangular(s.boardState)
    ensures res.Some? ==> res.value.monsterState == s.monsterState && SameShape(res.value.boardState, s.boardState)
  {
    var sbs, g := s.snowballsState, s.boardState;
    var b := sbs[i];
    var dest := Ahead(b, d);
    if !ValidPosition(g, dest.row, dest.col) then None
    else match SnowballInPosition(sbs, dest.row, dest.col)
      case Some(j) =>
        UnitStep(d);
        CombineSnowballs(s, i, j)
      case None =>
        if g[dest.row][dest.col] == Snow then
          Some(GameState(SetCell(g, dest.row, dest.col, NoSnow), s.monsterState,
                         sbs[i := Snowball(dest.row, dest.col, IncreaseSnowballType(b.snowballType))]))
        else
          Some(s.(snowballsState := sbs[i := Snowball(dest.row, dest.col, b.snowballType)]))
  }

  /** The monster's target cell, computed by the switch in Monster.move; it
      agrees with the deltas of Direction. */
  function MonsterTarget(p: Pos, d: Direction): (t: Pos)
    ensures t == Pos(p.row + DeltaRow(d), p.col + DeltaCol(d))
  {
    match d
    case Up => Pos(p.row - 1, p.col)
    case Down => Pos(p.row + 1, p.col)
    case Left => Pos(p.row, p.col - 1)
    case Right => Pos(p.row, p.col + 1)
  }

  /** Monster.move: step to the target if it is valid, pushing first a
      snowball standing there; on success both the cell left and the cell
      entered become NO_SNOW. A failed move changes nothing. */
  function MonsterMove(s: GameState, d: Direction): (res: Option<GameState>)
    requires Placed(s)
    ensures var t := MonsterTarget(s.monsterState, d);
      var k := SnowballInPosition(s.snowballsState, t.row, t.col);
      res.Some? <==> ValidPosition(s.boardState, t.row, t.col) && (k.Some? ==> SnowballMove(s, k.value, d).Some?)
    ensures res.Some? ==>
      var m, t, g' := s.monsterState, MonsterTarget(s.monsterState, d), res.value.boardState;
      && Placed(res.value)
      && SameShape(g', s.boardState)
      && res.value.monsterState == t
      && g'[m.row][m.col] == NoSnow
      && g'[t.row][t.col] == NoSnow
    // Frame: apart from the two cells written NO_SNOW, the board and the
    // snowball list are what the push left them (the input state itself on
    // a step onto a cell no snowball holds).
    ensures res.Some? ==>
      var m, t, g' := s.monsterState, MonsterTarget(s.monsterState, d), res.value.boardState;
      var k := SnowballInPosition(s.snowballsState, t.row, t.col);
      var s1 := if k.None? then s else SnowballMove(s, k.value, d).value;
      && res.value.snowballsState == s1.snowballsState
      && forall r, c :: 0 <= r < |g'| && 0 <= c < |g'[r]| && Pos(r, c) != m && Pos(r, c) != t ==>
           g'[r][c] == s1.boardState[r][c]
  {
    var m := s.monsterState;
    var t := MonsterTarget(m, d);
    if !ValidPosition(s.boardState, t.row, t.col) then None
    else
      var pushed := match SnowballInPosition(s.snowballsState, t.row, t.col)
        case None => Some(s)
        case Some(k) => SnowballMove(s, k, d);
      match pushed
      case None => None
      case Some(s1) =>
        SameShapeRectangular(s1.boardState, s.boardState);
        var g1 := SetCell(s1.boardState, m.row, m.col, NoSnow);
        var g2 := SetCell(g1, t.row, t.col, NoSnow);
        SameShapeTransitive(g2, g1, s1.boardState);
        SameShapeTransitive(g2, s1.boardState, s.boardState);
        SameShapeRectangular(g2, s.boardState);
        Some(GameState(g2, t, s1.snowballsState))
  }

  /** The three outcomes of Monster.move spelled out: an invalid target, a
      failed push, and a move that writes NO_SNOW on the cell left (in the
      state after the push) and then on the cell entered. */
  lemma MonsterMoveCases(s: GameState, d: Direction)
    requires Placed(s)
    ensures var t := MonsterTarget(s.monsterState, d);
      !ValidPosition(s.boardState, t.row, t.col) ==> MonsterMove(s, d).None?
    ensures var t := MonsterTarget(s.monsterState, d);
      var k := SnowballInPosition(s.snowballsState, t.row, t.col);
      ValidPosition(s.boardState, t.row, t.col) && k.Some? && SnowballMove(s, k.value, d).None? ==>
        MonsterMove(s, d).None?
    ensures var m, t := s.monsterState, MonsterTarget(s.monsterState, d);
      var k := SnowballInPosition(s.snowballsState, t.row, t.col);
      ValidPosition(s.boardState, t.row, t.col) && (k.Some? ==> SnowballMove(s, k.value, d).Some?) ==>
        var s1 := if k.None? then s else SnowballMove(s, k.value, d).value;
        && SameShape(s1.boardState, s.boardState)
        && MonsterMove(s, d) == Some(GameState(SetCell(SetCell(s1.boardState, m.row, m.col, NoSnow), t.row, t.col, NoSnow), t, s1.snowballsState))
  {
  }

  /** A push toward an invalid cell (off the grid or a BLOCK) fails. */
  lemma SnowballMoveBlocked(s: GameState, i: nat, d: Direction)
    requires i < |s.snowballsState| && Rectangular(s.boardState)
    requires var dest := Ahead(s.snowballsState[i], d); !ValidPosition(s.boardState, dest.row, dest.col)
    ensures SnowballMove(s, i, d).None?
  {
  }

  /** A push onto a valid cell no snowball holds moves the snowball one step;
      the snowball grows one size exactly when that cell held SNOW, and the
      cell then becomes NO_SNOW; nothing else changes. */
  lemma SnowballMoveOntoFreeCell(s: GameState, i: nat, d: Direction)
    requires i < |s.snowballsState| && Rectangular(s.boardState)
    requires var dest := Ahead(s.snowballsState[i], d);
      ValidPosition(s.boardState, dest.row, dest.col) && Free(s.snowballsState, dest.row, dest.col)
    ensures SnowballMove(s, i, d).Some?
    ensures var b, dest, s' := s.snowballsState[i], Ahead(s.snowballsState[i], d), SnowballMove(s, i, d).value;
      var wasSnow := s.boardState[dest.row][dest.col] == Snow;
      && |s'.snowballsState| == |s.snowballsState|
      && s'.snowballsState[i] == Snowball(dest.row, dest.col, if wasSnow then IncreaseSnowballType(b.snowballType) else b.snowballType)
      && (forall k :: 0 <= k < |s.snowballsState| && k != i ==> s'.snowballsState[k] == s.snowballsState[k])
      && s'.monsterState == s.monsterState
      && s'.boardState == if wasSnow then SetCell(s.boardState, dest.row, dest.col, NoSnow) else s.boardState
  {
  }

  /** A push into a cell some snowball holds is a combination attempt with
      the first such snowball; its outcome is the push's outcome. */
  lemma SnowballMoveIntoSnowball(s: GameState, i: nat, d: Direction)
    requires i < |s.snowballsState| && Rectangular(s.boardState)
    requires var dest := Ahead(s.snowballsState[i], d);
      ValidPosition(s.boardState, dest.row, dest.col) && !Free(s.snowballsState, dest.row, dest.col)
    ensures var dest := Ahead(s.snowballsState[i], d);
      var j := SnowballInPosition(s.snowballsState, dest.row, dest.col).value;
      j != i && SnowballMove(s, i, d) == CombineSnowballs(s, i, j)
  {
    UnitStep(d);
  }

  /** A push without combination: the monster stops in the snowball's old
      cell and the snowball sits one cell further on. */
  lemma PushWithoutCombination(s: GameState, d: Direction)
    requires Placed(s)
    requires var t := MonsterTarget(s.monsterState, d);
      ValidPosition(s.boardState, t.row, t.col) && !Free(s.snowballsState, t.row, t.col)
    requires var t := MonsterTarget(s.monsterState, d);
      var k := SnowballInPosition(s.snowballsState, t.row, t.col).value;
      var dest := Ahead(s.snowballsState[k], d);
      ValidPosition(s.boardState, dest.row, dest.col) && Free(s.snowballsState, dest.row, dest.col)
    ensures MonsterMove(s, d).Some?
    ensures var t := MonsterTarget(s.monsterState, d);
      var k := SnowballInPosition(s.snowballsState, t.row, t.col).value;
      var s' := MonsterMove(s, d).value;
      && s'.monsterState == Pos(s.snowballsState[k].row, s.snowballsState[k].col)
      && |s'.snowballsState| == |s.snowballsState|
      && s'.snowballsState[k].row == t.row + DeltaRow(d)
      && s'.snowballsState[k].col == t.col + DeltaCol(d)
  {
    var t := MonsterTarget(s.monsterState, d);
    var k := SnowballInPosition(s.snowballsState, t.row, t.col).value;
    SnowballMoveOntoFreeCell(s, k, d);
  }

  /** SNOWMAN cells are passable: a monster walking onto a SNOWMAN cell
      that holds no snowball succeeds and leaves NO_SNOW there. */
  lemma MonsterErasesSnowman(s: GameState, d: Direction)
    requires Placed(s)
    requires var t := MonsterTarget(s.monsterState, d);
      InBounds(s.boardState, t.row, t.col) && s.boardState[t.row][t.col] == Snowman && Free(s.snowballsState, t.row, t.col)
    ensures MonsterMove(s, d).Some?
    ensures var t := MonsterTarget(s.monsterState, d);
      MonsterMove(s, d).value.boardState[t.row][t.col] == NoSnow
  {
  }

  /** When the push completes a snowman, the stationary snowball's cell holds
      SNOWMAN after the whole move: the monster's two writes fall elsewhere. */
  lemma CompletionLeavesSnowman(s: GameState, d: Direction)
    requires Placed(s)
    requires var t := MonsterTarget(s.monsterState, d);
      ValidPosition(s.boardState, t.row, t.col) && !Free(s.snowballsState, t.row, t.col)
    requires var t := MonsterTarget(s.monsterState, d);
      var k := SnowballInPosition(s.snowballsState, t.row, t.col).value;
      var dest := Ahead(s.snowballsState[k], d);
      ValidPosition(s.boardState, dest.row, dest.col) && !Free(s.snowballsState, dest.row, dest.col)
    requires var t := MonsterTarget(s.monsterState, d);
      var k := SnowballInPosition(s.snowballsState, t.row, t.col).value;
      var dest := Ahead(s.snowballsState[k], d);
      var j := SnowballInPosition(s.snowballsState, dest.row, dest.col).value;
      CalculateCombinedType(s.snowballsState[k].snowballType, s.snowballsState[j].snowballType) == Some(Complete)
    ensures MonsterMove(s, d).Some?
    ensures var t := MonsterTarget(s.monsterState, d);
      var g' := MonsterMove(s, d).value.boardState;
      g'[t.row + DeltaRow(d)][t.col + DeltaCol(d)] == Snowman && HasSnowman(g')
  {
    var t := MonsterTarget(s.monsterState, d);
    var k := SnowballInPosition(s.snowballsState, t.row, t.col).value;
    var dest := Ahead(s.snowballsState[k], d);
    SnowballMoveIntoSnowball(s, k, d);
    UnitStep(d);
    var g' := MonsterMove(s, d).value.boardState;
    assert g'[dest.row][dest.col] == Snowman;
  }
}
