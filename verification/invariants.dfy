/** The structural invariants of a board (no entity on a BLOCK, no two
    snowballs in one cell, the monster never on a snowball, BLOCK cells
    never rewritten) and the proof that every successful monster move keeps
    them (model/Monster.java, model/Snowball.java). */
module Invariants {
  import opened Wrappers
  import opened Directions
  import opened SnowballTypes
  import opened Grids
  import opened GameStates
  import opened Moves

  /** No two snowballs share a cell. */
  ghost predicate NoSharedCell(sbs: seq<Snowball>)
  {
    forall a, b :: 0 <= a < b < |sbs| ==> !At(sbs[a], sbs[b].row, sbs[b].col)
  }

  /** Every snowball stands on a valid (in-bounds, non-BLOCK) cell, and
      none carries the COMPLETE tier, which is never stored on a snowball. */
  ghost predicate SnowballsPlaced(g: Grid, sbs: seq<Snowball>)
  {
    Rectangular(g) &&
    forall k :: 0 <= k < |sbs| ==> ValidPosition(g, sbs[k].row, sbs[k].col) && sbs[k].snowballType != Complete
  }

  /** The board invariant. */
  ghost predicate Inv(s: GameState)
  {
    && Placed(s)
    && ValidPosition(s.boardState, s.monsterState.row, s.monsterState.col)
    && SnowballsPlaced(s.boardState, s.snowballsState)
    && NoSharedCell(s.snowballsState)
    && Free(s.snowballsState, s.monsterState.row, s.monsterState.col)
  }

  /** `g'` arises from `g` by writes of NO_SNOW or SNOWMAN only, none of
      them on a BLOCK: the BLOCK cells of both grids are the same. */
  ghost predicate Repaints(g: Grid, g': Grid)
  {
    SameShape(g', g) &&
    forall r, c :: 0 <= r < |g| && 0 <= c < |g[r]| ==>
      (g[r][c] == Block <==> g'[r][c] == Block) &&
      (g'[r][c] == g[r][c] || g'[r][c] == NoSnow || g'[r][c] == Snowman)
  }

  lemma RepaintsReflexive(g: Grid)
    ensures Repaints(g, g)
  {
  }

  lemma RepaintsSetCell(g: Grid, row: int, col: int, v: PositionContent)
    requires 0 <= row < |g| && 0 <= col < |g[row]| && g[row][col] != Block
    requires v == NoSnow || v == Snowman
    ensures Repaints(g, SetCell(g, row, col, v))
  {
  }

  lemma RepaintsTransitive(g1: Grid, g2: Grid, g3: Grid)
    requires Repaints(g1, g2) && Repaints(g2, g3)
    ensures Repaints(g1, g3)
  {
    forall r, c | 0 <= r < |g1| && 0 <= c < |g1[r]|
      ensures (g1[r][c] == Block <==> g3[r][c] == Block)
      ensures g3[r][c] == g1[r][c] || g3[r][c] == NoSnow || g3[r][c] == Snowman
    {
      assert |g2[r]| == |g1[r]|;
    }
  }

  /** Repainting keeps the grid's shape and which positions are valid. */
  lemma RepaintsKeepValid(g: Grid, g': Grid, sbs: seq<Snowball>)
    requires Rectangular(g) && Repaints(g, g')
    ensures Rectangular(g') && Cols(g') == Cols(g)
    ensures forall r, c :: ValidPosition(g', r, c) <==> ValidPosition(g, r, c)
    ensures SnowballsPlaced(g, sbs) ==> SnowballsPlaced(g', sbs)
  {
    SameShapeRectangular(g', g);
  }

  lemma RemoveAtKeeps(s: seq<Snowball>, k: nat)
    requires k < |s| && NoSharedCell(s)
    ensures NoSharedCell(RemoveAt(s, k))
    ensures Free(RemoveAt(s, k), s[k].row, s[k].col)
    ensures forall m :: 0 <= m < |RemoveAt(s, k)| ==> RemoveAt(s, k)[m] in s
  {
    var r := RemoveAt(s, k);
    forall a, b | 0 <= a < b < |r|
      ensures !At(r[a], r[b].row, r[b].col)
    {
      var a', b' := if a < k then a else a + 1, if b < k then b else b + 1;
      assert r[a] == s[a'] && r[b] == s[b'];
    }
    forall m | 0 <= m < |r|
      ensures !At(r[m], s[k].row, s[k].col)
    {
      var m' := if m < k then m else m + 1;
      assert r[m] == s[m'];
    }
  }

  /** After a combination's two removals, neither the mover's nor the
      stationary snowball's cell holds a snowball, and the survivors are
      snowballs of the old list that still share no cell. */
  lemma RemoveBothKeeps(sbs: seq<Snowball>, i: nat, j: nat)
    requires i < |sbs| && j < |sbs| && i != j && NoSharedCell(sbs)
    ensures NoSharedCell(RemoveBoth(sbs, i, j))
    ensures Free(RemoveBoth(sbs, i, j), sbs[i].row, sbs[i].col)
    ensures Free(RemoveBoth(sbs, i, j), sbs[j].row, sbs[j].col)
    ensures forall m :: 0 <= m < |RemoveBoth(sbs, i, j)| ==> RemoveBoth(sbs, i, j)[m] in sbs
  {
    var w := RemoveAt(sbs, j);
    var i' := if i < j then i else i - 1;
    RemoveAtKeeps(sbs, j);
    assert w[i'] == sbs[i];
    RemoveAtKeeps(w, i');
  }

  /** A push that ends in a combination. */
  lemma CombineKeeps(s: GameState, i: nat, j: nat, dest: Pos)
    requires Inv(s) && i < |s.snowballsState| && j < |s.snowballsState| && i != j
    requires s.snowballsState[j].row == dest.row && s.snowballsState[j].col == dest.col
    requires ValidPosition(s.boardState, dest.row, dest.col)
    requires CombineSnowballs(s, i, j).Some?
    ensures var s1 := CombineSnowballs(s, i, j).value;
      && Repaints(s.boardState, s1.boardState)
      && SnowballsPlaced(s1.boardState, s1.snowballsState)
      && NoSharedCell(s1.snowballsState)
      && Free(s1.snowballsState, s.snowballsState[i].row, s.snowballsState[i].col)
  {
    var sbs, g := s.snowballsState, s.boardState;
    var s1 := CombineSnowballs(s, i, j).value;
    var t := CalculateCombinedType(sbs[i].snowballType, sbs[j].snowballType).value;
    var rest := RemoveBoth(sbs, i, j);
    RemoveBothKeeps(sbs, i, j);
    assert SnowballsPlaced(g, rest);
    if t == Complete {
      assert s1 == s.(boardState := SetCell(g, dest.row, dest.col, Snowman), snowballsState := rest);
      RepaintsSetCell(g, dest.row, dest.col, Snowman);
      RepaintsKeepValid(g, s1.boardState, rest);
    } else {
      var c := Snowball(dest.row, dest.col, t);
      assert s1 == s.(snowballsState := rest + [c]);
      RepaintsReflexive(g);
    }
  }

  /** A push onto a cell no snowball holds. */
  lemma StepKeeps(s: GameState, i: nat, d: Direction)
    requires Inv(s) && i < |s.snowballsState|
    requires var dest := Ahead(s.snowballsState[i], d);
      ValidPosition(s.boardState, dest.row, dest.col) && Free(s.snowballsState, dest.row, dest.col)
    ensures SnowballMove(s, i, d).Some?
    ensures var s1 := SnowballMove(s, i, d).value;
      && Repaints(s.boardState, s1.boardState)
      && SnowballsPlaced(s1.boardState, s1.snowballsState)
      && NoSharedCell(s1.snowballsState)
      && Free(s1.snowballsState, s.snowballsState[i].row, s.snowballsState[i].col)
  {
    var sbs, g := s.snowballsState, s.boardState;
    var b := sbs[i];
    var dest := Ahead(b, d);
    var s1 := SnowballMove(s, i, d).value;
    UnitStep(d);
    var grown := Snowball(dest.row, dest.col,
      if g[dest.row][dest.col] == Snow then IncreaseSnowballType(b.snowballType) else b.snowballType);
    assert s1.snowballsState == sbs[i := grown];
    if g[dest.row][dest.col] == Snow {
      RepaintsSetCell(g, dest.row, dest.col, NoSnow);
    } else {
      RepaintsReflexive(g);
    }
    RepaintsKeepValid(g, s1.boardState, sbs);
    assert grown.snowballType != Complete;
  }

  /** A successful push of the snowball standing on the monster's target
      keeps every invariant, and leaves the target free for the monster. */
  lemma SnowballMoveKeeps(s: GameState, i: nat, d: Direction)
    requires Inv(s) && i < |s.snowballsState|
    requires SnowballMove(s, i, d).Some?
    ensures var s1 := SnowballMove(s, i, d).value;
      && Repaints(s.boardState, s1.boardState)
      && SnowballsPlaced(s1.boardState, s1.snowballsState)
      && NoSharedCell(s1.snowballsState)
      && Free(s1.snowballsState, s.snowballsState[i].row, s.snowballsState[i].col)
  {
    var sbs := s.snowballsState;
    var dest := Ahead(sbs[i], d);
    UnitStep(d);
    match SnowballInPosition(sbs, dest.row, dest.col)
    case Some(j) =>
      CombineKeeps(s, i, j, dest);
    case None =>
      StepKeeps(s, i, d);
  }

  /** Every successful monster move keeps the board invariant, rewrites no
      BLOCK cell, creates none, and writes only NO_SNOW or SNOWMAN. */
  lemma MonsterMovePreservesInvariant(s: GameState, d: Direction)
    requires Inv(s) && MonsterMove(s, d).Some?
    ensures Inv(MonsterMove(s, d).value)
    ensures Repaints(s.boardState, MonsterMove(s, d).value.boardState)
  {
    var m, t := s.monsterState, MonsterTarget(s.monsterState, d);
    var g := s.boardState;
    var k := SnowballInPosition(s.snowballsState, t.row, t.col);
    var s1 := if k.None? then s else SnowballMove(s, k.value, d).value;
    if k.Some? {
      SnowballMoveKeeps(s, k.value, d);
    } else {
      RepaintsReflexive(g);
    }
    RepaintsKeepValid(g, s1.boardState, s1.snowballsState);
    var g1 := SetCell(s1.boardState, m.row, m.col, NoSnow);
    var g2 := SetCell(g1, t.row, t.col, NoSnow);
    assert MonsterMove(s, d).value == GameState(g2, t, s1.snowballsState);
    RepaintsSetCell(s1.boardState, m.row, m.col, NoSnow);
    RepaintsKeepValid(s1.boardState, g1, s1.snowballsState);
    RepaintsSetCell(g1, t.row, t.col, NoSnow);
    RepaintsKeepValid(g1, g2, s1.snowballsState);
    RepaintsTransitive(s1.boardState, g1, g2);
    RepaintsTransitive(g, s1.boardState, g2);
  }
}
