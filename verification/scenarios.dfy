/** The situations exercised by the repository's model tests
    (ModelTest.java, BoardModelTest.java, MonsterTest.java), stated as
    lemmas about the value-level moves and history. */
module Scenarios {
  import opened Wrappers
  import opened Directions
  import opened SnowballTypes
  import opened Grids
  import opened GameStates
  import opened Moves
  import Histories

  /** The 5x5 board of ModelTest: NO_SNOW everywhere except SNOW at (0, 1). */
  function ModelTestGrid(): Grid
  {
    seq(5, r => seq(5, c => if r == 0 && c == 1 then Snow else NoSnow))
  }

  lemma ModelTestGridCells()
    ensures var g := ModelTestGrid();
      && Rectangular(g) && Rows(g) == 5 && Cols(g) == 5
      && forall r, c :: 0 <= r < 5 && 0 <= c < 5 ==> g[r][c] == if r == 0 && c == 1 then Snow else NoSnow
  {
    var g := ModelTestGrid();
    assert |g[0]| == 5;
  }

  /** BIG at (1, 3), MID at (2, 3), SMALL at (3, 3), the monster below
      them at (4, 3). */
  function SnowmanStart(): GameState
  {
    GameState(ModelTestGrid(), Pos(4, 3), [Snowball(1, 3, Big), Snowball(2, 3, Mid), Snowball(3, 3, Small)])
  }

  /** After the first UP: MID_SMALL at (2, 3), the monster at (3, 3); the
      grid is unchanged, its cells there being NO_SNOW already. */
  function SnowmanMiddle(): GameState
  {
    GameState(ModelTestGrid(), Pos(3, 3), [Snowball(1, 3, Big), Snowball(2, 3, MidSmall)])
  }

  lemma RemoveSecondThenSecond(a: Snowball, b: Snowball, c: Snowball)
    ensures RemoveAt(RemoveAt([a, b, c], 1), 1) == [a]
  {
    assert RemoveAt([a, b, c], 1) == [a, c];
  }

  lemma RemoveSecondThenLast(a: Snowball, b: Snowball, c: Snowball)
    ensures RemoveBoth([a, b, c], 2, 1) == [a]
  {
    RemoveSecondThenSecond(a, b, c);
    assert RemoveBoth([a, b, c], 2, 1) == RemoveAt(RemoveAt([a, b, c], 1), 1);
  }

  /** SMALL pushed into MID, on any grid: both leave the list and MID_SMALL
      is appended at the MID's cell. */
  lemma SmallIntoMid(g: Grid, m: Pos)
    requires 2 < |g| && 3 < |g[2]|
    ensures var sbs := [Snowball(1, 3, Big), Snowball(2, 3, Mid), Snowball(3, 3, Small)];
      CombineSnowballs(GameState(g, m, sbs), 2, 1) == Some(GameState(g, m, [Snowball(1, 3, Big), Snowball(2, 3, MidSmall)]))
  {
    var sbs := [Snowball(1, 3, Big), Snowball(2, 3, Mid), Snowball(3, 3, Small)];
    RemoveSecondThenLast(sbs[0], sbs[1], sbs[2]);
    assert CalculateCombinedType(Small, Mid) == Some(MidSmall);
    assert sbs[2].snowballType == Small && sbs[1] == Snowball(2, 3, Mid);
    assert [Snowball(1, 3, Big)] + [Snowball(2, 3, MidSmall)] == [Snowball(1, 3, Big), Snowball(2, 3, MidSmall)];
  }

  /** The push of the first UP: the SMALL runs into the MID, both leave the
      list, and a MID_SMALL takes the MID's cell, appended after the BIG. */
  lemma SnowmanFirstCombine()
    ensures SnowballMove(SnowmanStart(), 2, Up) == Some(SnowmanStart().(snowballsState := SnowmanMiddle().snowballsState))
  {
    var s0 := SnowmanStart();
    ModelTestGridCells();
    assert SnowballInPosition(s0.snowballsState, 2, 3) == Some(1);
    SnowballMoveIntoSnowball(s0, 2, Up);
    SmallIntoMid(s0.boardState, s0.monsterState);
  }

  /** The first UP: the monster steps into the SMALL's old cell. */
  lemma SnowmanFirstPush()
    ensures MonsterMove(SnowmanStart(), Up) == Some(SnowmanMiddle())
  {
    var s0 := SnowmanStart();
    var g := ModelTestGrid();
    ModelTestGridCells();
    MonsterMoveCases(s0, Up);
    assert SnowballInPosition(s0.snowballsState, 3, 3) == Some(2);
    SnowmanFirstCombine();
    SetCellUnchanged(g, 4, 3, NoSnow);
    SetCellUnchanged(g, 3, 3, NoSnow);
  }

  /** The second UP pushes the MID_SMALL into the BIG: the three parts make
      a snowman at (1, 3), no snowball is left, and the level is complete. */
  lemma SnowmanSecondPush()
    ensures MonsterMove(SnowmanMiddle(), Up).Some?
    ensures var s2 := MonsterMove(SnowmanMiddle(), Up).value;
      && s2.boardState[1][3] == Snowman
      && s2.monsterState == Pos(2, 3)
      && s2.snowballsState == []
      && HasSnowman(s2.boardState)
  {
    var s1 := SnowmanMiddle();
    var sbs := s1.snowballsState;
    ModelTestGridCells();
    assert SnowballInPosition(sbs, 2, 3) == Some(1);
    assert SnowballInPosition(sbs, 1, 3) == Some(0);
    MonsterMoveCases(s1, Up);
    SnowballMoveIntoSnowball(s1, 1, Up);
    CompletionLeavesSnowman(s1, Up);
  }

  /** ModelTest's snowman: two UP moves from SnowmanStart leave SNOWMAN at
      (1, 3). The second push moves a two-part snowball. */
  lemma CompleteSnowman()
    ensures MonsterMove(SnowmanStart(), Up).Some?
    ensures MonsterMove(MonsterMove(SnowmanStart(), Up).value, Up).Some?
    ensures var s2 := MonsterMove(MonsterMove(SnowmanStart(), Up).value, Up).value;
      s2.boardState[1][3] == Snowman && s2.snowballsState == [] && HasSnowman(s2.boardState)
  {
    SnowmanFirstPush();
    SnowmanSecondPush();
  }

  /** The 3x1 column of BoardModelTest: SNOW on top, a SMALL snowball in
      the middle, the monster at the bottom. */
  function ColumnStart(): GameState
  {
    GameState([[Snow], [NoSnow], [NoSnow]], Pos(2, 0), [Snowball(1, 0, Small)])
  }

  function ColumnPushed(): GameState
  {
    GameState([[NoSnow], [NoSnow], [NoSnow]], Pos(1, 0), [Snowball(0, 0, Mid)])
  }

  /** The column after the snowball's part of the first UP, before the
      monster steps. */
  lemma PushedColumn(s': GameState)
    requires s'.monsterState == Pos(2, 0)
    requires |s'.snowballsState| == 1 && s'.snowballsState[0] == Snowball(0, 0, Mid)
    requires s'.boardState == SetCell([[Snow], [NoSnow], [NoSnow]], 0, 0, NoSnow)
    ensures s' == ColumnStart().(boardState := ColumnPushed().boardState, snowballsState := ColumnPushed().snowballsState)
  {
    assert s'.snowballsState == [Snowball(0, 0, Mid)];
    assert [Snow][0 := NoSnow] == [NoSnow];
  }

  /** The snowball's part of the first UP: onto the SNOW cell, where it
      grows to MID and clears the snow. */
  lemma ColumnSnowballPush()
    ensures SnowballMove(ColumnStart(), 0, Up) == Some(ColumnStart().(boardState := ColumnPushed().boardState, snowballsState := ColumnPushed().snowballsState))
  {
    var s0 := ColumnStart();
    var g := s0.boardState;
    assert Free(s0.snowballsState, 0, 0);
    assert Rectangular(g);
    assert Ahead(s0.snowballsState[0], Up) == Pos(0, 0);
    SnowballMoveOntoFreeCell(s0, 0, Up);
    assert g[0][0] == Snow;
    PushedColumn(SnowballMove(s0, 0, Up).value);
  }

  /** The monster's part of the first UP, on the column the push left: it
      steps from (2, 0) into (1, 0), both already NO_SNOW. */
  lemma ColumnMonsterStep(s1: GameState)
    requires s1 == ColumnStart().(boardState := ColumnPushed().boardState, snowballsState := ColumnPushed().snowballsState)
    ensures GameState(SetCell(SetCell(s1.boardState, 2, 0, NoSnow), 1, 0, NoSnow), Pos(1, 0), s1.snowballsState) == ColumnPushed()
  {
    SetCellUnchanged(s1.boardState, 2, 0, NoSnow);
    SetCellUnchanged(s1.boardState, 1, 0, NoSnow);
  }

  /** The first UP pushes the snowball onto the SNOW cell, where it grows to
      MID and clears the snow; the monster stops in the snowball's old cell. */
  lemma ColumnFirstPush()
    ensures MonsterMove(ColumnStart(), Up) == Some(ColumnPushed())
  {
    var s0 := ColumnStart();
    assert SnowballInPosition(s0.snowballsState, 1, 0) == Some(0);
    assert Rectangular(s0.boardState);
    MonsterMoveCases(s0, Up);
    ColumnSnowballPush();
    ColumnMonsterStep(SnowballMove(s0, 0, Up).value);
  }

  /** From there a further UP would push the snowball off the board: it fails. */
  lemma ColumnBlockedPush()
    ensures MonsterMove(ColumnPushed(), Up).None?
  {
    var s1 := ColumnPushed();
    assert Rectangular(s1.boardState);
    MonsterMoveCases(s1, Up);
    assert SnowballInPosition(s1.snowballsState, 0, 0) == Some(0);
    SnowballMoveBlocked(s1, 0, Up);
  }

  /** In the one-column board a move LEFT leaves the grid: it fails. */
  lemma ColumnLeftBlocked()
    ensures MonsterMove(ColumnStart(), Left).None?
  {
    var s0 := ColumnStart();
    assert Rectangular(s0.boardState);
    MonsterMoveCases(s0, Left);
  }

  /** Three UP moves through moveMonster in the column: the first succeeds
      and pushes one snapshot; the second and third fail and leave the
      state and the undo stack as they were; the redo stack stays empty.
      The monster ends at (1, 0), never at (0, 0). */
  lemma ColumnPushes()
    ensures var h1 := Histories.MoveMonster(Histories.History(ColumnStart(), [], []), Up);
      && h1 == (true, Histories.History(ColumnPushed(), [ColumnStart()], []))
      && Histories.MoveMonster(h1.1, Up) == (false, h1.1)
      && Histories.MoveMonster(Histories.MoveMonster(h1.1, Up).1, Up) == (false, h1.1)
  {
    ColumnFirstPush();
    ColumnBlockedPush();
    assert Rectangular(ColumnPushed().boardState);
    assert [] + [ColumnStart()] == [ColumnStart()];
  }

  /** The 3x3 board of MonsterTest, without snowballs: the monster at
      (2, 2) moves LEFT to (2, 1) and UP to (1, 2), but cannot move RIGHT
      off the board. */
  lemma MonsterSteps()
    ensures var s := GameState([[Snow, Snow, Snow], [NoSnow, NoSnow, NoSnow], [NoSnow, NoSnow, NoSnow]], Pos(2, 2), []);
      && MonsterMove(s, Left).Some? && MonsterMove(s, Left).value.monsterState == Pos(2, 1)
      && MonsterMove(s, Up).Some? && MonsterMove(s, Up).value.monsterState == Pos(1, 2)
      && MonsterMove(s, Right).None?
  {
    var s := GameState([[Snow, Snow, Snow], [NoSnow, NoSnow, NoSnow], [NoSnow, NoSnow, NoSnow]], Pos(2, 2), []);
    assert Rectangular(s.boardState);
  }

  /** ModelTest's other board: the monster at (0, 3) and a SMALL snowball
      at (0, 2). Pushing LEFT moves the snowball onto the SNOW at (0, 1),
      where it grows to MID; with (0, 2) turned into a BLOCK instead, the
      move LEFT fails. */
  lemma LeftPush()
    ensures var s := GameState(ModelTestGrid(), Pos(0, 3), [Snowball(0, 2, Small)]);
      && MonsterMove(s, Left).Some?
      && MonsterMove(s, Left).value.snowballsState == [Snowball(0, 1, Mid)]
      && MonsterMove(s, Left).value.monsterState == Pos(0, 2)
    ensures var s := GameState(SetCell(ModelTestGrid(), 0, 2, Block), Pos(0, 3), [Snowball(0, 2, Small)]);
      MonsterMove(s, Left).None?
  {
    var g := ModelTestGrid();
    ModelTestGridCells();
    var s := GameState(g, Pos(0, 3), [Snowball(0, 2, Small)]);
    MonsterMoveCases(s, Left);
    assert SnowballInPosition(s.snowballsState, 0, 2) == Some(0);
    SnowballMoveOntoFreeCell(s, 0, Left);
    var g' := SetCell(g, 0, 2, Block);
    SameShapeRectangular(g', g);
    MonsterMoveCases(s.(boardState := g'), Left);
  }
}
