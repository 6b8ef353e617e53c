/** The level records of model/Level.java and the fixed catalogue of five
    levels with its progression counter of model/LevelManager.java. */
module Levels {
  import opened Wrappers
  import opened SnowballTypes
  import opened Grids
  import opened GameStates
  import opened Invariants
  import opened Board
  import Histories

  /** A `rows` x `cols` field of SNOW with BLOCK on the cells of `blocks`. */
  function Layout(rows: nat, cols: nat, blocks: seq<Pos>): Grid
  {
    seq(rows, r => seq(cols, c => if Pos(r, c) in blocks then Block else Snow))
  }

  /** Level 1 is 5x5; levels 2 to 5 are 6x6. */
  function LevelSize(n: nat): nat
  {
    if n == 1 then 5 else 6
  }

  /** The BLOCK cells of level `n`, in the order they are written. */
  function LevelBlocks(n: nat): seq<Pos>
    requires 1 <= n <= 5
  {
    match n
    case 1 => []
    case 2 => [Pos(2, 2), Pos(2, 3), Pos(3, 2), Pos(3, 3)]
    case 3 => [Pos(0, 4), Pos(3, 1), Pos(2, 0), Pos(4, 4)]
    case 4 => [Pos(0, 3), Pos(2, 2), Pos(3, 3), Pos(4, 0)]
    case 5 => [Pos(2, 2), Pos(2, 3), Pos(3, 2), Pos(3, 3)]
  }

  /** The starting snowballs of level `n`, in list order. */
  function LevelSnowballs(n: nat): seq<Snowball>
    requires 1 <= n <= 5
  {
    match n
    case 1 => [Snowball(2, 3, Small), Snowball(1, 2, Small), Snowball(3, 1, Small)]
    case 2 => [Snowball(1, 1, Small), Snowball(1, 4, Small), Snowball(4, 1, Small)]
    case 3 => [Snowball(2, 3, Small), Snowball(4, 0, Small), Snowball(1, 2, Small)]
    case 4 => [Snowball(1, 1, Small), Snowball(2, 4, Small), Snowball(4, 2, Small)]
    case 5 => [Snowball(0, 1, Small), Snowball(1, 3, Small), Snowball(4, 0, Small)]
  }

  function LevelBoard(n: nat): Grid
    requires 1 <= n <= 5
  {
    Layout(LevelSize(n), LevelSize(n), LevelBlocks(n))
  }

  /** The starting configuration of level `n`: the monster always at (0, 0). */
  function LevelStart(n: nat): GameState
    requires 1 <= n <= 5
  {
    GameState(LevelBoard(n), Pos(0, 0), LevelSnowballs(n))
  }

  /** A square layout is a rectangle whose cells are BLOCK exactly on the
      listed cells and SNOW elsewhere, so it holds no SNOWMAN. */
  lemma LayoutCells(size: nat, blocks: seq<Pos>)
    requires size > 0
    ensures var g := Layout(size, size, blocks);
      && Rectangular(g) && Rows(g) == size && Cols(g) == size
      && (forall r, c :: InBounds(g, r, c) ==> g[r][c] == if Pos(r, c) in blocks then Block else Snow)
      && !HasSnowman(g)
  {
    var g := Layout(size, size, blocks);
    assert |g[0]| == size;
    assert forall r, c :: 0 <= r < size && 0 <= c < size ==> g[r][c] == if Pos(r, c) in blocks then Block else Snow;
  }

  /** A start with the monster at (0, 0) on a square layout satisfies the
      board invariant when the snowballs lie inside, off the BLOCK cells and
      off (0, 0), pairwise apart, and none is COMPLETE. */
  lemma LayoutStartInv(size: nat, blocks: seq<Pos>, sbs: seq<Snowball>)
    requires size > 0 && Pos(0, 0) !in blocks
    requires forall k :: 0 <= k < |sbs| ==>
      && 0 <= sbs[k].row < size && 0 <= sbs[k].col < size
      && Pos(sbs[k].row, sbs[k].col) !in blocks
      && sbs[k].snowballType != Complete
      && !At(sbs[k], 0, 0)
    requires forall a, b :: 0 <= a < b < |sbs| ==> !At(sbs[a], sbs[b].row, sbs[b].col)
    ensures Inv(GameState(Layout(size, size, blocks), Pos(0, 0), sbs))
  {
    LayoutCells(size, blocks);
  }

  /** Every level of the catalogue is a rectangle of SNOW with BLOCK exactly
      on its listed cells and no SNOWMAN. */
  lemma LevelLayout(n: nat)
    requires 1 <= n <= 5
    ensures var g := LevelBoard(n);
      && Rectangular(g) && Rows(g) == LevelSize(n) && Cols(g) == LevelSize(n)
      && (forall r, c :: InBounds(g, r, c) ==> (g[r][c] == Block <==> Pos(r, c) in LevelBlocks(n)))
      && (forall r, c :: InBounds(g, r, c) ==> g[r][c] == Block || g[r][c] == Snow)
      && !HasSnowman(g)
  {
    LayoutCells(LevelSize(n), LevelBlocks(n));
  }

  /** Level 1 has no BLOCK; every other level has four distinct ones, all
      inside its board. */
  lemma LevelBlocksPlaced(n: nat)
    requires 1 <= n <= 5
    ensures |LevelBlocks(n)| == (if n == 1 then 0 else 4)
    ensures forall a, b :: 0 <= a < b < |LevelBlocks(n)| ==> LevelBlocks(n)[a] != LevelBlocks(n)[b]
    ensures forall p :: p in LevelBlocks(n) ==> 0 <= p.row < LevelSize(n) && 0 <= p.col < LevelSize(n)
  {
    var blocks := LevelBlocks(n);
    forall a, b | 0 <= a < b < |blocks|
      ensures blocks[a] != blocks[b]
    {
      assert n != 1;
    }
  }

  /** Every level starts with three SMALL snowballs, and its start satisfies
      the board invariant: nothing on a BLOCK, no two snowballs in one cell,
      no snowball on the monster's (0, 0). */
  lemma LevelStartSound(n: nat)
    requires 1 <= n <= 5
    ensures |LevelSnowballs(n)| == 3 && forall k :: 0 <= k < 3 ==> LevelSnowballs(n)[k].snowballType == Small
    ensures Inv(LevelStart(n))
  {
    var size, blocks, sbs := LevelSize(n), LevelBlocks(n), LevelSnowballs(n);
    forall k | 0 <= k < |sbs|
      ensures Pos(sbs[k].row, sbs[k].col) !in blocks
    {
      assert k == 0 || k == 1 || k == 2;
    }
    LayoutStartInv(size, blocks, sbs);
  }

  /** A `rows` x `cols` field of SNOW, built row by row. */
  method FillWithSnow(rows: nat, cols: nat) returns (g: Grid)
    ensures g == Layout(rows, cols, [])
  {
    g := [];
    for i := 0 to rows
      invariant |g| == i
      invariant forall r :: 0 <= r < i ==> g[r] == seq(cols, c => Snow)
    {
      var row := [];
      for j := 0 to cols
        invariant row == seq(j, c => Snow)
      {
        row := row + [Snow];
      }
      g := g + [row];
    }
    assert forall r :: 0 <= r < rows ==> g[r] == Layout(rows, cols, [])[r];
  }

  /** `g` with BLOCK written on each cell of `blocks`, which lie inside `g`:
      the `set` calls of createLevelNBoard. */
  method PlaceBlocks(g: Grid, blocks: seq<Pos>) returns (g': Grid)
    requires forall k :: 0 <= k < |blocks| ==> 0 <= blocks[k].row < |g| && 0 <= blocks[k].col < |g[blocks[k].row]|
    ensures SameShape(g', g)
    ensures forall r, c :: 0 <= r < |g| && 0 <= c < |g[r]| ==>
      g'[r][c] == if Pos(r, c) in blocks then Block else g[r][c]
  {
    g' := g;
    for k := 0 to |blocks|
      invariant SameShape(g', g)
      invariant forall r, c :: 0 <= r < |g| && 0 <= c < |g[r]| ==>
        g'[r][c] == if Pos(r, c) in blocks[..k] then Block else g[r][c]
    {
      assert blocks[..k + 1] == blocks[..k] + [blocks[k]];
      g' := SetCell(g', blocks[k].row, blocks[k].col, Block);
    }
    assert blocks[..|blocks|] == blocks;
  }

  /** createLevelNBoard: the snow field, then that level's BLOCK cells. */
  method CreateLevelBoard(n: nat) returns (g: Grid)
    requires 1 <= n <= 5
    ensures g == LevelBoard(n)
  {
    var size := LevelSize(n);
    g := FillWithSnow(size, size);
    g := PlaceBlocks(g, LevelBlocks(n));
    SameCells(g, LevelBoard(n));
  }

  /** A level: its layout, monster start, snowballs and number, fixed at
      construction. */
  class Level {
    const initialBoard: Grid
    const monsterStartRow: int
    const monsterStartCol: int
    const initialSnowballs: seq<Snowball>
    const levelNumber: int

    /** The stored configuration. */
    function Start(): GameState
    {
      GameState(initialBoard, Pos(monsterStartRow, monsterStartCol), initialSnowballs)
    }

    /** The constructor copies the layout row by row and the snowball list;
        later changes to the caller's grid value cannot reach the level. */
    constructor (board: Grid, monsterRow: int, monsterCol: int, snowballs: seq<Snowball>, levelNumber: int)
      ensures Start() == GameState(board, Pos(monsterRow, monsterCol), snowballs)
      ensures this.levelNumber == levelNumber
    {
      var rows: Grid := [];
      for i := 0 to |board|
        invariant rows == board[..i]
      {
        rows := rows + [board[i]];
      }
      initialBoard := rows;
      monsterStartRow := monsterRow;
      monsterStartCol := monsterCol;
      initialSnowballs := snowballs;
      this.levelNumber := levelNumber;
    }

    /** createBoardModel: a new board over copies of the stored layout and
        snowballs, with a new monster at the start cell and empty stacks.
        Nothing in the level changes, so every call starts from the same
        configuration. */
    method CreateBoardModel() returns (b: BoardModel)
      requires Placed(Start())
      ensures fresh(b) && fresh(b.monster)
      ensures b.Valid() && b.Initial() == Start()
      ensures b.Model() == Histories.History(Start(), [], [])
      ensures Inv(Start()) ==> b.Sound()
    {
      var boardCopy: Grid := [];
      for i := 0 to |initialBoard|
        invariant boardCopy == initialBoard[..i]
      {
        boardCopy := boardCopy + [initialBoard[i]];
      }
      var monster := new Monster(monsterStartRow, monsterStartCol);
      var snowballsCopy: seq<Snowball> := [];
      for k := 0 to |initialSnowballs|
        invariant snowballsCopy == initialSnowballs[..k]
      {
        var s := initialSnowballs[k];
        snowballsCopy := snowballsCopy + [Snowball(s.row, s.col, s.snowballType)];
      }
      b := new BoardModel(boardCopy, monster, snowballsCopy);
    }
  }

  /** The catalogue and the index of the level being played. */
  class LevelManager {
    var levels: seq<Level>
    var currentLevelIndex: nat

    /** Five levels, numbered 1 to 5 in list order, each holding its
        catalogue configuration; the index names one of them. */
    ghost predicate Valid()
      reads this
    {
      && |levels| == 5
      && currentLevelIndex < |levels|
      && forall k :: 0 <= k < |levels| ==> levels[k].Start() == LevelStart(k + 1) && levels[k].levelNumber == k + 1
    }

    constructor ()
      ensures Valid() && currentLevelIndex == 0
    {
      levels := [];
      currentLevelIndex := 0;
      new;
      InitializeLevels();
    }

    /** initializeLevels: the five catalogue levels appended in order. */
    method InitializeLevels()
      modifies this`levels
      ensures |levels| == |old(levels)| + 5 && levels[..|old(levels)|] == old(levels)
      ensures forall k :: |old(levels)| <= k < |levels| ==>
        levels[k].Start() == LevelStart(k - |old(levels)| + 1) && levels[k].levelNumber == k - |old(levels)| + 1
    {
      for n := 1 to 6
        invariant |levels| == |old(levels)| + n - 1 && levels[..|old(levels)|] == old(levels)
        invariant forall k :: |old(levels)| <= k < |levels| ==>
          levels[k].Start() == LevelStart(k - |old(levels)| + 1) && levels[k].levelNumber == k - |old(levels)| + 1
      {
        var board := CreateLevelBoard(n);
        var level := new Level(board, 0, 0, LevelSnowballs(n), n);
        levels := levels + [level];
      }
    }

    /** getCurrentLevel: a new board for the level at the current index. */
    method GetCurrentLevel() returns (b: BoardModel)
      requires Valid()
      ensures fresh(b) && fresh(b.monster)
      ensures b.Valid() && b.Sound()
      ensures b.Model() == Histories.History(LevelStart(currentLevelIndex + 1), [], [])
    {
      LevelStartSound(currentLevelIndex + 1);
      b := levels[currentLevelIndex].CreateBoardModel();
    }

    /** hasNextLevel: true unless the current level is the last one, level 5. */
    function HasNextLevel(): (more: bool)
      reads this
      ensures more ==> currentLevelIndex + 1 < |levels|
      ensures Valid() ==> (more <==> levels[currentLevelIndex].levelNumber < 5)
    {
      currentLevelIndex < |levels| - 1
    }

    /** loadNextLevel: with a next level, the index advances by one and a new
        board for that level is returned; otherwise nothing changes and no
        board is returned. */
    method LoadNextLevel() returns (next: Option<BoardModel>)
      requires Valid()
      modifies this`currentLevelIndex
      ensures Valid()
      ensures old(HasNextLevel()) ==>
        && currentLevelIndex == old(currentLevelIndex) + 1
        && next.Some? && fresh(next.value) && next.value.Valid() && next.value.Sound()
        && next.value.Model() == Histories.History(LevelStart(currentLevelIndex + 1), [], [])
      ensures !old(HasNextLevel()) ==> currentLevelIndex == old(currentLevelIndex) && next.None?
    {
      if HasNextLevel() {
        currentLevelIndex := currentLevelIndex + 1;
        var b := GetCurrentLevel();
        return Some(b);
      }
      return None;
    }
  }
}
