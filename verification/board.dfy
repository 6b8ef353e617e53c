/** The live objects of model/BoardModel.java, model/Monster.java and
    model/MobileElement.java, updated in place. Every state-changing method
    is proved against the value-level functions of Moves and Histories:
    the new state (and stacks) is that function of the old ones. */
module Board {
  import opened Wrappers
  import opened Directions
  import opened SnowballTypes
  import opened Grids
  import opened GameStates
  import opened Moves
  import Histories
  import opened Invariants

  /** The player's monster: a mobile element with a row and a column. */
  class Monster {
    var row: int
    var col: int

    constructor (row: int, col: int)
      ensures this.row == row && this.col == col
    {
      this.row := row;
      this.col := col;
    }

    method SetRow(row: int)
      modifies this
      ensures this.row == row && col == old(col)
    {
      this.row := row;
    }

    method SetCol(col: int)
      modifies this
      ensures this.col == col && row == old(row)
    {
      this.col := col;
    }

    /** move: one step in direction `d`; a snowball on the target cell is
        pushed first, and the move fails if the target is invalid or the
        push fails. On success the cell left and the cell entered both
        become NO_SNOW. */
    method Move(d: Direction, board: BoardModel) returns (moved: bool)
      requires board.Valid() && board.monster == this
      modifies this, board`board, board`snowballs
      ensures board.Valid()
      ensures moved <==> MonsterMove(old(board.State()), d).Some?
      ensures board.State() == if moved then MonsterMove(old(board.State()), d).value else old(board.State())
    {
      ghost var s := board.State();
      MonsterMoveCases(s, d);
      var newRow, newCol := row, col;
      match d {
        case Up => newRow := newRow - 1;
        case Down => newRow := newRow + 1;
        case Left => newCol := newCol - 1;
        case Right => newCol := newCol + 1;
      }
      assert Pos(newRow, newCol) == MonsterTarget(s.monsterState, d);
      if !ValidPosition(board.board, newRow, newCol) {
        return false;
      }
      var k := board.SnowballInPosition(newRow, newCol);
      if k.Some? {
        var pushed := board.MoveSnowball(d, k.value);
        if !pushed {
          return false;
        }
      }
      ghost var s1 := board.State();
      assert s1 == if k.None? then s else SnowballMove(s, k.value, d).value;
      SameShapeRectangular(board.board, s.boardState);
      board.SetPositionContent(row, col, NoSnow);
      row, col := newRow, newCol;
      board.SetPositionContent(row, col, NoSnow);
      moved := true;
    }
  }

  /** The board: the grid, the monster, the snowball list, the undo stack
      (`history`) and the redo stack (`redoHistory`), both with their tops
      at the end, and the configuration captured at construction. */
  class BoardModel {
    var board: Grid
    const monster: Monster
    var snowballs: seq<Snowball>
    var history: seq<GameState>
    var redoHistory: seq<GameState>
    const initialBoard: Grid
    const initialMonsterRow: int
    const initialMonsterCol: int
    const initialSnowballs: seq<Snowball>

    /** The live state as a value: what a snapshot records. */
    function State(): GameState
      reads this, monster
    {
      GameState(board, Pos(monster.row, monster.col), snowballs)
    }

    /** The live state with both stacks. */
    function Model(): Histories.History
      reads this, monster
    {
      Histories.History(State(), history, redoHistory)
    }

    /** The configuration captured by the constructor. */
    function Initial(): GameState
    {
      GameState(initialBoard, Pos(initialMonsterRow, initialMonsterCol), initialSnowballs)
    }

    /** A state the restore loops can copy onto the board: rectangular,
        monster on it, and of the construction-time shape. */
    ghost predicate Fits(s: GameState)
    {
      Placed(s) && SameShape(s.boardState, initialBoard)
    }

    ghost predicate Valid()
      reads this, monster
    {
      && Fits(Initial())
      && Fits(State())
      && (forall k :: 0 <= k < |history| ==> Fits(history[k]))
      && (forall k :: 0 <= k < |redoHistory| ==> Fits(redoHistory[k]))
    }

    /** The board invariant holds of the live state, of every snapshot and
        of the construction-time configuration. */
    ghost predicate Sound()
      reads this, monster
    {
      && Inv(Initial())
      && Inv(State())
      && (forall k :: 0 <= k < |history| ==> Inv(history[k]))
      && (forall k :: 0 <= k < |redoHistory| ==> Inv(redoHistory[k]))
    }

    /** The constructor keeps the given grid, monster and list as the live
        state and stores a copy of each as the initial configuration. */
    constructor (board: Grid, monster: Monster, snowballs: seq<Snowball>)
      requires Placed(GameState(board, Pos(monster.row, monster.col), snowballs))
      ensures this.monster == monster
      ensures Valid()
      ensures Model() == Histories.History(GameState(board, Pos(monster.row, monster.col), snowballs), [], [])
      ensures Initial() == State()
      ensures Inv(State()) ==> Sound()
    {
      this.board := board;
      this.monster := monster;
      this.snowballs := snowballs;
      history := [];
      redoHistory := [];
      var rows: Grid := [];
      for i := 0 to |board|
        invariant rows == board[..i]
      {
        rows := rows + [board[i]];
      }
      initialBoard := rows;
      initialMonsterRow := monster.row;
      initialMonsterCol := monster.col;
      var balls: seq<Snowball> := [];
      for k := 0 to |snowballs|
        invariant balls == snowballs[..k]
      {
        var b := snowballs[k];
        balls := balls + [Snowball(b.row, b.col, b.snowballType)];
      }
      initialSnowballs := balls;
    }

    /** setPositionContent: one cell rewritten in place. */
    method SetPositionContent(row: int, col: int, content: PositionContent)
      requires 0 <= row < |board| && 0 <= col < |board[row]|
      modifies this`board
      ensures board == SetCell(old(board), row, col, content)
      ensures old(Valid()) ==> Valid()
    {
      board := SetCell(board, row, col, content);
      if old(Valid()) {
        SameShapeTransitive(board, old(board), initialBoard);
        SameShapeRectangular(board, old(board));
      }
    }

    /** snowballInPosition: a linear search of the list, returning the
        first snowball standing on (row, col), or none. */
    method SnowballInPosition(row: int, col: int) returns (found: Option<nat>)
      ensures found.Some? ==> found.value < |snowballs| && At(snowballs[found.value], row, col)
      ensures found.Some? ==> forall k :: 0 <= k < found.value ==> !At(snowballs[k], row, col)
      ensures found.None? <==> Free(snowballs, row, col)
      ensures found == GameStates.SnowballInPosition(snowballs, row, col)
    {
      for k := 0 to |snowballs|
        invariant forall m :: 0 <= m < k ==> !At(snowballs[m], row, col)
      {
        if At(snowballs[k], row, col) {
          var first := GameStates.SnowballInPosition(snowballs, row, col);
          assert first.Some? && !(first.value < k) && !(k < first.value);
          return Some(k);
        }
      }
      return None;
    }

    /** moveSnowball, which is Snowball.move: snowball `i` is pushed one
        step; a snowball in the way means a combination attempt, a SNOW
        cell makes the snowball grow and becomes NO_SNOW. */
    method MoveSnowball(d: Direction, i: nat) returns (moved: bool)
      requires Valid() && i < |snowballs|
      modifies this`board, this`snowballs
      ensures Valid()
      ensures moved <==> SnowballMove(old(State()), i, d).Some?
      ensures State() == if moved then SnowballMove(old(State()), i, d).value else old(State())
    {
      var b := snowballs[i];
      var newRow, newCol := b.row + DeltaRow(d), b.col + DeltaCol(d);
      if !ValidPosition(board, newRow, newCol) {
        return false;
      }
      var other := SnowballInPosition(newRow, newCol);
      if other.Some? {
        UnitStep(d);
        moved := TryToCombineSnowballs(i, other.value);
        return;
      }
      var tier := b.snowballType;
      var destination := GetPositionContent(board, newRow, newCol);
      if destination == Ok(Snow) {
        tier := IncreaseSnowballType(tier);
        SetPositionContent(newRow, newCol, NoSnow);
      }
      snowballs := snowballs[i := Snowball(newRow, newCol, tier)];
      moved := true;
    }

    /** tryToCombineSnowballs: the mover `i` and the stationary `j` leave
        the list (`j` first); a two-part result is appended at `j`'s cell,
        a COMPLETE result writes SNOWMAN there instead. */
    method TryToCombineSnowballs(i: nat, j: nat) returns (combined: bool)
      requires Valid() && i < |snowballs| && j < |snowballs| && i != j
      requires InBounds(board, snowballs[j].row, snowballs[j].col)
      modifies this`board, this`snowballs
      ensures Valid()
      ensures combined <==> CombineSnowballs(old(State()), i, j).Some?
      ensures State() == if combined then CombineSnowballs(old(State()), i, j).value else old(State())
    {
      var mover, other := snowballs[i], snowballs[j];
      var newType := CalculateCombinedType(mover.snowballType, other.snowballType);
      if newType.None? {
        return false;
      }
      snowballs := RemoveAt(snowballs, j);
      snowballs := RemoveAt(snowballs, if i < j then i else i - 1);
      if newType.value == Complete {
        SetPositionContent(other.row, other.col, Snowman);
      } else {
        snowballs := snowballs + [Snowball(other.row, other.col, newType.value)];
      }
      combined := true;
    }

    /** new GameState(this): the grid copied row by row, the monster's
        position and a fresh copy of every snowball. The snapshot is a
        value, so later changes to the board cannot reach it. */
    method Snapshot() returns (s: GameState)
      ensures s == State()
    {
      var rows: Grid := [];
      for i := 0 to |board|
        invariant rows == board[..i]
      {
        rows := rows + [board[i]];
      }
      var balls: seq<Snowball> := [];
      for k := 0 to |snowballs|
        invariant balls == snowballs[..k]
      {
        var b := snowballs[k];
        balls := balls + [Snowball(b.row, b.col, b.snowballType)];
      }
      s := GameState(rows, Pos(monster.row, monster.col), balls);
    }

    /** saveState: push a snapshot of the live state, clear the redo stack. */
    method SaveState()
      requires Valid()
      modifies this`history, this`redoHistory
      ensures Valid()
      ensures history == old(history) + [State()] && redoHistory == []
    {
      var snapshot := Snapshot();
      history := history + [snapshot];
      redoHistory := [];
    }

    /** The cell-by-cell copy loop of undo, redo and resetLevel. */
    method RestoreBoard(src: Grid)
      requires SameShape(src, board)
      modifies this`board
      ensures board == src
    {
      for i := 0 to |board|
        invariant SameShape(board, src)
        invariant forall r :: 0 <= r < i ==> board[r] == src[r]
      {
        for j := 0 to |board[i]|
          invariant SameShape(board, src)
          invariant forall r :: 0 <= r < i ==> board[r] == src[r]
          invariant forall c :: 0 <= c < j ==> board[i][c] == src[i][c]
        {
          board := SetCell(board, i, j, src[i][j]);
        }
      }
    }

    /** moveMonster: save the state, try the move, drop the snapshot again
        if it failed. Successful moves keep the board invariant. */
    method MoveMonster(d: Direction) returns (moved: bool)
      requires Valid()
      modifies this, monster
      ensures Valid()
      ensures (moved, Model()) == Histories.MoveMonster(old(Model()), d)
      ensures old(Sound()) ==> Sound()
    {
      SaveState();
      moved := monster.Move(d, this);
      if !moved {
        history := history[..|history| - 1];
      }
      if moved && old(Sound()) {
        MonsterMovePreservesInvariant(old(State()), d);
      }
    }

    /** undo: with snapshots to go back to, the live state goes onto the
        redo stack and the top snapshot is copied back onto the board. */
    method Undo() returns (ok: bool)
      requires Valid()
      modifies this, monster
      ensures Valid()
      ensures (ok, Model()) == Histories.Undo(old(Model()))
      ensures old(Sound()) ==> Sound()
    {
      if |history| == 0 {
        return false;
      }
      var currentState := Snapshot();
      var previousState := history[|history| - 1];
      history := history[..|history| - 1];
      redoHistory := redoHistory + [currentState];
      RestoreBoard(previousState.boardState);
      monster.SetRow(previousState.monsterState.row);
      monster.SetCol(previousState.monsterState.col);
      snowballs := previousState.snowballsState;
      ok := true;
    }

    /** redo: the mirror image of undo. */
    method Redo() returns (ok: bool)
      requires Valid()
      modifies this, monster
      ensures Valid()
      ensures (ok, Model()) == Histories.Redo(old(Model()))
      ensures old(Sound()) ==> Sound()
    {
      if |redoHistory| == 0 {
        return false;
      }
      var currentState := Snapshot();
      var redoState := redoHistory[|redoHistory| - 1];
      redoHistory := redoHistory[..|redoHistory| - 1];
      history := history + [currentState];
      RestoreBoard(redoState.boardState);
      monster.SetRow(redoState.monsterState.row);
      monster.SetCol(redoState.monsterState.col);
      snowballs := redoState.snowballsState;
      ok := true;
    }

    /** resetLevel: both stacks emptied and the construction-time grid,
        monster position and snowballs (fresh copies) restored. */
    method ResetLevel()
      requires Valid()
      modifies this, monster
      ensures Valid()
      ensures Model() == Histories.ResetLevel(old(Model()), Initial())
      ensures old(Sound()) ==> Sound()
    {
      history := [];
      redoHistory := [];
      RestoreBoard(initialBoard);
      monster.SetRow(initialMonsterRow);
      monster.SetCol(initialMonsterCol);
      var restored: seq<Snowball> := [];
      for k := 0 to |initialSnowballs|
        invariant restored == initialSnowballs[..k]
      {
        var b := initialSnowballs[k];
        restored := restored + [Snowball(b.row, b.col, b.snowballType)];
      }
      snowballs := restored;
    }

    /** isLevelComplete: a scan of every cell for a SNOWMAN; the snowball
        list plays no part. */
    method IsLevelComplete() returns (complete: bool)
      requires Rectangular(board)
      ensures complete <==> HasSnowman(board)
    {
      var rows, cols := Rows(board), Cols(board);
      for row := 0 to rows
        invariant forall r, c :: 0 <= r < row && 0 <= c < cols ==> board[r][c] != Snowman
      {
        for col := 0 to cols
          invariant forall c :: 0 <= c < col ==> board[row][c] != Snowman
        {
          if GetPositionContent(board, row, col) == Ok(Snowman) {
            return true;
          }
        }
      }
      return false;
    }
  }
}
