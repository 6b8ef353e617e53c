# Snowman board engine in Dafny

A Dafny model of the model layer of the Snowman puzzle game
(`app/model`). A monster walks on a rectangular grid of cells
(`NO_SNOW`, `SNOW`, `BLOCK`, `SNOWMAN`) and pushes snowballs. A pushed
snowball that rolls over `SNOW` grows one size and clears the cell. One
that runs into another snowball tries to stack with it:

- a SMALL, MID or BIG pair of different sizes makes a two-part snowball;
- a two-part snowball and the part it lacks make a `SNOWMAN` cell.

Every attempted move is recorded on an undo stack. Undo, redo and reset
restore whole snapshots. A catalogue of five levels supplies the starting
boards.

The project has two layers.

- **Values.** Modules `Directions`, `SnowballTypes`, `Grids`,
  `GameStates`, `Moves`, `Invariants` and `Histories` state the rules as
  functions on values:
  - a grid is `seq<seq<PositionContent>>`;
  - a snowball is a `(row, col, tier)` record, identified by its index
    in the snowball list;
  - a snapshot is a `GameState` datatype;
  - the undo/redo bookkeeping is a `History` value.

  Lemmas about these functions carry the game's promises:
  - the combination table and its symmetry;
  - the outcome of each kind of push;
  - the structural invariant every move keeps;
  - undo/redo inverse laws;
  - the reset law.
- **Objects.** Modules `Board` and `Levels` hold classes that update
  their fields in place, as the Java objects do: `Monster`,
  `BoardModel`, `Level` and `LevelManager`. Every state-changing method
  is proved to leave the state (and both stacks) equal to the value-level
  function of the old state. So each lemma about the functions is also a
  statement about the objects.

The module `Scenarios` replays the situations of the repository's unit
tests as lemmas about concrete boards.

Snowballs are values. Java removes a snowball from the list by object
identity. While no two snowballs share a cell, that is removal at the
snowball's index, which is how the model removes it. A snapshot holds
copies and cannot be reached by later changes to the board.

Points of the code's behaviour that are easy to miss, all modelled as
written:

- **Two-part snowballs are pushable.** `Snowball.move` has no check of
  the snowball's tier, so `MID_SMALL`, `BIG_SMALL` and `BIG_MID` are
  pushed like any other snowball.
- **Any attempted move clears the redo stack.** `moveMonster` calls
  `saveState`, which clears the redo stack before the move is tried, so a
  move that fails clears it too.
- **`SNOWMAN` cells are passable.** `validPosition` rejects only cells off
  the board and `BLOCK`, so the monster may step onto a `SNOWMAN` cell and
  then writes `NO_SNOW` there (`Moves.MonsterErasesSnowman`).
- **In the 3x1 column of `BoardModelTest` the first UP already pushes the
  snowball.** The monster starts at (2, 0) right below the snowball at
  (1, 0), so its first UP pushes the snowball onto the `SNOW` at (0, 0),
  where it becomes MID. The monster stops at (1, 0), and every later UP
  fails (`Scenarios.ColumnPushes`).

For that reason two expectations of `BoardModelTest` do not match the code:

- `testMonsterInvalidMove` (lines 67-74) expects the monster at (0, 0)
  after three UP moves, but the monster can never get past (1, 0). Its
  sibling `testMoveSnowballUpward` (lines 91-104) expects (1, 0).
- `testSnowballInvalidMove` asserts at line 133 that the second UP
  succeeds, but under the code the second UP is already the push off the
  board, which fails (`Scenarios.ColumnPushes`, `Scenarios.ColumnBlockedPush`).

## Model

| member | source | states |
|---|---|---|
| Directions.DeltaRow | src/main/java/pt/ipbeja/estig/po2/snowman/app/model/Direction.java:31-78 | the row delta is -1 exactly for UP, +1 exactly for DOWN, 0 exactly for LEFT and RIGHT |
| Directions.DeltaCol | src/main/java/pt/ipbeja/estig/po2/snowman/app/model/Direction.java:31-90 | the column delta is -1 exactly for LEFT, +1 exactly for RIGHT, 0 exactly for UP and DOWN |
| Directions.UnitStep | src/main/java/pt/ipbeja/estig/po2/snowman/app/model/Direction.java:31-49 | every direction has exactly one nonzero delta, of magnitude 1 |
| Directions.OppositeDeltas | src/main/java/pt/ipbeja/estig/po2/snowman/app/model/Direction.java:31-49 | UP and DOWN, and LEFT and RIGHT, have negated deltas |
| SnowballTypes.IncreaseSnowballType | src/main/java/pt/ipbeja/estig/po2/snowman/app/model/Snowball.java:59-64 | a one-part tier grows by one size up to BIG; the tier changes exactly for SMALL and MID; growth never yields a two-part tier or COMPLETE |
| SnowballTypes.HasAllThreeParts | src/main/java/pt/ipbeja/estig/po2/snowman/app/model/Snowball.java:178-185 | true exactly when the two tiers share no segment and together hold SMALL, MID and BIG |
| SnowballTypes.CalculateCombinedType | src/main/java/pt/ipbeja/estig/po2/snowman/app/model/Snowball.java:149-169 | a result exists exactly when the tiers share no segment, and the result's segments are the union of both |
| SnowballTypes.CombinedTypeSymmetric | src/main/java/pt/ipbeja/estig/po2/snowman/app/model/Snowball.java:149-169 | the combination does not depend on which snowball is the mover |
| SnowballTypes.CombinationTable | src/main/java/pt/ipbeja/estig/po2/snowman/app/model/Snowball.java:149-185 | the six successful rows of the table, and that a pair combines exactly when it is two different one-part tiers or a two-part tier with its missing part |
| SnowballTypes.CombinationOrigin | src/main/java/pt/ipbeja/estig/po2/snowman/app/model/Snowball.java:150-166 | each two-part tier comes from exactly one unordered pair of one-part tiers; COMPLETE only from a two-part and a one-part tier; no combination yields a one-part tier |
| Grids.GetPositionContent | src/main/java/pt/ipbeja/estig/po2/snowman/app/model/BoardModel.java:98-103 | on a rectangular grid it fails exactly when the position is out of bounds, and otherwise returns that cell |
| Grids.ValidPosition | src/main/java/pt/ipbeja/estig/po2/snowman/app/model/BoardModel.java:123-128 | a position is valid only if in bounds, and then exactly when the cell is NO_SNOW, SNOW or SNOWMAN (not BLOCK) |
| Grids.SetCell | src/main/java/pt/ipbeja/estig/po2/snowman/app/model/BoardModel.java:112-114 | the written cell holds the new content, every other cell and the grid's shape are unchanged |
| GameStates.SnowballInPosition | src/main/java/pt/ipbeja/estig/po2/snowman/app/model/BoardModel.java:137-144 | returns the index of a snowball on the cell with none before it in list order, and none exactly when no snowball is there |
| Moves.RemoveAt | src/main/java/pt/ipbeja/estig/po2/snowman/app/model/Snowball.java:123-124 | removal shortens the list by one and keeps the others in order |
| Moves.RemoveAtMultiset | src/main/java/pt/ipbeja/estig/po2/snowman/app/model/Snowball.java:123-124 | removal takes away exactly one occurrence of the removed snowball |
| Moves.RemoveBoth | src/main/java/pt/ipbeja/estig/po2/snowman/app/model/Snowball.java:123-124 | removing the two snowballs leaves two fewer |
| Moves.RemoveBothMultiset | src/main/java/pt/ipbeja/estig/po2/snowman/app/model/Snowball.java:123-124 | exactly the mover and the stationary snowball leave the list |
| Moves.CombineSnowballs | src/main/java/pt/ipbeja/estig/po2/snowman/app/model/Snowball.java:119-137 | succeeds exactly when the tiers combine; COMPLETE drops the count by 2 and writes SNOWMAN at the stationary cell; a two-part result drops it by 1, ends the list and leaves the grid alone; the monster never moves |
| Moves.CombinationReplaces | src/main/java/pt/ipbeja/estig/po2/snowman/app/model/Snowball.java:119-135 | a combination removes exactly its two snowballs and, unless COMPLETE, adds exactly one of the combined tier at the stationary cell |
| Moves.SnowballMove | src/main/java/pt/ipbeja/estig/po2/snowman/app/model/Snowball.java:80-106 | a push keeps the monster and the grid's shape |
| Moves.MonsterTarget | src/main/java/pt/ipbeja/estig/po2/snowman/app/model/Monster.java:26-34 | the switch in move agrees with the direction deltas |
| Moves.MonsterMove | src/main/java/pt/ipbeja/estig/po2/snowman/app/model/Monster.java:24-61 | succeeds exactly when the target is valid and a snowball there can be pushed; on success the monster is on the target, both the cell left and the cell entered are NO_SNOW, the board stays rectangular, and every other cell and the snowball list are as the push left them (as they were, on a step with no snowball at the target) |
| Moves.SnowballMoveBlocked | src/main/java/pt/ipbeja/estig/po2/snowman/app/model/Snowball.java:81-87 | a push towards an invalid cell fails |
| Moves.SnowballMoveOntoFreeCell | src/main/java/pt/ipbeja/estig/po2/snowman/app/model/Snowball.java:95-105 | a push onto an unoccupied valid cell moves the snowball one step, grows it exactly when the cell held SNOW, clears that cell, and changes nothing else |
| Moves.SnowballMoveIntoSnowball | src/main/java/pt/ipbeja/estig/po2/snowman/app/model/Snowball.java:89-93 | a push into an occupied cell is a combination with the first snowball there, which is another snowball |
| Moves.PushWithoutCombination | src/main/java/pt/ipbeja/estig/po2/snowman/app/model/Monster.java:42-58 | after a push without combination the monster stands in the snowball's old cell and the snowball one cell further on |
| Moves.MonsterErasesSnowman | src/main/java/pt/ipbeja/estig/po2/snowman/app/model/Monster.java:52-58 | a monster can walk onto an unoccupied SNOWMAN cell, which then holds NO_SNOW |
| Moves.CompletionLeavesSnowman | src/main/java/pt/ipbeja/estig/po2/snowman/app/model/Snowball.java:126-128 | when a push completes a snowman, the cell holds SNOWMAN after the whole monster move and the level is complete |
| Invariants.SnowballMoveKeeps | src/main/java/pt/ipbeja/estig/po2/snowman/app/model/Snowball.java:80-106 | a successful push keeps snowballs on valid cells and apart, rewrites no BLOCK, and frees the pushed snowball's old cell |
| Invariants.MonsterMovePreservesInvariant | src/main/java/pt/ipbeja/estig/po2/snowman/app/model/Monster.java:37-58 | every successful move keeps the monster and every snowball off BLOCK cells, no two snowballs in one cell, the monster off every snowball, and no snowball of tier COMPLETE; it creates and removes no BLOCK and writes only NO_SNOW or SNOWMAN |
| Histories.MoveMonster | src/main/java/pt/ipbeja/estig/po2/snowman/app/model/BoardModel.java:163-178 | success pushes exactly the pre-move state; failure leaves the state and undo stack as they were; the redo stack is empty either way |
| Histories.Undo | src/main/java/pt/ipbeja/estig/po2/snowman/app/model/BoardModel.java:185-208 | fails and changes nothing exactly when the undo stack is empty; otherwise the top snapshot becomes current and the old current state goes on redo |
| Histories.Redo | src/main/java/pt/ipbeja/estig/po2/snowman/app/model/BoardModel.java:215-238 | the mirror image of undo on the redo stack |
| Histories.ResetLevel | src/main/java/pt/ipbeja/estig/po2/snowman/app/model/BoardModel.java:244-264 | whatever came before, the construction-time state is current and both stacks are empty |
| Histories.UndoAfterMove | src/main/java/pt/ipbeja/estig/po2/snowman/app/model/BoardModel.java:163-208 | a successful move followed by undo restores the pre-move state and undo stack |
| Histories.RedoAfterUndo | src/main/java/pt/ipbeja/estig/po2/snowman/app/model/BoardModel.java:185-238 | redo right after a successful undo restores exactly the history before the undo |
| Histories.UndoAfterRedo | src/main/java/pt/ipbeja/estig/po2/snowman/app/model/BoardModel.java:185-238 | undo right after a successful redo restores exactly the history before the redo |
| Histories.NothingToUndoAfterReset | src/main/java/pt/ipbeja/estig/po2/snowman/app/model/BoardModel.java:244-246 | after a reset both undo and redo fail and change nothing |
| Histories.UndoThenRedoRestores | src/main/java/pt/ipbeja/estig/po2/snowman/app/model/BoardModel.java:185-238 | n undos followed by n redos restore the history exactly |
| Histories.MovesGrowUndoStack | src/main/java/pt/ipbeja/estig/po2/snowman/app/model/BoardModel.java:163-178 | each successful move in a run adds exactly one snapshot |
| Histories.UndoingAllMovesRestores | src/main/java/pt/ipbeja/estig/po2/snowman/app/model/BoardModel.java:163-208 | undoing every move of a successful run restores the state and undo stack from before it, with one redo entry per move |
| Histories.RedoingAllMovesReplays | src/main/java/pt/ipbeja/estig/po2/snowman/app/model/BoardModel.java:163-238 | redoing them all afterwards gives back the post-run history exactly |
| Board.Monster.constructor | src/main/java/pt/ipbeja/estig/po2/snowman/app/model/MobileElement.java:30-33 | the position is the arguments |
| Board.Monster.SetRow | src/main/java/pt/ipbeja/estig/po2/snowman/app/model/MobileElement.java:40-42 | sets the row; the column is unchanged |
| Board.Monster.SetCol | src/main/java/pt/ipbeja/estig/po2/snowman/app/model/MobileElement.java:49-51 | sets the column; the row is unchanged |
| Board.Monster.Move | src/main/java/pt/ipbeja/estig/po2/snowman/app/model/Monster.java:24-61 | returns whether the move succeeds, and leaves the board exactly in the state the move produces, or untouched on failure |
| Board.BoardModel.constructor | src/main/java/pt/ipbeja/estig/po2/snowman/app/model/BoardModel.java:32-53 | the given grid, monster and list are live with empty stacks, and the initial configuration is a copy equal to them |
| Board.BoardModel.SetPositionContent | src/main/java/pt/ipbeja/estig/po2/snowman/app/model/BoardModel.java:112-114 | rewrites one cell and keeps the board well formed |
| Board.BoardModel.SnowballInPosition | src/main/java/pt/ipbeja/estig/po2/snowman/app/model/BoardModel.java:137-144 | the loop finds the first snowball on the cell, or none, and agrees with the value-level search |
| Board.BoardModel.MoveSnowball | src/main/java/pt/ipbeja/estig/po2/snowman/app/model/Snowball.java:80-106 | the push happens in place exactly as the value-level push describes, or not at all |
| Board.BoardModel.TryToCombineSnowballs | src/main/java/pt/ipbeja/estig/po2/snowman/app/model/Snowball.java:119-137 | the two removals and the append or SNOWMAN write in place give exactly the value-level combination; failure changes nothing |
| Board.BoardModel.Snapshot | src/main/java/pt/ipbeja/estig/po2/snowman/app/model/GameState.java:22-39 | the copied grid, monster position and snowballs equal the live ones |
| Board.BoardModel.SaveState | src/main/java/pt/ipbeja/estig/po2/snowman/app/model/BoardModel.java:175-178 | the live state is pushed on the undo stack and the redo stack is emptied |
| Board.BoardModel.RestoreBoard | src/main/java/pt/ipbeja/estig/po2/snowman/app/model/BoardModel.java:193-197 | the cell-by-cell copy leaves the grid equal to the source grid |
| Board.BoardModel.MoveMonster | src/main/java/pt/ipbeja/estig/po2/snowman/app/model/BoardModel.java:163-170 | result, state and both stacks are those of the value-level moveMonster; the board invariant is kept |
| Board.BoardModel.Undo | src/main/java/pt/ipbeja/estig/po2/snowman/app/model/BoardModel.java:185-208 | result, state and both stacks are those of the value-level undo; the board invariant is kept |
| Board.BoardModel.Redo | src/main/java/pt/ipbeja/estig/po2/snowman/app/model/BoardModel.java:215-238 | result, state and both stacks are those of the value-level redo; the board invariant is kept |
| Board.BoardModel.ResetLevel | src/main/java/pt/ipbeja/estig/po2/snowman/app/model/BoardModel.java:244-264 | the construction-time configuration is back with both stacks empty, after any history |
| Board.BoardModel.IsLevelComplete | src/main/java/pt/ipbeja/estig/po2/snowman/app/model/BoardModel.java:272-281 | true exactly when some cell holds SNOWMAN, whatever snowballs remain |
| Levels.LevelLayout | src/main/java/pt/ipbeja/estig/po2/snowman/app/model/LevelManager.java:54-165 | level 1 is 5x5 and levels 2-5 are 6x6, every cell BLOCK exactly at the listed cells and SNOW elsewhere, with no SNOWMAN |
| Levels.LevelBlocksPlaced | src/main/java/pt/ipbeja/estig/po2/snowman/app/model/LevelManager.java:94-161 | level 1 has no BLOCK; each other level has four distinct BLOCK cells inside the board |
| Levels.LevelStartSound | src/main/java/pt/ipbeja/estig/po2/snowman/app/model/LevelManager.java:173-216 | every level starts with three SMALL snowballs, the monster at (0, 0), and the board invariant holding |
| Levels.FillWithSnow | src/main/java/pt/ipbeja/estig/po2/snowman/app/model/LevelManager.java:55-66 | the fill loops build a rows x cols field of SNOW |
| Levels.PlaceBlocks | src/main/java/pt/ipbeja/estig/po2/snowman/app/model/LevelManager.java:93-97 | the set calls make exactly the listed cells BLOCK |
| Levels.CreateLevelBoard | src/main/java/pt/ipbeja/estig/po2/snowman/app/model/LevelManager.java:54-165 | the builder of level n returns that level's catalogue layout |
| Levels.Level.constructor | src/main/java/pt/ipbeja/estig/po2/snowman/app/model/Level.java:63-77 | the stored layout, monster start, snowballs and level number equal the arguments |
| Levels.Level.CreateBoardModel | src/main/java/pt/ipbeja/estig/po2/snowman/app/model/Level.java:88-106 | a new board and monster holding the stored configuration with empty stacks; the level is unchanged, so every call starts alike |
| Levels.LevelManager.constructor | src/main/java/pt/ipbeja/estig/po2/snowman/app/model/LevelManager.java:41-45 | five levels numbered 1-5 in order, index 0 |
| Levels.LevelManager.InitializeLevels | src/main/java/pt/ipbeja/estig/po2/snowman/app/model/LevelManager.java:173-216 | appends the five catalogue levels in order, numbered 1 to 5 |
| Levels.LevelManager.GetCurrentLevel | src/main/java/pt/ipbeja/estig/po2/snowman/app/model/LevelManager.java:223-225 | a new board for the current level's start, satisfying the board invariant |
| Levels.LevelManager.HasNextLevel | src/main/java/pt/ipbeja/estig/po2/snowman/app/model/LevelManager.java:241-243 | true exactly when the current level is not level 5, and then a next level exists |
| Levels.LevelManager.LoadNextLevel | src/main/java/pt/ipbeja/estig/po2/snowman/app/model/LevelManager.java:253-259 | with a next level, the index grows by one and that level's board is returned; otherwise nothing is returned and the index stays; the index stays in range |
| Scenarios.SmallIntoMid | src/test/java/pt/ipbeja/estig/po2/snowman/po2/app/model/ModelTest.java:100-115 | SMALL pushed into MID: both leave and MID_SMALL is appended at the MID's cell |
| Scenarios.SnowmanFirstCombine | src/test/java/pt/ipbeja/estig/po2/snowman/po2/app/model/ModelTest.java:100-115 | the first UP's push turns SMALL and MID into MID_SMALL at (2, 3) |
| Scenarios.SnowmanFirstPush | src/test/java/pt/ipbeja/estig/po2/snowman/po2/app/model/ModelTest.java:98-116 | after the first UP the monster is at (3, 3) with BIG and MID_SMALL left |
| Scenarios.SnowmanSecondPush | src/test/java/pt/ipbeja/estig/po2/snowman/po2/app/model/ModelTest.java:118-125 | the second UP pushes MID_SMALL into BIG: SNOWMAN at (1, 3), no snowball left, level complete |
| Scenarios.CompleteSnowman | src/test/java/pt/ipbeja/estig/po2/snowman/po2/app/model/ModelTest.java:97-125 | two UP moves from the test's start leave SNOWMAN at (1, 3) |
| Scenarios.PushedColumn | src/test/java/pt/ipbeja/estig/po2/snowman/po2/app/model/BoardModelTest.java:97-101 | the column right after the push: MID at (0, 0) and no snow left |
| Scenarios.ColumnSnowballPush | src/test/java/pt/ipbeja/estig/po2/snowman/po2/app/model/BoardModelTest.java:109-120 | the first UP's push rolls the SMALL onto the SNOW at (0, 0), where it becomes MID and the snow is cleared |
| Scenarios.ColumnMonsterStep | src/test/java/pt/ipbeja/estig/po2/snowman/po2/app/model/BoardModelTest.java:58-62 | the monster's part of the first UP ends at (1, 0) |
| Scenarios.ColumnFirstPush | src/test/java/pt/ipbeja/estig/po2/snowman/po2/app/model/BoardModelTest.java:58-62 | the first UP succeeds with the monster at (1, 0) and a MID at (0, 0) |
| Scenarios.ColumnBlockedPush | src/test/java/pt/ipbeja/estig/po2/snowman/po2/app/model/BoardModelTest.java:131-139 | a further UP would push the snowball off the board and fails |
| Scenarios.ColumnLeftBlocked | src/test/java/pt/ipbeja/estig/po2/snowman/po2/app/model/BoardModelTest.java:49-53 | a move LEFT off the one-column board fails |
| Scenarios.ColumnPushes | src/test/java/pt/ipbeja/estig/po2/snowman/po2/app/model/BoardModelTest.java:67-74 | of three UP moves only the first succeeds; the monster ends at (1, 0) with one snapshot on the undo stack |
| Scenarios.MonsterSteps | src/test/java/pt/ipbeja/estig/po2/snowman/po2/app/model/MonsterTest.java:54-99 | from (2, 2) on the empty 3x3 board LEFT reaches (2, 1), UP reaches (1, 2), RIGHT fails |
| Scenarios.LeftPush | src/test/java/pt/ipbeja/estig/po2/snowman/po2/app/model/ModelTest.java:56-95 | LEFT pushes the SMALL onto the SNOW at (0, 1), where it becomes MID; with a BLOCK at (0, 2) the move fails |

## Left out

- Rectangular grids only: the Java code reads column counts from row 0 and would throw on a ragged grid. `BoardModel` requires a rectangular grid with the monster on it.
- Board.BoardModel.SetPositionContent: requires the cell to be in range; Java would throw `IndexOutOfBoundsException`, which no caller in the core triggers.
- Board.BoardModel.IsLevelComplete: requires a rectangular grid, for the same reason.
- Java `int` overflow: coordinates and indices are unbounded integers; every coordinate in the core stays within the grid.
- Object identity and aliasing: snowballs are values, so removal by identity (`List.remove(Object)`) becomes removal by index. `Snowball.move` is modelled as `Board.BoardModel.MoveSnowball` on an index, and the snapshot objects that `undo`/`redo` put back into the live list are values too.
- The `BoardModel` constructor keeps the caller's grid and snowball lists by reference, and `BoardModelTest` changes its `content` grid after construction (line 130). The model copies both into `seq` fields, so later changes the caller makes to its own lists are not seen by the model; the scenarios state such a change as part of the board they start from.
- `Level`'s constructor copies the snowball list but shares its `Snowball` objects with the caller. With snowballs as values that sharing has no counterpart.
- `MobileElement` is not a class of its own: its fields and setters are on `Board.Monster`. The snowball's position lives in its value record.
- Plain getters (`getRows`, `getCols`, `getMonster`, `getSnowballs`, `getBoard`, `getRow`, `getCol`, `getType`, `getLevelNumber`, `getCurrentLevelIndex`, and the snapshot getters) are reads of fields or datatype components.
- `Monster.canMoveTo` is private and never called.
- The GUI (`SnowmanGUI`, `SnowmanBoard`), audio (`GameAudio`) and the `View` callback are not part of this model; no logic of the core depends on them.
- Moves.SnowballMove: its own contract states only what every push keeps (the monster and the grid's shape); its three outcomes are stated by Moves.SnowballMoveBlocked, Moves.SnowballMoveOntoFreeCell and Moves.SnowballMoveIntoSnowball.
- Moves.RemoveBoth: its own contract gives only the length; which snowballs leave is stated by Moves.RemoveBothMultiset.
