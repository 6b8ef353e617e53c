/** The undo/redo/reset bookkeeping of model/BoardModel.java on values: the
    current state with its undo stack (`history`) and redo stack
    (`redoHistory`), tops at the ends of the sequences. */
module Histories {
  import opened Directions
  import opened GameStates
  import opened Moves

  datatype History = History(current: GameState, undoStack: seq<GameState>, redoStack: seq<GameState>)

  /** moveMonster with saveState: the pre-move snapshot is pushed and the redo
      stack cleared before the move is tried; a failed move pops the
      snapshot again, so only the redo stack is lost. */
  function MoveMonster(h: History, d: Direction): (r: (bool, History))
    requires Placed(h.current)
    ensures Placed(r.1.current)
    ensures r.1.redoStack == []
    ensures r.0 ==> r.1.undoStack == h.undoStack + [h.current]
    ensures !r.0 ==> r.1.undoStack == h.undoStack && r.1.current == h.current
    ensures r.0 <==> MonsterMove(h.current, d).Some?
    ensures r.0 ==> r.1.current == MonsterMove(h.current, d).value
  {
    var saved := History(h.current, h.undoStack + [h.current], []);
    match MonsterMove(h.current, d)
    case None => (false, saved.(undoStack := saved.undoStack[..|saved.undoStack| - 1]))
    case Some(s') => (true, saved.(current := s'))
  }

  /** undo: with an empty undo stack, fails and changes nothing; otherwise the
      current state goes onto the redo stack and the top snapshot becomes
      current. */
  function Undo(h: History): (r: (bool, History))
    ensures !r.0 <==> h.undoStack == []
    ensures !r.0 ==> r.1 == h
    ensures r.0 ==> (&& r.1.current == h.undoStack[|h.undoStack| - 1]
                     && r.1.undoStack + [r.1.current] == h.undoStack
                     && r.1.redoStack == h.redoStack + [h.current])
  {
    if |h.undoStack| == 0 then (false, h)
    else
      var previous := h.undoStack[|h.undoStack| - 1];
      (true, History(previous, h.undoStack[..|h.undoStack| - 1], h.redoStack + [h.current]))
  }

  /** redo: the mirror image of undo on the redo stack. */
  function Redo(h: History): (r: (bool, History))
    ensures !r.0 <==> h.redoStack == []
    ensures !r.0 ==> r.1 == h
    ensures r.0 ==> (&& r.1.current == h.redoStack[|h.redoStack| - 1]
                     && r.1.redoStack + [r.1.current] == h.redoStack
                     && r.1.undoStack == h.undoStack + [h.current])
  {
    if |h.redoStack| == 0 then (false, h)
    else
      var next := h.redoStack[|h.redoStack| - 1];
      (true, History(next, h.undoStack + [h.current], h.redoStack[..|h.redoStack| - 1]))
  }

  /** resetLevel: both stacks cleared and the construction-time state back. */
  function ResetLevel(h: History, initial: GameState): (r: History)
    ensures r.current == initial && r.undoStack == [] && r.redoStack == []
  {
    History(initial, [], [])
  }

  /** A successful move followed by undo restores the pre-move state and
      undo stack, with the post-move state waiting on the redo stack. */
  lemma UndoAfterMove(h: History, d: Direction)
    requires Placed(h.current) && MoveMonster(h, d).0
    ensures Undo(MoveMonster(h, d).1) == (true, History(h.current, h.undoStack, [MoveMonster(h, d).1.current]))
  {
    var h' := MoveMonster(h, d).1;
    assert h'.undoStack[..|h'.undoStack| - 1] == h.undoStack;
    assert h'.redoStack + [h'.current] == [h'.current];
  }

  /** Redo right after a successful undo restores exactly the pre-undo history. */
  lemma RedoAfterUndo(h: History)
    requires Undo(h).0
    ensures Redo(Undo(h).1) == (true, h)
  {
    var h' := Undo(h).1;
    assert h'.redoStack[..|h'.redoStack| - 1] == h.redoStack;
    assert h'.undoStack + [h'.current] == h.undoStack;
  }

  /** Undo right after a successful redo restores exactly the pre-redo history. */
  lemma UndoAfterRedo(h: History)
    requires Redo(h).0
    ensures Undo(Redo(h).1) == (true, h)
  {
    var h' := Redo(h).1;
    assert h'.undoStack[..|h'.undoStack| - 1] == h.undoStack;
    assert h'.redoStack + [h'.current] == h.redoStack;
  }

  /** After a reset there is nothing to undo or redo. */
  lemma NothingToUndoAfterReset(h: History, initial: GameState)
    ensures Undo(ResetLevel(h, initial)) == (false, History(initial, [], []))
    ensures Redo(ResetLevel(h, initial)) == (false, History(initial, [], []))
  {
  }

  /** `n` undos in a row. */
  function UndoTimes(h: History, n: nat): History
    decreases n
  {
    if n == 0 then h else UndoTimes(Undo(h).1, n - 1)
  }

  /** `n` redos in a row. */
  function RedoTimes(h: History, n: nat): History
    decreases n
  {
    if n == 0 then h else RedoTimes(Redo(h).1, n - 1)
  }

  /** The moves `ds`, in order, each through moveMonster. */
  function MoveMonsterAll(h: History, ds: seq<Direction>): History
    requires Placed(h.current)
    decreases |ds|
  {
    if ds == [] then h else MoveMonsterAll(MoveMonster(h, ds[0]).1, ds[1..])
  }

  /** Every move of `ds` succeeds when made in turn. */
  ghost predicate AllSucceed(h: History, ds: seq<Direction>)
    requires Placed(h.current)
    decreases |ds|
  {
    ds == [] ||
    (MoveMonster(h, ds[0]).0 && AllSucceed(MoveMonster(h, ds[0]).1, ds[1..]))
  }

  lemma {:induction false} UndoTimesStep(h: History, n: nat)
    requires n > 0 && |h.undoStack| >= n
    ensures UndoTimes(h, n) == Undo(UndoTimes(h, n - 1)).1
    ensures |UndoTimes(h, n - 1).undoStack| == |h.undoStack| - (n - 1)
    decreases n
  {
    if n > 1 {
      UndoTimesStep(Undo(h).1, n - 1);
    }
  }

  /** `n` undos followed by `n` redos give back the history exactly, when
      there were at least `n` moves to undo. */
  lemma {:induction false} UndoThenRedoRestores(h: History, n: nat)
    requires |h.undoStack| >= n
    ensures RedoTimes(UndoTimes(h, n), n) == h
    decreases n
  {
    if n > 0 {
      UndoTimesStep(h, n);
      var u := UndoTimes(h, n - 1);
      assert Undo(u).0;
      RedoAfterUndo(u);
      UndoThenRedoRestores(h, n - 1);
    }
  }

  /** Each successful move of a run pushes exactly one snapshot. */
  lemma {:induction false} MovesGrowUndoStack(h: History, ds: seq<Direction>)
    requires Placed(h.current) && AllSucceed(h, ds)
    ensures |MoveMonsterAll(h, ds).undoStack| == |h.undoStack| + |ds|
    decreases |ds|
  {
    if ds != [] {
      MovesGrowUndoStack(MoveMonster(h, ds[0]).1, ds[1..]);
    }
  }

  /** Undoing every move of a run of successful moves restores the state and
      the undo stack from before the run; the redo stack then holds one
      state per move. */
  lemma {:induction false} UndoingAllMovesRestores(h: History, ds: seq<Direction>)
    requires Placed(h.current) && AllSucceed(h, ds)
    ensures var h' := UndoTimes(MoveMonsterAll(h, ds), |ds|);
      && h'.current == h.current && h'.undoStack == h.undoStack
      && (ds != [] ==> |h'.redoStack| == |ds|)
    decreases |ds|
  {
    if ds != [] {
      var h1 := MoveMonster(h, ds[0]).1;
      var all := MoveMonsterAll(h, ds);
      assert all == MoveMonsterAll(h1, ds[1..]);
      UndoingAllMovesRestores(h1, ds[1..]);
      MovesGrowUndoStack(h1, ds[1..]);
      UndoTimesStep(all, |ds|);
      var before := UndoTimes(all, |ds| - 1);
      assert before.current == h1.current && before.undoStack == h.undoStack + [h.current];
      if ds[1..] == [] {
        assert before == h1;
      }
      assert |before.redoStack| == |ds| - 1;
      assert Undo(before).1.undoStack == h.undoStack;
    }
  }

  /** Redoing as many times as there were moves after undoing them all
      gives back the post-run history exactly. */
  lemma RedoingAllMovesReplays(h: History, ds: seq<Direction>)
    requires Placed(h.current) && AllSucceed(h, ds)
    ensures RedoTimes(UndoTimes(MoveMonsterAll(h, ds), |ds|), |ds|) == MoveMonsterAll(h, ds)
  {
    MovesGrowUndoStack(h, ds);
    UndoThenRedoRestores(MoveMonsterAll(h, ds), |ds|);
  }
}
