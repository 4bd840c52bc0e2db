/** Properties of the Super rules: the invariant every reachable state keeps, who can
    win a mini-board or the game, that a running game is never stuck, that every move
    uses up exactly one empty cell, and what the status text reveals. */
module SuperLemmas {
  import opened Wrappers
  import opened Engine
  import opened EngineLemmas
  import opened SuperEngine

  /** A mini-board whose stored result agrees with its cells and whose complete lines
      all carry one mark. */
  predicate MiniConsistent(m: MiniBoard)
  {
    && m.winner == CheckWinner(m.cells)
    && m.isDraw == (m.winner.None? && IsFull(m.cells))
    && SingleOwner(m.cells)
  }

  /** At most one player has three won boards in a line. */
  predicate SingleGlobalOwner(boards: Boards)
  {
    forall i, j, p, q | 0 <= i < |WinLines| && 0 <= j < |WinLines| && BoardsLine(boards, i, p) && BoardsLine(boards, j, q) ::
      p == q
  }

  /** What holds of every state reachable from `super_new_game` by `super_move`. */
  predicate SuperConsistent(s: SuperState)
  {
    && (forall k | 0 <= k < 9 :: MiniConsistent(s.boards[k]))
    && s.globalWinner == CheckGlobalWinner(s.boards)
    && s.isGlobalDraw == (s.globalWinner.None? && AllBoardsClosed(s.boards))
    && SingleGlobalOwner(s.boards)
    && (s.activeBoard.Some? ==> IsOpen(s.boards[s.activeBoard.value]))
  }

  lemma SuperNewGameConsistent()
    ensures SuperConsistent(SuperNewGame())
  {
  }

  /** When board `index` goes from no winner to winner p and no meta-line was won
      before, every won meta-line afterwards is p's and runs through `index`. */
  lemma NewBoardLinesOwnedByMover(boards: Boards, index: Index, p: Player, boards': Boards)
    requires forall i, q | 0 <= i < |WinLines| :: !BoardsLine(boards, i, q)
    requires boards[index].winner.None?
    requires boards'[index].winner in {None, Some(p)}
    requires forall k | 0 <= k < 9 && k != index :: boards'[k] == boards[k]
    ensures forall i, q | 0 <= i < |WinLines| && BoardsLine(boards', i, q) :: q == p
  {
    forall i, q | 0 <= i < |WinLines| && BoardsLine(boards', i, q)
      ensures q == p
    {
      var (x, y, z) := WinLines[i];
      if x != index && y != index && z != index {
        assert BoardsLine(boards, i, q);
      }
    }
  }

  /** Marking an open, consistent mini-board keeps it consistent, and only the mover
      can have won it. */
  lemma PlaceInBoardConsistent(m: MiniBoard, cell: Index, p: Player)
    requires MiniConsistent(m) && IsOpen(m) && m.cells[cell].None?
    ensures MiniConsistent(PlaceInBoard(m, cell, p))
    ensures PlaceInBoard(m, cell, p).winner in {None, Some(p)}
  {
    var m' := PlaceInBoard(m, cell, p);
    assert m'.cells == m.cells[cell := Some(p)];
    NewLinesOwnedByMover(m.cells, cell, p, m'.cells);
  }

  /** A legal move from a consistent state yields a consistent state; only the mover
      can win the mini-board played in, and only the mover can win the game. */
  lemma SuperMovePreservesConsistent(s: SuperState, boardIndex: int, cellIndex: int)
    requires SuperConsistent(s) && SuperMove(s, boardIndex, cellIndex).Success?
    ensures SuperConsistent(SuperMove(s, boardIndex, cellIndex).value)
    ensures SuperMove(s, boardIndex, cellIndex).value.boards[boardIndex].winner in {None, Some(s.currentPlayer)}
    ensures SuperMove(s, boardIndex, cellIndex).value.globalWinner in {None, Some(s.currentPlayer)}
  {
    var p := s.currentPlayer;
    var t := SuperMove(s, boardIndex, cellIndex).value;
    var m := s.boards[boardIndex];
    assert IsOpen(m) && m.cells[cellIndex].None?;
    assert t.boards == s.boards[boardIndex := PlaceInBoard(m, cellIndex, p)];
    var m' := PlaceInBoard(m, cellIndex, p);
    PlaceInBoardConsistent(m, cellIndex, p);
    forall k | 0 <= k < 9
      ensures MiniConsistent(t.boards[k])
    {
      if k != boardIndex {
        assert t.boards[k] == s.boards[k];
      }
    }
    assert t.globalWinner == CheckGlobalWinner(t.boards);
    assert t.isGlobalDraw == (t.globalWinner.None? && AllBoardsClosed(t.boards));
    assert t.activeBoard.Some? ==> IsOpen(t.boards[t.activeBoard.value]);
    NewBoardLinesOwnedByMover(s.boards, boardIndex, p, t.boards);
    assert SingleGlobalOwner(t.boards);
  }

  /** Once the game is over no move is accepted, whatever the indices. */
  lemma SuperOverIsFinal(s: SuperState, boardIndex: int, cellIndex: int)
    requires IsSuperOver(s)
    ensures SuperMove(s, boardIndex, cellIndex) == Failure(GameOver)
  {
  }

  /** `_all_boards_closed_dict` holds exactly when no board is available. */
  lemma AllClosedIffNoBoards(s: SuperState)
    ensures AllBoardsClosed(s.boards) <==> AvailableBoards(s) == []
  {
    var r := AvailableBoards(s);
    EmptyIffNoMember(r);
    if !AllBoardsClosed(s.boards) {
      var k: Index :| IsOpen(s.boards[k]);
      if !(s.activeBoard.Some? && IsOpen(s.boards[s.activeBoard.value])) {
        assert k in r;
      }
    }
  }

  /** A consistent game that is not over always has a legal move, in the active board
      when one is set. */
  lemma RunningSuperGameHasMove(s: SuperState)
    requires SuperConsistent(s) && !IsSuperOver(s)
    ensures exists b, c :: SuperMove(s, b, c).Success?
    ensures s.activeBoard.Some? ==> exists c :: SuperMove(s, s.activeBoard.value, c).Success?
  {
    var b: Index :| IsOpen(s.boards[b]);
    if s.activeBoard.Some? {
      b := s.activeBoard.value;
    }
    assert b in AvailableBoards(s);
    var c: Index :| s.boards[b].cells[c].None?;
    assert SuperMove(s, b, c).Success?;
  }

  /** The number of empty cells of mini-boards k..8. */
  function EmptyCellsFrom(boards: Boards, k: nat): nat
    requires k <= 9
    decreases 9 - k
  {
    if k == 9 then 0 else |AvailableCells(boards[k])| + EmptyCellsFrom(boards, k + 1)
  }

  function AvailableCells(m: MiniBoard): seq<int>
  {
    Positions(m.cells, EmptyCell)
  }

  lemma {:induction false} EmptyCellsFromUpdate(boards: Boards, boards': Boards, index: Index, k: nat)
    requires k <= 9
    requires forall j | 0 <= j < 9 && j != index :: boards'[j] == boards[j]
    requires |AvailableCells(boards'[index])| + 1 == |AvailableCells(boards[index])|
    ensures EmptyCellsFrom(boards', k) + (if k <= index then 1 else 0) == EmptyCellsFrom(boards, k)
    decreases 9 - k
  {
    if k < 9 {
      EmptyCellsFromUpdate(boards, boards', index, k + 1);
    }
  }

  /** A new game has 81 empty cells. */
  lemma SuperNewGameEmptyCells()
    ensures EmptyCellsFrom(SuperNewGame().boards, 0) == 81
  {
  }

  /** Every accepted move fills exactly one empty cell; with SuperNewGameEmptyCells,
      a game lasts at most 81 moves. */
  lemma SuperMoveUsesOneCell(s: SuperState, boardIndex: int, cellIndex: int)
    requires SuperMove(s, boardIndex, cellIndex).Success?
    ensures EmptyCellsFrom(SuperMove(s, boardIndex, cellIndex).value.boards, 0) + 1 == EmptyCellsFrom(s.boards, 0)
  {
    var t := SuperMove(s, boardIndex, cellIndex).value;
    var m, m' := s.boards[boardIndex], t.boards[boardIndex];
    assert m'.cells == m.cells[cellIndex := Some(s.currentPlayer)];
    PositionsFromDrop(m.cells, EmptyCell, 0, cellIndex, Some(s.currentPlayer));
    EmptyCellsFromUpdate(s.boards, t.boards, boardIndex, 0);
  }

  /** The status text tells the outcome, or whose turn it is and which board they must use. */
  lemma SuperStatusDetermines(s: SuperState, t: SuperState)
    requires SuperStatus(s) == SuperStatus(t)
    ensures s.globalWinner == t.globalWinner
    ensures s.globalWinner.None? ==> s.isGlobalDraw == t.isGlobalDraw
    ensures !IsSuperOver(s) ==> s.currentPlayer == t.currentPlayer && s.activeBoard == t.activeBoard
  {
    var a, c := SuperStatus(s), SuperStatus(t);
    assert a[0] == c[0] && |a| == |c|;
    if |a| > 4 {
      assert a[1] == c[1];
    }
    if |a| > 8 {
      assert a[9] == c[9];
      assert a[|a| - 1] == c[|c| - 1];
    }
  }
}
