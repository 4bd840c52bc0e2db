/** Properties of the classic rules: the invariant every reachable state keeps,
    who can win, how the list of available moves shrinks, and what the status
    text reveals. */
module EngineLemmas {
  import opened Wrappers
  import opened Engine

  /** Every complete line on the board carries the same mark. */
  predicate SingleOwner(b: Board)
  {
    forall i, j | 0 <= i < |WinLines| && 0 <= j < |WinLines| && Complete(b, i) && Complete(b, j) ::
      Owner(b, i) == Owner(b, j)
  }

  function Count(b: Board, p: Player): nat
  {
    multiset(b)[Some(p)]
  }

  /** The player whose mark goes down next: the current player while the game
      runs, the other one once the last mover has been left in place. */
  function NextMark(s: GameState): Player
  {
    if IsOver(s) then Other(s.currentPlayer) else s.currentPlayer
  }

  /** What holds of every state reachable from `new_game` by `move`:
      the stored outcome agrees with the board, at most one player owns lines,
      and X has made as many moves as O, or one more when O is next. */
  predicate Consistent(s: GameState)
  {
    && s.winner == CheckWinner(s.board)
    && s.isDraw == (s.winner.None? && IsFull(s.board))
    && SingleOwner(s.board)
    && Count(s.board, X) == Count(s.board, O) + (if NextMark(s) == O then 1 else 0)
  }

  /** Placing p on a board without complete lines can only complete lines of p:
      every line that is complete afterwards runs through the new mark. */
  lemma NewLinesOwnedByMover(b: Board, index: Index, p: Player, b': Board)
    requires forall i | 0 <= i < |WinLines| :: !Complete(b, i)
    requires b' == b[index := Some(p)]
    ensures forall i | 0 <= i < |WinLines| && Complete(b', i) :: Owner(b', i) == p
  {
    forall i | 0 <= i < |WinLines| && Complete(b', i)
      ensures Owner(b', i) == p
    {
      var (x, y, z) := WinLines[i];
      if x != index && y != index && z != index {
        assert Complete(b, i);
      }
    }
  }

  lemma NewGameConsistent()
    ensures Consistent(NewGame())
  {
  }

  /** A legal move from a consistent state yields a consistent state; in particular
      the only player who can win by a move is the one who makes it. */
  lemma MovePreservesConsistent(s: GameState, index: int)
    requires Consistent(s) && Move(s, index).Success?
    ensures Consistent(Move(s, index).value)
    ensures Move(s, index).value.winner in {None, Some(s.currentPlayer)}
  {
    var p := s.currentPlayer;
    var t := Move(s, index).value;
    NewLinesOwnedByMover(s.board, index, p, t.board);
    assert multiset(t.board) == multiset(s.board) - multiset{None} + multiset{Some(p)};
    assert Count(t.board, p) == Count(s.board, p) + 1;
    assert Count(t.board, Other(p)) == Count(s.board, Other(p));
  }

  /** Once the game is over no move is accepted, whatever the index. */
  lemma OverIsFinal(s: GameState, index: int)
    requires IsOver(s)
    ensures Move(s, index) == Failure(GameAlreadyOver)
  {
  }

  /** A move is accepted exactly when the game runs and the index is available. */
  lemma MoveLegalIffAvailable(s: GameState, index: int)
    ensures Move(s, index).Success? <==> !IsOver(s) && index in AvailableMoves(s)
  {
  }

  lemma {:induction false} PositionsFromDrop<T>(s: seq<T>, keep: T -> bool, k: nat, i: nat, v: T)
    requires k <= |s| && i < |s| && keep(s[i]) && !keep(v)
    ensures |PositionsFrom(s[i := v], keep, k)| == |PositionsFrom(s, keep, k)| - (if k <= i then 1 else 0)
    decreases |s| - k
  {
    if k < |s| {
      PositionsFromDrop(s, keep, k + 1, i, v);
    }
  }

  /** After a legal move the available moves are the old ones without `index`,
      one fewer. */
  lemma AvailableAfterMove(s: GameState, index: int)
    requires Move(s, index).Success?
    ensures var t := Move(s, index).value;
      && index !in AvailableMoves(t)
      && (forall i :: i in AvailableMoves(t) <==> i in AvailableMoves(s) && i != index)
      && |AvailableMoves(t)| == |AvailableMoves(s)| - 1
  {
    var t := Move(s, index).value;
    assert t.board == s.board[index := Some(s.currentPlayer)];
    PositionsFromDrop(s.board, EmptyCell, 0, index, Some(s.currentPlayer));
  }

  lemma EmptyIffNoMember(r: seq<int>)
    ensures r == [] <==> forall i :: i !in r
  {
    if r != [] {
      var x := r[0];
      assert x in r;
      assert !forall i :: i !in r;
    }
  }

  /** `_is_full` holds exactly when no move is available. */
  lemma FullIffNoMoves(s: GameState)
    ensures IsFull(s.board) <==> AvailableMoves(s) == []
  {
    var r := AvailableMoves(s);
    EmptyIffNoMember(r);
    if !IsFull(s.board) {
      var i :| 0 <= i < 9 && s.board[i].None?;
      assert i in r;
    }
  }

  /** A consistent game that is not over always has a legal move. */
  lemma RunningGameHasMove(s: GameState)
    requires Consistent(s) && !IsOver(s)
    ensures |AvailableMoves(s)| > 0
  {
    var i :| 0 <= i < 9 && s.board[i].None?;
    assert i in AvailableMoves(s);
  }

  /** The status text tells the outcome: who won, or that it is a draw, or whose turn it is. */
  lemma StatusDetermines(s: GameState, t: GameState)
    requires Status(s) == Status(t)
    ensures s.winner == t.winner
    ensures s.winner.None? ==> s.isDraw == t.isDraw
    ensures !IsOver(s) ==> s.currentPlayer == t.currentPlayer
  {
    // the texts differ in length or in their second character
    var a, c := Status(s), Status(t);
    assert a[0] == c[0] && |a| == |c|;
    if |a| > 4 {
      assert a[1] == c[1];
    }
  }
}
