/** Classic 3x3 tic-tac-toe, as backend/app/tictactoe/engine.py implements it,
    together with the line check and the index helpers that the Super rules reuse.

    The source copies the state before it changes anything and returns the copy,
    so every operation here is a function from an immutable state to a new one:
    the caller's state can never be altered. */
module Engine {
  import opened Wrappers

  datatype Player = X | O

  /** A cell is empty (None) or holds a player's mark. */
  type Cell = Option<Player>

  /** Positions on a 3x3 grid, row-major. */
  type Index = i: int | 0 <= i < 9

  /** A board is exactly nine cells. */
  type Board = b: seq<Cell> | |b| == 9
    witness [None, None, None, None, None, None, None, None, None]

  const EmptyBoard: Board := [None, None, None, None, None, None, None, None, None]

  /** The eight lines, scanned in this order: rows, columns, diagonals. */
  const WinLines: seq<(Index, Index, Index)> := [
    (0, 1, 2), (3, 4, 5), (6, 7, 8),
    (0, 3, 6), (1, 4, 7), (2, 5, 8),
    (0, 4, 8), (2, 4, 6)
  ]

  function Other(p: Player): Player
  {
    if p == X then O else X
  }

  /** Line i holds three equal, non-empty cells. */
  predicate Complete(b: Board, i: nat)
    requires i < |WinLines|
  {
    var (x, y, z) := WinLines[i];
    b[x].Some? && b[x] == b[y] && b[x] == b[z]
  }

  /** The mark on a complete line. */
  function Owner(b: Board, i: nat): Player
    requires i < |WinLines| && Complete(b, i)
  {
    b[WinLines[i].0].value
  }

  /** The part of `_check_winner`'s loop that starts at line k: the mark of the
      first complete line among lines k.., or None when there is none. */
  function WinnerFrom(b: Board, k: nat): (r: Cell)
    requires k <= |WinLines|
    ensures r.None? <==> forall i | k <= i < |WinLines| :: !Complete(b, i)
    ensures r.Some? ==> exists i | k <= i < |WinLines| ::
      Complete(b, i) && Owner(b, i) == r.value && forall j | k <= j < i :: !Complete(b, j)
    decreases |WinLines| - k
  {
    if k == |WinLines| then None
    else if Complete(b, k) then Some(Owner(b, k))
    else WinnerFrom(b, k + 1)
  }

  /** `_check_winner`: the mark of the first complete line in the fixed scan order. */
  function CheckWinner(b: Board): (r: Cell)
    ensures r.None? <==> forall i | 0 <= i < |WinLines| :: !Complete(b, i)
    ensures r.Some? ==> exists i | 0 <= i < |WinLines| ::
      Complete(b, i) && Owner(b, i) == r.value && forall j | 0 <= j < i :: !Complete(b, j)
  {
    WinnerFrom(b, 0)
  }

  /** `_is_full`: no cell is empty. */
  predicate IsFull(b: Board)
  {
    forall i | 0 <= i < 9 :: b[i].Some?
  }

  predicate EmptyCell(c: Cell)
  {
    c.None?
  }

  /** The indices of the elements of s that `keep` accepts, in ascending order,
      starting at index k (the list comprehension `[i for i, x in enumerate(s) if ...]`). */
  function PositionsFrom<T>(s: seq<T>, keep: T -> bool, k: nat): (r: seq<int>)
    requires k <= |s|
    ensures forall j | 0 <= j < |r| :: k <= r[j] < |s| && keep(s[r[j]])
    ensures forall i | k <= i < |s| && keep(s[i]) :: i in r
    ensures forall j, j' | 0 <= j < j' < |r| :: r[j] < r[j']
    decreases |s| - k
  {
    if k == |s| then []
    else if keep(s[k]) then [k] + PositionsFrom(s, keep, k + 1)
    else PositionsFrom(s, keep, k + 1)
  }

  function Positions<T>(s: seq<T>, keep: T -> bool): (r: seq<int>)
    ensures forall i :: i in r <==> 0 <= i < |s| && keep(s[i])
    ensures forall j, j' | 0 <= j < j' < |r| :: r[j] < r[j']
  {
    PositionsFrom(s, keep, 0)
  }

  /** The classic game state (the `GameState` dataclass). */
  datatype GameState = GameState(board: Board, currentPlayer: Player, winner: Option<Player>, isDraw: bool)

  predicate IsOver(s: GameState)
  {
    s.winner.Some? || s.isDraw
  }

  /** The errors `move` raises, in the order it checks for them. */
  datatype MoveError = GameAlreadyOver | IndexOutOfRange | CellOccupied

  /** The source raises IndexOutOfRange as an IndexError, the others as ValueError. */
  predicate IsMoveIndexError(e: MoveError)
  {
    e == IndexOutOfRange
  }

  function MoveMessage(e: MoveError): string
  {
    match e
    case GameAlreadyOver => "Game is already over."
    case IndexOutOfRange => "Index must be in range [0, 8]."
    case CellOccupied => "Cell already occupied."
  }

  /** `new_game`: an empty board, X to move, no winner, no draw. */
  function NewGame(): (s: GameState)
    ensures forall i | 0 <= i < 9 :: s.board[i].None?
    ensures s.currentPlayer == X && s.winner.None? && !s.isDraw
  {
    GameState(EmptyBoard, X, None, false)
  }

  /** `move`: the current player marks cell `index`. */
  function Move(s: GameState, index: int): (r: Result<GameState, MoveError>)
    // the checks, in the source's order
    ensures IsOver(s) ==> r == Failure(GameAlreadyOver)
    ensures !IsOver(s) && !(0 <= index < 9) ==> r == Failure(IndexOutOfRange)
    ensures !IsOver(s) && 0 <= index < 9 && s.board[index].Some? ==> r == Failure(CellOccupied)
    ensures r.Success? <==> !IsOver(s) && 0 <= index < 9 && s.board[index].None?
    // on success exactly the chosen cell changes, to the mover's mark
    ensures r.Success? ==>
      && r.value.board[index] == Some(s.currentPlayer)
      && forall i | 0 <= i < 9 && i != index :: r.value.board[i] == s.board[i]
    // the outcome is recomputed from the new board; the turn passes only if the game goes on
    ensures r.Success? ==>
      && r.value.winner == CheckWinner(r.value.board)
      && r.value.isDraw == (r.value.winner.None? && IsFull(r.value.board))
      && r.value.currentPlayer == (if IsOver(r.value) then s.currentPlayer else Other(s.currentPlayer))
  {
    if s.winner.Some? || s.isDraw then Failure(GameAlreadyOver)
    else if !(0 <= index < 9) then Failure(IndexOutOfRange)
    else if s.board[index].Some? then Failure(CellOccupied)
    else
      var board := s.board[index := Some(s.currentPlayer)];
      var w := CheckWinner(board);
      if w.Some? then Success(s.(board := board, winner := w))
      else if IsFull(board) then Success(s.(board := board, isDraw := true))
      else Success(s.(board := board, currentPlayer := Other(s.currentPlayer)))
  }

  /** `available_moves`: the empty cells, ascending. */
  function AvailableMoves(s: GameState): (r: seq<int>)
    ensures forall i :: i in r <==> 0 <= i < 9 && s.board[i].None?
    ensures forall j, j' | 0 <= j < j' < |r| :: r[j] < r[j']
  {
    Positions(s.board, EmptyCell)
  }

  function PlayerName(p: Player): string
  {
    match p
    case X => "X"
    case O => "O"
  }

  /** `status`: "<p> wins", "draw" or "<p>'s turn"; the first letter names the
      winner or, while the game runs, the player to move. */
  function Status(s: GameState): (r: string)
    ensures |r| > 0
    ensures r == "draw" <==> s.winner.None? && s.isDraw
    ensures s.winner.Some? <==> r[1..] == " wins"
    ensures !IsOver(s) <==> r[1..] == "'s turn"
    ensures r != "draw" ==> r[0] == PlayerName(if s.winner.Some? then s.winner.value else s.currentPlayer)[0]
  {
    if s.winner.Some? then PlayerName(s.winner.value) + " wins"
    else if s.isDraw then "draw"
    else PlayerName(s.currentPlayer) + "'s turn"
  }
}
