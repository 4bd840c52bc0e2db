/** Super (Ultimate) tic-tac-toe, as backend/app/tictactoe/engine.py implements it:
    nine mini-boards, a global result computed from the mini-boards' winners, and an
    active board picked by the cell of the previous move.

    The source deep-copies the boards before it changes anything, so `SuperMove` is a
    function: the state it is given is never altered, on success or on failure. */
module SuperEngine {
  import opened Wrappers
  import opened Engine

  /** One mini-board: its cells and its stored result. */
  datatype MiniBoard = MiniBoard(cells: Board, winner: Option<Player>, isDraw: bool)

  const EmptyMini: MiniBoard := MiniBoard(EmptyBoard, None, false)

  /** The nine mini-boards, in the same row-major geometry as the cells of a board. */
  type Boards = s: seq<MiniBoard> | |s| == 9
    witness [EmptyMini, EmptyMini, EmptyMini, EmptyMini, EmptyMini, EmptyMini, EmptyMini, EmptyMini, EmptyMini]

  datatype SuperState = SuperState(
    boards: Boards,
    currentPlayer: Player,
    globalWinner: Option<Player>,
    isGlobalDraw: bool,
    activeBoard: Option<Index>)

  /** A mini-board that has neither a winner nor a draw. */
  predicate IsOpen(m: MiniBoard)
  {
    m.winner.None? && !m.isDraw
  }

  predicate IsSuperOver(s: SuperState)
  {
    s.globalWinner.Some? || s.isGlobalDraw
  }

  /** The errors `super_move` raises, in the order it checks for them. */
  datatype SuperMoveError =
    | GameOver
    | BoardIndexOutOfRange
    | MustPlayInBoard(board: Index)
    | SelectedBoardClosed
    | MiniBoardClosed
    | CellIndexOutOfRange
    | CellTaken

  /** The source raises the two range errors as IndexError, the others as ValueError. */
  predicate IsSuperMoveIndexError(e: SuperMoveError)
  {
    e == BoardIndexOutOfRange || e == CellIndexOutOfRange
  }

  function Digit(k: Index): string
  {
    [(48 + k) as char]
  }

  function SuperMoveMessage(e: SuperMoveError): string
  {
    match e
    case GameOver => "Game is already over."
    case BoardIndexOutOfRange => "Board index must be in range [0, 8]."
    case MustPlayInBoard(k) => "Must play in board " + Digit(k) + "."
    case SelectedBoardClosed => "Selected board is closed."
    case MiniBoardClosed => "Mini-board is already closed."
    case CellIndexOutOfRange => "Cell index must be in range [0, 8]."
    case CellTaken => "Cell already occupied."
  }

  /** `super_new_game`: nine empty open boards, X to move, any board. */
  function SuperNewGame(): (s: SuperState)
    ensures forall k, i | 0 <= k < 9 && 0 <= i < 9 :: s.boards[k].cells[i].None?
    ensures forall k | 0 <= k < 9 :: s.boards[k].winner.None? && !s.boards[k].isDraw
    ensures s.currentPlayer == X && s.globalWinner.None? && !s.isGlobalDraw && s.activeBoard.None?
  {
    SuperState([EmptyMini, EmptyMini, EmptyMini, EmptyMini, EmptyMini, EmptyMini, EmptyMini, EmptyMini, EmptyMini],
      X, None, false, None)
  }

  /** The mini-boards' winners as a virtual board; a drawn board counts as empty. */
  function Owners(boards: Boards): Board
  {
    seq(9, k requires 0 <= k < 9 => boards[k].winner)
  }

  /** Line i of the meta-grid is made of three boards won by p. */
  predicate BoardsLine(boards: Boards, i: nat, p: Player)
    requires i < |WinLines|
  {
    var (x, y, z) := WinLines[i];
    boards[x].winner == Some(p) && boards[y].winner == Some(p) && boards[z].winner == Some(p)
  }

  /** `_check_global_winner_dict`: the eight lines applied to the mini-boards' winners. */
  function CheckGlobalWinner(boards: Boards): (r: Cell)
    ensures r.None? <==> forall i, p | 0 <= i < |WinLines| :: !BoardsLine(boards, i, p)
    ensures r.Some? ==> exists i | 0 <= i < |WinLines| ::
      BoardsLine(boards, i, r.value) && forall j, p | 0 <= j < i :: !BoardsLine(boards, j, p)
  {
    var owners := Owners(boards);
    assert forall i, p | 0 <= i < |WinLines| :: BoardsLine(boards, i, p) <==> Complete(owners, i) && Owner(owners, i) == p;
    assert forall i | 0 <= i < |WinLines| && Complete(owners, i) :: BoardsLine(boards, i, Owner(owners, i));
    CheckWinner(owners)
  }

  /** `_all_boards_closed_dict`: every mini-board is won or drawn. */
  predicate AllBoardsClosed(boards: Boards)
  {
    forall k | 0 <= k < 9 :: !IsOpen(boards[k])
  }

  /** `super_available_boards_dict`: the active board alone while it is open;
      otherwise (no active board, or a closed one) every open board, ascending. */
  function AvailableBoards(s: SuperState): (r: seq<int>)
    ensures s.activeBoard.Some? && IsOpen(s.boards[s.activeBoard.value]) ==> r == [s.activeBoard.value]
    ensures !(s.activeBoard.Some? && IsOpen(s.boards[s.activeBoard.value])) ==>
      && (forall k :: k in r <==> 0 <= k < 9 && IsOpen(s.boards[k]))
      && (forall j, j' | 0 <= j < j' < |r| :: r[j] < r[j'])
    ensures forall k | k in r :: 0 <= k < 9 && IsOpen(s.boards[k])
  {
    if s.activeBoard.Some? && IsOpen(s.boards[s.activeBoard.value]) then [s.activeBoard.value]
    else Positions(s.boards, IsOpen)
  }

  /** The mini-board after the mover marks `cell`: the winner is set if a line is
      completed, else the draw flag if the board is full. */
  function PlaceInBoard(m: MiniBoard, cell: Index, p: Player): (r: MiniBoard)
    requires IsOpen(m) && m.cells[cell].None?
    ensures r.cells[cell] == Some(p)
    ensures forall i | 0 <= i < 9 && i != cell :: r.cells[i] == m.cells[i]
    ensures r.winner == CheckWinner(r.cells)
    ensures r.isDraw == (r.winner.None? && IsFull(r.cells))
  {
    var cells := m.cells[cell := Some(p)];
    var w := CheckWinner(cells);
    if w.Some? then m.(cells := cells, winner := w)
    else if IsFull(cells) then m.(cells := cells, isDraw := true)
    else m.(cells := cells)
  }

  /** `super_move`: the current player marks cell `cellIndex` of board `boardIndex`. */
  function SuperMove(s: SuperState, boardIndex: int, cellIndex: int): (r: Result<SuperState, SuperMoveError>)
    // the checks, in the source's order
    ensures IsSuperOver(s) ==> r == Failure(GameOver)
    ensures !IsSuperOver(s) && !(0 <= boardIndex < 9) ==> r == Failure(BoardIndexOutOfRange)
    ensures !IsSuperOver(s) && 0 <= boardIndex < 9 && boardIndex !in AvailableBoards(s) ==>
      r == Failure(if s.activeBoard.Some? then MustPlayInBoard(s.activeBoard.value) else SelectedBoardClosed)
    ensures !IsSuperOver(s) && boardIndex in AvailableBoards(s) && !(0 <= cellIndex < 9) ==>
      r == Failure(CellIndexOutOfRange)
    ensures (!IsSuperOver(s) && boardIndex in AvailableBoards(s) && 0 <= cellIndex < 9
      && s.boards[boardIndex].cells[cellIndex].Some?) ==> r == Failure(CellTaken)
    // the closed-mini-board check comes after the allowed-boards check and can never fire
    ensures r != Failure(MiniBoardClosed)
    ensures r.Success? <==>
      !IsSuperOver(s) && boardIndex in AvailableBoards(s) && 0 <= cellIndex < 9
      && s.boards[boardIndex].cells[cellIndex].None?
    // on success exactly one cell of one mini-board changes, to the mover's mark,
    // and only that mini-board's result is recomputed
    ensures r.Success? ==>
      r.value.boards == s.boards[boardIndex := PlaceInBoard(s.boards[boardIndex], cellIndex, s.currentPlayer)]
    ensures r.Success? ==>
      && (forall k | 0 <= k < 9 && k != boardIndex :: r.value.boards[k] == s.boards[k])
      && r.value.boards[boardIndex].cells[cellIndex] == Some(s.currentPlayer)
      && (forall i | 0 <= i < 9 && i != cellIndex ::
            r.value.boards[boardIndex].cells[i] == s.boards[boardIndex].cells[i])
      && r.value.boards[boardIndex].winner == CheckWinner(r.value.boards[boardIndex].cells)
      && r.value.boards[boardIndex].isDraw ==
           (r.value.boards[boardIndex].winner.None? && IsFull(r.value.boards[boardIndex].cells))
    // the global result is recomputed from the mini-boards
    ensures r.Success? ==>
      && r.value.globalWinner == CheckGlobalWinner(r.value.boards)
      && r.value.isGlobalDraw == (r.value.globalWinner.None? && AllBoardsClosed(r.value.boards))
    // the next board is the one at the cell just played, if it is still open; the turn
    // passes unless the game has just ended
    ensures r.Success? ==>
      && r.value.activeBoard == (if IsOpen(r.value.boards[cellIndex]) then Some(cellIndex) else None)
      && r.value.currentPlayer == (if IsSuperOver(r.value) then s.currentPlayer else Other(s.currentPlayer))
  {
    if s.globalWinner.Some? || s.isGlobalDraw then Failure(GameOver)
    else if !(0 <= boardIndex < 9) then Failure(BoardIndexOutOfRange)
    else if boardIndex !in AvailableBoards(s) then
      if s.activeBoard.Some? then Failure(MustPlayInBoard(s.activeBoard.value)) else Failure(SelectedBoardClosed)
    else
      var board := s.boards[boardIndex];
      if !IsOpen(board) then Failure(MiniBoardClosed)
      else if !(0 <= cellIndex < 9) then Failure(CellIndexOutOfRange)
      else if board.cells[cellIndex].Some? then Failure(CellTaken)
      else
        var boards := s.boards[boardIndex := PlaceInBoard(board, cellIndex, s.currentPlayer)];
        var gw := CheckGlobalWinner(boards);
        var s1 :=
          if gw.Some? then s.(boards := boards, globalWinner := gw)
          else if AllBoardsClosed(boards) then s.(boards := boards, isGlobalDraw := true)
          else s.(boards := boards);
        var s2 := s1.(activeBoard := if IsOpen(boards[cellIndex]) then Some(cellIndex) else None);
        if IsSuperOver(s2) then Success(s2) else Success(s2.(currentPlayer := Other(s.currentPlayer)))
  }

  /** `super_status`: the result, or whose turn it is and where they must play; the
      first letter names the winner or, while the game runs, the player to move. */
  function SuperStatus(s: SuperState): (r: string)
    ensures |r| > 0
    ensures r == "draw" <==> s.globalWinner.None? && s.isGlobalDraw
    ensures s.globalWinner.Some? <==> r[1..] == " wins"
    ensures !IsSuperOver(s) && s.activeBoard.None? <==> r[1..] == "'s turn — any board"
    ensures !IsSuperOver(s) && s.activeBoard.Some? <==> |r| == 18 && r[1..17] == "'s turn — board "
    ensures !IsSuperOver(s) && s.activeBoard.Some? ==> r[17..] == Digit(s.activeBoard.value)
    ensures r != "draw" ==>
      r[0] == PlayerName(if s.globalWinner.Some? then s.globalWinner.value else s.currentPlayer)[0]
  {
    if s.globalWinner.Some? then PlayerName(s.globalWinner.value) + " wins"
    else if s.isGlobalDraw then "draw"
    else if s.activeBoard.None? then PlayerName(s.currentPlayer) + "'s turn — any board"
    else PlayerName(s.currentPlayer) + "'s turn — board " + Digit(s.activeBoard.value)
  }
}
