# Tic-tac-toe game-rule engine, modelled in Dafny

This project models the rule engine of a tic-tac-toe backend
(`backend/app/tictactoe/engine.py`). The engine has two rule sets.

- **Classic 3×3.** A board of nine cells, X moves first, and moves alternate.
  The eight lines (3 rows, 3 columns, 2 diagonals) are scanned in a fixed order.
  A move either wins, fills the board for a draw, or passes the turn.
- **Super (Ultimate).** Nine mini-boards, each with a stored winner and draw flag.
  The game's result comes from applying the same eight lines to the mini-boards'
  winners; a drawn mini-board counts as empty. The cell just played picks the
  board the opponent must play next, unless that board is closed.

The engine copies the state before it changes anything and returns the copy. So
both move functions are modelled as Dafny functions from an immutable state to a
`Result` of a new state or an error. The caller's state can never change, on
success or on failure.

Files:

- `wrappers.dfy`: `Option` and `Result`.
- `engine.dfy` (module `Engine`): players, cells, boards, the line check, the
  classic state, `NewGame`, `Move`, `AvailableMoves`, `Status`, and a generic
  `Positions` for the engine's "indices where ..." comprehensions.
- `engine_lemmas.dfy` (module `EngineLemmas`): the invariant that every reachable
  classic state keeps, and lemmas about moves.
- `super_engine.dfy` (module `SuperEngine`): the Super state, `SuperNewGame`,
  `CheckGlobalWinner`, `AllBoardsClosed`, `AvailableBoards`, `SuperMove`,
  `SuperStatus`.
- `super_lemmas.dfy` (module `SuperLemmas`): the invariant that every reachable
  Super state keeps, progress, and the status text.

The model follows the code on these points, where a general description of the game might differ:

- Neither move function takes a player argument, so there is no "not your turn" error.
- The turn does not pass on a move that ends the game (a win or a draw).
- A mini-board's winner and draw flag are stored fields. They are not derived on
  read. `SuperLemmas.SuperNewGameConsistent` and
  `SuperLemmas.SuperMovePreservesConsistent` prove that they agree with the cells in
  every reachable state.
- `SuperMove` still recomputes the active board on the move that ends the game.

## Model

| member | source | states |
|---|---|---|
| Engine.WinnerFrom | backend/app/tictactoe/engine.py:32-36 | From line k on, the scan returns None exactly when no later line is complete. Otherwise it returns the mark of the first complete line at or after k. |
| Engine.CheckWinner | backend/app/tictactoe/engine.py:9-18 | The result is None iff none of the 8 lines has three equal non-empty cells. Otherwise it is the mark of the first such line in the order rows, columns, diagonals. |
| Engine.PositionsFrom | backend/app/tictactoe/engine.py:68-69 | Every index returned is at least k and its element is accepted. Every accepted index from k on is returned. The indices are strictly ascending. |
| Engine.Positions | backend/app/tictactoe/engine.py:126 | An index is in the result iff its element is accepted, and the result is strictly ascending. |
| Engine.NewGame | backend/app/tictactoe/engine.py:21-26 | A new game has nine empty cells, X to move, no winner and no draw. |
| Engine.Move | backend/app/tictactoe/engine.py:47-65 | The errors come in order: game over, then index outside 0..8, then cell occupied. The move succeeds iff none applies. On success only `board[index]` changes, to the mover's mark. The winner is the line check of the new board. The draw flag is set iff there is no winner and the board is full. The player flips iff the game is not over. |
| Engine.AvailableMoves | backend/app/tictactoe/engine.py:68-69 | Exactly the indices of empty cells, in ascending order. |
| EngineLemmas.NewLinesOwnedByMover | backend/app/tictactoe/engine.py:56-60 | Place p on a board with no complete line. Then every line that is complete afterwards belongs to p. |
| EngineLemmas.NewGameConsistent | backend/app/tictactoe/engine.py:43-44 | The new game satisfies the reachable-state invariant. |
| EngineLemmas.MovePreservesConsistent | backend/app/tictactoe/engine.py:47-65 | A legal move keeps the invariant. The stored outcome matches the board, at most one player owns lines, and X has made as many moves as O, or one more when O is next. Only the mover can win. |
| EngineLemmas.OverIsFinal | backend/app/tictactoe/engine.py:48-49 | Once there is a winner or a draw, every move fails with "Game is already over". |
| EngineLemmas.MoveLegalIffAvailable | backend/app/tictactoe/engine.py:47-53 | A move succeeds iff the game is not over and the index is among the available moves. |
| EngineLemmas.AvailableAfterMove | backend/app/tictactoe/engine.py:55-56 | After a legal move, the available moves are the old ones without `index`, exactly one fewer. |
| EngineLemmas.RunningGameHasMove | backend/app/tictactoe/engine.py:58-65 | A consistent game that is not over has at least one available move. |
| EngineLemmas.FullIffNoMoves | backend/app/tictactoe/engine.py:39-40 | `_is_full` holds of the board exactly when the list of available moves is empty. |
| Engine.Status | backend/app/tictactoe/engine.py:72-77 | The text is "draw" iff there is no winner and the draw flag is set. It ends in " wins" iff there is a winner, and in "'s turn" iff the game runs. Otherwise its first letter names the winner or the player to move. |
| EngineLemmas.StatusDetermines | backend/app/tictactoe/engine.py:72-77 | Two states with the same status text have the same winner. If there is no winner they have the same draw flag, and while the game runs they have the same current player. |
| SuperEngine.SuperNewGame | backend/app/tictactoe/engine.py:93-104 | A new game has nine mini-boards with all cells empty, no winners and no draws. X is to move, there is no global result, and there is no active board. |
| SuperEngine.CheckGlobalWinner | backend/app/tictactoe/engine.py:107-112 | The result is None iff no meta-line has three boards won by one player; drawn boards count as empty. Otherwise it is the player of the first such meta-line. |
| SuperEngine.AvailableBoards | backend/app/tictactoe/engine.py:119-126 | The result is `[active]` when the active board is set and open. Otherwise it is every open board, ascending; this includes the case of a closed active board. A closed board is never returned. |
| SuperEngine.PlaceInBoard | backend/app/tictactoe/engine.py:159-164 | Only the chosen cell changes, to the mover's mark. The mini-board's winner is the line check of its new cells. Its draw flag is set iff there is no winner and the board is full. |
| SuperEngine.SuperMove | backend/app/tictactoe/engine.py:129-180 | The errors come in order: game over, board index, board not allowed ("Must play in board k" when an active board is set, else "Selected board is closed"), cell index, cell occupied. The "Mini-board is already closed" error never occurs. On success exactly one cell of one mini-board changes, and only that board's result is recomputed. The global result is recomputed. The next active board is the cell index if that board is open, else none. The player flips iff the game is not over. |
| SuperLemmas.SuperNewGameConsistent | backend/app/tictactoe/engine.py:93-104 | The new game satisfies the Super reachable-state invariant. |
| SuperLemmas.PlaceInBoardConsistent | backend/app/tictactoe/engine.py:159-164 | Marking an open, consistent mini-board keeps it consistent. Its winner can only be the mover. |
| SuperLemmas.NewBoardLinesOwnedByMover | backend/app/tictactoe/engine.py:166-168 | Suppose no meta-line was won and one board gains winner p. Then every meta-line won afterwards is p's. |
| SuperLemmas.SuperMovePreservesConsistent | backend/app/tictactoe/engine.py:129-180 | A legal move keeps the invariant. Stored results match the cells and the mini-board winners, at most one player owns meta-lines, and an active board is always open. Only the mover can win the mini-board or the game. |
| SuperLemmas.SuperOverIsFinal | backend/app/tictactoe/engine.py:130-131 | Once there is a global winner or a global draw, every move fails with "Game is already over". |
| SuperLemmas.RunningSuperGameHasMove | backend/app/tictactoe/engine.py:115-126 | A consistent game that is not over has a legal move, and it has one in the active board when that board is set. |
| SuperLemmas.SuperMoveUsesOneCell | backend/app/tictactoe/engine.py:159 | Every accepted move fills exactly one empty cell across the nine boards. Together with SuperNewGameEmptyCells, a game lasts at most 81 moves. |
| SuperLemmas.AllClosedIffNoBoards | backend/app/tictactoe/engine.py:115-116 | `_all_boards_closed_dict` holds exactly when the list of available boards is empty. |
| SuperEngine.SuperStatus | backend/app/tictactoe/engine.py:183-190 | The text is "draw" iff there is no global winner and the global draw flag is set. It ends in " wins" iff there is a global winner. While the game runs, it ends in "'s turn — any board" iff no board is active, and in "'s turn — board " followed by the board's digit iff one is. Otherwise its first letter names the winner or the player to move. |
| SuperLemmas.SuperNewGameEmptyCells | backend/app/tictactoe/engine.py:93-97 | A new game has 81 empty cells across its nine boards. |
| SuperLemmas.SuperStatusDetermines | backend/app/tictactoe/engine.py:183-190 | Two states with the same status text have the same global winner. If there is no winner they have the same draw flag. While the game runs they have the same current player and the same active board. |

## Left out

- The HTTP router (`backend/app/tictactoe/router.py`): its request handlers, the in-memory game store, id generation and error-to-status mapping are I/O. The same goes for its `starting_player` option, which overwrites `current_player` after `new_game`.
- The pydantic schemas (`backend/app/tictactoe/schemas.py`) have no logic. The frontend files are rendering and network calls.
- Exceptions are modelled as error values. `IsMoveIndexError` and `IsSuperMoveIndexError` record which errors the source raises as `IndexError` and which as `ValueError`. The message texts are given by `MoveMessage` and `SuperMoveMessage`.
- Python truthiness (`if state.winner`, `if w`) is modelled as a presence test. This is exact, because marks are the non-empty strings "X" and "O".
- States of the wrong shape cannot be expressed: a board that is not exactly nine cells, a board list that is not exactly nine boards, or an active board outside 0..8. In the source such a state would index out of range, wrap around, or behave differently. For example, a ten-cell board lets `available_moves` list index 9, which `move` then rejects with an IndexError. The types `Board`, `Boards` and `Index` exclude these states.
- Player checks, compare-and-swap sessions and pending/optimistic overlays are left out. The engine does not implement them.
