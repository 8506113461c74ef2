# Tetris2P: board engine and match client, in Dafny

Tetris2P is a two-player falling-block game. Each player has a 10 x 20
board and sees a read-only mirror of the opponent's board. Each time a
piece locks, the board sends its new state to the opponent through a relay
server. This project models two parts of it:

- **The board** (`Board.java`). It holds the grid of locked squares and the
  current, next and held pieces. It has the single collision gate
  (`tryMove`), spawning and game over, hold, locking, the removal of full
  rows, soft and hard drops, the tick, start/pause/restart, the mirror
  update and the playing keys.
- **The client** of a match (`TetrisClient` in `Tetris2P.java`). It routes
  lines typed by the player and messages from the server. It interprets
  commands (`connect`, `disconnect`, `start`, `quit`/`exit`, `sethost`,
  `setport`, `gethost`, `getport`, and everything else forwarded). It also
  keeps the connection state and the list of waiting players
  (`PlayerList`).

Modules:

| file | module | what it holds |
|---|---|---|
| `shapes.dfy` | `Shapes` | kinds of piece, a piece as a kind with four square offsets, and the shape tables as a parameter |
| `grid.dfy` | `Grid` | the flat row-major grid (square (x, y) at index y * 10 + x), the fit test, writing a piece in, the landing row of a hard drop |
| `lines.dfy` | `LineClear` | the row scan of `removeFullLines`, from row 19 down to row 0, with its shifting, and the count of full rows |
| `rules.dfy` | `Rules` | every board operation as a function on a `Game` record of the board's fields, and the lemmas about them |
| `board.dfy` | `BoardEngine` | class `Board`: the same fields updated in place, with the grid as an `array`. Each method is proved to leave `Model()` as the matching `Rules` function says. |
| `commands.dfy` | `Commands` | Java's `String.split`, the instruction and operand of a command line, ASCII lower-casing, `Integer.parseInt`, and the command a line stands for |
| `client.dfy` | `Client` | the client's connection state, one function per client method returning the new state and the calls it makes (`Effect`s), their lemmas, and class `TetrisClient` proved against those functions |
| `players.dfy` | `Players` | class `PlayerList`: the queue of waiting names and the list shown on screen |

The board receives its environment as an `Env` value:

- the shape tables: `Geometry`, with the coordinates of each kind, `rotate` and `minY`;
- the stream of random kinds: `draw(i)` is the i-th draw;
- whether a message area exists.

The client's socket calls, its local server and `System.exit` are
modelled as effects, with their success or failure given by an `Io` value.

Where the code and the documented behaviour differ, the model follows
the code:

- The scan of `removeFullLines` never writes row 19. A full row 19 is
  counted but stays in place, so a full row can remain after the clear
  (`LineClear.TopRowFullSurvives`). Without a full row 19, no full row
  remains (`LineClear.ClearedLeavesNoFullRow`).
- `hold` puts the piece it brings in at the top of column 5 without a
  collision test (`Rules.Hold`). It keeps the board consistent only when
  every piece fits there (`Rules.HoldConsistent` with `ValidGeometry`).
- The `GameOver` case of `commandMessage` compares against the
  lower-cased instruction, so it can never match. No line, typed or
  received, announces a win or restarts the boards. `gameover` is
  forwarded like an unknown instruction (`Commands.GameOverUnreachable`,
  `Client.NoLineWins`).
- A spawn by itself (`newPiece`) does not re-enable hold. Hold is
  re-enabled by a lock, by a line clear, by the tick after a clear, and by
  `start` and `restart`.

## Model

| member | source | states |
|---|---|---|
| Grid.LockAt | Tetris2P/src/Board.java:514-518 | writing a piece in changes exactly its four squares, to its kind; every other square keeps its value |
| Grid.LandingYIsLowestReachable | Tetris2P/src/Board.java:479-488 | the hard-drop row is at or below the cursor; the piece fits on every row from there up to the cursor; the row is 0 or the piece does not fit one row lower |
| Grid.LandingInGrid | Tetris2P/src/Board.java:479-488 | a piece on the grid is still on the grid at its hard-drop row |
| Grid.FitsInGrid | Tetris2P/src/Board.java:553-559 | a placement that passes the fit test has all four squares on the grid |
| Grid.FitsFreeSquares | Tetris2P/src/Board.java:553-559 | a placement fits exactly when it is on the grid and every array square it covers is empty |
| LineClear.ScanSeesOriginalRow | Tetris2P/src/Board.java:579-597 | when the scan reaches row i, row i is still the original row: nothing at or below it has been written yet |
| LineClear.AfterKeepsUnscanned | Tetris2P/src/Board.java:579-597 | the rows not yet scanned are untouched, and row 19 is never written |
| LineClear.ClearedKeepsTopRow | Tetris2P/src/Board.java:593-595 | the clear leaves row 19 as it was |
| LineClear.TopRowFullSurvives | Tetris2P/src/Board.java:579-597 | a full row 19 is counted and is still full after the clear |
| LineClear.ClearedMovesKeptRows | Tetris2P/src/Board.java:579-597 | each row that was not full keeps its content and moves down by the number of full rows below it |
| LineClear.AfterMovesKeptRows | Tetris2P/src/Board.java:579-597 | the same for the part of the scan done so far |
| LineClear.ClearedKeepsRowsBelowLowestFull | Tetris2P/src/Board.java:579-597 | rows below the lowest full row are unchanged |
| LineClear.ClearedLeavesNoFullRow | Tetris2P/src/Board.java:579-597 | if row 19 is not full, no full row is left after the clear |
| LineClear.AfterLeavesNoFullRow | Tetris2P/src/Board.java:579-597 | if row 19 is not full, no scanned row is full |
| LineClear.AfterWithoutFullRows | Tetris2P/src/Board.java:579-597 | a grid without full rows is left unchanged |
| LineClear.ShiftDownRow | Tetris2P/src/Board.java:593-595 | after a shift, each row written holds the row that was above it |
| LineClear.NoFullRowsCountZero | Tetris2P/src/Board.java:576-592 | the count is zero over rows none of which is full |
| LineClear.TopRowCounted | Tetris2P/src/Board.java:576-592 | a full row 19 adds at least one to the count |
| LineClear.ClearedFillsTop | Tetris2P/src/Board.java:579-597 | after the clear, the top rows, at least as many as there were full rows (one more when row 19 was not full), all hold copies of row 19 |
| LineClear.AfterFillsTop | Tetris2P/src/Board.java:591-596 | during the scan, each removal below row 19 copies row 19 into one more row at the top |
| LineClear.FullRowsSplitTop | Tetris2P/src/Board.java:576-592 | the count of full rows is the count below row 19 plus one when row 19 is full |
| Rules.EmptyCells | Tetris2P/src/Board.java:532-536 | the cleared grid has 200 squares, all empty |
| Rules.TryMoveCommitsOrRejects | Tetris2P/src/Board.java:551-568 | tryMove never changes the grid; it accepts exactly when the four squares are on the grid and every array square the piece covers is empty; an accepted move leaves the piece where it fits, with only piece and cursor changed; a rejected move changes nothing; repeating a move changes nothing more |
| Rules.TryMoveConsistent | Tetris2P/src/Board.java:551-568 | a committed move lands on the grid, so the board stays consistent |
| Rules.NewPieceSpawnsOrEnds | Tetris2P/src/Board.java:421-440 | the next kind (drawn first on the very first spawn) becomes current and a new next kind is drawn; the cursor goes to column 6 at the top; a spawn that does not fit ends the game with an empty current piece, stopped and paused |
| Rules.NewPieceCanonical | Tetris2P/src/Board.java:428 | a spawn leaves a piece in its canonical orientation |
| Rules.NewPieceKeepsMode | Tetris2P/src/Board.java:421-440 | a spawn does not change the multiplayer flag |
| Rules.NewPieceConsistent | Tetris2P/src/Board.java:421-440 | a spawn leaves the board consistent, whatever the current piece was |
| Rules.GameOverFreezes | Tetris2P/src/Board.java:388-399 | after a game over the ticker is paused, the game is stopped with no current piece, every key is ignored, and start and pause change nothing |
| Rules.HoldOncePerCycle | Tetris2P/src/Board.java:447-451 | a second hold before the next lock changes nothing |
| Rules.HoldDisables | Tetris2P/src/Board.java:447-474 | after a hold, hold is disabled and the grid is unchanged |
| Rules.HoldIntoEmptySlot | Tetris2P/src/Board.java:453-457 | with an empty slot, the current kind is parked and the next piece spawns, then enters at the top of column 5 |
| Rules.HoldSwapsWithSlot | Tetris2P/src/Board.java:458-471 | with a parked kind, the parked and current kinds swap; nothing is drawn and the piece enters at the top of column 5 |
| Rules.ParkedCanonical | Tetris2P/src/Board.java:453-465 | the piece a hold brings in is canonical; the grid is kept |
| Rules.HoldConsistent | Tetris2P/src/Board.java:447-474 | hold keeps the board consistent when every piece fits at the top of column 5 |
| Rules.PieceDroppedOutcome | Tetris2P/src/Board.java:505-527 | a lock leaves the cleared locked grid, adds the full rows to the count and re-enables hold; with a clear the current piece is empty and nothing spawns; without one the next piece spawns; in multiplayer mode the update sent is the resulting board |
| Rules.LockedOutcome | Tetris2P/src/Board.java:514-521 | before any spawn, a lock with a clear empties the current piece and stops falling; a lock without a clear changes only the squares and the hold flag |
| Rules.PieceDroppedWritesOnlyPiece | Tetris2P/src/Board.java:514-520 | before the line clear, a lock changes exactly the squares of the piece, to its kind |
| Rules.PieceDroppedCells | Tetris2P/src/Board.java:514-524 | the grid after a lock is the cleared locked grid, whether or not a piece spawns |
| Rules.LockedCells | Tetris2P/src/Board.java:514-521 | locking and clearing leave the cleared locked grid |
| Rules.LockedWithClear | Tetris2P/src/Board.java:601-608 | a lock that clears rows empties the current piece and stops falling |
| Rules.LockedWithoutClear | Tetris2P/src/Board.java:601-608 | a lock that clears no row keeps falling on |
| Rules.LockedKeepsMode | Tetris2P/src/Board.java:514-521 | locking does not change the multiplayer flag |
| Rules.PieceDroppedLeavesCanonical | Tetris2P/src/Board.java:505-527 | after a lock the current piece is canonical, so the update sent describes it fully |
| Rules.PieceDroppedSends | Tetris2P/src/Board.java:525-526 | in multiplayer mode a lock sends the board it leaves |
| Rules.PieceDroppedConsistent | Tetris2P/src/Board.java:505-527 | a lock keeps the board consistent |
| Rules.TickAfterClearSpawns | Tetris2P/src/Board.java:615-628 | the tick after a clearing lock re-enables falling and hold, sends nothing, and spawns the kind that was next |
| Rules.TickConsistent | Tetris2P/src/Board.java:615-628 | a tick, which arrives only while the ticker runs, keeps the board consistent |
| Rules.TickSpawnConsistent | Tetris2P/src/Board.java:617-622 | the spawning branch of the tick keeps the board consistent |
| Rules.TickDescentConsistent | Tetris2P/src/Board.java:623-626 | the descending branch of the tick keeps the board consistent |
| Rules.OneLineDownMovesOrLocks | Tetris2P/src/Board.java:494-500 | a soft drop moves the piece exactly one row down and changes nothing else, or locks it where it is |
| Rules.OneLineDownMoves | Tetris2P/src/Board.java:494-500 | when the piece fits one row lower, a soft drop moves it there and sends nothing |
| Rules.DownKeyConsistent | Tetris2P/src/Board.java:973-979 | the down key keeps the board consistent |
| Rules.DownMoveConsistent | Tetris2P/src/Board.java:494-500 | a soft drop that moves keeps the board consistent |
| Rules.DownLockConsistent | Tetris2P/src/Board.java:494-500 | a soft drop that locks keeps the board consistent |
| Rules.DropDownLocksInColumn | Tetris2P/src/Board.java:479-488 | a hard drop locks the piece in its own column, on the lowest row reached one row at a time |
| Rules.DropKeyConsistent | Tetris2P/src/Board.java:983-989 | the drop key keeps the board consistent |
| Rules.KeyConsistent | Tetris2P/src/Board.java:919-992 | every playing key keeps the board consistent |
| Rules.StartOutcome | Tetris2P/src/Board.java:310-329 | start does nothing while paused; otherwise it leaves an empty grid, no lines, single-player mode, hold enabled, a paused ticker and, with a message area, a paused game |
| Rules.PauseToggles | Tetris2P/src/Board.java:336-351 | pause toggles the pause flag and the ticker's, only once started and with a message area; pausing twice restores the board |
| Rules.RestartOutcome | Tetris2P/src/Board.java:356-383 | restart does nothing unless paused; otherwise it clears the count, the hold and next slots and the grid, and spawns from two fresh draws |
| Rules.LifecycleConsistent | Tetris2P/src/Board.java:310-383 | start, pause and restart keep the board consistent |
| Rules.InitialStart | Tetris2P/src/Board.java:184-224 | a new board is consistent, with an empty grid and a paused ticker; its first piece comes from the first draw and the next kind from the second |
| Rules.UpdateBoardCopies | Tetris2P/src/Board.java:637-645 | the update read back from a mirror is exactly the update applied; a later update overrides an earlier one entirely; the mirror keeps its cursor, flags and count |
| Rules.SnapshotRoundTrip | Tetris2P/src/Board.java:505-527 | a mirror with the same shape tables that applies the update sent after a lock has the sender's held, next and current pieces and grid |
| BoardEngine.Board.constructor | Tetris2P/src/Board.java:184-224 | a new board holds a fresh grid and is in the state of `start` applied to the initial fields |
| BoardEngine.Board.SetMultiplayerEnabled | Tetris2P/src/Board.java:264-269 | only the multiplayer flag changes |
| BoardEngine.Board.ShapeAt | Tetris2P/src/Board.java:290-293 | the kind at (x, y) is the square at index y * 10 + x |
| BoardEngine.Board.ClearBoard | Tetris2P/src/Board.java:532-536 | every square of the array is empty |
| BoardEngine.Board.TryMove | Tetris2P/src/Board.java:551-568 | the result is the fit test on the old grid; the fields become those of `Rules.TryMove` |
| BoardEngine.Board.GameOver | Tetris2P/src/Board.java:388-399 | the fields become those of `Rules.GameOver` |
| BoardEngine.Board.DrawFirst | Tetris2P/src/Board.java:423-427 | the fields become those of `Rules.DrawFirst` |
| BoardEngine.Board.Spawn | Tetris2P/src/Board.java:428-436 | the fields become those of `Rules.Spawned` |
| BoardEngine.Board.NewPiece | Tetris2P/src/Board.java:421-440 | the fields become those of `Rules.NewPiece` |
| BoardEngine.Board.Park | Tetris2P/src/Board.java:453-465 | the fields become those of `Rules.Parked` |
| BoardEngine.Board.Enter | Tetris2P/src/Board.java:467-471 | the fields become those of `Rules.Entered` |
| BoardEngine.Board.Hold | Tetris2P/src/Board.java:447-474 | the fields become those of `Rules.Hold` |
| BoardEngine.Board.LineIsFull | Tetris2P/src/Board.java:580-587 | the result says whether every square of the row is occupied |
| BoardEngine.Board.ShiftDownFrom | Tetris2P/src/Board.java:593-596 | the array becomes the grid with every row above i copied one row down |
| BoardEngine.Board.ClearFullRows | Tetris2P/src/Board.java:576-598 | the array becomes the cleared grid and the result is the number of full rows of the old grid |
| BoardEngine.Board.Account | Tetris2P/src/Board.java:600-608 | the fields become those of `Rules.Account` |
| BoardEngine.Board.RemoveFullLines | Tetris2P/src/Board.java:574-609 | the fields become those of `Rules.RemoveFullLines` |
| BoardEngine.Board.LockPiece | Tetris2P/src/Board.java:514-518 | the array becomes the grid with the current piece written in |
| BoardEngine.Board.LockAndClear | Tetris2P/src/Board.java:514-521 | the fields become those of `Rules.Locked` |
| BoardEngine.Board.PieceDropped | Tetris2P/src/Board.java:505-527 | the fields and the update sent are those of `Rules.PieceDropped` |
| BoardEngine.Board.OneLineDown | Tetris2P/src/Board.java:494-500 | the fields and the update sent are those of `Rules.OneLineDown` |
| BoardEngine.Board.DropDown | Tetris2P/src/Board.java:479-488 | the descent loop ends on the landing row; the fields and the update sent are those of `Rules.DropDown` |
| BoardEngine.Board.ActionPerformed | Tetris2P/src/Board.java:615-628 | the fields and the update sent are those of `Rules.ActionPerformed` |
| BoardEngine.Board.Pause | Tetris2P/src/Board.java:336-351 | the fields become those of `Rules.Pause` |
| BoardEngine.Board.Start | Tetris2P/src/Board.java:310-329 | the fields become those of `Rules.Start` |
| BoardEngine.Board.Restart | Tetris2P/src/Board.java:356-383 | the fields become those of `Rules.Restart` |
| BoardEngine.Board.UpdateBoard | Tetris2P/src/Board.java:637-645 | the board takes a fresh copy of the update's grid; the fields become those of `Rules.UpdateBoard` |
| BoardEngine.Board.KeyPressed | Tetris2P/src/Board.java:939-990 | the fields and the update sent are those of `Rules.KeyPressed` |
| Commands.SplitRaw | Tetris2P/Tetris2P/Tetris2P.java:720 | splitting gives at least one piece |
| Commands.DropTrailingEmpty | Tetris2P/Tetris2P/Tetris2P.java:720 | the result is a prefix of the pieces, ends in a nonempty piece, and only empty pieces were dropped |
| Commands.JoinSplitRaw | Tetris2P/Tetris2P/Tetris2P.java:720 | joining the pieces with the separator gives back the string, and no piece holds the separator |
| Commands.SplitRawWithout | Tetris2P/Tetris2P/Tetris2P.java:720 | a string without the separator is one piece |
| Commands.SplitRawSeparators | Tetris2P/Tetris2P/Tetris2P.java:720 | a string of separators only gives one more piece than it has characters, all of them empty |
| Commands.SplitRawNonEmptyPiece | Tetris2P/Tetris2P/Tetris2P.java:720 | a nonempty piece comes from a character other than the separator |
| Commands.JavaSplitEmpty | Tetris2P/Tetris2P/Tetris2P.java:720-736 | the split is empty exactly when the string is nonempty and made of separators only |
| Commands.JoinOfEmptyPieces | Tetris2P/Tetris2P/Tetris2P.java:720 | joining empty pieces gives separators only |
| Commands.JavaSplitPieces | Tetris2P/Tetris2P/Tetris2P.java:720 | no piece holds the separator and the last piece is nonempty; padded with the dropped empty pieces, the pieces join to the string; a string without the separator is one piece |
| Commands.UpToSpace | Tetris2P/Tetris2P/Tetris2P.java:732-736 | the instruction is a prefix without a space, followed by a space or the end of the line |
| Commands.AfterSpace | Tetris2P/Tetris2P/Tetris2P.java:733 | the rest of the line is a suffix of it |
| Commands.SplitRawHead | Tetris2P/Tetris2P/Tetris2P.java:720-736 | the first piece is the text before the first space, and the other pieces are the split of the text after it |
| Commands.SplittableTokens | Tetris2P/Tetris2P/Tetris2P.java:720-736 | the line has a first token exactly when it is empty or holds a character other than a space |
| Commands.InstructionOperand | Tetris2P/Tetris2P/Tetris2P.java:720-736 | the instruction is the text before the first space; the operand is the text after it, up to the next space |
| Commands.LowerChar | Tetris2P/Tetris2P/Tetris2P.java:741 | a capital letter becomes small (code + 32); any other character is kept; the result is never a capital |
| Commands.LowerProperties | Tetris2P/Tetris2P/Tetris2P.java:741 | a lower-cased line has no capitals, a line without capitals is unchanged, and lower-casing twice is lower-casing once |
| Commands.NotLowerOfAnything | Tetris2P/Tetris2P/Tetris2P.java:741 | no lower-cased text equals a text with a capital |
| Commands.Show | Tetris2P/Tetris2P/Tetris2P.java:788-789 | the decimal form of a number is a nonempty string of digits |
| Commands.ShowValue | Tetris2P/Tetris2P/Tetris2P.java:788-789 | the digits of the decimal form give back the number |
| Commands.ParseShow | Tetris2P/Tetris2P/Tetris2P.java:788 | parsing the decimal form of a 32-bit integer, with a minus sign when negative, gives back the integer |
| Commands.ForwardsUnknown | Tetris2P/Tetris2P/Tetris2P.java:807-815 | a line is forwarded exactly when its lower-cased instruction is not a keyword, and then the whole line goes with "/" in front |
| Commands.GameOverUnreachable | Tetris2P/Tetris2P/Tetris2P.java:769-771 | no line gives the match-won command; "gameover" in any case is forwarded |
| Commands.CaseInsensitive | Tetris2P/Tetris2P/Tetris2P.java:741 | two lines whose instructions agree up to case and whose operands agree give the same command, or are both forwarded |
| Commands.KeywordCommands | Tetris2P/Tetris2P/Tetris2P.java:741-803 | each keyword, in both directions, gives its command; `sethost` takes the operand and `setport` its parsed value |
| Client.RouteFromUIClassifies | Tetris2P/Tetris2P/Tetris2P.java:688-705 | a typed line is ignored exactly when empty; it is a command exactly when it starts with `#` or `/`, and the command is the rest of the line; any other line goes to the server unchanged |
| Client.HashAndSlashAgree | Tetris2P/Tetris2P/Tetris2P.java:697-700 | `#` and `/` introduce the same command |
| Client.ChatSentVerbatim | Tetris2P/Tetris2P/Tetris2P.java:701-710 | a chat line is sent unchanged; if sending fails, the failure is shown and the client ends |
| Client.RouteFromServerClassifies | Tetris2P/Tetris2P/Tetris2P.java:668-682 | a board update goes only to the opponent's board; a text is a command after `/` and is shown with "> " otherwise, so a `#` line from the server is shown, not run |
| Client.ConnectGuard | Tetris2P/Tetris2P/Tetris2P.java:896-911 | an open is tried exactly when not connected; the client ends connected if it was or the open succeeded |
| Client.DisconnectCloses | Tetris2P/Tetris2P/Tetris2P.java:916-924 | disconnect closes first, opens nothing, and leaves the client disconnected unless the close fails |
| Client.SetHostReconnects | Tetris2P/Tetris2P/Tetris2P.java:776-782 | `sethost` sets the host and keeps the port; it closes exactly when connected, and tries an open exactly when disconnected by then |
| Client.SetHostOrder | Tetris2P/Tetris2P/Tetris2P.java:776-782 | in `sethost` every close comes before the new-host notice and every open after it |
| Client.SetPortDoesNotReconnect | Tetris2P/Tetris2P/Tetris2P.java:785-790 | `setport` disconnects when connected and sets the port, never opens, and ends with the new-port notice |
| Client.QuitEnds | Tetris2P/Tetris2P/Tetris2P.java:873-881 | `quit` closes, never opens, and ends the client as its last effect |
| Client.StartListensFirst | Tetris2P/Tetris2P/Tetris2P.java:853-868 | `start` listens on the current port first; if it cannot listen, the client ends without opening; otherwise it goes on as `connect` |
| Client.UnknownForwarded | Tetris2P/Tetris2P/Tetris2P.java:807-815 | an unknown instruction sends the whole line with "/" in front and changes nothing else |
| Client.ExecuteWins | Tetris2P/Tetris2P/Tetris2P.java:886-891 | only the match-won command shows the win and restarts the boards |
| Client.NoLineWins | Tetris2P/Tetris2P/Tetris2P.java:668-711 | no typed or received line shows the win or restarts the boards |
| Client.TetrisClient.constructor | Tetris2P/Tetris2P/Tetris2P.java:655-659 | a new client is disconnected, with the given host and port, and has made no calls |
| Client.TetrisClient.Record | Tetris2P/Tetris2P/Tetris2P.java:668-924 | a call out of the client is appended to the log, and the connection state is kept |
| Client.TetrisClient.Connect | Tetris2P/Tetris2P/Tetris2P.java:896-911 | the state and the calls made are those of `Client.ConnectStep` |
| Client.TetrisClient.Disconnect | Tetris2P/Tetris2P/Tetris2P.java:916-924 | the state and the calls made are those of `Client.DisconnectStep` |
| Client.TetrisClient.Quit | Tetris2P/Tetris2P/Tetris2P.java:873-881 | the state and the calls made are those of `Client.QuitStep` |
| Client.TetrisClient.Start | Tetris2P/Tetris2P/Tetris2P.java:853-868 | the state and the calls made are those of `Client.StartStep` |
| Client.TetrisClient.MatchWon | Tetris2P/Tetris2P/Tetris2P.java:886-891 | the state and the calls made are those of `Client.MatchWonStep` |
| Client.TetrisClient.DisconnectIfConnected | Tetris2P/Tetris2P/Tetris2P.java:777-778 | the state and the calls made are those of `Client.DisconnectIfConnectedStep` |
| Client.TetrisClient.SetHost | Tetris2P/Tetris2P/Tetris2P.java:776-782 | the state and the calls made are those of `Client.SetHostStep` |
| Client.TetrisClient.SetPort | Tetris2P/Tetris2P/Tetris2P.java:785-790 | the state and the calls made are those of `Client.SetPortStep` |
| Client.TetrisClient.Execute | Tetris2P/Tetris2P/Tetris2P.java:741-816 | the state and the calls made are those of `Client.ExecuteStep` |
| Client.TetrisClient.CommandMessage | Tetris2P/Tetris2P/Tetris2P.java:717-817 | the state and the calls made are those of `Client.CommandStep` |
| Client.TetrisClient.HandleMessageFromClientUI | Tetris2P/Tetris2P/Tetris2P.java:688-711 | the state and the calls made are those of `Client.FromClientUI` |
| Client.TetrisClient.HandleMessageFromServer | Tetris2P/Tetris2P/Tetris2P.java:668-682 | the state and the calls made are those of `Client.FromServer` |
| Players.FirstIndex | Tetris2P/Tetris2P/Tetris2P.java:400 | the first occurrence of a name: it holds the name, and no earlier position does |
| Players.RemoveFirstAt | Tetris2P/Tetris2P/Tetris2P.java:398-402 | removing a name cuts out exactly its first occurrence; a list without the name is unchanged |
| Players.RemoveFirstCount | Tetris2P/Tetris2P/Tetris2P.java:398-402 | removing takes one copy of the name out of the multiset of names and shortens the list by one exactly when the name was present |
| Players.RemoveAfterAdd | Tetris2P/Tetris2P/Tetris2P.java:387-402 | a name not in the list that joins and then leaves restores the list |
| Players.Placeholder | Tetris2P/Tetris2P/Tetris2P.java:358-360 | the i-th placeholder is "Dingletronic" followed by the digit i |
| Players.PlaceholdersDistinct | Tetris2P/Tetris2P/Tetris2P.java:358-360 | the ten placeholders are ten different names |
| Players.PlayerList.constructor | Tetris2P/Tetris2P/Tetris2P.java:347-360 | a new list holds the ten placeholders in order, and the screen shows it |
| Players.PlayerList.AddUserToList | Tetris2P/Tetris2P/Tetris2P.java:387-391 | the name joins at the end of the queue, and the screen shows the queue |
| Players.PlayerList.RemoveUserFromList | Tetris2P/Tetris2P/Tetris2P.java:398-402 | the first occurrence of the name leaves, and the screen shows the queue |

## Left out

- Drawing, colours, sounds, the tool bar and hot bar labels, and window resizing: these are presentation. The board's message area appears only as the `hasOutput` flag of `Env`.
- `Shape` is not part of this model. A piece is its kind and four square offsets. `setRandomShape`, `rotate`, `minY` and the coordinate tables are parameters of `Env`: a stream of drawn kinds and a `Geometry` value.
- `Updater` is not part of this model. An update is the `Snapshot` record of held, next and current kinds and the grid.
- The `Ticker` thread, its delays, `Thread.sleep` and the `synchronized` blocks are not modelled. Each operation runs whole, one after another. A tick is delivered only while the ticker is not paused. A tick in flight while a game ends is not modelled.
- The `Q`, `R`, `P` and `M` keys of `keyPressed` (exit, and the tool-bar button clicks) are left out. So is the mapping from key codes to the playing keys, which the `Key` datatype replaces.
- The two clicks on the pause button at the end of `restart` are left out. The `ToolBar` class in `Tetris2P.java` has an empty click handler and no `getPlayPauseButton` accessor at all, so the clicks do nothing. A handler that toggled pause twice would also leave the flag as it was.
- BoardEngine.Board.Account: the line counter is an unbounded integer. Java's 32-bit wrap-around is not modelled, since it would take more than two billion cleared rows.
- BoardEngine.Board.PieceDropped: requires the four squares of the piece to address the array. In Java an out-of-range index throws; no consistent board reaches that case.
- BoardEngine.Board.ActionPerformed: requires the tick to have a lockable piece or a pending spawn. A consistent board with a running ticker always has one (`Rules.TickConsistent`).
- Client.TetrisClient.CommandMessage: requires a line that `commandMessage` handles without an exception. The line must not consist of spaces only, and a `setport` operand must parse. The exception paths in Java are not modelled.
- Client.TetrisClient.HandleMessageFromClientUI and Client.TetrisClient.HandleMessageFromServer: require that a command line among their messages meets the same condition.
- Commands.LowerChar: lower-cases ASCII capitals only, independently of the locale. Java's `toLowerCase()` uses the default locale. It also maps other alphabets. Under a Turkish or Azeri locale it maps `I` to a dotless `ı`, so there `QUIT`, `EXIT` and `DISCONNECT` match no keyword at all and are forwarded, while this model, and `Commands.KeywordCommands` with it, dispatches them.
- Commands.ParseInt: reads ASCII digits with an optional sign, within the 32-bit range. Java also accepts the digits of other scripts.
- Sockets, `openConnection`, `closeConnection`, `sendToServer`, `TetrisServer.listen()` and `System.exit` are not modelled. They appear as `Effect`s, and their success or failure comes from the `Io` parameter. The OCSF base class is not part of this model.
- The OCSF hooks `connectionClosed`, `connectionException` and `connectionEstablished` are left out. They only display text.
- The texts the client displays are `Notice` values, not strings. The "Command Not Found" line written to the console is left out.
- `matchWon` restarts both boards, but the client holds no board in this model. The restart and the update for the opponent's board are the `RestartBoards` and `Mirror` effects.
- The game-over notice to the opponent is commented out in the source (`Board.java` lines 401-412), so no code sends it.
- The `TetrisServer` object and the rest of the server side are not part of this model.
- `PlayerList` layout, rendering and scrolling are left out. The list shown on screen is the `shown` field.
