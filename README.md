# Connect 4 rules engine in Dafny

This project models the rules engine of a two-player Connect 4 game, `main.py`. The game is played on a square board of `BOARD_SIZE` columns with `BOARD_SIZE` cells each. It covers:

- the board and its columns, where pieces fall to the bottom;
- adding a piece to a column and removing the bottom piece of a column;
- the `check_win` scan for a run of `REQUIRED_WIN_LENGTH` identical pieces in one of four directions;
- `check_input`, which classifies a typed command;
- the turn rule of `play_game`: whose piece is played, when the turn passes, and when the game ends.

The constants `BOARD_SIZE`, `REQUIRED_WIN_LENGTH`, `BLANK_PIECE`, `PLAYER_1_PIECE`, `PLAYER_2_PIECE` and `VALID_COMMANDS` come from the program's settings module. Here they are collected into one `Config` value that every operation takes as a parameter. `Config.Valid()` states what the program relies on:

- `2 <= REQUIRED_WIN_LENGTH <= BOARD_SIZE`;
- the blank piece and the two player pieces are distinct.

Modules:

- `Settings`: `Config`, `Option`, and the blank column `Blanks`.
- `Board`:
  - columns as strings whose index 0 is the top cell;
  - gravity, meaning blanks form a prefix of every column;
  - `generate_initial_board`, `is_column_full`, `is_column_empty`;
  - `add_piece` and `remove_piece` as methods on an `array` of columns, updated in place as the Python list is;
  - lemmas about how these change a column.
- `WinScan`:
  - `check_win` as a method: the two nested `for` loops, the four `while` walks (one `Walk` method parameterised by direction) and the flag loop;
  - a specification `Winner` saying when a player has a run;
  - the literal-7 discrepancy in the left-and-down walk.
- `Commands`: `check_input` as a three-valued classifier, and the command dispatch at the head of `play_game`'s inner loop.
- `Turns`:
  - the `play_game` state (board, `player_one_turn`, `game_finished`, `winner`);
  - a specification `GameStep` of one command and `Play` over a sequence of commands;
  - a `Game` class whose `Step` method changes the board array and the fields in place, proved equal to `GameStep`.

Scanning for a win, a diagonal walk may index a column at `i - c < 0`. Python then reads a column from the other end of the board. The model does the same (`PyIndex`). `WalkDecides` proves that this never changes a verdict: a walk reaches a negative column index only after `REQUIRED_WIN_LENGTH` matching cells already lie on the board. As a result, `CheckWin` is proved exact. Player one's flag is set exactly when some in-bounds run of player one's piece exists; player two's flag, exactly when some in-bounds run of another non-blank piece exists.

## Model

| member | source | states |
|---|---|---|
| Board.InitialBoard | main.py:5-11 | the initial board is valid (BOARD_SIZE columns of BOARD_SIZE cells, gravity, only pieces); every column is empty and not full |
| Board.IsColumnFull | main.py:14-26 | under gravity, a column whose top cell is taken has no blank cell at all, and conversely |
| Board.IsColumnEmpty | main.py:29-41 | under gravity, a column whose bottom cell is blank is blank everywhere, and conversely |
| Board.FirstPieceFrom | main.py:135-139 | the scan of add_piece stops at the first non-blank cell at or below its start, or at the column's end; every cell passed over is blank |
| Board.Dropped | main.py:135-141 | the column add_piece writes: the piece takes the cell just above the first piece found from index 1 down (or the bottom cell); that cell was blank when the column was not full, the cell below it is the bottom or a piece, and every other cell is unchanged |
| Board.Pulled | main.py:165 | the column remove_piece writes: a blank on top and every other cell taken from the cell above it, so the bottom cell is gone |
| Board.AddPiece | main.py:113-142 | True exactly when the column was not full; on True the board array equals the old board with that column replaced by the column with the piece dropped in; on False the board is unchanged |
| Board.RemovePiece | main.py:145-166 | True exactly when the column was not empty; on True the board array equals the old board with that column's bottom piece taken out and a blank added on top; on False the board is unchanged |
| Board.StackObeysGravity | main.py:113-142 | n blanks above a stack of pieces obey gravity and have exactly n free cells |
| Board.GravityIsStack | main.py:113-166 | every column that obeys gravity is its free cells above a stack of pieces |
| Board.DropOnStack | main.py:131-141 | add_piece on a column with room puts the piece directly above the stack and leaves the stack unchanged |
| Board.PullFromStack | main.py:162-166 | remove_piece takes the bottom piece off the stack and moves the rest down one cell in the same order |
| Board.DropKeepsGravity | main.py:131-141 | a successful add_piece keeps gravity, uses up exactly one free cell, places the piece just above the stack and keeps the stack |
| Board.PullKeepsGravity | main.py:162-166 | a successful remove_piece keeps gravity, frees exactly one cell and keeps the other pieces in order, one cell lower |
| Board.DropThenPullRestores | main.py:113-166 | adding a piece to an empty column and then removing it gives back the empty column |
| Board.ReversedNoBlanks | main.py:113-142 | reversing a sequence of pieces gives pieces |
| Board.DropAllOnStack | main.py:113-142 | dropping up to n pieces onto n blanks above a stack piles them up, the last one on top |
| Board.FillEmptyColumn | main.py:14-26 | BOARD_SIZE pieces dropped into an empty column fill it; it is full after k drops exactly when k = BOARD_SIZE |
| Board.DropKeepsBoardValid | main.py:131-141 | a successful add_piece of a player's piece leaves a valid board that differs from the old one |
| Board.PullKeepsBoardValid | main.py:162-166 | a successful remove_piece leaves a valid board that differs from the old one |
| WinScan.LineIsRun | main.py:169-227 | a line of REQUIRED_WIN_LENGTH cells read from its first cell is the run the walks read from its last cell |
| WinScan.WinIsLine | main.py:169-227 | a player has won exactly when some straight line of REQUIRED_WIN_LENGTH cells, in one of the four directions, lies on the board and holds that player's piece in every cell |
| WinScan.Owns | main.py:214-220 | which pieces set which flag: player one's piece sets player one's flag, any other non-blank piece player two's; under valid settings an owned piece is never blank |
| WinScan.OneOwnerPerPiece | main.py:214-220 | under valid settings a piece is owned exactly when it is not blank, by exactly one player, player one owning exactly player one's piece and player two owning player two's piece |
| WinScan.Probed | main.py:197-210 | the range tests before the walks pass exactly when the far end of a REQUIRED_WIN_LENGTH run from the cell in that direction lies on the board |
| WinScan.Walk | main.py:196-212 | one of the four `while` loops: the count n is 1 plus the number of consecutive steps whose bounds test passes and whose cell holds the starting piece; step n fails one of these tests |
| WinScan.WalkDecides | main.py:196-212 | when check_win's range test lets a walk run, its count reaches REQUIRED_WIN_LENGTH exactly when an in-bounds run starts at the cell in that direction |
| WinScan.UnprobedHasNoRun | main.py:196-211 | when the range test skips a walk, no run starts at the cell in that direction |
| WinScan.SkippedDecides | main.py:192-211 | a count left at 1, for a blank cell or a skipped walk, is the right verdict |
| WinScan.ScanCell | main.py:192-212 | each of the four counts a, b, c, d reaches REQUIRED_WIN_LENGTH exactly when the cell holds a piece and a run of it starts there in that direction |
| WinScan.ScanLeft | main.py:201-212 | the horizontal and two diagonal walks of an occupied cell with room on its left: each count decides whether a run starts there in its direction |
| WinScan.CountsDecideClaims | main.py:214-220 | some count of a cell reaches REQUIRED_WIN_LENGTH exactly when a run for one of the players starts at that cell |
| WinScan.CheckWin | main.py:169-227 | the result is the blank piece when both players have a run, a player's piece when only that player has one, and None when neither has; set exactly as in the specification `Winner` |
| WinScan.ColumnOfOnePieceWins | main.py:169-227 | REQUIRED_WIN_LENGTH pieces of one player dropped into one column of a fresh board win for that player and for nobody else |
| WinScan.PyGet | main.py:211 | Python indexing succeeds exactly for indices in -len..len-1 |
| WinScan.DiagonalDownAsWritten | main.py:210-212 | the left-and-down walk bounded by the literal 7: when it does not raise IndexError, its count is at least where it started |
| WinScan.OverrunBoardIsReachable | main.py:113-142 | for any valid settings, add_piece makes the moves player one into column 1, player two into column 2, player one into column 2 (each column has room), and the resulting board is valid with player one's pieces at the bottom of column 1 and just above player two's in column 2 |
| WinScan.LiteralSevenOverruns | main.py:210-212 | with BOARD_SIZE 4 and winning length 2, the board that add_piece builds from the initial board by those three moves is valid, the walk as written from cell (1, 2) raises IndexError, and player one has a run |
| WinScan.LiteralSevenMissesRun | main.py:210-212 | with BOARD_SIZE 9 and winning length 2, the same three moves put player one's only pieces at (0, 8) and (1, 7); the only walk that could see that run stops at once as written, while player one has the run |
| Commands.Slice | main.py:80-82 | Python's clamped list slice holds exactly the entries at indices in the range that exist |
| Commands.From | main.py:80 | Python's open-ended slice holds exactly the entries from the index on |
| Commands.CheckInput | main.py:66-98 | accepted exactly for a lone command from VALID_COMMANDS[4:], or for a letter of VALID_COMMANDS[:4] followed by a digit from 1 to BOARD_SIZE; rejected as an invalid column exactly when such a letter is followed by any other digit; every other input is an invalid format |
| Commands.ParseCommand | main.py:254-266 | an accepted command is help exactly when it is a lone entry of VALID_COMMANDS[4:6], quit exactly when it is another lone entry, add exactly when it is two characters starting with an entry of VALID_COMMANDS[:2], otherwise remove; the column is the typed digit less one and lies on the board |
| Commands.FormattedCommandParses | main.py:66-98 | every command play_game acts on has a text that check_input accepts and that dispatches back to that same command |
| Turns.CurrentPiece | main.py:233 | `pieces[player_one_turn]` is player one's piece exactly on player one's turn and player two's piece exactly on the other turn |
| Turns.InitialState | main.py:239-242 | play_game starts on a valid board, with no result recorded and the game not finished |
| Turns.GameStep | main.py:246-282 | one command keeps the board valid and a recorded result equal to the board's result. The turn passes exactly when the board changes. The round ends exactly on help, quit or a changed board; when it does not, nothing changes. Quit only finishes the game. After any other ended round, the winner is check_win's result and the game is finished exactly when there is one. Add changes the board exactly when the column is not full, dropping the current player's piece; remove changes it exactly when the column is not empty |
| Turns.EndRound | main.py:273-280 | the end of a round keeps the board, records check_win's result, passes the turn exactly when the board was modified, and ends the game exactly when it already had ended or some player has a run |
| Turns.Play | main.py:246-282 | over any sequence of commands the board stays valid and a recorded result stays the board's result |
| Turns.Game.constructor | main.py:239-242 | a fresh board array holding the initial board, player one to move, not finished, no winner |
| Turns.Game.Step | main.py:246-282 | the object's new state and whether the round ended are exactly what `GameStep` gives for the old state; the board array is updated in place |
| Turns.Game.FinishRound | main.py:273-280 | check_win's result is stored as the winner, the game finishes when there is one, and the turn passes only if the board was modified |

## Left out

- `display_board`, `get_action` and `main` are left out: they only print, read keyboard input, or repeat whole games. The play-again loop of `main` goes with them.
- Every message `print`ed is left out. `check_input` returns one of three statuses instead, its two failures standing for its two messages. The final victory or draw message of `play_game` is left out; the recorded winner stands for it.
- The settings module is not part of this model. Its constants are parameters of `Config`, limited only by what the code relies on.
- `VALID_COMMANDS` is taken to be a list of one-character strings, as `command in VALID_COMMANDS[4:]` together with `len(command) == 1` suggests.
- Commands.CheckInput: `str.isnumeric` is modelled for the ASCII digits only. Other Unicode numeric characters, on which `int()` may fail, are not modelled.
- Turns.GameStep: a command of an unchecked column is not modelled. The program only ever acts on commands `check_input` accepted, so `CommandFits` is assumed.
- Turns.Play: the sequence of commands stands for the user's input. Several rejected inputs, which change nothing, are not modelled individually.
- The pieces are one-character strings. Python's `if winner:` is therefore modelled as the result being present, since `BLANK_PIECE` is a non-empty string.
- WinScan.CheckWin: the left-and-down walk is bounded by `BOARD_SIZE - 1`, not the literal 7 of main.py:211. The two agree when `BOARD_SIZE` is 8. With a smaller board the source can raise IndexError; with a larger one it misses left-and-down runs that reach row 8 or lower. The walk as written is kept in `WinScan.DiagonalDownAsWritten` (see Findings).
- WinScan.Walk: the bound of the left-and-down walk is `BOARD_SIZE - 1` (in `Reach`), not the literal 7 of main.py:211, for the reason given on the CheckWin line.

## Findings

| source | as written | input that shows it | evidently intended | confidence | as-written member | corrected member |
|---|---|---|---|---|---|---|
| main.py:211 | the left-and-down walk tests `j+d <= 7`, a literal, rather than the board's last row | BOARD_SIZE = 4, REQUIRED_WIN_LENGTH = 2, moves x in column 1, o in column 2, x in column 2, giving board `["   x", "  xo", "    ", "    "]`; the walk from cell (1, 2) reads row 4 of a 4-cell column and raises IndexError, although player one has a run | the bound `BOARD_SIZE - 1`, like the other walks' tests against the board | not executed; certain for BOARD_SIZE < 8, no effect when BOARD_SIZE is 8 | WinScan.LiteralSevenOverruns | WinScan.CheckWin |
| main.py:211 | the same literal 7 stops the left-and-down walk from a cell in row 7 before its first step | BOARD_SIZE = 9, REQUIRED_WIN_LENGTH = 2, the same three moves put player one's only pieces at (0, 8) and (1, 7); the walk from (1, 7) stops at once because 8 > 7, so no flag is set for player one although the two pieces form a run | the bound `BOARD_SIZE - 1` | not executed; certain for BOARD_SIZE > 8 | WinScan.LiteralSevenMissesRun | WinScan.CheckWin |
