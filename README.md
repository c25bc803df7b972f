# Othello referee: board rules and match loop

This project models the rules engine of an Othello referee written in C (`board.c`) and the
turn loop of the referee program that drives it (`referee.c`), and proves properties of both.

- `rules.dfy` (module `Rules`) states the rules on values. A grid is an 8x8 matrix holding
  0 (empty), 1 (FIRST, drawn `x`) or 2 (SECOND, drawn `o`). The module defines:
  - bracketing in one of the eight directions, and valid moves;
  - whether a player has any move, and the end of the game;
  - the run flipped in each direction, and the grid after a move;
  - tile counts, the two scoring rules, and the turn hand-over.
- `board.dfy` (module `GameBoard`) is the board object. Class `Board` holds the 8x8 array
  `cells` and the `player` on turn, plus a ghost copy `grid` of the array as a value.
  - `Board_init` is the constructor.
  - `Board_legalMove`, `Board_moveIsValid`, `Board_nextMove`, `Board_countTiles`,
    `Board_flipTiles`, `Board_makeMove`, `Board_draw`, `Board_endGame` and
    `Board_endGameBad` are methods with the loops and branches of the C code.
  - The walk of `Board_flipTiles` is split into two loops run one after the other:
    `ClosingTile` looks for the closing tile, and `FlipBack` walks back from it. In the C
    code the walk back is nested inside the first loop and returns from the function.
  - `Board_getSymbol` is the function `Symbol`.
  - `Board_getOtherPlayer` is the function `Rules.Other`, outside the class.
  - `Board_getPlayer` is a read of the field `player`.
  - Each method is proved against the `Rules` definitions.
  - `Board_makeMove` and `Board_flipTiles` change the array in place, and `Board_draw`
    reassigns `player`.
- `facts.dfy` (module `MoveFacts`) proves what a move does to the tile counts, and what the
  opening position is.
- `referee.dfy` (module `Referee`) models the `for(;;)` loop of `main` as `PlayMatch`.
  - Its inputs are the token sequences the two players write. The end of a sequence is
    end of file.
  - It returns the ending, the score, the winner, the moves relayed to each player, and
    the move log.
  - `Turn` is one pass of the loop. `Proceed` is the rest of a pass once the move has been
    accepted.
  - The predicate `Refereed` states everything the loop promises about a finished match.

The central results:

- `MoveIsValid`, `NextMove`, `CountTiles`, `MakeMove` and `Draw` compute exactly the rule
  functions.
- The eight sequential `Board_flipTiles` calls of `Board_makeMove` give the same result as
  flipping every bracketed run at once (`AfterMoveCells`).
- A valid move fills one empty cell. The mover gains the played cell plus at least one
  flipped tile, and the opponent loses exactly the flipped tiles.
- Hence a match relays at most 60 moves.
- The match ends Finished exactly when neither player can move, scored as FIRST's tiles
  minus SECOND's. Otherwise the player on turn forfeits with -64 or +64, because its input
  ran out or its move was not valid.

## Model

| member | source | states |
|---|---|---|
| Rules.Other | board.c:45-49 | the opponent of player 1 is 2 and of 2 is 1; anything else gives 0 |
| Rules.At | board.c:64-76 | a cell read by a ray walk is a tile value, and any cell off the board reads as empty (never an opponent tile) |
| Rules.TileSymbol | board.c:205-210 | '.' exactly for 0, 'x' exactly for 1, 'o' exactly for 2, '\0' for any other value |
| Rules.BracketsUnique | board.c:56-77 | a direction brackets at most one run length: the walk stops at the first non-opponent cell |
| Rules.BracketsCells | board.c:62-76 | every cell of a bracketed run is an on-board opponent tile, and the closing cell is an on-board tile of the mover |
| Rules.WalkFindsBracket | board.c:68-74 | a walk that crossed at least one opponent tile and stands on an on-board own tile has found a bracket |
| Rules.WalkFindsNoBracket | board.c:66-76 | a walk that stops on a non-opponent cell that is not an own tile past at least one opponent tile means the direction brackets nothing |
| Rules.InRunIsOpponent | board.c:93-104 | every tile flipped in a direction was an on-board opponent tile |
| Rules.RunSetStep | board.c:100-106 | setting the next cell on the walk back extends the player's part of the ray by one cell |
| Rules.FlipRunDone | board.c:97-106 | when the walk back reaches the played cell, the grid is the old grid with exactly the bracketed run flipped |
| Rules.PlacedCells | board.c:282-322 | after the first n flips of Board_makeMove, a cell is the mover's exactly when it is the played cell or lies in a run one of those n directions brackets in the grid before the move; other cells keep their value |
| Rules.AfterMoveCells | board.c:277-325 | Board_makeMove's result cell by cell: the played cell and every tile bracketed in any direction become the mover's, and nothing else changes |
| Rules.FlippedBeforeSome | board.c:282-322 | a cell flipped by one of the first n calls lies in the run of some direction among the first n |
| Rules.Forfeit | board.c:384-385 | -64 when player 1 is on turn, +64 otherwise |
| Rules.WinnerOf | board.c:351-366 | FIRST wins exactly when the score is positive, SECOND exactly when it is negative, a draw exactly when it is zero |
| Rules.NextPlayer | board.c:188-199 | the next player is a player, and unless the game is over it has a valid move |
| GameBoard.Board.constructor | board.c:148-168 | a fresh 8x8 array with 2 at (3,3) and (4,4), 1 at (3,4) and (4,3), 0 elsewhere, and player 1 on turn |
| GameBoard.Board.Get | board.c:68 | the cell value, or empty off the board |
| GameBoard.Board.Symbol | board.c:205-210 | the drawing character of the cell, always one of '.', 'x', 'o' on a valid board |
| GameBoard.Board.ClosingTile | board.c:62-76 | the walk in direction d finds a closing tile exactly when d brackets a run; it then returns the run length and the closing cell |
| GameBoard.Board.LegalMove | board.c:56-77 | true exactly when the player on turn brackets a run in direction d from (row, column) |
| GameBoard.Board.MoveIsValid | board.c:212-274 | true exactly when (row, column) is on the board, empty, and brackets in some direction; nothing changes |
| GameBoard.Board.NextMove | board.c:118-128 | true exactly when the player on turn has a valid move anywhere |
| GameBoard.Board.CountTiles | board.c:134-146 | the number of cells holding v |
| GameBoard.Board.Put | board.c:104 | one array write; the ghost grid changes at that cell only |
| GameBoard.Board.FlipTiles | board.c:83-112 | the run bracketed in direction d becomes the player's, and every other cell is unchanged (including when nothing is bracketed) |
| GameBoard.Board.FlipBack | board.c:97-106 | the walk back from the closing tile sets exactly the bracketed run to the player's |
| GameBoard.Board.FlipNext | board.c:284-322 | the n-th Board_flipTiles call advances the board from the n-direction to the (n+1)-direction state of the move |
| GameBoard.Board.MakeMove | board.c:277-325 | the board becomes the rule grid after the move (cell by cell: AfterMoveCells); the player on turn is unchanged, and the result is 1 |
| GameBoard.Board.Draw | board.c:170-200 | the turn passes to the opponent if it can move, else stays; the result is 0 exactly when neither player can move, otherwise the player who just moved |
| GameBoard.Board.EndGame | board.c:333-373 | the score is FIRST's tiles minus SECOND's, whoever is on turn, and the winner follows the sign |
| GameBoard.Board.EndGameBad | board.c:376-406 | the player on turn forfeits: -64 and SECOND wins if it is player 1, +64 and FIRST wins otherwise, whatever the board |
| MoveFacts.ScanTotal | board.c:134-146 | a row-major scan up to (row, col) counts 8*row + col cells over the three values |
| MoveFacts.TileTotal | board.c:134-146 | the counts of empty cells, FIRST tiles and SECOND tiles add up to 64 |
| MoveFacts.FlippedAreOpponents | board.c:93-104 | the flipped tiles are opponent tiles, and the played cell is not among them |
| MoveFacts.ValidMoveFlips | board.c:212-274 | a valid move flips at least one tile |
| MoveFacts.AfterMoveSets | board.c:277-325 | after a move onto an empty cell, the mover's cells gain the played cell and the flipped tiles, the opponent's lose the flipped tiles, and the empty cells lose the played cell |
| MoveFacts.AfterMoveCounts | board.c:277-325 | after a valid move the mover has 1 + F more tiles, the opponent F fewer with F >= 1, and there is one empty cell fewer |
| MoveFacts.AfterMoveScore | board.c:341-347 | a valid move changes the tile difference by 1 + 2F in the mover's favour |
| MoveFacts.InitialCounts | board.c:159-165 | the opening position has FIRST at (3,4) and (4,3), SECOND at (3,3) and (4,4), 60 empty cells and a tile difference of 0 |
| MoveFacts.InitialHasMove | board.c:159-165 | FIRST can play (2,3) in the opening position, so the game is not over there |
| MoveFacts.InitialMoves | board.c:159-165 | FIRST's valid opening moves are exactly (2,3), (3,2), (4,5) and (5,4) |
| MoveFacts.OpeningRun | board.c:159-165 | in the opening position every bracketed run is one tile long and starts at one of those four cells |
| Referee.ColumnIndex | referee.c:398 | letters 'A'..'H' map to the columns 0..7 and nothing else does, with 'A' at 0 |
| Referee.TokensTo | referee.c:415-424 | every token player q receives was relayed to q, every token relayed to q is among those q receives, and q receives no more tokens than were relayed in total |
| Referee.MoveLines | referee.c:139-153 | log line i has number i, names the player who moved, and carries the token |
| Referee.ExtendPlay | referee.c:402-429 | relaying a valid move of the player on turn keeps the play legal, advances the position by that move, adds the token to the recipient's sequence and adds a log line |
| Referee.BookkeepStep | referee.c:365-399 | reading the next token of the player on turn keeps the read positions, move count and log in step with the relays |
| Referee.CrashedExit | referee.c:365-396 | end of input from the player on turn ends the match with that player's forfeit score, and nothing is relayed or logged for the read |
| Referee.BadMoveExit | referee.c:399-413 | an invalid token ends the match with the forfeit score; it is logged but not relayed |
| Referee.FinishedExit | referee.c:428-443 | when neither player can move after a move, the match ends with the tile difference as score |
| Referee.PlayStep | referee.c:415-429 | relaying, applying and handing on a valid move advances the replayed position |
| Referee.EmptyCount | referee.c:359-444 | after n legal moves 60 - n cells are empty |
| Referee.MatchLength | referee.c:359-444 | a match relays at most 60 moves |
| Referee.Proceed | referee.c:425-443 | after an accepted move: Board_makeMove, the hand-over and count + 1; the match ends exactly when neither player can move, and then with the Finished ending, the relays so far and the outcome Refereed states; otherwise the play stays legal and reaches the new position |
| Referee.Turn | referee.c:363-444 | one pass of the loop: it either ends the match as Refereed states, or reads exactly one token, appends exactly one relay to the relays so far, keeps the play legal, the books in step and the match not over |
| Referee.PlayMatch | referee.c:359-444 | the whole match, as the predicate Refereed states: legal relays, each a prefix of the mover's input; Finished exactly when the game is over, with the tile difference; otherwise the player on turn forfeits because its input ended or its next token is not valid; the winner follows the score; the log numbers every token read |

## Left out

- Processes, pipes and files (referee.c:29-82, 243-356): `fork`, `exec`, `dup`, `fdopen`,
  the resource limit, and closing and freeing. Each player's output is a sequence of
  tokens, and the end of the sequence is `fscanf` returning -1.
- Argument handling, the executable check and building file names (referee.c:87-103,
  174-241). These are foreign calls and string building.
- All text output is left out: the board drawing and header lines, the log's end-of-game
  lines, `printf` of the score, and the exit status.
  - The log's move lines are kept as `MoveLine` values.
  - The `crash` argument of `Board_endGameBad` only chooses a log line, so it is not
    modelled.
  - The relayed text `"<letter><row>\n"` is modelled as a `Relay` value.
- Partially parsed tokens are left out. When `fscanf` returns 0 or 1, the C loop carries on
  with stale or uninitialised values. Input is restricted to end of file or a whole
  (letter, row) token.
- A failing `fflush` exits the process (referee.c:417-418, 422-423). Writes are assumed to
  succeed.
- The ray walks of `Board_legalMove` and `Board_flipTiles` read the array before checking
  bounds (board.c:68, 93). That read is undefined behaviour, or a wrap into the neighbouring
  row. The model reads off-board cells as empty. This changes no result: only an in-bounds
  own tile can return 1 or start the flipping, and a walk that has left the board never
  comes back.
- `Board_getPlayer` (board.c:328-330) is a plain field read, modelled as reading
  `board.player`.
- The row is an unbounded integer. A C `int` read by `%d` cannot exceed the 32-bit range,
  but any row outside 0..7 is rejected either way.
- The tracking flag and the log file of `Board_init` and the board are not stored.
- The value `Board_makeMove` returns (always 1) is ignored by the loop, as in the C code.
- Ordering of relays: `main` relays an accepted token to the other player
  (referee.c:415-424) before calling `Board_makeMove` (referee.c:425). The model keeps that
  order, and nothing it observes depends on it.
