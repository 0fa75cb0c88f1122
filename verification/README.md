# Tic-tac-toe board engine, modelled in Dafny

This project models the game engine inside the `TicTacBoard` composable of
`MainActivity.kt`: a 3x3 board of marks, whose turn it is, the turn label
shown above the board, a game-over flag and a stack of board snapshots,
together with its four local operations — saving a snapshot, resetting,
undoing and handling a click on a tile, including the
three-in-a-row check that ends the game.

The engine is an immutable `Game.State` and pure transition functions:

- `board.dfy` (module `Board`): cells (`Empty`, `Nought` stored as "0",
  `Cross` stored as "X"), the two players ("Player 1" places "0", "Player 2"
  places "X"), board updates, the game's hand-written eight-line check
  `ThreeInARow`, an independent table of the eight lines, mark counting, and
  the rendering of a board back to the strings the screen stores.
- `game.dfy` (module `Game`): the state, `SaveState`, `ResetGame`, `Undo`,
  `OnButtonClick`, the invariant `Consistent` every reachable state keeps,
  and lemmas relating the operations.
- `play.dfy` (module `Play`): the screen's buttons as presses (nine tiles,
  undo, and the refresh, "PvP" and "AI" buttons, which all reset), runs of
  presses, and worked games.

The behaviour is the code's, quirks included:

- a click on a game in progress saves a snapshot before it looks at the tile,
  so a click on an occupied tile still grows the history;
- snapshots hold the board only, and undo passes the turn to the other player
  instead of restoring it, so an undo after a click on an occupied tile gives
  the same player two moves in a row (`Play.UndoAfterRejectedClickRepeatsTurn`);
- reset keeps the history, so an undo right after a reset brings back the
  last saved board (the board as it was before the previous game's last
  click) and hands the turn to Player 2; after a game of one move that board
  is empty (`Play.UndoAfterResetHandsTurnToPlayerTwo`);
- there is no draw: a full board with no three in a row leaves the game
  running and every further click only grows the history
  (`Play.FullBoardWithoutLineStaysOpen`).

The winner is announced by a transient notification; the model returns it as
`Game.Announcement` instead. Cells and players are datatypes; `Board.Render`
and `Board.RenderedCheckAgrees` show that this decides exactly what the
code's string comparisons decide.

## Model

| member | source | states |
|---|---|---|
| `Board.Player.Mark` | app/src/main/java/com/example/tictactoe/MainActivity.kt:101 | a player's mark is never empty, and its stored text is "0" for the player named "Player 1" and "X" for the other |
| `Board.Player.Other` | app/src/main/java/com/example/tictactoe/MainActivity.kt:102 | passing the turn always yields the other of the two players |
| `Board.EmptyGrid` | app/src/main/java/com/example/tictactoe/MainActivity.kt:59 | a fresh board is three rows of three cells, all empty |
| `Board.Place` | app/src/main/java/com/example/tictactoe/MainActivity.kt:101 | writing a mark changes exactly the chosen cell and keeps the board 3x3 |
| `Board.ThreeInARow` | app/src/main/java/com/example/tictactoe/MainActivity.kt:106-113 | the eight comparisons of lines 106-113 as written: rows, columns, main diagonal, anti-diagonal, each three equal cells with the first one tested non-empty |
| `Board.ThreeInARowText` | app/src/main/java/com/example/tictactoe/MainActivity.kt:106-113 | the same eight comparisons over the stored strings, with "non-empty" meaning not "" |
| `Board.ThreeInARowIsSomeLine` | app/src/main/java/com/example/tictactoe/MainActivity.kt:106-113 | the eight hand-written comparisons hold exactly when one of the eight lines (three rows, three columns, two diagonals) holds three equal non-empty cells |
| `Board.NewLinesRunThroughMove` | app/src/main/java/com/example/tictactoe/MainActivity.kt:100-113 | on a board without a complete line, a new mark can only complete lines through its own cell, and those lines consist of that mark |
| `Board.Render` | app/src/main/java/com/example/tictactoe/MainActivity.kt:59-101 | each stored cell text is the cell's own text ("" for empty, "0" for Player 1's mark, "X" for Player 2's), so every text is "", "0" or "X", it is "" exactly for an empty cell, and two texts are equal exactly when the cells are |
| `Board.RenderedCheckAgrees` | app/src/main/java/com/example/tictactoe/MainActivity.kt:106-113 | the check on cells and the same check on the stored strings always agree |
| `Board.PlaceAddsOneMark` | app/src/main/java/com/example/tictactoe/MainActivity.kt:100-101 | filling an empty cell raises the number of marks on the board by exactly one |
| `Game.TurnLabel` | app/src/main/java/com/example/tictactoe/MainActivity.kt:58-103 | the turn label built at lines 58, 72, 88 and 103 is "Player 1 Turn" for Player 1 and "Player 2 Turn" for Player 2 |
| `Game.Start` | app/src/main/java/com/example/tictactoe/MainActivity.kt:57-61 | the first state has an empty board, Player 1 to move, the label "Player 1 Turn", the game running and no history, and is consistent |
| `Game.SaveState` | app/src/main/java/com/example/tictactoe/MainActivity.kt:63-65 | a save keeps the old history as a prefix, adds the current board as the one new last entry, and changes nothing else |
| `Game.ResetGame` | app/src/main/java/com/example/tictactoe/MainActivity.kt:69-74 | reset empties every cell, gives the turn and the label to Player 1, clears game over, and leaves the history as it was |
| `Game.Undo` | app/src/main/java/com/example/tictactoe/MainActivity.kt:77-93 | with no history nothing changes; otherwise exactly the last snapshot is removed and becomes the board, the turn passes to the other player, the label follows, and game over is cleared |
| `Game.OnButtonClick` | app/src/main/java/com/example/tictactoe/MainActivity.kt:95-125 | a finished game ignores the click entirely; otherwise the history grows by the board as it was; an occupied tile changes nothing else; an empty tile gets the mover's mark ("0" for Player 1, "X" for Player 2) with every other cell kept, the turn passes, the game ends exactly when a line is complete, and the announced winner is the player who just moved |
| `Game.ResetKeepsConsistent` | app/src/main/java/com/example/tictactoe/MainActivity.kt:69-74 | reset keeps the invariant: 3x3 board and snapshots, no snapshot with a complete line, label naming the current player, game over exactly when a line is complete |
| `Game.UndoKeepsConsistent` | app/src/main/java/com/example/tictactoe/MainActivity.kt:77-93 | undo keeps the same invariant, so undoing a winning move makes the game playable on a board without a line |
| `Game.ClickKeepsConsistent` | app/src/main/java/com/example/tictactoe/MainActivity.kt:95-125 | a click keeps the same invariant |
| `Game.WinnerOwnsEveryLine` | app/src/main/java/com/example/tictactoe/MainActivity.kt:115-121 | a winner is announced exactly when the click ends a running game, and every complete line then runs through the clicked tile and holds the winner's mark |
| `Game.UndoRestoresSnapshot` | app/src/main/java/com/example/tictactoe/MainActivity.kt:77-87 | undo right after a save brings back the saved board and history but still passes the turn |
| `Game.UndoAfterClick` | app/src/main/java/com/example/tictactoe/MainActivity.kt:77-103 | undo right after a click on a running game restores the board and history and clears game over; the turn is back with the clicker exactly when the click hit an empty tile |
| `Game.ResetIsIdempotent` | app/src/main/java/com/example/tictactoe/MainActivity.kt:69-74 | resetting twice is the same as resetting once |
| `Game.ClickAddsAtMostOneMark` | app/src/main/java/com/example/tictactoe/MainActivity.kt:96-101 | a click adds one mark when it hits an empty tile of a running game and none otherwise |
| `Game.FullBoardNeverEnds` | app/src/main/java/com/example/tictactoe/MainActivity.kt:96-115 | on a full board without a line every click only saves a snapshot and announces nothing |
| `Play.Step` | app/src/main/java/com/example/tictactoe/MainActivity.kt:139-231 | every button press keeps the invariant, and only tile presses can announce a winner |
| `Play.Run` | app/src/main/java/com/example/tictactoe/MainActivity.kt:189-236 | every state reached by any sequence of presses from a consistent state is consistent |
| `Play.TopRowWins` | app/src/main/java/com/example/tictactoe/MainActivity.kt:106-121 | from any empty board with Player 1 to move, after 0 X 0 X on (0,0), (1,1), (0,1), (2,2) the game is running, and "0" on (0,2) ends it announcing Player 1 |
| `Play.FullBoardWithoutLineStaysOpen` | app/src/main/java/com/example/tictactoe/MainActivity.kt:106-115 | from any empty board with Player 1 to move, the nine moves filling the board as 0 X 0 / 0 X X / X 0 0 leave the game running with nine more snapshots, and every further click only saves a snapshot |
| `Play.UndoAfterRejectedClickRepeatsTurn` | app/src/main/java/com/example/tictactoe/MainActivity.kt:77-103 | from any empty board with Player 1 to move, clicking (0,0) twice, undoing and clicking (1,1) leaves two "0" marks: Player 1 moved twice |
| `Play.UndoAfterResetHandsTurnToPlayerTwo` | app/src/main/java/com/example/tictactoe/MainActivity.kt:69-91 | from any empty board with Player 1 to move, one move, reset and undo leave an empty board, the history as it was before the move, and Player 2 to move with the label "Player 2 Turn" |

## Left out

- A computer opponent, a turn timer, draw detection and game modes do not exist in the code; the "PvP" and "AI" buttons both only reset, and that is what the model does.
- Screen layout, buttons, cards, texts and theming are presentation only; the buttons appear in the model just as presses.
- The winner notification is a platform side effect; the model returns the winner as a value.
- The close button finishes the activity, which is a platform side effect with no game state.
- `DrawShape.kt` draws crosses and circles on a canvas with floating-point geometry and holds no game logic.
- Remembered mutable state and recomposition are treated as one plain record; snapshots are deep copies in the code, so they are plain values here.
- Row and column of a click always come from the tile loops (0 to 2), so `Game.OnButtonClick` requires them in range instead of modelling the out-of-range exception.
- Tiles are disabled while the game is over; the click handler ignores such clicks anyway, and the model keeps only that guard.
