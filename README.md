# Connect Four match engine, modelled in Dafny

This project models the game engine of a React Connect Four app. The engine is
in `src/App.js`. Two players take turns dropping tokens into a gravity-fed grid
of `rows` x `cols` cells. Cells are indexed `board[row][col]` and row 0 is at the
top. A player wins with four or more tokens in a row: horizontally, vertically
or on either diagonal. Each turn has a 10-second clock that counts down in
100 ms ticks. When it runs out, the turn passes. The opponent is either a second
human or a computer that drops into a random column.

The component's React state becomes the fields of class `Game.Match`: `board`,
`currentPlayer`, `winner`, `timeLeft`, `gameStarted`, `rows`, `cols` and
`opponent`. Each handler becomes one atomic method on it: `StartGame`,
`ResetGame`, `DropPiece`, `HumanClick`, `ComputerMove` and `Tick`. Besides the
fields, the state players see has a value form, `Game.Snapshot`. The transitions
on it are the functions `Game.Drop` and `Game.TickStep`. Each method is proved
to follow one of those functions, and the game's properties are proved about
the functions as lemmas.

Files:

- `board.dfy` (module `Board`): players, cells, board creation, where a dropped
  token lands (`LandingRow`), the one-cell write (`Place`), and the gravity
  invariant (`Settled`).
- `win.dfy` (module `Win`): `checkDirection` and `checkForWin` as loop methods.
  `checkDirection` is proved against `Window`, which says "the cell is one of
  four consecutive cells along the direction whose other three hold the
  player's tokens". `checkForWin` is proved against `HasFour`, which says "four
  consecutive tokens of the player along one of the four directions".
- `autoplay.dfy` (module `Autoplay`): the computer's do-while column choice.
  This includes the JavaScript meaning of its retry test.
- `game.dfy` (module `Game`): the match state, the transition functions and
  their lemmas, and class `Match`.

How the model treats its inputs:

- The random column draws are a parameter: `choices`, a sequence of column
  indexes in `[0, cols)`.
- The two timers become explicit steps. `Tick` is one run of the countdown
  effect. `ComputerMove` is the computer's delayed move firing.
- The source computes `dx * i` with unit steps. The model writes it as
  `Win.Step`, which `Win.StepIsProduct` proves equal to the product.

## Behaviour worth noting

- The win check rescans the whole board for the mover's tokens, not just the
  cell that was filled. `Win.NewLineThroughDrop` shows that checking the four
  directions from the dropped cell already finds every new line. Together,
  `Win.CheckDirection` and `Win.WindowGivesLine` show that such a check finds
  only real lines.
- A winning drop still toggles `currentPlayer` and resets `timeLeft` to 10000.
  After that the clock stays frozen, because it only runs while there is no
  winner.
- The computer may pick a full column (see Findings). The drop then does
  nothing, and it stays the computer's turn.
- There are no error results. A drop into a full column or off the board is
  ignored, and board sizes are not checked.
- A tick always subtracts 100 ms.

## Model

| member | source | states |
|---|---|---|
| `Board.Other` | src/App.js:85 | Toggling the player always gives the other player. |
| `Board.CreateBoard` | src/App.js:18-20 | The new board has `rows` rows of `cols` cells, and every cell is empty. |
| `Board.LowestNullBelow` | src/App.js:76-81 | Reference definition of the landing row. It returns the largest row index whose cell in the column is null and says that no null lies below it. It returns None exactly when the column has no null cell, which is also the case for a column off the board. |
| `Board.Place` | src/App.js:75-78 | The copied board differs from the old one in the single cell (row, col), which now holds the player. Every row keeps its length. |
| `Board.LandingRowIsLowestNull` | src/App.js:76-81 | A row that holds null, with no null below it in that column, is the landing row. |
| `Board.CreateBoardSettled` | src/App.js:18-20 | An empty board meets the gravity invariant. |
| `Board.PlaceAtLandingKeepsSettled` | src/App.js:76-81 | Placing a token at its landing row keeps the gravity invariant: no token ever has an empty cell directly below it. |
| `Board.OccupiedBelow` | src/App.js:76-81 | Under gravity, every cell below a token in the same column is occupied. |
| `Board.ColumnFullIffTopOccupied` | src/App.js:96 | Under gravity, a column is full exactly when its row-0 cell is occupied. This is the test the retry loop means to make. |
| `Board.EmptyAboveLandingRow` | src/App.js:76-81 | Under gravity, every cell above the landing row is empty, so the column is a stack of tokens. |
| `Win.StepIsProduct` | src/App.js:46 | `Step(dx, i)` equals the source's `dx * i` for every unit step. |
| `Win.RunsMeetWindow` | src/App.js:43-56 | Take a maximal forward run and a maximal backward run of the player's tokens around a cell. Their total plus one reaches 4 exactly when the cell lies in a window of four whose other three cells are the player's. |
| `Win.ForwardRun` | src/App.js:44-49 | The first loop counts the consecutive tokens of the player forwards from the cell along the direction. The count is maximal: the next cell is off the board or not the player's. |
| `Win.BackwardRun` | src/App.js:50-54 | The second loop counts the same run backwards from the cell, and it is maximal in the same sense. |
| `Win.CheckDirection` | src/App.js:43-56 | The two counting loops return true exactly when cell (x, y) is one of four consecutive cells along the direction whose other three cells hold the player's tokens. Board edges end the runs, with no wraparound. |
| `Win.WindowGivesLine` | src/App.js:58-69 | A window of four around a cell the player owns is a line of four that starts k cells back. |
| `Win.LineGivesWindow` | src/App.js:58-69 | A line of four is a window seen from its first cell. |
| `Win.CheckForWin` | src/App.js:35-70 | Scanning every cell of the player in all four directions returns true exactly when the board holds four or more consecutive tokens of that player: horizontally, vertically or on either diagonal. |
| `Win.PlaceKeepsOtherLines` | src/App.js:60 | Dropping a token of one player neither creates nor destroys a line of four of the other player. |
| `Win.LineMissingDropWasThere` | src/App.js:60-62 | A line of four on the new board that avoids the dropped cell was already on the old board. |
| `Win.LineCellInWindow` | src/App.js:43-56 | Each cell of a line of four, at position j, lies in a window of four where it is cell j. |
| `Win.NewLineThroughDrop` | src/App.js:58-69 | Suppose a drop creates the mover's first line of four. Then some direction's check from the dropped cell alone succeeds. |
| `Autoplay.RetryAsWrittenNeverHolds` | src/App.js:96 | The retry test, as written, is false for every cell value. |
| `Autoplay.PickColumn` | src/App.js:93-96 | The do-while loop returns a column in `[0, cols)`. It stops at the first draw the retry test lets through, or at the last draw when the test rejects all the earlier ones. |
| `Autoplay.AsWrittenStopsAtFirstDraw` | src/App.js:93-96 | With the test as written, the loop always stops at the first draw. |
| `Autoplay.IntendedStopsWithRoom` | src/App.js:96 | With the intended test on a board under gravity, suppose any draw names a column with room. Then the loop stops at a column with room. |
| `Autoplay.IntendedAllFullStopsAtLast` | src/App.js:93-96 | With the intended test, if every draw names a full column, the modelled loop stops at the last draw, a full column. It ends only because the sequence of draws is finite. |
| `Autoplay.AsWrittenKeepsFullColumn` | src/App.js:93-97 | Take a 6 x 7 board under gravity whose column 0 is full and whose column 1 has room. The as-written test lets the draw 0 through, and column 0 has no landing row. |
| `Game.NoFourOnEmptyBoard` | src/App.js:18-20 | An empty board holds no line of four for either player. |
| `Game.FreshIsWellformed` | src/App.js:22-33 | The state that startGame and resetGame install meets the match invariant: a grid under gravity, no winner recorded, and a clock in range. |
| `Game.DropRejectedIff` | src/App.js:72-82 | A drop leaves the state unchanged exactly when a winner is already set, or when the column has no landing row (full or off the board). |
| `Game.DropIgnoresFullOrOffBoard` | src/App.js:76-82 | A drop into a full column, or into a column outside `[0, cols)`, leaves the board, player, winner and clock unchanged. |
| `Game.DropPlacesLowest` | src/App.js:75-87 | An accepted drop puts the mover's token in the largest empty row index of the column. It changes no other cell and keeps the dimensions. It passes the turn and sets the clock to 10000, also on a winning drop. The mover becomes winner exactly when they now have four in a row, and the other player never does. |
| `Game.DropKeepsWellformed` | src/App.js:72-88 | Drops preserve the match invariant: gravity holds, and the recorded winner matches the lines of four on the board. |
| `Game.TickKeepsWellformed` | src/App.js:103-114 | A clock step keeps `timeLeft` in [0, 10000] and a multiple of 100. It leaves the board and the winner untouched. |
| `Game.CountdownThenTimeout` | src/App.js:103-114 | Start from k ticks of time, a running match and no winner. Each tick lowers the clock by exactly 100 until it reaches 0, and the same player stays to move. The next step toggles the player once and resets the clock to 10000. |
| `Game.TurnTimesOut` | src/App.js:103-114 | A full turn reaches 0 after exactly 100 ticks. The 101st step only passes the turn. |
| `Game.ClockStopsAfterWin` | src/App.js:105-109 | Once a winner is set, a clock step with time left changes nothing. |
| `Game.Match.constructor` | src/App.js:7-16 | The initial state: not started, no board, player 1 to move, no winner, 10000 ms on the clock, a 6 x 7 size and a human opponent. |
| `Game.Match.StartGame` | src/App.js:22-33 | The match takes the chosen size and opponent. The board is fresh and empty, player 1 moves first, there is no winner, the clock shows 10000, and the match is started. |
| `Game.Match.ResetGame` | src/App.js:139-145 | The board is a fresh empty one with the previous dimensions. Player 1 is to move, there is no winner, the clock shows 10000, and the match is no longer started. |
| `Game.Match.ScanAndPlace` | src/App.js:74-81 | The bottom-up scan with its `dropped` flag finds a cell exactly when the column has a landing row. It then writes the mover's token into that cell on the copy and changes nothing else. Otherwise the copy is left unchanged. |
| `Game.Match.DropPiece` | src/App.js:72-88 | The scan and the win check give exactly the new state `Drop` describes. The match invariant is kept, and the size, opponent and started flag are unchanged. |
| `Game.Match.HumanClick` | src/App.js:118-122 | A click drops a token only on player 1's turn, or on player 2's turn against a human. A click during the computer's turn changes nothing. |
| `Game.Match.ComputerMove` | src/App.js:90-101 | On the computer's turn, the move drops into the first drawn column, even a full one, where the drop changes nothing. On any other turn it changes nothing. |
| `Game.Match.ComputerMoveIntended` | src/App.js:90-101 | With the intended retry test, the move drops into the column where the loop stops. If some draw has room, a token is placed and the turn passes to player 1. |
| `Game.Match.Tick` | src/App.js:103-114 | One run of the countdown effect gives exactly the state `TickStep` describes. The invariant is kept: the clock stays in [0, 10000] and a multiple of 100. |

## Findings

| source | as written | input that shows it | evidently intended | confidence | as-written member | corrected member |
|---|---|---|---|---|---|---|
| src/App.js:96 | The retry test `!board[0][col] === null` applies `!` first and compares a boolean with null, so it is always false. The loop runs once, and the computer may drop into a full column, which changes nothing. | A 6 x 7 board whose column 0 is full and whose column 1 has room, with the random draw 0. | Retry while the drawn column's top cell is taken (`board[0][col] !== null`), so that the computer's move lands a token whenever the draws reach a column with room. That loop would still need a guard for a board with no room left, where it would draw forever. | not executed | `Autoplay.AsWrittenKeepsFullColumn` (used by `Game.Match.ComputerMove`) | `Autoplay.IntendedStopsWithRoom` (used by `Game.Match.ComputerMoveIntended`) |

## Left out

- Rendering, JSX, the `motion.div` drop animation, colours and CSS (src/App.js:116-166) are presentation only. The click guard at line 119 is kept, as `HumanClick`.
- The player and opponent colours that `startGame` stores are used only for rendering, so `StartGame` does not take them.
- The time display formatting (src/App.js:159) is presentation only.
- The `setTimeout`/`setInterval` scheduling and clean-up is not modelled: `Tick` and `ComputerMove` are explicit steps. A tick and the timeout that follows it at 0 are two separate `Tick` steps, as they are two runs of the effect.
- `Math.random` becomes the `choices` parameter, whose entries lie in `[0, cols)`, as `Math.floor(Math.random() * cols)` gives. The as-written loop uses only the first draw.
- React's asynchronous batching of state setters is not modelled. Each handler is one atomic update, and the win check uses the player who just moved.
- src/StartMenu.js (the set-up wizard) is not part of this model. It only collects the size, opponent and colours and passes them to `startGame`.
- There is no draw detection. The source has none: a full board with no winner rejects every drop, and the clock keeps passing the turn.
- Board dimensions are not validated, because the source does not validate them. The menu offers 6 to 12 rows and 7 to 13 columns.
- Game.Match.DropPiece: requires a started or reset board. Before the first `startGame`, the board is empty, and the source's scan would fail on `newBoard[row]`; no cell is rendered then to be clicked.
- Autoplay.PickColumn: the finite `choices` sequence bounds the retry. On a board with no room, the intended loop over random draws would never end, but the model stops at the last draw (`Autoplay.IntendedAllFullStopsAtLast`). The source can reach such a board, because it has no draw detection.
- Game.Match.ComputerMove: requires `rows >= 1`, because the source reads `board[0]`.
