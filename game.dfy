/** The match state machine of the App component: its React state becomes the
    fields of class Match, and each handler one atomic method. The
    observable state (board, current player, winner, clock) also has a value
    form, Snapshot, with the transitions Drop and TickStep as functions on it;
    the methods are proved to follow those functions. */
module Game {
  import opened Board
  import opened Win
  import opened Autoplay

  /** The full turn time and the clock tick, in milliseconds. */
  const TurnDuration := 10000
  const TickMs := 100

  /** `'player'` (a second human) or `'computer'` in the source. */
  datatype Opponent = Human | Computer

  datatype Snapshot = Snapshot(board: Grid, currentPlayer: Player, winner: Option<Player>, timeLeft: int)

  /** The state that startGame and resetGame install. */
  function Fresh(rows: nat, cols: nat): (s: Snapshot) {
    Snapshot(CreateBoard(rows, cols), P1, None, TurnDuration)
  }

  /** The clock lies in [0, TurnDuration] and is a whole number of ticks. */
  predicate ClockInRange(t: int) {
    0 <= t <= TurnDuration && t % TickMs == 0
  }

  /** `w` is the winner exactly when the board holds that player's four in a
      row, and no player is recorded while neither has one. */
  ghost predicate WinnerRecorded(b: Grid, w: Option<Player>) {
    match w
    case None => !HasFour(b, P1) && !HasFour(b, P2)
    case Some(p) => HasFour(b, p) && !HasFour(b, Other(p))
  }

  /** The invariant of a started (or reset) match. */
  ghost predicate Wellformed(s: Snapshot, rows: nat, cols: nat) {
    IsGrid(s.board, rows, cols) && Settled(s.board) &&
    WinnerRecorded(s.board, s.winner) && ClockInRange(s.timeLeft)
  }

  /** dropPiece(col): nothing once there is a winner or when the column has
      no room; otherwise the current player's token lands on the lowest empty
      cell, the winner is recorded if the mover now has four in a row, and
      the turn passes with a full clock (also on the winning drop). */
  ghost function Drop(s: Snapshot, col: int): (t: Snapshot) {
    if s.winner.Some? then s
    else match LandingRow(s.board, col)
      case None => s
      case Some(row) =>
        var b := Place(s.board, row, col, s.currentPlayer);
        Snapshot(b, Other(s.currentPlayer),
                 if HasFour(b, s.currentPlayer) then Some(s.currentPlayer) else None,
                 TurnDuration)
  }

  /** One step of the countdown effect: while the match runs with no winner
      and time left, a tick takes 100 ms off; once the time is used up the
      turn passes and the clock restarts. */
  function TickStep(s: Snapshot, started: bool): (t: Snapshot) {
    if started && s.timeLeft > 0 && s.winner.None? then s.(timeLeft := s.timeLeft - TickMs)
    else if s.timeLeft <= 0 then s.(currentPlayer := Other(s.currentPlayer), timeLeft := TurnDuration)
    else s
  }

  /** `n` successive clock steps. */
  function Ticks(s: Snapshot, started: bool, n: nat): (t: Snapshot)
    decreases n
  {
    if n == 0 then s else Ticks(TickStep(s, started), started, n - 1)
  }

  /** The click guard of renderCell: player 1 may always click, player 2 only
      against a human opponent. */
  predicate ClickAllowed(p: Player, opponent: Opponent) {
    p == P1 || (opponent == Human && p == P2)
  }

  /** The computer-move effect is armed: the computer is to play. */
  predicate ComputerTurn(started: bool, opponent: Opponent, s: Snapshot) {
    started && opponent == Computer && s.currentPlayer == P2 && s.winner.None?
  }

  lemma NoFourOnEmptyBoard(rows: nat, cols: nat, p: Player)
    ensures !HasFour(CreateBoard(rows, cols), p)
  {
  }

  /** startGame and resetGame begin from a well-formed state. */
  lemma FreshIsWellformed(rows: nat, cols: nat)
    ensures Wellformed(Fresh(rows, cols), rows, cols)
  {
    CreateBoardSettled(rows, cols);
    NoFourOnEmptyBoard(rows, cols, P1);
    NoFourOnEmptyBoard(rows, cols, P2);
  }

  /** A drop changes nothing exactly when a winner is already recorded or
      the column has no room (full, or off the board). */
  lemma DropRejectedIff(s: Snapshot, col: int)
    ensures Drop(s, col) == s <==> s.winner.Some? || LandingRow(s.board, col).None?
  {
    if s.winner.None? && LandingRow(s.board, col).Some? {
      var row := LandingRow(s.board, col).value;
      var b := Place(s.board, row, col, s.currentPlayer);
      assert b[row][col] != s.board[row][col];
    }
  }

  /** A drop into a full column, or into a column off the board, changes
      nothing. */
  lemma DropIgnoresFullOrOffBoard(s: Snapshot, rows: nat, cols: nat, col: int)
    requires IsGrid(s.board, rows, cols)
    requires col < 0 || col >= cols || forall r :: 0 <= r < rows ==> s.board[r][col].Occupied?
    ensures Drop(s, col) == s
  {
    assert forall k :: 0 <= k < rows ==> !IsNullAt(s.board, k, col);
  }

  /** An accepted drop puts the mover's token in the largest row index of
      the column that holds no token, changes no other cell, hands the turn
      to the other player with a full clock, and records the mover as winner
      exactly when the mover now has four in a row. */
  lemma DropPlacesLowest(s: Snapshot, rows: nat, cols: nat, col: int, row: nat)
    requires IsGrid(s.board, rows, cols) && s.winner.None?
    requires row < rows && 0 <= col < cols && s.board[row][col] == Empty
    requires forall r :: row < r < rows ==> s.board[r][col].Occupied?
    ensures var t := Drop(s, col);
            && IsGrid(t.board, rows, cols)
            && t.board[row][col] == Occupied(s.currentPlayer)
            && (forall r, c :: 0 <= r < rows && 0 <= c < cols && (r, c) != (row, col) ==> t.board[r][c] == s.board[r][c])
            && t.currentPlayer == Other(s.currentPlayer)
            && t.timeLeft == TurnDuration
            && (t.winner == Some(s.currentPlayer) <==> HasFour(t.board, s.currentPlayer))
            && t.winner != Some(Other(s.currentPlayer))
  {
    LandingRowIsLowestNull(s.board, col, row);
  }

  /** Drops keep the match invariant: gravity, the recorded winner and the
      clock range. */
  lemma DropKeepsWellformed(s: Snapshot, rows: nat, cols: nat, col: int)
    requires Wellformed(s, rows, cols)
    ensures Wellformed(Drop(s, col), rows, cols)
  {
    if s.winner.None? && LandingRow(s.board, col).Some? {
      var row := LandingRow(s.board, col).value;
      var p := s.currentPlayer;
      PlaceAtLandingKeepsSettled(s.board, rows, cols, col, p);
      PlaceKeepsOtherLines(s.board, row, col, p, Other(p));
      assert Other(p) == P1 || Other(p) == P2;
    }
  }

  /** The clock step keeps the match invariant; in particular the clock
      stays within [0, 10000] and a multiple of 100. */
  lemma TickKeepsWellformed(s: Snapshot, started: bool)
    requires ClockInRange(s.timeLeft)
    ensures var t := TickStep(s, started);
            ClockInRange(t.timeLeft) && t.board == s.board && t.winner == s.winner
  {
    if started && s.timeLeft > 0 && s.winner.None? {
      assert s.timeLeft >= TickMs;
    }
  }

  /** From `k` ticks' worth of time, a running match with no winner counts
      down by exactly 100 ms per tick to 0 with the same player to move; the
      next step passes the turn once and restarts the clock, placing no
      token and leaving the winner as it was. */
  lemma {:induction false} CountdownThenTimeout(s: Snapshot, k: nat)
    requires s.winner.None? && s.timeLeft == k * TickMs
    ensures forall n :: 0 <= n <= k ==> Ticks(s, true, n) == s.(timeLeft := (k - n) * TickMs)
    ensures Ticks(s, true, k + 1) == s.(currentPlayer := Other(s.currentPlayer), timeLeft := TurnDuration)
    decreases k
  {
    if k == 0 {
      assert Ticks(s, true, 1) == Ticks(TickStep(s, true), true, 0);
    } else {
      var s' := TickStep(s, true);
      assert s' == s.(timeLeft := (k - 1) * TickMs);
      CountdownThenTimeout(s', k - 1);
      forall n | 0 <= n <= k ensures Ticks(s, true, n) == s.(timeLeft := (k - n) * TickMs) {
        if n > 0 {
          assert Ticks(s, true, n) == Ticks(s', true, n - 1);
        }
      }
      assert Ticks(s, true, k + 1) == Ticks(s', true, k);
    }
  }

  /** A full turn times out after exactly 100 ticks, and the 101st step
      passes the turn. */
  lemma TurnTimesOut(s: Snapshot)
    requires s.winner.None? && s.timeLeft == TurnDuration
    ensures Ticks(s, true, 100).timeLeft == 0 && Ticks(s, true, 100).currentPlayer == s.currentPlayer
    ensures Ticks(s, true, 101) == s.(currentPlayer := Other(s.currentPlayer))
  {
    CountdownThenTimeout(s, 100);
  }

  /** Once a player has won, the clock no longer runs. */
  lemma ClockStopsAfterWin(s: Snapshot, started: bool)
    requires s.winner.Some? && s.timeLeft > 0
    ensures TickStep(s, started) == s
  {
  }

  class Match {
    var board: Grid
    var currentPlayer: Player
    var winner: Option<Player>
    var timeLeft: int
    var gameStarted: bool
    var rows: nat
    var cols: nat
    var opponent: Opponent

    /** The state shown to the player. */
    function View(): (s: Snapshot)
      reads this
    {
      Snapshot(board, currentPlayer, winner, timeLeft)
    }

    /** Either a started or reset match, or the component as first mounted:
        not started, no board yet. */
    ghost predicate Valid()
      reads this
    {
      Wellformed(View(), rows, cols) ||
      (!gameStarted && board == [] && winner == None && ClockInRange(timeLeft))
    }

    /** The initial React state: a classic 6 x 7 size, a human opponent, no
        board, player 1 to move, a full clock. */
    constructor ()
      ensures Valid() && !gameStarted && board == []
      ensures currentPlayer == P1 && winner == None && timeLeft == TurnDuration
      ensures rows == 6 && cols == 7 && opponent == Human
    {
      board := [];
      currentPlayer := P1;
      winner := None;
      timeLeft := TurnDuration;
      gameStarted := false;
      rows := 6;
      cols := 7;
      opponent := Human;
    }

    /** startGame: take the chosen size and opponent and begin a fresh match. */
    method StartGame(newRows: nat, newCols: nat, selected: Opponent)
      modifies this
      ensures Valid() && gameStarted
      ensures rows == newRows && cols == newCols && opponent == selected
      ensures View() == Fresh(newRows, newCols)
    {
      rows := newRows;
      cols := newCols;
      opponent := selected;
      board := CreateBoard(newRows, newCols);
      currentPlayer := P1;
      winner := None;
      gameStarted := true;
      timeLeft := TurnDuration;
      FreshIsWellformed(newRows, newCols);
    }

    /** resetGame: back to the start menu with an empty board of the same
        size. */
    method ResetGame()
      modifies this
      ensures Valid() && !gameStarted
      ensures rows == old(rows) && cols == old(cols) && opponent == old(opponent)
      ensures View() == Fresh(rows, cols)
    {
      gameStarted := false;
      board := CreateBoard(rows, cols);
      currentPlayer := P1;
      winner := None;
      timeLeft := TurnDuration;
      FreshIsWellformed(rows, cols);
    }

    /** The loop of dropPiece on its copy of the board: scan column `col`
        from the bottom row up and put `p`'s token in the first empty cell.
        `dropped` reports whether a cell was found. */
    static method ScanAndPlace(b: Grid, rows: nat, cols: nat, col: int, p: Player)
      returns (newBoard: Grid, dropped: bool)
      requires IsGrid(b, rows, cols)
      ensures dropped <==> LandingRow(b, col).Some?
      ensures dropped ==> newBoard == Place(b, LandingRow(b, col).value, col, p)
      ensures !dropped ==> newBoard == b
    {
      dropped := false;
      newBoard := b;
      var row: int := rows - 1;
      while row >= 0 && !dropped
        invariant -1 <= row < rows
        invariant !dropped ==> newBoard == b && forall k :: row < k < rows ==> !IsNullAt(b, k, col)
        invariant dropped ==>
                    && row + 1 < rows && IsNullAt(b, row + 1, col)
                    && (forall k :: row + 1 < k < rows ==> !IsNullAt(b, k, col))
                    && newBoard == Place(b, row + 1, col, p)
      {
        if IsNullAt(newBoard, row, col) {
          newBoard := newBoard[row := newBoard[row][col := Occupied(p)]];
          dropped := true;
        }
        row := row - 1;
      }
      if dropped {
        LandingRowIsLowestNull(b, col, row + 1);
      }
    }

    /** dropPiece: nothing once there is a winner; otherwise place the
        current player's token on a copy of the board and, on success, check
        for a win, pass the turn and restart the clock. */
    method DropPiece(col: int)
      requires Wellformed(View(), rows, cols)
      modifies this
      ensures Wellformed(View(), rows, cols)
      ensures View() == Drop(old(View()), col)
      ensures rows == old(rows) && cols == old(cols)
      ensures opponent == old(opponent) && gameStarted == old(gameStarted)
    {
      if winner.Some? {
        return;
      }
      var newBoard, dropped := ScanAndPlace(board, rows, cols, col, currentPlayer);
      if dropped {
        DropKeepsWellformed(View(), rows, cols, col);
        var won := CheckForWin(newBoard, rows, cols, currentPlayer);
        board := newBoard;
        if won {
          winner := Some(currentPlayer);
        }
        currentPlayer := Other(currentPlayer);
        timeLeft := TurnDuration;
      }
    }

    /** A click on a cell of column `col`: it drops a token only on player
        1's turn, or on player 2's turn against a human. */
    method HumanClick(col: int)
      requires Valid() && gameStarted
      modifies this
      ensures Valid()
      ensures View() == if ClickAllowed(old(currentPlayer), opponent) then Drop(old(View()), col) else old(View())
      ensures opponent == Computer && old(currentPlayer) == P2 ==> View() == old(View())
      ensures rows == old(rows) && cols == old(cols)
      ensures opponent == old(opponent) && gameStarted == old(gameStarted)
    {
      if currentPlayer == P1 || (opponent == Human && currentPlayer == P2) {
        DropPiece(col);
      }
    }

    /** The computer's delayed move as written: when it is the computer's turn,
        draw a column (`choices` stands for the random draws) and drop there.
        The retry test never holds, so the first draw is used even when that
        column is full, and the drop then changes nothing. */
    method ComputerMove(choices: seq<int>)
      requires Valid() && rows >= 1
      requires |choices| >= 1 && forall k :: 0 <= k < |choices| ==> 0 <= choices[k] < cols
      modifies this
      ensures Valid()
      ensures View() == if ComputerTurn(old(gameStarted), opponent, old(View()))
                        then Drop(old(View()), choices[0]) else old(View())
      ensures rows == old(rows) && cols == old(cols)
      ensures opponent == old(opponent) && gameStarted == old(gameStarted)
    {
      if gameStarted && opponent == Computer && currentPlayer == P2 && winner.None? {
        var col := PickColumn(board, rows, cols, choices, true);
        AsWrittenStopsAtFirstDraw(board, choices, col);
        DropPiece(col);
      }
    }

    /** The computer's move with the retry test the source intends: draw
        again while the drawn column's top cell is taken. When some draw
        names a column with room, a token is placed and the turn passes. */
    method ComputerMoveIntended(choices: seq<int>)
      requires Valid() && rows >= 1
      requires |choices| >= 1 && forall k :: 0 <= k < |choices| ==> 0 <= choices[k] < cols
      modifies this
      ensures Valid()
      ensures !ComputerTurn(old(gameStarted), opponent, old(View())) ==> View() == old(View())
      ensures ComputerTurn(old(gameStarted), opponent, old(View())) ==>
                exists col :: StopsAt(old(board), choices, false, col) && View() == Drop(old(View()), col)
      ensures ComputerTurn(old(gameStarted), opponent, old(View())) &&
              (exists k :: 0 <= k < |choices| && old(board)[0][choices[k]] == Empty) ==>
                currentPlayer == P1 && timeLeft == TurnDuration && board != old(board)
      ensures rows == old(rows) && cols == old(cols)
      ensures opponent == old(opponent) && gameStarted == old(gameStarted)
    {
      if gameStarted && opponent == Computer && currentPlayer == P2 && winner.None? {
        var col := PickColumn(board, rows, cols, choices, false);
        if exists k :: 0 <= k < |choices| && board[0][choices[k]] == Empty {
          IntendedStopsWithRoom(board, rows, cols, choices, col);
          DropRejectedIff(View(), col);
        }
        DropPiece(col);
      }
    }

    /** The countdown effect, one step at a time: a tick while the match runs,
        or the turn timeout once the clock has run out. */
    method Tick()
      requires Valid()
      modifies this
      ensures Valid()
      ensures View() == TickStep(old(View()), gameStarted)
      ensures rows == old(rows) && cols == old(cols)
      ensures opponent == old(opponent) && gameStarted == old(gameStarted)
    {
      TickKeepsWellformed(View(), gameStarted);
      if gameStarted && timeLeft > 0 && winner.None? {
        timeLeft := timeLeft - TickMs;
      } else if timeLeft <= 0 {
        currentPlayer := Other(currentPlayer);
        timeLeft := TurnDuration;
      }
    }
  }
}
