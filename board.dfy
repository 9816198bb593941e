/** The grid of a Connect Four match: cells indexed board[row][col], row 0 at
    the top, each cell empty (the source's `null`) or holding player 1 or 2. */
module Board {

  datatype Option<T> = None | Some(value: T)

  /** The two players, `1` and `2` in the source. */
  datatype Player = P1 | P2

  /** The player whose turn comes next (`currentPlayer === 1 ? 2 : 1`). */
  function Other(p: Player): (q: Player)
    ensures q != p
  {
    if p == P1 then P2 else P1
  }

  datatype Cell = Empty | Occupied(owner: Player)

  type Grid = seq<seq<Cell>>

  /** `b` has `rows` rows of `cols` cells each. */
  predicate IsGrid(b: Grid, rows: int, cols: int) {
    |b| == rows && forall r :: 0 <= r < |b| ==> |b[r]| == cols
  }

  /** createBoard: a rows x cols grid of empty cells. */
  function CreateBoard(rows: nat, cols: nat): (b: Grid)
    ensures IsGrid(b, rows, cols)
    ensures forall r, c :: 0 <= r < rows && 0 <= c < cols ==> b[r][c] == Empty
  {
    seq(rows, _ => seq(cols, _ => Empty))
  }

  /** The JavaScript test `board[row][col] === null`: false off the grid,
      where the lookup yields `undefined`. */
  predicate IsNullAt(b: Grid, row: int, col: int) {
    0 <= row < |b| && 0 <= col < |b[row]| && b[row][col] == Empty
  }

  /** The largest row index below `n` whose cell in column `col` is empty. */
  function LowestNullBelow(b: Grid, col: int, n: nat): (r: Option<nat>)
    requires n <= |b|
    ensures r.Some? ==> r.value < n && IsNullAt(b, r.value, col)
    ensures r.Some? ==> forall k :: r.value < k < n ==> !IsNullAt(b, k, col)
    ensures r.None? <==> forall k :: 0 <= k < n ==> !IsNullAt(b, k, col)
    decreases n
  {
    if n == 0 then None
    else if IsNullAt(b, n - 1, col) then Some(n - 1)
    else LowestNullBelow(b, col, n - 1)
  }

  /** Where a token dropped into column `col` comes to rest: the lowest empty
      cell of the column, or None when the column is full or off the grid. */
  function LandingRow(b: Grid, col: int): (r: Option<nat>) {
    LowestNullBelow(b, col, |b|)
  }

  /** The grid with the one cell (row, col) set to player `p`. */
  function Place(b: Grid, row: int, col: int, p: Player): (b': Grid)
    requires 0 <= row < |b| && 0 <= col < |b[row]|
    ensures |b'| == |b| && forall r :: 0 <= r < |b| ==> |b'[r]| == |b[r]|
    ensures forall r, c :: 0 <= r < |b| && 0 <= c < |b[r]| ==>
              b'[r][c] == if r == row && c == col then Occupied(p) else b[r][c]
  {
    b[row := b[row][col := Occupied(p)]]
  }

  /** Gravity: no token has an empty cell directly below it. */
  ghost predicate Settled(b: Grid) {
    forall r, c :: 0 <= r < |b| - 1 && 0 <= c < |b[r]| && b[r][c].Occupied? ==> !IsNullAt(b, r + 1, c)
  }

  /** A row index holding null with no null below it is the landing row. */
  lemma LandingRowIsLowestNull(b: Grid, col: int, row: nat)
    requires IsNullAt(b, row, col)
    requires forall k :: row < k < |b| ==> !IsNullAt(b, k, col)
    ensures LandingRow(b, col) == Some(row)
  {
  }

  lemma CreateBoardSettled(rows: nat, cols: nat)
    ensures Settled(CreateBoard(rows, cols))
  {
  }

  /** Placing a token at its landing row keeps the gravity invariant. */
  lemma PlaceAtLandingKeepsSettled(b: Grid, rows: nat, cols: nat, col: int, p: Player)
    requires IsGrid(b, rows, cols) && Settled(b)
    requires LandingRow(b, col).Some?
    ensures var row := LandingRow(b, col).value;
            Settled(Place(b, row, col, p))
  {
    var row := LandingRow(b, col).value;
    var b': Grid := Place(b, row, col, p);
    forall r: int, c: int | 0 <= r < |b'| - 1 && 0 <= c < |b'[r]| && b'[r][c].Occupied?
      ensures !IsNullAt(b', r + 1, c)
    {
      if r == row && c == col {
        assert !IsNullAt(b, r + 1, c);
      } else {
        assert b[r][c].Occupied?;
      }
    }
  }

  /** Under gravity, a token in a column rests on tokens all the way down. */
  lemma {:induction false} OccupiedBelow(b: Grid, rows: nat, cols: nat, r: nat, k: nat, c: int)
    requires IsGrid(b, rows, cols) && Settled(b)
    requires r <= k < rows && 0 <= c < cols
    requires b[r][c].Occupied?
    ensures b[k][c].Occupied?
    decreases k - r
  {
    if r < k {
      assert !IsNullAt(b, r + 1, c);
      OccupiedBelow(b, rows, cols, r + 1, k, c);
    }
  }

  /** Under gravity a column is full exactly when its top cell is occupied,
      the test the computer's retry loop means to make. */
  lemma ColumnFullIffTopOccupied(b: Grid, rows: nat, cols: nat, col: int)
    requires IsGrid(b, rows, cols) && Settled(b)
    requires rows >= 1 && 0 <= col < cols
    ensures LandingRow(b, col).None? <==> b[0][col].Occupied?
  {
    if b[0][col].Occupied? {
      forall k | 0 <= k < rows ensures !IsNullAt(b, k, col) {
        OccupiedBelow(b, rows, cols, 0, k, col);
      }
    } else {
      assert IsNullAt(b, 0, col);
    }
  }

  /** Under gravity, every cell above the landing row is empty too: the
      column is a stack of tokens grown from the bottom. */
  lemma EmptyAboveLandingRow(b: Grid, rows: nat, cols: nat, col: int, r: nat)
    requires IsGrid(b, rows, cols) && Settled(b)
    requires LandingRow(b, col).Some? && r <= LandingRow(b, col).value
    ensures b[r][col] == Empty
  {
    var row := LandingRow(b, col).value;
    if b[r][col].Occupied? {
      OccupiedBelow(b, rows, cols, r, row, col);
    }
  }
}
