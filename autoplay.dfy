/** The computer opponent's column choice. The source draws
    `Math.floor(Math.random() * cols)` in a do-while loop meant to retry
    while the chosen column is full; the random draws are given here as a
    sequence `choices` of column indexes. */
module Autoplay {
  import opened Board

  /** The JavaScript values the retry test touches. */
  datatype JsValue = JsNull | JsUndefined | JsBool(b: bool) | JsNumber(n: int)

  /** A cell as the source stores it: `null`, `1` or `2`. */
  function CellValue(c: Cell): (v: JsValue) {
    match c
    case Empty => JsNull
    case Occupied(P1) => JsNumber(1)
    case Occupied(P2) => JsNumber(2)
  }

  predicate Truthy(v: JsValue) {
    match v
    case JsNull => false
    case JsUndefined => false
    case JsBool(b) => b
    case JsNumber(n) => n != 0
  }

  /** JavaScript's `!v`: always a boolean. */
  function JsNot(v: JsValue): (r: JsValue)
    ensures r.JsBool? && (r.b <==> !Truthy(v))
  {
    JsBool(!Truthy(v))
  }

  /** The retry test as written, `!board[0][col] === null`: `!` binds
      first, so a boolean is compared with null. */
  predicate RetryAsWritten(b: Grid, col: int)
    requires |b| >= 1 && 0 <= col < |b[0]|
  {
    JsNot(CellValue(b[0][col])) == JsNull
  }

  /** The test the loop means to make, `board[0][col] !== null`: the top cell
      of the column is taken. */
  predicate RetryIntended(b: Grid, col: int)
    requires |b| >= 1 && 0 <= col < |b[0]|
  {
    CellValue(b[0][col]) != JsNull
  }

  /** The retry test as written never holds, whatever the column holds. */
  lemma RetryAsWrittenNeverHolds(b: Grid, col: int)
    requires |b| >= 1 && 0 <= col < |b[0]|
    ensures !RetryAsWritten(b, col)
  {
    var v := JsNot(CellValue(b[0][col]));
    assert v.JsBool?;
  }

  /** The loop's test: as written, or as intended. */
  predicate Retry(b: Grid, col: int, asWritten: bool)
    requires |b| >= 1 && 0 <= col < |b[0]|
  {
    if asWritten then RetryAsWritten(b, col) else RetryIntended(b, col)
  }

  /** `col` is the draw the do-while loop stops at: the first draw that the
      test lets through, or the last draw when there is no other left. */
  ghost predicate StopsAt(b: Grid, choices: seq<int>, asWritten: bool, col: int)
    requires |b| >= 1 && forall k :: 0 <= k < |choices| ==> 0 <= choices[k] < |b[0]|
  {
    exists n :: 0 <= n < |choices| && col == choices[n] &&
      (forall m :: 0 <= m < n ==> Retry(b, choices[m], asWritten)) &&
      (n + 1 < |choices| ==> !Retry(b, col, asWritten))
  }

  /** The do-while loop of the computer's move: draw a column, and draw again
      while the test holds. */
  method PickColumn(b: Grid, rows: nat, cols: nat, choices: seq<int>, asWritten: bool) returns (col: int)
    requires IsGrid(b, rows, cols) && rows >= 1
    requires |choices| >= 1 && forall k :: 0 <= k < |choices| ==> 0 <= choices[k] < cols
    ensures 0 <= col < cols
    ensures StopsAt(b, choices, asWritten, col)
  {
    var n := 0;
    col := choices[0];
    while n + 1 < |choices| && Retry(b, col, asWritten)
      invariant 0 <= n < |choices| && col == choices[n]
      invariant forall m :: 0 <= m < n ==> Retry(b, choices[m], asWritten)
    {
      n := n + 1;
      col := choices[n];
    }
  }

  /** With the test as written the loop stops at the first draw, which may
      name a full column. */
  lemma AsWrittenStopsAtFirstDraw(b: Grid, choices: seq<int>, col: int)
    requires |b| >= 1 && |choices| >= 1 && forall k :: 0 <= k < |choices| ==> 0 <= choices[k] < |b[0]|
    requires StopsAt(b, choices, true, col)
    ensures col == choices[0]
  {
    var n :| 0 <= n < |choices| && col == choices[n] &&
      (forall m :: 0 <= m < n ==> Retry(b, choices[m], true)) &&
      (n + 1 < |choices| ==> !Retry(b, col, true));
    RetryAsWrittenNeverHolds(b, choices[0]);
  }

  /** On a board under gravity, the intended test makes the loop stop at a
      column with room whenever any drawn column has room. */
  lemma IntendedStopsWithRoom(b: Grid, rows: nat, cols: nat, choices: seq<int>, col: int)
    requires IsGrid(b, rows, cols) && Settled(b) && rows >= 1
    requires |choices| >= 1 && forall k :: 0 <= k < |choices| ==> 0 <= choices[k] < cols
    requires StopsAt(b, choices, false, col)
    requires exists k :: 0 <= k < |choices| && b[0][choices[k]] == Empty
    ensures LandingRow(b, col).Some?
  {
    var n :| 0 <= n < |choices| && col == choices[n] &&
      (forall m :: 0 <= m < n ==> Retry(b, choices[m], false)) &&
      (n + 1 < |choices| ==> !Retry(b, col, false));
    var k :| 0 <= k < |choices| && b[0][choices[k]] == Empty;
    assert !Retry(b, choices[k], false);
    assert b[0][col] == Empty;
    ColumnFullIffTopOccupied(b, rows, cols, col);
  }

  /** With the intended test, when every drawn column is full the loop only
      ends because the draws run out: it stops at the last draw, a full
      column. The loop over unbounded random draws would not end. */
  lemma IntendedAllFullStopsAtLast(b: Grid, choices: seq<int>, col: int)
    requires |b| >= 1 && |choices| >= 1 && forall k :: 0 <= k < |choices| ==> 0 <= choices[k] < |b[0]|
    requires forall k :: 0 <= k < |choices| ==> b[0][choices[k]].Occupied?
    requires StopsAt(b, choices, false, col)
    ensures col == choices[|choices| - 1] && b[0][col].Occupied?
  {
    var n :| 0 <= n < |choices| && col == choices[n] &&
      (forall m :: 0 <= m < n ==> Retry(b, choices[m], false)) &&
      (n + 1 < |choices| ==> !Retry(b, col, false));
    assert Retry(b, col, false);
  }

  /** The as-written choice can name a full column while another column has
      room: on a 6 x 7 board with column 0 filled, the draw 0 is kept. */
  lemma AsWrittenKeepsFullColumn()
    ensures var b := FullFirstColumn();
            IsGrid(b, 6, 7) && Settled(b) && !RetryAsWritten(b, 0) &&
            LandingRow(b, 0).None? && LandingRow(b, 1).Some?
  {
    var b := FullFirstColumn();
    forall r | 0 <= r < 6 ensures !IsNullAt(b, r, 0) {
      assert b[r][0].Occupied?;
    }
    assert IsNullAt(b, 5, 1);
    RetryAsWrittenNeverHolds(b, 0);
  }

  /** A 6 x 7 board whose column 0 holds alternating tokens and whose other
      columns are empty. */
  function FullFirstColumn(): (b: Grid)
    ensures IsGrid(b, 6, 7)
  {
    seq(6, r => seq(7, c => if c == 0 then Occupied(if r % 2 == 0 then P1 else P2) else Empty))
  }
}
