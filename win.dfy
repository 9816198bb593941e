/** Win detection: checkForWin scans every cell of the player who just moved
    and, from each, counts the runs of that player's tokens forwards and
    backwards along four directions. Coordinates follow the source: `x` is
    the column, `y` the row. */
module Win {
  import opened Board

  /** A step of -1, 0 or 1 along one axis. */
  type Unit = s: int | -1 <= s <= 1

  /** A direction: `dx` steps columns, `dy` steps rows. */
  datatype Dir = Dir(dx: Unit, dy: Unit)

  /** The source's `dx * i` for a unit step `dx`, written without
      multiplication (StepIsProduct). */
  function Step(s: Unit, i: int): (n: int) {
    if s == 0 then 0 else if s == 1 then i else -i
  }

  lemma StepIsProduct(s: Unit, i: int)
    ensures Step(s, i) == s * i
  {
  }

  /** Vertical, horizontal, and the two diagonals, in the source's order. */
  const Directions: seq<Dir> := [Dir(0, 1), Dir(1, 0), Dir(1, 1), Dir(1, -1)]

  /** Cell (x, y) is on the board and holds a token of `p`. */
  predicate Owns(b: Grid, x: int, y: int, p: Player) {
    0 <= y < |b| && 0 <= x < |b[y]| && b[y][x] == Occupied(p)
  }

  /** The cell `i` steps from (x, y) along `d` (backwards for negative `i`)
      holds a token of `p`. */
  predicate OwnsAt(b: Grid, x: int, y: int, d: Dir, p: Player, i: int) {
    Owns(b, x + Step(d.dx, i), y + Step(d.dy, i), p)
  }

  /** Four consecutive tokens of `p` start at (x, y) and run along `d`. */
  predicate LineAt(b: Grid, x: int, y: int, d: Dir, p: Player) {
    OwnsAt(b, x, y, d, p, 0) && OwnsAt(b, x, y, d, p, 1) &&
    OwnsAt(b, x, y, d, p, 2) && OwnsAt(b, x, y, d, p, 3)
  }

  /** The board holds four or more consecutive tokens of `p` in a row, a
      column or either diagonal. Lines stop at the edges: no wraparound. */
  ghost predicate HasFour(b: Grid, p: Player) {
    exists x, y, i :: 0 <= i < 4 && LineAt(b, x, y, Directions[i], p)
  }

  /** Cell (x, y) is the `k`-th of four consecutive cells along `d` whose
      other three cells all hold tokens of `p`. */
  ghost predicate Window(b: Grid, x: int, y: int, d: Dir, p: Player, k: int) {
    forall j :: -k <= j <= 3 - k && j != 0 ==> OwnsAt(b, x, y, d, p, j)
  }

  /** A maximal forward run of `f` and backward run of `bk` tokens around
      (x, y) reach a total of 4 exactly when (x, y) sits in a window of four. */
  lemma RunsMeetWindow(b: Grid, x: int, y: int, d: Dir, p: Player, f: nat, bk: nat)
    requires forall j :: 1 <= j <= f ==> OwnsAt(b, x, y, d, p, j)
    requires !OwnsAt(b, x, y, d, p, f + 1)
    requires forall j: int :: -(bk as int) <= j <= -1 ==> OwnsAt(b, x, y, d, p, j)
    requires !OwnsAt(b, x, y, d, p, -(bk + 1))
    ensures 1 + f + bk >= 4 <==> exists k :: 0 <= k < 4 && Window(b, x, y, d, p, k)
  {
    if 1 + f + bk >= 4 {
      var k := if bk >= 3 then 3 else bk;
      assert Window(b, x, y, d, p, k);
    }
    if k :| 0 <= k < 4 && Window(b, x, y, d, p, k) {
      assert bk >= k && f >= 3 - k;
    }
  }

  /** The first loop of checkDirection: the number of consecutive tokens of
      `p` forwards from (x, y) along `d`, stopping at the board's edge. */
  method ForwardRun(b: Grid, rows: nat, cols: nat, x: int, y: int, d: Dir, p: Player)
    returns (n: nat)
    requires IsGrid(b, rows, cols)
    requires 0 <= x < cols && 0 <= y < rows
    requires d in Directions
    ensures forall j :: 1 <= j <= n ==> OwnsAt(b, x, y, d, p, j)
    ensures !OwnsAt(b, x, y, d, p, n + 1)
  {
    var dx, dy := d.dx, d.dy;
    var i: int := 1;
    while x + Step(dx, i) >= 0 && x + Step(dx, i) < cols && y + Step(dy, i) >= 0 && y + Step(dy, i) < rows
          && b[y + Step(dy, i)][x + Step(dx, i)] == Occupied(p)
      invariant 1 <= i
      invariant forall j :: 1 <= j < i ==> OwnsAt(b, x, y, d, p, j)
      decreases rows + cols - i
    {
      i := i + 1;
    }
    n := i - 1;
  }

  /** The second loop of checkDirection: the number of consecutive tokens of
      `p` backwards from (x, y) along `d`, stopping at the board's edge. */
  method BackwardRun(b: Grid, rows: nat, cols: nat, x: int, y: int, d: Dir, p: Player)
    returns (n: nat)
    requires IsGrid(b, rows, cols)
    requires 0 <= x < cols && 0 <= y < rows
    requires d in Directions
    ensures forall j: int :: -(n as int) <= j <= -1 ==> OwnsAt(b, x, y, d, p, j)
    ensures !OwnsAt(b, x, y, d, p, -(n + 1))
  {
    var dx, dy := d.dx, d.dy;
    var i: int := 1;
    while x - Step(dx, i) >= 0 && x - Step(dx, i) < cols && y - Step(dy, i) >= 0 && y - Step(dy, i) < rows
          && b[y - Step(dy, i)][x - Step(dx, i)] == Occupied(p)
      invariant 1 <= i
      invariant forall j :: -i < j <= -1 ==> OwnsAt(b, x, y, d, p, j)
      decreases rows + cols - i
    {
      assert x - Step(dx, i) == x + Step(dx, -i) && y - Step(dy, i) == y + Step(dy, -i);
      i := i + 1;
    }
    assert x - Step(dx, i) == x + Step(dx, -i) && y - Step(dy, i) == y + Step(dy, -i);
    n := i - 1;
  }

  /** checkDirection(x, y, dx, dy): count the run of `p` forwards from (x, y),
      then backwards, and report whether 1 + both runs reaches 4. */
  method CheckDirection(b: Grid, rows: nat, cols: nat, x: int, y: int, d: Dir, p: Player)
    returns (win: bool)
    requires IsGrid(b, rows, cols)
    requires 0 <= x < cols && 0 <= y < rows
    requires d in Directions
    ensures win <==> exists k :: 0 <= k < 4 && Window(b, x, y, d, p, k)
  {
    var count := 1;
    var forward := ForwardRun(b, rows, cols, x, y, d, p);
    count := count + forward;
    var backward := BackwardRun(b, rows, cols, x, y, d, p);
    count := count + backward;
    RunsMeetWindow(b, x, y, d, p, forward, backward);
    win := count >= 4;
  }

  /** A window of four around an owned cell is a line starting `k` cells back. */
  lemma WindowGivesLine(b: Grid, x: int, y: int, d: Dir, p: Player, k: int)
    requires Owns(b, x, y, p) && 0 <= k < 4 && Window(b, x, y, d, p, k)
    ensures LineAt(b, x - Step(d.dx, k), y - Step(d.dy, k), d, p)
  {
    var x0, y0 := x - Step(d.dx, k), y - Step(d.dy, k);
    forall j | 0 <= j < 4 ensures OwnsAt(b, x0, y0, d, p, j) {
      assert x0 + Step(d.dx, j) == x + Step(d.dx, j - k) && y0 + Step(d.dy, j) == y + Step(d.dy, j - k);
      if j != k {
        assert OwnsAt(b, x, y, d, p, j - k);
      }
    }
  }

  /** A line starting at (x, y) is a window of four with (x, y) first. */
  lemma LineGivesWindow(b: Grid, x: int, y: int, d: Dir, p: Player)
    requires LineAt(b, x, y, d, p)
    ensures Owns(b, x, y, p) && Window(b, x, y, d, p, 0)
  {
    assert OwnsAt(b, x, y, d, p, 0);
  }

  /** checkForWin: does the board hold a line of four of player `p`, the
      player who just moved? Scans rows top to bottom, cells left to right,
      and stops at the first cell of `p` that completes a direction. */
  method CheckForWin(b: Grid, rows: nat, cols: nat, p: Player) returns (won: bool)
    requires IsGrid(b, rows, cols)
    ensures won <==> HasFour(b, p)
  {
    for y := 0 to rows
      invariant forall yy, xx, i :: 0 <= yy < y && 0 <= i < 4 ==> !LineAt(b, xx, yy, Directions[i], p)
    {
      for x := 0 to cols
        invariant forall yy, xx, i :: (0 <= yy < y || (yy == y && xx < x)) && 0 <= i < 4 ==>
                    !LineAt(b, xx, yy, Directions[i], p)
      {
        if b[y][x] == Occupied(p) {
          for i := 0 to 4
            invariant forall ii :: 0 <= ii < i ==> !LineAt(b, x, y, Directions[ii], p)
          {
            var w := CheckDirection(b, rows, cols, x, y, Directions[i], p);
            if w {
              ghost var k :| 0 <= k < 4 && Window(b, x, y, Directions[i], p, k);
              WindowGivesLine(b, x, y, Directions[i], p, k);
              return true;
            }
            if LineAt(b, x, y, Directions[i], p) {
              LineGivesWindow(b, x, y, Directions[i], p);
            }
          }
        }
      }
    }
    return false;
  }

  /** Two boards on which `q` owns the same cells have the same lines of `q`. */
  lemma SameOwnerSameLine(b: Grid, b': Grid, x: int, y: int, d: Dir, q: Player)
    requires forall x', y' :: Owns(b', x', y', q) == Owns(b, x', y', q)
    ensures LineAt(b', x, y, d, q) == LineAt(b, x, y, d, q)
  {
  }

  /** Placing a token of `p` neither makes nor breaks a line of another player. */
  lemma PlaceKeepsOtherLines(b: Grid, row: int, col: int, p: Player, q: Player)
    requires 0 <= row < |b| && 0 <= col < |b[row]| && b[row][col] == Empty
    requires q != p
    ensures HasFour(Place(b, row, col, p), q) <==> HasFour(b, q)
  {
    var b' := Place(b, row, col, p);
    forall x, y ensures Owns(b', x, y, q) == Owns(b, x, y, q) {
    }
    if HasFour(b', q) {
      var x, y, i :| 0 <= i < 4 && LineAt(b', x, y, Directions[i], q);
      SameOwnerSameLine(b, b', x, y, Directions[i], q);
    }
    if HasFour(b, q) {
      var x, y, i :| 0 <= i < 4 && LineAt(b, x, y, Directions[i], q);
      SameOwnerSameLine(b, b', x, y, Directions[i], q);
    }
  }

  /** The line of four starting at (x, y) along `d` passes through cell
      (col, row), as its `j`-th cell for some j. */
  predicate Through(x: int, y: int, d: Dir, col: int, row: int) {
    exists j :: 0 <= j < 4 && x + Step(d.dx, j) == col && y + Step(d.dy, j) == row
  }

  /** A line of the new board that misses the dropped cell was already a
      line of the old board. */
  lemma LineMissingDropWasThere(b: Grid, row: int, col: int, p: Player, x: int, y: int, d: Dir)
    requires 0 <= row < |b| && 0 <= col < |b[row]|
    requires LineAt(Place(b, row, col, p), x, y, d, p)
    requires !Through(x, y, d, col, row)
    ensures LineAt(b, x, y, d, p)
  {
    var b' := Place(b, row, col, p);
    forall j | 0 <= j < 4 ensures OwnsAt(b, x, y, d, p, j) {
      assert OwnsAt(b', x, y, d, p, j);
    }
  }

  /** The `j`-th cell of a line sits in a window of four at position `j`. */
  lemma LineCellInWindow(b: Grid, x: int, y: int, d: Dir, p: Player, j: int)
    requires LineAt(b, x, y, d, p) && 0 <= j < 4
    ensures Window(b, x + Step(d.dx, j), y + Step(d.dy, j), d, p, j)
  {
    var cx, cy := x + Step(d.dx, j), y + Step(d.dy, j);
    forall m | -j <= m <= 3 - j && m != 0 ensures OwnsAt(b, cx, cy, d, p, m) {
      assert cx + Step(d.dx, m) == x + Step(d.dx, j + m) && cy + Step(d.dy, m) == y + Step(d.dy, j + m);
      assert OwnsAt(b, x, y, d, p, j + m);
    }
  }

  /** A line through cell (col, row) puts that cell in a window of four. */
  lemma LineThroughGivesWindow(b: Grid, x: int, y: int, d: Dir, p: Player, col: int, row: int)
    requires LineAt(b, x, y, d, p) && Through(x, y, d, col, row)
    ensures exists k :: 0 <= k < 4 && Window(b, col, row, d, p, k)
  {
    var j :| 0 <= j < 4 && x + Step(d.dx, j) == col && y + Step(d.dy, j) == row;
    LineCellInWindow(b, x, y, d, p, j);
  }

  /** A line that a drop completes runs through the dropped cell, so checking
      the four directions from that one cell finds it. */
  lemma NewLineThroughDrop(b: Grid, row: int, col: int, p: Player)
    requires 0 <= row < |b| && 0 <= col < |b[row]|
    requires !HasFour(b, p) && HasFour(Place(b, row, col, p), p)
    ensures exists i, k :: 0 <= i < 4 && 0 <= k < 4 && Window(Place(b, row, col, p), col, row, Directions[i], p, k)
  {
    var b' := Place(b, row, col, p);
    var x, y, i :| 0 <= i < 4 && LineAt(b', x, y, Directions[i], p);
    if !Through(x, y, Directions[i], col, row) {
      LineMissingDropWasThere(b, row, col, p, x, y, Directions[i]);
      assert false;
    }
    LineThroughGivesWindow(b', x, y, Directions[i], p, col, row);
  }
}
