/**
 The game-over test of Game2048 (checkGameOver without its dialog), and the
 proof that it is exact: on a board with at least one tile it holds exactly
 when no direction can move anything.
 */
module Terminal {
  import opened Line
  import opened Board

  /** No empty cell. */
  predicate Full(b: Grid)
    requires IsBoard(b)
  {
    forall r, c :: 0 <= r < Size && 0 <= c < Size ==> b[r][c] != 0
  }

  /** At least one cell holds a tile. */
  predicate HasTile(b: Grid)
    requires IsBoard(b)
  {
    exists r, c :: 0 <= r < Size && 0 <= c < Size && b[r][c] != 0
  }

  /** Cell (r, c) equals its right-hand neighbour. */
  predicate RowPair(b: Grid, r: int, c: int)
    requires IsBoard(b) && InRange(r) && 0 <= c < Size - 1
  {
    b[r][c] == b[r][c + 1]
  }

  /** Cell (r, c) equals the cell below it. */
  predicate ColumnPair(b: Grid, r: int, c: int)
    requires IsBoard(b) && 0 <= r < Size - 1 && InRange(c)
  {
    b[r][c] == b[r + 1][c]
  }

  /** Two horizontally or two vertically adjacent cells hold equal values. */
  predicate HasEqualNeighbours(b: Grid)
    requires IsBoard(b)
  {
    || (exists r, c :: 0 <= r < Size && 0 <= c < Size - 1 && RowPair(b, r, c))
    || (exists r, c :: 0 <= r < Size - 1 && 0 <= c < Size && ColumnPair(b, r, c))
  }

  // ---------------------------------------------------------------------
  // The two loops of checkGameOver
  // ---------------------------------------------------------------------

  /** Inner loop of the empty-cell scan: columns j on of row i. */
  function EmptyInRow(b: Grid, i: int, j: int): (found: bool)
    requires IsBoard(b) && InRange(i) && 0 <= j <= Size
    ensures found <==> exists c :: j <= c < Size && b[i][c] == 0
    decreases Size - j
  {
    j < Size && (b[i][j] == 0 || EmptyInRow(b, i, j + 1))
  }

  /** Outer loop of the empty-cell scan: rows i on. */
  function EmptyFrom(b: Grid, i: int): (found: bool)
    requires IsBoard(b) && 0 <= i <= Size
    ensures found <==> exists r, c :: i <= r < Size && 0 <= c < Size && b[r][c] == 0
    decreases Size - i
  {
    if i < Size then
      var here := EmptyInRow(b, i, 0);
      var later := EmptyFrom(b, i + 1);
      assert here ==> exists r, c :: i <= r < Size && 0 <= c < Size && b[r][c] == 0 by {
        if here {
          var c :| 0 <= c < Size && b[i][c] == 0;
          assert b[i][c] == 0;
        }
      }
      here || later
    else
      false
  }

  /** Inner loop of the merge scan for index i, from j on: it compares
      b[i][j] with b[i][j + 1], and b[j][i] with b[j + 1][i]. */
  function PairInLine(b: Grid, i: int, j: int): (found: bool)
    requires IsBoard(b) && InRange(i) && 0 <= j <= Size - 1
    ensures found <==> exists c :: j <= c < Size - 1 && (RowPair(b, i, c) || ColumnPair(b, c, i))
    decreases Size - j
  {
    j < Size - 1 && (RowPair(b, i, j) || ColumnPair(b, j, i) || PairInLine(b, i, j + 1))
  }

  /** Outer loop of the merge scan: indices i on. */
  function PairFrom(b: Grid, i: int): (found: bool)
    requires IsBoard(b) && 0 <= i <= Size
    ensures found <==> exists r, c :: i <= r < Size && 0 <= c < Size - 1 &&
                                      (RowPair(b, r, c) || ColumnPair(b, c, r))
    decreases Size - i
  {
    if i < Size then
      var here := PairInLine(b, i, 0);
      var later := PairFrom(b, i + 1);
      assert here ==> exists r, c :: i <= r < Size && 0 <= c < Size - 1 &&
                                     (RowPair(b, r, c) || ColumnPair(b, c, r)) by {
        if here {
          var c :| 0 <= c < Size - 1 && (RowPair(b, i, c) || ColumnPair(b, c, i));
          assert RowPair(b, i, c) || ColumnPair(b, c, i);
        }
      }
      here || later
    else
      false
  }

  /** checkGameOver: the game is over when no cell is empty and no two
      adjacent cells are equal.  Its second loop reuses i and j for the row
      pairs and the column pairs; on a square board that still visits every
      one of them. */
  function CheckGameOver(b: Grid): (over: bool)
    requires IsBoard(b)
    ensures over <==> Full(b) && !HasEqualNeighbours(b)
  {
    if EmptyFrom(b, 0) then false
    else if PairFrom(b, 0) then false
    else true
  }

  // ---------------------------------------------------------------------
  // Exactness
  // ---------------------------------------------------------------------

  /** Two touching equal tiles on a line of any direction are two equal
      neighbours on the board. */
  lemma LinePairIsNeighbourPair(b: Grid, d: Direction, j: int, i: int)
    requires IsBoard(b) && InRange(j) && PairAt(LineOf(b, d, j), i)
    ensures HasEqualNeighbours(b)
  {
    var l := LineOf(b, d, j);
    match d
    case Left =>
      assert l[i - 1] == b[j][i - 1] && l[i] == b[j][i - 1 + 1];
      assert RowPair(b, j, i - 1);
    case Right =>
      assert l[i] == b[j][Size - 1 - i] && l[i - 1] == b[j][Size - 1 - i + 1];
      assert RowPair(b, j, Size - 1 - i);
    case Up =>
      assert l[i - 1] == b[i - 1][j] && l[i] == b[i - 1 + 1][j];
      assert ColumnPair(b, i - 1, j);
    case Down =>
      assert l[i] == b[Size - 1 - i][j] && l[i - 1] == b[Size - 1 - i + 1][j];
      assert ColumnPair(b, Size - 1 - i, j);
  }

  /** On a full board without equal neighbours a line of any direction is
      stable. */
  lemma OverLineStable(b: Grid, d: Direction, j: int)
    requires IsBoard(b) && InRange(j) && Full(b) && !HasEqualNeighbours(b)
    ensures Stable(LineOf(b, d, j))
  {
    var l := LineOf(b, d, j);
    forall i | 0 <= i < Size ensures l[i] != 0 {
      var p := At(d, j, i);
      assert l[i] == b[p.row][p.col];
    }
    forall i | 0 < i < |l| ensures !PairAt(l, i) {
      if PairAt(l, i) {
        LinePairIsNeighbourPair(b, d, j, i);
      }
    }
  }

  /** On a full board without equal neighbours no move changes anything. */
  lemma GameOverMeansStuck(b: Grid, d: Direction)
    requires IsBoard(b) && CheckGameOver(b)
    ensures !Move(b, d).moved
  {
    MoveChanges(b, d);
    forall j | InRange(j) ensures Stable(LineOf(b, d, j)) {
      OverLineStable(b, d, j);
    }
  }

  /** Stable towards Left and towards Right: a row is all tiles or all empty. */
  lemma RowAllOrNothing(b: Grid, r: int, c: int, c': int)
    requires IsBoard(b) && InRange(r) && InRange(c) && InRange(c')
    requires Stable(LineOf(b, Left, r)) && Stable(LineOf(b, Right, r))
    requires b[r][c] == 0
    ensures b[r][c'] == 0
  {
    var left := LineOf(b, Left, r);
    var right := LineOf(b, Right, r);
    if c < c' {
      assert left[c] == 0;
      assert left[c'] == b[r][c'];
    } else if c' < c {
      assert right[Size - 1 - c] == 0;
      assert right[Size - 1 - c'] == b[r][c'];
    }
  }

  /** Stable towards Up and towards Down: a column is all tiles or all
      empty. */
  lemma ColumnAllOrNothing(b: Grid, c: int, r: int, r': int)
    requires IsBoard(b) && InRange(c) && InRange(r) && InRange(r')
    requires Stable(LineOf(b, Up, c)) && Stable(LineOf(b, Down, c))
    requires b[r][c] == 0
    ensures b[r'][c] == 0
  {
    var up := LineOf(b, Up, c);
    var down := LineOf(b, Down, c);
    if r < r' {
      assert up[r] == 0;
      assert up[r'] == b[r'][c];
    } else if r' < r {
      assert down[Size - 1 - r] == 0;
      assert down[Size - 1 - r'] == b[r'][c];
    }
  }

  /** A direction that moves nothing leaves each of its lines stable. */
  lemma StuckLine(b: Grid, d: Direction, j: int)
    requires IsBoard(b) && InRange(j) && !Move(b, d).moved
    ensures Stable(LineOf(b, d, j))
  {
    MoveChanges(b, d);
  }

  /** A stable row (seen from the left) has no equal tiles side by side. */
  lemma StableRowHasNoPair(b: Grid, r: int, c: int)
    requires IsBoard(b) && InRange(r) && 0 <= c < Size - 1 && b[r][c + 1] != 0
    requires Stable(LineOf(b, Left, r))
    ensures !RowPair(b, r, c)
  {
    var l := LineOf(b, Left, r);
    assert l[c] == b[r][c] && l[c + 1] == b[r][c + 1];
    assert !PairAt(l, c + 1);
  }

  /** A stable column (seen from the top) has no equal tiles one above the
      other. */
  lemma StableColumnHasNoPair(b: Grid, r: int, c: int)
    requires IsBoard(b) && 0 <= r < Size - 1 && InRange(c) && b[r + 1][c] != 0
    requires Stable(LineOf(b, Up, c))
    ensures !ColumnPair(b, r, c)
  {
    var l := LineOf(b, Up, c);
    assert l[r] == b[r][c] && l[r + 1] == b[r + 1][c];
    assert !PairAt(l, r + 1);
  }

  /** A board with a tile on it on which no direction moves anything is
      one checkGameOver declares over. */
  lemma StuckMeansGameOver(b: Grid)
    requires IsBoard(b)
    requires HasTile(b)
    requires forall d :: !Move(b, d).moved
    ensures CheckGameOver(b)
  {
    var r0, c0 :| 0 <= r0 < Size && 0 <= c0 < Size && b[r0][c0] != 0;
    forall r, c | 0 <= r < Size && 0 <= c < Size ensures b[r][c] != 0 {
      if b[r][c] == 0 {
        StuckLine(b, Left, r);
        StuckLine(b, Right, r);
        RowAllOrNothing(b, r, c, c0);
        StuckLine(b, Up, c0);
        StuckLine(b, Down, c0);
        ColumnAllOrNothing(b, c0, r, r0);
      }
    }
    forall r, c | 0 <= r < Size && 0 <= c < Size - 1 ensures !RowPair(b, r, c) {
      StuckLine(b, Left, r);
      StableRowHasNoPair(b, r, c);
    }
    forall r, c | 0 <= r < Size - 1 && 0 <= c < Size ensures !ColumnPair(b, r, c) {
      StuckLine(b, Up, c);
      StableColumnHasNoPair(b, r, c);
    }
  }

  /** On a board with at least one tile the game is over exactly when no
      key can move anything. */
  lemma GameOverExact(b: Grid)
    requires IsBoard(b)
    requires HasTile(b)
    ensures CheckGameOver(b) <==> forall d :: !Move(b, d).moved
  {
    if CheckGameOver(b) {
      forall d ensures !Move(b, d).moved {
        GameOverMeansStuck(b, d);
      }
    }
    if forall d :: !Move(b, d).moved {
      StuckMeansGameOver(b);
    }
  }
}
