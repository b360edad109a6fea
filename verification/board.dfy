/**
 The 4x4 board and the four move methods of Game2048.

 The four Java methods are one in-place loop written four times over
 different coordinates.  Here they are one loop addressed through At(d, j, i):
 the cell at distance i from the wall on line j of a move in direction d.
 For Left and Right the lines are rows, for Up and Down they are columns.
 The loop is the Java loop on the board itself; the lemmas then show that it
 moves every line independently by Line.MoveLine, and derive from that the
 conservation, compaction, change and symmetry properties of a move.
 */
module Board {
  import opened Line

  const Size := 4

  /** Rows of cells; zero is an empty cell. */
  type Grid = seq<seq<int>>

  predicate IsBoard(b: Grid)
  {
    |b| == Size && forall r :: 0 <= r < Size ==> |b[r]| == Size
  }

  datatype Direction = Left | Right | Up | Down

  datatype Pos = Pos(row: int, col: int)

  predicate InRange(i: int) { 0 <= i < Size }

  predicate OnBoard(p: Pos) { InRange(p.row) && InRange(p.col) }

  /** The cell at distance i from the wall on line j of a move towards d. */
  function At(d: Direction, j: int, i: int): (p: Pos)
    requires InRange(j) && InRange(i)
    ensures OnBoard(p)
  {
    match d
    case Left => Pos(j, i)
    case Right => Pos(j, Size - 1 - i)
    case Up => Pos(i, j)
    case Down => Pos(Size - 1 - i, j)
  }

  /** The line and the distance from the wall at which a move towards d
      meets cell p. */
  function Locate(d: Direction, p: Pos): (ji: (int, int))
    requires OnBoard(p)
    ensures InRange(ji.0) && InRange(ji.1)
    ensures At(d, ji.0, ji.1) == p
  {
    match d
    case Left => (p.row, p.col)
    case Right => (p.row, Size - 1 - p.col)
    case Up => (p.col, p.row)
    case Down => (p.col, Size - 1 - p.row)
  }

  /** Distinct line coordinates name distinct cells: every cell lies on
      exactly one line of a direction, at exactly one distance. */
  lemma LocateAt(d: Direction, j: int, i: int)
    requires InRange(j) && InRange(i)
    ensures Locate(d, At(d, j, i)) == (j, i)
  {
  }

  lemma AtInjective(d: Direction, j: int, i: int, j': int, i': int)
    requires InRange(j) && InRange(i) && InRange(j') && InRange(i')
    ensures At(d, j, i) == At(d, j', i') <==> j == j' && i == i'
  {
  }

  function Get(b: Grid, p: Pos): int
    requires IsBoard(b) && OnBoard(p)
  {
    b[p.row][p.col]
  }

  /** The board with cell p holding v. */
  function Set(b: Grid, p: Pos, v: int): (r: Grid)
    requires IsBoard(b) && OnBoard(p)
    ensures IsBoard(r)
  {
    b[p.row := b[p.row][p.col := v]]
  }

  /** Set writes cell p and no other cell. */
  lemma SetCells(b: Grid, p: Pos, v: int)
    requires IsBoard(b) && OnBoard(p)
    ensures forall q :: OnBoard(q) ==> Get(Set(b, p, v), q) == if q == p then v else Get(b, q)
  {
  }

  /** Reading one cell after writing another. */
  lemma SetGet(b: Grid, p: Pos, v: int, q: Pos)
    requires IsBoard(b) && OnBoard(p) && OnBoard(q)
    ensures Get(Set(b, p, v), q) == if q == p then v else Get(b, q)
  {
  }

  /** Line j of a move towards d, read from the wall outward. */
  function LineOf(b: Grid, d: Direction, j: int): (l: seq<int>)
    requires IsBoard(b) && InRange(j)
    ensures |l| == Size
    ensures forall i :: 0 <= i < Size ==> l[i] == Get(b, At(d, j, i))
  {
    seq(Size, i requires 0 <= i < Size => Get(b, At(d, j, i)))
  }

  /** All lines of a move towards d. */
  function LinesOf(b: Grid, d: Direction): (ls: seq<seq<int>>)
    requires IsBoard(b)
    ensures |ls| == Size
    ensures forall j :: 0 <= j < Size ==> ls[j] == LineOf(b, d, j)
  {
    seq(Size, j requires 0 <= j < Size => LineOf(b, d, j))
  }

  // ---------------------------------------------------------------------
  // The move loop on the board
  // ---------------------------------------------------------------------

  datatype BoardSlid = BoardSlid(board: Grid, stop: nat)

  /** Result of a move: the board afterwards, the points scored, and the
      value the Java method returns. */
  datatype BoardMove = BoardMove(board: Grid, gain: int, moved: bool)

  /** The inner while loop: the tile at distance i steps towards the wall
      while the cell in front of it is empty. */
  function SlideCell(b: Grid, d: Direction, j: int, i: int): (r: BoardSlid)
    requires IsBoard(b) && InRange(j) && InRange(i)
    ensures IsBoard(r.board) && r.stop <= i
    ensures r.stop == i ==> r.board == b
    ensures Get(r.board, At(d, j, r.stop)) == Get(b, At(d, j, i))
    ensures r.stop == 0 || Get(r.board, At(d, j, r.stop - 1)) != 0
    decreases i
  {
    if i > 0 && Get(b, At(d, j, i - 1)) == 0 then
      var once := Set(b, At(d, j, i - 1), Get(b, At(d, j, i)));
      var next := Set(once, At(d, j, i), 0);
      AtInjective(d, j, i - 1, j, i);
      SetGet(b, At(d, j, i - 1), Get(b, At(d, j, i)), At(d, j, i - 1));
      SetGet(once, At(d, j, i), 0, At(d, j, i - 1));
      SlideCell(next, d, j, i - 1)
    else
      BoardSlid(b, i)
  }

  /** The body of the loop over one line, for the cell at distance i. */
  function VisitCell(b: Grid, d: Direction, j: int, i: int): (r: BoardMove)
    requires IsBoard(b) && InRange(j) && 0 < i < Size
    ensures IsBoard(r.board)
    ensures !r.moved ==> r.board == b && r.gain == 0
  {
    if Get(b, At(d, j, i)) == 0 then BoardMove(b, 0, false)
    else
      var s := SlideCell(b, d, j, i);
      var k := s.stop;
      if k > 0 && Get(s.board, At(d, j, k - 1)) == Get(s.board, At(d, j, k)) then
        var merged := 2 * Get(s.board, At(d, j, k - 1));
        var doubled := Set(s.board, At(d, j, k - 1), merged);
        BoardMove(Set(doubled, At(d, j, k), 0), merged, true)
      else
        BoardMove(s.board, 0, k < i)
  }

  /** The loop over line j from distance i outward. */
  function ScanCells(b: Grid, d: Direction, j: int, i: int): (r: BoardMove)
    requires IsBoard(b) && InRange(j) && 0 < i
    ensures IsBoard(r.board)
    ensures !r.moved ==> r.board == b && r.gain == 0
    decreases Size - i
  {
    if i >= Size then BoardMove(b, 0, false)
    else
      var v := VisitCell(b, d, j, i);
      var rest := ScanCells(v.board, d, j, i + 1);
      BoardMove(rest.board, v.gain + rest.gain, v.moved || rest.moved)
  }

  /** The loop over the lines from line j on. */
  function ScanLines(b: Grid, d: Direction, j: int): (r: BoardMove)
    requires IsBoard(b) && 0 <= j
    ensures IsBoard(r.board)
    ensures !r.moved ==> r.board == b && r.gain == 0
    decreases Size - j
  {
    if j >= Size then BoardMove(b, 0, false)
    else
      var s := ScanCells(b, d, j, 1);
      var rest := ScanLines(s.board, d, j + 1);
      BoardMove(rest.board, s.gain + rest.gain, s.moved || rest.moved)
  }

  /** moveLeft, moveRight, moveUp and moveDown.  A move that returns false
      leaves the board as it was and scores nothing. */
  function Move(b: Grid, d: Direction): (r: BoardMove)
    requires IsBoard(b)
    ensures IsBoard(r.board)
    ensures !r.moved ==> r.board == b && r.gain == 0
  {
    ScanLines(b, d, 0)
  }

  // ---------------------------------------------------------------------
  // A move, line by line
  // ---------------------------------------------------------------------

  /** Every line moved on its own. */
  function MovedLines(ls: seq<seq<int>>): (r: seq<seq<int>>)
    ensures |r| == |ls|
    ensures forall k :: 0 <= k < |ls| ==> r[k] == MoveLine(ls[k]).line
  {
    seq(|ls|, k requires 0 <= k < |ls| => MoveLine(ls[k]).line)
  }

  /** Points scored by moving every line on its own. */
  function GainOf(ls: seq<seq<int>>): int
    decreases |ls|
  {
    if |ls| == 0 then 0 else MoveLine(ls[0]).gain + GainOf(ls[1..])
  }

  predicate AnyMoved(ls: seq<seq<int>>)
  {
    exists k :: 0 <= k < |ls| && MoveLine(ls[k]).moved
  }

  /** Writing a cell of line j changes that one entry of line j and no other
      line. */
  lemma SetOnLine(b: Grid, d: Direction, j: int, i: int, v: int)
    requires IsBoard(b) && InRange(j) && InRange(i)
    ensures LinesOf(Set(b, At(d, j, i), v), d) == LinesOf(b, d)[j := LineOf(b, d, j)[i := v]]
  {
    var want := LinesOf(b, d)[j := LineOf(b, d, j)[i := v]];
    forall j' | 0 <= j' < Size ensures LineOf(Set(b, At(d, j, i), v), d, j') == want[j'] {
      if j' == j {
        SetOnSameLine(b, d, j, i, v);
      } else {
        SetOffLine(b, d, j, i, v, j');
      }
    }
  }

  /** Writing a cell of line j changes that one entry of line j. */
  lemma SetOnSameLine(b: Grid, d: Direction, j: int, i: int, v: int)
    requires IsBoard(b) && InRange(j) && InRange(i)
    ensures LineOf(Set(b, At(d, j, i), v), d, j) == LineOf(b, d, j)[i := v]
  {
    var x := LineOf(Set(b, At(d, j, i), v), d, j);
    var y := LineOf(b, d, j)[i := v];
    forall i' | 0 <= i' < Size ensures x[i'] == y[i'] {
      SetGet(b, At(d, j, i), v, At(d, j, i'));
      AtInjective(d, j, i, j, i');
    }
  }

  /** Writing a cell of line j leaves every other line alone. */
  lemma SetOffLine(b: Grid, d: Direction, j: int, i: int, v: int, j': int)
    requires IsBoard(b) && InRange(j) && InRange(i) && InRange(j') && j' != j
    ensures LineOf(Set(b, At(d, j, i), v), d, j') == LineOf(b, d, j')
  {
    var x := LineOf(Set(b, At(d, j, i), v), d, j');
    var y := LineOf(b, d, j');
    forall i' | 0 <= i' < Size ensures x[i'] == y[i'] {
      SetGet(b, At(d, j, i), v, At(d, j', i'));
      AtInjective(d, j, i, j', i');
    }
  }

  /** Replacing line j twice keeps only the second replacement. */
  lemma UpdateTwice(ls: seq<seq<int>>, j: int, a: seq<int>, c: seq<int>)
    requires 0 <= j < |ls|
    ensures ls[j := a][j := c] == ls[j := c]
  {
  }

  /** Replacing line j by itself changes nothing. */
  lemma UpdateSame(ls: seq<seq<int>>, j: int)
    requires 0 <= j < |ls|
    ensures ls[j := ls[j]] == ls
  {
  }

  /** Line j read off the lines of a board. */
  lemma LineOfLines(b: Grid, d: Direction, j: int, ls: seq<seq<int>>)
    requires IsBoard(b) && InRange(j) && LinesOf(b, d) == ls
    ensures LineOf(b, d, j) == ls[j]
  {
  }

  /** One step of the inner while loop, read on line j. */
  lemma SlideStepByLine(b: Grid, d: Direction, j: int, i: int)
    requires IsBoard(b) && InRange(j) && 0 < i < Size
    ensures var l := LineOf(b, d, j);
            var once := Set(b, At(d, j, i - 1), Get(b, At(d, j, i)));
            LinesOf(Set(once, At(d, j, i), 0), d) == LinesOf(b, d)[j := l[i - 1 := l[i]][i := 0]]
  {
    var l := LineOf(b, d, j);
    var ls := LinesOf(b, d);
    var once := Set(b, At(d, j, i - 1), Get(b, At(d, j, i)));
    SetOnLine(b, d, j, i - 1, Get(b, At(d, j, i)));
    LineOfLines(once, d, j, ls[j := l[i - 1 := l[i]]]);
    SetOnLine(once, d, j, i, 0);
    UpdateTwice(ls, j, l[i - 1 := l[i]], l[i - 1 := l[i]][i := 0]);
  }

  /** The inner while loop on the board slides line j as Slide slides l. */
  lemma {:induction false} SlideCellOnLine(b: Grid, d: Direction, j: int, i: int, l: seq<int>)
    requires IsBoard(b) && InRange(j) && InRange(i) && LineOf(b, d, j) == l
    ensures SlideCell(b, d, j, i).stop == Slide(l, i).stop
    ensures LinesOf(SlideCell(b, d, j, i).board, d) == LinesOf(b, d)[j := Slide(l, i).line]
    decreases i
  {
    var ls := LinesOf(b, d);
    if i > 0 && Get(b, At(d, j, i - 1)) == 0 {
      var next := Set(Set(b, At(d, j, i - 1), Get(b, At(d, j, i))), At(d, j, i), 0);
      var l' := l[i - 1 := l[i]][i := 0];
      SlideStepByLine(b, d, j, i);
      LineOfLines(next, d, j, ls[j := l']);
      SlideCellOnLine(next, d, j, i - 1, l');
      UpdateTwice(ls, j, l', Slide(l', i - 1).line);
    } else {
      UpdateSame(ls, j);
    }
  }

  lemma VisitMergeByLine(b: Grid, d: Direction, j: int, k: int)
    requires IsBoard(b) && InRange(j) && 0 < k < Size
    ensures var doubled := Set(b, At(d, j, k - 1), 2 * Get(b, At(d, j, k - 1)));
            var l := LineOf(b, d, j);
            LinesOf(Set(doubled, At(d, j, k), 0), d) ==
            LinesOf(b, d)[j := l[k - 1 := 2 * l[k - 1]][k := 0]]
  {
    var l := LineOf(b, d, j);
    var ls := LinesOf(b, d);
    var doubled := Set(b, At(d, j, k - 1), 2 * Get(b, At(d, j, k - 1)));
    SetOnLine(b, d, j, k - 1, 2 * Get(b, At(d, j, k - 1)));
    LineOfLines(doubled, d, j, ls[j := l[k - 1 := 2 * l[k - 1]]]);
    SetOnLine(doubled, d, j, k, 0);
    UpdateTwice(ls, j, l[k - 1 := 2 * l[k - 1]], l[k - 1 := 2 * l[k - 1]][k := 0]);
  }

  /** The merge step of a visit, read on line j. */
  lemma MergeOnLine(b: Grid, d: Direction, j: int, i: int, l: seq<int>)
    requires IsBoard(b) && InRange(j) && 0 < i < Size && LineOf(b, d, j) == l
    requires Get(b, At(d, j, i)) != 0
    requires var s := SlideCell(b, d, j, i);
             s.stop > 0 && Get(s.board, At(d, j, s.stop - 1)) == Get(s.board, At(d, j, s.stop))
    ensures LinesOf(VisitCell(b, d, j, i).board, d) == LinesOf(b, d)[j := Visit(l, i).line]
    ensures VisitCell(b, d, j, i).gain == Visit(l, i).gain
    ensures VisitCell(b, d, j, i).moved == Visit(l, i).moved
  {
    var ls := LinesOf(b, d);
    var s := SlideCell(b, d, j, i);
    var t := Slide(l, i);
    var k := s.stop;
    SlideCellOnLine(b, d, j, i, l);
    LineOfLines(s.board, d, j, ls[j := t.line]);
    var after := t.line[k - 1 := 2 * t.line[k - 1]][k := 0];
    VisitMergeByLine(s.board, d, j, k);
    UpdateTwice(ls, j, t.line, after);
    VisitMerges(l, i);
  }

  /** A visit that only slides, read on line j. */
  lemma SlideOnlyOnLine(b: Grid, d: Direction, j: int, i: int, l: seq<int>)
    requires IsBoard(b) && InRange(j) && 0 < i < Size && LineOf(b, d, j) == l
    requires Get(b, At(d, j, i)) != 0
    requires var s := SlideCell(b, d, j, i);
             !(s.stop > 0 && Get(s.board, At(d, j, s.stop - 1)) == Get(s.board, At(d, j, s.stop)))
    ensures LinesOf(VisitCell(b, d, j, i).board, d) == LinesOf(b, d)[j := Visit(l, i).line]
    ensures VisitCell(b, d, j, i).gain == Visit(l, i).gain
    ensures VisitCell(b, d, j, i).moved == Visit(l, i).moved
  {
    var s := SlideCell(b, d, j, i);
    var t := Slide(l, i);
    SlideCellOnLine(b, d, j, i, l);
    LineOfLines(s.board, d, j, LinesOf(b, d)[j := t.line]);
    VisitSlidesOnly(l, i);
  }

  /** A visit of an empty cell, read on line j. */
  lemma EmptyCellOnLine(b: Grid, d: Direction, j: int, i: int, l: seq<int>)
    requires IsBoard(b) && InRange(j) && 0 < i < Size && LineOf(b, d, j) == l
    requires Get(b, At(d, j, i)) == 0
    ensures LinesOf(VisitCell(b, d, j, i).board, d) == LinesOf(b, d)[j := Visit(l, i).line]
    ensures VisitCell(b, d, j, i).gain == Visit(l, i).gain
    ensures VisitCell(b, d, j, i).moved == Visit(l, i).moved
  {
    assert l[i] == 0;
    UpdateSame(LinesOf(b, d), j);
  }

  /** The body of the loop over line j, read on line j. */
  lemma VisitCellOnLine(b: Grid, d: Direction, j: int, i: int, l: seq<int>)
    requires IsBoard(b) && InRange(j) && 0 < i < Size && LineOf(b, d, j) == l
    ensures LinesOf(VisitCell(b, d, j, i).board, d) == LinesOf(b, d)[j := Visit(l, i).line]
    ensures VisitCell(b, d, j, i).gain == Visit(l, i).gain
    ensures VisitCell(b, d, j, i).moved == Visit(l, i).moved
  {
    if Get(b, At(d, j, i)) == 0 {
      EmptyCellOnLine(b, d, j, i, l);
    } else {
      var s := SlideCell(b, d, j, i);
      if s.stop > 0 && Get(s.board, At(d, j, s.stop - 1)) == Get(s.board, At(d, j, s.stop)) {
        MergeOnLine(b, d, j, i, l);
      } else {
        SlideOnlyOnLine(b, d, j, i, l);
      }
    }
  }

  /** The loop over line j of a board with lines ls moves line j by
      MoveLine and no other line. */
  lemma ScanCellsOnLines(b: Grid, d: Direction, j: int, ls: seq<seq<int>>)
    requires IsBoard(b) && InRange(j) && LinesOf(b, d) == ls
    ensures LinesOf(ScanCells(b, d, j, 1).board, d) == ls[j := MoveLine(ls[j]).line]
    ensures ScanCells(b, d, j, 1).gain == MoveLine(ls[j]).gain
    ensures ScanCells(b, d, j, 1).moved == MoveLine(ls[j]).moved
  {
    LineOfLines(b, d, j, ls);
    ScanCellsBoardOnLine(b, d, j, 1, ls[j], ls);
    ScanCellsGainOnLine(b, d, j, 1, ls[j]);
    ScanCellsMovedOnLine(b, d, j, 1, ls[j]);
  }

  /** The loop over line j on the board leaves line j as Scan leaves l. */
  lemma {:induction false} ScanCellsBoardOnLine(b: Grid, d: Direction, j: int, i: int, l: seq<int>, ls: seq<seq<int>>)
    requires IsBoard(b) && InRange(j) && 0 < i && LineOf(b, d, j) == l && LinesOf(b, d) == ls
    ensures LinesOf(ScanCells(b, d, j, i).board, d) == ls[j := Scan(l, i).line]
    decreases Size - i
  {
    if i < Size {
      var v := VisitCell(b, d, j, i);
      var w := Visit(l, i).line;
      VisitCellOnLine(b, d, j, i, l);
      LineOfLines(v.board, d, j, ls[j := w]);
      ScanCellsBoardOnLine(v.board, d, j, i + 1, w, ls[j := w]);
      UpdateTwice(ls, j, w, Scan(w, i + 1).line);
    } else {
      UpdateSame(ls, j);
    }
  }

  /** ... and scores what Scan scores on l. */
  lemma {:induction false} ScanCellsGainOnLine(b: Grid, d: Direction, j: int, i: int, l: seq<int>)
    requires IsBoard(b) && InRange(j) && 0 < i && LineOf(b, d, j) == l
    ensures ScanCells(b, d, j, i).gain == Scan(l, i).gain
    decreases Size - i
  {
    if i < Size {
      var v := VisitCell(b, d, j, i);
      var w := Visit(l, i);
      VisitCellOnLine(b, d, j, i, l);
      LineOfLines(v.board, d, j, LinesOf(b, d)[j := w.line]);
      ScanCellsGainOnLine(v.board, d, j, i + 1, w.line);
    }
  }

  /** ... and returns what Scan returns on l. */
  lemma {:induction false} ScanCellsMovedOnLine(b: Grid, d: Direction, j: int, i: int, l: seq<int>)
    requires IsBoard(b) && InRange(j) && 0 < i && LineOf(b, d, j) == l
    ensures ScanCells(b, d, j, i).moved == Scan(l, i).moved
    decreases Size - i
  {
    if i < Size {
      var v := VisitCell(b, d, j, i);
      var w := Visit(l, i);
      VisitCellOnLine(b, d, j, i, l);
      LineOfLines(v.board, d, j, LinesOf(b, d)[j := w.line]);
      ScanCellsMovedOnLine(v.board, d, j, i + 1, w.line);
    }
  }

  lemma AnyMovedSplit(ls: seq<seq<int>>)
    requires |ls| > 0
    ensures AnyMoved(ls) == (MoveLine(ls[0]).moved || AnyMoved(ls[1..]))
  {
    if AnyMoved(ls) && !MoveLine(ls[0]).moved {
      var k :| 0 <= k < |ls| && MoveLine(ls[k]).moved;
      assert ls[k] == ls[1..][k - 1];
    }
    if AnyMoved(ls[1..]) {
      var k :| 0 <= k < |ls[1..]| && MoveLine(ls[1..][k]).moved;
      assert ls[1..][k] == ls[k + 1];
    }
  }

  /** Moving line j of ls and then the lines after it, against moving the
      lines from j on. */
  lemma MovedLinesStep(ls: seq<seq<int>>, ls': seq<seq<int>>, j: int)
    requires 0 <= j < |ls| == |ls'|
    requires ls' == ls[j := MoveLine(ls[j]).line]
    ensures ls'[..j + 1] + MovedLines(ls'[j + 1..]) == ls[..j] + MovedLines(ls[j..])
  {
    assert ls'[j + 1..] == ls[j + 1..];
    var lhs := ls'[..j + 1] + MovedLines(ls'[j + 1..]);
    var rhs := ls[..j] + MovedLines(ls[j..]);
    forall k | 0 <= k < |ls| ensures lhs[k] == rhs[k] {
      if k > j {
        assert lhs[k] == MovedLines(ls[j + 1..])[k - j - 1];
      }
    }
  }

  /** The loop over the lines from j on, against moving the lines ls of
      the board from j on. */
  lemma {:induction false} ScanLinesBoard(b: Grid, d: Direction, j: int, ls: seq<seq<int>>)
    requires IsBoard(b) && 0 <= j <= Size && LinesOf(b, d) == ls
    ensures LinesOf(ScanLines(b, d, j).board, d) == ls[..j] + MovedLines(ls[j..])
    decreases Size - j
  {
    if j < Size {
      var s := ScanCells(b, d, j, 1);
      var ls' := ls[j := MoveLine(ls[j]).line];
      ScanCellsOnLines(b, d, j, ls);
      ScanLinesBoard(s.board, d, j + 1, ls');
      MovedLinesStep(ls, ls', j);
    } else {
      assert ls[..j] + MovedLines(ls[j..]) == ls;
    }
  }

  lemma GainOfFrom(ls: seq<seq<int>>, j: int)
    requires 0 <= j < |ls|
    ensures GainOf(ls[j..]) == MoveLine(ls[j]).gain + GainOf(ls[j + 1..])
  {
    assert ls[j..][1..] == ls[j + 1..];
  }

  lemma {:induction false} ScanLinesGain(b: Grid, d: Direction, j: int, ls: seq<seq<int>>)
    requires IsBoard(b) && 0 <= j <= Size && LinesOf(b, d) == ls
    ensures ScanLines(b, d, j).gain == GainOf(ls[j..])
    decreases Size - j
  {
    if j < Size {
      var s := ScanCells(b, d, j, 1);
      ScanCellsOnLines(b, d, j, ls);
      ScanLinesGain(s.board, d, j + 1, ls[j := MoveLine(ls[j]).line]);
      ScanLinesGainStep(b, d, j, ls);
    }
  }

  /** The step of ScanLinesGain, given the claim for the lines after j. */
  lemma ScanLinesGainStep(b: Grid, d: Direction, j: int, ls: seq<seq<int>>)
    requires IsBoard(b) && InRange(j) && LinesOf(b, d) == ls
    requires ScanCells(b, d, j, 1).gain == MoveLine(ls[j]).gain
    requires ScanLines(ScanCells(b, d, j, 1).board, d, j + 1).gain == GainOf(ls[j := MoveLine(ls[j]).line][j + 1..])
    ensures ScanLines(b, d, j).gain == GainOf(ls[j..])
  {
    UpdateTail(ls, j, MoveLine(ls[j]).line);
    GainOfFrom(ls, j);
  }

  /** Line j replaced, the lines after it untouched. */
  lemma UpdateTail(ls: seq<seq<int>>, j: int, a: seq<int>)
    requires 0 <= j < |ls|
    ensures ls[j := a][j + 1..] == ls[j + 1..]
  {
  }

  lemma SliceStep(ls: seq<seq<int>>, j: int)
    requires 0 <= j < |ls|
    ensures ls[j..][1..] == ls[j + 1..] && ls[j..][0] == ls[j]
  {
  }

  lemma {:induction false} ScanLinesMoved(b: Grid, d: Direction, j: int, ls: seq<seq<int>>)
    requires IsBoard(b) && 0 <= j <= Size && LinesOf(b, d) == ls
    ensures ScanLines(b, d, j).moved == AnyMoved(ls[j..])
    decreases Size - j
  {
    if j < Size {
      var s := ScanCells(b, d, j, 1);
      var ls' := ls[j := MoveLine(ls[j]).line];
      ScanCellsOnLines(b, d, j, ls);
      ScanLinesMoved(s.board, d, j + 1, ls');
      UpdateTail(ls, j, MoveLine(ls[j]).line);
      SliceStep(ls, j);
      AnyMovedSplit(ls[j..]);
    }
  }

  /** Moving the lines from the first one on is moving all of them. */
  lemma WholeFromZero(ls: seq<seq<int>>)
    ensures ls[0..] == ls
    ensures ls[..0] + MovedLines(ls[0..]) == MovedLines(ls)
  {
    assert ls[0..] == ls;
  }

  /** The move loop moves every line of the board by the one-line pass,
      independently: each line of the result depends only on the same line
      of the input, the points are the sum over the lines, and the method
      returns true exactly when some line moved. */
  lemma MoveByLines(b: Grid, d: Direction)
    requires IsBoard(b)
    ensures IsBoard(Move(b, d).board)
    ensures LinesOf(Move(b, d).board, d) == MovedLines(LinesOf(b, d))
    ensures Move(b, d).gain == GainOf(LinesOf(b, d))
    ensures Move(b, d).moved == AnyMoved(LinesOf(b, d))
  {
    MoveBoardByLines(b, d);
    MoveGainByLines(b, d);
    MoveMovedByLines(b, d);
  }

  lemma MoveBoardByLines(b: Grid, d: Direction)
    requires IsBoard(b)
    ensures LinesOf(Move(b, d).board, d) == MovedLines(LinesOf(b, d))
  {
    ScanLinesBoard(b, d, 0, LinesOf(b, d));
    WholeFromZero(LinesOf(b, d));
  }

  lemma MoveGainByLines(b: Grid, d: Direction)
    requires IsBoard(b)
    ensures Move(b, d).gain == GainOf(LinesOf(b, d))
  {
    ScanLinesGain(b, d, 0, LinesOf(b, d));
    WholeFromZero(LinesOf(b, d));
  }

  lemma MoveMovedByLines(b: Grid, d: Direction)
    requires IsBoard(b)
    ensures Move(b, d).moved == AnyMoved(LinesOf(b, d))
  {
    ScanLinesMoved(b, d, 0, LinesOf(b, d));
    WholeFromZero(LinesOf(b, d));
  }

  /** A board is determined by its lines in any one direction. */
  lemma LinesDetermineBoard(b1: Grid, b2: Grid, d: Direction)
    requires IsBoard(b1) && IsBoard(b2)
    requires LinesOf(b1, d) == LinesOf(b2, d)
    ensures b1 == b2
  {
    forall r, c | InRange(r) && InRange(c)
      ensures b1[r][c] == b2[r][c]
    {
      var ji := Locate(d, Pos(r, c));
      assert LinesOf(b1, d)[ji.0][ji.1] == LinesOf(b2, d)[ji.0][ji.1];
    }
    forall r | InRange(r) ensures b1[r] == b2[r] {
      assert forall c :: InRange(c) ==> b1[r][c] == b2[r][c];
    }
  }

  // ---------------------------------------------------------------------
  // Totals over the board
  // ---------------------------------------------------------------------

  /** f summed over every cell of every line in ls. */
  function TotalOver(f: int -> int, ls: seq<seq<int>>): int
    decreases |ls|
  {
    if |ls| == 0 then 0 else Total(f, ls[0]) + TotalOver(f, ls[1..])
  }

  lemma TotalFrom(f: int -> int, l: seq<int>, i: int)
    requires 0 <= i < |l|
    ensures Total(f, l[i..]) == f(l[i]) + Total(f, l[i + 1..])
  {
    assert l[i..][1..] == l[i + 1..];
  }

  lemma Total4(f: int -> int, l: seq<int>)
    requires |l| == 4
    ensures Total(f, l) == f(l[0]) + f(l[1]) + f(l[2]) + f(l[3])
  {
    TotalFrom(f, l, 0);
    TotalFrom(f, l, 1);
    TotalFrom(f, l, 2);
    TotalFrom(f, l, 3);
    assert l[0..] == l;
  }

  lemma TotalOverFrom(f: int -> int, ls: seq<seq<int>>, i: int)
    requires 0 <= i < |ls|
    ensures TotalOver(f, ls[i..]) == Total(f, ls[i]) + TotalOver(f, ls[i + 1..])
  {
    assert ls[i..][1..] == ls[i + 1..];
  }

  lemma TotalOver4(f: int -> int, ls: seq<seq<int>>)
    requires |ls| == 4
    ensures TotalOver(f, ls) == Total(f, ls[0]) + Total(f, ls[1]) + Total(f, ls[2]) + Total(f, ls[3])
  {
    TotalOverFrom(f, ls, 0);
    TotalOverFrom(f, ls, 1);
    TotalOverFrom(f, ls, 2);
    TotalOverFrom(f, ls, 3);
    assert ls[0..] == ls;
  }

  /** Changing one cell changes a board total by the difference of the two
      values. */
  lemma {:induction false} TotalOverUpdate(f: int -> int, ls: seq<seq<int>>, r: int, c: int, v: int)
    requires 0 <= r < |ls| && 0 <= c < |ls[r]|
    ensures TotalOver(f, ls[r := ls[r][c := v]]) == TotalOver(f, ls) - f(ls[r][c]) + f(v)
    decreases |ls|
  {
    var ls' := ls[r := ls[r][c := v]];
    if r == 0 {
      assert ls'[1..] == ls[1..];
      TotalUpdate(f, ls[0], c, v);
    } else {
      assert ls'[1..] == ls[1..][r - 1 := ls[1..][r - 1][c := v]];
      TotalOverUpdate(f, ls[1..], r - 1, c, v);
    }
  }

  /** The same, through Set. */
  lemma SetTotal(f: int -> int, b: Grid, p: Pos, v: int)
    requires IsBoard(b) && OnBoard(p)
    ensures TotalOver(f, Set(b, p, v)) == TotalOver(f, b) - f(Get(b, p)) + f(v)
  {
    TotalOverUpdate(f, b, p.row, p.col, v);
  }

  /** Summing a board line by line, in any direction, sums every cell once. */
  lemma TotalByLines(f: int -> int, b: Grid, d: Direction)
    requires IsBoard(b)
    ensures TotalOver(f, LinesOf(b, d)) == TotalOver(f, b)
  {
    var ls := LinesOf(b, d);
    TotalOver4(f, b);
    TotalOver4(f, ls);
    Total4(f, b[0]); Total4(f, b[1]); Total4(f, b[2]); Total4(f, b[3]);
    Total4(f, ls[0]); Total4(f, ls[1]); Total4(f, ls[2]); Total4(f, ls[3]);
  }

  lemma {:induction false} MovedLinesSum(ls: seq<seq<int>>)
    ensures TotalOver(Id, MovedLines(ls)) == TotalOver(Id, ls)
    decreases |ls|
  {
    if |ls| > 0 {
      ScanKeepsSum(ls[0], 1);
      assert MovedLines(ls)[1..] == MovedLines(ls[1..]);
      MovedLinesSum(ls[1..]);
    }
  }

  lemma {:induction false} MovedLinesCount(ls: seq<seq<int>>)
    ensures TotalOver(NonZero, MovedLines(ls)) <= TotalOver(NonZero, ls)
    decreases |ls|
  {
    if |ls| > 0 {
      ScanCount(ls[0], 1);
      assert MovedLines(ls)[1..] == MovedLines(ls[1..]);
      MovedLinesCount(ls[1..]);
    }
  }

  lemma {:induction false} MovedLinesWorth(ls: seq<seq<int>>)
    requires forall k :: 0 <= k < |ls| ==> NonNegative(ls[k])
    ensures GainOf(ls) >= 0
    ensures TotalOver(Worth, MovedLines(ls)) == TotalOver(Worth, ls) + GainOf(ls)
    decreases |ls|
  {
    if |ls| > 0 {
      ScanWorth(ls[0], 1);
      assert MovedLines(ls)[1..] == MovedLines(ls[1..]);
      MovedLinesWorth(ls[1..]);
    }
  }

  // ---------------------------------------------------------------------
  // Properties of a move
  // ---------------------------------------------------------------------

  /** A move keeps the sum of all cell values. */
  lemma MoveKeepsSum(b: Grid, d: Direction)
    requires IsBoard(b)
    ensures TotalOver(Id, Move(b, d).board) == TotalOver(Id, b)
  {
    var m := Move(b, d);
    MoveBoardByLines(b, d);
    TotalByLines(Id, b, d);
    TotalByLines(Id, m.board, d);
    MovedLinesSum(LinesOf(b, d));
  }

  /** A move never adds a tile. */
  lemma MoveAddsNoTile(b: Grid, d: Direction)
    requires IsBoard(b)
    ensures TotalOver(NonZero, Move(b, d).board) <= TotalOver(NonZero, b)
  {
    var m := Move(b, d);
    MoveBoardByLines(b, d);
    TotalByLines(NonZero, b, d);
    TotalByLines(NonZero, m.board, d);
    MovedLinesCount(LinesOf(b, d));
  }

  predicate NonNegativeBoard(b: Grid)
  {
    forall r :: 0 <= r < |b| ==> NonNegative(b[r])
  }

  predicate TileBoard(b: Grid)
  {
    forall r :: 0 <= r < |b| ==> AllTiles(b[r])
  }

  lemma NonNegativeByLines(b: Grid, d: Direction)
    requires IsBoard(b)
    ensures NonNegativeBoard(b) <==> NonNegativeBoard(LinesOf(b, d))
  {
    var ls := LinesOf(b, d);
    if NonNegativeBoard(ls) {
      forall r | InRange(r) ensures NonNegative(b[r]) {
        forall c | InRange(c) ensures b[r][c] >= 0 {
          var ji := Locate(d, Pos(r, c));
          assert ls[ji.0][ji.1] == b[r][c];
        }
      }
    }
  }

  lemma TilesByLines(b: Grid, d: Direction)
    requires IsBoard(b)
    ensures TileBoard(b) <==> TileBoard(LinesOf(b, d))
  {
    var ls := LinesOf(b, d);
    if TileBoard(ls) {
      forall r | InRange(r) ensures AllTiles(b[r]) {
        forall c | InRange(c) ensures IsTile(b[r][c]) {
          var ji := Locate(d, Pos(r, c));
          assert ls[ji.0][ji.1] == b[r][c];
        }
      }
    }
  }

  /** On a board of non-negative cells a move scores exactly the worth it
      adds to the board, so the score never falls. */
  lemma MoveScore(b: Grid, d: Direction)
    requires IsBoard(b) && NonNegativeBoard(b)
    ensures NonNegativeBoard(Move(b, d).board)
    ensures Move(b, d).gain >= 0
    ensures TotalOver(Worth, Move(b, d).board) == TotalOver(Worth, b) + Move(b, d).gain
  {
    var m := Move(b, d);
    var ls := LinesOf(b, d);
    MoveBoardByLines(b, d); MoveGainByLines(b, d);
    NonNegativeByLines(b, d);
    NonNegativeByLines(m.board, d);
    forall k | 0 <= k < Size ensures NonNegative(MovedLines(ls)[k]) {
      ScanWorth(ls[k], 1);
    }
    TotalByLines(Worth, b, d);
    TotalByLines(Worth, m.board, d);
    MovedLinesWorth(ls);
  }

  /** A move keeps every cell empty or a power of two. */
  lemma MoveKeepsTiles(b: Grid, d: Direction)
    requires IsBoard(b) && TileBoard(b)
    ensures TileBoard(Move(b, d).board)
  {
    var m := Move(b, d);
    var ls := LinesOf(b, d);
    MoveBoardByLines(b, d);
    TilesByLines(b, d);
    TilesByLines(m.board, d);
    forall k | 0 <= k < Size ensures AllTiles(MovedLines(ls)[k]) {
      ScanTiles(ls[k], 1);
    }
  }

  /** After a move every line has its tiles against the wall. */
  lemma MoveCompacts(b: Grid, d: Direction)
    requires IsBoard(b)
    ensures forall j :: InRange(j) ==> Compact(LineOf(Move(b, d).board, d, j))
  {
    MoveByLines(b, d);
    forall j | InRange(j) ensures Compact(LineOf(Move(b, d).board, d, j)) {
      MoveLineCompacts(LineOf(b, d, j));
      assert LinesOf(Move(b, d).board, d)[j] == MovedLines(LinesOf(b, d))[j];
    }
  }

  /** A move returns true exactly when it changes the board, and exactly
      when some line is not yet stable. */
  lemma MoveChanges(b: Grid, d: Direction)
    requires IsBoard(b)
    ensures Move(b, d).moved <==> Move(b, d).board != b
    ensures Move(b, d).moved <==> exists j :: InRange(j) && !Stable(LineOf(b, d, j))
  {
    MoveChangesBoard(b, d);
    MoveChangesLines(b, d);
  }

  lemma MoveChangesBoard(b: Grid, d: Direction)
    requires IsBoard(b)
    ensures Move(b, d).moved <==> Move(b, d).board != b
  {
    var m := Move(b, d);
    var ls := LinesOf(b, d);
    MoveBoardByLines(b, d); MoveMovedByLines(b, d);
    if m.moved {
      var k :| 0 <= k < Size && MoveLine(ls[k]).moved;
      MoveLineChanges(ls[k]);
      assert LinesOf(m.board, d)[k] != ls[k];
    } else {
      forall k | 0 <= k < Size ensures MoveLine(ls[k]).line == ls[k] {
        MoveLineChanges(ls[k]);
      }
      assert MovedLines(ls) == ls;
      LinesDetermineBoard(m.board, b, d);
    }
  }

  lemma MoveChangesLines(b: Grid, d: Direction)
    requires IsBoard(b)
    ensures Move(b, d).moved <==> exists j :: InRange(j) && !Stable(LineOf(b, d, j))
  {
    MoveMovedByLines(b, d);
    SomeLineUnstable(LinesOf(b, d));
  }

  /** Some line moves exactly when some line is not stable. */
  lemma SomeLineUnstable(ls: seq<seq<int>>)
    ensures AnyMoved(ls) <==> exists k :: 0 <= k < |ls| && !Stable(ls[k])
  {
    forall k | 0 <= k < |ls| ensures MoveLine(ls[k]).moved <==> !Stable(ls[k]) {
      LineMovedIff(ls, k);
    }
  }

  lemma LineMovedIff(ls: seq<seq<int>>, k: int)
    requires 0 <= k < |ls|
    ensures MoveLine(ls[k]).moved <==> !Stable(ls[k])
  {
    MoveLineChanges(ls[k]);
  }

  /** A move that returns true leaves an empty cell for the new tile. */
  lemma RoomToSpawn(b: Grid, d: Direction)
    requires IsBoard(b)
    requires Move(b, d).moved
    ensures exists p :: OnBoard(p) && Get(Move(b, d).board, p) == 0
  {
    var m := Move(b, d);
    var ls := LinesOf(b, d);
    MoveBoardByLines(b, d); MoveMovedByLines(b, d);
    var k :| 0 <= k < Size && MoveLine(ls[k]).moved;
    RoomAfterMove(ls[k]);
    var i :| 0 <= i < Size && MoveLine(ls[k]).line[i] == 0;
    assert LinesOf(m.board, d)[k][i] == 0;
    assert Get(m.board, At(d, k, i)) == 0;
  }

  // ---------------------------------------------------------------------
  // Symmetry between the directions
  // ---------------------------------------------------------------------

  /** Every row reversed. */
  function Mirror(b: Grid): (r: Grid)
    requires IsBoard(b)
    ensures IsBoard(r)
  {
    seq(Size, row requires 0 <= row < Size =>
      seq(Size, col requires 0 <= col < Size => b[row][Size - 1 - col]))
  }

  /** Rows and columns exchanged. */
  function Transpose(b: Grid): (r: Grid)
    requires IsBoard(b)
    ensures IsBoard(r)
  {
    seq(Size, row requires 0 <= row < Size =>
      seq(Size, col requires 0 <= col < Size => b[col][row]))
  }

  /** Two lines that agree cell by cell are equal. */
  lemma SameLine(b1: Grid, d1: Direction, b2: Grid, d2: Direction, j: int)
    requires IsBoard(b1) && IsBoard(b2) && InRange(j)
    requires forall i :: 0 <= i < Size ==> Get(b1, At(d1, j, i)) == Get(b2, At(d2, j, i))
    ensures LineOf(b1, d1, j) == LineOf(b2, d2, j)
  {
  }

  /** Boards whose lines in d1 and d2 agree one by one have the same lines. */
  lemma SameLines(b1: Grid, d1: Direction, b2: Grid, d2: Direction)
    requires IsBoard(b1) && IsBoard(b2)
    requires forall j :: 0 <= j < Size ==> LineOf(b1, d1, j) == LineOf(b2, d2, j)
    ensures LinesOf(b1, d1) == LinesOf(b2, d2)
  {
  }

  lemma MirrorLines(b: Grid)
    requires IsBoard(b)
    ensures LinesOf(Mirror(b), Left) == LinesOf(b, Right)
    ensures LinesOf(Mirror(b), Right) == LinesOf(b, Left)
  {
    var m := Mirror(b);
    forall j | InRange(j) ensures LineOf(m, Left, j) == LineOf(b, Right, j) {
      SameLine(m, Left, b, Right, j);
    }
    SameLines(m, Left, b, Right);
    forall j | InRange(j) ensures LineOf(m, Right, j) == LineOf(b, Left, j) {
      SameLine(m, Right, b, Left, j);
    }
    SameLines(m, Right, b, Left);
  }

  lemma TransposeLines(b: Grid)
    requires IsBoard(b)
    ensures LinesOf(Transpose(b), Left) == LinesOf(b, Up)
    ensures LinesOf(Transpose(b), Right) == LinesOf(b, Down)
  {
    var t := Transpose(b);
    forall j | InRange(j) ensures LineOf(t, Left, j) == LineOf(b, Up, j) {
      SameLine(t, Left, b, Up, j);
    }
    SameLines(t, Left, b, Up);
    forall j | InRange(j) ensures LineOf(t, Right, j) == LineOf(b, Down, j) {
      SameLine(t, Right, b, Down, j);
    }
    SameLines(t, Right, b, Down);
  }

  lemma TransposeLinesBack(b: Grid)
    requires IsBoard(b)
    ensures LinesOf(Transpose(b), Up) == LinesOf(b, Left)
    ensures LinesOf(Transpose(b), Down) == LinesOf(b, Right)
  {
    var t := Transpose(b);
    forall j | InRange(j) ensures LineOf(t, Up, j) == LineOf(b, Left, j) {
      SameLine(t, Up, b, Left, j);
    }
    SameLines(t, Up, b, Left);
    forall j | InRange(j) ensures LineOf(t, Down, j) == LineOf(b, Right, j) {
      SameLine(t, Down, b, Right, j);
    }
    SameLines(t, Down, b, Right);
  }

  /** moveRight is moveLeft on the mirrored board, mirrored back, with the
      same points and the same return value. */
  lemma RightMirrorsLeft(b: Grid)
    requires IsBoard(b)
    ensures var m := Move(Mirror(b), Left);
            Move(b, Right) == BoardMove(Mirror(m.board), m.gain, m.moved)
  {
    var m := Move(Mirror(b), Left);
    MoveByLines(Mirror(b), Left);
    MoveByLines(b, Right);
    MirrorLines(b);
    MirrorLines(m.board);
    LinesDetermineBoard(Move(b, Right).board, Mirror(m.board), Right);
  }

  /** moveUp is moveLeft on the transposed board, transposed back. */
  lemma UpTransposesLeft(b: Grid)
    requires IsBoard(b)
    ensures var m := Move(Transpose(b), Left);
            Move(b, Up) == BoardMove(Transpose(m.board), m.gain, m.moved)
  {
    var m := Move(Transpose(b), Left);
    MoveByLines(Transpose(b), Left);
    MoveByLines(b, Up);
    TransposeLines(b);
    TransposeLinesBack(m.board);
    LinesDetermineBoard(Move(b, Up).board, Transpose(m.board), Up);
  }

  /** moveDown is moveRight on the transposed board, transposed back. */
  lemma DownTransposesRight(b: Grid)
    requires IsBoard(b)
    ensures var m := Move(Transpose(b), Right);
            Move(b, Down) == BoardMove(Transpose(m.board), m.gain, m.moved)
  {
    var m := Move(Transpose(b), Right);
    MoveByLines(Transpose(b), Right);
    MoveByLines(b, Down);
    TransposeLines(b);
    TransposeLinesBack(m.board);
    LinesDetermineBoard(Move(b, Down).board, Transpose(m.board), Down);
  }
}
