/**
 The slide-and-merge pass of 2048 on one line of cells.

 A line is read from the wall outward: index 0 is the cell against the wall
 the tiles move towards, index 1 the next one, and so on.  Zero is an empty
 cell.  The pass visits the cells from index 1 outward, exactly once each.
 A non-zero tile first slides towards the wall over empty cells; if the cell
 it then touches holds the same value, that cell doubles, the points scored
 rise by the doubled value and the tile's own cell is cleared.  Nothing stops
 a freshly doubled cell from being doubled again by the next tile.
 */
module Line {

  /** Result of a pass over one line: the cells afterwards, the points the
      merges scored and whether any tile moved or merged. */
  datatype LineMove = LineMove(line: seq<int>, gain: int, moved: bool)

  /** Where a sliding tile came to rest, with the line after the slide. */
  datatype Slid = Slid(line: seq<int>, stop: nat)

  // ---------------------------------------------------------------------
  // Totals over the cells of a line
  // ---------------------------------------------------------------------

  /** f summed over the cells of l. */
  function Total(f: int -> int, l: seq<int>): int
    decreases |l|
  {
    if |l| == 0 then 0 else f(l[0]) + Total(f, l[1..])
  }

  function Id(v: int): int { v }

  /** 1 for a tile, 0 for an empty cell: Total(NonZero, l) counts tiles. */
  function NonZero(v: int): int { if v != 0 then 1 else 0 }

  /** The points a tile embodies: v * log2(v) when v is a power of two.
      Merging two tiles v into 2v raises the worth by exactly 2v, which is
      what the merge scores. */
  function Worth(v: int): int
    decreases if v > 0 then v else 0
  {
    if v < 2 then 0 else v + 2 * Worth(v / 2)
  }

  /** The values a tile may hold: 2, 4, 8, ... */
  predicate IsPowerOfTwo(v: int)
    decreases if v > 0 then v else 0
  {
    v == 2 || (v > 2 && v % 2 == 0 && IsPowerOfTwo(v / 2))
  }

  predicate IsTile(v: int) { v == 0 || IsPowerOfTwo(v) }

  predicate AllTiles(l: seq<int>) { forall i :: 0 <= i < |l| ==> IsTile(l[i]) }

  predicate NonNegative(l: seq<int>) { forall i :: 0 <= i < |l| ==> l[i] >= 0 }

  /** Changing one cell changes a total by the difference of the two values. */
  lemma {:induction false} TotalUpdate(f: int -> int, l: seq<int>, i: int, v: int)
    requires 0 <= i < |l|
    ensures Total(f, l[i := v]) == Total(f, l) - f(l[i]) + f(v)
    decreases |l|
  {
    if i == 0 {
      assert l[i := v][1..] == l[1..];
    } else {
      assert l[i := v][1..] == l[1..][i - 1 := v];
      TotalUpdate(f, l[1..], i - 1, v);
    }
  }

  /** At most one tile per cell, and exactly one per cell only when no cell
      is empty. */
  lemma {:induction false} CountBound(l: seq<int>)
    ensures Total(NonZero, l) <= |l|
    ensures Total(NonZero, l) == |l| <==> forall i :: 0 <= i < |l| ==> l[i] != 0
    decreases |l|
  {
    if |l| > 0 {
      CountBound(l[1..]);
      if forall i :: 0 <= i < |l[1..]| ==> l[1..][i] != 0 {
        if l[0] != 0 {
          forall i | 0 <= i < |l| ensures l[i] != 0 {
            if i > 0 { assert l[i] == l[1..][i - 1]; }
          }
        }
      } else {
        var i :| 0 <= i < |l[1..]| && l[1..][i] == 0;
        assert l[i + 1] == 0;
      }
    }
  }

  // ---------------------------------------------------------------------
  // Shapes of a line
  // ---------------------------------------------------------------------

  /** Among the first n cells, every empty cell is followed only by empty
      cells. */
  predicate CompactBelow(l: seq<int>, n: int)
  {
    forall i, j :: 0 <= i < j < n && j < |l| && l[i] == 0 ==> l[j] == 0
  }

  /** All tiles sit against the wall, before all empty cells. */
  predicate Compact(l: seq<int>) { CompactBelow(l, |l|) }

  /** Two touching equal tiles at i - 1 and i. */
  predicate PairAt(l: seq<int>, i: int)
  {
    0 < i < |l| && l[i] != 0 && l[i - 1] == l[i]
  }

  /** A line the pass leaves alone: compact, and no two touching tiles equal. */
  predicate Stable(l: seq<int>)
  {
    Compact(l) && forall i :: 0 < i < |l| ==> !PairAt(l, i)
  }

  // ---------------------------------------------------------------------
  // The pass
  // ---------------------------------------------------------------------

  /** The inner while loop: the tile at c steps towards the wall one cell at
      a time while the cell in front of it is empty.  The tile ends at the
      first cell of the empty run in front of it. */
  function Slide(l: seq<int>, c: nat): (r: Slid)
    requires c < |l|
    ensures r.stop <= c && |r.line| == |l|
    ensures r.line == l[c := 0][r.stop := l[c]]
    ensures forall k :: r.stop <= k < c ==> l[k] == 0
    ensures r.stop == 0 || l[r.stop - 1] != 0
    decreases c
  {
    if c > 0 && l[c - 1] == 0 then
      var next := l[c - 1 := l[c]][c := 0];
      assert next[c - 1 := 0] == l[c := 0];
      assert forall k :: 0 <= k < c - 1 ==> next[k] == l[k];
      Slide(next, c - 1)
    else
      Slid(l, c)
  }

  /** The body of the column loop for cell c: skip an empty cell, otherwise
      slide the tile and merge it into an equal neighbour. */
  function Visit(l: seq<int>, c: nat): (r: LineMove)
    requires 0 < c < |l|
    ensures |r.line| == |l|
    ensures forall k :: c < k < |l| ==> r.line[k] == l[k]
    ensures r.moved <==> r.line != l
  {
    if l[c] == 0 then LineMove(l, 0, false)
    else
      var s := Slide(l, c);
      var k := s.stop;
      if k > 0 && s.line[k - 1] == s.line[k] then
        var doubled := 2 * s.line[k - 1];
        var after := s.line[k - 1 := doubled][k := 0];
        assert after[c] == 0;
        LineMove(after, doubled, true)
      else
        assert k < c ==> s.line[c] == 0;
        LineMove(s.line, 0, k < c)
  }

  /** Unfolding step of Visit for the board proofs: a visit whose sliding
      tile meets an equal tile merges the two. */
  lemma VisitMerges(l: seq<int>, c: nat)
    requires 0 < c < |l| && l[c] != 0
    requires var s := Slide(l, c); s.stop > 0 && s.line[s.stop - 1] == s.line[s.stop]
    ensures var s := Slide(l, c);
            var k := s.stop;
            Visit(l, c) == LineMove(s.line[k - 1 := 2 * s.line[k - 1]][k := 0], 2 * s.line[k - 1], true)
  {
  }

  /** Unfolding step of Visit for the board proofs: a visit whose sliding
      tile meets no equal tile only slides it. */
  lemma VisitSlidesOnly(l: seq<int>, c: nat)
    requires 0 < c < |l| && l[c] != 0
    requires var s := Slide(l, c); !(s.stop > 0 && s.line[s.stop - 1] == s.line[s.stop])
    ensures Visit(l, c) == LineMove(Slide(l, c).line, 0, Slide(l, c).stop < c)
  {
  }

  /** The column loop from cell c outward. */
  function Scan(l: seq<int>, c: nat): (r: LineMove)
    requires 0 < c
    ensures |r.line| == |l|
    ensures !r.moved ==> r.line == l
    decreases |l| - c
  {
    if c >= |l| then LineMove(l, 0, false)
    else
      var v := Visit(l, c);
      var rest := Scan(v.line, c + 1);
      LineMove(rest.line, v.gain + rest.gain, v.moved || rest.moved)
  }

  /** One line of a move: the column loop started at index 1.  A pass that
      reports no move leaves the line as it was and scores nothing. */
  function MoveLine(l: seq<int>): (r: LineMove)
    ensures |r.line| == |l|
    ensures !r.moved ==> r.line == l && r.gain == 0
  {
    StillScanGainsNothing(l, 1);
    Scan(l, 1)
  }

  // ---------------------------------------------------------------------
  // Conservation and score
  // ---------------------------------------------------------------------

  /** A slide only moves a tile into an empty cell: every total is kept. */
  lemma SlideKeepsTotal(f: int -> int, l: seq<int>, c: nat)
    requires c < |l|
    ensures Total(f, Slide(l, c).line) == Total(f, l)
  {
    var s := Slide(l, c);
    TotalUpdate(f, l, c, 0);
    TotalUpdate(f, l[c := 0], s.stop, l[c]);
  }

  lemma VisitKeepsSum(l: seq<int>, c: nat)
    requires 0 < c < |l|
    ensures Total(Id, Visit(l, c).line) == Total(Id, l)
  {
    if l[c] != 0 {
      var s := Slide(l, c);
      SlideKeepsTotal(Id, l, c);
      var k := s.stop;
      if k > 0 && s.line[k - 1] == s.line[k] {
        TotalUpdate(Id, s.line, k - 1, 2 * s.line[k - 1]);
        TotalUpdate(Id, s.line[k - 1 := 2 * s.line[k - 1]], k, 0);
      }
    }
  }

  /** The pass moves value around a line but never creates or destroys any. */
  lemma {:induction false} ScanKeepsSum(l: seq<int>, c: nat)
    requires 0 < c
    ensures Total(Id, Scan(l, c).line) == Total(Id, l)
    decreases |l| - c
  {
    if c < |l| {
      VisitKeepsSum(l, c);
      ScanKeepsSum(Visit(l, c).line, c + 1);
    }
  }

  /** A visit never adds a tile, and a merge removes exactly one. */
  lemma VisitCount(l: seq<int>, c: nat)
    requires 0 < c < |l|
    ensures Total(NonZero, Visit(l, c).line) <= Total(NonZero, l)
    ensures PairAt(l, c) ==> Total(NonZero, Visit(l, c).line) == Total(NonZero, l) - 1
  {
    if l[c] != 0 {
      var s := Slide(l, c);
      SlideKeepsTotal(NonZero, l, c);
      var k := s.stop;
      if k > 0 && s.line[k - 1] == s.line[k] {
        TotalUpdate(NonZero, s.line, k - 1, 2 * s.line[k - 1]);
        TotalUpdate(NonZero, s.line[k - 1 := 2 * s.line[k - 1]], k, 0);
      }
    }
  }

  /** The pass never adds a tile. */
  lemma {:induction false} ScanCount(l: seq<int>, c: nat)
    requires 0 < c
    ensures Total(NonZero, Scan(l, c).line) <= Total(NonZero, l)
    decreases |l| - c
  {
    if c < |l| {
      VisitCount(l, c);
      ScanCount(Visit(l, c).line, c + 1);
    }
  }

  /** Worth of a doubled tile. */
  lemma WorthDoubles(v: int)
    requires v >= 1
    ensures Worth(2 * v) == 2 * v + 2 * Worth(v)
  {
    assert (2 * v) / 2 == v;
  }

  /** Merging the equal cells at k - 1 and k adds 2 * l[k] to the worth. */
  lemma MergeWorth(l: seq<int>, k: nat)
    requires 0 < k < |l| && l[k - 1] == l[k] && l[k] >= 1
    ensures Total(Worth, l[k - 1 := 2 * l[k]][k := 0]) == Total(Worth, l) + 2 * l[k]
  {
    var v := l[k];
    WorthDoubles(v);
    TotalUpdate(Worth, l, k - 1, 2 * v);
    TotalUpdate(Worth, l[k - 1 := 2 * v], k, 0);
    assert Worth(0) == 0;
  }

  lemma VisitNonNegative(l: seq<int>, c: nat)
    requires 0 < c < |l|
    requires NonNegative(l)
    ensures NonNegative(Visit(l, c).line)
    ensures Visit(l, c).gain >= 0
  {
    if l[c] != 0 {
      var s := Slide(l, c);
      assert NonNegative(s.line);
    }
  }

  lemma VisitWorth(l: seq<int>, c: nat)
    requires 0 < c < |l|
    requires NonNegative(l)
    ensures Total(Worth, Visit(l, c).line) == Total(Worth, l) + Visit(l, c).gain
  {
    if l[c] != 0 {
      var s := Slide(l, c);
      SlideKeepsTotal(Worth, l, c);
      var k := s.stop;
      var v := l[c];
      assert s.line[k] == v > 0;
      if k > 0 && s.line[k - 1] == s.line[k] {
        MergeWorth(s.line, k);
        var after := s.line[k - 1 := 2 * v][k := 0];
        assert Visit(l, c) == LineMove(after, 2 * v, true);
      } else {
        assert Visit(l, c) == LineMove(s.line, 0, k < c);
      }
    }
  }

  /** On non-negative cells the points scored are exactly the worth the pass
      adds to the line, so they are never negative. */
  lemma {:induction false} ScanWorth(l: seq<int>, c: nat)
    requires 0 < c
    requires NonNegative(l)
    ensures NonNegative(Scan(l, c).line)
    ensures Scan(l, c).gain >= 0
    ensures Total(Worth, Scan(l, c).line) == Total(Worth, l) + Scan(l, c).gain
    decreases |l| - c
  {
    if c < |l| {
      VisitNonNegative(l, c);
      VisitWorth(l, c);
      ScanWorth(Visit(l, c).line, c + 1);
    }
  }

  lemma VisitTiles(l: seq<int>, c: nat)
    requires 0 < c < |l|
    requires AllTiles(l)
    ensures AllTiles(Visit(l, c).line)
  {
    if l[c] != 0 {
      var s := Slide(l, c);
      var k := s.stop;
      if k > 0 && s.line[k - 1] == s.line[k] {
        var v := s.line[k - 1];
        assert v == l[c] && IsPowerOfTwo(v);
        assert IsPowerOfTwo(2 * v);
      }
    }
  }

  /** Doubling a power of two gives a power of two: the pass keeps every
      cell empty or a power of two. */
  lemma {:induction false} ScanTiles(l: seq<int>, c: nat)
    requires 0 < c
    requires AllTiles(l)
    ensures AllTiles(Scan(l, c).line)
    decreases |l| - c
  {
    if c < |l| {
      VisitTiles(l, c);
      ScanTiles(Visit(l, c).line, c + 1);
    }
  }

  // ---------------------------------------------------------------------
  // Compaction
  // ---------------------------------------------------------------------

  lemma VisitCompacts(l: seq<int>, c: nat)
    requires 0 < c < |l|
    requires CompactBelow(l, c)
    ensures CompactBelow(Visit(l, c).line, c + 1)
  {
    if l[c] != 0 {
      var s := Slide(l, c);
      var k := s.stop;
      // Everything in front of the stopping cell is a tile, everything
      // from it up to c was empty.
      assert forall i :: 0 <= i < k ==> l[i] != 0;
      if k > 0 && s.line[k - 1] == s.line[k] {
        var after := Visit(l, c).line;
        assert forall i :: 0 <= i < k ==> after[i] != 0;
        assert forall i :: k <= i <= c ==> after[i] == 0;
      } else {
        var after := Visit(l, c).line;
        assert forall i :: 0 <= i <= k ==> after[i] != 0;
        assert forall i :: k < i <= c ==> after[i] == 0;
      }
    }
  }

  lemma {:induction false} ScanCompacts(l: seq<int>, c: nat)
    requires 0 < c
    requires CompactBelow(l, c)
    ensures Compact(Scan(l, c).line)
    decreases |l| - c
  {
    if c < |l| {
      VisitCompacts(l, c);
      ScanCompacts(Visit(l, c).line, c + 1);
    }
  }

  /** After a move every tile of the line sits against the wall, before all
      empty cells. */
  lemma MoveLineCompacts(l: seq<int>)
    ensures Compact(MoveLine(l).line)
  {
    ScanCompacts(l, 1);
  }

  // ---------------------------------------------------------------------
  // When the pass moves something
  // ---------------------------------------------------------------------

  /** Points are scored only by merges, and a merge moves the line: a pass
      that moves nothing scores nothing. */
  lemma {:induction false} StillScanGainsNothing(l: seq<int>, c: nat)
    requires 0 < c
    ensures !Scan(l, c).moved ==> Scan(l, c).gain == 0
    decreases |l| - c
  {
    if c < |l| && !Scan(l, c).moved {
      var v := Visit(l, c);
      assert !v.moved;
      assert v.gain == 0;
      StillScanGainsNothing(v.line, c + 1);
    }
  }

  /** A stable line goes through the pass untouched, scoring nothing. */
  lemma {:induction false} StableUntouched(l: seq<int>, c: nat)
    requires 0 < c
    requires Stable(l)
    ensures Scan(l, c) == LineMove(l, 0, false)
    decreases |l| - c
  {
    if c < |l| {
      if l[c] != 0 {
        assert l[c - 1] != 0;
        assert !PairAt(l, c);
        assert Slide(l, c) == Slid(l, c);
      }
      assert Visit(l, c) == LineMove(l, 0, false);
      StableUntouched(l, c + 1);
    }
  }

  /** A compact line with two touching equal tiles loses a tile to a merge. */
  lemma {:induction false} PairMerges(l: seq<int>, c: nat)
    requires 0 < c
    requires Compact(l)
    requires exists i :: c <= i < |l| && PairAt(l, i)
    ensures Scan(l, c).moved
    ensures Total(NonZero, Scan(l, c).line) < Total(NonZero, l)
    decreases |l| - c
  {
    var v := Visit(l, c);
    if PairAt(l, c) {
      VisitCount(l, c);
      assert l[c - 1] != 0;
      assert Slide(l, c) == Slid(l, c);
      ScanCount(v.line, c + 1);
    } else {
      if l[c] != 0 {
        assert l[c - 1] != 0;
        assert Slide(l, c) == Slid(l, c);
      }
      assert v == LineMove(l, 0, false);
      PairMerges(l, c + 1);
    }
  }

  /** A line that is not compact has an empty cell, so fewer tiles than
      cells. */
  lemma LooseLineHasRoom(l: seq<int>)
    requires !Compact(l)
    ensures Total(NonZero, l) < |l|
  {
    CountBound(l);
  }

  /** The pass reports a move exactly when the line is not stable, and
      exactly when it changes the line; a line it changes has an empty cell
      afterwards. */
  lemma MoveLineChanges(l: seq<int>)
    ensures MoveLine(l).moved <==> !Stable(l)
    ensures MoveLine(l).moved <==> MoveLine(l).line != l
    ensures MoveLine(l).moved ==> Total(NonZero, MoveLine(l).line) < |l|
  {
    var r := MoveLine(l);
    CountBound(l);
    ScanCount(l, 1);
    if Stable(l) {
      StableUntouched(l, 1);
    } else if !Compact(l) {
      LooseLineHasRoom(l);
      MoveLineCompacts(l);
    } else {
      PairMerges(l, 1);
    }
  }

  /** A line changed by the pass has an empty cell. */
  lemma RoomAfterMove(l: seq<int>)
    requires MoveLine(l).moved
    ensures exists i :: 0 <= i < |l| && MoveLine(l).line[i] == 0
  {
    MoveLineChanges(l);
    CountBound(MoveLine(l).line);
  }

  // ---------------------------------------------------------------------
  // Concrete lines
  // ---------------------------------------------------------------------

  /** Two touching twos merge. */
  lemma AdjacentPair()
    ensures MoveLine([2, 2, 0, 0]) == LineMove([4, 0, 0, 0], 4, true)
  {
    assert Visit([2, 2, 0, 0], 1) == LineMove([4, 0, 0, 0], 4, true);
  }

  /** Twos with a gap slide together and merge. */
  lemma GappedPair()
    ensures MoveLine([2, 0, 2, 0]) == LineMove([4, 0, 0, 0], 4, true)
  {
    assert Visit([2, 0, 2, 0], 1) == LineMove([2, 0, 2, 0], 0, false);
    assert Slide([2, 0, 2, 0], 2) == Slid([2, 2, 0, 0], 1);
    assert Visit([2, 0, 2, 0], 2) == LineMove([4, 0, 0, 0], 4, true);
  }

  /** A freshly merged 4 merges again with the 4 that slides against it. */
  lemma RepeatedMerge()
    ensures MoveLine([2, 2, 4, 0]) == LineMove([8, 0, 0, 0], 12, true)
  {
    assert Visit([2, 2, 4, 0], 1) == LineMove([4, 0, 4, 0], 4, true);
    assert Slide([4, 0, 4, 0], 2) == Slid([4, 4, 0, 0], 1);
    assert Visit([4, 0, 4, 0], 2) == LineMove([8, 0, 0, 0], 8, true);
  }

  /** The last three cells of four twos after the first merge: the third
      two slides up to the second cell without merging into the 4, and the
      fourth merges with it. */
  lemma FourTwosTail()
    ensures Scan([4, 0, 2, 2], 2) == LineMove([4, 4, 0, 0], 4, true)
  {
    assert Slide([4, 0, 2, 2], 2) == Slid([4, 2, 0, 2], 1);
    assert Visit([4, 0, 2, 2], 2) == LineMove([4, 2, 0, 2], 0, true);
    assert Slide([4, 2, 0, 2], 3) == Slid([4, 2, 2, 0], 2);
    assert Visit([4, 2, 0, 2], 3) == LineMove([4, 4, 0, 0], 4, true);
  }

  /** Four twos become two fours. */
  lemma FourTwos()
    ensures MoveLine([2, 2, 2, 2]) == LineMove([4, 4, 0, 0], 8, true)
  {
    assert Visit([2, 2, 2, 2], 1) == LineMove([4, 0, 2, 2], 4, true);
    FourTwosTail();
  }

  /** A second pass over the two fours changes the line again: moves are not
      idempotent. */
  lemma SecondPassMergesAgain()
    ensures MoveLine(MoveLine([2, 2, 2, 2]).line) == LineMove([8, 0, 0, 0], 8, true)
  {
    FourTwos();
    assert Visit([4, 4, 0, 0], 1) == LineMove([8, 0, 0, 0], 8, true);
  }
}
