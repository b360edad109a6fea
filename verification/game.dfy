/**
 The game flow of Game2048: startNewGame, addNewTile and the key handler.

 The random choices of addNewTile are parameters.  A Spawn carries the
 roll of random.nextInt(10) that picks the value and the cell on which the
 retry loop settles; the loop keeps drawing until it finds an empty cell,
 so the cell it settles on is empty, which CanSpawn demands.
 */
module Game {
  import opened Line
  import opened Board
  import opened Terminal

  /** The keys the handler tells apart: the four arrows, and any other key. */
  datatype Key = Arrow(dir: Direction) | OtherKey

  /** The random choices of one addNewTile call. */
  datatype Spawn = Spawn(roll: int, at: Pos)

  /** The fields of the game window that the game logic reads and writes. */
  datatype State = State(board: Grid, score: int, gameOver: bool)

  /** Tiles on a board, and the sum of their values. */
  function Count(b: Grid): int { TotalOver(NonZero, b) }

  function Sum(b: Grid): int { TotalOver(Id, b) }

  /** The new tile's value: 2 on nine rolls out of ten, 4 on the tenth. */
  function TileValue(roll: int): (v: int)
    requires 0 <= roll < 10
    ensures v == 2 || v == 4
    ensures v == 4 <==> roll == 9
  {
    if roll < 9 then 2 else 4
  }

  /** The choices addNewTile can make on b. */
  predicate CanSpawn(b: Grid, s: Spawn)
  {
    IsBoard(b) && 0 <= s.roll < 10 && OnBoard(s.at) && Get(b, s.at) == 0
  }

  /** addNewTile: the chosen empty cell receives the chosen value. */
  function AddTile(b: Grid, s: Spawn): (r: Grid)
    requires CanSpawn(b, s)
    ensures IsBoard(r)
    ensures Get(r, s.at) == TileValue(s.roll)
    ensures Get(r, s.at) == 2 || Get(r, s.at) == 4
    ensures forall q :: OnBoard(q) && q != s.at ==> Get(r, q) == Get(b, q)
    ensures Count(r) == Count(b) + 1
    ensures Sum(r) == Sum(b) + Get(r, s.at)
  {
    var v := TileValue(s.roll);
    SetTotal(NonZero, b, s.at, v);
    SetTotal(Id, b, s.at, v);
    SetCells(b, s.at, v);
    Set(b, s.at, v)
  }

  /** The board startNewGame clears. */
  function EmptyGrid(): (b: Grid)
    ensures IsBoard(b)
    ensures forall p :: OnBoard(p) ==> Get(b, p) == 0
  {
    seq(Size, r => seq(Size, c => 0))
  }

  /** The empty board holds no tile and sums to nothing. */
  lemma EmptyGridTotals(f: int -> int)
    requires f(0) == 0
    ensures TotalOver(f, EmptyGrid()) == 0
  {
    var b := EmptyGrid();
    TotalOver4(f, b);
    forall r | 0 <= r < Size ensures Total(f, b[r]) == 0 {
      Total4(f, b[r]);
      assert b[r][0] == Get(b, Pos(r, 0)) && b[r][1] == Get(b, Pos(r, 1));
      assert b[r][2] == Get(b, Pos(r, 2)) && b[r][3] == Get(b, Pos(r, 3));
    }
  }

  /** startNewGame: clear the board, reset score and gameOver, add two
      tiles.  The second spawn is chosen on the board the first one left. */
  function NewGame(first: Spawn, second: Spawn): (g: State)
    requires CanSpawn(EmptyGrid(), first)
    requires CanSpawn(AddTile(EmptyGrid(), first), second)
    ensures IsBoard(g.board) && g.score == 0 && !g.gameOver
    ensures Count(g.board) == 2
    ensures first.at != second.at
    ensures forall p :: OnBoard(p) ==>
              (Get(g.board, p) == 2 || Get(g.board, p) == 4 <==> p == first.at || p == second.at)
    ensures forall p :: OnBoard(p) && p != first.at && p != second.at ==> Get(g.board, p) == 0
  {
    EmptyGridTotals(NonZero);
    var b := AddTile(AddTile(EmptyGrid(), first), second);
    State(b, 0, false)
  }

  /** The spawn the handler needs after key on g is one addNewTile can make:
      only a move that returned true asks for one. */
  predicate SpawnFits(g: State, key: Key, s: Spawn)
    requires IsBoard(g.board)
  {
    match key
    case OtherKey => true
    case Arrow(d) => g.gameOver || !Move(g.board, d).moved || CanSpawn(Move(g.board, d).board, s)
  }

  /** keyPressed: when the game is not over, an arrow key moves the board;
      a move that returned true is followed by addNewTile and checkGameOver.
      The score is raised inside the move, by every merge. */
  function Step(g: State, key: Key, s: Spawn): (g': State)
    requires IsBoard(g.board) && SpawnFits(g, key, s)
    ensures IsBoard(g'.board)
    ensures g.gameOver || key.OtherKey? ==> g' == g
    ensures key.Arrow? && !g.gameOver && Move(g.board, key.dir).moved ==>
              g'.score == g.score + Move(g.board, key.dir).gain &&
              Get(g'.board, s.at) == TileValue(s.roll) &&
              (forall q :: OnBoard(q) && q != s.at ==> Get(g'.board, q) == Get(Move(g.board, key.dir).board, q)) &&
              Count(g'.board) == Count(Move(g.board, key.dir).board) + 1 &&
              Sum(g'.board) == Sum(Move(g.board, key.dir).board) + Get(g'.board, s.at) &&
              g'.gameOver == CheckGameOver(g'.board)
  {
    if g.gameOver then g
    else
      match key
      case OtherKey => g
      case Arrow(d) =>
        var m := Move(g.board, d);
        if m.moved then
          var b := AddTile(m.board, s);
          State(b, g.score + m.gain, CheckGameOver(b))
        else
          State(m.board, g.score + m.gain, g.gameOver)
  }

  // ---------------------------------------------------------------------
  // Properties of the flow
  // ---------------------------------------------------------------------

  /** An arrow key whose move returns false changes nothing: the board and
      score stay, no tile is added and gameOver is not recomputed. */
  lemma StillKeyChangesNothing(g: State, d: Direction, s: Spawn)
    requires IsBoard(g.board) && !Move(g.board, d).moved
    ensures SpawnFits(g, Arrow(d), s)
    ensures Step(g, Arrow(d), s) == g
  {
  }

  /** Once the game is over, no key changes anything. */
  lemma OverIgnoresInput(g: State, key: Key, s: Spawn)
    requires IsBoard(g.board) && g.gameOver
    ensures SpawnFits(g, key, s)
    ensures Step(g, key, s) == g
  {
  }

  /** After a move that returned true there is an empty cell, so the retry
      loop of addNewTile has a cell to settle on: every key has a spawn. */
  lemma SpawnAlwaysFits(g: State, key: Key)
    requires IsBoard(g.board)
    ensures exists s :: SpawnFits(g, key, s)
  {
    var s0 := Spawn(0, Pos(0, 0));
    if key.Arrow? && !g.gameOver && Move(g.board, key.dir).moved {
      RoomToSpawn(g.board, key.dir);
      var p :| OnBoard(p) && Get(Move(g.board, key.dir).board, p) == 0;
      assert SpawnFits(g, key, Spawn(0, p));
    } else {
      assert SpawnFits(g, key, s0);
    }
  }

  /** Every value a tile holds is positive. */
  lemma TileBoardNonNegative(b: Grid)
    requires IsBoard(b) && TileBoard(b)
    ensures NonNegativeBoard(b)
  {
    forall r, c | 0 <= r < Size && 0 <= c < Size ensures b[r][c] >= 0 {
      assert AllTiles(b[r]);
      assert IsTile(b[r][c]);
    }
  }

  /** The states the game can reach: a board of tiles with at least one
      tile on it, a score no larger than the worth of the tiles (merges
      raise both by the same amount, spawns only the worth), and gameOver
      as checkGameOver last computed it. */
  predicate Valid(g: State)
  {
    && IsBoard(g.board)
    && TileBoard(g.board)
    && HasTile(g.board)
    && 0 <= g.score <= TotalOver(Worth, g.board)
    && g.gameOver == CheckGameOver(g.board)
  }

  /** A new tile keeps a board of tiles, puts a tile on it, and raises its
      worth. */
  lemma AddTileValid(b: Grid, s: Spawn)
    requires CanSpawn(b, s) && TileBoard(b)
    ensures TileBoard(AddTile(b, s)) && HasTile(AddTile(b, s))
    ensures TotalOver(Worth, AddTile(b, s)) > TotalOver(Worth, b)
  {
    var r := AddTile(b, s);
    var v := TileValue(s.roll);
    SetTotal(Worth, b, s.at, v);
    assert Worth(0) == 0;
    assert Worth(v) > 0 by {
      assert Worth(1) == 0;
      assert Worth(2) == 2;
    }
    forall i, c | 0 <= i < Size && 0 <= c < Size ensures IsTile(r[i][c]) {
      if Pos(i, c) == s.at {
        assert r[i][c] == v;
      } else {
        assert r[i][c] == Get(b, Pos(i, c));
        assert AllTiles(b[i]);
      }
    }
    assert r[s.at.row][s.at.col] != 0;
  }

  /** startNewGame produces a reachable state. */
  lemma NewGameValid(first: Spawn, second: Spawn)
    requires CanSpawn(EmptyGrid(), first)
    requires CanSpawn(AddTile(EmptyGrid(), first), second)
    ensures Valid(NewGame(first, second))
  {
    var e := EmptyGrid();
    assert TileBoard(e) by {
      forall r, c | 0 <= r < Size && 0 <= c < Size ensures IsTile(e[r][c]) {
        assert e[r][c] == Get(e, Pos(r, c));
      }
    }
    EmptyGridTotals(Worth);
    AddTileValid(e, first);
    AddTileValid(AddTile(e, first), second);
    var g := NewGame(first, second);
    assert !CheckGameOver(g.board) by {
      var p := second.at;
      assert g.board[p.row][p.col] == Get(g.board, p);
      var q := if p == Pos(0, 0) then Pos(0, 1) else Pos(0, 0);
      assert g.board[q.row][q.col] == Get(g.board, q);
    }
  }

  /** The handler keeps the game in a reachable state, and the score never
      goes down. */
  lemma StepValid(g: State, key: Key, s: Spawn)
    requires Valid(g) && SpawnFits(g, key, s)
    ensures Valid(Step(g, key, s))
    ensures Step(g, key, s).score >= g.score
  {
    if key.Arrow? && !g.gameOver {
      var d := key.dir;
      var m := Move(g.board, d);
      if m.moved {
        TileBoardNonNegative(g.board);
        MoveScore(g.board, d);
        MoveKeepsTiles(g.board, d);
        AddTileValid(m.board, s);
      } else {
        StillKeyChangesNothing(g, d, s);
      }
    }
  }

  /** A key that moves the board scores exactly what its merges made, and
      changes the sum of the values only by the new tile. */
  lemma StepScoresMerges(g: State, d: Direction, s: Spawn)
    requires Valid(g) && !g.gameOver && SpawnFits(g, Arrow(d), s) && Move(g.board, d).moved
    ensures var g' := Step(g, Arrow(d), s);
            && g'.score == g.score + Move(g.board, d).gain
            && Move(g.board, d).gain >= 0
            && Sum(g'.board) == Sum(g.board) + Get(g'.board, s.at)
            && Count(g'.board) <= Count(g.board) + 1
  {
    TileBoardNonNegative(g.board);
    MoveScore(g.board, d);
    MoveKeepsSum(g.board, d);
    MoveAddsNoTile(g.board, d);
  }

  /** In a reachable state the game is over exactly when no arrow key can
      move the board. */
  lemma OverExactlyWhenStuck(g: State)
    requires Valid(g)
    ensures g.gameOver <==> forall d :: !Move(g.board, d).moved
  {
    GameOverExact(g.board);
  }
}
