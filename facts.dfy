/*
 * What a move does to the tile counts of board.c, and the counts of the
 * position Board_init sets up. These are the facts the score of
 * Board_endGame and the length of a match rest on.
 */
module MoveFacts {
  import opened Rules

  /** A row-major scan that has reached (row, col) has seen 8 * row + col
      cells, each holding exactly one of EMPTY, FIRST and SECOND. */
  lemma {:induction false} ScanTotal(g: Grid, row: int, col: int)
    requires WellFormed(g)
    requires (0 <= row < SIZE && 0 <= col <= SIZE) || (row == SIZE && col == 0)
    ensures |CellsBefore(g, EMPTY, row, col)| + |CellsBefore(g, FIRST, row, col)| + |CellsBefore(g, SECOND, row, col)|
            == SIZE * row + col
    decreases row, col
  {
    if col > 0 {
      ScanTotal(g, row, col - 1);
      CountStep(g, EMPTY, row, col - 1);
      CountStep(g, FIRST, row, col - 1);
      CountStep(g, SECOND, row, col - 1);
    } else if row > 0 {
      ScanTotal(g, row - 1, SIZE);
      CellsBeforeRowEnd(g, EMPTY, row - 1);
      CellsBeforeRowEnd(g, FIRST, row - 1);
      CellsBeforeRowEnd(g, SECOND, row - 1);
    } else {
      CellsBeforeAll(g, EMPTY);
      CellsBeforeAll(g, FIRST);
      CellsBeforeAll(g, SECOND);
    }
  }

  /** The count of v grows by one exactly when the scanned cell holds v. */
  lemma CountStep(g: Grid, v: int, row: int, col: int)
    requires WellFormed(g) && OnBoard(row, col)
    ensures |CellsBefore(g, v, row, col + 1)| == |CellsBefore(g, v, row, col)| + (if g[row][col] == v then 1 else 0)
  {
    CellsBeforeStep(g, v, row, col);
  }

  /** No cell holds two different values. */
  lemma DisjointCells(g: Grid, v: int, w: int)
    requires WellFormed(g) && v != w
    ensures CellsOf(g, v) !! CellsOf(g, w)
  {
  }

  /** Every one of the 64 cells is empty or holds one player's tile. */
  lemma TileTotal(g: Grid)
    requires WellFormed(g)
    ensures |CellsOf(g, EMPTY)| + |CellsOf(g, FIRST)| + |CellsOf(g, SECOND)| == SIZE * SIZE
  {
    ScanTotal(g, SIZE, 0);
    CellsBeforeAll(g, EMPTY);
    CellsBeforeAll(g, FIRST);
    CellsBeforeAll(g, SECOND);
  }

  /** The tiles flipped by a move are opponent tiles, and the played cell is not among them. */
  lemma FlippedAreOpponents(g: Grid, p: int, r: int, c: int)
    requires WellFormed(g) && IsPlayer(p) && OnBoard(r, c)
    ensures FlippedCells(g, p, r, c) <= CellsOf(g, Other(p))
    ensures (r, c) !in FlippedCells(g, p, r, c)
  {
    forall z | z in FlippedCells(g, p, r, c) ensures z in CellsOf(g, Other(p)) && z != (r, c) {
      var d :| InRun(g, p, r, c, d, z.0, z.1);
      InRunIsOpponent(g, p, r, c, d, z.0, z.1);
    }
  }

  /** A valid move flips at least one tile: the first cell in a bracketing direction. */
  lemma ValidMoveFlips(g: Grid, p: int, r: int, c: int)
    requires WellFormed(g) && IsPlayer(p) && IsValidMove(g, p, r, c)
    ensures FlippedCells(g, p, r, c) != {}
  {
    var d :| LegalInDirection(g, p, r, c, d);
    var k := FlipLength(g, p, r, c, d);
    BracketsCells(g, p, r, c, d, k, 1);
    var x, y := RayRow(r, d, 1), RayCol(c, d, 1);
    assert InRun(g, p, r, c, d, x, y);
    assert (x, y) in FlippedCells(g, p, r, c);
  }

  /** The cells of each kind after p plays (r, c): the mover gains the
      played cell and the flipped tiles, the opponent loses the flipped
      tiles, and the played cell is no longer empty. */
  lemma AfterMoveSets(g: Grid, p: int, r: int, c: int)
    requires WellFormed(g) && IsPlayer(p) && OnBoard(r, c) && g[r][c] == EMPTY
    ensures CellsOf(AfterMove(g, p, r, c), p) == CellsOf(g, p) + {(r, c)} + FlippedCells(g, p, r, c)
    ensures CellsOf(AfterMove(g, p, r, c), Other(p)) == CellsOf(g, Other(p)) - FlippedCells(g, p, r, c)
    ensures CellsOf(AfterMove(g, p, r, c), EMPTY) == CellsOf(g, EMPTY) - {(r, c)}
  {
    var h, f := AfterMove(g, p, r, c), FlippedCells(g, p, r, c);
    AfterMoveCells(g, p, r, c);
    FlippedAreOpponents(g, p, r, c);
    forall z | z in CellsOf(h, p) ensures z in CellsOf(g, p) + {(r, c)} + f {
      assert h[z.0][z.1] == p;
    }
    forall z | z in CellsOf(h, Other(p)) ensures z in CellsOf(g, Other(p)) - f {
      assert h[z.0][z.1] == Other(p);
    }
    forall z | z in CellsOf(h, EMPTY) ensures z in CellsOf(g, EMPTY) - {(r, c)} {
      assert h[z.0][z.1] == EMPTY;
    }
  }

  /** Board_makeMove on a valid move: the mover gains the played cell and
      every flipped tile (at least one), the opponent loses exactly the
      flipped tiles, and one empty cell is filled. */
  lemma AfterMoveCounts(g: Grid, p: int, r: int, c: int)
    requires WellFormed(g) && IsPlayer(p) && IsValidMove(g, p, r, c)
    ensures |FlippedCells(g, p, r, c)| >= 1
    ensures |CellsOf(AfterMove(g, p, r, c), p)| == |CellsOf(g, p)| + 1 + |FlippedCells(g, p, r, c)|
    ensures |CellsOf(AfterMove(g, p, r, c), Other(p))| == |CellsOf(g, Other(p))| - |FlippedCells(g, p, r, c)|
    ensures |CellsOf(AfterMove(g, p, r, c), EMPTY)| == |CellsOf(g, EMPTY)| - 1
  {
    AfterMoveSets(g, p, r, c);
    FlippedAreOpponents(g, p, r, c);
    ValidMoveFlips(g, p, r, c);
    DisjointCells(g, p, Other(p));
    DisjointCells(g, p, EMPTY);
    DisjointCells(g, Other(p), EMPTY);
    SetCounts(CellsOf(g, p), CellsOf(g, Other(p)), CellsOf(g, EMPTY), FlippedCells(g, p, r, c), (r, c));
  }

  /** The cardinality side of AfterMoveSets: the mover's cells a gain the
      played cell x and the flipped cells f, taken from the opponent's b. */
  lemma SetCounts(a: set<(int, int)>, b: set<(int, int)>, e: set<(int, int)>, f: set<(int, int)>, x: (int, int))
    requires a !! b && a !! e && b !! e
    requires f <= b && x in e
    ensures |a + {x} + f| == |a| + 1 + |f|
    ensures |b - f| == |b| - |f|
    ensures |e - {x}| == |e| - 1
  {
    assert a + {x} + f == (a + f) + {x};
  }

  /** A valid move raises the mover's margin (its tiles minus the
      opponent's) by one plus twice the number of flipped tiles. */
  lemma AfterMoveScore(g: Grid, p: int, r: int, c: int)
    requires WellFormed(g) && IsPlayer(p) && IsValidMove(g, p, r, c)
    ensures TileDiff(AfterMove(g, p, r, c)) - TileDiff(g)
            == (if p == FIRST then 1 else -1) * (1 + 2 * |FlippedCells(g, p, r, c)|)
  {
    AfterMoveCounts(g, p, r, c);
  }

  /** Board_init's position: two tiles each, 60 empty cells. */
  lemma InitialCounts()
    ensures CellsOf(InitialGrid(), FIRST) == {(INITIAL_TILE1, INITIAL_TILE2), (INITIAL_TILE2, INITIAL_TILE1)}
    ensures CellsOf(InitialGrid(), SECOND) == {(INITIAL_TILE1, INITIAL_TILE1), (INITIAL_TILE2, INITIAL_TILE2)}
    ensures |CellsOf(InitialGrid(), EMPTY)| == SIZE * SIZE - 4
    ensures TileDiff(InitialGrid()) == 0
  {
    var g := InitialGrid();
    assert CellsOf(g, FIRST) == {(INITIAL_TILE1, INITIAL_TILE2), (INITIAL_TILE2, INITIAL_TILE1)};
    assert CellsOf(g, SECOND) == {(INITIAL_TILE1, INITIAL_TILE1), (INITIAL_TILE2, INITIAL_TILE2)};
    TileTotal(g);
  }

  /** FIRST can open the match, so the initial position is not over: it may
      play column D, row 2, bracketing the SECOND tile at row 3 with its own
      at row 4. */
  lemma InitialHasMove()
    ensures IsValidMove(InitialGrid(), FIRST, 2, 3)
    ensures HasMove(InitialGrid(), FIRST) && !GameOver(InitialGrid())
  {
    var g := InitialGrid();
    assert Brackets(g, FIRST, 2, 3, S, 1);
    assert LegalInDirection(g, FIRST, 2, 3, S);
    assert IsValidMove(g, FIRST, 2, 3);
    assert HasMove(g, FIRST);
  }

  /** FIRST's opening moves are exactly D2, C3, F4 and E5: each brackets one
      SECOND tile of the centre, and no other cell brackets anything. */
  lemma InitialMoves(r: int, c: int)
    ensures IsValidMove(InitialGrid(), FIRST, r, c) <==>
            (r == 2 && c == 3) || (r == 3 && c == 2) || (r == 4 && c == 5) || (r == 5 && c == 4)
  {
    var g := InitialGrid();
    var d := if r == 2 then S else if r == 5 then N else if c == 2 then E else W;
    if (r == 2 && c == 3) || (r == 3 && c == 2) || (r == 4 && c == 5) || (r == 5 && c == 4) {
      assert Brackets(g, FIRST, r, c, d, 1);
      assert LegalInDirection(g, FIRST, r, c, d);
    }
    if IsValidMove(g, FIRST, r, c) {
      var d' :| LegalInDirection(g, FIRST, r, c, d');
      var k :| Brackets(g, FIRST, r, c, d', k);
      OpeningRun(g, r, c, d', k);
    }
  }

  /** In the initial position a run FIRST brackets is one SECOND tile long,
      so the played cell is one step from a SECOND tile and two from a FIRST one. */
  lemma OpeningRun(g: Grid, r: int, c: int, d: Direction, k: int)
    requires g == InitialGrid() && OnBoard(r, c) && g[r][c] == EMPTY && Brackets(g, FIRST, r, c, d, k)
    ensures k == 1
    ensures (r == 2 && c == 3) || (r == 3 && c == 2) || (r == 4 && c == 5) || (r == 5 && c == 4)
  {
    BracketsCells(g, FIRST, r, c, d, k, 1);
    BracketsCells(g, FIRST, r, c, d, k, 2);
    if k >= 2 {
      BracketsCells(g, FIRST, r, c, d, k, 3);
      assert false;
    }
  }
}
