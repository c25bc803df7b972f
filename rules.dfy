/*
 * The rules of the Othello referee's board, stated on values.
 *
 * A grid is an 8x8 matrix indexed grid[row][column] holding 0 (empty),
 * 1 (the FIRST player, drawn 'x') or 2 (the SECOND player, drawn 'o').
 * Everything here is a specification: the class in board.dfy computes the
 * same things with loops over an array and is proved against these
 * definitions.
 */
module Rules {

  const SIZE: int := 8
  const EMPTY: int := 0
  const FIRST: int := 1
  const SECOND: int := 2
  const MAX_SCORE: int := 64
  const MIN_SCORE: int := -64
  const INITIAL_TILE1: int := 3
  const INITIAL_TILE2: int := 4

  type Grid = seq<seq<int>>

  predicate IsPlayer(v: int) { v == FIRST || v == SECOND }

  predicate IsTile(v: int) { v == EMPTY || IsPlayer(v) }

  predicate OnBoard(r: int, c: int) { 0 <= r < SIZE && 0 <= c < SIZE }

  /** An 8x8 matrix whose every cell is empty or owned by a player. */
  ghost predicate WellFormed(g: Grid)
  {
    && |g| == SIZE
    && (forall r :: 0 <= r < SIZE ==> |g[r]| == SIZE)
    && (forall r, c :: 0 <= r < SIZE && 0 <= c < SIZE ==> IsTile(g[r][c]))
  }

  /** Two well-formed grids that agree on every cell are equal. */
  lemma GridExtensionality(a: Grid, b: Grid)
    requires WellFormed(a) && WellFormed(b)
    requires forall r, c :: 0 <= r < SIZE && 0 <= c < SIZE ==> a[r][c] == b[r][c]
    ensures a == b
  {
    forall r | 0 <= r < SIZE ensures a[r] == b[r] {
      assert forall c :: 0 <= c < SIZE ==> a[r][c] == b[r][c];
    }
  }

  /** The player who is not p; 0 for anything that is not a player. */
  function Other(p: int): (q: int)
    ensures IsPlayer(p) ==> IsPlayer(q) && q != p
    ensures !IsPlayer(p) ==> q == EMPTY
  {
    if p == FIRST then SECOND else if p == SECOND then FIRST else EMPTY
  }

  /** Bounds-checked read: a cell off the board reads as empty, never as a player's tile. */
  function At(g: Grid, r: int, c: int): (v: int)
    requires WellFormed(g)
    ensures IsTile(v)
    ensures !OnBoard(r, c) ==> v == EMPTY
  {
    if OnBoard(r, c) then g[r][c] else EMPTY
  }

  /** The character a cell is drawn with in the tracking log. */
  function TileSymbol(v: int): (ch: char)
    ensures ch == '.' <==> v == EMPTY
    ensures ch == 'x' <==> v == FIRST
    ensures ch == 'o' <==> v == SECOND
    ensures ch == '\0' <==> !IsTile(v)
  {
    if v == EMPTY then '.' else if v == FIRST then 'x' else if v == SECOND then 'o' else '\0'
  }

  // ---------------------------------------------------------------------
  // Directions and rays

  /** The eight compass directions, in the order the board tries them. */
  datatype Direction = N | NE | E | SE | S | SW | W | NW
  {
    /** The row change of one step (the source's rChange). */
    function DRow(): int {
      match this
      case N | NE | NW => -1
      case E | W => 0
      case SE | S | SW => 1
    }

    /** The column change of one step (the source's cChange). */
    function DCol(): int {
      match this
      case NE | E | SE => 1
      case N | S => 0
      case SW | W | NW => -1
    }
  }

  /** The directions in the order Board_moveIsValid and Board_makeMove take them. */
  const Order: seq<Direction> := [N, NE, E, SE, S, SW, W, NW]

  /** The position of d in Order. */
  function OrderIndex(d: Direction): (i: nat)
    ensures i < |Order| && Order[i] == d
  {
    match d
    case N => 0 case NE => 1 case E => 2 case SE => 3
    case S => 4 case SW => 5 case W => 6 case NW => 7
  }

  /** Order lists each direction once. */
  lemma OrderDistinct(i: int, j: int)
    requires 0 <= i < |Order| && 0 <= j < |Order| && i != j
    ensures Order[i] != Order[j]
  {
    assert OrderIndex(Order[i]) == i && OrderIndex(Order[j]) == j;
  }

  /** base moved i steps of size delta (delta is -1, 0 or 1). */
  function Step(base: int, delta: int, i: int): int
  {
    if delta > 0 then base + i else if delta < 0 then base - i else base
  }

  /** Row of the cell i steps from row r in direction d. */
  function RayRow(r: int, d: Direction, i: int): int { Step(r, d.DRow(), i) }

  /** Column of the cell i steps from column c in direction d. */
  function RayCol(c: int, d: Direction, i: int): int { Step(c, d.DCol(), i) }

  /** (x, y) lies i steps from (r, c) in direction d. */
  predicate AtDistance(r: int, c: int, d: Direction, i: int, x: int, y: int)
  {
    x == RayRow(r, d, i) && y == RayCol(c, d, i)
  }

  /** The only number of steps that can lead from (r, c) to (x, y) in direction d. */
  function RayIndex(r: int, c: int, d: Direction, x: int, y: int): (i: int)
    ensures forall j :: AtDistance(r, c, d, j, x, y) ==> j == i
  {
    if d.DRow() > 0 then x - r
    else if d.DRow() < 0 then r - x
    else if d.DCol() > 0 then y - c
    else c - y
  }

  /** Rays from one cell meet only at that cell: a cell reached by a positive
      number of steps determines both the direction and the number of steps. */
  lemma RaysDisjoint(r: int, c: int, d1: Direction, i: int, d2: Direction, j: int)
    requires 1 <= i && 1 <= j
    requires RayRow(r, d1, i) == RayRow(r, d2, j) && RayCol(c, d1, i) == RayCol(c, d2, j)
    ensures d1 == d2 && i == j
  {
  }

  /** A ray from an on-board cell leaves the board within seven steps. */
  lemma RayBound(r: int, c: int, d: Direction, i: int)
    requires OnBoard(r, c) && OnBoard(RayRow(r, d, i), RayCol(c, d, i))
    ensures i <= SIZE - 1
  {
  }

  // ---------------------------------------------------------------------
  // Legality (board.c Board_legalMove, Board_moveIsValid, Board_nextMove)

  /** Walking from (r, c) in direction d crosses exactly k opponent tiles and
      then reaches an on-board tile of p. */
  ghost predicate Brackets(g: Grid, p: int, r: int, c: int, d: Direction, k: int)
    requires WellFormed(g)
  {
    && 1 <= k
    && (forall i :: 1 <= i <= k ==> At(g, RayRow(r, d, i), RayCol(c, d, i)) == Other(p))
    && OnBoard(RayRow(r, d, k + 1), RayCol(c, d, k + 1))
    && At(g, RayRow(r, d, k + 1), RayCol(c, d, k + 1)) == p
  }

  /** A bracketed run in one direction has only one possible length. */
  lemma BracketsUnique(g: Grid, p: int, r: int, c: int, d: Direction, k1: int, k2: int)
    requires WellFormed(g) && IsPlayer(p)
    requires Brackets(g, p, r, c, d, k1) && Brackets(g, p, r, c, d, k2)
    ensures k1 == k2
  {
    var lo, hi := if k1 <= k2 then k1 else k2, if k1 <= k2 then k2 else k1;
    assert Brackets(g, p, r, c, d, lo) && Brackets(g, p, r, c, d, hi);
    // The cell just past the shorter run closes it, so it is not an opponent tile.
    assert At(g, RayRow(r, d, lo + 1), RayCol(c, d, lo + 1)) == p;
  }

  /** Every cell of a bracketed run, and its closing tile, is on the board. */
  lemma BracketsCells(g: Grid, p: int, r: int, c: int, d: Direction, k: int, i: int)
    requires WellFormed(g) && IsPlayer(p) && Brackets(g, p, r, c, d, k)
    requires 1 <= i <= k + 1
    ensures OnBoard(RayRow(r, d, i), RayCol(c, d, i))
    ensures At(g, RayRow(r, d, i), RayCol(c, d, i)) == if i <= k then Other(p) else p
  {
  }

  /** Playing p at (r, c) brackets at least one opponent tile in direction d. */
  ghost predicate LegalInDirection(g: Grid, p: int, r: int, c: int, d: Direction)
    requires WellFormed(g)
  {
    exists k :: Brackets(g, p, r, c, d, k)
  }

  /** The walk of Board_legalMove has crossed k - 1 >= 1 opponent tiles and
      stands on an on-board tile of p: the run of k - 1 tiles is bracketed. */
  lemma WalkFindsBracket(g: Grid, p: int, r: int, c: int, d: Direction, k: int)
    requires WellFormed(g) && 2 <= k
    requires forall i :: 1 <= i < k ==> At(g, RayRow(r, d, i), RayCol(c, d, i)) == Other(p)
    requires OnBoard(RayRow(r, d, k), RayCol(c, d, k)) && g[RayRow(r, d, k)][RayCol(c, d, k)] == p
    ensures Brackets(g, p, r, c, d, k - 1) && LegalInDirection(g, p, r, c, d)
  {
  }

  /** The walk of Board_legalMove stopped after k steps without a bracket:
      the first k - 1 cells are the opponent's, the k-th is not, and (when
      k >= 2) the k-th is not an on-board tile of p. Then no run is bracketed. */
  lemma WalkFindsNoBracket(g: Grid, p: int, r: int, c: int, d: Direction, k: int)
    requires WellFormed(g) && IsPlayer(p) && 1 <= k
    requires forall i :: 1 <= i < k ==> At(g, RayRow(r, d, i), RayCol(c, d, i)) == Other(p)
    requires At(g, RayRow(r, d, k), RayCol(c, d, k)) != Other(p)
    requires 2 <= k ==> !(OnBoard(RayRow(r, d, k), RayCol(c, d, k)) && At(g, RayRow(r, d, k), RayCol(c, d, k)) == p)
    ensures !LegalInDirection(g, p, r, c, d)
  {
    forall j | 1 <= j ensures !Brackets(g, p, r, c, d, j) {
      if j + 1 < k {
        assert At(g, RayRow(r, d, j + 1), RayCol(c, d, j + 1)) == Other(p);
      } else if k <= j {
        assert At(g, RayRow(r, d, k), RayCol(c, d, k)) != Other(p);
      }
    }
  }

  /** Board_moveIsValid: an empty on-board cell that brackets in some direction. */
  ghost predicate IsValidMove(g: Grid, p: int, r: int, c: int)
    requires WellFormed(g)
  {
    OnBoard(r, c) && g[r][c] == EMPTY && exists d :: LegalInDirection(g, p, r, c, d)
  }

  /** Board_nextMove: p has a valid move somewhere. */
  ghost predicate HasMove(g: Grid, p: int)
    requires WellFormed(g)
  {
    exists r, c :: IsValidMove(g, p, r, c)
  }

  /** Neither player can move: the match is over. */
  ghost predicate GameOver(g: Grid)
    requires WellFormed(g)
  {
    !HasMove(g, FIRST) && !HasMove(g, SECOND)
  }

  // ---------------------------------------------------------------------
  // Flipping (board.c Board_flipTiles, Board_makeMove)

  /** The number of opponent tiles p flips in direction d when playing (r, c):
      the length of the bracketed run, or 0 when the direction brackets nothing. */
  ghost function FlipLength(g: Grid, p: int, r: int, c: int, d: Direction): (k: int)
    requires WellFormed(g)
    ensures k == 0 <==> !LegalInDirection(g, p, r, c, d)
    ensures k != 0 ==> Brackets(g, p, r, c, d, k)
  {
    if LegalInDirection(g, p, r, c, d) then var k :| Brackets(g, p, r, c, d, k); k else 0
  }

  /** (x, y) is one of the tiles p flips in direction d by playing (r, c). */
  ghost predicate InRun(g: Grid, p: int, r: int, c: int, d: Direction, x: int, y: int)
    requires WellFormed(g)
  {
    var i := RayIndex(r, c, d, x, y);
    1 <= i <= FlipLength(g, p, r, c, d) && AtDistance(r, c, d, i, x, y)
  }

  /** A flipped tile is an on-board tile of the opponent. */
  lemma InRunIsOpponent(g: Grid, p: int, r: int, c: int, d: Direction, x: int, y: int)
    requires WellFormed(g) && IsPlayer(p) && InRun(g, p, r, c, d, x, y)
    ensures OnBoard(x, y) && g[x][y] == Other(p)
  {
    BracketsCells(g, p, r, c, d, FlipLength(g, p, r, c, d), RayIndex(r, c, d, x, y));
  }

  /** (x, y) is flipped in some direction by p playing (r, c). */
  ghost predicate Flipped(g: Grid, p: int, r: int, c: int, x: int, y: int)
    requires WellFormed(g)
  {
    exists d :: InRun(g, p, r, c, d, x, y)
  }

  /** The grid after Board_flipTiles(d): the run bracketed in direction d becomes p. */
  ghost function FlipDirection(g: Grid, p: int, r: int, c: int, d: Direction): (h: Grid)
    requires WellFormed(g) && IsPlayer(p)
    ensures WellFormed(h)
    ensures forall x, y :: 0 <= x < SIZE && 0 <= y < SIZE ==>
              h[x][y] == if InRun(g, p, r, c, d, x, y) then p else g[x][y]
  {
    seq(SIZE, x requires 0 <= x < SIZE =>
      seq(SIZE, y requires 0 <= y < SIZE => if InRun(g, p, r, c, d, x, y) then p else g[x][y]))
  }

  /** g with the cell (r, c) set to v. */
  ghost function SetCell(g: Grid, r: int, c: int, v: int): (h: Grid)
    requires WellFormed(g) && OnBoard(r, c) && IsTile(v)
    ensures WellFormed(h)
    ensures forall x, y :: 0 <= x < SIZE && 0 <= y < SIZE ==> h[x][y] == if x == r && y == c then v else g[x][y]
  {
    g[r := g[r][c := v]]
  }

  /** Board_makeMove step by step: (r, c) set to p, then Board_flipTiles in
      the first n directions of Order, one after the other. */
  ghost function Placed(g: Grid, p: int, r: int, c: int, n: nat): (h: Grid)
    requires WellFormed(g) && IsPlayer(p) && OnBoard(r, c) && n <= |Order|
    ensures WellFormed(h)
  {
    if n == 0 then SetCell(g, r, c, p)
    else FlipDirection(Placed(g, p, r, c, n - 1), p, r, c, Order[n - 1])
  }

  /** The grid after p plays (r, c), as Board_makeMove computes it. */
  ghost function AfterMove(g: Grid, p: int, r: int, c: int): (h: Grid)
    requires WellFormed(g) && IsPlayer(p) && OnBoard(r, c)
    ensures WellFormed(h)
  {
    Placed(g, p, r, c, |Order|)
  }

  /** (x, y) lies in the run p flips (in g) in one of the first n directions of Order. */
  ghost predicate FlippedBefore(g: Grid, p: int, r: int, c: int, n: nat, x: int, y: int)
    requires WellFormed(g) && n <= |Order|
  {
    n > 0 && (FlippedBefore(g, p, r, c, n - 1, x, y) || InRun(g, p, r, c, Order[n - 1], x, y))
  }

  /** If g and h agree on every cell of the ray in direction d (except the
      start), they bracket the same run in that direction. */
  lemma SameRaySameRun(g: Grid, h: Grid, p: int, r: int, c: int, d: Direction)
    requires WellFormed(g) && WellFormed(h) && IsPlayer(p)
    requires forall i :: 1 <= i ==> At(g, RayRow(r, d, i), RayCol(c, d, i)) == At(h, RayRow(r, d, i), RayCol(c, d, i))
    ensures FlipLength(g, p, r, c, d) == FlipLength(h, p, r, c, d)
  {
    forall k | 1 <= k ensures Brackets(g, p, r, c, d, k) <==> Brackets(h, p, r, c, d, k) {
      assert At(g, RayRow(r, d, k + 1), RayCol(c, d, k + 1)) == At(h, RayRow(r, d, k + 1), RayCol(c, d, k + 1));
    }
    var kg, kh := FlipLength(g, p, r, c, d), FlipLength(h, p, r, c, d);
    if kg != 0 && kh != 0 {
      BracketsUnique(g, p, r, c, d, kg, kh);
    }
  }

  /** h is g with the cells at distances j + 1 .. run + 1 along direction d
      set to p: the state of the walk back of Board_flipTiles at distance j. */
  ghost predicate RunSetFrom(g: Grid, h: Grid, p: int, r: int, c: int, d: Direction, run: int, j: int)
    requires WellFormed(g) && WellFormed(h)
  {
    forall x, y :: 0 <= x < SIZE && 0 <= y < SIZE ==>
      h[x][y] == if j < RayIndex(r, c, d, x, y) <= run + 1 && AtDistance(r, c, d, RayIndex(r, c, d, x, y), x, y)
                 then p else g[x][y]
  }

  /** One step of the walk back: setting the cell at distance j extends the
      flipped part of the ray down to j. */
  lemma RunSetStep(g: Grid, h: Grid, p: int, r: int, c: int, d: Direction, run: int, j: int)
    requires WellFormed(g) && WellFormed(h) && IsPlayer(p) && 1 <= j <= run + 1
    requires OnBoard(RayRow(r, d, j), RayCol(c, d, j))
    requires RunSetFrom(g, h, p, r, c, d, run, j)
    ensures RunSetFrom(g, SetCell(h, RayRow(r, d, j), RayCol(c, d, j), p), p, r, c, d, run, j - 1)
  {
  }

  /** The walk back of Board_flipTiles has reached the played cell: h, which
      is g with the bracketed run and the closing tile set to p, is g with
      that run flipped. */
  lemma FlipRunDone(g: Grid, h: Grid, p: int, r: int, c: int, d: Direction, run: int)
    requires WellFormed(g) && WellFormed(h) && IsPlayer(p) && OnBoard(r, c)
    requires Brackets(g, p, r, c, d, run)
    requires RunSetFrom(g, h, p, r, c, d, run, 0)
    ensures h == FlipDirection(g, p, r, c, d)
  {
    var k := FlipLength(g, p, r, c, d);
    BracketsUnique(g, p, r, c, d, k, run);
    forall x, y | 0 <= x < SIZE && 0 <= y < SIZE
      ensures h[x][y] == FlipDirection(g, p, r, c, d)[x][y]
    {
      if RayIndex(r, c, d, x, y) == run + 1 && AtDistance(r, c, d, run + 1, x, y) {
        BracketsCells(g, p, r, c, d, run, run + 1);
      }
    }
    GridExtensionality(h, FlipDirection(g, p, r, c, d));
  }

  /** No cell of the ray in direction Order[n] lies in a run of an earlier
      direction: rays from one cell share no other cell. */
  lemma {:induction false} RayNotFlippedBefore(g: Grid, p: int, r: int, c: int, m: nat, n: int, i: int)
    requires WellFormed(g) && m <= n < |Order| && 1 <= i
    ensures !FlippedBefore(g, p, r, c, m, RayRow(r, Order[n], i), RayCol(c, Order[n], i))
  {
    if m > 0 {
      RayNotFlippedBefore(g, p, r, c, m - 1, n, i);
      var x, y := RayRow(r, Order[n], i), RayCol(c, Order[n], i);
      if InRun(g, p, r, c, Order[m - 1], x, y) {
        RaysDisjoint(r, c, Order[n], i, Order[m - 1], RayIndex(r, c, Order[m - 1], x, y));
        OrderDistinct(m - 1, n);
      }
    }
  }

  /** The flips of Board_makeMove do not interfere: after the first n of
      them, a cell is p exactly when it is (r, c) or lies in a run that one
      of those directions brackets in the original grid g. */
  lemma {:induction false} PlacedCells(g: Grid, p: int, r: int, c: int, n: nat)
    requires WellFormed(g) && IsPlayer(p) && OnBoard(r, c) && n <= |Order|
    ensures forall x, y :: 0 <= x < SIZE && 0 <= y < SIZE ==>
              Placed(g, p, r, c, n)[x][y] == if (x == r && y == c) || FlippedBefore(g, p, r, c, n, x, y) then p else g[x][y]
  {
    if n > 0 {
      PlacedCells(g, p, r, c, n - 1);
      var h, d := Placed(g, p, r, c, n - 1), Order[n - 1];
      forall i | 1 <= i
        ensures At(g, RayRow(r, d, i), RayCol(c, d, i)) == At(h, RayRow(r, d, i), RayCol(c, d, i))
      {
        RayNotFlippedBefore(g, p, r, c, n - 1, n - 1, i);
      }
      SameRaySameRun(g, h, p, r, c, d);
    }
  }

  /** Board_makeMove's result cell by cell: the played cell and every tile
      flipped in some direction become p; nothing else changes. */
  lemma AfterMoveCells(g: Grid, p: int, r: int, c: int)
    requires WellFormed(g) && IsPlayer(p) && OnBoard(r, c)
    ensures forall x, y :: 0 <= x < SIZE && 0 <= y < SIZE ==>
              AfterMove(g, p, r, c)[x][y] == if (x == r && y == c) || Flipped(g, p, r, c, x, y) then p else g[x][y]
  {
    PlacedCells(g, p, r, c, |Order|);
    forall x, y | 0 <= x < SIZE && 0 <= y < SIZE
      ensures FlippedBefore(g, p, r, c, |Order|, x, y) <==> Flipped(g, p, r, c, x, y)
    {
      FlippedBeforeSome(g, p, r, c, |Order|, x, y);
      if Flipped(g, p, r, c, x, y) {
        var d :| InRun(g, p, r, c, d, x, y);
        assert InRun(g, p, r, c, Order[OrderIndex(d)], x, y);
      }
    }
  }

  /** FlippedBefore(n) names some direction among the first n of Order. */
  lemma {:induction false} FlippedBeforeSome(g: Grid, p: int, r: int, c: int, n: nat, x: int, y: int)
    requires WellFormed(g) && n <= |Order|
    ensures FlippedBefore(g, p, r, c, n, x, y) <==> exists i :: 0 <= i < n && InRun(g, p, r, c, Order[i], x, y)
  {
    if n > 0 {
      FlippedBeforeSome(g, p, r, c, n - 1, x, y);
    }
  }

  // ---------------------------------------------------------------------
  // Counting and scoring (board.c Board_countTiles, Board_endGame, Board_endGameBad)

  /** The cells holding v. */
  ghost function CellsOf(g: Grid, v: int): set<(int, int)>
    requires WellFormed(g)
  {
    set x, y | 0 <= x < SIZE && 0 <= y < SIZE && g[x][y] == v :: (x, y)
  }

  /** The cells holding v that come before (row, col) in row-major order. */
  ghost function CellsBefore(g: Grid, v: int, row: int, col: int): set<(int, int)>
    requires WellFormed(g)
  {
    set x, y | 0 <= x < SIZE && 0 <= y < SIZE && (x < row || (x == row && y < col)) && g[x][y] == v :: (x, y)
  }

  /** The cells flipped by p playing (r, c). */
  ghost function FlippedCells(g: Grid, p: int, r: int, c: int): set<(int, int)>
    requires WellFormed(g)
  {
    set x, y | 0 <= x < SIZE && 0 <= y < SIZE && Flipped(g, p, r, c, x, y) :: (x, y)
  }

  /** Advancing a row-major scan by one cell adds that cell when it holds v. */
  lemma CellsBeforeStep(g: Grid, v: int, row: int, col: int)
    requires WellFormed(g) && OnBoard(row, col)
    ensures (row, col) !in CellsBefore(g, v, row, col)
    ensures CellsBefore(g, v, row, col + 1)
            == CellsBefore(g, v, row, col) + (if g[row][col] == v then {(row, col)} else {})
  {
  }

  /** A scan that has finished a row has finished the cells before the next one. */
  lemma CellsBeforeRowEnd(g: Grid, v: int, row: int)
    requires WellFormed(g)
    ensures CellsBefore(g, v, row, SIZE) == CellsBefore(g, v, row + 1, 0)
  {
  }

  /** A scan past the last row has seen every cell. */
  lemma CellsBeforeAll(g: Grid, v: int)
    requires WellFormed(g)
    ensures CellsBefore(g, v, SIZE, 0) == CellsOf(g, v)
    ensures CellsBefore(g, v, 0, 0) == {}
  {
  }

  /** The score of a finished game: FIRST's tiles minus SECOND's. */
  ghost function TileDiff(g: Grid): int
    requires WellFormed(g)
  {
    |CellsOf(g, FIRST)| - |CellsOf(g, SECOND)|
  }

  /** The score when the player on turn forfeits (bad move or crash): the
      extreme score in favour of the other player. */
  function Forfeit(p: int): (score: int)
    ensures p == FIRST ==> score == MIN_SCORE
    ensures p != FIRST ==> score == MAX_SCORE
  {
    if p == FIRST then MIN_SCORE else MAX_SCORE
  }

  datatype Winner = FirstWins | SecondWins | Drawn

  /** The winner the log names for a score: the sign of the score decides. */
  function WinnerOf(score: int): (w: Winner)
    ensures w == FirstWins <==> score > 0
    ensures w == SecondWins <==> score < 0
    ensures w == Drawn <==> score == 0
  {
    if score > 0 then FirstWins else if score < 0 then SecondWins else Drawn
  }

  // ---------------------------------------------------------------------
  // Turn advance (board.c Board_draw)

  /** Whose turn it is after p has moved: the opponent, unless the opponent
      cannot move, in which case p again. */
  ghost function NextPlayer(g: Grid, p: int): (q: int)
    requires WellFormed(g)
    ensures IsPlayer(p) ==> IsPlayer(q)
    ensures IsPlayer(p) && !GameOver(g) ==> HasMove(g, q)
  {
    if HasMove(g, Other(p)) then Other(p) else p
  }

  // ---------------------------------------------------------------------
  // The initial position (board.c Board_init)

  function InitialTile(x: int, y: int): int
  {
    if (x == INITIAL_TILE1 && y == INITIAL_TILE1) || (x == INITIAL_TILE2 && y == INITIAL_TILE2) then SECOND
    else if (x == INITIAL_TILE1 && y == INITIAL_TILE2) || (x == INITIAL_TILE2 && y == INITIAL_TILE1) then FIRST
    else EMPTY
  }

  function InitialGrid(): (g: Grid)
    ensures WellFormed(g)
    ensures forall x, y :: 0 <= x < SIZE && 0 <= y < SIZE ==> g[x][y] == InitialTile(x, y)
  {
    seq(SIZE, x => seq(SIZE, y => InitialTile(x, y)))
  }
}
