/*
 * The board object of board.c: an 8x8 integer grid changed in place and the
 * number of the player on turn. The ghost field grid mirrors the array as a
 * value, and every operation is proved against the value-level rules of
 * module Rules.
 */
module GameBoard {
  import opened Rules

  class Board {
    /** board[row][column]: 0 empty, 1 FIRST, 2 SECOND. */
    var cells: array2<int>
    /** The player on turn, 1 or 2. */
    var player: int
    /** The contents of cells as a value. */
    ghost var grid: Grid

    /** The array is 8x8 and holds exactly grid; the player on turn is 1 or 2. */
    ghost predicate Valid()
      reads this, cells
    {
      && cells.Length0 == SIZE && cells.Length1 == SIZE
      && WellFormed(grid)
      && (forall r, c :: 0 <= r < SIZE && 0 <= c < SIZE ==> cells[r, c] == grid[r][c])
      && IsPlayer(player)
    }

    /** Board_init: the four centre tiles, FIRST to move. */
    constructor ()
      ensures Valid() && fresh(cells)
      ensures grid == InitialGrid() && player == FIRST
    {
      var a := new int[SIZE, SIZE]((r, c) => EMPTY);
      a[INITIAL_TILE1, INITIAL_TILE1] := SECOND;
      a[INITIAL_TILE2, INITIAL_TILE2] := SECOND;
      a[INITIAL_TILE1, INITIAL_TILE2] := FIRST;
      a[INITIAL_TILE2, INITIAL_TILE1] := FIRST;
      assert forall x, y :: 0 <= x < SIZE && 0 <= y < SIZE ==> a[x, y] == InitialTile(x, y);
      cells := a;
      player := FIRST;
      grid := InitialGrid();
    }

    /** The cell at (r, c), reading anything off the board as empty. */
    function Get(r: int, c: int): (v: int)
      reads this, cells
      requires Valid()
      ensures v == At(grid, r, c)
    {
      if OnBoard(r, c) then cells[r, c] else EMPTY
    }

    /** Board_getSymbol: the character for the cell at (row, column). */
    function Symbol(row: int, column: int): (ch: char)
      reads this, cells
      requires Valid() && OnBoard(row, column)
      ensures ch == TileSymbol(grid[row][column])
      ensures ch in {'.', 'x', 'o'}
    {
      TileSymbol(cells[row, column])
    }

    /** The walk shared by Board_legalMove and the first loop of
        Board_flipTiles: step from (row, column) in direction d over the
        opponent's tiles; closed tells whether a tile of the player on turn
        ends the run, and then (rEnd, cEnd) is that tile, run + 1 steps away. */
    method ClosingTile(row: int, column: int, d: Direction)
      returns (closed: bool, ghost run: int, rEnd: int, cEnd: int)
      requires Valid() && OnBoard(row, column)
      ensures closed == LegalInDirection(grid, player, row, column, d)
      ensures closed ==> Brackets(grid, player, row, column, d, run)
      ensures closed ==> rEnd == RayRow(row, d, run + 1) && cEnd == RayCol(column, d, run + 1)
    {
      rEnd := row + d.DRow();
      cEnd := column + d.DCol();
      ghost var k := 1;
      while Get(rEnd, cEnd) == Other(player)
        invariant 1 <= k && rEnd == RayRow(row, d, k) && cEnd == RayCol(column, d, k)
        invariant forall i :: 1 <= i < k ==> At(grid, RayRow(row, d, i), RayCol(column, d, i)) == Other(player)
        invariant 2 <= k ==> !(OnBoard(rEnd, cEnd) && At(grid, rEnd, cEnd) == player)
        decreases SIZE - k
      {
        RayBound(row, column, d, k);
        rEnd := rEnd + d.DRow();
        cEnd := cEnd + d.DCol();
        k := k + 1;
        if OnBoard(rEnd, cEnd) && cells[rEnd, cEnd] == player {
          WalkFindsBracket(grid, player, row, column, d, k);
          return true, k - 1, rEnd, cEnd;
        }
      }
      WalkFindsNoBracket(grid, player, row, column, d, k);
      return false, 0, rEnd, cEnd;
    }

    /** Board_legalMove: whether a tile of the player on turn closes a run of
        opponent tiles from (row, column) in direction d. */
    method LegalMove(row: int, column: int, d: Direction) returns (found: bool)
      requires Valid() && OnBoard(row, column)
      ensures found == LegalInDirection(grid, player, row, column, d)
    {
      var rEnd, cEnd;
      ghost var run;
      found, run, rEnd, cEnd := ClosingTile(row, column, d);
    }

    /** Board_moveIsValid: (row, column) is on the board, empty, and brackets
        opponent tiles in one of the eight directions, tried N, NE, E, SE, S,
        SW, W, NW. */
    method MoveIsValid(row: int, column: int) returns (valid: bool)
      requires Valid()
      ensures valid == IsValidMove(grid, player, row, column)
    {
      if OnBoard(row, column) && cells[row, column] == EMPTY {
        var found := LegalMove(row, column, N);
        if found { return true; }
        found := LegalMove(row, column, NE);
        if found { return true; }
        found := LegalMove(row, column, E);
        if found { return true; }
        found := LegalMove(row, column, SE);
        if found { return true; }
        found := LegalMove(row, column, S);
        if found { return true; }
        found := LegalMove(row, column, SW);
        if found { return true; }
        found := LegalMove(row, column, W);
        if found { return true; }
        found := LegalMove(row, column, NW);
        if found { return true; }
      }
      return false;
    }

    /** Board_nextMove: scan the board row by row for a valid move of the
        player on turn. */
    method NextMove() returns (found: bool)
      requires Valid()
      ensures found == HasMove(grid, player)
    {
      for row := 0 to SIZE
        invariant forall x, y :: 0 <= x < row && 0 <= y < SIZE ==> !IsValidMove(grid, player, x, y)
      {
        for column := 0 to SIZE
          invariant forall x, y :: 0 <= x < row && 0 <= y < SIZE ==> !IsValidMove(grid, player, x, y)
          invariant forall y :: 0 <= y < column ==> !IsValidMove(grid, player, row, y)
        {
          var valid := MoveIsValid(row, column);
          if valid { return true; }
        }
      }
      return false;
    }

    /** Board_countTiles: the number of cells holding v. */
    method CountTiles(v: int) returns (count: int)
      requires Valid()
      ensures count == |CellsOf(grid, v)|
    {
      ghost var g := grid;
      count := 0;
      CellsBeforeAll(g, v);
      for row := 0 to SIZE
        invariant count == |CellsBefore(g, v, row, 0)|
      {
        for column := 0 to SIZE
          invariant count == |CellsBefore(g, v, row, column)|
        {
          CellsBeforeStep(g, v, row, column);
          if cells[row, column] == v {
            count := count + 1;
          }
        }
        CellsBeforeRowEnd(g, v, row);
      }
    }

    /** The assignment board[r][c] = v, keeping grid in step. */
    method Put(r: int, c: int, v: int)
      requires Valid() && OnBoard(r, c) && IsTile(v)
      modifies this`grid, cells
      ensures Valid()
      ensures grid == SetCell(old(grid), r, c, v)
    {
      cells[r, c] := v;
      grid := SetCell(grid, r, c, v);
    }

    /** Board_flipTiles: when a tile of the player on turn closes a run of
        opponent tiles in direction d, walk back to (row, column) turning the
        run (and the closing tile) into the player's. */
    method FlipTiles(row: int, column: int, d: Direction)
      requires Valid() && OnBoard(row, column)
      modifies this`grid, cells
      ensures Valid()
      ensures grid == FlipDirection(old(grid), player, row, column, d)
    {
      var closed, rEnd, cEnd;
      ghost var run;
      closed, run, rEnd, cEnd := ClosingTile(row, column, d);
      if closed {
        FlipBack(row, column, d, run, rEnd, cEnd);
      } else {
        GridExtensionality(grid, FlipDirection(grid, player, row, column, d));
      }
    }

    /** The second loop of Board_flipTiles: from the closing tile at distance
        run + 1, set each cell to the player's while stepping back, until
        (row, column) is reached. */
    method FlipBack(row: int, column: int, d: Direction, ghost run: int, rEnd: int, cEnd: int)
      requires Valid() && OnBoard(row, column)
      requires Brackets(grid, player, row, column, d, run)
      requires rEnd == RayRow(row, d, run + 1) && cEnd == RayCol(column, d, run + 1)
      modifies this`grid, cells
      ensures Valid()
      ensures grid == FlipDirection(old(grid), player, row, column, d)
    {
      ghost var g := grid;
      var rTemp, cTemp := rEnd, cEnd;
      ghost var j := run + 1;
      while true
        invariant Valid() && WellFormed(g)
        invariant 1 <= j <= run + 1 && rTemp == RayRow(row, d, j) && cTemp == RayCol(column, d, j)
        invariant RunSetFrom(g, grid, player, row, column, d, run, j)
        decreases j
      {
        BracketsCells(g, player, row, column, d, run, j);
        RunSetStep(g, grid, player, row, column, d, run, j);
        Put(rTemp, cTemp, player);
        rTemp := rTemp - d.DRow();
        cTemp := cTemp - d.DCol();
        j := j - 1;
        if rTemp == row && cTemp == column {
          FlipRunDone(g, grid, player, row, column, d, run);
          return;
        }
      }
    }

    /** The n-th of Board_makeMove's eight Board_flipTiles calls, after the
        first n have brought g to Placed(g, ..., n). */
    method FlipNext(row: int, column: int, d: Direction, ghost g: Grid, ghost n: nat)
      requires Valid() && OnBoard(row, column) && WellFormed(g)
      requires n < |Order| && d == Order[n] && grid == Placed(g, player, row, column, n)
      modifies this`grid, cells
      ensures Valid() && grid == Placed(g, player, row, column, n + 1)
    {
      FlipTiles(row, column, d);
    }

    /** Board_makeMove: place the player's tile at (row, column), then flip
        in the eight directions. Returns 1, as the source always does. */
    method MakeMove(row: int, column: int) returns (ok: int)
      requires Valid() && OnBoard(row, column)
      modifies this`grid, cells
      ensures Valid()
      ensures grid == AfterMove(old(grid), player, row, column)
      ensures ok == 1
    {
      ghost var g := grid;
      Put(row, column, player);
      FlipNext(row, column, N, g, 0);
      FlipNext(row, column, NE, g, 1);
      FlipNext(row, column, E, g, 2);
      FlipNext(row, column, SE, g, 3);
      FlipNext(row, column, S, g, 4);
      FlipNext(row, column, SW, g, 5);
      FlipNext(row, column, W, g, 6);
      FlipNext(row, column, NW, g, 7);
      return 1;
    }

    /** Board_draw (its turn logic): hand the turn to the opponent if the
        opponent can move, else back to the player who just moved; return 0
        when neither can move, otherwise the player who just moved. */
    method Draw() returns (justMoved: int)
      requires Valid()
      modifies this`player
      ensures Valid()
      ensures player == NextPlayer(grid, old(player))
      ensures justMoved == if GameOver(grid) then 0 else old(player)
    {
      player := Other(player);
      var found := NextMove();
      if !found {
        player := Other(player);
        found := NextMove();
        if !found { return 0; }
        return player;
      }
      return Other(player);
    }

    /** Board_endGame (its score): FIRST's tiles minus SECOND's, whoever is on
        turn, and the winner the log names. */
    method EndGame() returns (score: int, winner: Winner)
      requires Valid()
      ensures score == TileDiff(grid)
      ensures winner == WinnerOf(score)
    {
      var count1, count2;
      if player == FIRST {
        count1 := CountTiles(player);
        count2 := CountTiles(Other(player));
      } else {
        count2 := CountTiles(player);
        count1 := CountTiles(Other(player));
      }
      score := count1 - count2;
      if count1 > count2 {
        winner := FirstWins;
      } else if count2 > count1 {
        winner := SecondWins;
      } else {
        winner := Drawn;
      }
    }

    /** Board_endGameBad (its score): the player on turn forfeits, whatever
        the tiles on the board. */
    method EndGameBad() returns (score: int, winner: Winner)
      requires Valid()
      ensures score == Forfeit(player)
      ensures winner == WinnerOf(score)
      ensures winner == if player == FIRST then SecondWins else FirstWins
    {
      if player == FIRST {
        score := MIN_SCORE;
        winner := SecondWins;
      } else {
        score := MAX_SCORE;
        winner := FirstWins;
      }
    }
  }
}
