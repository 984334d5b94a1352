/**
 * The query phase of the uniform-grid broad phase (`grid_update`): every
 * ball meets every ball of the 3 x 3 block of cells around its
 * own, skipping neighbours off the edge of the grid.
 */
module GridQuery {
  import opened Constants
  import opened Calls
  import opened Grid

  /** The neighbourhood `grid_update` visits, as (row, column) offsets in its order. */
  const Offsets: seq<(int, int)> :=
    [(-1, -1), (-1, 0), (-1, 1),
     (0, -1), (0, 0), (0, 1),
     (1, -1), (1, 0), (1, 1)]

  /** `h` rows of `w` cells each. */
  predicate Shaped(grid: Grid, h: int, w: int)
  {
    |grid| == h && forall y | 0 <= y < h :: |grid[y]| == w
  }

  /** Whether (ni, nj) names a cell of the grid. */
  predicate OnGrid(grid: Grid, ni: int, nj: int)
  {
    0 <= ni < |grid| && 0 <= nj < |grid[ni]|
  }

  /** Whether two cells are equal or touch, along a side or at a corner. */
  predicate Adjacent(c: Cell, d: Cell)
  {
    -1 <= c.row - d.row <= 1 && -1 <= c.col - d.col <= 1
  }

  /** No offset is listed twice. */
  predicate DistinctOffsets(offsets: seq<(int, int)>)
  {
    forall p, q | 0 <= p < q < |offsets| :: offsets[p] != offsets[q]
  }

  /** The offsets list every one of the nine cells around a cell, once. */
  lemma OffsetsDistinct()
    ensures DistinctOffsets(Offsets)
  {
  }

  /** An offset is listed exactly when it moves at most one row and one column. */
  lemma OffsetsNeighbourhood(dr: int, dc: int)
    ensures (dr, dc) in Offsets <==> -1 <= dr <= 1 && -1 <= dc <= 1
  {
  }

  // ---------------------------------------------------------------------------
  // The calls, as a function of the grid

  /** Calls of `ball` against the cell (ni, nj); none when it is off the grid. */
  function NeighbourCalls(grid: Grid, ball: BallId, ni: int, nj: int): seq<Call>
  {
    if OnGrid(grid, ni, nj) then CallsAgainst(ball, grid[ni][nj]) else []
  }

  /** Calls of `ball`, filed at (i, j), against the cells at `offsets` from it, in order. */
  function OffsetCalls(grid: Grid, ball: BallId, i: int, j: int, offsets: seq<(int, int)>): seq<Call>
  {
    if offsets == [] then []
    else
      var d := offsets[|offsets| - 1];
      OffsetCalls(grid, ball, i, j, offsets[..|offsets| - 1]) + NeighbourCalls(grid, ball, i + d.0, j + d.1)
  }

  /** Calls made for the balls `balls` filed at (i, j), in order. */
  function CellCalls(grid: Grid, i: int, j: int, balls: seq<BallId>, offsets: seq<(int, int)>): seq<Call>
  {
    if balls == [] then []
    else CellCalls(grid, i, j, balls[..|balls| - 1], offsets) + OffsetCalls(grid, balls[|balls| - 1], i, j, offsets)
  }

  /** Calls made for the first j cells of row i. */
  function RowCalls(grid: Grid, i: nat, j: nat, offsets: seq<(int, int)>): seq<Call>
    requires i < |grid| && j <= |grid[i]|
  {
    if j == 0 then [] else RowCalls(grid, i, j - 1, offsets) + CellCalls(grid, i, j - 1, grid[i][j - 1], offsets)
  }

  /** Calls made for the first i rows. */
  function RowsCalls(grid: Grid, i: nat, offsets: seq<(int, int)>): seq<Call>
    requires i <= |grid|
  {
    if i == 0 then [] else RowsCalls(grid, i - 1, offsets) + RowCalls(grid, i - 1, |grid[i - 1]|, offsets)
  }

  /** Every call of one `grid_update` pass, in order: row by row, cell by cell. */
  function GridTrace(grid: Grid): seq<Call>
  {
    RowsCalls(grid, |grid|, Offsets)
  }

  /** On a shaped grid, a neighbour is on the grid exactly when both indices are in range. */
  lemma NeighbourInRange(grid: Grid, h: int, w: int, ball: BallId, ni: int, nj: int)
    requires Shaped(grid, h, w)
    ensures NeighbourCalls(grid, ball, ni, nj)
         == if 0 <= ni < h && 0 <= nj < w then CallsAgainst(ball, grid[ni][nj]) else []
  {
  }

  // ---------------------------------------------------------------------------
  // The loop nest

  /**
   * The offsets loop of `grid_update` for one ball filed at (i, j): each
   * neighbour that lies on the grid is swept with `collision(ball, other)`.
   */
  method CollideNeighbourhood(cfg: Config, grid: Grid, ball: BallId, i: int, j: int, offsets: seq<(int, int)>)
    returns (calls: seq<Call>)
    requires Shaped(grid, cfg.matrixHeight, cfg.matrixWidth)
    ensures calls == OffsetCalls(grid, ball, i, j, offsets)
  {
    calls := [];
    for k := 0 to |offsets|
      invariant calls == OffsetCalls(grid, ball, i, j, offsets[..k])
    {
      var (di, dj) := offsets[k];
      var ni, nj := i + di, j + dj;
      assert offsets[..k + 1][..k] == offsets[..k];
      NeighbourInRange(grid, cfg.matrixHeight, cfg.matrixWidth, ball, ni, nj);
      if 0 <= ni < cfg.matrixHeight && 0 <= nj < cfg.matrixWidth {
        var met := CollideEach(ball, grid[ni][nj]);
        calls := calls + met;
      }
    }
    assert offsets[..|offsets|] == offsets;
  }

  /** The loop of `grid_update` over the balls filed at (i, j). */
  method CollideCell(cfg: Config, grid: Grid, i: int, j: int, cell: seq<BallId>, offsets: seq<(int, int)>)
    returns (calls: seq<Call>)
    requires Shaped(grid, cfg.matrixHeight, cfg.matrixWidth)
    ensures calls == CellCalls(grid, i, j, cell, offsets)
  {
    calls := [];
    for t := 0 to |cell|
      invariant calls == CellCalls(grid, i, j, cell[..t], offsets)
    {
      var met := CollideNeighbourhood(cfg, grid, cell[t], i, j, offsets);
      calls := calls + met;
      assert cell[..t + 1][..t] == cell[..t];
    }
    assert cell[..|cell|] == cell;
  }

  /** The loop of `grid_update` over the cells of row i, skipping empty cells. */
  method CollideRow(cfg: Config, grid: Grid, i: nat, offsets: seq<(int, int)>) returns (calls: seq<Call>)
    requires Shaped(grid, cfg.matrixHeight, cfg.matrixWidth) && i < cfg.matrixHeight
    ensures calls == RowCalls(grid, i, |grid[i]|, offsets)
  {
    calls := [];
    for j := 0 to cfg.matrixWidth
      invariant calls == RowCalls(grid, i, j, offsets)
    {
      if grid[i][j] == [] {
        continue;
      }
      var met := CollideCell(cfg, grid, i, j, grid[i][j], offsets);
      calls := calls + met;
    }
  }

  /**
   * `grid_update`: for each non-empty cell, each ball in it, each offset
   * that stays on the grid, and each ball in that neighbour, call
   * `collision(ball, other)`.
   */
  method GridUpdate(cfg: Config, grid: Grid) returns (calls: seq<Call>)
    requires Shaped(grid, cfg.matrixHeight, cfg.matrixWidth)
    ensures calls == GridTrace(grid)
  {
    var offsets := Offsets;
    calls := [];
    for i := 0 to cfg.matrixHeight
      invariant calls == RowsCalls(grid, i, offsets)
    {
      var met := CollideRow(cfg, grid, i, offsets);
      calls := calls + met;
    }
  }

  // ---------------------------------------------------------------------------
  // Counting the calls

  /** How often ball b is listed in the cell (ni, nj); 0 off the grid. */
  function InCell(grid: Grid, ni: int, nj: int, b: BallId): nat
  {
    if OnGrid(grid, ni, nj) then multiset(grid[ni][nj])[b] else 0
  }

  /** How often ball b is listed in the cells at `offsets` from (i, j). */
  function Hits(grid: Grid, i: int, j: int, b: BallId, offsets: seq<(int, int)>): nat
  {
    if offsets == [] then 0
    else
      var d := offsets[|offsets| - 1];
      Hits(grid, i, j, b, offsets[..|offsets| - 1]) + InCell(grid, i + d.0, j + d.1, b)
  }

  /** `ball` meets each neighbour ball as often as the neighbourhood lists it. */
  lemma {:induction false} OffsetCallsCount(grid: Grid, ball: BallId, i: int, j: int, offsets: seq<(int, int)>, c: Call)
    ensures multiset(OffsetCalls(grid, ball, i, j, offsets))[c]
         == if c.ball == ball then Hits(grid, i, j, c.other, offsets) else 0
  {
    if offsets != [] {
      var d := offsets[|offsets| - 1];
      var before, met := OffsetCalls(grid, ball, i, j, offsets[..|offsets| - 1]), NeighbourCalls(grid, ball, i + d.0, j + d.1);
      assert multiset(OffsetCalls(grid, ball, i, j, offsets))[c] == multiset(before)[c] + multiset(met)[c] by {
        CountSplit(OffsetCalls(grid, ball, i, j, offsets), before, met, c);
      }
      OffsetCallsCount(grid, ball, i, j, offsets[..|offsets| - 1], c);
      if OnGrid(grid, i + d.0, j + d.1) {
        CallsAgainstCount(ball, grid[i + d.0][j + d.1], c);
      }
    }
  }

  /** How often the balls `balls` make call c, given that each listing of c.ball makes `hits` of them. */
  function CellWeight(balls: seq<BallId>, b: BallId, hits: nat): nat
  {
    if balls == [] then 0
    else CellWeight(balls[..|balls| - 1], b, hits) + (if balls[|balls| - 1] == b then hits else 0)
  }

  /** Each listing of c.ball in the cell makes as many calls c as its neighbourhood lists c.other. */
  lemma {:induction false} CellCallsCount(grid: Grid, i: int, j: int, balls: seq<BallId>, offsets: seq<(int, int)>, c: Call)
    ensures multiset(CellCalls(grid, i, j, balls, offsets))[c]
         == CellWeight(balls, c.ball, Hits(grid, i, j, c.other, offsets))
  {
    if balls != [] {
      var before, met := CellCalls(grid, i, j, balls[..|balls| - 1], offsets), OffsetCalls(grid, balls[|balls| - 1], i, j, offsets);
      assert multiset(CellCalls(grid, i, j, balls, offsets))[c] == multiset(before)[c] + multiset(met)[c] by {
        CountSplit(CellCalls(grid, i, j, balls, offsets), before, met, c);
      }
      CellCallsCount(grid, i, j, balls[..|balls| - 1], offsets, c);
      OffsetCallsCount(grid, balls[|balls| - 1], i, j, offsets, c);
    }
  }

  /** A ball listed at most once weighs its hits if listed, nothing otherwise. */
  lemma {:induction false} CellWeightOnce(balls: seq<BallId>, b: BallId, hits: nat)
    requires multiset(balls)[b] <= 1
    ensures CellWeight(balls, b, hits) == if multiset(balls)[b] == 1 then hits else 0
  {
    if balls != [] {
      var init, last := balls[..|balls| - 1], balls[|balls| - 1];
      assert balls == init + [last];
      CellWeightOnce(init, b, hits);
    }
  }

  /** Every ball of `cells` has its cell on the h x w grid. */
  predicate CellsOnGrid(cells: seq<Cell>, h: nat, w: nat)
  {
    forall b | 0 <= b < |cells| :: 0 <= cells[b].row < h && 0 <= cells[b].col < w
  }

  /** The grid `g` (h rows of w cells) lists in each cell exactly the balls of `cells` in it. */
  predicate Files(g: Grid, cells: seq<Cell>, h: nat, w: nat)
  {
    Shaped(g, h, w)
    && forall y, x {:trigger g[y][x]} | 0 <= y < h && 0 <= x < w :: g[y][x] == BallsIn(cells, Cell(y, x))
  }

  lemma GridOfFilesAll(cells: seq<Cell>, h: nat, w: nat)
    ensures Files(GridOf(cells, h, w), cells, h, w)
  {
  }

  /** On a grid that files each ball under its cell, a cell lists exactly its own balls, once each. */
  lemma InCellPlaced(g: Grid, cells: seq<Cell>, h: nat, w: nat, ni: int, nj: int, b: BallId)
    requires CellsOnGrid(cells, h, w) && Files(g, cells, h, w)
    ensures InCell(g, ni, nj, b) == if b < |cells| && cells[b] == Cell(ni, nj) then 1 else 0
  {
    if 0 <= ni < h && 0 <= nj < w {
      assert g[ni][nj] == BallsIn(cells, Cell(ni, nj));
      BallsInCount(cells, Cell(ni, nj), b);
    } else if b < |cells| {
      assert cells[b] != Cell(ni, nj);
    }
  }

  /**
   * Distinct offsets from (i, j) reach the cell of b at most once: exactly
   * when its displacement from (i, j) is listed.
   */
  lemma {:induction false} HitsPlaced(g: Grid, cells: seq<Cell>, h: nat, w: nat, i: int, j: int, b: BallId, offsets: seq<(int, int)>)
    requires CellsOnGrid(cells, h, w) && Files(g, cells, h, w) && DistinctOffsets(offsets)
    ensures Hits(g, i, j, b, offsets)
         == if b < |cells| && (cells[b].row - i, cells[b].col - j) in offsets then 1 else 0
  {
    if offsets != [] {
      var init, d := offsets[..|offsets| - 1], offsets[|offsets| - 1];
      assert offsets == init + [d];
      assert DistinctOffsets(init);
      HitsPlaced(g, cells, h, w, i, j, b, init);
      InCellPlaced(g, cells, h, w, i + d.0, j + d.1, b);
      forall p | 0 <= p < |init|
        ensures init[p] != d
      {
        assert init[p] == offsets[p];
      }
    }
  }

  /** The nine offsets reach the cell of b once if it is adjacent to (i, j), never otherwise. */
  lemma HitsAdjacent(g: Grid, cells: seq<Cell>, h: nat, w: nat, i: int, j: int, b: BallId)
    requires CellsOnGrid(cells, h, w) && Files(g, cells, h, w)
    ensures Hits(g, i, j, b, Offsets)
         == if b < |cells| && Adjacent(Cell(i, j), cells[b]) then 1 else 0
  {
    OffsetsDistinct();
    HitsPlaced(g, cells, h, w, i, j, b, Offsets);
    if b < |cells| {
      OffsetsNeighbourhood(cells[b].row - i, cells[b].col - j);
    }
  }

  /**
   * How often row i's first j cells make call c: for each cell, how often
   * c.ball is listed there times how often the neighbourhood lists c.other.
   */
  function RowWeight(g: Grid, i: nat, j: nat, offsets: seq<(int, int)>, c: Call): nat
    requires i < |g| && j <= |g[i]|
  {
    if j == 0 then 0
    else RowWeight(g, i, j - 1, offsets, c) + CellWeight(g[i][j - 1], c.ball, Hits(g, i, j - 1, c.other, offsets))
  }

  /** The same summed over the first i rows. */
  function RowsWeight(g: Grid, i: nat, offsets: seq<(int, int)>, c: Call): nat
    requires i <= |g|
  {
    if i == 0 then 0 else RowsWeight(g, i - 1, offsets, c) + RowWeight(g, i - 1, |g[i - 1]|, offsets, c)
  }

  lemma {:induction false} RowCallsCount(g: Grid, i: nat, j: nat, offsets: seq<(int, int)>, c: Call)
    requires i < |g| && j <= |g[i]|
    ensures multiset(RowCalls(g, i, j, offsets))[c] == RowWeight(g, i, j, offsets, c)
  {
    if j > 0 {
      var before, cell := RowCalls(g, i, j - 1, offsets), CellCalls(g, i, j - 1, g[i][j - 1], offsets);
      assert multiset(RowCalls(g, i, j, offsets))[c] == multiset(before)[c] + multiset(cell)[c] by {
        CountSplit(RowCalls(g, i, j, offsets), before, cell, c);
      }
      assert multiset(before)[c] == RowWeight(g, i, j - 1, offsets, c) by {
        RowCallsCount(g, i, j - 1, offsets, c);
      }
      assert multiset(cell)[c] == CellWeight(g[i][j - 1], c.ball, Hits(g, i, j - 1, c.other, offsets)) by {
        CellCallsCount(g, i, j - 1, g[i][j - 1], offsets, c);
      }
    }
  }

  lemma {:induction false} RowsCallsCount(g: Grid, i: nat, offsets: seq<(int, int)>, c: Call)
    requires i <= |g|
    ensures multiset(RowsCalls(g, i, offsets))[c] == RowsWeight(g, i, offsets, c)
  {
    if i > 0 {
      var before, row := RowsCalls(g, i - 1, offsets), RowCalls(g, i - 1, |g[i - 1]|, offsets);
      assert multiset(RowsCalls(g, i, offsets))[c] == multiset(before)[c] + multiset(row)[c] by {
        CountSplit(RowsCalls(g, i, offsets), before, row, c);
      }
      assert multiset(before)[c] == RowsWeight(g, i - 1, offsets, c) by {
        RowsCallsCount(g, i - 1, offsets, c);
      }
      assert multiset(row)[c] == RowWeight(g, i - 1, |g[i - 1]|, offsets, c) by {
        RowCallsCount(g, i - 1, |g[i - 1]|, offsets, c);
      }
    }
  }

  /** On the grid that files each ball under its cell, only the cell of c.ball weighs. */
  lemma {:induction false} RowWeightPlaced(cells: seq<Cell>, h: nat, w: nat, g: Grid, i: nat, j: nat, offsets: seq<(int, int)>, c: Call)
    requires CellsOnGrid(cells, h, w) && Files(g, cells, h, w) && i < h && j <= w
    ensures RowWeight(g, i, j, offsets, c)
         == if c.ball < |cells| && cells[c.ball].row == i && cells[c.ball].col < j
            then Hits(g, i, cells[c.ball].col, c.other, offsets) else 0
  {
    if j > 0 {
      var cell, hits := g[i][j - 1], Hits(g, i, j - 1, c.other, offsets);
      var here := c.ball < |cells| && cells[c.ball] == Cell(i, j - 1);
      assert CellWeight(cell, c.ball, hits) == if here then hits else 0 by {
        assert cell == BallsIn(cells, Cell(i, j - 1));
        BallsInCount(cells, Cell(i, j - 1), c.ball);
        CellWeightOnce(cell, c.ball, hits);
      }
      RowWeightPlaced(cells, h, w, g, i, j - 1, offsets, c);
      if c.ball < |cells| {
        assert cells[c.ball] == Cell(cells[c.ball].row, cells[c.ball].col);
      }
    }
  }

  lemma {:induction false} RowsWeightPlaced(cells: seq<Cell>, h: nat, w: nat, g: Grid, i: nat, offsets: seq<(int, int)>, c: Call)
    requires CellsOnGrid(cells, h, w) && Files(g, cells, h, w) && i <= h
    ensures RowsWeight(g, i, offsets, c)
         == if c.ball < |cells| && cells[c.ball].row < i
            then Hits(g, cells[c.ball].row, cells[c.ball].col, c.other, offsets) else 0
  {
    if i > 0 {
      RowsWeightPlaced(cells, h, w, g, i - 1, offsets, c);
      RowWeightPlaced(cells, h, w, g, i - 1, w, offsets, c);
    }
  }

  /**
   * On a grid that files each ball under its cell, `grid_update` calls
   * `collision(a, b)` exactly once when the cells of a and b are adjacent
   * (self-pairs and same-cell pairs included), and never otherwise.
   */
  lemma GridTraceCount(cells: seq<Cell>, h: nat, w: nat, c: Call)
    requires CellsOnGrid(cells, h, w)
    ensures multiset(GridTrace(GridOf(cells, h, w)))[c]
         == if c.ball < |cells| && c.other < |cells| && Adjacent(cells[c.ball], cells[c.other]) then 1 else 0
  {
    var g := GridOf(cells, h, w);
    GridOfFilesAll(cells, h, w);
    RowsCallsCount(g, h, Offsets, c);
    RowsWeightPlaced(cells, h, w, g, h, Offsets, c);
    if c.ball < |cells| {
      HitsAdjacent(g, cells, h, w, cells[c.ball].row, cells[c.ball].col, c.other);
    }
  }

  /** The same, for the grid `gridform` builds from ball positions. */
  lemma GridUpdateExactlyOnce(cfg: Config, pos: seq<Vec>, c: Call)
    requires cfg.GridReady()
    ensures multiset(GridTrace(Placement(cfg, pos)))[c]
         == if c.ball < |pos| && c.other < |pos| && Adjacent(CellOf(cfg, pos[c.ball]), CellOf(cfg, pos[c.other]))
            then 1 else 0
  {
    var cells := CellsOf(cfg, pos);
    assert CellsOnGrid(cells, cfg.matrixHeight, cfg.matrixWidth);
    GridTraceCount(cells, cfg.matrixHeight, cfg.matrixWidth, c);
  }
}
