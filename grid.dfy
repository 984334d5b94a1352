/**
 * Bucketing for the uniform-grid broad phase (`gridform`): every ball goes
 * into one cell of a matrixHeight x matrixWidth grid, chosen from its centre.
 */
module Grid {
  import opened Constants
  import opened Calls

  /** A grid cell: row (y, first index) and column (x, second index). */
  datatype Cell = Cell(row: int, col: int)

  /** Rows of columns of cells, each cell listing ball identities. */
  type Grid = seq<seq<seq<BallId>>>

  /** Python's `int()` on a float: drop the fraction, rounding toward zero. */
  function Trunc(q: real): (k: int)
    ensures 0.0 <= q ==> k as real <= q < k as real + 1.0
    ensures q < 0.0 ==> k as real - 1.0 < q <= k as real <= 0.0
  {
    if q >= 0.0 then q.Floor else -((-q).Floor)
  }

  function Max(a: int, b: int): int { if a < b then b else a }

  function Min(a: int, b: int): int { if a < b then a else b }

  /**
   * The cell index `gridform` computes along one axis: the coordinate over
   * the cell size, truncated, then clamped into the grid.
   */
  function CellIndex(p: real, extent: real, cells: int): (k: int)
    requires extent > 0.0 && cells >= 1
    ensures 0 <= k < cells
  {
    Min(cells - 1, Max(0, Trunc(p / (extent / cells as real))))
  }

  lemma ScaleLe(a: real, b: real, w: real)
    requires w > 0.0 && a <= b
    ensures a * w <= b * w
  {
    assert (b - a) * w >= 0.0;
  }

  lemma ScaleLt(a: real, b: real, w: real)
    requires w > 0.0 && a < b
    ensures a * w < b * w
  {
    assert (b - a) * w > 0.0;
  }

  /** Scaling by a positive factor keeps order both ways. */
  lemma ScaleOrder(a: real, b: real, w: real)
    requires w > 0.0
    ensures a <= b <==> a * w <= b * w
    ensures a < b <==> a * w < b * w
  {
    if a <= b { ScaleLe(a, b, w); } else { ScaleLt(b, a, w); }
    if a < b { ScaleLt(a, b, w); } else { ScaleLe(b, a, w); }
  }

  /** Dividing by a positive factor keeps order both ways. */
  lemma QuotientOrder(a: real, b: real, w: real)
    requires w > 0.0
    ensures a <= b <==> a / w <= b / w
    ensures a < b <==> a / w < b / w
  {
    assert (a / w) * w == a && (b / w) * w == b;
    ScaleOrder(a / w, b / w, w);
  }

  lemma DivShift(a: real, w: real)
    requires w > 0.0
    ensures (a + w) / w == a / w + 1.0
  {
    var u, v := (a + w) / w, a / w;
    assert u * w == a + w && v * w == a;
    assert (v + 1.0) * w == v * w + w;
    ScaleOrder(u, v + 1.0, w);
    ScaleOrder(v + 1.0, u, w);
  }

  lemma FloorBelow(q: real, n: int)
    requires 0.0 <= q < n as real
    ensures 0 <= q.Floor < n
    ensures q.Floor as real <= q < q.Floor as real + 1.0
  {
  }

  lemma FloorNear(q: real, q': real)
    requires q <= q' <= q + 1.0
    ensures q.Floor <= q'.Floor <= q.Floor + 1
  {
  }

  /** Truncating and then raising to 0 is the same as flooring and raising to 0. */
  lemma TruncClampIsFloorClamp(q: real)
    ensures Max(0, Trunc(q)) == Max(0, q.Floor)
  {
    if q < 0.0 {
      assert q.Floor < 0;
    }
  }

  /**
   * A coordinate on the screen lands in the cell whose band contains it:
   * cell k covers [k * w, (k + 1) * w) for the cell size w.
   */
  lemma CellIndexContains(p: real, extent: real, cells: int)
    requires extent > 0.0 && cells >= 1
    requires 0.0 <= p < extent
    ensures var k := CellIndex(p, extent, cells);
      k as real * (extent / cells as real) <= p < (k + 1) as real * (extent / cells as real)
  {
    var w := extent / cells as real;
    var q := p / w;
    QuotientOrder(0.0, p, w);
    QuotientOrder(p, extent, w);
    assert extent / w == cells as real;
    FloorBelow(q, cells);
    var k := CellIndex(p, extent, cells);
    assert k as real <= q < (k + 1) as real;
    assert k as real * w <= p by {
      assert (k as real * w) / w == k as real;
      QuotientOrder(k as real * w, p, w);
    }
    assert p < (k + 1) as real * w by {
      var top := (k + 1) as real;
      assert (top * w) / w == top;
      QuotientOrder(p, top * w, w);
    }
  }

  /** Off the near edge lands in the first cell, on or past the far edge in the last. */
  lemma CellIndexEdges(p: real, extent: real, cells: int)
    requires extent > 0.0 && cells >= 1
    ensures p < 0.0 ==> CellIndex(p, extent, cells) == 0
    ensures p >= extent ==> CellIndex(p, extent, cells) == cells - 1
  {
    var w := extent / cells as real;
    var q := p / w;
    QuotientOrder(p, 0.0, w);
    QuotientOrder(extent, p, w);
    assert extent / w == cells as real;
    assert q.Floor as real <= q < q.Floor as real + 1.0;
  }

  /**
   * Two coordinates at most one cell size apart get indices at most one
   * apart, and the larger coordinate never gets the smaller index.
   */
  lemma CellIndexNear(p: real, p': real, extent: real, cells: int)
    requires extent > 0.0 && cells >= 1
    requires p <= p' <= p + extent / cells as real
    ensures CellIndex(p, extent, cells) <= CellIndex(p', extent, cells) <= CellIndex(p, extent, cells) + 1
  {
    var w := extent / cells as real;
    var q, q' := p / w, p' / w;
    QuotientOrder(p, p', w);
    QuotientOrder(p', p + w, w);
    DivShift(p, w);
    FloorNear(q, q');
    TruncClampIsFloorClamp(q);
    TruncClampIsFloorClamp(q');
  }

  /** The cell `gridform` files a ball centred at `p` under. */
  function CellOf(cfg: Config, p: Vec): (c: Cell)
    requires cfg.GridReady()
    ensures 0 <= c.row < cfg.matrixHeight && 0 <= c.col < cfg.matrixWidth
  {
    Cell(CellIndex(p.y, cfg.screenHeight, cfg.matrixHeight),
         CellIndex(p.x, cfg.screenWidth, cfg.matrixWidth))
  }

  /** The cell of every ball, by identity. */
  function CellsOf(cfg: Config, pos: seq<Vec>): (cells: seq<Cell>)
    requires cfg.GridReady()
    ensures |cells| == |pos|
  {
    seq(|pos|, b requires 0 <= b < |pos| => CellOf(cfg, pos[b]))
  }

  /** The balls filed under cell `c`, in input order. */
  function BallsIn(cells: seq<Cell>, c: Cell): (r: seq<BallId>)
    ensures |r| <= |cells|
  {
    if cells == [] then []
    else
      var b := |cells| - 1;
      BallsIn(cells[..b], c) + (if cells[b] == c then [b] else [])
  }

  /** Only balls of cell `c` are filed under it, in increasing (input) order. */
  lemma {:induction false} BallsInFiled(cells: seq<Cell>, c: Cell)
    ensures forall k | 0 <= k < |BallsIn(cells, c)| ::
      BallsIn(cells, c)[k] < |cells| && cells[BallsIn(cells, c)[k]] == c
    ensures forall k, l | 0 <= k < l < |BallsIn(cells, c)| :: BallsIn(cells, c)[k] < BallsIn(cells, c)[l]
  {
    if cells != [] {
      var b := |cells| - 1;
      var init := cells[..b];
      BallsInFiled(init, c);
      var r0, r := BallsIn(init, c), BallsIn(cells, c);
      assert r == r0 + (if cells[b] == c then [b] else []);
      forall k | 0 <= k < |r|
        ensures r[k] < |cells| && cells[r[k]] == c
      {
        if k < |r0| {
          assert r[k] == r0[k] && init[r0[k]] == c;
        }
      }
      forall k, l | 0 <= k < l < |r|
        ensures r[k] < r[l]
      {
        assert r[k] == r0[k] && r0[k] < |init|;
      }
    }
  }

  /** A ball is filed under its own cell, and exactly once. */
  lemma {:induction false} BallsInCount(cells: seq<Cell>, c: Cell, b: BallId)
    ensures multiset(BallsIn(cells, c))[b] == if b < |cells| && cells[b] == c then 1 else 0
  {
    if cells != [] {
      var last := |cells| - 1;
      BallsInCount(cells[..last], c, b);
    }
  }

  /** The grid that files every ball under its cell (rows h, columns w). */
  function GridOf(cells: seq<Cell>, h: nat, w: nat): (g: Grid)
    ensures |g| == h
    ensures forall y | 0 <= y < h :: |g[y]| == w
  {
    seq(h, y requires 0 <= y < h => seq(w, x requires 0 <= x < w => BallsIn(cells, Cell(y, x))))
  }

  /** The grid `gridform` builds for balls at positions `pos`. */
  function Placement(cfg: Config, pos: seq<Vec>): Grid
    requires cfg.GridReady()
  {
    GridOf(CellsOf(cfg, pos), cfg.matrixHeight, cfg.matrixWidth)
  }

  /** Number of entries in one row of cells. */
  function RowSize(row: seq<seq<BallId>>): nat
  {
    if row == [] then 0 else RowSize(row[..|row| - 1]) + |row[|row| - 1]|
  }

  /** Number of entries in the whole grid. */
  function TotalSize(g: Grid): nat
  {
    if g == [] then 0 else TotalSize(g[..|g| - 1]) + RowSize(g[|g| - 1])
  }

  lemma {:induction false} RowSizeUpdate(row: seq<seq<BallId>>, x: nat, cell: seq<BallId>)
    requires x < |row|
    ensures RowSize(row[x := cell]) == RowSize(row) - |row[x]| + |cell|
  {
    var last := |row| - 1;
    if x < last {
      RowSizeUpdate(row[..last], x, cell);
      assert row[x := cell][..last] == row[..last][x := cell];
    } else {
      assert row[x := cell][..last] == row[..last];
    }
  }

  lemma {:induction false} TotalSizeUpdate(g: Grid, y: nat, row: seq<seq<BallId>>)
    requires y < |g|
    ensures TotalSize(g[y := row]) == TotalSize(g) - RowSize(g[y]) + RowSize(row)
  {
    var last := |g| - 1;
    if y < last {
      TotalSizeUpdate(g[..last], y, row);
      assert g[y := row][..last] == g[..last][y := row];
    } else {
      assert g[y := row][..last] == g[..last];
    }
  }

  /** A row of `w` empty cells. */
  function EmptyRow(w: nat): (row: seq<seq<BallId>>)
    ensures |row| == w && forall x | 0 <= x < w :: row[x] == []
  {
    seq(w, x => [])
  }

  /** `h` rows of `w` empty cells each. */
  function EmptyGrid(h: nat, w: nat): (g: Grid)
    ensures |g| == h && forall y | 0 <= y < h :: g[y] == EmptyRow(w)
  {
    seq(h, y => EmptyRow(w))
  }

  lemma {:induction false} EmptyRowSize(w: nat)
    ensures RowSize(EmptyRow(w)) == 0
  {
    if w > 0 {
      EmptyRowSize(w - 1);
      assert EmptyRow(w)[..w - 1] == EmptyRow(w - 1);
    }
  }

  lemma {:induction false} EmptyTotalSize(h: nat, w: nat)
    ensures TotalSize(EmptyGrid(h, w)) == 0
  {
    if h > 0 {
      EmptyTotalSize(h - 1, w);
      assert EmptyGrid(h, w)[..h - 1] == EmptyGrid(h - 1, w);
      EmptyRowSize(w);
    }
  }

  /** The grid `g` files exactly the first `b` balls of `cells`. */
  ghost predicate FilesPrefix(g: Grid, cells: seq<Cell>, b: nat, h: nat, w: nat)
    requires b <= |cells|
  {
    |g| == h
    && (forall y | 0 <= y < h :: |g[y]| == w)
    && forall y, x {:trigger g[y][x]} | 0 <= y < h && 0 <= x < w :: g[y][x] == BallsIn(cells[..b], Cell(y, x))
  }

  /** The empty grid files no ball. */
  lemma FilesNone(cells: seq<Cell>, h: nat, w: nat)
    ensures FilesPrefix(EmptyGrid(h, w), cells, 0, h, w)
  {
    assert cells[..0] == [];
  }

  /** Appending ball b to the cell of its centre files one ball more. */
  lemma FileOneMore(g: Grid, cells: seq<Cell>, b: nat, h: nat, w: nat, y: nat, x: nat)
    requires b < |cells| && cells[b] == Cell(y, x) && y < h && x < w
    requires FilesPrefix(g, cells, b, h, w)
    ensures FilesPrefix(g[y := g[y][x := g[y][x] + [b]]], cells, b + 1, h, w)
    ensures TotalSize(g[y := g[y][x := g[y][x] + [b]]]) == TotalSize(g) + 1
  {
    RowSizeUpdate(g[y], x, g[y][x] + [b]);
    TotalSizeUpdate(g, y, g[y][x := g[y][x] + [b]]);
    assert cells[..b + 1][..b] == cells[..b];
  }

  /** Filing every ball gives the grid of all of them. */
  lemma FilesAllIsGridOf(g: Grid, cells: seq<Cell>, h: nat, w: nat)
    requires FilesPrefix(g, cells, |cells|, h, w)
    ensures g == GridOf(cells, h, w)
  {
    assert cells[..|cells|] == cells;
    forall y | 0 <= y < h
      ensures g[y] == GridOf(cells, h, w)[y]
    {
    }
  }

  /** Every ball is filed under its own cell, and once only. */
  lemma GridOfFiles(cells: seq<Cell>, h: nat, w: nat, b: nat)
    requires b < |cells| && 0 <= cells[b].row < h && 0 <= cells[b].col < w
    ensures multiset(GridOf(cells, h, w)[cells[b].row][cells[b].col])[b] == 1
  {
    BallsInCount(cells, cells[b], b);
  }

  /** The properties of the grid `gridform` returns, stated on positions. */
  lemma PlacementFacts(cfg: Config, pos: seq<Vec>)
    requires cfg.GridReady()
    ensures var grid := Placement(cfg, pos);
      (forall b | 0 <= b < |pos| ::
        b in grid[CellOf(cfg, pos[b]).row][CellOf(cfg, pos[b]).col])
      && (forall y, x, k | 0 <= y < |grid| && 0 <= x < |grid[y]| && 0 <= k < |grid[y][x]| ::
        grid[y][x][k] < |pos| && CellOf(cfg, pos[grid[y][x][k]]) == Cell(y, x))
      && (forall y, x, k, l | 0 <= y < |grid| && 0 <= x < |grid[y]| && 0 <= k < l < |grid[y][x]| ::
        grid[y][x][k] < grid[y][x][l])
  {
    var cells := CellsOf(cfg, pos);
    forall y, x | 0 <= y < cfg.matrixHeight && 0 <= x < cfg.matrixWidth
      ensures var r := Placement(cfg, pos)[y][x];
        (forall k | 0 <= k < |r| :: r[k] < |pos| && CellOf(cfg, pos[r[k]]) == Cell(y, x))
        && (forall k, l | 0 <= k < l < |r| :: r[k] < r[l])
    {
      assert Placement(cfg, pos)[y][x] == BallsIn(cells, Cell(y, x));
      BallsInFiled(cells, Cell(y, x));
    }
    forall b | 0 <= b < |pos|
      ensures b in Placement(cfg, pos)[CellOf(cfg, pos[b]).row][CellOf(cfg, pos[b]).col]
    {
      GridOfFiles(cells, cfg.matrixHeight, cfg.matrixWidth, b);
    }
  }

  /**
   * `gridform`: start from an empty grid and append every ball, in input
   * order, to the cell of its centre.
   */
  method Gridform(cfg: Config, pos: seq<Vec>) returns (grid: Grid)
    requires cfg.GridReady()
    ensures grid == Placement(cfg, pos)
    ensures TotalSize(grid) == |pos|
  {
    var h, w := cfg.matrixHeight, cfg.matrixWidth;
    ghost var cells := CellsOf(cfg, pos);
    grid := EmptyGrid(h, w);
    EmptyTotalSize(h, w);
    FilesNone(cells, h, w);
    for b := 0 to |pos|
      invariant FilesPrefix(grid, cells, b, h, w)
      invariant TotalSize(grid) == b
    {
      var x := CellIndex(pos[b].x, cfg.screenWidth, w);
      var y := CellIndex(pos[b].y, cfg.screenHeight, h);
      FileOneMore(grid, cells, b, h, w, y, x);
      grid := grid[y := grid[y][x := grid[y][x] + [b]]];
    }
    FilesAllIsGridOf(grid, cells, h, w);
  }
}
