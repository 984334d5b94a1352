/**
 * Why the grid broad phase loses no collision: when a cell is at least one
 * ball diameter wide and high, two touching balls sit in adjacent cells, so
 * `grid_update` offers the pair to `collision` exactly once in each order.
 */
module GridCoverage {
  import opened Constants
  import opened Calls
  import opened Grid
  import opened GridQuery

  /**
   * The test `collision` applies after its identity guard: the centres are
   * at most two radii apart (`dist <= self.radius * 2`), compared squared.
   */
  predicate Touching(p: Vec, q: Vec, r: real)
  {
    (q.x - p.x) * (q.x - p.x) + (q.y - p.y) * (q.y - p.y) <= (2.0 * r) * (2.0 * r)
  }

  /** Squaring keeps the strict order of non-negative numbers. */
  lemma SquareLt(d: real, e: real)
    requires 0.0 <= d < e
    ensures d * d < e * e
  {
    assert e * e - d * d == (e - d) * (e + d);
    ScaleLt(0.0, e - d, e + d);
  }

  /** Centres within distance d are within d along each axis. */
  lemma AxisWithin(dx: real, dy: real, d: real)
    requires d >= 0.0 && dx * dx + dy * dy <= d * d
    ensures -d <= dx <= d
  {
    assert dy * dy >= 0.0;
    var e := if dx < 0.0 then -dx else dx;
    assert e * e == dx * dx;
    if e > d {
      SquareLt(d, e);
    }
  }

  /** Coordinates at most one cell size apart fall in the same or neighbouring cells. */
  lemma NearCells(p: real, q: real, extent: real, cells: int)
    requires extent > 0.0 && cells >= 1
    requires -(extent / cells as real) <= p - q <= extent / cells as real
    ensures -1 <= CellIndex(p, extent, cells) - CellIndex(q, extent, cells) <= 1
  {
    if p <= q {
      CellIndexNear(p, q, extent, cells);
    } else {
      CellIndexNear(q, p, extent, cells);
    }
  }

  /**
   * With cells at least one diameter wide and high, `grid_update` calls
   * `collision(a, b)` exactly once for every two touching balls a and b,
   * and, when they are different balls, the call gets past the identity
   * guard once.
   */
  lemma GridFindsTouching(cfg: Config, pos: seq<Vec>, a: BallId, b: BallId)
    requires cfg.GridReady() && cfg.radius >= 0.0
    requires 2.0 * cfg.radius <= cfg.CellWidth() && 2.0 * cfg.radius <= cfg.CellHeight()
    requires a < |pos| && b < |pos| && Touching(pos[a], pos[b], cfg.radius)
    ensures multiset(GridTrace(Placement(cfg, pos)))[Call(a, b)] == 1
    ensures a != b ==> multiset(NarrowPhase(GridTrace(Placement(cfg, pos))))[Call(a, b)] == 1
  {
    var d := 2.0 * cfg.radius;
    var dx, dy := pos[b].x - pos[a].x, pos[b].y - pos[a].y;
    AxisWithin(dx, dy, d);
    AxisWithin(dy, dx, d);
    NearCells(pos[a].x, pos[b].x, cfg.screenWidth, cfg.matrixWidth);
    NearCells(pos[a].y, pos[b].y, cfg.screenHeight, cfg.matrixHeight);
    GridUpdateExactlyOnce(cfg, pos, Call(a, b));
    NarrowPhaseCount(GridTrace(Placement(cfg, pos)), Call(a, b));
  }
}
