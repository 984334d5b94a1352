# water_sim collision core in Dafny

A model of the per-ball update and the collision broad phase of `ball.py`. The
module is part of a pygame particle simulation: balls fall under gravity,
bounce off the window edges and collide elastically with each other.

The model covers:

- **`Ball.check_bounds`**: a wall bounce on each axis, then drag and gravity.
  This is `Balls.Ball.CheckBounds`, specified through the one-axis function
  `Balls.WallAxis`.
- **`Ball.update_color`**: the speed-to-colour staircase. The if-chain is
  `Balls.SpeedColor`. It is proved equal to a reference definition by 50-unit
  speed bands (`Balls.Band`, `Balls.BandColor`).
- **The identity guard of `collision`**: each invocation `ball.collision(other)`
  is logged as a `Calls.Call`. Balls are identified by their index in the
  frame's ball list. `Calls.NarrowPhase` keeps the calls that get past
  `if other == self: return`.
- **`gridform`**: the uniform grid. `Grid.Gridform` files every ball, in input
  order, in the cell of its centre. The cell indices are truncated and then
  clamped (`Grid.CellIndex`).
- **`grid_update`**: the 3 x 3 neighbourhood query (`GridQuery.GridUpdate`). The
  main result is `GridQuery.GridUpdateExactlyOnce`: every ordered pair of balls
  in adjacent cells is called exactly once, and no other pair is called.
  `GridCoverage.GridFindsTouching` adds that when a cell is at least one ball
  diameter wide and high, every two touching balls are offered to the narrow
  phase once in each order.
- **`sweep_update`**: the triangle of index pairs i <= j inside each group
  (`Sweep.SweepUpdate`). The model proves:
  - exactly those pairs are visited, once each, in lexicographic order;
  - each group of length n costs n(n+1)/2 calls;
  - groups are processed one after another.
- **`brute_update`**: every ordered pair of balls, in row-major order
  (`Brute.BruteUpdate`). The model proves that it makes n² calls and counts
  each call once. The n self-pairs stop at the identity guard, so n(n-1) calls
  reach the narrow phase.

Every loop of the modelled functions is a Dafny `method` with a `for` loop.
Each method's postcondition ties its result to a prefix-recursive
specification function. The lemmas state what those functions mean. The list
comprehension that creates the empty grid (ball.py:190) is the value
`Grid.EmptyGrid`.

Details of the code that the model keeps:

- **Cell index rounding.** `int()` truncates toward zero rather than flooring.
  `Grid.TruncClampIsFloorClamp` shows that the index clamped at 0 is the same
  either way, so negative coordinates also land in the first cell.
- **One wall per axis.** The near wall is examined only in the `elif`
  (ball.py:71, 79), so at most one wall per axis fires. `Balls.WallAxis`
  follows the code.
- **Reflection on the wall.** The wall test reflects the velocity whatever
  its direction. A clamped position still meets the wall test
  (`Balls.WallAxisStaysOnWall`). So if `update_pos` leaves the ball there,
  the next `check_bounds` reflects it again, whatever its direction.

## Model

| member | source | states |
|---|---|---|
| Calls.CallsAgainst | ball.py:144-145 | the inner loop `for other in ...: ball.collision(other)` makes one call per listed ball |
| Calls.CallsAgainstAt | ball.py:144-145 | the k-th call of the inner loop is made against the k-th listed ball |
| Calls.CollideEach | ball.py:144-145 | the loop returns exactly the calls of `CallsAgainst`: each listed ball in turn, in list order |
| Calls.CallsAgainstCount | ball.py:159-160 | `ball` meets each other ball as often as that ball is listed; a call with another first ball is never made |
| Calls.NarrowPhase | ball.py:31-33 | no call that gets past the identity guard pairs a ball with itself, and the guard never adds calls |
| Calls.NarrowPhaseCount | ball.py:31-33 | the guard drops every self-pair and keeps every other call exactly as often as it was made |
| Calls.NarrowPhaseAppend | ball.py:31-33 | the guard judges each call on its own, so it splits over a concatenation of call sequences |
| Balls.SpeedColor | ball.py:97-122 | blue is always 255; green never exceeds red; red is at most 175 |
| Balls.ExceededBetween | ball.py:97-122 | a speed strictly above threshold 50m and at most 50(m+1) lies in band m, so the thresholds are strict `>` |
| Balls.ExceededMonotone | ball.py:97-122 | a faster ball never lies in a lower band |
| Balls.SpeedColorIsBandColor | ball.py:97-122 | the thirteen-branch if-chain equals the band staircase: red and green rise 15 per 50 units of speed, except in band 9 |
| Balls.SpeedColorRedMonotone | ball.py:97-122 | red never falls as speed rises |
| Balls.SpeedColorGreenOutlier | ball.py:103-104 | red and green differ exactly for speeds in (450, 500], which alone get (130, 100, 255) |
| Balls.SpeedColorSamples | ball.py:97-122 | exactly 600 still gets the (550, 600] colour, and exactly 50 gets the slowest colour |
| Balls.WallAxis | ball.py:68-81 | the far wall is examined first: on a hit, the edge is set to touch the far wall, else to touch the near wall; the velocity is multiplied by `-ELASTICITY` only on a hit; otherwise nothing changes; if the screen fits the ball, the centre ends in [r, extent - r] |
| Balls.WallAxisPosIdempotent | ball.py:68-81 | clamping an already clamped position leaves it where it is |
| Balls.WallAxisStaysOnWall | ball.py:68-81 | a clamped position still meets the wall test; so if `update_pos` leaves the ball there, the next `check_bounds` reflects it again, whatever its direction |
| Balls.WallAxisBounceSlows | ball.py:68-81 | with restitution in [0, 1] a bounce never raises the speed on that axis, and with restitution above 0 it reverses the direction |
| Balls.Ball.constructor | ball.py:6-15 | a new ball has the given colour, position and velocity and the configured radius |
| Balls.Ball.CheckBounds | ball.py:66-87 | each axis gets the one-axis wall bounce independently, then the drag factor, then gravity times dt; the colour is unchanged; the position ends inside [r, extent - r] on each axis when the screen fits the ball |
| Balls.Ball.UpdateColor | ball.py:94-124 | the new colour is the staircase colour of the ball's speed, and its blue is 255 |
| Grid.Trunc | ball.py:193-194 | Python `int()` of a float: the integer toward zero, within 1 of the argument |
| Grid.CellIndex | ball.py:193-194 | the cell index always lies in 0 .. cells - 1, whatever the position |
| Grid.TruncClampIsFloorClamp | ball.py:193-194 | truncating and then raising to 0 gives the same index as flooring and raising to 0 |
| Grid.CellIndexContains | ball.py:193-194 | a coordinate on the screen lands in the column or row whose band [k w, (k+1) w) contains it |
| Grid.CellIndexEdges | ball.py:193-194 | a coordinate off the near edge goes to cell 0, and one on or past the far edge goes to the last cell |
| Grid.CellIndexNear | ball.py:193-194 | coordinates at most one cell size apart get indices at most one apart, in the same order |
| Grid.CellOf | ball.py:193-195 | every ball is filed in a cell of the grid |
| Grid.CellsOf | ball.py:192-194 | one cell is computed per ball |
| Grid.BallsIn | ball.py:192-195 | a cell never lists more entries than there are balls |
| Grid.BallsInFiled | ball.py:192-195 | a cell lists only balls whose centre maps to it, in strictly increasing input order |
| Grid.BallsInCount | ball.py:192-195 | a ball appears exactly once in its own cell and in no other cell |
| Grid.GridOf | ball.py:190 | the grid has MATRIX_HEIGHT rows of MATRIX_WIDTH cells |
| Grid.EmptyGrid | ball.py:190 | the grid starts with every cell empty |
| Grid.EmptyTotalSize | ball.py:190 | the empty grid holds no entries |
| Grid.FilesNone | ball.py:190 | the empty grid files none of the balls |
| Grid.FileOneMore | ball.py:195 | appending ball b to its own cell files the first b + 1 balls and adds exactly one entry |
| Grid.FilesAllIsGridOf | ball.py:192-197 | once every ball is filed, the grid is the placement grid |
| Grid.GridOfFiles | ball.py:195 | each ball is listed once in the cell of its centre |
| Grid.PlacementFacts | ball.py:188-197 | in the grid `gridform` returns, each ball is listed in its cell; every listed ball belongs to that cell; each cell keeps input order |
| Grid.Gridform | ball.py:188-197 | the loop builds the placement grid, and the cell sizes sum to the number of balls |
| GridQuery.OffsetsDistinct | ball.py:129-133 | the offsets list never names a cell twice |
| GridQuery.OffsetsNeighbourhood | ball.py:129-133 | an offset is listed exactly when it moves at most one row and at most one column |
| GridQuery.NeighbourInRange | ball.py:142-144 | a neighbour is swept exactly when both its indices lie on the grid |
| GridQuery.CollideNeighbourhood | ball.py:141-145 | the offsets loop returns, offset by offset, the calls against each neighbour that is on the grid |
| GridQuery.CollideCell | ball.py:140-145 | the loop over a cell's balls returns the neighbourhood calls of each ball in turn |
| GridQuery.CollideRow | ball.py:136-145 | the loop over a row returns the calls of each cell in turn; empty cells contribute none |
| GridQuery.GridUpdate | ball.py:128-145 | `grid_update` returns the calls of the whole pass, row by row and cell by cell |
| GridQuery.OffsetCallsCount | ball.py:141-145 | a ball meets another ball as often as the neighbourhood cells list it |
| GridQuery.CellCallsCount | ball.py:140-145 | the calls for one cell are the neighbourhood counts, taken once for each listing of the calling ball |
| GridQuery.InCellPlaced | ball.py:144 | on a grid built by `gridform`, a cell lists a ball once if the ball belongs to it and otherwise not at all; off the grid nothing is listed |
| GridQuery.HitsPlaced | ball.py:141-144 | distinct offsets reach a ball's cell once when its displacement is listed, otherwise never |
| GridQuery.HitsAdjacent | ball.py:129-144 | the nine offsets reach a ball's cell exactly once when it is adjacent (or equal) to the calling cell, otherwise never |
| GridQuery.RowCallsCount | ball.py:136-145 | the calls of a row are counted cell by cell |
| GridQuery.RowsCallsCount | ball.py:135-145 | the calls of the pass are counted row by row |
| GridQuery.RowWeightPlaced | ball.py:136-145 | on a grid built by `gridform`, only the calling ball's own cell in the row contributes to the count |
| GridQuery.RowsWeightPlaced | ball.py:135-145 | on a grid built by `gridform`, only the calling ball's own cell in the grid contributes to the count |
| GridQuery.GridTraceCount | ball.py:135-145 | on a grid filing each ball in its cell, `collision(a, b)` is called exactly once when the cells of a and b are adjacent (same cell and self-pairs included), and never otherwise |
| GridQuery.GridUpdateExactlyOnce | ball.py:128-145 | the same, for the grid `gridform` builds from ball positions |
| GridCoverage.AxisWithin | ball.py:35-36 | centres within distance d of each other are within d along each axis |
| GridCoverage.NearCells | ball.py:193-194 | coordinates at most one cell size apart fall in the same or neighbouring column (row) |
| GridCoverage.GridFindsTouching | ball.py:128-145 | with cells at least one diameter wide and high, two touching balls are called exactly once as (a, b); when a and b are different balls, that call gets past the identity guard once |
| Sweep.RowPairs | ball.py:152 | the inner loop visits len - i index pairs |
| Sweep.RowPairsAt | ball.py:152 | the k-th visit of the inner loop is at (i, i + k) |
| Sweep.TrianglePairsLength | ball.py:151-152 | a group of length len gets len * (len + 1) / 2 visits |
| Sweep.TrianglePairsAt | ball.py:151-152 | every visited index pair has i <= j < len |
| Sweep.TrianglePairsBefore | ball.py:151-152 | an earlier visit is at a lexicographically smaller pair |
| Sweep.TrianglePairsVisit | ball.py:151-152 | every pair i <= j < len is visited, at a position determined by i and j |
| Sweep.TrianglePairsOrdered | ball.py:151-152 | the visits are in strictly increasing lexicographic order, so no pair is visited twice |
| Sweep.TrianglePairsOnce | ball.py:151-152 | each visit is at a pair i <= j < len, and that pair's only visit is the one `TrianglePairsVisit` names |
| Sweep.SweepGroup | ball.py:151-153 | the two loops for one group return the group's calls in visiting order |
| Sweep.SweepUpdate | ball.py:149-153 | `sweep_update` returns the calls of each group in turn |
| Sweep.GroupCallsPairs | ball.py:151-153 | the k-th call of a group pairs the balls at the k-th visited index pair |
| Sweep.GroupCallsInside | ball.py:151-153 | a call involving a ball outside the group is never made |
| Sweep.GroupCallsOnce | ball.py:151-153 | in a group without repeats, the ball at a meets the ball at b exactly once if a <= b, never if a > b |
| Sweep.SweepGroupNarrow | ball.py:151-153 | two different balls of a group get past the identity guard once between the two orders; a ball's call against itself never does |
| Sweep.SweepCallsAppend | ball.py:150 | the calls for a list of groups are those of its first part followed by those of the rest |
| Sweep.SweepCallsBlock | ball.py:150-153 | each group's calls form one block, after those of all earlier groups and before those of all later ones |
| Sweep.SweepCallsLength | ball.py:149-153 | the total number of calls is the sum of len * (len + 1) / 2 over the groups |
| Brute.BruteUpdate | ball.py:157-160 | `brute_update` returns, for each ball in turn, its calls against every ball |
| Brute.BruteRowsLength | ball.py:158-159 | n rounds make n * len calls, so the whole pass makes len² calls |
| Brute.BruteRowsAt | ball.py:158-160 | row-major order: the call at position p * len + q pairs ball p with ball q |
| Brute.BruteRowsTally | ball.py:158-160 | each round adds, for its own ball, one call per listing of the other ball |
| Brute.TallyOnce | ball.py:158-160 | without repeats, the first n rounds pair ball a with ball b exactly once if a < n, otherwise never |
| Brute.TallyInside | ball.py:158-160 | a call involving an unlisted ball is never made |
| Brute.BruteOnce | ball.py:157-160 | every ordered pair of listed balls, self-pairs included, is called exactly once, and no other pair is called |
| Brute.BruteNarrow | ball.py:157-160 | every ordered pair of two different listed balls gets past the identity guard exactly once; self-pairs never do |
| Brute.NarrowAgainstLength | ball.py:159-160 | a round drops at the guard one call per listing of its own ball |
| Brute.BruteNarrowLength | ball.py:157-160 | of the n * n calls, exactly n * (n - 1) reach the narrow phase |

## Left out

- `Ball.draw` and the pygame sprite containers in `__init__` (lines 7-10) are rendering and bookkeeping, so they are not modelled.
- `Ball.update` and `Ball.update_pos` (lines 20-28, 90-91) only chain the modelled steps and add `vel * dt`, so they are not modelled.
- The narrow phase of `collision` (lines 35-63) is not modelled: distance, normal and tangent, the velocity swap and the overlap correction use a square root and normalisation. Only its identity guard is modelled. Its distance test appears only as the `GridCoverage.Touching` hypothesis, compared on squared distances.
- `sweep_and_prune` (lines 164-185) is not called by any update path, so it is not modelled. `sweep_update` takes its groups as an arbitrary input.
- Floating-point arithmetic is modelled with exact reals. Rounding, overflow, infinities and NaN are not modelled.
- The `constants` module is not part of this model. Its values are the fields of `Constants.Config`, passed explicitly. Nothing proved depends on concrete values except the colour thresholds, which are literals in `update_color`.
- The `threading` import (line 3) is unused by the core, and concurrency is not modelled.
- Balls.Ball.CheckBounds: the drag factor `AIR_RES ** dt` is taken as a parameter `drag` instead of being computed with a real power.
- Balls.Ball.UpdateColor: the speed `sqrt(vx² + vy²)` is taken as a parameter `speed`. Its precondition requires `speed >= 0` and `speed² = vx² + vy²`.
- Ball identity: a ball is its index in the frame's ball list. Aliasing between ball objects, and the velocity changes `collision` makes through them, are not modelled. Each broad phase is modelled as the sequence of `collision` calls it makes.
- Brute.BruteOnce, Brute.BruteNarrow, Brute.TallyOnce and Brute.BruteNarrowLength are stated for ball lists that list no ball twice, as a pygame sprite group does. `Brute.BruteRowsTally` gives the count for any list.
- Sweep.GroupCallsOnce and Sweep.SweepGroupNarrow are stated for groups that list no ball twice. `Sweep.GroupCallsPairs` gives the index pairs for any group.
- GridCoverage.GridFindsTouching assumes cells at least one ball diameter wide and high. With smaller cells, touching balls in non-adjacent cells are not offered to `collision`. The code does not check this condition.
- GridQuery.GridUpdate requires a grid of MATRIX_HEIGHT rows of MATRIX_WIDTH cells, as `gridform` builds. The source only indexes rows below MATRIX_HEIGHT and columns below MATRIX_WIDTH (ball.py:135-144). On a grid with fewer rows or shorter rows it raises `IndexError`. On a grid with extra rows or longer rows it runs and ignores the extra cells. Neither case is modelled.
