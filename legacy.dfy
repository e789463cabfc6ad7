/** The older, uniform-cost flow field (src/lib.rs): a grid of cells_width x cells_depth
    cells of CELL_SIZE world units, indexed cells[x][z]; an integration pass from the
    target over the 8 neighbours, +1 per step, after which no step improves any cell and
    every other finite unoccupied cell costs exactly one more than some neighbour; a
    direction pass; and the collider rule that marks cells occupied.

    The f32 cost is only ever 0, a sum of 1.0 steps, or INFINITY, so it is modelled as an
    extended natural. The normalised flow vector is modelled as the neighbour offset it
    points along. */
module Legacy {
  import opened Basics
  import opened Cells
  import opened Sums
  import opened NeighbourScan

  const CELL_SIZE: real := 10.0

  /** NEIGHBOR_OFFSETS, in the source's order, as (dx, dz). */
  const NeighborOffsets: seq<Offset> :=
    [Offset(1, 0), Offset(-1, 0), Offset(0, 1), Offset(0, -1),
     Offset(1, 1), Offset(-1, 1), Offset(1, -1), Offset(-1, -1)]

  /** The zero vector: no flow. */
  const Zero: Offset := Offset(0, 0)

  /** An f32 cost that is a whole number or INFINITY. */
  datatype Cost = Finite(n: nat) | Infinity

  /** f32 `<` on such costs: INFINITY is below nothing. */
  function Less(a: Cost, b: Cost): bool
  {
    a.Finite? && (b.Infinity? || a.n < b.n)
  }

  /** f32 `cost + 1.0`: INFINITY absorbs the step. */
  function AddOne(c: Cost): Cost
  {
    if c.Finite? then Finite(c.n + 1) else Infinity
  }

  datatype GridCell = GridCell(position: Vec3, cost: Cost, flowVector: Offset, occupied: bool)

  /** A cell position (x, z). */
  datatype Pos = Pos(x: int, z: int)

  datatype TargetCell = TargetCell(x: nat, z: nat)

  /** An axis-aligned box, as a collider's world-space AABB. */
  datatype Aabb = Aabb(mins: Vec3, maxs: Vec3)

  /** `TargetCell::new`: the far corner cell. The usize subtraction panics on an empty
      dimension, so both must be at least 1. */
  function NewTargetCell(cellsWidth: nat, cellsDepth: nat): (t: TargetCell)
    requires cellsWidth >= 1 && cellsDepth >= 1
    ensures t.x < cellsWidth && t.z < cellsDepth
    ensures t.x + 1 == cellsWidth && t.z + 1 == cellsDepth
  {
    TargetCell(cellsWidth - 1, cellsDepth - 1)
  }

  /** `aabb_overlap`: the closed intervals overlap on all three axes. */
  function AabbOverlap(min1: Vec3, max1: Vec3, min2: Vec3, max2: Vec3): bool
  {
    && (min1.x <= max2.x && max1.x >= min2.x)
    && (min1.y <= max2.y && max1.y >= min2.y)
    && (min1.z <= max2.z && max1.z >= min2.z)
  }

  /** Overlap does not depend on the order of the boxes. */
  lemma AabbOverlapSymmetric(min1: Vec3, max1: Vec3, min2: Vec3, max2: Vec3)
    ensures AabbOverlap(min1, max1, min2, max2) == AabbOverlap(min2, max2, min1, max1)
  {
  }

  predicate Within(p: Vec3, mins: Vec3, maxs: Vec3)
  {
    mins.x <= p.x <= maxs.x && mins.y <= p.y <= maxs.y && mins.z <= p.z <= maxs.z
  }

  /** For boxes with min <= max, overlap means exactly that some point lies in both closed
      boxes; in particular boxes that only touch overlap. */
  lemma AabbOverlapIffCommonPoint(min1: Vec3, max1: Vec3, min2: Vec3, max2: Vec3)
    requires min1.x <= max1.x && min1.y <= max1.y && min1.z <= max1.z
    requires min2.x <= max2.x && min2.y <= max2.y && min2.z <= max2.z
    ensures AabbOverlap(min1, max1, min2, max2) <==>
            exists p :: Within(p, min1, max1) && Within(p, min2, max2)
  {
    if AabbOverlap(min1, max1, min2, max2) {
      var p := Vec3(if min1.x < min2.x then min2.x else min1.x,
                    if min1.y < min2.y then min2.y else min1.y,
                    if min1.z < min2.z then min2.z else min1.z);
      assert Within(p, min1, max1) && Within(p, min2, max2);
    }
  }

  /** Two unit cubes sharing only the face x = 1 overlap. */
  lemma TouchingBoxesOverlap()
    ensures AabbOverlap(Vec3(0.0, 0.0, 0.0), Vec3(1.0, 1.0, 1.0), Vec3(1.0, 0.0, 0.0), Vec3(2.0, 1.0, 1.0))
  {
  }

  /** The corners of a cell's box: its position minus and plus CELL_SIZE / 2 on all three
      axes. */
  function CellMin(position: Vec3): Vec3
  {
    Vec3(position.x - CELL_SIZE / 2.0, position.y - CELL_SIZE / 2.0, position.z - CELL_SIZE / 2.0)
  }

  function CellMax(position: Vec3): Vec3
  {
    Vec3(position.x + CELL_SIZE / 2.0, position.y + CELL_SIZE / 2.0, position.z + CELL_SIZE / 2.0)
  }

  /** Some collider box overlaps the box of a cell at `position`. */
  ghost predicate Blocked(position: Vec3, colliders: seq<Aabb>)
  {
    exists i :: 0 <= i < |colliders| && AabbOverlap(CellMin(position), CellMax(position), colliders[i].mins, colliders[i].maxs)
  }

  /** The collider loop of `detect_colliders` for one cell: stops at the first overlapping
      collider. */
  method AnyOverlap(position: Vec3, colliders: seq<Aabb>) returns (hit: bool)
    ensures hit <==> Blocked(position, colliders)
  {
    var cellMin := CellMin(position);
    var cellMax := CellMax(position);
    hit := false;
    var i := 0;
    while i < |colliders|
      invariant 0 <= i <= |colliders|
      invariant forall j :: 0 <= j < i ==> !AabbOverlap(cellMin, cellMax, colliders[j].mins, colliders[j].maxs)
    {
      if AabbOverlap(cellMin, cellMax, colliders[i].mins, colliders[i].maxs) {
        hit := true;
        return;
      }
      i := i + 1;
    }
  }

  /** The world position of cell (x, z): centred grid, CELL_SIZE per step. */
  function CellPosition(cellsWidth: nat, cellsDepth: nat, x: int, z: int): Vec3
  {
    var halfGridWidth := cellsWidth as real * CELL_SIZE / 2.0;
    var halfGridDepth := cellsDepth as real * CELL_SIZE / 2.0;
    Vec3(x as real * CELL_SIZE - halfGridWidth + CELL_SIZE / 2.0,
         0.0,
         z as real * CELL_SIZE - halfGridDepth + CELL_SIZE / 2.0)
  }

  /** The blank cell every entry starts as. */
  const Blank: GridCell := GridCell(Vec3(0.0, 0.0, 0.0), Infinity, Zero, false)

  /** `cells` has cells_width columns of cells_depth cells, indexed cells[x][z]. */
  ghost predicate Shaped(cells: seq<seq<GridCell>>, w: nat, d: nat)
  {
    |cells| == w && forall x :: 0 <= x < w ==> |cells[x]| == d
  }

  /** The allocation as the source writes it: cells_depth rows of cells_width cells. */
  function AsWrittenLayout(cellsWidth: nat, cellsDepth: nat): (cells: seq<seq<GridCell>>)
    ensures |cells| == cellsDepth
    ensures forall r :: 0 <= r < cellsDepth ==> |cells[r]| == cellsWidth
  {
    seq(cellsDepth, _ => seq(cellsWidth, _ => Blank))
  }

  /** Every index (x, z) that Grid::new writes, x < cells_width and z < cells_depth, is
      inside the allocation (there are cells_width rows and each holds at least cells_depth
      cells) exactly when the grid is square. */
  lemma AsWrittenLayoutFitsOnlySquare(cellsWidth: nat, cellsDepth: nat)
    requires cellsWidth >= 1 && cellsDepth >= 1
    ensures (&& cellsWidth <= |AsWrittenLayout(cellsWidth, cellsDepth)|
             && forall x :: 0 <= x < cellsWidth ==> cellsDepth <= |AsWrittenLayout(cellsWidth, cellsDepth)[x]|)
            <==> cellsWidth == cellsDepth
  {
    var cells := AsWrittenLayout(cellsWidth, cellsDepth);
    if cellsWidth < cellsDepth {
      // row 0 holds only cells_width cells
      assert |cells[0]| == cellsWidth;
    }
  }

  /** A 2 x 3 grid: the first column Grid::new fills, x = 0, reaches cells[0][2], but row 0
      of the allocation has only 2 cells. */
  lemma AsWrittenLayoutOverrunsTwoByThree()
    ensures |AsWrittenLayout(2, 3)| == 3 && |AsWrittenLayout(2, 3)[0]| == 2
  {
  }

  /** The allocation the indexing needs: cells_width columns of cells_depth cells. */
  function BlankCells(cellsWidth: nat, cellsDepth: nat): (cells: seq<seq<GridCell>>)
    ensures Shaped(cells, cellsWidth, cellsDepth)
    ensures forall x, z :: 0 <= x < cellsWidth && 0 <= z < cellsDepth ==> cells[x][z] == Blank
  {
    seq(cellsWidth, _ => seq(cellsDepth, _ => Blank))
  }

  predicate InBounds(p: Pos, w: nat, d: nat)
  {
    0 <= p.x < w && 0 <= p.z < d
  }

  function Step(p: Pos, o: Offset): Pos
  {
    Pos(p.x + o.dx, p.z + o.dy)
  }

  /** The neighbour of p along o cannot be improved through p: it is out of bounds, or
      occupied, or its cost is at most p's plus one. */
  ghost predicate RelaxedToward(cells: seq<seq<GridCell>>, w: nat, d: nat, p: Pos, o: Offset)
    requires Shaped(cells, w, d) && InBounds(p, w, d)
  {
    var n := Step(p, o);
    InBounds(n, w, d) && !cells[n.x][n.z].occupied ==> !Less(AddOne(cells[p.x][p.z].cost), cells[n.x][n.z].cost)
  }

  ghost predicate Relaxed(cells: seq<seq<GridCell>>, w: nat, d: nat, p: Pos)
    requires Shaped(cells, w, d) && InBounds(p, w, d)
  {
    forall k :: 0 <= k < |NeighborOffsets| ==> RelaxedToward(cells, w, d, p, NeighborOffsets[k])
  }

  ghost predicate RelaxedPrefix(cells: seq<seq<GridCell>>, w: nat, d: nat, p: Pos, k: int)
    requires Shaped(cells, w, d) && InBounds(p, w, d)
  {
    forall j :: 0 <= j < k && j < |NeighborOffsets| ==> RelaxedToward(cells, w, d, p, NeighborOffsets[j])
  }

  /** No step improves any cell: every unoccupied in-bounds 8-neighbour of a cell costs at
      most one more than the cell. */
  ghost predicate AllRelaxed(cells: seq<seq<GridCell>>, w: nat, d: nat)
    requires Shaped(cells, w, d)
  {
    forall p {:trigger Relaxed(cells, w, d, p)} :: InBounds(p, w, d) ==> Relaxed(cells, w, d, p)
  }

  /** Every cell not waiting in the queue is relaxed. */
  ghost predicate Settled(cells: seq<seq<GridCell>>, w: nat, d: nat, queue: seq<Pos>)
    requires Shaped(cells, w, d)
  {
    forall p {:trigger Relaxed(cells, w, d, p)} :: InBounds(p, w, d) ==> p in queue || Relaxed(cells, w, d, p)
  }

  /** The cells differ from `start` only in costs, which are no larger, and never for an
      occupied cell. */
  ghost predicate CopyOf(cells: seq<seq<GridCell>>, start: seq<seq<GridCell>>, w: nat, d: nat)
    requires Shaped(cells, w, d) && Shaped(start, w, d)
  {
    forall x, z :: 0 <= x < w && 0 <= z < d ==>
      && cells[x][z] == start[x][z].(cost := cells[x][z].cost)
      && !Less(start[x][z].cost, cells[x][z].cost)
      && (start[x][z].occupied ==> cells[x][z].cost == start[x][z].cost)
  }

  ghost predicate Pending(queue: seq<Pos>, w: nat, d: nat)
  {
    forall j :: 0 <= j < |queue| ==> InBounds(queue[j], w, d)
  }

  function InfiniteOf(c: GridCell): nat
  {
    if c.cost.Infinity? then 1 else 0
  }

  function FiniteOf(c: GridCell): nat
  {
    if c.cost.Finite? then c.cost.n else 0
  }

  /** The termination measure goes down lexicographically, (cells still at INFINITY, sum
      of finite costs), by at least `pushed` in the second place. */
  ghost predicate Progress(after: seq<seq<GridCell>>, before: seq<seq<GridCell>>, pushed: int)
  {
    var i1, i0 := GridSum(after, InfiniteOf), GridSum(before, InfiniteOf);
    i1 <= i0 && (i1 < i0 || GridSum(after, FiniteOf) + pushed <= GridSum(before, FiniteOf))
  }

  /** The cells with cell n's cost set to v. */
  function SetCost(cells: seq<seq<GridCell>>, w: nat, d: nat, n: Pos, v: Cost): (r: seq<seq<GridCell>>)
    requires Shaped(cells, w, d) && InBounds(n, w, d)
    ensures Shaped(r, w, d)
  {
    cells[n.x := cells[n.x][n.z := cells[n.x][n.z].(cost := v)]]
  }

  lemma LowerKeepsRelaxedToward(cells: seq<seq<GridCell>>, w: nat, d: nat, n: Pos, v: Cost, p: Pos, o: Offset)
    requires Shaped(cells, w, d) && InBounds(n, w, d) && InBounds(p, w, d) && p != n
    requires !Less(cells[n.x][n.z].cost, v)
    requires RelaxedToward(cells, w, d, p, o)
    ensures RelaxedToward(SetCost(cells, w, d, n, v), w, d, p, o)
  {
  }

  lemma LowerKeepsRelaxed(cells: seq<seq<GridCell>>, w: nat, d: nat, n: Pos, v: Cost, p: Pos)
    requires Shaped(cells, w, d) && InBounds(n, w, d) && InBounds(p, w, d) && p != n
    requires !Less(cells[n.x][n.z].cost, v)
    requires Relaxed(cells, w, d, p)
    ensures Relaxed(SetCost(cells, w, d, n, v), w, d, p)
  {
    forall k | 0 <= k < |NeighborOffsets|
      ensures RelaxedToward(SetCost(cells, w, d, n, v), w, d, p, NeighborOffsets[k])
    {
      LowerKeepsRelaxedToward(cells, w, d, n, v, p, NeighborOffsets[k]);
    }
  }

  /** Lowering a cell keeps every other relaxed cell relaxed; the lowered cell is queued. */
  lemma LowerKeepsSettled(cells: seq<seq<GridCell>>, w: nat, d: nat, queue: seq<Pos>, n: Pos, v: Cost)
    requires Shaped(cells, w, d) && InBounds(n, w, d) && !Less(cells[n.x][n.z].cost, v)
    requires Settled(cells, w, d, queue)
    ensures Settled(SetCost(cells, w, d, n, v), w, d, queue + [n])
  {
    forall p | InBounds(p, w, d) && !(p in queue + [n])
      ensures Relaxed(SetCost(cells, w, d, n, v), w, d, p)
    {
      LowerKeepsRelaxed(cells, w, d, n, v, p);
    }
  }

  /** The position in NeighborOffsets of the opposite offset. */
  function OppositeOffset(k: nat): (j: nat)
    requires k < |NeighborOffsets|
    ensures j < |NeighborOffsets|
    ensures NeighborOffsets[j] == Offset(-NeighborOffsets[k].dx, -NeighborOffsets[k].dy)
  {
    [1, 0, 3, 2, 7, 6, 5, 4][k]
  }

  /** The in-bounds neighbour of p along NeighborOffsets[k] has a finite cost at least one
      below p's. */
  ghost predicate SupportedBy(cells: seq<seq<GridCell>>, w: nat, d: nat, p: Pos, k: int)
    requires Shaped(cells, w, d) && InBounds(p, w, d)
  {
    && 0 <= k < |NeighborOffsets|
    && var n := Step(p, NeighborOffsets[k]);
    && InBounds(n, w, d)
    && cells[n.x][n.z].cost.Finite? && cells[p.x][p.z].cost.Finite?
    && cells[n.x][n.z].cost.n + 1 <= cells[p.x][p.z].cost.n
  }

  /** A finite cost of p was reached through a neighbour: the lower bound the relaxation
      keeps. */
  ghost predicate Supported(cells: seq<seq<GridCell>>, w: nat, d: nat, p: Pos)
    requires Shaped(cells, w, d) && InBounds(p, w, d)
  {
    cells[p.x][p.z].cost.Finite? ==> exists k :: SupportedBy(cells, w, d, p, k)
  }

  /** Every cell but the target t is supported. */
  ghost predicate AllSupported(cells: seq<seq<GridCell>>, w: nat, d: nat, t: Pos)
    requires Shaped(cells, w, d)
  {
    forall p {:trigger Supported(cells, w, d, p)} :: InBounds(p, w, d) && p != t ==> Supported(cells, w, d, p)
  }

  /** p's cost is exactly one more than that of its in-bounds neighbour along
      NeighborOffsets[k]. */
  ghost predicate OneMoreThan(cells: seq<seq<GridCell>>, w: nat, d: nat, p: Pos, k: int)
    requires Shaped(cells, w, d) && InBounds(p, w, d)
  {
    && 0 <= k < |NeighborOffsets|
    && var n := Step(p, NeighborOffsets[k]);
    && InBounds(n, w, d)
    && AddOne(cells[n.x][n.z].cost) == cells[p.x][p.z].cost
  }

  ghost predicate ReachedByStep(cells: seq<seq<GridCell>>, w: nat, d: nat, p: Pos)
    requires Shaped(cells, w, d) && InBounds(p, w, d)
  {
    exists k :: OneMoreThan(cells, w, d, p, k)
  }

  /** The integration result: every unoccupied cell but the target t that has a finite
      cost has it from one +1 step off some neighbour. */
  ghost predicate StepCosts(cells: seq<seq<GridCell>>, w: nat, d: nat, t: Pos)
    requires Shaped(cells, w, d)
  {
    forall p {:trigger ReachedByStep(cells, w, d, p)} ::
      InBounds(p, w, d) && p != t && cells[p.x][p.z].cost.Finite? && !cells[p.x][p.z].occupied ==>
        ReachedByStep(cells, w, d, p)
  }

  /** Lowering the neighbour of `cur` along NeighborOffsets[k] to `cur`'s cost plus one
      keeps every cell but the target supported: the lowered cell by `cur`, the others by
      their old witnesses, whose costs can only have gone down. */
  lemma LowerKeepsSupported(cells: seq<seq<GridCell>>, w: nat, d: nat, t: Pos, cur: Pos, k: nat)
    requires Shaped(cells, w, d) && InBounds(cur, w, d) && k < |NeighborOffsets|
    requires var n := Step(cur, NeighborOffsets[k]);
      InBounds(n, w, d) && Less(AddOne(cells[cur.x][cur.z].cost), cells[n.x][n.z].cost)
    requires AllSupported(cells, w, d, t)
    ensures var n := Step(cur, NeighborOffsets[k]);
      AllSupported(SetCost(cells, w, d, n, AddOne(cells[cur.x][cur.z].cost)), w, d, t)
  {
    var n := Step(cur, NeighborOffsets[k]);
    var v := AddOne(cells[cur.x][cur.z].cost);
    var r := SetCost(cells, w, d, n, v);
    assert NeighborOffsets[k] != Zero;
    forall p | InBounds(p, w, d) && p != t
      ensures Supported(r, w, d, p)
    {
      if p == n {
        var j := OppositeOffset(k);
        assert Step(n, NeighborOffsets[j]) == cur;
        assert SupportedBy(r, w, d, p, j);
      } else if r[p.x][p.z].cost.Finite? {
        assert Supported(cells, w, d, p);
        var j :| SupportedBy(cells, w, d, p, j);
        assert SupportedBy(r, w, d, p, j);
      }
    }
  }

  /** Upper and lower bound together: on a grid where no step improves any cell and every
      cell but the target is supported, every finite unoccupied cell but the target costs
      exactly one more than some neighbour. */
  lemma SettledCostsAreSteps(cells: seq<seq<GridCell>>, w: nat, d: nat, t: Pos)
    requires Shaped(cells, w, d) && AllRelaxed(cells, w, d) && AllSupported(cells, w, d, t)
    ensures StepCosts(cells, w, d, t)
  {
    forall p | InBounds(p, w, d) && p != t && cells[p.x][p.z].cost.Finite? && !cells[p.x][p.z].occupied
      ensures ReachedByStep(cells, w, d, p)
    {
      assert Supported(cells, w, d, p);
      var k :| SupportedBy(cells, w, d, p, k);
      var m := Step(p, NeighborOffsets[k]);
      var j := OppositeOffset(k);
      assert Step(m, NeighborOffsets[j]) == p;
      assert Relaxed(cells, w, d, m);
      assert RelaxedToward(cells, w, d, m, NeighborOffsets[j]);
      assert OneMoreThan(cells, w, d, p, k);
    }
  }

  /** A strict decrease of one cost is progress. */
  lemma LowerMakesProgress(cells: seq<seq<GridCell>>, w: nat, d: nat, n: Pos, v: Cost)
    requires Shaped(cells, w, d) && InBounds(n, w, d) && Less(v, cells[n.x][n.z].cost)
    ensures Progress(SetCost(cells, w, d, n, v), cells, 1)
  {
    var c := cells[n.x][n.z];
    GridSumUpdate(cells, n.x, n.z, c.(cost := v), InfiniteOf);
    GridSumUpdate(cells, n.x, n.z, c.(cost := v), FiniteOf);
  }

  /** The whole effect of lowering the neighbour of `cur` along NeighborOffsets[k] to
      `cur`'s cost plus one. */
  lemma LowerStep(start: seq<seq<GridCell>>, cells: seq<seq<GridCell>>, w: nat, d: nat, queue: seq<Pos>,
                  cur: Pos, k: nat, settled: bool)
    requires Shaped(start, w, d) && Shaped(cells, w, d) && CopyOf(cells, start, w, d)
    requires Pending(queue, w, d) && InBounds(cur, w, d) && k < |NeighborOffsets|
    requires var n := Step(cur, NeighborOffsets[k]);
      InBounds(n, w, d) && !cells[n.x][n.z].occupied &&
      Less(AddOne(cells[cur.x][cur.z].cost), cells[n.x][n.z].cost)
    requires settled ==> Settled(cells, w, d, [cur] + queue) && RelaxedPrefix(cells, w, d, cur, k)
    ensures var n := Step(cur, NeighborOffsets[k]);
      var r := SetCost(cells, w, d, n, AddOne(cells[cur.x][cur.z].cost));
      && CopyOf(r, start, w, d) && Pending(queue + [n], w, d)
      && r[cur.x][cur.z].cost == cells[cur.x][cur.z].cost
      && Progress(r, cells, 1)
      && (settled ==> Settled(r, w, d, [cur] + (queue + [n])) && RelaxedPrefix(r, w, d, cur, k + 1))
  {
    var n := Step(cur, NeighborOffsets[k]);
    var v := AddOne(cells[cur.x][cur.z].cost);
    assert NeighborOffsets[k] != Zero;
    LowerMakesProgress(cells, w, d, n, v);
    if settled {
      LowerKeepsSettled(cells, w, d, [cur] + queue, n, v);
      assert [cur] + queue + [n] == [cur] + (queue + [n]);
      forall j | 0 <= j < k
        ensures RelaxedToward(SetCost(cells, w, d, n, v), w, d, cur, NeighborOffsets[j])
      {
        LowerKeepsRelaxedToward(cells, w, d, n, v, cur, NeighborOffsets[j]);
      }
    }
  }

  /** One pass of the offset loop of `calculate_flow_field`: the neighbour of `cur` along
      NeighborOffsets[k], if in bounds and unoccupied, gets `cur`'s cost plus one when that
      is smaller, and is queued. On a converged grid nothing changes. */
  method RelaxNeighbour(start: seq<seq<GridCell>>, cells: seq<seq<GridCell>>, w: nat, d: nat, queue: seq<Pos>,
                        cur: Pos, k: nat, ghost t: Pos, ghost settled: bool, ghost converged: bool)
    returns (cells': seq<seq<GridCell>>, queue': seq<Pos>)
    requires Shaped(start, w, d) && Shaped(cells, w, d) && CopyOf(cells, start, w, d)
    requires Pending(queue, w, d) && InBounds(cur, w, d) && k < |NeighborOffsets|
    requires settled ==> Settled(cells, w, d, [cur] + queue) && RelaxedPrefix(cells, w, d, cur, k)
    requires converged ==> cells == start && AllRelaxed(start, w, d)
    ensures Shaped(cells', w, d) && CopyOf(cells', start, w, d) && Pending(queue', w, d)
    ensures CopyOf(cells', cells, w, d)
    ensures var n := Step(cur, NeighborOffsets[k]);
      forall x, z :: 0 <= x < w && 0 <= z < d && Pos(x, z) != n ==> cells'[x][z] == cells[x][z]
    ensures var n := Step(cur, NeighborOffsets[k]);
      var lower := InBounds(n, w, d) && !cells[n.x][n.z].occupied &&
                   Less(AddOne(cells[cur.x][cur.z].cost), cells[n.x][n.z].cost);
      && (!lower ==> cells' == cells && queue' == queue)
      && (lower ==> queue' == queue + [n] && cells'[n.x][n.z].cost == AddOne(cells[cur.x][cur.z].cost))
    ensures cells'[cur.x][cur.z].cost == cells[cur.x][cur.z].cost
    ensures |queue| <= |queue'| && Progress(cells', cells, |queue'| - |queue|)
    ensures settled ==> Settled(cells', w, d, [cur] + queue') && RelaxedPrefix(cells', w, d, cur, k + 1)
    ensures AllSupported(cells, w, d, t) ==> AllSupported(cells', w, d, t)
    ensures converged ==> cells' == start
  {
    cells', queue' := cells, queue;
    if converged {
      assert Relaxed(start, w, d, cur);
    }
    var n := Step(cur, NeighborOffsets[k]);
    if InBounds(n, w, d) && !cells[n.x][n.z].occupied {
      var newCost := AddOne(cells[cur.x][cur.z].cost);
      if Less(newCost, cells[n.x][n.z].cost) {
        LowerStep(start, cells, w, d, queue, cur, k, settled);
        if AllSupported(cells, w, d, t) {
          LowerKeepsSupported(cells, w, d, t, cur, k);
        }
        cells' := SetCost(cells, w, d, n, newCost);
        queue' := queue + [n];
        return;
      }
    }
    assert RelaxedToward(cells, w, d, cur, NeighborOffsets[k]);
  }

  /** One turn of the queue loop of `calculate_flow_field`: the eight neighbours of the
      popped cell `cur` are visited in order, which makes `cur` relaxed. */
  method VisitNeighbours(start: seq<seq<GridCell>>, cells: seq<seq<GridCell>>, w: nat, d: nat, queue: seq<Pos>,
                         cur: Pos, ghost t: Pos, ghost settled: bool, ghost converged: bool)
    returns (cells': seq<seq<GridCell>>, queue': seq<Pos>)
    requires Shaped(start, w, d) && Shaped(cells, w, d) && CopyOf(cells, start, w, d)
    requires Pending(queue, w, d) && InBounds(cur, w, d)
    requires settled ==> Settled(cells, w, d, [cur] + queue)
    requires converged ==> cells == start && AllRelaxed(start, w, d)
    ensures Shaped(cells', w, d) && CopyOf(cells', start, w, d) && Pending(queue', w, d)
    ensures CopyOf(cells', cells, w, d)
    ensures |queue| <= |queue'| && Progress(cells', cells, |queue'| - |queue|)
    ensures settled ==> Settled(cells', w, d, queue') && Relaxed(cells', w, d, cur)
    ensures AllSupported(cells, w, d, t) ==> AllSupported(cells', w, d, t)
    ensures converged ==> cells' == start
  {
    cells', queue' := cells, queue;
    var k := 0;
    while k < |NeighborOffsets|
      invariant 0 <= k <= |NeighborOffsets|
      invariant Shaped(cells', w, d) && CopyOf(cells', start, w, d) && Pending(queue', w, d)
      invariant CopyOf(cells', cells, w, d)
      invariant cells'[cur.x][cur.z].cost == cells[cur.x][cur.z].cost
      invariant |queue| <= |queue'| && Progress(cells', cells, |queue'| - |queue|)
      invariant settled ==> Settled(cells', w, d, [cur] + queue') && RelaxedPrefix(cells', w, d, cur, k)
      invariant AllSupported(cells, w, d, t) ==> AllSupported(cells', w, d, t)
      invariant converged ==> cells' == start
    {
      ghost var before, len := cells', |queue'|;
      cells', queue' := RelaxNeighbour(start, cells', w, d, queue', cur, k, t, settled, converged);
      ProgressComposes(cells', before, cells, |queue'| - len, len - |queue|);
      CopyOfComposes(cells', before, cells, w, d);
      k := k + 1;
    }
    if settled {
      assert Relaxed(cells', w, d, cur);
    }
  }

  /** A copy of a copy is a copy: costs only ever fall, and nothing else changes. */
  lemma CopyOfComposes(c2: seq<seq<GridCell>>, c1: seq<seq<GridCell>>, c0: seq<seq<GridCell>>, w: nat, d: nat)
    requires Shaped(c2, w, d) && Shaped(c1, w, d) && Shaped(c0, w, d)
    requires CopyOf(c2, c1, w, d) && CopyOf(c1, c0, w, d)
    ensures CopyOf(c2, c0, w, d)
  {
  }

  lemma ProgressComposes(c2: seq<seq<GridCell>>, c1: seq<seq<GridCell>>, c0: seq<seq<GridCell>>, p2: int, p1: int)
    requires Progress(c2, c1, p2) && Progress(c1, c0, p1)
    ensures Progress(c2, c0, p1 + p2)
  {
  }

  /** The same lookup as the integration pass, reading one neighbour's cost; None out of
      bounds. The direction pass does not skip occupied neighbours. */
  function Candidates(cells: seq<seq<GridCell>>, w: nat, d: nat, p: Pos): (cands: seq<Option<Cost>>)
    requires Shaped(cells, w, d)
    ensures |cands| == |NeighborOffsets|
  {
    seq(|NeighborOffsets|, k requires 0 <= k < |NeighborOffsets| =>
      var n := Step(p, NeighborOffsets[k]);
      if InBounds(n, w, d) then Some(cells[n.x][n.z].cost) else None)
  }

  lemma LessIsStrictTotalOrder()
    ensures StrictTotalOrder(Less)
  {
  }

  /** The flow vector `calculate_flow_vectors` gives an unoccupied cell p, as an offset:
      toward the neighbour the scan picks, or zero. */
  function FlowVectorAt(cells: seq<seq<GridCell>>, w: nat, d: nat, p: Pos): Offset
    requires Shaped(cells, w, d) && InBounds(p, w, d)
  {
    var pick := Scan(cells[p.x][p.z].cost, Candidates(cells, w, d, p), Less);
    if pick.index.None? then Zero else NeighborOffsets[pick.index.value]
  }

  /** Offset k names the first neighbour, in NEIGHBOR_OFFSETS order, with the lowest cost
      around p, and that cost is strictly below p's own. */
  ghost predicate FirstCheapest(cells: seq<seq<GridCell>>, w: nat, d: nat, p: Pos, k: int)
    requires Shaped(cells, w, d) && InBounds(p, w, d)
  {
    && 0 <= k < |NeighborOffsets|
    && var n := Step(p, NeighborOffsets[k]);
    && InBounds(n, w, d)
    && Less(cells[n.x][n.z].cost, cells[p.x][p.z].cost)
    && (forall j :: 0 <= j < |NeighborOffsets| && InBounds(Step(p, NeighborOffsets[j]), w, d) ==>
          !Less(cells[Step(p, NeighborOffsets[j]).x][Step(p, NeighborOffsets[j]).z].cost, cells[n.x][n.z].cost))
    && (forall j :: 0 <= j < k && InBounds(Step(p, NeighborOffsets[j]), w, d) ==>
          Less(cells[n.x][n.z].cost, cells[Step(p, NeighborOffsets[j]).x][Step(p, NeighborOffsets[j]).z].cost))
  }

  /** The flow vector is zero exactly when no in-bounds neighbour is strictly cheaper;
      otherwise it points at the first cheapest neighbour. */
  lemma FlowVectorSpec(cells: seq<seq<GridCell>>, w: nat, d: nat, p: Pos)
    requires Shaped(cells, w, d) && InBounds(p, w, d)
    ensures FlowVectorAt(cells, w, d, p) == Zero <==>
              forall j :: 0 <= j < |NeighborOffsets| && InBounds(Step(p, NeighborOffsets[j]), w, d) ==>
                !Less(cells[Step(p, NeighborOffsets[j]).x][Step(p, NeighborOffsets[j]).z].cost, cells[p.x][p.z].cost)
    ensures FlowVectorAt(cells, w, d, p) != Zero ==>
              exists k :: FirstCheapest(cells, w, d, p, k) && FlowVectorAt(cells, w, d, p) == NeighborOffsets[k]
  {
    var own := cells[p.x][p.z].cost;
    var cands := Candidates(cells, w, d, p);
    LessIsStrictTotalOrder();
    ScanSpec(own, cands, Less);
    var pick := Scan(own, cands, Less);
    forall j | 0 <= j < |NeighborOffsets|
      ensures InBounds(Step(p, NeighborOffsets[j]), w, d) <==> cands[j].Some?
      ensures cands[j].Some? ==> cands[j].value == cells[Step(p, NeighborOffsets[j]).x][Step(p, NeighborOffsets[j]).z].cost
    {
    }
    if pick.index.Some? {
      var k := pick.index.value;
      assert NeighborOffsets[k] != Zero;
      forall j | 0 <= j < |NeighborOffsets| && InBounds(Step(p, NeighborOffsets[j]), w, d)
        ensures !Less(cells[Step(p, NeighborOffsets[j]).x][Step(p, NeighborOffsets[j]).z].cost, pick.best)
      {
        assert cands[j].Some?;
      }
      forall j | 0 <= j < k && InBounds(Step(p, NeighborOffsets[j]), w, d)
        ensures Less(pick.best, cells[Step(p, NeighborOffsets[j]).x][Step(p, NeighborOffsets[j]).z].cost)
      {
        assert cands[j].Some?;
      }
      assert FirstCheapest(cells, w, d, p, k);
    } else {
      forall j | 0 <= j < |NeighborOffsets| && InBounds(Step(p, NeighborOffsets[j]), w, d)
        ensures !Less(cells[Step(p, NeighborOffsets[j]).x][Step(p, NeighborOffsets[j]).z].cost, own)
      {
        assert cands[j].Some?;
      }
    }
  }

  /** A cell at cost 0, such as the target, gets the zero vector. */
  lemma TargetGetsZero(cells: seq<seq<GridCell>>, w: nat, d: nat, p: Pos)
    requires Shaped(cells, w, d) && InBounds(p, w, d)
    requires cells[p.x][p.z].cost == Finite(0)
    ensures FlowVectorAt(cells, w, d, p) == Zero
  {
    FlowVectorSpec(cells, w, d, p);
  }

  /** A non-zero flow vector points at an in-bounds neighbour strictly cheaper than the
      cell. */
  lemma FlowVectorDescends(cells: seq<seq<GridCell>>, w: nat, d: nat, p: Pos)
    requires Shaped(cells, w, d) && InBounds(p, w, d)
    requires FlowVectorAt(cells, w, d, p) != Zero
    ensures var n := Step(p, FlowVectorAt(cells, w, d, p));
      InBounds(n, w, d) && Less(cells[n.x][n.z].cost, cells[p.x][p.z].cost)
  {
    FlowVectorSpec(cells, w, d, p);
  }

  /** The inner loop of `calculate_flow_vectors` for cell p. */
  method PickFlowVector(cells: seq<seq<GridCell>>, w: nat, d: nat, p: Pos) returns (minDirection: Offset)
    requires Shaped(cells, w, d) && InBounds(p, w, d)
    ensures minDirection == FlowVectorAt(cells, w, d, p)
  {
    var minCost := cells[p.x][p.z].cost;
    minDirection := Zero;
    ghost var own := minCost;
    ghost var cands := Candidates(cells, w, d, p);
    ghost var pick := Pick(own, None);
    var k := 0;
    while k < |NeighborOffsets|
      invariant 0 <= k <= |NeighborOffsets|
      invariant pick == Scan(own, cands[..k], Less)
      invariant minCost == pick.best
      invariant minDirection == if pick.index.None? then Zero else NeighborOffsets[pick.index.value]
    {
      var delta := NeighborOffsets[k];
      var nx := p.x + delta.dx;
      var nz := p.z + delta.dy;
      ScanExtend(own, cands, k, Less);
      if 0 <= nx < w && 0 <= nz < d {
        var neighbor := cells[nx][nz];
        assert cands[k] == Some(neighbor.cost);
        if Less(neighbor.cost, minCost) {
          minCost := neighbor.cost;
          minDirection := delta;
          pick := Pick(neighbor.cost, Some(k));
        }
      } else {
        assert cands[k] == None;
      }
      k := k + 1;
    }
    assert cands[..|NeighborOffsets|] == cands;
  }

  /** The direction pass reads costs only. */
  lemma SameCostsSameFlowVector(a: seq<seq<GridCell>>, b: seq<seq<GridCell>>, w: nat, d: nat, p: Pos)
    requires Shaped(a, w, d) && Shaped(b, w, d) && InBounds(p, w, d)
    requires forall x, z :: 0 <= x < w && 0 <= z < d ==> a[x][z].cost == b[x][z].cost
    ensures FlowVectorAt(a, w, d, p) == FlowVectorAt(b, w, d, p)
  {
    assert Candidates(a, w, d, p) == Candidates(b, w, d, p);
  }

  /** Cell p after the direction pass: unchanged if occupied, else with its flow vector. */
  function WithFlowVector(cells: seq<seq<GridCell>>, w: nat, d: nat, p: Pos): (c: GridCell)
    requires Shaped(cells, w, d) && InBounds(p, w, d)
  {
    var c := cells[p.x][p.z];
    if c.occupied then c else c.(flowVector := FlowVectorAt(cells, w, d, p))
  }

  /** The cell Grid::new leaves at (x, z). */
  function InitialCell(cellsWidth: nat, cellsDepth: nat, obstacles: (nat, nat) -> bool, x: nat, z: nat): GridCell
  {
    GridCell(CellPosition(cellsWidth, cellsDepth, x, z),
             if x == cellsWidth - 1 && z == cellsDepth - 1 then Finite(0) else Infinity,
             Zero,
             obstacles(x, z))
  }

  /** The grid Grid::new builds has every cell but the target relaxed and supported (all
      of them are at INFINITY), which is what the integration pass needs. */
  lemma FreshGridIsSettled(cells: seq<seq<GridCell>>, w: nat, d: nat, obstacles: (nat, nat) -> bool)
    requires w >= 1 && d >= 1 && Shaped(cells, w, d)
    requires forall x, z :: 0 <= x < w && 0 <= z < d ==> cells[x][z] == InitialCell(w, d, obstacles, x, z)
    ensures Settled(cells, w, d, [Pos(w - 1, d - 1)])
    ensures AllSupported(cells, w, d, Pos(w - 1, d - 1))
  {
    forall p | InBounds(p, w, d) && p != Pos(w - 1, d - 1)
      ensures Relaxed(cells, w, d, p) && Supported(cells, w, d, p)
    {
      assert cells[p.x][p.z].cost == Infinity;
    }
  }

  class Grid {
    var cells: seq<seq<GridCell>>
    var cellsWidth: nat
    var cellsDepth: nat

    /** `Grid::new`, on the corrected layout (cells_width columns of cells_depth cells):
        every cell at its centred position, occupied where `obstacles` says (the source
        draws this at random), cost INFINITY except 0 at the target corner. */
    constructor (cellsWidth: nat, cellsDepth: nat, obstacles: (nat, nat) -> bool)
      requires cellsWidth >= 1 && cellsDepth >= 1
      ensures this.cellsWidth == cellsWidth && this.cellsDepth == cellsDepth
      ensures Shaped(cells, cellsWidth, cellsDepth)
      ensures forall x, z :: 0 <= x < cellsWidth && 0 <= z < cellsDepth ==>
                cells[x][z] == InitialCell(cellsWidth, cellsDepth, obstacles, x, z)
    {
      var grid := BlankCells(cellsWidth, cellsDepth);
      var x := 0;
      while x < cellsWidth
        invariant 0 <= x <= cellsWidth
        invariant Shaped(grid, cellsWidth, cellsDepth)
        invariant forall i, j :: 0 <= i < cellsWidth && 0 <= j < cellsDepth ==>
                    grid[i][j] == if i < x then InitialCell(cellsWidth, cellsDepth, obstacles, i, j).(cost := Infinity)
                                  else Blank
      {
        var z := 0;
        while z < cellsDepth
          invariant 0 <= z <= cellsDepth
          invariant Shaped(grid, cellsWidth, cellsDepth)
          invariant forall i, j :: 0 <= i < cellsWidth && 0 <= j < cellsDepth ==>
                      grid[i][j] == if i < x || (i == x && j < z)
                                    then InitialCell(cellsWidth, cellsDepth, obstacles, i, j).(cost := Infinity)
                                    else Blank
        {
          var cell := grid[x][z].(position := CellPosition(cellsWidth, cellsDepth, x, z));
          if obstacles(x, z) {
            cell := cell.(occupied := true);
          }
          grid := grid[x := grid[x][z := cell]];
          z := z + 1;
        }
        x := x + 1;
      }
      var target := NewTargetCell(cellsWidth, cellsDepth);
      grid := grid[target.x := grid[target.x][target.z := grid[target.x][target.z].(cost := Finite(0))]];
      cells := grid;
      this.cellsWidth := cellsWidth;
      this.cellsDepth := cellsDepth;
    }

    /** `calculate_flow_field`: FIFO relaxation from the target over the eight
        neighbours, +1 per step, skipping occupied neighbours. Costs never go up, occupied
        cells and everything but costs stay as they were. Started from a grid where every
        cell but the target is relaxed (as Grid::new leaves it), it ends with no step
        improving any cell; if every cell but the target was also supported, it still is,
        and then every finite unoccupied cell but the target costs exactly one more than
        some neighbour. Started from a converged grid, as on every later frame, it changes
        nothing. */
    method CalculateFlowField(target: TargetCell)
      requires Shaped(cells, cellsWidth, cellsDepth) && target.x < cellsWidth && target.z < cellsDepth
      modifies this`cells
      ensures Shaped(cells, cellsWidth, cellsDepth)
      ensures CopyOf(cells, old(cells), cellsWidth, cellsDepth)
      ensures old(Settled(cells, cellsWidth, cellsDepth, [Pos(target.x, target.z)])) ==>
                AllRelaxed(cells, cellsWidth, cellsDepth)
      ensures old(AllSupported(cells, cellsWidth, cellsDepth, Pos(target.x, target.z))) ==>
                AllSupported(cells, cellsWidth, cellsDepth, Pos(target.x, target.z))
      ensures old(Settled(cells, cellsWidth, cellsDepth, [Pos(target.x, target.z)]) &&
                  AllSupported(cells, cellsWidth, cellsDepth, Pos(target.x, target.z))) ==>
                StepCosts(cells, cellsWidth, cellsDepth, Pos(target.x, target.z))
      ensures old(AllRelaxed(cells, cellsWidth, cellsDepth)) ==> cells == old(cells)
    {
      var w, d := cellsWidth, cellsDepth;
      var start := cells;
      var grid := cells;
      ghost var t := Pos(target.x, target.z);
      ghost var settled := Settled(start, w, d, [t]);
      ghost var supported := AllSupported(start, w, d, t);
      ghost var converged := AllRelaxed(start, w, d);
      var queue := [Pos(target.x, target.z)];
      while queue != []
        invariant Shaped(grid, w, d) && CopyOf(grid, start, w, d) && Pending(queue, w, d)
        invariant settled ==> Settled(grid, w, d, queue)
        invariant supported ==> AllSupported(grid, w, d, t)
        invariant converged ==> grid == start
        decreases GridSum(grid, InfiniteOf), GridSum(grid, FiniteOf), |queue|
      {
        var cur := queue[0];
        queue := queue[1..];
        grid, queue := VisitNeighbours(start, grid, w, d, queue, cur, t, settled, converged);
      }
      if settled && supported {
        SettledCostsAreSteps(grid, w, d, t);
      }
      cells := grid;
    }

    /** `calculate_flow_vectors`: every unoccupied cell gets the flow vector of the first
        strictly cheapest neighbour (zero if none); occupied cells keep theirs, and
        nothing else changes. */
    method CalculateFlowVectors()
      requires Shaped(cells, cellsWidth, cellsDepth)
      modifies this`cells
      ensures Shaped(cells, cellsWidth, cellsDepth)
      ensures forall x, z :: 0 <= x < cellsWidth && 0 <= z < cellsDepth ==>
                cells[x][z] == WithFlowVector(old(cells), cellsWidth, cellsDepth, Pos(x, z))
    {
      var w, d := cellsWidth, cellsDepth;
      var start := cells;
      var grid := cells;
      var x := 0;
      while x < w
        invariant 0 <= x <= w
        invariant Shaped(grid, w, d)
        invariant forall i, j :: 0 <= i < w && 0 <= j < d ==>
                    grid[i][j] == if i < x then WithFlowVector(start, w, d, Pos(i, j)) else start[i][j]
      {
        var z := 0;
        while z < d
          invariant 0 <= z <= d
          invariant Shaped(grid, w, d)
          invariant forall i, j :: 0 <= i < w && 0 <= j < d ==>
                      grid[i][j] == if i < x || (i == x && j < z) then WithFlowVector(start, w, d, Pos(i, j)) else start[i][j]
        {
          if !grid[x][z].occupied {
            var minDirection := PickFlowVector(grid, w, d, Pos(x, z));
            SameCostsSameFlowVector(grid, start, w, d, Pos(x, z));
            grid := grid[x := grid[x][z := grid[x][z].(flowVector := minDirection)]];
          }
          z := z + 1;
        }
        x := x + 1;
      }
      cells := grid;
    }

    /** `detect_colliders`: every cell is occupied exactly when some collider box
        overlaps the cell's box (its position plus or minus CELL_SIZE / 2); nothing else
        changes. */
    method DetectColliders(colliders: seq<Aabb>)
      requires Shaped(cells, cellsWidth, cellsDepth)
      modifies this`cells
      ensures Shaped(cells, cellsWidth, cellsDepth)
      ensures forall x, z :: 0 <= x < cellsWidth && 0 <= z < cellsDepth ==>
                cells[x][z] == old(cells)[x][z].(occupied := Blocked(old(cells)[x][z].position, colliders))
    {
      var x := 0;
      while x < cellsWidth
        invariant 0 <= x <= cellsWidth
        invariant Shaped(cells, cellsWidth, cellsDepth)
        invariant forall i, j :: 0 <= i < cellsWidth && 0 <= j < cellsDepth ==>
                    cells[i][j] == if i < x then old(cells)[i][j].(occupied := Blocked(old(cells)[i][j].position, colliders))
                                   else old(cells)[i][j]
      {
        var z := 0;
        while z < cellsDepth
          invariant 0 <= z <= cellsDepth
          invariant Shaped(cells, cellsWidth, cellsDepth)
          invariant forall i, j :: 0 <= i < cellsWidth && 0 <= j < cellsDepth ==>
                      cells[i][j] == if i < x || (i == x && j < z)
                                     then old(cells)[i][j].(occupied := Blocked(old(cells)[i][j].position, colliders))
                                     else old(cells)[i][j]
        {
          var cell := cells[x][z].(occupied := false);
          var hit := AnyOverlap(cell.position, colliders);
          if hit {
            cell := cell.(occupied := true);
          }
          cells := cells[x := cells[x][z := cell]];
          z := z + 1;
        }
        x := x + 1;
      }
    }
  }
}
