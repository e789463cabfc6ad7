/** A destination-scoped flow field (src/flowfield.rs): a private copy of the cost field,
    an integration field computed from it by a FIFO label-correcting relaxation over the
    four cardinal neighbours, and a direction field pointing every cell at the first of
    its eight neighbours with the least distance, if that distance is below the cell's
    own. */
module FlowFields {
  import opened Basics
  import opened Cells
  import opened Sums
  import opened NeighbourScan
  import opened WorldIndex
  import opened Grids

  /** The enumeration orders of `GridDirection::cardinal_directions()` (north, south,
      east, west) and `GridDirection::all_directions()` (clockwise from north). The
      grid_direction module is not part of this model, so these orders are assumed, and
      the lemmas below are proved for them; what the orders decide is the tie-break
      between equally close neighbours. */
  const Cardinal: seq<Offset> := [Offset(0, 1), Offset(0, -1), Offset(1, 0), Offset(-1, 0)]
  const AllDirections: seq<Offset> :=
    [Offset(0, 1), Offset(1, 1), Offset(1, 0), Offset(1, -1),
     Offset(0, -1), Offset(-1, -1), Offset(-1, 0), Offset(-1, 1)]

  predicate InBounds(i: Index, size: Size)
  {
    0 <= i.x < size.x && 0 <= i.y < size.y
  }

  function Step(i: Index, o: Offset): Index
  {
    Index(i.x + o.dx, i.y + o.dy)
  }

  /** Every cell starts unreached, as Grid::new leaves them. */
  ghost predicate Unreached(cells: seq<seq<Cell>>, size: Size)
    requires Shaped(cells, size)
  {
    forall y, x :: 0 <= y < size.y && 0 <= x < size.x ==> cells[y][x].bestCost == U16_MAX
  }

  /** Every passable cost is at most 1, as Grid::new leaves them (1 or 255). */
  ghost predicate UnitCosts(cells: seq<seq<Cell>>, size: Size)
    requires Shaped(cells, size)
  {
    forall y, x :: 0 <= y < size.y && 0 <= x < size.x ==> cells[y][x].cost <= 1 || cells[y][x].cost == U8_MAX
  }

  /** The neighbour of cell i in direction o cannot be improved through i: either it is
      out of bounds, or impassable, or its distance is at most its own cost plus i's. */
  ghost predicate RelaxedToward(cells: seq<seq<Cell>>, size: Size, i: Index, o: Offset)
    requires Shaped(cells, size) && InBounds(i, size)
  {
    var n := Step(i, o);
    InBounds(n, size) && cells[n.y][n.x].cost != U8_MAX ==>
      cells[n.y][n.x].bestCost <= cells[n.y][n.x].cost + cells[i.y][i.x].bestCost
  }

  ghost predicate Relaxed(cells: seq<seq<Cell>>, size: Size, i: Index)
    requires Shaped(cells, size) && InBounds(i, size)
  {
    forall k :: 0 <= k < |Cardinal| ==> RelaxedToward(cells, size, i, Cardinal[k])
  }

  /** The integration field is a fixpoint: no cardinal step improves any cell. */
  ghost predicate Converged(cells: seq<seq<Cell>>, size: Size)
    requires Shaped(cells, size)
  {
    forall i {:trigger Relaxed(cells, size, i)} :: InBounds(i, size) ==> Relaxed(cells, size, i)
  }

  /** The cell's distance is met through some in-bounds cardinal neighbour: it is at least
      that neighbour's distance plus the cell's own cost. */
  ghost predicate Supported(cells: seq<seq<Cell>>, size: Size, i: Index)
    requires Shaped(cells, size) && InBounds(i, size)
  {
    exists k :: 0 <= k < |Cardinal| && InBounds(Step(i, Cardinal[k]), size) &&
      cells[Step(i, Cardinal[k]).y][Step(i, Cardinal[k]).x].bestCost + cells[i.y][i.x].cost
        <= cells[i.y][i.x].bestCost
  }

  /** The measure that every relaxation lowers. */
  function BestOf(c: Cell): nat
  {
    c.bestCost
  }

  /** The opposite of Cardinal[k], as a position in Cardinal. */
  function Opposite(k: nat): (j: nat)
    requires k < |Cardinal|
    ensures j < |Cardinal| && Cardinal[j] == Offset(-Cardinal[k].dx, -Cardinal[k].dy)
  {
    [1, 0, 3, 2][k]
  }

  /** A cell that has never been reached is relaxed toward every neighbour. */
  lemma UnreachedIsRelaxed(cells: seq<seq<Cell>>, size: Size, i: Index)
    requires Shaped(cells, size) && InBounds(i, size)
    requires cells[i.y][i.x].bestCost == U16_MAX
    ensures Relaxed(cells, size, i)
  {
    forall k | 0 <= k < |Cardinal|
      ensures RelaxedToward(cells, size, i, Cardinal[k])
    {
      var n := Step(i, Cardinal[k]);
      if InBounds(n, size) {
        assert cells[n.y][n.x].bestCost <= U16_MAX;
      }
    }
  }

  /** The neighbour values the direction pass compares, in enumeration order; None for an
      out-of-bounds neighbour. */
  function Candidates(cells: seq<seq<Cell>>, size: Size, i: Index): (cands: seq<Option<int>>)
    requires Shaped(cells, size)
    ensures |cands| == |AllDirections|
  {
    seq(|AllDirections|, k requires 0 <= k < |AllDirections| =>
      var n := Step(i, AllDirections[k]);
      if InBounds(n, size) then Some(cells[n.y][n.x].bestCost as int) else None)
  }

  function IntLess(a: int, b: int): bool
  {
    a < b
  }

  lemma IntLessIsStrictTotalOrder()
    ensures StrictTotalOrder(IntLess)
  {
  }

  /** The direction the flow-field pass gives cell i: toward the candidate the scan picks,
      or none. */
  function BestDirection(cells: seq<seq<Cell>>, size: Size, i: Index): Direction
    requires Shaped(cells, size) && InBounds(i, size)
  {
    var p := Scan(cells[i.y][i.x].bestCost as int, Candidates(cells, size, i), IntLess);
    if p.index.None? then NoDirection else Toward(AllDirections[p.index.value])
  }

  /** Direction k names the first neighbour, in enumeration order, holding the smallest
      distance around cell i, and that distance is strictly below i's own. */
  ghost predicate FirstCheapest(cells: seq<seq<Cell>>, size: Size, i: Index, k: int)
    requires Shaped(cells, size) && InBounds(i, size)
  {
    && 0 <= k < |AllDirections|
    && var n := Step(i, AllDirections[k]);
    && InBounds(n, size)
    && cells[n.y][n.x].bestCost < cells[i.y][i.x].bestCost
    && (forall j :: 0 <= j < |AllDirections| && InBounds(Step(i, AllDirections[j]), size) ==>
          cells[n.y][n.x].bestCost <= cells[Step(i, AllDirections[j]).y][Step(i, AllDirections[j]).x].bestCost)
    && (forall j :: 0 <= j < k && InBounds(Step(i, AllDirections[j]), size) ==>
          cells[n.y][n.x].bestCost < cells[Step(i, AllDirections[j]).y][Step(i, AllDirections[j]).x].bestCost)
  }

  /** The direction pass gives no direction exactly when no in-bounds neighbour is strictly
      cheaper than the cell; otherwise it points at the first cheapest neighbour. */
  lemma BestDirectionSpec(cells: seq<seq<Cell>>, size: Size, i: Index)
    requires Shaped(cells, size) && InBounds(i, size)
    ensures BestDirection(cells, size, i) == NoDirection <==>
              forall j :: 0 <= j < |AllDirections| && InBounds(Step(i, AllDirections[j]), size) ==>
                cells[i.y][i.x].bestCost <= cells[Step(i, AllDirections[j]).y][Step(i, AllDirections[j]).x].bestCost
    ensures BestDirection(cells, size, i).Toward? ==>
              exists k :: FirstCheapest(cells, size, i, k) && BestDirection(cells, size, i) == Toward(AllDirections[k])
  {
    var own := cells[i.y][i.x].bestCost as int;
    var cands := Candidates(cells, size, i);
    IntLessIsStrictTotalOrder();
    ScanSpec(own, cands, IntLess);
    var p := Scan(own, cands, IntLess);
    forall j | 0 <= j < |AllDirections|
      ensures InBounds(Step(i, AllDirections[j]), size) <==> cands[j].Some?
      ensures cands[j].Some? ==>
                cands[j].value == cells[Step(i, AllDirections[j]).y][Step(i, AllDirections[j]).x].bestCost
    {
    }
    if p.index.Some? {
      var k := p.index.value;
      forall j | 0 <= j < |AllDirections| && InBounds(Step(i, AllDirections[j]), size)
        ensures p.best <= cells[Step(i, AllDirections[j]).y][Step(i, AllDirections[j]).x].bestCost
      {
        assert cands[j].Some?;
      }
      forall j | 0 <= j < k && InBounds(Step(i, AllDirections[j]), size)
        ensures p.best < cells[Step(i, AllDirections[j]).y][Step(i, AllDirections[j]).x].bestCost
      {
        assert cands[j].Some?;
      }
      assert FirstCheapest(cells, size, i, k);
    } else {
      forall j | 0 <= j < |AllDirections| && InBounds(Step(i, AllDirections[j]), size)
        ensures own <= cells[Step(i, AllDirections[j]).y][Step(i, AllDirections[j]).x].bestCost
      {
        assert cands[j].Some?;
      }
    }
  }

  /** A cell at distance 0, such as the destination, gets no direction. */
  lemma DestinationHasNoDirection(cells: seq<seq<Cell>>, size: Size, i: Index)
    requires Shaped(cells, size) && InBounds(i, size)
    requires cells[i.y][i.x].bestCost == 0
    ensures BestDirection(cells, size, i) == NoDirection
  {
    BestDirectionSpec(cells, size, i);
  }

  /** Following a direction always descends: the neighbour it points at is in the grid and
      strictly closer to the destination than the cell itself. */
  lemma DirectionDescends(cells: seq<seq<Cell>>, size: Size, i: Index)
    requires Shaped(cells, size) && InBounds(i, size)
    requires BestDirection(cells, size, i).Toward?
    ensures var n := Step(i, BestDirection(cells, size, i).delta);
      InBounds(n, size) && cells[n.y][n.x].bestCost < cells[i.y][i.x].bestCost
  {
    BestDirectionSpec(cells, size, i);
  }

  /** Clamps a fraction to [0, 1]. */
  function Clamp01(p: real): (r: real)
    ensures 0.0 <= r <= 1.0
    ensures 0.0 <= p <= 1.0 ==> r == p
  {
    if p < 0.0 then 0.0 else if p > 1.0 then 1.0 else p
  }

  /** The index computation of `FlowField::get_cell_from_world_position` along one axis:
      the fraction is clamped to [0, 1] before it is scaled, floored and clamped to n - 1. */
  function AxisClampedIndex(p: real, n: Extent, cellDiameter: real): (i: int)
    requires n >= 1 && cellDiameter > 0.0
    ensures 0 <= i < n
  {
    ScaledIndex(Clamp01(AxisPercent(p, n, cellDiameter)), n, n)
  }

  /** Clamping the fraction first changes nothing: the saturating cast already sends
      positions before the grid to 0 and the final min sends positions past it to n - 1. */
  lemma AxisClampedIndexIsHelperIndex(p: real, n: Extent, cellDiameter: real)
    requires n >= 1 && cellDiameter > 0.0
    ensures AxisClampedIndex(p, n, cellDiameter) == AxisHelperIndex(p, n, cellDiameter)
  {
    ClampBeforeScaling(AxisPercent(p, n, cellDiameter), n);
  }

  lemma ClampBeforeScaling(f: real, n: Extent)
    requires n >= 1
    ensures ScaledIndex(Clamp01(f), n, n) == ScaledIndex(f, n, n)
  {
    if f < 0.0 {
      assert n as real * f < 0.0;
    } else if f > 1.0 {
      assert n as real * f > n as real * 1.0;
    }
  }

  /** The cells with cell n's distance lowered to v. */
  function Lower(cells: seq<seq<Cell>>, size: Size, n: Index, v: U16): (r: seq<seq<Cell>>)
    requires Shaped(cells, size) && InBounds(n, size)
    ensures Shaped(r, size)
  {
    cells[n.y := cells[n.y][n.x := cells[n.y][n.x].(bestCost := v)]]
  }

  /** Lowering another cell's distance keeps a cell relaxed toward any neighbour. */
  lemma LowerKeepsRelaxedToward(cells: seq<seq<Cell>>, size: Size, n: Index, v: U16, i: Index, o: Offset)
    requires Shaped(cells, size) && InBounds(n, size) && InBounds(i, size) && i != n
    requires v <= cells[n.y][n.x].bestCost
    requires RelaxedToward(cells, size, i, o)
    ensures RelaxedToward(Lower(cells, size, n, v), size, i, o)
  {
  }

  lemma LowerKeepsRelaxed(cells: seq<seq<Cell>>, size: Size, n: Index, v: U16, i: Index)
    requires Shaped(cells, size) && InBounds(n, size) && InBounds(i, size) && i != n
    requires v <= cells[n.y][n.x].bestCost
    requires Relaxed(cells, size, i)
    ensures Relaxed(Lower(cells, size, n, v), size, i)
  {
    forall k | 0 <= k < |Cardinal|
      ensures RelaxedToward(Lower(cells, size, n, v), size, i, Cardinal[k])
    {
      LowerKeepsRelaxedToward(cells, size, n, v, i, Cardinal[k]);
    }
  }

  /** Lowering another cell's distance keeps a cell supported. */
  lemma LowerKeepsSupported(cells: seq<seq<Cell>>, size: Size, n: Index, v: U16, i: Index)
    requires Shaped(cells, size) && InBounds(n, size) && InBounds(i, size) && i != n
    requires v <= cells[n.y][n.x].bestCost
    requires Supported(cells, size, i)
    ensures Supported(Lower(cells, size, n, v), size, i)
  {
    var k :| 0 <= k < |Cardinal| && InBounds(Step(i, Cardinal[k]), size) &&
      cells[Step(i, Cardinal[k]).y][Step(i, Cardinal[k]).x].bestCost + cells[i.y][i.x].cost
        <= cells[i.y][i.x].bestCost;
    var r: seq<seq<Cell>> := Lower(cells, size, n, v);
    assert r[Step(i, Cardinal[k]).y][Step(i, Cardinal[k]).x].bestCost + r[i.y][i.x].cost <= r[i.y][i.x].bestCost;
  }

  /** A neighbour lowered through cur is supported by cur. */
  lemma LoweredIsSupported(cells: seq<seq<Cell>>, size: Size, cur: Index, k: nat, v: U16)
    requires Shaped(cells, size) && InBounds(cur, size) && k < |Cardinal|
    requires InBounds(Step(cur, Cardinal[k]), size)
    requires var n := Step(cur, Cardinal[k]);
      v == cells[n.y][n.x].cost + cells[cur.y][cur.x].bestCost
    ensures Supported(Lower(cells, size, Step(cur, Cardinal[k]), v), size, Step(cur, Cardinal[k]))
  {
    var n := Step(cur, Cardinal[k]);
    var r: seq<seq<Cell>> := Lower(cells, size, n, v);
    var j := Opposite(k);
    assert Step(n, Cardinal[j]) == cur;
    assert r[cur.y][cur.x].bestCost + r[n.y][n.x].cost <= r[n.y][n.x].bestCost;
  }

  /** The cells differ from `start` only in distances, which are no larger, and never for
      a cost-255 cell. */
  ghost predicate CopyOf(cells: seq<seq<Cell>>, start: seq<seq<Cell>>, size: Size)
    requires Shaped(cells, size) && Shaped(start, size)
  {
    forall y, x :: 0 <= y < size.y && 0 <= x < size.x ==>
      && cells[y][x] == start[y][x].(bestCost := cells[y][x].bestCost)
      && cells[y][x].bestCost <= start[y][x].bestCost
      && (start[y][x].cost == U8_MAX ==> cells[y][x].bestCost == start[y][x].bestCost)
  }

  /** Every queued index is in bounds and has been reached. */
  ghost predicate Pending(cells: seq<seq<Cell>>, size: Size, queue: seq<Index>)
    requires Shaped(cells, size)
  {
    forall j :: 0 <= j < |queue| ==>
      InBounds(queue[j], size) && cells[queue[j].y][queue[j].x].bestCost < U16_MAX
  }

  /** Every cell not waiting in the queue is relaxed. */
  ghost predicate Settled(cells: seq<seq<Cell>>, size: Size, queue: seq<Index>)
    requires Shaped(cells, size)
  {
    forall i {:trigger Relaxed(cells, size, i)} :: InBounds(i, size) ==> i in queue || Relaxed(cells, size, i)
  }

  /** Cell i is relaxed toward the first k cardinal directions. */
  ghost predicate RelaxedPrefix(cells: seq<seq<Cell>>, size: Size, i: Index, k: int)
    requires Shaped(cells, size) && InBounds(i, size)
  {
    forall j :: 0 <= j < k && j < |Cardinal| ==> RelaxedToward(cells, size, i, Cardinal[j])
  }

  /** Every reached cell other than the destination is supported. */
  ghost predicate AllSupported(cells: seq<seq<Cell>>, size: Size, d: Index)
    requires Shaped(cells, size)
  {
    forall i {:trigger Supported(cells, size, i)} ::
      InBounds(i, size) && i != d && cells[i.y][i.x].bestCost < U16_MAX ==> Supported(cells, size, i)
  }

  /** Lowering the neighbour of `cur` in direction k to the distance through `cur` keeps
      the cells a copy of `start` and the queue, extended by that neighbour, reached. */
  lemma LowerKeepsBookkeeping(start: seq<seq<Cell>>, cells: seq<seq<Cell>>, size: Size, queue: seq<Index>,
                              cur: Index, k: nat, v: U16)
    requires Shaped(start, size) && Shaped(cells, size) && CopyOf(cells, start, size)
    requires Pending(cells, size, queue) && InBounds(cur, size) && k < |Cardinal|
    requires var n := Step(cur, Cardinal[k]);
      InBounds(n, size) && cells[n.y][n.x].cost != U8_MAX &&
      v == cells[n.y][n.x].cost + cells[cur.y][cur.x].bestCost && v < cells[n.y][n.x].bestCost
    ensures var n := Step(cur, Cardinal[k]);
      var r := Lower(cells, size, n, v);
      && CopyOf(r, start, size) && Pending(r, size, queue + [n])
      && r[cur.y][cur.x].bestCost == cells[cur.y][cur.x].bestCost
  {
    assert Cardinal[k] != Offset(0, 0);
  }

  /** The same lowering keeps every relaxed cell other than the neighbour relaxed; the
      neighbour is queued. */
  lemma LowerKeepsSettled(cells: seq<seq<Cell>>, size: Size, queue: seq<Index>, n: Index, v: U16)
    requires Shaped(cells, size) && InBounds(n, size) && v <= cells[n.y][n.x].bestCost
    requires Settled(cells, size, queue)
    ensures Settled(Lower(cells, size, n, v), size, queue + [n])
  {
    forall i | InBounds(i, size) && !(i in queue + [n])
      ensures Relaxed(Lower(cells, size, n, v), size, i)
    {
      LowerKeepsRelaxed(cells, size, n, v, i);
    }
  }

  /** The same lowering keeps every reached cell supported and supports the neighbour
      through `cur`. */
  lemma LowerKeepsAllSupported(cells: seq<seq<Cell>>, size: Size, cur: Index, k: nat, d: Index, v: U16)
    requires Shaped(cells, size) && InBounds(cur, size) && k < |Cardinal|
    requires var n := Step(cur, Cardinal[k]);
      InBounds(n, size) && v == cells[n.y][n.x].cost + cells[cur.y][cur.x].bestCost && v < cells[n.y][n.x].bestCost
    requires AllSupported(cells, size, d)
    ensures AllSupported(Lower(cells, size, Step(cur, Cardinal[k]), v), size, d)
  {
    var n := Step(cur, Cardinal[k]);
    var r: seq<seq<Cell>> := Lower(cells, size, n, v);
    forall i | InBounds(i, size) && i != d && r[i.y][i.x].bestCost < U16_MAX
      ensures Supported(r, size, i)
    {
      if i == n {
        LoweredIsSupported(cells, size, cur, k, v);
      } else {
        LowerKeepsSupported(cells, size, n, v, i);
      }
    }
  }

  /** After the neighbour in direction k has been looked at, `cur` is relaxed toward the
      first k + 1 directions, whether or not the neighbour was lowered. */
  lemma LowerKeepsRelaxedPrefix(cells: seq<seq<Cell>>, size: Size, cur: Index, k: nat, v: U16)
    requires Shaped(cells, size) && InBounds(cur, size) && k < |Cardinal|
    requires var n := Step(cur, Cardinal[k]);
      InBounds(n, size) && v == cells[n.y][n.x].cost + cells[cur.y][cur.x].bestCost && v < cells[n.y][n.x].bestCost
    requires RelaxedPrefix(cells, size, cur, k)
    ensures RelaxedPrefix(Lower(cells, size, Step(cur, Cardinal[k]), v), size, cur, k + 1)
  {
    var n := Step(cur, Cardinal[k]);
    assert Cardinal[k] != Offset(0, 0);
    forall j | 0 <= j < k
      ensures RelaxedToward(Lower(cells, size, n, v), size, cur, Cardinal[j])
    {
      LowerKeepsRelaxedToward(cells, size, n, v, cur, Cardinal[j]);
    }
  }

  /** The whole effect of lowering the neighbour of `cur` in direction k, as one step of
      the queue loop needs it. */
  lemma LowerStep(start: seq<seq<Cell>>, cells: seq<seq<Cell>>, size: Size, queue: seq<Index>,
                  cur: Index, k: nat, d: Index, v: U16, unreached: bool)
    requires Shaped(start, size) && Shaped(cells, size) && CopyOf(cells, start, size)
    requires Pending(cells, size, queue) && InBounds(cur, size) && k < |Cardinal|
    requires var n := Step(cur, Cardinal[k]);
      InBounds(n, size) && cells[n.y][n.x].cost != U8_MAX &&
      v == cells[n.y][n.x].cost + cells[cur.y][cur.x].bestCost && v < cells[n.y][n.x].bestCost
    requires unreached ==>
               Settled(cells, size, [cur] + queue) && AllSupported(cells, size, d) && RelaxedPrefix(cells, size, cur, k)
    ensures var n := Step(cur, Cardinal[k]);
      var r := Lower(cells, size, n, v);
      && CopyOf(r, start, size) && Pending(r, size, queue + [n])
      && r[cur.y][cur.x].bestCost == cells[cur.y][cur.x].bestCost
      && GridSum(r, BestOf) + 1 <= GridSum(cells, BestOf)
      && (unreached ==> AllSupported(r, size, d))
      && (unreached ==> Settled(r, size, [cur] + (queue + [n])) && RelaxedPrefix(r, size, cur, k + 1))
  {
    var n := Step(cur, Cardinal[k]);
    GridSumUpdate(cells, n.y, n.x, cells[n.y][n.x].(bestCost := v), BestOf);
    LowerKeepsBookkeeping(start, cells, size, queue, cur, k, v);
    if unreached {
      LowerKeepsSettled(cells, size, [cur] + queue, n, v);
      assert [cur] + queue + [n] == [cur] + (queue + [n]);
      LowerKeepsAllSupported(cells, size, cur, k, d, v);
      LowerKeepsRelaxedPrefix(cells, size, cur, k, v);
    }
  }

  /** The u16 sum `cost + best_cost` for the neighbour of `cur` in direction `dir` would
      exceed 65535: the neighbour is in bounds and passable, and its cost plus `cur`'s
      distance is above U16_MAX. */
  predicate OverflowsToward(cells: seq<seq<Cell>>, size: Size, cur: Index, dir: Offset)
    requires Shaped(cells, size) && InBounds(cur, size)
  {
    var n := Step(cur, dir);
    InBounds(n, size) && cells[n.y][n.x].cost != U8_MAX &&
    cells[n.y][n.x].cost + cells[cur.y][cur.x].bestCost > U16_MAX
  }

  /** Whether a step overflows reads only costs and `cur`'s distance, so it is the same on
      every cost-only copy that keeps `cur`'s distance. */
  lemma OverflowsTowardCopy(a: seq<seq<Cell>>, b: seq<seq<Cell>>, size: Size, cur: Index, dir: Offset)
    requires Shaped(a, size) && Shaped(b, size) && CopyOf(b, a, size) && InBounds(cur, size)
    requires b[cur.y][cur.x].bestCost == a[cur.y][cur.x].bestCost
    ensures OverflowsToward(b, size, cur, dir) == OverflowsToward(a, size, cur, dir)
  {
    var n := Step(cur, dir);
    if InBounds(n, size) {
      assert b[n.y][n.x].cost == a[n.y][n.x].cost;
    }
  }

  /** One pass of the direction loop of `create_integration_field`: the neighbour of the
      popped cell `cur` in direction Cardinal[k], if in bounds and passable, is lowered to
      its cost plus `cur`'s distance when that is smaller, and queued. `overflow` is the
      u16 panic on that sum, which needs a passable cost of at least 2. The step keeps
      every relaxed and every supported cell so, makes `cur` relaxed toward direction k,
      and lowers the sum of distances by at least the number of cells queued. */
  method RelaxNeighbour(start: seq<seq<Cell>>, cells: seq<seq<Cell>>, size: Size, queue: seq<Index>,
                        cur: Index, k: nat, d: Index, ghost unreached: bool)
    returns (cells': seq<seq<Cell>>, queue': seq<Index>, overflow: bool)
    requires Shaped(start, size) && Shaped(cells, size) && CopyOf(cells, start, size)
    requires Pending(cells, size, queue) && InBounds(cur, size) && cells[cur.y][cur.x].bestCost < U16_MAX
    requires k < |Cardinal|
    requires unreached ==>
               Settled(cells, size, [cur] + queue) && AllSupported(cells, size, d) && RelaxedPrefix(cells, size, cur, k)
    ensures Shaped(cells', size) && CopyOf(cells', start, size) && Pending(cells', size, queue')
    ensures CopyOf(cells', cells, size)
    ensures var n := Step(cur, Cardinal[k]);
      forall y, x :: 0 <= y < size.y && 0 <= x < size.x && Index(x, y) != n ==> cells'[y][x] == cells[y][x]
    ensures var n := Step(cur, Cardinal[k]);
      var lower := InBounds(n, size) && cells[n.y][n.x].cost != U8_MAX &&
                   cells[n.y][n.x].cost + cells[cur.y][cur.x].bestCost < cells[n.y][n.x].bestCost;
      && (overflow ==> cells' == cells && queue' == queue)
      && (!overflow && !lower ==> cells' == cells && queue' == queue)
      && (!overflow && lower ==>
            queue' == queue + [n] &&
            cells'[n.y][n.x].bestCost == cells[n.y][n.x].cost + cells[cur.y][cur.x].bestCost)
    ensures overflow <==> OverflowsToward(cells, size, cur, Cardinal[k])
    ensures cells'[cur.y][cur.x].bestCost == cells[cur.y][cur.x].bestCost
    ensures |queue| <= |queue'| && GridSum(cells', BestOf) + (|queue'| - |queue|) <= GridSum(cells, BestOf)
    ensures overflow ==> !UnitCosts(start, size)
    ensures unreached ==> AllSupported(cells', size, d)
    ensures !overflow && unreached ==>
              Settled(cells', size, [cur] + queue') && RelaxedPrefix(cells', size, cur, k + 1)
  {
    cells', queue', overflow := cells, queue, false;
    var curBest := cells[cur.y][cur.x].bestCost;
    var n := Step(cur, Cardinal[k]);
    if InBounds(n, size) && cells[n.y][n.x].cost != U8_MAX {
      var cost := cells[n.y][n.x].cost;
      if cost + curBest > U16_MAX {
        OverflowNeedsLargeCost(start, size, n, cost, curBest);
        return cells, queue, true;
      }
      var tentative := cost + curBest;
      if tentative < cells[n.y][n.x].bestCost {
        LowerStep(start, cells, size, queue, cur, k, d, tentative, unreached);
        cells' := Lower(cells, size, n, tentative);
        queue' := queue + [n];
        return;
      }
    }
    RelaxedPrefixGrows(cells, size, cur, k);
  }

  /** A u16 overflow of cost + best with best < 65535 needs a cost of at least 2. */
  lemma OverflowNeedsLargeCost(start: seq<seq<Cell>>, size: Size, n: Index, cost: int, curBest: int)
    requires Shaped(start, size) && InBounds(n, size)
    requires start[n.y][n.x].cost == cost && cost != U8_MAX && curBest < U16_MAX && cost + curBest > U16_MAX
    ensures !UnitCosts(start, size)
  {
  }

  /** Once cur is relaxed toward direction k, its relaxed prefix grows by one. */
  lemma RelaxedPrefixGrows(cells: seq<seq<Cell>>, size: Size, cur: Index, k: nat)
    requires Shaped(cells, size) && InBounds(cur, size) && k < |Cardinal|
    requires RelaxedToward(cells, size, cur, Cardinal[k])
    ensures RelaxedPrefix(cells, size, cur, k) ==> RelaxedPrefix(cells, size, cur, k + 1)
  {
  }

  /** One turn of the queue loop of `create_integration_field`: the cardinal neighbours of
      the popped cell `cur` are visited in order. The turn makes `cur` relaxed. */
  method VisitNeighbours(start: seq<seq<Cell>>, cells: seq<seq<Cell>>, size: Size, queue: seq<Index>,
                         cur: Index, d: Index, ghost unreached: bool)
    returns (cells': seq<seq<Cell>>, queue': seq<Index>, overflow: bool)
    requires Shaped(start, size) && Shaped(cells, size) && CopyOf(cells, start, size)
    requires Pending(cells, size, queue) && InBounds(cur, size) && cells[cur.y][cur.x].bestCost < U16_MAX
    requires unreached ==> Settled(cells, size, [cur] + queue) && AllSupported(cells, size, d)
    ensures Shaped(cells', size) && CopyOf(cells', start, size) && Pending(cells', size, queue')
    ensures CopyOf(cells', cells, size)
    ensures cells'[cur.y][cur.x].bestCost == cells[cur.y][cur.x].bestCost
    ensures overflow <==> exists k :: 0 <= k < |Cardinal| && OverflowsToward(cells, size, cur, Cardinal[k])
    ensures |queue| <= |queue'| && GridSum(cells', BestOf) + (|queue'| - |queue|) <= GridSum(cells, BestOf)
    ensures overflow ==> !UnitCosts(start, size)
    ensures unreached ==> AllSupported(cells', size, d)
    ensures !overflow && unreached ==> Settled(cells', size, queue') && Relaxed(cells', size, cur)
  {
    cells', queue', overflow := cells, queue, false;
    var k := 0;
    while k < |Cardinal|
      invariant 0 <= k <= |Cardinal|
      invariant Shaped(cells', size) && CopyOf(cells', start, size) && Pending(cells', size, queue')
      invariant CopyOf(cells', cells, size)
      invariant cells'[cur.y][cur.x].bestCost == cells[cur.y][cur.x].bestCost
      invariant !overflow && forall j :: 0 <= j < k ==> !OverflowsToward(cells, size, cur, Cardinal[j])
      invariant |queue| <= |queue'| && GridSum(cells', BestOf) + (|queue'| - |queue|) <= GridSum(cells, BestOf)
      invariant unreached ==> AllSupported(cells', size, d)
      invariant unreached ==> Settled(cells', size, [cur] + queue') && RelaxedPrefix(cells', size, cur, k)
    {
      OverflowsTowardCopy(cells, cells', size, cur, Cardinal[k]);
      cells', queue', overflow := RelaxNeighbour(start, cells', size, queue', cur, k, d, unreached);
      if overflow {
        return;
      }
      k := k + 1;
    }
    if unreached {
      assert Relaxed(cells', size, cur);
    }
  }

  /** A cost field as Grid::new builds it, with every cost 1 or 255, meets the premises of
      the strongest guarantees of CreateIntegrationField: nothing reached yet, and no
      passable cost above 1. */
  lemma BuiltGridMeetsIntegrationPremises(g: Grid)
    requires WellFormed(g)
    requires forall y, x :: 0 <= y < g.size.y && 0 <= x < g.size.x ==> g.grid[y][x].cost in {1, U8_MAX}
    ensures Unreached(g.grid, g.size) && UnitCosts(g.grid, g.size)
  {
  }

  /** The grid's cells with the destination forced to cost 0 and distance 0. */
  function ForceDestination(cells: seq<seq<Cell>>, size: Size, d: Index): (r: seq<seq<Cell>>)
    requires Shaped(cells, size) && InBounds(d, size)
    ensures Shaped(r, size)
  {
    cells[d.y := cells[d.y][d.x := cells[d.y][d.x].(cost := 0, bestCost := 0)]]
  }

  /** The state the queue loop starts from satisfies its invariants: only the destination
      is queued, and it is the only cell that can be unrelaxed. Forcing the destination's
      cost to 0 keeps every passable cost at most 1. */
  lemma StartIsSound(cells: seq<seq<Cell>>, size: Size, d: Index)
    requires Shaped(cells, size) && InBounds(d, size)
    ensures var s := ForceDestination(cells, size, d);
      && CopyOf(s, s, size) && Pending(s, size, [d])
      && (Unreached(cells, size) ==> Settled(s, size, [d]) && AllSupported(s, size, d))
      && (UnitCosts(cells, size) ==> UnitCosts(s, size))
  {
    var s := ForceDestination(cells, size, d);
    if Unreached(cells, size) {
      forall i | InBounds(i, size) && i != d
        ensures Relaxed(s, size, i)
      {
        UnreachedIsRelaxed(s, size, i);
      }
    }
  }

  /** What a copy of the forced cells says about the grid's own cells. */
  lemma CopyOfForced(cells: seq<seq<Cell>>, size: Size, d: Index, r: seq<seq<Cell>>)
    requires Shaped(cells, size) && InBounds(d, size) && Shaped(r, size)
    requires CopyOf(r, ForceDestination(cells, size, d), size)
    ensures r[d.y][d.x] == cells[d.y][d.x].(cost := 0, bestCost := 0)
    ensures forall y, x :: 0 <= y < size.y && 0 <= x < size.x && Index(x, y) != d ==>
              && r[y][x] == cells[y][x].(bestCost := r[y][x].bestCost)
              && r[y][x].bestCost <= cells[y][x].bestCost
              && (cells[y][x].cost == U8_MAX ==> r[y][x].bestCost == cells[y][x].bestCost)
  {
  }

  /** The inner loop of `create_flowfield` for cell i: the scan over all eight
      neighbours in enumeration order, keeping the best distance and its direction. */
  method PickDirection(cells: seq<seq<Cell>>, size: Size, i: Index) returns (bestDirection: Direction)
    requires Shaped(cells, size) && InBounds(i, size)
    ensures bestDirection == BestDirection(cells, size, i)
  {
    var bestCost := cells[i.y][i.x].bestCost;
    bestDirection := NoDirection;
    ghost var own := cells[i.y][i.x].bestCost as int;
    ghost var cands := Candidates(cells, size, i);
    ghost var pick := Pick(own, None);
    var k := 0;
    while k < |AllDirections|
      invariant 0 <= k <= |AllDirections|
      invariant pick == Scan(own, cands[..k], IntLess)
      invariant bestCost == pick.best
      invariant bestDirection == if pick.index.None? then NoDirection else Toward(AllDirections[pick.index.value])
    {
      var delta := AllDirections[k];
      var nx := i.x + delta.dx;
      var ny := i.y + delta.dy;
      ScanExtend(own, cands, k, IntLess);
      if 0 <= nx < size.x && 0 <= ny < size.y {
        var neighbour := cells[ny][nx];
        assert cands[k] == Some(neighbour.bestCost as int);
        if neighbour.bestCost < bestCost {
          bestCost := neighbour.bestCost;
          bestDirection := Toward(delta);
          pick := Pick(neighbour.bestCost as int, Some(k));
        }
      } else {
        assert cands[k] == None;
      }
      k := k + 1;
    }
    assert cands[..|AllDirections|] == cands;
  }

  /** The direction pass reads distances only. */
  lemma SameDistancesSameDirection(a: seq<seq<Cell>>, b: seq<seq<Cell>>, size: Size, i: Index)
    requires Shaped(a, size) && Shaped(b, size) && InBounds(i, size)
    requires forall y, x :: 0 <= y < size.y && 0 <= x < size.x ==> a[y][x].bestCost == b[y][x].bestCost
    ensures BestDirection(a, size, i) == BestDirection(b, size, i)
  {
    assert Candidates(a, size, i) == Candidates(b, size, i);
  }

  class FlowField {
    var cellRadius: real
    var cellDiameter: real
    var destinationCell: Cell
    var grid: seq<seq<Cell>>
    var size: Size
    var units: seq<nat>

    /** `FlowField::new`: no cells yet, a default destination, the diameter twice the
        radius. Units are entity identifiers. */
    constructor (cellRadius: real, gridSize: Size, selectedUnits: seq<nat>)
      ensures this.cellRadius == cellRadius && cellDiameter == cellRadius * 2.0
      ensures destinationCell == DefaultCell && grid == []
      ensures size == gridSize && units == selectedUnits
    {
      this.cellRadius := cellRadius;
      cellDiameter := cellRadius * 2.0;
      destinationCell := DefaultCell;
      grid := [];
      size := gridSize;
      units := selectedUnits;
    }

    /** `FlowField::create_integration_field`. Copies the grid's cells, forces the
        destination to cost 0 and distance 0, and relaxes from it over cardinal steps,
        skipping cost-255 neighbours. The u16 sum `cost + best_cost` is checked: when it
        would exceed 65535 the source panics, and the model stops with `overflow`. It
        reports overflow only with a reached cell and a cardinal step that overflows, and
        cannot while every passable cost is at most 1.

        Without overflow, and starting from unreached cells, the result is a fixpoint in
        which every reached cell's distance is met by a cardinal neighbour. */
    method CreateIntegrationField(g: Grid, destination: Cell) returns (overflow: bool)
      requires Shaped(g.grid, size) && InBounds(destination.idx, size)
      modifies this`grid, this`destinationCell
      ensures Shaped(grid, size)
      ensures var d := destination.idx;
        && destinationCell == g.grid[d.y][d.x].(cost := 0, bestCost := 0)
        && grid[d.y][d.x] == destinationCell
      ensures forall y, x :: 0 <= y < size.y && 0 <= x < size.x && Index(x, y) != destination.idx ==>
                && grid[y][x] == g.grid[y][x].(bestCost := grid[y][x].bestCost)
                && grid[y][x].bestCost <= g.grid[y][x].bestCost
                && (g.grid[y][x].cost == U8_MAX ==> grid[y][x].bestCost == g.grid[y][x].bestCost)
      ensures UnitCosts(g.grid, size) ==> !overflow
      ensures overflow ==>
                exists i: Index, k :: InBounds(i, size) && 0 <= k < |Cardinal| &&
                  grid[i.y][i.x].bestCost < U16_MAX && OverflowsToward(grid, size, i, Cardinal[k])
      ensures !overflow && Unreached(g.grid, size) ==> Converged(grid, size)
      ensures Unreached(g.grid, size) ==> AllSupported(grid, size, destination.idx)
    {
      var d := destination.idx;
      var start := ForceDestination(g.grid, size, d);
      StartIsSound(g.grid, size, d);
      var cells := start;
      destinationCell := cells[d.y][d.x];
      ghost var unreached := Unreached(g.grid, size);
      var queue := [d];
      overflow := false;
      while queue != []
        invariant Shaped(cells, size) && CopyOf(cells, start, size) && Pending(cells, size, queue)
        invariant unreached ==> Settled(cells, size, queue) && AllSupported(cells, size, d)
        invariant destinationCell == start[d.y][d.x]
        invariant !overflow
        decreases GridSum(cells, BestOf), |queue|
      {
        var cur := queue[0];
        queue := queue[1..];
        ghost var before := cells;
        cells, queue, overflow := VisitNeighbours(start, cells, size, queue, cur, d, unreached);
        if overflow {
          ghost var k :| 0 <= k < |Cardinal| && OverflowsToward(before, size, cur, Cardinal[k]);
          OverflowsTowardCopy(before, cells, size, cur, Cardinal[k]);
          break;
        }
      }
      CopyOfForced(g.grid, size, d, cells);
      grid := cells;
    }

    /** `FlowField::create_flowfield`: every cell gets the direction of the first
        neighbour, among all eight in enumeration order, with the least distance, if that
        distance is below the cell's own (see BestDirectionSpec); nothing else changes. */
    method CreateFlowfield()
      requires Shaped(grid, size)
      modifies this`grid
      ensures Shaped(grid, size)
      ensures forall y, x :: 0 <= y < size.y && 0 <= x < size.x ==>
                grid[y][x] == old(grid)[y][x].(bestDirection := BestDirection(old(grid), size, Index(x, y)))
    {
      var y := 0;
      while y < size.y
        invariant 0 <= y <= size.y
        invariant Shaped(grid, size)
        invariant forall r, c :: 0 <= r < size.y && 0 <= c < size.x ==>
                    grid[r][c] == if r < y then old(grid)[r][c].(bestDirection := BestDirection(old(grid), size, Index(c, r)))
                                  else old(grid)[r][c]
      {
        var x := 0;
        while x < size.x
          invariant 0 <= x <= size.x
          invariant Shaped(grid, size)
          invariant forall r, c :: 0 <= r < size.y && 0 <= c < size.x ==>
                      grid[r][c] == if r < y || (r == y && c < x)
                                    then old(grid)[r][c].(bestDirection := BestDirection(old(grid), size, Index(c, r)))
                                    else old(grid)[r][c]
        {
          var bestDirection := PickDirection(grid, size, Index(x, y));
          SameDistancesSameDirection(grid, old(grid), size, Index(x, y));
          grid := grid[y := grid[y][x := grid[y][x].(bestDirection := bestDirection)]];
          x := x + 1;
        }
        y := y + 1;
      }
    }

    /** `FlowField::get_cell_from_world_position`: the fractions are clamped to [0, 1]
        before scaling, so every position, inside the grid or not, gives a cell of the
        field, and it is the cell the utils helper picks. */
    function GetCellFromWorldPosition(worldPos: Vec3): (c: Cell)
      reads this
      requires size.x >= 1 && size.y >= 1 && cellDiameter > 0.0 && Shaped(grid, size)
      ensures var i := HelperIndex(worldPos, size, cellDiameter); c == grid[i.y][i.x]
    {
      AxisClampedIndexIsHelperIndex(worldPos.x, size.x, cellDiameter);
      AxisClampedIndexIsHelperIndex(worldPos.z, size.y, cellDiameter);
      grid[AxisClampedIndex(worldPos.z, size.y, cellDiameter)][AxisClampedIndex(worldPos.x, size.x, cellDiameter)]
    }
  }
}
