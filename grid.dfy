/** The shared cost field (src/grid.rs): size.y rows of size.x cells laid out around the
    world origin, each cell passable (cost 1) unless the collision checker reports its
    centre blocked (cost 255). */
module Grids {
  import opened Basics
  import opened Cells
  import opened WorldIndex

  datatype Grid = Grid(size: Size, cellRadius: real, cellDiameter: real, grid: seq<seq<Cell>>)

  /** The world position of the centre of cell (x, y): one diameter per index step plus a
      radius, shifted so that the grid is centred on the origin. */
  function CellCentre(size: Size, cellDiameter: real, x: int, y: int): Vec3
  {
    var cellRadius := cellDiameter / 2.0;
    Vec3(cellDiameter * x as real + cellRadius + LeftEdge(size.x, cellDiameter),
         0.0,
         cellDiameter * y as real + cellRadius + LeftEdge(size.y, cellDiameter))
  }

  /** `cells` has size.y rows of size.x cells. */
  ghost predicate Shaped(cells: seq<seq<Cell>>, size: Size)
  {
    |cells| == size.y && forall y :: 0 <= y < |cells| ==> |cells[y]| == size.x
  }

  /** A cost field as Grid::new builds it: the right shape, every cell at its own index and
      centre, costs in 1 ..= 255, nothing reached yet and no direction. */
  ghost predicate WellFormed(g: Grid)
  {
    && Shaped(g.grid, g.size)
    && g.cellRadius == g.cellDiameter / 2.0
    && forall y, x :: 0 <= y < g.size.y && 0 <= x < g.size.x ==>
         && g.grid[y][x].idx == Index(x, y)
         && g.grid[y][x].worldPosition == CellCentre(g.size, g.cellDiameter, x, y)
         && 1 <= g.grid[y][x].cost
         && g.grid[y][x].bestCost == U16_MAX
         && g.grid[y][x].bestDirection == NoDirection
  }

  /** The cell layout built by the map/collect in Grid::new, before any cost is set. */
  function Layout(size: Size, cellDiameter: real): seq<seq<Cell>>
  {
    seq(size.y, y => seq(size.x, x => NewCell(CellCentre(size, cellDiameter, x, y), Index(x, y))))
  }

  /** Cell (x, y) of the cost field once the collision checker has been consulted. */
  function CostFieldCell(size: Size, cellDiameter: real, collisionChecker: Vec3 -> bool, x: int, y: int): Cell
  {
    var c := NewCell(CellCentre(size, cellDiameter, x, y), Index(x, y));
    if collisionChecker(c.worldPosition) then IncreaseCost(c, 255) else c
  }

  /** The centres of row y, left to right. */
  function RowCentres(size: Size, cellDiameter: real, y: int): seq<Vec3>
  {
    seq(size.x, x => CellCentre(size, cellDiameter, x, y))
  }

  /** The centres of the first `rows` rows in row-major order: the positions the collision
      checker is asked about, in the order it is asked. */
  function RowMajorCentres(size: Size, cellDiameter: real, rows: nat): seq<Vec3>
  {
    if rows == 0 then [] else RowMajorCentres(size, cellDiameter, rows - 1) + RowCentres(size, cellDiameter, rows - 1)
  }

  /** The row-major listing has one entry per cell: entry y * size.x + x is the centre of
      cell (x, y). */
  lemma {:induction false} RowMajorCentresAt(size: Size, cellDiameter: real, rows: nat, x: int, y: int)
    requires 0 <= y < rows && 0 <= x < size.x
    ensures |RowMajorCentres(size, cellDiameter, rows)| == rows * size.x
    ensures y * size.x + x < rows * size.x
    ensures RowMajorCentres(size, cellDiameter, rows)[y * size.x + x] == CellCentre(size, cellDiameter, x, y)
  {
    RowMajorCentresLength(size, cellDiameter, rows - 1);
    var prefix := RowMajorCentres(size, cellDiameter, rows - 1);
    assert (rows - 1) * size.x + size.x == rows * size.x;
    if y < rows - 1 {
      RowMajorCentresAt(size, cellDiameter, rows - 1, x, y);
    } else {
      assert y * size.x == |prefix|;
    }
  }

  lemma {:induction false} RowMajorCentresLength(size: Size, cellDiameter: real, rows: nat)
    ensures |RowMajorCentres(size, cellDiameter, rows)| == rows * size.x
  {
    if rows > 0 {
      RowMajorCentresLength(size, cellDiameter, rows - 1);
      assert (rows - 1) * size.x + size.x == rows * size.x;
    }
  }

  /** `Grid::new`: lays out the cells, then asks the collision checker about each cell's
      centre, once per cell in row-major order (returned as `queried`), and raises every
      blocked cell by 255, which saturates at 255. The checker is a pure function here;
      the order in which the source calls it is what `queried` records. */
  method NewGrid(size: Size, cellDiameter: real, collisionChecker: Vec3 -> bool)
    returns (g: Grid, queried: seq<Vec3>)
    ensures g.size == size && g.cellDiameter == cellDiameter
    ensures g.cellRadius == cellDiameter / 2.0
    ensures WellFormed(g)
    ensures forall y, x :: 0 <= y < size.y && 0 <= x < size.x ==>
              g.grid[y][x].cost == if collisionChecker(CellCentre(size, cellDiameter, x, y)) then U8_MAX else 1
    ensures queried == RowMajorCentres(size, cellDiameter, size.y)
  {
    var cells := Layout(size, cellDiameter);
    queried := [];
    var y := 0;
    while y < size.y
      invariant 0 <= y <= size.y
      invariant Shaped(cells, size)
      invariant forall r, c :: 0 <= r < size.y && 0 <= c < size.x ==>
                  cells[r][c] == if r < y then CostFieldCell(size, cellDiameter, collisionChecker, c, r)
                                 else Layout(size, cellDiameter)[r][c]
      invariant queried == RowMajorCentres(size, cellDiameter, y)
    {
      var x := 0;
      while x < size.x
        invariant 0 <= x <= size.x
        invariant Shaped(cells, size)
        invariant forall r, c :: 0 <= r < size.y && 0 <= c < size.x ==>
                    cells[r][c] == if r < y || (r == y && c < x) then CostFieldCell(size, cellDiameter, collisionChecker, c, r)
                                   else Layout(size, cellDiameter)[r][c]
        invariant queried == RowMajorCentres(size, cellDiameter, y) + RowCentres(size, cellDiameter, y)[..x]
      {
        var worldPos := cells[y][x].worldPosition;
        assert RowCentres(size, cellDiameter, y)[..x + 1] == RowCentres(size, cellDiameter, y)[..x] + [worldPos];
        queried := queried + [worldPos];
        if collisionChecker(worldPos) {
          cells := cells[y := cells[y][x := IncreaseCost(cells[y][x], 255)]];
        }
        x := x + 1;
      }
      assert RowCentres(size, cellDiameter, y)[..size.x] == RowCentres(size, cellDiameter, y);
      y := y + 1;
    }
    g := Grid(size, cellDiameter / 2.0, cellDiameter, cells);
  }

  /** The position as a fraction of the grid's extent along x and z, unclamped. */
  function Percent(worldPos: Vec3, size: Size, cellDiameter: real): Vec2
    requires size.x >= 1 && size.y >= 1 && cellDiameter > 0.0
  {
    Vec2(AxisPercent(worldPos.x, size.x, cellDiameter), AxisPercent(worldPos.z, size.y, cellDiameter))
  }

  /** Handing the fraction to the generic helper as its offset gives the utils helper's
      index. */
  lemma PercentOffsetIsHelperIndex(worldPos: Vec3, size: Size, cellDiameter: real, cells: seq<seq<Cell>>)
    requires size.x >= 1 && size.y >= 1 && cellDiameter > 0.0 && Shaped(cells, size)
    ensures GenericIndex(worldPos, size, cellDiameter, cells, Some(Percent(worldPos, size, cellDiameter)))
            == HelperIndex(worldPos, size, cellDiameter)
  {
    assert |cells[0]| == size.x;
    var px := AxisPercent(worldPos.x, size.x, cellDiameter);
    var pz := AxisPercent(worldPos.z, size.y, cellDiameter);
    assert GenericAxisIndex(Some(px), worldPos.x, size.x, cellDiameter, size.x) == AxisHelperIndex(worldPos.x, size.x, cellDiameter);
    assert GenericAxisIndex(Some(pz), worldPos.z, size.y, cellDiameter, size.y) == AxisHelperIndex(worldPos.z, size.y, cellDiameter);
  }

  /** `Grid::get_cell_from_world_position`: the position as a fraction of the grid,
      handed to the generic helper as its offset. It returns the cell the utils helper
      picks, which is always a cell of the grid at an in-bounds index. */
  function GetCellFromWorldPosition(g: Grid, worldPos: Vec3): (c: Cell)
    requires Shaped(g.grid, g.size) && g.size.x >= 1 && g.size.y >= 1 && g.cellDiameter > 0.0
    ensures var i := HelperIndex(worldPos, g.size, g.cellDiameter);
      0 <= i.x < g.size.x && 0 <= i.y < g.size.y && c == g.grid[i.y][i.x]
    ensures WellFormed(g) ==> 0 <= c.idx.x < g.size.x && 0 <= c.idx.y < g.size.y
  {
    PercentOffsetIsHelperIndex(worldPos, g.size, g.cellDiameter, g.grid);
    GetCellFromWorldPositionHelperGeneric(worldPos, g.size, g.cellDiameter, g.grid,
                                          Some(Percent(worldPos, g.size, g.cellDiameter)))
  }

  lemma DivisionBetween(a: real, d: real, k: int)
    requires d > 0.0 && d * k as real <= a < d * (k + 1) as real
    ensures k as real <= a / d < (k + 1) as real
  {
    assert (a / d) * d == a;
  }

  /** Along one axis, every coordinate within the span of cell k is located at index k. */
  lemma AxisLocateWithinCell(p: real, n: Extent, cellDiameter: real, k: int)
    requires n >= 1 && cellDiameter > 0.0 && 0 <= k < n
    requires LeftEdge(n, cellDiameter) + cellDiameter * k as real <= p
             < LeftEdge(n, cellDiameter) + cellDiameter * (k + 1) as real
    ensures AxisHelperIndex(p, n, cellDiameter) == k
  {
    AxisHelperIndexIsClampedFloor(p, n, cellDiameter);
    var v := (p - LeftEdge(n, cellDiameter)) / cellDiameter;
    DivisionBetween(p - LeftEdge(n, cellDiameter), cellDiameter, k);
    assert v.Floor == k;
  }

  /** Every position inside the square of cell (x, y) is located in that cell. */
  lemma LocateWithinCell(g: Grid, worldPos: Vec3, x: int, y: int)
    requires WellFormed(g) && g.size.x >= 1 && g.size.y >= 1 && g.cellDiameter > 0.0
    requires 0 <= x < g.size.x && 0 <= y < g.size.y
    requires LeftEdge(g.size.x, g.cellDiameter) + g.cellDiameter * x as real <= worldPos.x
             < LeftEdge(g.size.x, g.cellDiameter) + g.cellDiameter * (x + 1) as real
    requires LeftEdge(g.size.y, g.cellDiameter) + g.cellDiameter * y as real <= worldPos.z
             < LeftEdge(g.size.y, g.cellDiameter) + g.cellDiameter * (y + 1) as real
    ensures GetCellFromWorldPosition(g, worldPos) == g.grid[y][x]
  {
    AxisLocateWithinCell(worldPos.x, g.size.x, g.cellDiameter, x);
    AxisLocateWithinCell(worldPos.z, g.size.y, g.cellDiameter, y);
    assert HelperIndex(worldPos, g.size, g.cellDiameter) == Index(x, y);
  }

  /** Round trip: the centre of cell (x, y) is located in cell (x, y). */
  lemma LocateCentreRoundTrip(g: Grid, x: int, y: int)
    requires WellFormed(g) && g.size.x >= 1 && g.size.y >= 1 && g.cellDiameter > 0.0
    requires 0 <= x < g.size.x && 0 <= y < g.size.y
    ensures GetCellFromWorldPosition(g, g.grid[y][x].worldPosition) == g.grid[y][x]
    ensures GetCellFromWorldPosition(g, g.grid[y][x].worldPosition).idx == Index(x, y)
  {
    LocateWithinCell(g, g.grid[y][x].worldPosition, x, y);
  }
}
