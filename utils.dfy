/** World-position to grid-index helpers (src/utils.rs). Positions are real numbers;
    float rounding is not modelled. Rust's `f.floor() as usize` is a SATURATING cast:
    negative values become 0 and values past usize::MAX become usize::MAX. */
module WorldIndex {
  import opened Basics
  import opened Cells

  const USIZE_MAX: int := 0xFFFF_FFFF_FFFF_FFFF

  /** `v.floor() as usize`. */
  function FloorAsUsize(v: real): (n: nat)
    ensures n <= USIZE_MAX
    ensures v < 0.0 ==> n == 0
    ensures 0.0 <= v < USIZE_MAX as real ==> n as real <= v < n as real + 1.0
    ensures USIZE_MAX as real <= v ==> n == USIZE_MAX
  {
    var f := v.Floor;
    if f < 0 then 0 else if f > USIZE_MAX then USIZE_MAX else f
  }

  /** Reference definition of a lookup along one axis of `n` cells: the floor of `v`,
      clamped to the valid indices 0 .. n-1. */
  function ClampedFloor(v: real, n: int): (i: int)
    requires n >= 1
    ensures 0 <= i < n
    ensures v < 0.0 ==> i == 0
    ensures n as real <= v ==> i == n - 1
    ensures 0.0 <= v < n as real ==> i as real <= v < i as real + 1.0
  {
    if v < 0.0 then 0 else Min(v.Floor, n - 1)
  }

  /** The world coordinate of the grid's left (x) or top (z) edge for `n` cells: the grid
      is centred on the origin. */
  function LeftEdge(n: int, cellDiameter: real): real
  {
    -(n as real) * cellDiameter / 2.0
  }

  /** A coordinate as a fraction of the extent of `n` cells, measured from the near edge
      (unclamped: below 0 before the grid, above 1 past it). */
  function AxisPercent(p: real, n: Extent, cellDiameter: real): real
    requires n >= 1 && cellDiameter > 0.0
  {
    var adjusted := p - LeftEdge(n, cellDiameter);
    adjusted / (n as real * cellDiameter)
  }

  /** A fraction scaled by the size `n`, floored, cast to usize and clamped to len - 1. */
  function ScaledIndex(fraction: real, n: int, len: int): (i: int)
    requires len >= 1
    ensures 0 <= i < len
  {
    Min(FloorAsUsize(n as real * fraction), len - 1)
  }

  /** The index computation of `get_cell_from_world_position_helper` along one axis of
      `n` cells: the fraction of the extent, scaled, floored, cast and clamped to n - 1. */
  function AxisHelperIndex(p: real, n: Extent, cellDiameter: real): (i: int)
    requires n >= 1 && cellDiameter > 0.0
    ensures 0 <= i < n
  {
    ScaledIndex(AxisPercent(p, n, cellDiameter), n, n)
  }

  /** The index computation of `get_cell_from_world_position_helper`: x from the world
      x coordinate, y from the world z coordinate. */
  function HelperIndex(worldPos: Vec3, gridSize: Size, cellDiameter: real): (i: Index)
    requires gridSize.x >= 1 && gridSize.y >= 1 && cellDiameter > 0.0
    ensures 0 <= i.x < gridSize.x && 0 <= i.y < gridSize.y
  {
    Index(AxisHelperIndex(worldPos.x, gridSize.x, cellDiameter),
          AxisHelperIndex(worldPos.z, gridSize.y, cellDiameter))
  }

  /** `get_cell_from_world_position_helper`: a copy of the cell at the clamped index
      (row y, column x). The grid must hold at least size.y rows of size.x cells, since
      the source indexes it without checking. */
  function GetCellFromWorldPositionHelper(worldPos: Vec3, gridSize: Size, cellDiameter: real,
                                          grid: seq<seq<Cell>>): (c: Cell)
    requires gridSize.x >= 1 && gridSize.y >= 1 && cellDiameter > 0.0
    requires |grid| >= gridSize.y
    requires forall r :: 0 <= r < gridSize.y ==> |grid[r]| >= gridSize.x
    ensures var i := HelperIndex(worldPos, gridSize, cellDiameter);
      i.y < gridSize.y && i.x < gridSize.x && c == grid[i.y][i.x]
  {
    var i := HelperIndex(worldPos, gridSize, cellDiameter);
    grid[i.y][i.x]
  }

  /** n * (a / (n * d)) == a / d for positive n and d. */
  lemma ScaleFraction(a: real, n: real, d: real)
    requires n > 0.0 && d > 0.0
    ensures n * (a / (n * d)) == a / d
  {
    var q := a / (n * d);
    assert q * (n * d) == a;
    assert (n * q) * d == a;
  }

  /** The saturating cast followed by `min(_, n - 1)` is the clamped floor. */
  lemma SaturatingCastClamps(v: real, n: int)
    requires 1 <= n <= USIZE_MAX
    ensures Min(FloorAsUsize(v), n - 1) == ClampedFloor(v, n)
  {
  }

  /** Along one axis, the helper's index is the floor of the distance from the grid's
      edge measured in cell diameters, clamped to the grid. */
  lemma AxisHelperIndexIsClampedFloor(p: real, n: Extent, cellDiameter: real)
    requires n >= 1 && cellDiameter > 0.0
    ensures AxisHelperIndex(p, n, cellDiameter) ==
            ClampedFloor((p - LeftEdge(n, cellDiameter)) / cellDiameter, n)
  {
    var adjusted := p - LeftEdge(n, cellDiameter);
    ScaleFraction(adjusted, n as real, cellDiameter);
    assert n as real * AxisPercent(p, n, cellDiameter) == adjusted / cellDiameter;
    SaturatingCastClamps(adjusted / cellDiameter, n);
  }

  /** The helper's index along each axis is the floor of the distance from the grid's
      left/top edge, in cell diameters, clamped to the grid. */
  lemma HelperIndexIsClampedFloor(worldPos: Vec3, gridSize: Size, cellDiameter: real)
    requires gridSize.x >= 1 && gridSize.y >= 1 && cellDiameter > 0.0
    ensures HelperIndex(worldPos, gridSize, cellDiameter) ==
      Index(ClampedFloor((worldPos.x - LeftEdge(gridSize.x, cellDiameter)) / cellDiameter, gridSize.x),
            ClampedFloor((worldPos.z - LeftEdge(gridSize.y, cellDiameter)) / cellDiameter, gridSize.y))
  {
    AxisHelperIndexIsClampedFloor(worldPos.x, gridSize.x, cellDiameter);
    AxisHelperIndexIsClampedFloor(worldPos.z, gridSize.y, cellDiameter);
  }

  /** Along one axis: positions before the near edge give index 0 (through the saturating
      cast) and positions at or past the far edge give the last index. */
  lemma AxisHelperIndexAtEdges(p: real, n: Extent, cellDiameter: real)
    requires n >= 1 && cellDiameter > 0.0
    ensures p < LeftEdge(n, cellDiameter) ==> AxisHelperIndex(p, n, cellDiameter) == 0
    ensures p >= -LeftEdge(n, cellDiameter) ==> AxisHelperIndex(p, n, cellDiameter) == n - 1
  {
    AxisHelperIndexIsClampedFloor(p, n, cellDiameter);
    var adjusted := p - LeftEdge(n, cellDiameter);
    if p < LeftEdge(n, cellDiameter) {
      DivisionSign(adjusted, cellDiameter);
    }
    if p >= -LeftEdge(n, cellDiameter) {
      DivisionAtLeast(adjusted, n as real, cellDiameter);
    }
  }

  /** Positions before the left edge map to column 0 and positions past the right edge to
      the last column; likewise for rows along z. */
  lemma HelperIndexAtEdges(worldPos: Vec3, gridSize: Size, cellDiameter: real)
    requires gridSize.x >= 1 && gridSize.y >= 1 && cellDiameter > 0.0
    ensures var i := HelperIndex(worldPos, gridSize, cellDiameter);
      && (worldPos.x < LeftEdge(gridSize.x, cellDiameter) ==> i.x == 0)
      && (worldPos.z < LeftEdge(gridSize.y, cellDiameter) ==> i.y == 0)
      && (worldPos.x >= -LeftEdge(gridSize.x, cellDiameter) ==> i.x == gridSize.x - 1)
      && (worldPos.z >= -LeftEdge(gridSize.y, cellDiameter) ==> i.y == gridSize.y - 1)
  {
    AxisHelperIndexAtEdges(worldPos.x, gridSize.x, cellDiameter);
    AxisHelperIndexAtEdges(worldPos.z, gridSize.y, cellDiameter);
  }

  lemma DivisionSign(a: real, d: real)
    requires a < 0.0 && d > 0.0
    ensures a / d < 0.0
  {
    assert (a / d) * d == a;
  }

  lemma DivisionAtLeast(a: real, n: real, d: real)
    requires d > 0.0 && a >= n * d
    ensures a / d >= n
  {
    assert (a / d) * d == a;
  }

  /** The index computation of `get_cell_from_world_position_helper_generic` along one
      axis whose grid dimension is `len`. With an offset fraction the index is
      floor(size * fraction); without one it is floor(position / cell_diameter), with no
      centring. Either is cast to usize and clamped to len - 1. */
  function GenericAxisIndex(fraction: Option<real>, p: real, n: Extent, cellDiameter: real, len: int): (i: int)
    requires len >= 1 && cellDiameter > 0.0
    ensures 0 <= i < len
  {
    if fraction.Some? then ScaledIndex(fraction.value, n, len) else Min(FloorAsUsize(p / cellDiameter), len - 1)
  }

  /** The index computation of `get_cell_from_world_position_helper_generic`: x from the
      offset's x or the world x, clamped by the first row's length; y from the offset's y
      or the world z, clamped by the number of rows. */
  function GenericIndex(position: Vec3, gridSize: Size, cellDiameter: real,
                        grid: seq<seq<Cell>>, offset: Option<Vec2>): (i: Index)
    requires |grid| >= 1 && |grid[0]| >= 1
    requires cellDiameter > 0.0
    ensures 0 <= i.x < |grid[0]| && 0 <= i.y < |grid|
  {
    Index(GenericAxisIndex(if offset.Some? then Some(offset.value.x) else None, position.x, gridSize.x, cellDiameter, |grid[0]|),
          GenericAxisIndex(if offset.Some? then Some(offset.value.y) else None, position.z, gridSize.y, cellDiameter, |grid|))
  }

  /** `get_cell_from_world_position_helper_generic`: a copy of the cell at the index above.
      Every row must be at least as long as the first, since the column is clamped by the
      first row's length only. */
  function GetCellFromWorldPositionHelperGeneric(position: Vec3, gridSize: Size, cellDiameter: real,
                                                 grid: seq<seq<Cell>>, offset: Option<Vec2>): (c: Cell)
    requires |grid| >= 1 && |grid[0]| >= 1
    requires forall r :: 0 <= r < |grid| ==> |grid[r]| >= |grid[0]|
    requires cellDiameter > 0.0
    ensures var i := GenericIndex(position, gridSize, cellDiameter, grid, offset);
      i.x < |grid[i.y]| && c == grid[i.y][i.x]
  {
    var i := GenericIndex(position, gridSize, cellDiameter, grid, offset);
    grid[i.y][i.x]
  }

  /** Both branches of the generic helper along one axis are a clamped floor: of
      size * offset with an offset, of position / cell_diameter (no centring) without. */
  lemma GenericAxisIndexIsClampedFloor(fraction: Option<real>, p: real, n: Extent, cellDiameter: real, len: int)
    requires 1 <= len <= USIZE_MAX && cellDiameter > 0.0
    ensures GenericAxisIndex(fraction, p, n, cellDiameter, len) ==
            if fraction.Some? then ClampedFloor(n as real * fraction.value, len) else ClampedFloor(p / cellDiameter, len)
  {
    if fraction.Some? {
      SaturatingCastClamps(n as real * fraction.value, len);
    } else {
      SaturatingCastClamps(p / cellDiameter, len);
    }
  }
}
