/** One grid cell (src/cell.rs): its world position, its grid index, the u8 traversal
    cost of the shared cost field, the u16 integration distance `best_cost` and the
    direction picked by the flow-field pass.

    The source tree holds two revisions of this record (`grid_idx`/`world_position`
    here, `idx`/`best_direction` in flowfield.rs); the model is the one record with all
    of idx, cost, best_cost and best_direction. */
module Cells {
  import opened Basics

  const U8_MAX: int := 255
  const U16_MAX: int := 65535

  /** Rust's `u8` and `u16`. */
  type U8 = n: int | 0 <= n <= 255
  type U16 = n: int | 0 <= n <= 65535

  /** A world position; the ground plane is x/z, the vertical y is unused. */
  datatype Vec3 = Vec3(x: real, y: real, z: real)

  /** A grid index (IVec2): x is the column, y the row. */
  datatype Index = Index(x: int, y: int)

  const I32_MAX: int := 0x7FFF_FFFF

  /** One dimension of a grid size (an i32 of IVec2); negative sizes are not modelled. */
  type Extent = n: int | 0 <= n <= I32_MAX

  /** A grid size: x columns, y rows. */
  datatype Size = Size(x: Extent, y: Extent)

  /** A 2D vector of reals (Vec2). */
  datatype Vec2 = Vec2(x: real, y: real)

  /** A step to a neighbouring cell. */
  datatype Offset = Offset(dx: int, dy: int)

  /** `GridDirection`: None, or one of the compass steps, given by its offset. */
  datatype Direction = NoDirection | Toward(delta: Offset)

  datatype Cell = Cell(worldPosition: Vec3, idx: Index, cost: U8, bestCost: U16, bestDirection: Direction)

  /** `Cell::default()`: everything zero, no direction. */
  const DefaultCell: Cell := Cell(Vec3(0.0, 0.0, 0.0), Index(0, 0), 0, 0, NoDirection)

  /** `Cell::new`: a passable cell (cost 1) not yet reached by any integration field. */
  function NewCell(worldPosition: Vec3, idx: Index): (c: Cell)
    ensures c.worldPosition == worldPosition && c.idx == idx
    ensures c.cost == 1 && c.bestCost == U16_MAX && c.bestDirection == NoDirection
  {
    Cell(worldPosition, idx, 1, U16_MAX, NoDirection)
  }

  /** `Cell::increase_cost`: saturating addition on the u8 cost. The cost becomes
      min(255, cost + amount); it never wraps, never decreases, 255 absorbs every
      further increase, and nothing but the cost changes. */
  function IncreaseCost(c: Cell, amount: U8): (r: Cell)
    ensures r.cost == Min(c.cost + amount, U8_MAX)
    ensures r == c.(cost := r.cost)
    ensures c.cost <= r.cost
    ensures c.cost == U8_MAX ==> r == c
    ensures amount == 0 ==> r == c
  {
    if c.cost == U8_MAX then c
    else if c.cost + amount <= U8_MAX then c.(cost := c.cost + amount)  // checked_add succeeded
    else c.(cost := U8_MAX)                                           // checked_add overflowed
  }

  /** Two saturating increases add up before saturating, so raises compose. */
  lemma IncreaseCostComposes(c: Cell, a: U8, b: U8)
    ensures IncreaseCost(IncreaseCost(c, a), b).cost == Min(c.cost + a + b, U8_MAX)
  {
  }

  /** Raising a fresh cell by 200 twice gives 255, not a wrapped value. */
  lemma RaiseTwiceBy200(p: Vec3, i: Index)
    ensures IncreaseCost(IncreaseCost(NewCell(p, i), 200), 200).cost == U8_MAX
  {
    IncreaseCostComposes(NewCell(p, i), 200, 200);
  }
}
