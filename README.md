# Flow-field pathfinding for bevy_rts_pathfinding

This project models the pathfinding core of bevy_rts_pathfinding in Dafny. Many RTS units
steer toward one destination using three layers over one 2D grid:

- a **cost field**: one `u8` traversal cost per cell, with 255 meaning impassable;
- an **integration field**: one `u16` distance `best_cost` per cell, measured to the destination;
- a **direction field**: each cell points at a cheaper neighbour.

The model covers:

- **Cells** (`cell.dfy`, src/cell.rs). The cell record, `Cell::new`, and the saturating `Cell::increase_cost`.
- **WorldIndex** (`utils.dfy`, src/utils.rs). The world-position-to-index helpers.
  - Positions are reals.
  - Rust's `f.floor() as usize` is written out as a saturating cast: negative values give 0, huge values give `usize::MAX`.
  - The final `min(_, len - 1)` clamp is part of the model.
- **Grids** (`grid.dfy`, src/grid.rs). `Grid::new` lays out `size.y` rows of `size.x` cells centred on the origin, then asks the collision checker about every cell's centre, row by row. `Grid::get_cell_from_world_position` is the lookup.
- **FlowFields** (`flowfield.dfy`, src/flowfield.rs). `FlowField` is a class whose methods update its fields:
  - `create_integration_field` is a FIFO label-correcting relaxation over the four cardinal neighbours.
  - `create_flowfield` is the eight-neighbour direction pass.
  - `get_cell_from_world_position` is the clamped lookup.
- **Legacy** (`legacy.dfy`, src/lib.rs). The older uniform-cost grid:
  - `TargetCell::new`;
  - `Grid::new`, with obstacles given as a function;
  - `calculate_flow_field`, a +1-per-step relaxation over eight neighbours that skips occupied cells;
  - `calculate_flow_vectors`;
  - `aabb_overlap` and `detect_colliders`.

  The `f32` cost is only ever 0, a sum of `1.0` steps, or `INFINITY`, so it is modelled as `Finite(n) | Infinity`. The normalised flow vector is modelled as the neighbour offset it points along.
- **NeighbourScan** (`scan.dfy`). Both direction passes share one scan. It starts from the cell's own value, visits the neighbours in a fixed order, and switches to a neighbour only when that neighbour is strictly smaller. The scan is proved once, generically: it picks the FIRST neighbour that holds the minimum, and it picks none when no neighbour is strictly smaller.
- **Basics**, **Sums**. `Option`, the integer `Min`, and sums over a 2D grid. The sums serve as termination measures.

How the two relaxation loops are proved:

- Each is a `while` loop over a queue.
- The loop carries the invariant "every cell except those still queued is relaxed" (an upper bound on every cost) and the invariant "every finite cost but the destination's is met through a neighbour" (a lower bound).
- `create_integration_field` terminates because its decreasing measure is the sum of all distances, then the queue length.
- `calculate_flow_field` terminates because its measure is the number of infinite cells, then the sum of finite costs, then the queue length.

Behaviour of the code worth knowing, which the model follows:

- Cost-255 neighbours are skipped by `create_integration_field` (src/flowfield.rs:75-77). A cell of cost 255 therefore keeps its copied distance (u16::MAX on a grid `Grid::new` built). The exception is a destination of cost 255, which is forced to cost 0 and distance 0.
- Nothing rejects an empty grid size. `Grid::new` builds an empty grid, and only the lookups, whose `size - 1` would underflow, require a size of at least one.
- The source tree mixes two revisions of the cell record and of the helper's signature:
  - src/cell.rs has `grid_idx`/`world_position`, while src/flowfield.rs uses `idx`/`best_direction`;
  - src/grid.rs:80-86 passes an offset that only `get_cell_from_world_position_helper_generic` accepts.

  The model keeps one record with all the fields. It models `Grid::get_cell_from_world_position` as the call to the generic helper with the percentage offset.

## Model

| member | source | states |
|---|---|---|
| Cells.NewCell | src/cell.rs:14-21 | a new cell keeps the given position and index, has cost 1, distance u16::MAX (unreached) and no direction |
| Cells.IncreaseCost | src/cell.rs:23-33 | the cost becomes min(255, cost + amount) and never wraps; it never decreases; a cell at 255 and an amount of 0 leave the cell unchanged; only the cost changes |
| Cells.IncreaseCostComposes | src/cell.rs:28-32 | two saturating raises add up before saturating |
| Cells.RaiseTwiceBy200 | src/cell.rs:28-32 | raising a fresh cell by 200 twice gives 255 |
| WorldIndex.FloorAsUsize | src/utils.rs:43-44 | the saturating `floor() as usize`: 0 for negatives, usize::MAX at or past it, the floor in between |
| WorldIndex.ClampedFloor | src/utils.rs:43-47 | reference definition of one axis lookup: the floor clamped to 0 .. n-1, 0 before the grid, n-1 past it |
| WorldIndex.SaturatingCastClamps | src/utils.rs:43-47 | the saturating cast followed by `min(_, n - 1)` equals the clamped floor |
| WorldIndex.AxisHelperIndex | src/utils.rs:35-47 | the helper's index along one axis is within 0 .. n-1 |
| WorldIndex.HelperIndex | src/utils.rs:35-47 | the helper's index is within the grid's size on both axes |
| WorldIndex.GetCellFromWorldPositionHelper | src/utils.rs:28-50 | the helper returns the cell at row y, column x of its index, which is in bounds; the grid is only read |
| WorldIndex.AxisHelperIndexIsClampedFloor | src/utils.rs:35-47 | along one axis the index is the clamped floor of the distance from the grid's edge in cell diameters |
| WorldIndex.HelperIndexIsClampedFloor | src/utils.rs:35-47 | both axes of the helper's index are that clamped floor |
| WorldIndex.HelperIndexAtEdges | src/utils.rs:43-47 | positions before the left or top edge give index 0; positions at or past the right or bottom edge give the last column or row |
| WorldIndex.GenericAxisIndex | src/utils.rs:71-82 | the generic helper's index along one axis lies within the clamp bound it is given |
| WorldIndex.GenericIndex | src/utils.rs:71-82 | the column is below the first row's length and the row is below the number of rows |
| WorldIndex.GetCellFromWorldPositionHelperGeneric | src/utils.rs:64-85 | the generic helper returns the cell at its index, which is in bounds when no row is shorter than the first; the grid is only read |
| WorldIndex.GenericAxisIndexIsClampedFloor | src/utils.rs:73-82 | with an offset the index is the clamped floor of size times offset; without one it is the clamped floor of position / cell_diameter, with no centring |
| Grids.CellCentre | src/grid.rs:45-47 | no contract of its own: diameter times the index plus the radius plus the grid's left (or top) edge, at height 0; Grids.LocateWithinCell and Grids.LocateCentreRoundTrip state that looking this point up returns cell (x, y) |
| Grids.CostFieldCell | src/grid.rs:44-61 | no contract of its own: a new cell at its centre and index, raised by 255 when the collision checker reports its centre; Grids.NewGrid states the resulting costs, 255 exactly where the checker hits and 1 elsewhere |
| Grids.RowMajorCentresAt | src/grid.rs:55-59 | the row-major listing of centres has one entry per cell, and entry y * size.x + x is the centre of cell (x, y) |
| Grids.NewGrid | src/grid.rs:25-66 | size.y rows of size.x cells; the radius is half the diameter; each cell has index (x, y), its centred position, distance u16::MAX and no direction; its cost is 255 exactly when the checker reports its centre blocked, otherwise 1; the checker is asked once per cell, in row-major order |
| Grids.PercentOffsetIsHelperIndex | src/grid.rs:69-87 | passing the grid fraction to the generic helper as its offset gives the utils helper's index |
| Grids.GetCellFromWorldPosition | src/grid.rs:69-87 | on any grid of the right shape the lookup returns the grid's cell at the helper's index, which is always in bounds; on a built grid that cell's own index is in bounds too |
| Grids.LocateWithinCell | src/utils.rs:35-47 | every position inside the square of cell (x, y) is located in cell (x, y) |
| Grids.LocateCentreRoundTrip | src/grid.rs:45-46 | round trip: the centre of cell (x, y) is located in cell (x, y) |
| NeighbourScan.ScanSpec | src/flowfield.rs:100-117 | the scan keeps the cell's own value exactly when no candidate is strictly smaller; otherwise it picks the first candidate holding the minimum, which is strictly below the own value |
| FlowFields.FlowField.constructor | src/flowfield.rs:28-37 | the diameter is twice the radius; no cells; a default destination; the given size and units |
| FlowFields.ForceDestination | src/flowfield.rs:42-48 | the copied grid keeps its shape; FlowFields.CopyOfForced states that only the destination changes, to cost 0 and distance 0 |
| FlowFields.StartIsSound | src/flowfield.rs:42-52 | after the destination is forced to 0, only the destination can be unrelaxed, and costs of 1 or 255 stay that way |
| FlowFields.LowerStep | src/flowfield.rs:79-83 | lowering a neighbour to cost plus current distance keeps the copy relation, lowers the sum of distances and keeps the relaxation invariants |
| FlowFields.RelaxNeighbour | src/flowfield.rs:62-84 | one cardinal step changes only the neighbour: it is set to its cost plus the current distance and queued exactly when that is a strict decrease, and otherwise cells and queue are unchanged; no distance rises; the sum of distances drops by at least the number of cells queued; it reports overflow, changing nothing, exactly when the neighbour is in bounds and passable and its cost plus the current distance exceeds 65535, which needs a passable cost of at least 2; the step makes the current cell relaxed toward that direction |
| FlowFields.VisitNeighbours | src/flowfield.rs:54-86 | one turn of the queue loop reports overflow exactly when one of the four cardinal steps from the popped cell would exceed 65535; without overflow it raises no distance, leaves the popped cell relaxed, even if it was queued again, keeps every other relaxed cell so, and keeps every distance supported by a neighbour |
| FlowFields.CopyOfForced | src/flowfield.rs:42-49 | the result relates to the source grid: only distances differ, except the destination's cost |
| FlowFields.BuiltGridMeetsIntegrationPremises | src/grid.rs:41-63 | a cost field as Grid::new builds it, with costs 1 or 255, is unreached and has no passable cost above 1: the premises of the integration field's fixpoint and no-overflow guarantees |
| FlowFields.FlowField.CreateIntegrationField | src/flowfield.rs:39-89 | the destination gets cost 0 and distance 0 and is recorded; every other cell equals the grid's copy except a distance that never increases; cost-255 cells keep theirs; with costs of 1 or 255 the u16 sum never overflows, and an overflow it reports comes with a reached cell and a cardinal step whose cost plus distance exceeds 65535; from unreached cells the result is a fixpoint (no cardinal step improves any cell) in which every distance is met through a neighbour |
| FlowFields.BestDirection | src/flowfield.rs:99-117 | no contract of its own: the scan over all eight neighbours in enumeration order; FlowFields.BestDirectionSpec states what it picks |
| FlowFields.BestDirectionSpec | src/flowfield.rs:97-121 | the direction is none exactly when no in-bounds neighbour has a strictly smaller distance; otherwise it points at the first neighbour in enumeration order with the minimal distance |
| FlowFields.DestinationHasNoDirection | src/flowfield.rs:97-121 | a cell at distance 0, such as the destination, gets no direction |
| FlowFields.DirectionDescends | src/flowfield.rs:112-115 | a direction points at an in-bounds neighbour strictly closer to the destination |
| FlowFields.PickDirection | src/flowfield.rs:99-117 | the inner loop computes the specified direction |
| FlowFields.SameDistancesSameDirection | src/flowfield.rs:99-117 | the direction depends on the distances only |
| FlowFields.FlowField.CreateFlowfield | src/flowfield.rs:91-123 | every cell gets its specified direction, and nothing else changes |
| FlowFields.AxisClampedIndex | src/flowfield.rs:127-143 | the flow field's own lookup along one axis gives an index in 0 .. n - 1; FlowFields.AxisClampedIndexIsHelperIndex shows it equals the utils helper's |
| FlowFields.ClampBeforeScaling | src/flowfield.rs:134-143 | clamping the fraction to [0, 1] before scaling gives the same index as not clamping it |
| FlowFields.AxisClampedIndexIsHelperIndex | src/flowfield.rs:125-143 | the clamped lookup's index equals the utils helper's index on each axis |
| FlowFields.FlowField.GetCellFromWorldPosition | src/flowfield.rs:125-146 | every position, inside the grid or not, gives the in-bounds cell the utils helper picks |
| Legacy.NewTargetCell | src/lib.rs:46-55 | the target is the far corner (width - 1, depth - 1), in bounds |
| Legacy.AabbOverlap | src/lib.rs:235-239 | no contract of its own: the closed-interval test on all three axes; Legacy.AabbOverlapIffCommonPoint states that it holds exactly when the boxes share a point |
| Legacy.AabbOverlapSymmetric | src/lib.rs:235-239 | overlap does not depend on the order of the boxes |
| Legacy.AabbOverlapIffCommonPoint | src/lib.rs:235-239 | boxes overlap exactly when some point lies in both closed boxes |
| Legacy.TouchingBoxesOverlap | src/lib.rs:235-239 | boxes that share only a face overlap |
| Legacy.AnyOverlap | src/lib.rs:221-230 | the collider loop reports a hit exactly when some collider box overlaps the cell's box |
| Legacy.AsWrittenLayout | src/lib.rs:91-102 | the allocation as the source writes it: cells_depth rows, each of cells_width cells |
| Legacy.AsWrittenLayoutFitsOnlySquare | src/lib.rs:91-102 | the allocation as written holds every index (x, z) with x < width and z < depth exactly when width == depth |
| Legacy.AsWrittenLayoutOverrunsTwoByThree | src/lib.rs:91-117 | a 2 x 3 grid allocates 3 rows of 2 cells, so the cells[0][2] that Grid::new writes with x = 0 is out of range |
| Legacy.BlankCells | src/lib.rs:91-102 | the corrected allocation: width columns of depth blank cells |
| Legacy.InitialCell | src/lib.rs:112-127 | no contract of its own: the centred position, cost 0 at the far corner and INFINITY elsewhere, no flow, occupied as the obstacle choice says; Legacy.Grid.constructor and Legacy.FreshGridIsSettled state the grid made of these cells |
| Legacy.Grid.constructor | src/lib.rs:89-135 | every cell has its centred position; it is occupied where the obstacle input says; its cost is 0 at the target corner and INFINITY elsewhere; it has a zero flow vector |
| Legacy.FreshGridIsSettled | src/lib.rs:126-127 | on a fresh grid every cell but the target is relaxed and supported (no finite cost yet) |
| Legacy.LowerStep | src/lib.rs:163-168 | setting a neighbour to the current cost + 1 on a strict decrease is progress and keeps the relaxation invariants |
| Legacy.RelaxNeighbour | src/lib.rs:145-170 | one neighbour step changes only the neighbour: it is set to the current cost + 1 and queued exactly when it is in bounds, unoccupied and that is a strict decrease, and otherwise cells and queue are unchanged; no cost rises, occupied cells are never updated, and on a converged grid nothing changes |
| Legacy.LowerKeepsSupported | src/lib.rs:163-168 | setting a neighbour to the current cost + 1 keeps every finite cost but the target's at least one above some neighbour's |
| Legacy.VisitNeighbours | src/lib.rs:142-170 | one turn of the queue loop raises no cost, leaves the popped cell relaxed toward all eight neighbours, even if it was queued again, and keeps every finite cost supported by a neighbour |
| Legacy.SettledCostsAreSteps | src/lib.rs:142-171 | where no step improves any cell and every finite cost is supported, every finite unoccupied cell but the target costs exactly one more than some neighbour |
| Legacy.Grid.CalculateFlowField | src/lib.rs:138-172 | costs never increase; occupied cells and everything but costs are unchanged; from a fresh grid it ends with no unoccupied neighbour of any cell above that cell's cost + 1, and every finite unoccupied cell but the target exactly one above some neighbour; on a converged grid it changes nothing |
| Legacy.FlowVectorAt | src/lib.rs:181-203 | no contract of its own: the scan over the eight offsets in NEIGHBOR_OFFSETS order; Legacy.FlowVectorSpec states what it picks |
| Legacy.FlowVectorSpec | src/lib.rs:181-205 | the flow vector is zero exactly when no in-bounds neighbour is strictly cheaper; otherwise it points at the first cheapest neighbour in NEIGHBOR_OFFSETS order |
| Legacy.TargetGetsZero | src/lib.rs:181-205 | a cell at cost 0 gets the zero vector |
| Legacy.FlowVectorDescends | src/lib.rs:198-200 | a non-zero flow vector points at an in-bounds, strictly cheaper neighbour |
| Legacy.PickFlowVector | src/lib.rs:181-203 | the inner loop computes the specified flow vector |
| Legacy.SameCostsSameFlowVector | src/lib.rs:181-203 | the flow vector depends on the costs only |
| Legacy.WithFlowVector | src/lib.rs:177-205 | no contract of its own: one cell of the direction pass, an occupied cell unchanged and any other given its flow vector; Legacy.Grid.CalculateFlowVectors states it for every cell |
| Legacy.Grid.CalculateFlowVectors | src/lib.rs:174-208 | occupied cells are untouched; every other cell gets its specified flow vector; nothing else changes |
| Legacy.Grid.DetectColliders | src/lib.rs:210-233 | each cell is occupied exactly when some collider box overlaps its box (position ± CELL_SIZE / 2); nothing else changes |

## Left out

- ECS glue is not modelled: plugins, systems, observers, events, resources, `initialize_flowfield`, camera and cursor queries (`get_world_pos`, `to_viewport_coords`), and debug drawing. It is I/O around the core.
- `reset_selected_unit_costs` is not part of this model. It is called by the flow-field observer, but its code is not available.
- The `GridDirection` module is not part of this model, so the orders of `cardinal_directions()` and `all_directions()` are assumed (north, south, east, west, and clockwise from north). Only the tie-break between equal neighbours depends on them.
- Floating point is modelled as mathematical reals: positions, percentages, `cell_diameter`, and the `f32` costs of src/lib.rs. IEEE rounding and the loss of precision of `f32` costs past 2^24 are not modelled.
- Division by zero is not modelled: the lookups require a positive cell diameter. Negative grid sizes are excluded by the `Extent` type.
- WorldIndex.GetCellFromWorldPositionHelperGeneric: requires no row shorter than the first, where the source would panic on a shorter row.
- Grids.GetCellFromWorldPosition: requires a size of at least one on each axis, where the source's `size - 1` would underflow.
- FlowFields.FlowField.GetCellFromWorldPosition: requires a size of at least one on each axis, where the source's `size - 1` would underflow.
- Legacy.NewTargetCell: requires a width and depth of at least one, where the source's `usize` subtraction would underflow.
- FlowFields.FlowField.CreateIntegrationField: the `u16` overflow of `cost + best_cost` is reported as `overflow` and stops the model; the contract names the overflowing step, but does not say that every step of a run without overflow stayed within 65535. The source panics in debug builds and wraps in release builds; the wrap is not modelled.
- FlowFields.FlowField.CreateIntegrationField: the fixpoint is stated for a field copied from an unreached grid, as `Grid::new` leaves it. Termination holds in general.
- FlowFields.FlowField.CreateIntegrationField: the in-bounds destination is a requirement.
- Legacy.Grid.CalculateFlowField: the in-bounds target is a requirement; the source panics at src/lib.rs:143 on an out-of-range target, and `Legacy.NewTargetCell` shows the program's own target is in range.
- Legacy.Grid.CalculateFlowField: the fixpoint and the exact +1 costs are stated for a grid in which every cell but the target is relaxed and supported. `Legacy.FreshGridIsSettled` shows that `Grid::new` gives such a grid. That a cost equals the length of a shortest path is not stated beyond these two bounds.
- Legacy.Grid.constructor: the random obstacle draw (`rng.gen_bool(0.1)`) is replaced by an obstacle function passed in.
- Legacy.Grid.constructor: builds the corrected layout, not the source's (see Findings).
- Legacy.Grid.DetectColliders: rapier's `compute_aabb` is not modelled; collider boxes are given as input.
- Legacy.Grid.CalculateFlowVectors: `(neighbor.position - position).normalize()` is modelled as the neighbour offset itself. Positions are CELL_SIZE apart, so the offset names the same direction.
- Grids.NewGrid: the collision checker is a pure function of the position. The order in which the source calls it is recorded in the returned `queried` list.

## Findings

| source | as written | input that shows it | evidently intended | confidence | as-written member | corrected member |
|---|---|---|---|---|---|---|
| src/lib.rs:91-102 | the allocation is `cells_depth` rows of `cells_width` cells, but `Grid::new` and every later pass index it `cells[x][z]` with x < cells_width and z < cells_depth (src/lib.rs:117, 143, 157, 196, 213) | `Grid::new(2, 3)`: the loop at src/lib.rs:112-113 fills x = 0 first and reaches `cells[0][2]`, but row 0 holds only 2 cells | `cells_width` columns of `cells_depth` cells, so every index in range is allocated | not executed | Legacy.AsWrittenLayoutFitsOnlySquare, Legacy.AsWrittenLayoutOverrunsTwoByThree | Legacy.BlankCells |
