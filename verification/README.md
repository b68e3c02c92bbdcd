# Discrete-modelling labs in Dafny

This project models the simulation kernels of a series of lab exercises on
discrete grid models, and proves properties of them:

- **Lattice-Boltzmann solvers.** Three D2Q9 flow solvers (`lab_10`, `lab_09`,
  `lab_08`) and a D2Q4 diffusion solver (`lab_07`). Each one has the BGK
  collision `f_in + (f_eq - f_in) / tau`, streaming with bounce-back at walls
  and grid edges, a wall with a hole, and (in `lab_10` and `lab_09`) the
  edge rules of the `constant` and `custom` boundary regimes. `lab_10` also
  moves passive tracer particles with the flow.
- **Lattice-gas automaton** of `lab_06`: four 0/1 occupations per cell, the
  head-on collision rule, and streaming with bounce-back.
- **Conway's Game of Life** of `lab_04`: neighbour counting under three
  boundary rules, the B3/S23 step, and the starting grids, including a
  reader for run-length encoded (RLE) patterns.
- **Elementary cellular automaton** of `lab_03`: Wolfram rule numbers as 8
  bits, periodic or absorbing borders, and a cyclic rule schedule.
- **Image border indexing and binary morphology** of `lab_02`: the four
  out-of-range policies of `get_pixel`, dilatation, erosion, opening and
  closing.
- **Forest-fire automaton** of `lab_05`: the neighbour lists, the state
  transitions, the regeneration queue, and the pixel classifier.

## How the model is built

- **Grids.** Grids are nested sequences. A `Plane` is `seq<seq<real>>`,
  indexed `[row][column]`. A `Field` is `seq<seq<seq<real>>>`, indexed
  `[row][column][direction]`. Populations are exact reals, so floating-point
  rounding is not modelled.
- **Classes.** A class whose methods update its fields in place (`LBM`,
  `LGA`, `Wall`, `Cell`, `Particle`) is a Dafny `class`. Its methods reassign
  those fields, and their `ensures` state the whole new state in terms of
  specification functions. Those functions carry the proved properties.
- **One streaming kernel.** All four lattice-Boltzmann labs and the lattice
  gas stream with the same loop: for every open cell `(i, j)` and direction
  `k`, the population moves to the neighbour `(i + di[k], j + dj[k])` when
  that neighbour is open, and otherwise to slot `opp[k]` of its own cell.
  - `Lattice` holds the offsets and the opposite table; `Streaming` holds
    the loop and its proof.
  - Each lab supplies its own table:
    - `lab_10` and `lab_09`: `(-c_y, -c_x)` (`D2Q9.XYLattice`);
    - `lab_08`: `(-c_x, -c_y)` (`D2Q9.RowColLattice`);
    - `lab_07` and `lab_06`: the hard-coded moves up, down, left and right
      (`D2Q4.StreamLattice`).
- **Mass conservation.** The loop is proved to produce `Streaming.Streamed`.
  Its invariant is that every slot written so far was written exactly once,
  into a slot that was still zero. It follows that the new buffer holds
  exactly the mass of the open cells.
- **Boundary regimes.** The `boundary_condition` string is the datatype
  `Fluid.Regime`. The source compares it only with `"constant"` and
  `"custom"`, so every other string, `"bounce-back"` included, is
  `BounceBack`.
- **Randomness.** Random draws are parameters:
  - the per-slot draws of the lattice gas;
  - the random area of Life;
  - the masses and colours of the particles;
  - the per-cell draws of the forest fire.
- **Missing files.** Some files the labs import are not part of this model:
  `lab_06/cell.py`, `lab_07/wall.py`, `lab_09/wall.py`, and the
  `constants.py` of `lab_09` and `lab_10`. For each of them:
  - the `Cell` that `lab_06/lga_logic.py` imports is taken to be the one in
    `lab_06/LGA_Cell.py`;
  - the wall mask of `lab_07` and `lab_09` is a constructor parameter;
  - the D2Q9 tables are those of `lab_08/constants.py`;
  - `MAX_SPEED`, `HOLE_SIZE` and `WALL_POSITION` of `lab_10` are parameters.

## Model

The specification functions (`Bgk.Equilibrium`, `Streaming.Streamed`,
`Lab06Cell.Collision`, `Lab04Life.LifeStep`, `Lab05Fire.NextGrid` and the
others) are each defined once. The rows below are the methods that are
proved to compute them and the lemmas that state what they mean.

| member | source | states |
|---|---|---|
| Lattice.WriterOfTarget | lab_10/lbm_logic.py:35-41 | The slot a move of an open cell writes is attributed back to that same (cell, direction) |
| Lattice.TargetOfWriter | lab_10/lbm_logic.py:35-41 | Every slot of an open cell has exactly one writer, and that writer's move lands in it |
| Lattice.TargetInjective | lab_10/lbm_logic.py:30-41 | Two moves of open cells that write the same slot are the same move: no slot of the fresh buffer is written twice |
| Lattice.TargetIsOpen | lab_10/lbm_logic.py:38-41 | Streaming never writes into a wall cell or off the grid |
| Lattice.BlockedMoveReflects | lab_10/lbm_logic.py:38-41 | A move towards a wall or off the grid lands in the opposite slot of its own cell (bounce-back) |
| Lattice.RestStaysInPlace | lab_10/lbm_logic.py:35-41 | A direction without displacement (direction 0) always stays in its own slot |
| Streaming.StreamField | lab_10/lbm_logic.py:26-43 | The nested streaming loops produce `Streamed`, and the new buffer's total equals the total of the open cells of `f_out` |
| Streaming.StreamRow | lab_10/lbm_logic.py:30-41 | One row of the loop writes every move of its open cells and adds exactly that row's open-cell mass |
| Streaming.StreamCell | lab_10/lbm_logic.py:35-41 | The nine (or four) moves of one open cell add exactly that cell's mass to the buffer |
| Streaming.StreamedAtTarget | lab_10/lbm_logic.py:35-41 | Every population of an open cell arrives unchanged in the slot its move targets |
| Streaming.StreamedWallsEmpty | lab_10/lbm_logic.py:28-33 | Every wall cell of the streamed buffer is empty |
| Streaming.FluidTotalOfWallsEmpty | lab_07/lbm_logic.py:91-101 | When the wall cells are empty, the open-cell total is the whole total, so streaming conserves mass |
| D2Q9.WeightsSumToOne | lab_08/constants.py:28 | The weights are 4/9, 1/9 (directions 1-4) and 1/36 (directions 5-8), and they sum to 1 |
| D2Q9.OppositeIsInvolution | lab_08/constants.py:43 | The opposite table is an involution whose only fixed point is direction 0 |
| D2Q9.OppositeReversesVelocity | lab_08/constants.py:28-43 | Opposite directions have opposite velocities and equal weights |
| D2Q9.DirectionClasses | lab_08/constants.py:31-41 | Direction 0 is the zero vector, 1-4 are axis unit steps, 5-8 are diagonal steps |
| D2Q9.WeightMoments | lab_08/constants.py:28-41 | The weighted velocities sum to zero; the weighted squares of each component sum to 1/3; the mixed moment is zero |
| D2Q9.XYLattice | lab_10/lbm_logic.py:36-37 | The lattice with row offset -c_y and column offset -c_x is well formed: its opposite table reverses the offsets |
| D2Q9.RowColLattice | lab_08/lbm_logic.py:92-93 | The lattice with row offset -c_x and column offset -c_y is well formed |
| D2Q4.OppositeIsInvolution | lab_07/constants.py:34 | The D2Q4 opposite table is an involution without a fixed point |
| D2Q4.VelocityTable | lab_07/constants.py:27-34 | Opposite directions have opposite velocities, and every velocity is an axis unit vector |
| D2Q4.StreamReflectionIsOpposite | lab_07/lbm_logic.py:19-41 | The reflection pairs 0-2 and 1-3 hard-coded in the streaming loop are the opposite table |
| D2Q4.StreamLattice | lab_07/lbm_logic.py:19-41 | The hard-coded moves up, right, down and left form a well-formed lattice |
| Bgk.EquilibriumIsScaledShape | lab_10/lbm_logic.py:12-19 | Each equilibrium population is rho times the unit-density equilibrium |
| Bgk.ShapeMoments | lab_10/lbm_logic.py:12-19 | The unit-density equilibrium has mass 1 and momentum (ux, uy) |
| Bgk.EquilibriumAtRest | lab_10/lbm_logic.py:12-19 | At ux = uy = 0 each equilibrium population is its weight times rho |
| Bgk.EquilibriumMass | lab_10/lbm_logic.py:12-19 | The nine equilibrium populations sum to rho |
| Bgk.EquilibriumMomentum | lab_10/lbm_logic.py:12-19 | The equilibrium populations carry momentum (rho ux, rho uy) |
| Bgk.EquilibriumRoundTrip | lab_10/lbm_logic.py:12-19 | For rho != 0, density and velocity read back from the equilibrium are the rho, ux, uy it was built from |
| Bgk.RelaxCell | lab_10/lbm_logic.py:22-24 | Each relaxed population's distance to equilibrium is (1 - 1/tau) times the old distance |
| Bgk.RelaxCellSum | lab_10/lbm_logic.py:22-24 | The cell sum moves the fraction 1/tau of the way towards the equilibrium sum |
| Bgk.CollisionConservesCellMass | lab_10/lbm_logic.py:155-161 | Relaxing a cell towards the equilibrium of its own sum keeps the sum |
| Bgk.Relax | lab_10/lbm_logic.py:22-24 | Collision works cell by cell; with tau = 1 it gives f_eq; when f_in equals f_eq it gives f_in |
| Fluid.EquilibriumFieldMass | lab_10/lbm_logic.py:151-153 | A grid filled with equilibria holds exactly the total density |
| Fluid.FillEquilibrium | lab_10/lbm_logic.py:151-153 | The double loop puts every cell at the equilibrium of its own rho, ux, uy |
| Fluid.Clip | lab_10/lbm_logic.py:229-230 | numpy clip: the result lies in [lo, hi], and a value already inside is kept |
| Fluid.DensityTotal | lab_10/lbm_logic.py:222 | The density plane adds up to the total of the populations |
| Fluid.Velocity | lab_10/lbm_logic.py:221-230 | Every velocity ends within [-maxSpeed, maxSpeed]; a cell with rho <= 0 keeps its old (in-range) velocity |
| Fluid.MacroscopicOfEquilibrium | lab_10/lbm_logic.py:221-230 | On a grid at equilibrium with positive densities and speeds within the clip, compute_macroscopic gives back the rho, ux, uy the grid was built from |
| Fluid.CollisionConservesMass | lab_10/lbm_logic.py:155-161 | Collision after compute_macroscopic keeps the grid total, whatever the velocities |
| Fluid.CollisionKeepsWallsEmpty | lab_10/lbm_logic.py:155-161 | An empty cell has density 0, so its collision result is empty too |
| Fluid.ImposeConstantEdges | lab_10/lbm_logic.py:167-186 | After the constant regime's loops, every unguarded edge cell is at its equilibrium and every other cell keeps its streamed value |
| Fluid.ResetTopBottom | lab_10/lbm_logic.py:170-177 | The first loop resets exactly the unguarded cells of the top and bottom rows |
| Fluid.ResetSides | lab_10/lbm_logic.py:179-186 | After both loops, exactly the unguarded cells on the grid's edge are at equilibrium and every other cell is unchanged |
| Fluid.ResetLeftColumn | lab_10/lbm_logic.py:201-203 | The custom regime's left loop resets every unguarded cell of column 0 to equilibrium |
| Fluid.MirroredCellsHaveNoVerticalMomentum | lab_10/lbm_logic.py:206-219 | The top copy (f4=f3, f8=f5, f7=f6) and the bottom copy (f3=f4, f5=f7, f6=f8) leave no vertical momentum and keep the populations they do not overwrite |
| Fluid.MirrorEdgeRow | lab_10/lbm_logic.py:215-219 | The bottom loop applies the bottom copy to every unguarded cell of the last row and nothing else |
| Fluid.MirrorTopRow | lab_10/lbm_logic.py:206-212 | The top loop applies the top copy to every unguarded cell of row 0 and sets uy to 0 there |
| Fluid.Ramp | lab_10/lbm_logic.py:130-134 | The side-column profile runs from 0 at the bottom row to 0.02 at the top row |
| Fluid.ImposeRamp | lab_10/lbm_logic.py:130-134 | The ramp loop writes the profile into column 0 (and column w-1 when asked) and uy = 0 there |
| Fluid.ImposeConstantProfile | lab_10/lbm_logic.py:120-134 | The constant regime of initialize_density produces its specified ux and uy planes |
| Fluid.ConstantInitialProfile | lab_10/lbm_logic.py:120-134 | Constant regime: top row ux = 0.02 and bottom row ux = 0 (except the side columns), side columns on the ramp, uy = 0 on every edge, interior unchanged |
| Lab10Lbm.CustomInitialProfile | lab_10/lbm_logic.py:136-147 | Custom regime: right column rho = 1 and ux read from its populations, left column on the ramp, uy = 0 on both, interior unchanged |
| Lab10Lbm.ImposeInflow | lab_10/lbm_logic.py:143-147 | The right loop of initialize_density gives every cell of column w-1 rho = 1, the read ux and uy = 0 |
| Lab10Lbm.OutflowMoments | lab_10/lbm_logic.py:189-198 | The rebuilt right-edge cell carries exactly the x momentum ux it was given and keeps its y momentum; its density is 1 + 2((f2+f6+f7) - (f1+f5+f8)), so it is 1 exactly when those two sums agree |
| Lab10Lbm.OutflowOfRestCell | lab_10/lbm_logic.py:193-198 | A unit-density cell at rest is rebuilt unchanged, with ux = 0 |
| Lab10Lbm.OutflowCell | lab_10/lbm_logic.py:191-198 | The right-edge rule changes only populations 1, 5 and 8 |
| Lab10Lbm.ImposeOutflow | lab_10/lbm_logic.py:189-198 | The right loop rewrites every open cell of column w-1 with the outflow rule and leaves everything else alone |
| Lab10Lbm.OutflowAt | lab_10/lbm_logic.py:190-198 | One pass of the right loop changes only cell (i, w-1) |
| Lab10Lbm.CustomEdgesShape | lab_10/lbm_logic.py:187-219 | After the custom regime, open bottom- and top-row cells have no vertical momentum, open left-column cells are at equilibrium, open right-column cells carry the ux written for them |
| Lab10Lbm.StreamWithEdges | lab_10/lbm_logic.py:163-219 | stream on values produces the regime's outcome; under bounce-back the new populations hold exactly the open-cell mass of f_out |
| Lab10Lbm.SpotYInRange | lab_10/lbm_logic.py:79-81 | Every starting row lies between y_min and y_max, the first one at y_min |
| Lab10Lbm.SlotIndex | lab_10/lbm_logic.py:79-83 | Particle number i * per_spot + j is in range and belongs to spot i |
| Lab10Lbm.PlacedGrows | lab_10/lbm_logic.py:82-83 | Appending the next particle at its spot keeps the placement invariant |
| Lab10Lbm.MakeParticles | lab_10/lbm_logic.py:78-83 | The nested loops create per_spot fresh particles for each of the n spots, at x = 1 and the spot's row, with the drawn masses and colours |
| Lab10Lbm.LBM.constructor | lab_10/lbm_logic.py:46-72 | Densities and velocities are shaped by initialize_density, the populations are at equilibrium everywhere, the wall column width // wall_position is wall except on the hole rows, 10 spots of 2 particles are placed, total_mass is the density sum |
| Lab10Lbm.LBM.InitializeDensity | lab_10/lbm_logic.py:116-153 | The regime's edge values are imposed, then every cell is put at equilibrium |
| Lab10Lbm.LBM.InitializeParticles | lab_10/lbm_logic.py:74-83 | The particle list is replaced by the placed particles (y_max defaulting to height - 2); the flow is unchanged |
| Lab10Lbm.LBM.UpdateParticles | lab_10/lbm_logic.py:85-94 | A particle whose truncated position is on the grid moves by that cell's velocity times scale over mass and extends its path; any other particle is unchanged |
| Lab10Lbm.LBM.ComputeMacroscopic | lab_10/lbm_logic.py:221-230 | rho becomes the cell sums; ux and uy become the clipped velocities |
| Lab10Lbm.LBM.Collide | lab_10/lbm_logic.py:155-161 | f_eq becomes the equilibrium of the current macroscopic values and f_out the relaxed f_in; f_in is untouched |
| Lab10Lbm.LBM.Stream | lab_10/lbm_logic.py:163-219 | f_in, rho, ux, uy become the regime's stream outcome; under bounce-back f_in holds exactly the open-cell mass of f_out |
| Lab10Lbm.LBM.Step | lab_10/lbm_logic.py:232-237 | `compute_macroscopic`, `collide`, `stream` in that order: f_eq is the equilibrium of the old f_in's density and clipped velocities, f_out the relaxed f_in, and f_in, rho, ux, uy are the regime's `StreamOutcome` of f_out and those planes; collision keeps the total mass, and under bounce-back with empty walls the step keeps it and the walls stay empty |
| Lab10Lbm.EquilibriumFillsWalls | lab_10/lbm_logic.py:63-68 | A wall cell with non-zero density is not empty after initialization, because the equilibrium is laid out before the wall exists |
| Lab10Wall.Wall.constructor | lab_10/wall.py:7-13 | The array is -1 exactly in the wall column outside rows hole_start..hole_end; every other entry is 0 |
| Lab10Wall.Wall.CreateWallWithHole | lab_10/wall.py:16-24 | The wall column becomes -1 outside rows hole_start..hole_end and 0 inside them; every other column is unchanged |
| Lab10Wall.Wall.CreateCustomWall | lab_10/wall.py:26-30 | With 0 < height_limit <= height the bottom height_limit rows of the column become wall; otherwise nothing changes |
| Lab10Wall.Wall.IsHole | lab_10/wall.py:32-36 | Entries are 0 or -1, so is_hole is exactly the complement of is_wall |
| Lab10Wall.Wall.GetMask | lab_10/wall.py:38-39 | The mask is true exactly where is_wall holds |
| Lab10Particle.Particle.constructor | lab_10/particle.py:4-9 | The path is exactly [(x, y)]; a falsy mass (None or 0) is replaced by the drawn one; a missing colour by the drawn one |
| Lab10Particle.Particle.UpdatePosition | lab_10/particle.py:18-22 | x and y move by u times scale over mass, dt is ignored, one entry is appended, and the path ends at the new position |
| Lab10Particle.Trunc | lab_10/lbm_logic.py:87-88 | int() truncates toward zero: the result is within 1 of r, on the side of zero |
| Lab10Particle.TruncOfSmallNegative | lab_10/lbm_logic.py:87-91 | At x = -0.5 truncation gives column 0 while the floor gives -1, so such a particle still counts as on the grid |
| Lab09Lbm.CustomInitialProfile | lab_09/lbm_logic.py:86-96 | Custom regime: right column rho = 1, ux = uy = 0; left column on the ramp; interior unchanged |
| Lab09Lbm.ImposeRestRight | lab_09/lbm_logic.py:93-96 | The right loop sets every cell of column w-1 to rho = 1 and zero velocity |
| Lab09Lbm.OutflowCell | lab_09/lbm_logic.py:148-159 | The right-edge rule changes only populations 2, 6 and 7 |
| Lab09Lbm.OutflowMoments | lab_09/lbm_logic.py:148-159 | The rebuilt cell has density exactly 1 and x momentum exactly ux, whatever it held before |
| Lab09Lbm.ImposeOutflow | lab_09/lbm_logic.py:148-159 | The right loop rewrites every cell of column w-1 with the outflow rule, with no wall check |
| Lab09Lbm.OutflowAt | lab_09/lbm_logic.py:149-159 | One pass changes only cell (i, w-1), which gets rho 1 and the outflow values |
| Lab09Lbm.CustomEdgesShape | lab_09/lbm_logic.py:146-207 | After the custom regime, interior right-column cells have density 1 and the written ux, bottom and top rows have no vertical momentum, interior left-column cells are at equilibrium |
| Lab09Lbm.ApplyEdges | lab_09/lbm_logic.py:130-207 | The edge rules after streaming: none under bounce-back, equilibrium on every edge cell (walls included) under constant, the four custom loops under custom |
| Lab09Lbm.LBM.constructor | lab_09/lbm_logic.py:41-63 | Densities and velocities are shaped by initialize_density, every cell is at equilibrium, total_mass is the density sum |
| Lab09Lbm.LBM.InitializeDensity | lab_09/lbm_logic.py:65-116 | The regime's edge values are imposed, then every cell is put at equilibrium |
| Lab09Lbm.LBM.ComputeMacroscopic | lab_09/lbm_logic.py:212-235 | rho becomes the cell sums; ux and uy become the clipped velocities |
| Lab09Lbm.LBM.Collide | lab_09/lbm_logic.py:118-124 | f_eq becomes the equilibrium of the current values and f_out the relaxed f_in |
| Lab09Lbm.LBM.Stream | lab_09/lbm_logic.py:126-207 | f_in is the streamed f_out followed by the regime's edge rules; under bounce-back it holds exactly the open-cell mass of f_out |
| Lab09Lbm.LBM.Step | lab_09/lbm_logic.py:237-242 | `compute_macroscopic`, `collide`, `stream` in that order (`SteppedFrom`): f_eq is the equilibrium of the old f_in's density and clipped velocities, f_out the relaxed f_in, and f_in, rho, ux, uy are the streamed f_out with the regime's edge rules (`EdgesApplied`) applied to those planes; collision keeps the total mass, and under bounce-back with empty walls so does the step |
| Lab08Lbm.InitialMass | lab_08/lbm_logic.py:42-58 | The initial density plane sums to h times a row of w // 4 ones and w - w // 4 cells of 1e-4 |
| Lab08Lbm.RestEquilibriumField | lab_08/lbm_logic.py:60-66 | At rest every population is its weight times the cell density |
| Lab08Lbm.EpsilonVelocity | lab_08/lbm_logic.py:136-139 | Each velocity is the momentum over rho + 1e-10 |
| Lab08Lbm.EpsilonVelocityOfEquilibrium | lab_08/lbm_logic.py:136-139 | On an equilibrium cell of positive density the epsilon velocity has the sign of u and is strictly smaller in magnitude |
| Lab08Lbm.ClippedRawVelocity | lab_08/lbm_logic.py:141-145 | lab_08's unclipped update, once clipped, is the clipped velocity of lab_10 |
| Lab08Lbm.RawVelocityOfEquilibrium | lab_08/lbm_logic.py:141-145 | On a grid at equilibrium with positive densities the update gives back the velocity |
| Lab08Lbm.ClampedEquilibrium | lab_08/lbm_logic.py:70-75 | The clamp raises negative equilibrium populations to 0 and keeps the others |
| Lab08Lbm.ClampedCellMass | lab_08/lbm_logic.py:70-75 | The clamped equilibrium holds at least rho, and exactly rho when no population was negative |
| Lab08Lbm.ClampedCellCollision | lab_08/lbm_logic.py:75-79 | With tau > 0, a cell relaxed towards its clamped equilibrium does not lose mass |
| Lab08Lbm.ClampedCollisionMass | lab_08/lbm_logic.py:68-79 | The collision never loses mass for tau > 0, and keeps it exactly when no equilibrium population is negative |
| Lab08Lbm.ClampedCollisionKeepsWallsEmpty | lab_08/lbm_logic.py:68-79 | An empty cell stays empty through the clamped collision |
| Lab08Lbm.ZeroOnMaskIdempotent | lab_08/lbm_logic.py:76-77 | Zeroing the wall velocities twice is zeroing them once |
| Lab08Lbm.ZeroWallVelocities | lab_08/lbm_logic.py:100-105 | The loop zeroes ux and uy on every wall cell and keeps them elsewhere |
| Lab08Lbm.BoundaryFieldSlots | lab_08/lbm_logic.py:108-127 | After the edge copies each slot holds the f_out slot the last copy into it names, or its old value |
| Lab08Lbm.BoundaryFieldIdempotent | lab_08/lbm_logic.py:108-127 | The edge copies read only f_out, so applying them twice is applying them once |
| Lab08Lbm.LBM.constructor | lab_08/lbm_logic.py:31-53 | The wall column width // 4 is wall exactly on the segment rows, rho is 1 left of the wall column and 1e-4 elsewhere, velocities are 0, every population is its weight times rho, and the total is the initial mass |
| Lab08Lbm.LBM.InitializeDensity | lab_08/lbm_logic.py:55-66 | Columns j < width // 4 get rho 1, velocities are zeroed, populations are at the rest equilibrium |
| Lab08Lbm.LBM.Collide | lab_08/lbm_logic.py:68-79 | f_eq is the clamped equilibrium, ux and uy are zero on walls, f_out is the relaxed f_in |
| Lab08Lbm.LBM.Stream | lab_08/lbm_logic.py:82-106 | f_in is f_out streamed on the row/column lattice, holding exactly its open-cell mass with empty walls; wall velocities are zero |
| Lab08Lbm.LBM.ApplyBoundaryConditions | lab_08/lbm_logic.py:108-133 | f_in takes the edge copies from f_out; ux on the side columns and uy on the top and bottom rows are zero |
| Lab08Lbm.LBM.ApplyMacroscopicVariables | lab_08/lbm_logic.py:135-139 | rho is the cell sums and the velocities are momentum over rho + 1e-10 |
| Lab08Lbm.LBM.ComputeMacroscopic | lab_08/lbm_logic.py:141-145 | rho is the cell sums; velocities are updated only where rho > 0, without a clip |
| Lab08Lbm.LBM.Step | lab_08/lbm_logic.py:147-156 | Runs the epsilon update, collision and streaming (not the boundary routine); the collision does not lose mass for tau > 0 and streaming keeps the open-cell mass |
| Lab08Wall.Wall.constructor | lab_08/wall.py:7-11 | The array is -1 exactly on rows hole_start..hole_end of the wall column; every other entry is 0 |
| Lab08Wall.Wall.CreateWallWithHole | lab_08/wall.py:13-21 | Clearing the column and marking the segment gives the same array |
| Lab08Wall.Wall.Column | lab_08/wall.py:14 | The wall column lies on the grid |
| Lab08Wall.Wall.IsHole | lab_08/wall.py:24-28 | is_hole is exactly the complement of is_wall |
| Lab08Wall.Wall.GetMask | lab_08/wall.py:30-31 | The mask is true exactly where is_wall holds |
| Lab07Lbm.SplitCell | lab_07/lbm_logic.py:76-77 | The four equal shares of a concentration sum to it |
| Lab07Lbm.SplitField | lab_07/lbm_logic.py:76-77 | Every cell of f_eq sums to that cell's concentration |
| Lab07Lbm.ConcentrationTotal | lab_07/lbm_logic.py:87-89 | The concentrations add up to the total of the populations |
| Lab07Lbm.CollisionConservesConcentration | lab_07/lbm_logic.py:75-79 | When the concentration is the cell sum, collision keeps every cell sum and the grid total |
| Lab07Lbm.CollisionKeepsWallsEmpty | lab_07/lbm_logic.py:75-79 | An empty cell stays empty through collision |
| Lab07Lbm.LBM.constructor | lab_07/lbm_logic.py:46-65 | Cells with j < width // 2 hold concentration 1 split evenly over the four directions; all other cells are zero |
| Lab07Lbm.LBM.InitializeDensity | lab_07/lbm_logic.py:67-72 | The double loop fills the cells left of the wall position and keeps the rest |
| Lab07Lbm.LBM.Collide | lab_07/lbm_logic.py:75-79 | f_eq is the concentration split four ways and f_out the relaxed f_in |
| Lab07Lbm.LBM.Stream | lab_07/lbm_logic.py:83-85 | f_in is f_out streamed; it holds exactly the open-cell mass and the walls are empty |
| Lab07Lbm.LBM.ApplyConcentration | lab_07/lbm_logic.py:87-89 | The concentration is the cell sum, and its total is the total of f_in |
| Lab07Lbm.LBM.Step | lab_07/lbm_logic.py:91-101 | Collision, streaming, concentration; from a consistent state with empty walls the total concentration is unchanged |
| Lab06Cell.Empty | lab_06/LGA_Cell.py:6-8 | The empty cell: four zero slots |
| Lab06Cell.CollisionTable | lab_06/LGA_Cell.py:13-24 | [1,0,1,0] and [0,1,0,1] swap into each other, and every other input is kept |
| Lab06Cell.CollisionKeepsCount | lab_06/LGA_Cell.py:13-24 | Collision keeps the number of particles in the cell |
| Lab06Cell.CollisionKeepsMomentum | lab_06/LGA_Cell.py:13-24 | Collision keeps the net particle flow along both axes |
| Lab06Cell.CollisionIsInvolution | lab_06/LGA_Cell.py:16-24 | Applying the rule twice gives back the cell |
| Lab06Cell.CollisionKeepsBits | lab_06/LGA_Cell.py:13-24 | A 0/1 cell collides into a 0/1 cell; an empty cell stays empty |
| Lab06Cell.Cell.constructor | lab_06/LGA_Cell.py:6-8 | A new cell is empty on both sides |
| Lab06Cell.Cell.Initialize | lab_06/LGA_Cell.py:10-11 | Each input slot is filled exactly when its draw is below the density; the output is unchanged |
| Lab06Cell.Cell.Collide | lab_06/LGA_Cell.py:13-24 | The output is the collision of the unchanged input and has the same particle count |
| Lab06Wall.Wall.constructor | lab_06/wall.py:5-10 | Keeps the grid and hole list; the array the constructor's own call builds is dropped |
| Lab06Wall.Wall.CreateWallWithHole | lab_06/wall.py:13-26 | Column width // 4 is -1 except the hole rows, which are 0; every other entry is 0 |
| Lab06Logic.WallColumn | lab_06/logic.py:49 | The wall column width // 4 lies on the grid |
| Lab06Logic.CreateWallWithHole | lab_06/logic.py:46-60 | Column width // 4 is -1 except the listed hole rows; every other entry is 0 |
| Lab06Logic.CollidedKeepsCount | lab_06/lga_logic.py:64-66 | Colliding every cell keeps the grid total, keeps 0/1 occupations, and keeps empty walls empty |
| Lab06Logic.CollideAll | lab_06/lga_logic.py:64-66 | The loop over all cells produces the collided grid |
| Lab06Logic.StreamingMoves | lab_06/logic.py:18-40 | For an open cell, slot 0 goes up, 2 down, 3 left, 1 right, each into the opposite slot of its own cell when the target is off-grid or a wall |
| Lab06Logic.StreamingMove | lab_06/logic.py:18-40 | One slot of an open cell lands in the neighbour when it is open, else in the reflected slot of its own cell |
| Lab06Logic.StreamedKeepsBits | lab_06/logic.py:6-42 | A 0/1 grid streams into a 0/1 grid |
| Lab06Logic.StreamGrid | lab_06/logic.py:6-42 | streaming returns fresh cells whose inputs are the streamed outputs, holding exactly the open-cell total, with empty walls and zero outputs |
| Lab06Logic.PlaceGas | lab_06/lga_logic.py:19-22 | Cells left of the wall column get the drawn occupation; the others are kept |
| Lab06Logic.PlaceGasRow | lab_06/lga_logic.py:20-22 | One row of the initialisation fills only its cells left of the wall column |
| Lab06Logic.CollideAndStream | lab_06/lga_logic.py:63-69 | Collide then stream: the result holds exactly the open-cell total of the collided grid; with empty walls the particle count is kept and 0/1 stays 0/1 |
| Lab06Logic.CellCountsFacts | lab_06/lga_logic.py:73-75 | The per-cell counts add up to the grid total and lie in 0..4 on a 0/1 grid |
| Lab06Lga.HolePositions | lab_06/lga_logic.py:16 | The hole rows are exactly height // 2 - 3 .. height // 2 + 3 |
| Lab06Lga.LGA.constructor | lab_06/lga_logic.py:12-22 | The wall has its seven-row hole, the gas is drawn only left of the wall column, outputs are empty, and the state is physical |
| Lab06Lga.LGA.Streaming | lab_06/lga_logic.py:24-60 | The streamed grid holds exactly the open-cell total, its walls are empty and 0/1 is kept |
| Lab06Lga.LGA.Step | lab_06/lga_logic.py:63-69 | Collide and stream; with empty walls the particle count is unchanged, and a physical state stays physical |
| Lab06Lga.LGA.GetState | lab_06/lga_logic.py:73-75 | Each entry is the input sum of its cell, in 0..4, and they add up to the grid total |
| Lab06LgaGui.HolePositions | lab_06/LGA_GUI.py:20 | The hole rows are exactly height // 2 - 1 .. height // 2 + 1 |
| Lab06LgaGui.LGA.constructor | lab_06/LGA_GUI.py:9-20 | The gas is drawn only left of the wall column, the wall has its three-row hole, and the state is physical |
| Lab06LgaGui.LGA.Step | lab_06/LGA_GUI.py:22-27 | Collide and stream; with empty walls the particle count is unchanged, and a physical state stays physical |
| Lab06LgaGui.LGA.GetState | lab_06/LGA_GUI.py:29-31 | Each entry is the input sum of its cell, in 0..4, and they add up to the grid total |
| Lab04Life.Neighbor | lab_04/game_of_life_logic.py:146-161 | Every neighbour a boundary rule resolves to is a cell of the grid |
| Lab04Life.OffsetOrder | lab_04/game_of_life_logic.py:144-145 | The loops visit offset (i, j) as the (3(i+1) + (j+1))-th of nine |
| Lab04Life.CountNeighbors | lab_04/game_of_life_logic.py:141-163 | The counting loop returns the number of live neighbours the boundary rule resolves |
| Lab04Life.CountUpToBounds | lab_04/game_of_life_logic.py:144-162 | After k offsets the count is between 0 and k, not counting the skipped centre |
| Lab04Life.NeighborCountBounds | lab_04/game_of_life_logic.py:141-163 | On a 0/1 grid every count is between 0 and 8, under every boundary rule |
| Lab04Life.InteriorIgnoresBoundary | lab_04/game_of_life_logic.py:149-161 | Away from the edges the three boundary rules give the same count |
| Lab04Life.LoneCellCountsItself | lab_04/game_of_life_logic.py:149-161 | On a 1x1 live grid the periodic and reflective rules count the cell itself 8 times, the bounded rule counts 0 |
| Lab04Life.LifeStepRule | lab_04/game_of_life_logic.py:170-173 | A cell is alive next exactly when it is alive with 2 or 3 neighbours or dead with exactly 3 |
| Lab04Life.EmptyStaysEmpty | lab_04/game_of_life_logic.py:165-175 | The empty grid stays empty under every boundary rule |
| Lab04Life.GameOfLifeStep | lab_04/game_of_life_logic.py:165-175 | The loops fill a fresh grid with the next generation; the input grid is untouched |
| Lab04Patterns.Place | lab_04/game_of_life_logic.py:12-55 | Setting a list of cells makes exactly those cells live and keeps the rest |
| Lab04Patterns.ShiftMembership | lab_04/game_of_life_logic.py:7-8 | A cell is among the shifted offsets exactly when its offset from the centre is listed |
| Lab04Patterns.StartOf | lab_04/game_of_life_logic.py:11-117 | Only the name "random" selects the random grid, and every copied block is a square 0/1 grid |
| Lab04Patterns.ReaderCursor | lab_04/game_of_life_logic.py:118-137 | The reader stops exactly when it meets `!`, never moves left of start_x or above start_y, and advances one row per `$` before the `!` |
| Lab04Patterns.BeforeStopWithoutStop | lab_04/game_of_life_logic.py:136-137 | A text without `!` is read to its end |
| Lab04Patterns.LiveCellsRightOfStart | lab_04/game_of_life_logic.py:127-131 | Every cell the reader sets alive is at or right of start_x and at or below start_y |
| Lab04Patterns.ReaderRowsFromStart | lab_04/game_of_life_logic.py:132-135 | The reader's row never goes above start_y |
| Lab04Patterns.StoppedReadsNothing | lab_04/game_of_life_logic.py:136-137 | Nothing after the first `!` changes the grid or the reader |
| Lab04Patterns.ReadPattern | lab_04/game_of_life_logic.py:118-137 | The reading loop sets exactly the cells the text describes, in order |
| Lab04Patterns.MarkRun | lab_04/game_of_life_logic.py:127-131 | An `o` sets a run of count (default 1) cells alive, left to right, and moves x past it |
| Lab04Patterns.ReadStep | lab_04/game_of_life_logic.py:121-135 | One more character takes one reader step and appends the run it marks |
| Lab04Patterns.NothingMarked | lab_04/game_of_life_logic.py:122-135 | A character other than `o` sets nothing alive |
| Lab04Patterns.RunCell | lab_04/game_of_life_logic.py:128-130 | The t-th cell of a run is t cells right of the cursor |
| Lab04Patterns.InitialIsBoard | lab_04/game_of_life_logic.py:5-139 | Every starting grid holds only 0 and 1 |
| Lab04Patterns.ShapeCells | lab_04/game_of_life_logic.py:11-55 | A fixed shape makes exactly its offsets from the centre alive and every other cell dead |
| Lab04Patterns.OscillatorIsBar | lab_04/game_of_life_logic.py:17-20 | "oscillator" is exactly a vertical bar of three cells at column start_x + 2, rows start_y + 1 .. start_y + 3 |
| Lab04Patterns.BarCells | lab_04/game_of_life_logic.py:18-20 | The oscillator's offsets place exactly that bar |
| Lab04Patterns.BlockCells | lab_04/game_of_life_logic.py:56-81 | A block is copied cell for cell at the centre; the rest stays dead |
| Lab04Patterns.TextCellsFromCentre | lab_04/game_of_life_logic.py:118-137 | Every live cell of an RLE start is at or below and right of the centre |
| Lab04Patterns.SetCells | lab_04/game_of_life_logic.py:12-16 | A run of `grid[y][x] = 1` statements sets exactly the listed cells |
| Lab04Patterns.StampBlock | lab_04/game_of_life_logic.py:70-72 | The double loop copies the n x n block to its place |
| Lab04Patterns.InitializeGrid | lab_04/game_of_life_logic.py:5-139 | initialize_grid returns the starting grid of the named state, a 0/1 grid |
| Lab03Automaton.Binary | lab_03/main.py:33 | The binary digits of a number are at least one digit, all 0 or 1 |
| Lab03Automaton.RuleToBin | lab_03/main.py:32-33 | rule_to_bin gives at least eight 0/1 digits |
| Lab03Automaton.BinaryValue | lab_03/main.py:33 | The digits spell the number back, and a number below 2^k has at most k digits |
| Lab03Automaton.LeadingZeros | lab_03/main.py:33 | Zero padding does not change the value |
| Lab03Automaton.RuleToBinValue | lab_03/main.py:32-33 | The digits spell the rule number, and there are exactly eight of them exactly when the number is below 256 |
| Lab03Automaton.BinaryLength | lab_03/main.py:33 | A number of at least 2^k has more than k digits |
| Lab03Automaton.DigitIsBit | lab_03/main.py:36-38 | The digit k places from the end is bit k of the value |
| Lab03Automaton.ComputeNewState | lab_03/main.py:36-38 | With a 0/1 rule the new state is 0 or 1 |
| Lab03Automaton.NewStateIsRuleBit | lab_03/main.py:36-38 | compute_new_state returns bit 4l + 2c + r of the rule number |
| Lab03Automaton.PeriodicIsRing | lab_03/main.py:8-17 | The periodic neighbours are the cells before and after modulo the length |
| Lab03Automaton.AbsorbingIsPadded | lab_03/main.py:18-27 | The absorbing border reads the state padded with a 0 at each end |
| Lab03Automaton.Step | lab_03/main.py:50-55 | A synchronous step keeps the length and keeps 0/1 states 0/1 |
| Lab03Automaton.History | lab_03/main.py:46-60 | There are iterations + 1 states, the first is the initial one |
| Lab03Automaton.HistoryShape | lab_03/main.py:46-60 | Every state has the initial length and only 0/1 cells |
| Lab03Automaton.HistorySteps | lab_03/main.py:49-58 | State j + 1 is one synchronous step of state j under rule j mod the number of rules |
| Lab03Automaton.Automaton | lab_03/main.py:41-60 | The loops build exactly that history |
| Lab02Morphology.Clamp | lab_02/main.py:59-60 | The replicate index always lies in the image |
| Lab02Morphology.InsideReadsPixel | lab_02/main.py:50-69 | Inside the image every known rule reads the pixel itself; an unknown rule gives None |
| Lab02Morphology.ConstantOutside | lab_02/main.py:53-55 | "constant" answers the constant everywhere off the image |
| Lab02Morphology.ReplicateExtendsEdges | lab_02/main.py:58-61 | "replicate" reads the nearest edge pixel off the image |
| Lab02Morphology.ReflectReadableRange | lab_02/main.py:62-65 | The reflected index is a valid Python index exactly for -n < i <= 3n - 2, and lies in the image for -n < i <= 2n - 2 |
| Lab02Morphology.ReflectMirrors | lab_02/main.py:62-65 | "reflect" mirrors about the first and last pixel without repeating it |
| Lab02Morphology.WrapIsPeriodic | lab_02/main.py:66-69 | "wrap" reads the image as a torus |
| Lab02Morphology.ScanWindow | lab_02/main.py:92-100 | The scan of one pixel's window, with its breaks, sets the pixel to the target exactly when the window holds it |
| Lab02Morphology.Sweep | lab_02/main.py:85-118 | The pixel loops compute the swept image from the original image only |
| Lab02Morphology.Dilatation | lab_02/main.py:85-100 | dilatation turns a white pixel black exactly when its window (read with 255 off the image) holds a black pixel; no other pixel changes |
| Lab02Morphology.Erosion | lab_02/main.py:103-118 | erosion turns a black pixel white exactly when its window (read with 0 off the image) holds a white pixel; no other pixel changes |
| Lab02Morphology.MorphologicalOpening | lab_02/main.py:121-124 | Opening is erosion then dilatation, both with "reflect" |
| Lab02Morphology.MorphologicalClosing | lab_02/main.py:127-130 | Closing is dilatation then erosion, both with "reflect" |
| Lab02Morphology.SweepsKeepBinary | lab_02/main.py:85-118 | Both keep a binary image binary; dilatation only blackens and erosion only whitens |
| Lab02Morphology.GetPixelOfNegative | lab_02/main.py:50-69 | Reading the negative with the complementary constant reads the negative pixel |
| Lab02Morphology.WindowOfNegative | lab_02/main.py:92-118 | A window of the negative holds black exactly where the image's window holds white |
| Lab02Morphology.DilationErosionDuality | lab_02/main.py:85-118 | Dilating the negative is the negative of eroding the image, and the other way round |
| Lab02Morphology.DilatedNegativeAt | lab_02/main.py:85-118 | The duality at one pixel: dilating the negative gives 255 minus the eroded pixel |
| Lab02Morphology.ErodedNegativeAt | lab_02/main.py:85-118 | Eroding the negative gives 255 minus the dilated pixel |
| Lab02Morphology.OpeningClosingDuality | lab_02/main.py:121-130 | Closing the negative is the negative of opening the image |
| Lab05Fire.ClassifierCases | lab_05/fire_simulation_logic.py:44-59 | A green-dominant pixel is a tree, a conifer exactly when green exceeds 100; otherwise blue above red and green by more than 20 is water; everything else is ground, or water for "wietnam.png" |
| Lab05Fire.ConvertImageToGrid | lab_05/fire_simulation_logic.py:37-61 | Every grid cell is the classification of its pixel |
| Lab05Fire.ShiftedInjective | lab_05/fire_simulation_logic.py:94 | The eight offsets lead to eight different cells |
| Lab05Fire.NeighborsUpTo | lab_05/fire_simulation_logic.py:94-101 | After n offsets the list has at most n entries, all on the grid |
| Lab05Fire.GetNeighbors | lab_05/fire_simulation_logic.py:90-103 | The loop returns the neighbour list of the boundary rule |
| Lab05Fire.ReflectiveNeighbors | lab_05/fire_simulation_logic.py:97-99 | Reflective neighbours are exactly the distinct in-grid cells among the eight offsets |
| Lab05Fire.PeriodicNeighbors | lab_05/fire_simulation_logic.py:100-101 | Periodic neighbours are always the eight offsets, each wrapped onto the grid |
| Lab05Fire.OtherNeighbors | lab_05/fire_simulation_logic.py:94-103 | Any other boundary name gives no neighbours |
| Lab05Fire.WindOffsets | lab_05/fire_simulation_logic.py:112-133 | Every wind direction, or none, has a non-empty cone of offsets |
| Lab05Fire.ChanceFactors | lab_05/fire_simulation_logic.py:196-212 | Water nearby halves the chance; a deciduous tree has 0.9 of a conifer's chance inside the wind cone and the same outside it |
| Lab05Fire.Target | lab_05/fire_simulation_logic.py:178-187 | A direction a tree looks in resolves to a grid cell or is skipped |
| Lab05Fire.Spreads | lab_05/fire_simulation_logic.py:177-212 | The direction loop, with its break, ignites the tree exactly when some direction's draw does |
| Lab05Fire.Species | lab_05/fire_simulation_logic.py:146 | A new tree is a conifer or a deciduous tree |
| Lab05Fire.CellChange | lab_05/fire_simulation_logic.py:135-212 | A cell enqueues a regrowth time exactly when it burns out in this step; a burnt cell stays burnt |
| Lab05Fire.Kept | lab_05/fire_simulation_logic.py:125-130 | The queue pass keeps exactly the entries that are still burnt and have not reached their time |
| Lab05Fire.GridEntriesFacts | lab_05/fire_simulation_logic.py:135-164 | The cell loop enqueues only cells that burn out, each once, in row-major order |
| Lab05Fire.GridEntriesCover | lab_05/fire_simulation_logic.py:142-164 | Every cell that burns out has its entry in the new queue |
| Lab05Fire.UpdateCell | lab_05/fire_simulation_logic.py:137-212 | One cell of the loop sets its new state and appends its entry, if any |
| Lab05Fire.ScanRow | lab_05/fire_simulation_logic.py:136-212 | One row of the loop updates only its own cells and appends its entries in order |
| Lab05Fire.RegenerationPass | lab_05/fire_simulation_logic.py:124-130 | The queue loop turns matured burnt cells into saplings and keeps the other burnt entries |
| Lab05Fire.FireSimulationStep | lab_05/fire_simulation_logic.py:105-214 | The step returns the next grid and the next queue: kept entries, then the cells that burnt out |
| Lab05Fire.CellSettles | lab_05/fire_simulation_logic.py:124-214 | A cell ends as the queue pass left it if it was burnt, and as the cell loop set it otherwise |
| Lab05Fire.TransitionTable | lab_05/fire_simulation_logic.py:124-212 | Ground and water stay; a burnt cell stays burnt or becomes a sapling, the latter exactly when its time has come; a pit becomes water exactly when water is nearby; a sapling becomes a conifer or a deciduous tree; a tree stays or ignites; away from water an ignited cell starts burning and a burning cell burns out; near water both end burnt or as a tree; unknown codes stay |
| Lab05Fire.NoFireNoSpread | lab_05/fire_simulation_logic.py:177-212 | A tree with no burning tree in any direction it looks stays as it is |
| Lab05Fire.KeptDistinct | lab_05/fire_simulation_logic.py:125-130 | Keeping entries of a queue without repeated cells leaves no repeated cells |
| Lab05Fire.KeptNotMatured | lab_05/fire_simulation_logic.py:125-130 | A kept entry's cell has not matured |
| Lab05Fire.NextQueueValid | lab_05/fire_simulation_logic.py:124-164 | Every entry of the new queue names a cell that is burnt in the new grid, no cell twice, and every cell that burnt out is queued |
| Lab05Fire.AtRest | lab_05/fire_simulation_logic.py:135-212 | A grid with nothing burning, sprouting or pitted and an empty queue is left unchanged |

## Left out

- Rendering, menus and event loops: every `*_visualization.py`, `*_gui.py`
  and `main.py` loop, and `draw_particles`. These are UI. So are the window,
  menu and cell-size constants of `constants.py` and the grid size derived
  from them.
- JSON save and load in `lab_10/lbm_logic.py` and the image files of
  `lab_02` and `lab_05`. These are file I/O.
- Printed diagnostics: the mass-conservation warnings and the left/right
  density prints of every `step`. They only print, so they are not
  modelled. The mass properties they check are proved instead, where they
  hold.
- Floating point: populations, velocities and positions are exact reals.
  `float32` storage in `lab_07` and rounding in general are not modelled.
- `lab_02`: `convolution`, `normalize_if_needed` and the PIL wrappers
  (`load_image`, `save_image`, `darken_image`, `brighten_image`,
  `binary_threshold`). `lab_01` entirely.
- `lab_05`: `initialize_grid` and the image open, resize and RGB conversion
  of `convert_image_to_grid`. Only the classifier loop over already resized
  pixels is modelled.
- Randomness is a parameter everywhere:
  - `Cell.initialize` draws in `lab_06`;
  - `np.random.choice` in `lab_04`;
  - the particle masses and colours in `lab_10`;
  - the fire draws in `lab_05`.
- `lab_08` `LBM.get_velocity` reads an attribute `u` that the class never
  sets, so it is not modelled.
- Lab06Lga.LGA.Step: the grid of `Cell` objects is held as two fields, the
  inputs and the outputs of every cell. Step therefore uses the shared
  collide-and-stream operation, which yields the same grid as calling the
  class's own `streaming` method. Aliasing between cells is not modelled.
- LGA occupations (`Lab06Cell.Occupation`) are reals 0.0 and 1.0, not Python
  ints. The counts are the same.
- Lab10Wall.Wall.constructor, Lab08Wall.Wall.constructor: hole rows must lie
  in the grid, or the hole must be empty. Python would wrap a negative row
  around, and that is not modelled.
  The lab_10 wall also needs `wall_position > 0` and a column
  `width // wall_position` that lies on the grid.
- Bgk.Relax: tau must be non-zero in every collision. numpy would produce
  infinities for tau = 0, and reals cannot hold them.
- Lab08Lbm.LBM.ApplyMacroscopicVariables, Lab08Lbm.LBM.Step: every cell sum
  plus 1e-10 must be non-zero, for the same reason.
- Lab10Lbm.LBM.UpdateParticles: a particle on the grid must have non-zero
  mass, for the same reason.
- Lab06Logic.CreateWallWithHole: hole rows must lie in the grid. numpy
  reads a negative row from the end of the array, which is not modelled,
  and raises `IndexError` for a row at or past the height
  (`lab_06/logic.py:57-58`).
- Lab06Lga.LGA.constructor: requires at least seven rows and one column.
  With fewer rows a hole row h // 2 + 3 lies past the grid and
  `wall[hole, quarter_x]` raises IndexError, or h // 2 - 3 is negative and
  numpy wraps it to a row from the end (`lab_06/lga_logic.py:16`,
  `lab_06/wall.py:24-25`); with no columns the wall column does not exist.
  Neither path is modelled.
- Lab06LgaGui.LGA.constructor: requires at least three rows and one column,
  for the same reason with the hole rows h // 2 - 1 .. h // 2 + 1
  (`lab_06/LGA_GUI.py:20`).
- Lab06Wall.Wall.constructor, Lab06Wall.Wall.CreateWallWithHole: the grid
  must have a cell for the wall column, and the hole rows must lie on the
  grid (`HolesInRange`). numpy would wrap a negative
  row to a row from the end and raise IndexError at or past the height
  (`lab_06/wall.py:24-25`); neither path is modelled.
- Lab04Patterns.InitializeGrid: every cell a start sets must lie on the grid.
  numpy's wrap-around for a negative index is not modelled.
- Lab04Patterns.ReadPattern: a digit is an ASCII digit. Python's
  `str.isdigit` also accepts other Unicode digits.
- Lab02Morphology.Dilatation, Lab02Morphology.Erosion: with the "reflect"
  rule and an image that has pixels, the radius must be smaller than both
  image sides. Exactly those radii
  keep the reflected index a valid Python index. With a larger radius the
  source may raise `IndexError` when the window of a scanned pixel reaches
  past the reflected range. That error path is not modelled.
- Lab02Morphology.Dilatation, Lab02Morphology.Erosion,
  Lab02Morphology.MorphologicalOpening, Lab02Morphology.MorphologicalClosing:
  an image with no rows gives back the empty image. The source raises
  `IndexError` at `len(image[0])` (`lab_02/main.py:88` and `:106`), and that
  error path is not modelled.
- Lab03Automaton.Automaton: the initial cells must be 0 or 1, and a run of
  at least one iteration needs at least one rule. With a non-empty state the
  source fails on an empty rule list at `% len(rule_sets)`, which sits inside
  the per-cell loop (`lab_03/main.py:51-54`). With an empty state it never
  reaches that line and returns iterations + 1 empty states; the model's
  requires excludes that call too. With other cell values its rule index
  leaves 0..7, and that is not modelled.
- Lab03Automaton.RuleToBin, Lab03Automaton.Automaton: rule numbers are
  naturals. For a negative rule number `f"{n:08b}"` starts with '-', and
  `int('-')` raises ValueError (`lab_03/main.py:33`); that error path is not
  modelled.
- Lab03Automaton.ComputeNewState: cell, left and right must be 0 or 1, for
  the same reason.
- Lab05Fire.FireSimulationStep: under a boundary name other than
  "periodic" and "reflective", a tree in the last row or column would read
  row h or column w, where numpy raises IndexError (reads at index -1 wrap,
  and the model follows that wrap). The model requires every tree to lie off the
  last row and column (`TreesIndexable`). This is stricter than the
  source, whose direction loop breaks once an earlier direction ignites the
  tree, so such a tree need not reach the out-of-range read.
- Lab05Fire.NextQueueValid: requires a starting queue without repeated
  cells. The source never checks that.
- Lab10Lbm.LBM.InitializeDensity: the regime must leave `initialize_density`
  without an error (`Fluid.InitializeDensityDefined`). The constant regime
  needs at least two rows and one column. The custom regime needs a height
  other than 1, and a column whenever there is a row. The source raises
  `ZeroDivisionError` at `i / (self.height - 1)` for one row, and
  `IndexError` at `ux[0, :]` for no rows or at `[..., 0]` for no columns
  (`lab_10/lbm_logic.py:122-139`). These error paths are not modelled.
- Lab10Lbm.LBM.constructor: the same restriction, since it calls
  `initialize_density`.
- Lab09Lbm.LBM.InitializeDensity: the same restriction, for the same
  divisions and indexing (`lab_09/lbm_logic.py:70-91`).
- Lab09Lbm.LBM.constructor: the same restriction, since it calls
  `initialize_density`.
- Lab09Lbm.LBM.Stream: in the custom regime the right-edge rule divides by
  5 - 3 ux. The method requires that this is non-zero for every right-column
  cell.
- Lab10Lbm.LBM.Step, Lab09Lbm.LBM.Step: mass conservation is proved for
  bounce-back with empty walls. The constant and custom regimes impose
  values and do not conserve mass.
- Lab09Lbm.LBM.Step: in the custom regime it requires, as
  Lab09Lbm.LBM.Stream does, that 5 - 3 ux is non-zero for every right-column
  cell of the populations it streams.
- Lab08Lbm.LBM.Step: the clamp of the equilibrium may add mass. The step is
  proved not to lose mass in collision, and to conserve it exactly when no
  equilibrium population is negative.
