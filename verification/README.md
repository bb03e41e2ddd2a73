# Sitnikov problem driver: a Dafny model of its combinatorial core

The Sitnikov driver (`sitnikov_module.py`) scans the (z, v) phase plane of a
massless body that oscillates on the axis of two equal-mass primaries. It
builds a grid of initial conditions (`initial_grid_zv`). It samples the
eccentric anomaly at `E = arange(0, period*N, step)`. It integrates every grid
row with SciPy's `odeint` (`sitnikov`). It then appends the trajectories and
flattens them into one list of `[z, v]` states (`solution`).

This project models everything in that pipeline that is not floating-point
numerics:

- `arange.dfy`, module `NumPyRange`: `np.arange(start, stop, step)` over exact
  reals, for any non-zero step.
- `reshape.dfy`, module `NumPyReshape`: building an array from equally long
  rows and reshaping it in C order, which is flattening row after row.
- `sitnikov.dfy`, module `Sitnikov`:
  - the state pair `State(z, v)`;
  - the distance `a(1 - e cos E)`;
  - the sample schedule and `sitnikov`;
  - the grid builder, with both branches exactly as written;
  - the batch solver `Solution`, a method with a loop that appends one
    trajectory per row and then flattens.

The integrator is a function-typed parameter, `Odeint`. The only assumption
about it is `SamplesEveryPoint`: it returns one state per requested sample
point. The original module is Python with NumPy and SciPy. The docstring of
`initial_grid_zv` (sitnikov_module.py:66, `if v_dim: v0 = v_start`) and its
code (sitnikov_module.py:68-69, `v0 = np.full_like(z0, v_start)`) disagree: the
docstring describes one velocity, the code builds a velocity axis as long as
`z0`, so the grid has `len(z0)²` rows. The model follows the code; the
docstring's reading is `IntendedGridZV`, discussed under Findings.

## Model

| member | source | states |
|---|---|---|
| `NumPyRange.Arange` | sitnikov_module.py:67 | term k of `arange` is `start + k*step`, every term lies in the half-open range (`[start, stop)` for a positive step), and the next term would leave it, so the sequence is as long as possible |
| `NumPyRange.ArangeUnique` | sitnikov_module.py:67 | any progression with those three properties equals `Arange`, so its contract determines `arange` |
| `NumPyRange.ArangeEmpty` | sitnikov_module.py:67 | the range is empty exactly when `start` is out of range, that is `start >= stop` for a positive step |
| `NumPyRange.ArangeMonotone` | sitnikov_module.py:67 | terms strictly increase for a positive step and strictly decrease for a negative one |
| `NumPyRange.InRangeIffBeforeEnd` | sitnikov_module.py:67 | a term `start + m*step` is in range exactly when `m` is below NumPy's length `ceil((stop-start)/step)` |
| `NumPyReshape.Flatten` | sitnikov_module.py:76 | flattening no rows gives nothing, and the first row is a prefix of the result |
| `NumPyReshape.FlattenLength` | sitnikov_module.py:76 | n rows of `width` elements reshape to `n*width` elements |
| `NumPyReshape.FlattenAt` | sitnikov_module.py:76 | element j of row i lands at position `i*width + j` |
| `NumPyReshape.FlattenIndex` | sitnikov_module.py:76 | position p of the reshaped array holds element `p % width` of row `p / width` (C order) |
| `NumPyReshape.FlattenBlock` | sitnikov_module.py:88 | row i occupies exactly the block `[i*width, (i+1)*width)` |
| `NumPyReshape.FlattenAppend` | sitnikov_module.py:88 | flattening the concatenation of two row lists is concatenating their flattenings |
| `Sitnikov.BarycenterDistanceXY` | sitnikov_module.py:14-22 | for `a > 0`, `0 <= e < 1` and `cos E` in [-1, 1], the distance lies between `a(1-e) > 0` and `a(1+e)` |
| `Sitnikov.Schedule` | sitnikov_module.py:61 | sample k is `k*step`; for a positive step the samples are non-empty exactly when `period*N > 0`, lie in `[0, period*N)`, and reach `period*N` after one more step |
| `Sitnikov.IntegrateOne` | sitnikov_module.py:52-63 | returns the schedule, which does not depend on the initial state or the orbit, and the integrator's trajectory from `y0` over that schedule with `args=(a, e)`, exactly one state per sample |
| `Sitnikov.FullLike` | sitnikov_module.py:69 | `full_like(z0, v)` has the length of `z0` and every entry equal to `v` |
| `Sitnikov.VelocityAxis` | sitnikov_module.py:68-71 | when `v_dim` or `v_start == v_stop`, `v0` is as long as `z0` with every entry `v_start` (the source of the `len(z0)²` rows); otherwise it is `arange(v_start, v_stop, step)` |
| `Sitnikov.PairRows` | sitnikov_module.py:73 | the nested comprehension has `len(z0)` rows of `len(v0)` pairs, and pair (i, j) is `[z0[i], v0[j]]` |
| `Sitnikov.InitialGridZV` | sitnikov_module.py:65-78 | the grid has `len(z0) * len(v0)` rows, with `z0` the z range and `v0` the velocity axis of the branch taken |
| `Sitnikov.GridRowMajor` | sitnikov_module.py:73-76 | row `i*len(v0) + j` is `[z0[i], v0[j]]` |
| `Sitnikov.PairRowsAt` | sitnikov_module.py:73-76 | position p of the flattened comprehension is `[z0[p / len(v0)], v0[p % len(v0)]]` |
| `Sitnikov.GridRowOrigin` | sitnikov_module.py:73-76 | every grid row is `[z0[p / len(v0)], v0[p % len(v0)]]`, so the grid holds only pairs of the two axes |
| `Sitnikov.PairRowsSortedByZ` | sitnikov_module.py:73-76 | pairing a non-decreasing z axis in row-major order yields rows ordered by z |
| `Sitnikov.GridSortedByZ` | sitnikov_module.py:67-76 | for a positive step the grid is ordered by z, so all rows of `z0[0]` come before any row of `z0[1]` |
| `Sitnikov.FixedVelocityGrid` | sitnikov_module.py:68-76 | when `v_dim` or `v_start == v_stop`, every row has velocity `v_start` and the grid has `len(z0)²` rows |
| `Sitnikov.FullGrid` | sitnikov_module.py:70-76 | otherwise the grid has `len(z0) * len(arange(v_start, v_stop, step))` rows, with the step of z0, and is empty when `v_start > v_stop` for a positive step |
| `Sitnikov.EmptyZRange` | sitnikov_module.py:67-76 | an empty z range (`z_start >= z_stop` for a positive step) gives an empty grid in either branch |
| `Sitnikov.CartesianExample` | sitnikov_module.py:65-78 | z in {0, 1} and v in {0, 1} give `[[0,0],[0,1],[1,0],[1,1]]` |
| `Sitnikov.IntendedGridZV` | sitnikov_module.py:65-69 | the corrected fixed-velocity slice: one row `[z0[i], v_start]` per z value; outside that branch it is the as-written grid |
| `Sitnikov.FixedVelocityRepeatsRows` | sitnikov_module.py:68-76 | in the fixed-velocity branch, as-written row `i*len(z0) + j` is intended row i, so each intended row is repeated `len(z0)` times |
| `Sitnikov.FixedVelocityExample` | sitnikov_module.py:65-78 | z in [0, 3), step 1, velocity fixed at 0.5: 9 rows as written against the 3 intended |
| `Sitnikov.Trajectories` | sitnikov_module.py:83-85 | one trajectory per grid row, each of exactly `len(E)` states |
| `Sitnikov.Aggregate` | sitnikov_module.py:87-88 | the aggregated solution has `rows * len(E)` states |
| `Sitnikov.AggregateBlock` | sitnikov_module.py:82-88 | block `[idx*S, (idx+1)*S)` of the aggregated solution is the trajectory of grid row idx alone |
| `Sitnikov.RowsIndependent` | sitnikov_module.py:83-85 | the block of a row depends only on that row's initial condition, not on its position or on other rows |
| `Sitnikov.AggregateAppend` | sitnikov_module.py:81-89 | solving the concatenation of two grids gives the concatenation of their solutions |
| `Sitnikov.TrajectoriesExtend` | sitnikov_module.py:83-85 | integrating one more row appends exactly that row's trajectory |
| `Sitnikov.Solution` | sitnikov_module.py:81-89 | the loop that appends each row's trajectory and then flattens returns the aggregated solution, with `rows * len(E)` states |
| `Sitnikov.ReshapeAsWritten` | sitnikov_module.py:87-88 | as written, the final reshape fails exactly when there are no rows |
| `Sitnikov.EmptyGridBreaksSolution` | sitnikov_module.py:87-88 | an empty z range gives an empty grid; as written `solution` then fails, whereas the aggregated solution is empty; on any non-empty grid the two agree |

## Left out

- The numerical integration (`odeint`, sitnikov_module.py:62) is not modelled. It is a SciPy call over IEEE doubles. It is the parameter `Odeint`, and the only thing assumed of it is one state per sample point (`SamplesEveryPoint`). Its behaviour on an empty schedule is covered by that same assumption.
- `time_moment`, `derivative_z`, `derivative_v` and `ode_function` (sitnikov_module.py:5-12, 24-49) are not modelled. They are trigonometry, square roots and powers over floating point. The energy-like and point-symmetry properties of the equation need that numerics and are not stated either.
- `Sitnikov.BarycenterDistanceXY`: `cos E` is a parameter, not computed, because there is no trigonometry here.
- `NumPyRange.Arange`: a zero step is excluded by `requires step != 0.0`, because NumPy raises on it and the code never passes one on purpose. The length is computed in exact real arithmetic. Floating-point rounding of `ceil((stop-start)/step)` is not modelled.
- `Sitnikov.FullLike`: values are reals. With an integer `z0`, NumPy would give `full_like` an integer dtype and truncate `v_start`. This is not modelled.
- Errors are modelled only where the code produces one. Nothing in the module validates `a`, `e` or ranges or annotates failures, so there are no parameter or integration errors. The one real failure is the empty-grid reshape (see Findings).
- `sitnikov` returns `E` together with the states. `solution` discards `E`, and `Solution` does the same.
- Parallel integration of rows is not modelled. The loop in the code is sequential.
- `Sitnikov.Solution`: on an empty grid it returns the empty list, whereas the code raises IndexError at `res.shape[1]` (sitnikov_module.py:88). The failing behaviour as written is `ReshapeAsWritten`, and `EmptyGridBreaksSolution` relates the two; this is the second row under Findings.

## Findings

| source | as written | input that shows it | evidently intended | confidence | as-written member | corrected member |
|---|---|---|---|---|---|---|
| sitnikov_module.py:68-69 | `np.full_like(z0, v_start)` makes `v0` as long as `z0`. The product then has `len(z0)²` rows, and each `[z, v_start]` is repeated `len(z0)` times. | `z_start=0, z_stop=3, step=1, v_start=v_stop=0.5, v_dim=True` gives 9 rows | one row `[z, v_start]` per z value, 3 rows (the docstring says `v0 = v_start`) | not executed; high | `Sitnikov.FixedVelocityExample` | `Sitnikov.IntendedGridZV` |
| sitnikov_module.py:87-88 | for a grid with no rows, `np.array([])` is one-dimensional, so `res.shape[1]` raises IndexError | `solution(initial_grid_zv(0, 0, 0, 1, 1), ...)`: an empty z range gives a (0, 2) grid | an empty list of states | not executed; high | `Sitnikov.EmptyGridBreaksSolution` | `Sitnikov.Solution` |
