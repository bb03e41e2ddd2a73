/** The combinatorial core of the Sitnikov-problem driver: the eccentric
    anomaly sample schedule, one trajectory per initial condition, the
    initial-condition grid over (z, v), and the batch solver that integrates
    every grid row and flattens the trajectories into one list of states.
    The numerical integrator is a parameter (see `Odeint`). */
module Sitnikov {
  import opened NumPyRange
  import opened NumPyReshape

  /** One point of the (z, v) phase plane: a grid row `[z, v]` or one
      integrated state. */
  datatype State = State(z: real, v: real)

  // ---------------------------------------------------------------------
  // Orbital geometry

  /** `barycenter_distance_xy`: distance a * (1 - e * cos E) from the
      barycenter to a primary, with cos E passed in as `cosE`. For a bound
      orbit it stays between the pericentre and apocentre distances, and so
      is positive. */
  function BarycenterDistanceXY(a: real, e: real, cosE: real): (r: real)
    ensures 0.0 < a && 0.0 <= e < 1.0 && -1.0 <= cosE <= 1.0 ==>
              0.0 < a * (1.0 - e) <= r <= a * (1.0 + e)
  {
    if 0.0 < a && 0.0 <= e < 1.0 && -1.0 <= cosE <= 1.0 then
      BoundedOrbitDistance(a, e, cosE);
      a * (1.0 - e * cosE)
    else
      a * (1.0 - e * cosE)
  }

  lemma BoundedOrbitDistance(a: real, e: real, cosE: real)
    requires 0.0 < a && 0.0 <= e < 1.0 && -1.0 <= cosE <= 1.0
    ensures 0.0 < a * (1.0 - e) <= a * (1.0 - e * cosE) <= a * (1.0 + e)
  {
    assert -e <= e * cosE <= e;
    assert 0.0 < 1.0 - e <= 1.0 - e * cosE <= 1.0 + e;
  }

  // ---------------------------------------------------------------------
  // Trajectory integrator

  /** The ODE solver `odeint(ode_function, y0, E, args=(a, e))`: initial
      state, sample points, semi-major axis, eccentricity. */
  type Odeint = (State, seq<real>, real, real) -> seq<State>

  /** The solver reports exactly one state per requested sample point. */
  ghost predicate SamplesEveryPoint(odeint: Odeint)
  {
    forall y0, samples, a, e :: |odeint(y0, samples, a, e)| == |samples|
  }

  /** `E = np.arange(0, period * N, step)`: the samples k * step of the
      eccentric anomaly; for a positive step they start at 0 whenever
      period * N > 0, stay below period * N, and reach as far as they can. */
  function Schedule(period: real, periods: real, step: real): (samples: seq<real>)
    requires step != 0.0
    ensures forall k :: 0 <= k < |samples| ==> samples[k] == k as real * step
    ensures step > 0.0 ==> (|samples| > 0 <==> period * periods > 0.0)
    ensures step > 0.0 ==> forall k :: 0 <= k < |samples| ==> 0.0 <= samples[k] < period * periods
    ensures step > 0.0 ==> period * periods <= |samples| as real * step
  {
    ArangeEmpty(0.0, period * periods, step);
    Arange(0.0, period * periods, step)
  }

  /** Number of states per trajectory. */
  function Samples(period: real, periods: real, step: real): nat
    requires step != 0.0
  {
    |Schedule(period, periods, step)|
  }

  /** `sitnikov(y0, a, e, period, N, step)`: the schedule, which does not
      depend on the initial state or the orbit, and the trajectory the
      integrator computes from `y0` over that schedule with `args=(a, e)`,
      one state per sample. */
  function IntegrateOne(y0: State, a: real, e: real, period: real, periods: real, step: real,
                    odeint: Odeint): (r: (seq<real>, seq<State>))
    requires step != 0.0
    requires SamplesEveryPoint(odeint)
    ensures r.0 == Schedule(period, periods, step)
    ensures r.1 == odeint(y0, r.0, a, e)
    ensures |r.1| == |r.0|
  {
    var samples := Schedule(period, periods, step);
    (samples, odeint(y0, samples, a, e))
  }

  // ---------------------------------------------------------------------
  // Initial-condition grid

  /** `np.full_like(z0, fill)`: as many copies of `fill` as `z0` has
      elements. */
  function FullLike(z0: seq<real>, fill: real): (v0: seq<real>)
    ensures |v0| == |z0|
    ensures forall k :: 0 <= k < |v0| ==> v0[k] == fill
  {
    seq(|z0|, _ => fill)
  }

  /** The branch condition `v_dim or v_start == v_stop`. */
  predicate FixedVelocity(vStart: real, vStop: real, vDim: bool)
  {
    vDim || vStart == vStop
  }

  /** The velocity axis `v0`: `v_start` repeated once per z value in the
      fixed-velocity branch, otherwise `np.arange(v_start, v_stop, step)`. */
  function VelocityAxis(z0: seq<real>, vStart: real, vStop: real, step: real, vDim: bool): (v0: seq<real>)
    requires step != 0.0
    ensures FixedVelocity(vStart, vStop, vDim) ==>
              |v0| == |z0| && forall k :: 0 <= k < |v0| ==> v0[k] == vStart
    ensures !FixedVelocity(vStart, vStop, vDim) ==> v0 == Arange(vStart, vStop, step)
  {
    if FixedVelocity(vStart, vStop, vDim) then FullLike(z0, vStart) else Arange(vStart, vStop, step)
  }

  /** The nested comprehension `[[[zi, vi] for vi in v0] for zi in z0]`. */
  function PairRows(z0: seq<real>, v0: seq<real>): (rows: seq<seq<State>>)
    ensures |rows| == |z0| && Uniform(rows, |v0|)
    ensures forall i, j :: 0 <= i < |z0| && 0 <= j < |v0| ==> rows[i][j] == State(z0[i], v0[j])
  {
    seq(|z0|, i requires 0 <= i < |z0| =>
      seq(|v0|, j requires 0 <= j < |v0| => State(z0[i], v0[j])))
  }

  /** `initial_grid_zv`, as written: the rows of z0 x v0 in row-major order,
      reshaped to `len(z0) * len(v0)` pairs. */
  function InitialGridZV(zStart: real, zStop: real, vStart: real, vStop: real, step: real,
                         vDim: bool): (grid: seq<State>)
    requires step != 0.0
    ensures var z0 := Arange(zStart, zStop, step);
            |grid| == |z0| * |VelocityAxis(z0, vStart, vStop, step, vDim)|
  {
    var z0 := Arange(zStart, zStop, step);
    var v0 := VelocityAxis(z0, vStart, vStop, step, vDim);
    FlattenLength(PairRows(z0, v0), |v0|);
    Flatten(PairRows(z0, v0))
  }

  /** Row `i * len(v0) + j` of the grid is `[z0[i], v0[j]]`. */
  lemma GridRowMajor(zStart: real, zStop: real, vStart: real, vStop: real, step: real,
                     vDim: bool, i: nat, j: nat)
    requires step != 0.0
    requires i < |Arange(zStart, zStop, step)|
    requires j < |VelocityAxis(Arange(zStart, zStop, step), vStart, vStop, step, vDim)|
    ensures var z0 := Arange(zStart, zStop, step);
            var v0 := VelocityAxis(z0, vStart, vStop, step, vDim);
            var grid := InitialGridZV(zStart, zStop, vStart, vStop, step, vDim);
            i * |v0| + j < |grid| && grid[i * |v0| + j] == State(z0[i], v0[j])
  {
    var z0 := Arange(zStart, zStop, step);
    var v0 := VelocityAxis(z0, vStart, vStop, step, vDim);
    FlattenAt(PairRows(z0, v0), |v0|, i, j);
  }

  /** Position `p` of the flattened comprehension holds
      `[z0[p / len(v0)], v0[p % len(v0)]]`. */
  lemma PairRowsAt(z0: seq<real>, v0: seq<real>, p: nat)
    requires p < |Flatten(PairRows(z0, v0))|
    ensures |v0| > 0 && p / |v0| < |z0| && p % |v0| < |v0|
    ensures Flatten(PairRows(z0, v0))[p] == State(z0[p / |v0|], v0[p % |v0|])
  {
    FlattenIndex(PairRows(z0, v0), |v0|, p);
  }

  /** Conversely, every grid row is `[z0[p / len(v0)], v0[p % len(v0)]]`:
      the grid holds nothing but pairs of the two axes. */
  lemma GridRowOrigin(zStart: real, zStop: real, vStart: real, vStop: real, step: real,
                      vDim: bool, p: nat)
    requires step != 0.0
    requires p < |InitialGridZV(zStart, zStop, vStart, vStop, step, vDim)|
    ensures var z0 := Arange(zStart, zStop, step);
            var v0 := VelocityAxis(z0, vStart, vStop, step, vDim);
            var grid := InitialGridZV(zStart, zStop, vStart, vStop, step, vDim);
            |v0| > 0 && p / |v0| < |z0| && p % |v0| < |v0| &&
            grid[p] == State(z0[p / |v0|], v0[p % |v0|])
  {
    var z0 := Arange(zStart, zStop, step);
    var v0 := VelocityAxis(z0, vStart, vStop, step, vDim);
    assert InitialGridZV(zStart, zStop, vStart, vStop, step, vDim) == Flatten(PairRows(z0, v0));
    PairRowsAt(z0, v0, p);
  }

  /** Pairing a non-decreasing z axis with any v axis in row-major order
      gives rows ordered by z. */
  lemma PairRowsSortedByZ(z0: seq<real>, v0: seq<real>, p: nat, q: nat)
    requires forall i, j :: 0 <= i <= j < |z0| ==> z0[i] <= z0[j]
    requires p <= q < |Flatten(PairRows(z0, v0))|
    ensures Flatten(PairRows(z0, v0))[p].z <= Flatten(PairRows(z0, v0))[q].z
  {
    PairRowsAt(z0, v0, p);
    PairRowsAt(z0, v0, q);
    DivisionMonotone(p, q, |v0|);
  }

  /** For a positive step the grid is ordered by z: every row of z0[i]
      comes before every row of a later z value. */
  lemma GridSortedByZ(zStart: real, zStop: real, vStart: real, vStop: real, step: real,
                      vDim: bool, p: nat, q: nat)
    requires step > 0.0
    requires p <= q < |InitialGridZV(zStart, zStop, vStart, vStop, step, vDim)|
    ensures InitialGridZV(zStart, zStop, vStart, vStop, step, vDim)[p].z
         <= InitialGridZV(zStart, zStop, vStart, vStop, step, vDim)[q].z
  {
    var z0 := Arange(zStart, zStop, step);
    var v0 := VelocityAxis(z0, vStart, vStop, step, vDim);
    forall i, j | 0 <= i <= j < |z0|
      ensures z0[i] <= z0[j]
    {
      if i < j {
        ArangeMonotone(zStart, zStop, step, i, j);
      }
    }
    assert InitialGridZV(zStart, zStop, vStart, vStop, step, vDim) == Flatten(PairRows(z0, v0));
    PairRowsSortedByZ(z0, v0, p, q);
  }

  /** Fixed-velocity branch: every row carries `v_start`, and because
      `full_like` makes v0 as long as z0, the grid has len(z0)^2 rows. */
  lemma FixedVelocityGrid(zStart: real, zStop: real, vStart: real, vStop: real, step: real,
                          vDim: bool)
    requires step != 0.0
    requires FixedVelocity(vStart, vStop, vDim)
    ensures var z0 := Arange(zStart, zStop, step);
            var grid := InitialGridZV(zStart, zStop, vStart, vStop, step, vDim);
            |grid| == |z0| * |z0| &&
            forall p :: 0 <= p < |grid| ==> grid[p].v == vStart
  {
    var grid := InitialGridZV(zStart, zStop, vStart, vStop, step, vDim);
    forall p | 0 <= p < |grid|
      ensures grid[p].v == vStart
    {
      GridRowOrigin(zStart, zStop, vStart, vStop, step, vDim, p);
    }
  }

  /** Full branch: v0 is `np.arange(v_start, v_stop, step)` with the step of
      z0; for a positive step and v_start > v_stop it is empty, and so is
      the grid. */
  lemma FullGrid(zStart: real, zStop: real, vStart: real, vStop: real, step: real,
                 vDim: bool)
    requires step != 0.0
    requires !FixedVelocity(vStart, vStop, vDim)
    ensures var grid := InitialGridZV(zStart, zStop, vStart, vStop, step, vDim);
            |grid| == |Arange(zStart, zStop, step)| * |Arange(vStart, vStop, step)| &&
            (step > 0.0 && vStart > vStop ==> grid == [])
  {
    ArangeEmpty(vStart, vStop, step);
  }

  /** An empty z range (for a positive step, z_start >= z_stop) gives an
      empty grid in either branch. */
  lemma EmptyZRange(zStart: real, zStop: real, vStart: real, vStop: real, step: real,
                    vDim: bool)
    requires step != 0.0
    requires !InRange(zStart, zStart, zStop, step)
    ensures InitialGridZV(zStart, zStop, vStart, vStop, step, vDim) == []
  {
    ArangeEmpty(zStart, zStop, step);
  }

  /** z in {0, 1} and v in {0, 1}: the four pairs in row-major order. */
  lemma CartesianExample()
    ensures InitialGridZV(0.0, 2.0, 0.0, 2.0, 1.0, false)
         == [State(0.0, 0.0), State(0.0, 1.0), State(1.0, 0.0), State(1.0, 1.0)]
  {
    ArangeUnique(0.0, 2.0, 1.0, [0.0, 1.0]);
    GridRowMajor(0.0, 2.0, 0.0, 2.0, 1.0, false, 0, 0);
    GridRowMajor(0.0, 2.0, 0.0, 2.0, 1.0, false, 0, 1);
    GridRowMajor(0.0, 2.0, 0.0, 2.0, 1.0, false, 1, 0);
    GridRowMajor(0.0, 2.0, 0.0, 2.0, 1.0, false, 1, 1);
  }

  /** The one-row-per-z slice that the fixed-velocity branch is meant to
      build: each z value paired once with `v_start`. Outside that branch it
      is the as-written grid. */
  function IntendedGridZV(zStart: real, zStop: real, vStart: real, vStop: real, step: real,
                          vDim: bool): (grid: seq<State>)
    requires step != 0.0
    ensures var z0 := Arange(zStart, zStop, step);
            FixedVelocity(vStart, vStop, vDim) ==>
              |grid| == |z0| &&
              forall i :: 0 <= i < |grid| ==> grid[i] == State(z0[i], vStart)
    ensures !FixedVelocity(vStart, vStop, vDim) ==>
              grid == InitialGridZV(zStart, zStop, vStart, vStop, step, vDim)
  {
    var z0 := Arange(zStart, zStop, step);
    if FixedVelocity(vStart, vStop, vDim) then
      seq(|z0|, i requires 0 <= i < |z0| => State(z0[i], vStart))
    else
      InitialGridZV(zStart, zStop, vStart, vStop, step, vDim)
  }

  /** In the fixed-velocity branch the as-written grid is the intended slice
      with every row repeated len(z0) times in a row. */
  lemma FixedVelocityRepeatsRows(zStart: real, zStop: real, vStart: real, vStop: real,
                                 step: real, vDim: bool, i: nat, j: nat)
    requires step != 0.0
    requires FixedVelocity(vStart, vStop, vDim)
    requires i < |Arange(zStart, zStop, step)| && j < |Arange(zStart, zStop, step)|
    ensures var n := |Arange(zStart, zStop, step)|;
            var grid := InitialGridZV(zStart, zStop, vStart, vStop, step, vDim);
            i * n + j < |grid| &&
            grid[i * n + j] == IntendedGridZV(zStart, zStop, vStart, vStop, step, vDim)[i]
  {
    GridRowMajor(zStart, zStop, vStart, vStop, step, vDim, i, j);
  }

  /** z in [0, 3) with step 1 and the velocity held at 0.5: the slice has
      the three rows [0, 0.5], [1, 0.5], [2, 0.5], but the as-written grid
      has nine. */
  lemma FixedVelocityExample()
    ensures |InitialGridZV(0.0, 3.0, 0.5, 0.5, 1.0, true)| == 9
    ensures IntendedGridZV(0.0, 3.0, 0.5, 0.5, 1.0, true)
         == [State(0.0, 0.5), State(1.0, 0.5), State(2.0, 0.5)]
  {
    ArangeUnique(0.0, 3.0, 1.0, [0.0, 1.0, 2.0]);
    FixedVelocityGrid(0.0, 3.0, 0.5, 0.5, 1.0, true);
  }

  // ---------------------------------------------------------------------
  // Batch solver

  /** The trajectory of every grid row, in grid order. */
  function Trajectories(y0: seq<State>, a: real, e: real, period: real, periods: real,
                        step: real, odeint: Odeint): (ts: seq<seq<State>>)
    requires step != 0.0
    requires SamplesEveryPoint(odeint)
    ensures |ts| == |y0| && Uniform(ts, Samples(period, periods, step))
  {
    seq(|y0|, idx requires 0 <= idx < |y0| => IntegrateOne(y0[idx], a, e, period, periods, step, odeint).1)
  }

  /** The aggregated solution: all trajectories laid end to end. */
  function Aggregate(y0: seq<State>, a: real, e: real, period: real, periods: real,
                     step: real, odeint: Odeint): (res: seq<State>)
    requires step != 0.0
    requires SamplesEveryPoint(odeint)
    ensures |res| == |y0| * Samples(period, periods, step)
  {
    FlattenLength(Trajectories(y0, a, e, period, periods, step, odeint), Samples(period, periods, step));
    Flatten(Trajectories(y0, a, e, period, periods, step, odeint))
  }

  /** Block `idx` of the aggregated solution, [idx * S, (idx + 1) * S), is
      the trajectory of grid row `idx` alone. */
  lemma AggregateBlock(y0: seq<State>, a: real, e: real, period: real, periods: real,
                       step: real, odeint: Odeint, idx: nat)
    requires step != 0.0
    requires SamplesEveryPoint(odeint)
    requires idx < |y0|
    ensures var s := Samples(period, periods, step);
            var res := Aggregate(y0, a, e, period, periods, step, odeint);
            (idx + 1) * s <= |res| && Block(res, s, idx) == IntegrateOne(y0[idx], a, e, period, periods, step, odeint).1
  {
    FlattenBlock(Trajectories(y0, a, e, period, periods, step, odeint), Samples(period, periods, step), idx);
  }

  /** Integrating one more grid row appends its trajectory. */
  lemma TrajectoriesExtend(y0: seq<State>, a: real, e: real, period: real, periods: real,
                           step: real, odeint: Odeint, idx: nat)
    requires step != 0.0
    requires SamplesEveryPoint(odeint)
    requires idx < |y0|
    ensures Trajectories(y0[..idx + 1], a, e, period, periods, step, odeint)
         == Trajectories(y0[..idx], a, e, period, periods, step, odeint)
          + [IntegrateOne(y0[idx], a, e, period, periods, step, odeint).1]
  {
    assert y0[..idx + 1] == y0[..idx] + [y0[idx]];
  }

  /** Rows share no state: two grids that hold the same initial condition
      at positions i and j have the same block at those positions. */
  lemma RowsIndependent(g: seq<State>, h: seq<State>, a: real, e: real, period: real,
                        periods: real, step: real, odeint: Odeint, i: nat, j: nat)
    requires step != 0.0
    requires SamplesEveryPoint(odeint)
    requires i < |g| && j < |h| && g[i] == h[j]
    ensures var s := Samples(period, periods, step);
            var resG := Aggregate(g, a, e, period, periods, step, odeint);
            var resH := Aggregate(h, a, e, period, periods, step, odeint);
            (i + 1) * s <= |resG| && (j + 1) * s <= |resH| &&
            Block(resG, s, i) == Block(resH, s, j)
  {
    AggregateBlock(g, a, e, period, periods, step, odeint, i);
    AggregateBlock(h, a, e, period, periods, step, odeint, j);
  }

  /** Solving the concatenation of two grids is solving each grid and
      concatenating the results. */
  lemma AggregateAppend(g: seq<State>, h: seq<State>, a: real, e: real, period: real,
                        periods: real, step: real, odeint: Odeint)
    requires step != 0.0
    requires SamplesEveryPoint(odeint)
    ensures Aggregate(g + h, a, e, period, periods, step, odeint)
         == Aggregate(g, a, e, period, periods, step, odeint)
          + Aggregate(h, a, e, period, periods, step, odeint)
  {
    assert Trajectories(g + h, a, e, period, periods, step, odeint)
        == Trajectories(g, a, e, period, periods, step, odeint)
         + Trajectories(h, a, e, period, periods, step, odeint);
    FlattenAppend(Trajectories(g, a, e, period, periods, step, odeint),
                  Trajectories(h, a, e, period, periods, step, odeint));
  }

  /** `solution(y0, a, e, period, N, step)`: integrate each grid row in
      order, append its trajectory, and flatten to one list of states
      (an empty grid gives an empty list). The result is the aggregated
      solution, so AggregateBlock, RowsIndependent and AggregateAppend
      describe it. */
  method Solution(y0: seq<State>, a: real, e: real, period: real, periods: real, step: real,
                  odeint: Odeint) returns (res: seq<State>)
    requires step != 0.0
    requires SamplesEveryPoint(odeint)
    ensures res == Aggregate(y0, a, e, period, periods, step, odeint)
    ensures |res| == |y0| * Samples(period, periods, step)
  {
    var y: seq<seq<State>> := [];
    assert y0[..0] == [];
    for idx := 0 to |y0|
      invariant y == Trajectories(y0[..idx], a, e, period, periods, step, odeint)
    {
      var (_, yPoint) := IntegrateOne(y0[idx], a, e, period, periods, step, odeint);
      y := y + [yPoint];
      TrajectoriesExtend(y0, a, e, period, periods, step, odeint, idx);
    }
    assert y0[..|y0|] == y0;
    assert y == Trajectories(y0, a, e, period, periods, step, odeint);
    res := Flatten(y);
  }

  /** What `np.array(y)` followed by `reshape((shape[0] * shape[1], 2))`
      does with the appended trajectories: with no rows, `np.array([])` is
      one-dimensional and `shape[1]` is out of range. */
  datatype Reshaped = Reshaped(states: seq<State>) | TupleIndexOutOfRange

  function ReshapeAsWritten(y: seq<seq<State>>): (r: Reshaped)
    ensures r.TupleIndexOutOfRange? <==> y == []
    ensures r.Reshaped? ==> |r.states| == |Flatten(y)|
  {
    if y == [] then TupleIndexOutOfRange else Reshaped(Flatten(y))
  }

  /** As written, `solution` fails on an empty grid, which `initial_grid_zv`
      returns for an empty z range, while on every other grid it agrees with
      `Aggregate`, which gives the empty list for the empty grid. */
  lemma EmptyGridBreaksSolution(a: real, e: real, period: real, periods: real, step: real,
                                odeint: Odeint, y0: seq<State>)
    requires step > 0.0
    requires SamplesEveryPoint(odeint)
    ensures InitialGridZV(0.0, 0.0, 0.0, 1.0, step, false) == []
    ensures ReshapeAsWritten(Trajectories([], a, e, period, periods, step, odeint)) == TupleIndexOutOfRange
    ensures Aggregate([], a, e, period, periods, step, odeint) == []
    ensures y0 != [] ==>
              ReshapeAsWritten(Trajectories(y0, a, e, period, periods, step, odeint))
              == Reshaped(Aggregate(y0, a, e, period, periods, step, odeint))
  {
    EmptyZRange(0.0, 0.0, 0.0, 1.0, step, false);
  }
}
