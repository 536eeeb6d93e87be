# Reach sets and on-the-fly verification of a discretized PDE automaton

This project models, in Dafny, the core of the `pdev` verification engine,
`engine/verifier.py`. The engine analyses a PDE whose initial condition is
scaled by a parameter `alpha` and whose forcing is scaled by `beta`. After
finite-element discretization, the state at step `n` is `alpha·Vn + beta·ln`
for a pair of vectors `(Vn, ln)`. A *discrete reach set* is that pair
together with the ranges of `alpha` and `beta`.

The model covers two components.

- `ReachSetAssembler` (module `Assembler`, with `Stencil` and `Interp`).
  - It builds the three lists of `get_dreachset`:
    - the solution sets `u[n] = A·u[n-1] + b[n]`;
    - the error sets `e[n] = A·e[n-1] + be[n]`, where the error forcing
      `be[n] = invB·(b + P(u[n-1]) - P(u[n]))` uses the mass-matrix stencil
      `P` (`get_V1_l1`);
    - the bloated sets `u + e`.
  - It builds their interpolation sets, in space and in space-time.
- `Verifier` (module `Verification`, with `CurrentSets`, `Safety` and
  `ErrorPath`). This is a `class` whose fields are updated in place.
  - `get_dreach_set` computes the step sets.
  - `on_fly_check_dPde` asks, at every step, whether some
    `(alpha, beta)` in the ranges puts the state into the unsafe region
    `C·x ⋈ D`. It folds the answers into `status_dis` and `unsafe_trace`.
  - `get_interpolation_set` and the two box routines are the interpolation
    part.
  - `compute_residul_r_u` and `get_error_dreach_set` compute the residuals
    `r(u)` of consecutive stored sets and drive the error recurrence
    `e[i] = invB·r[i] + A·e[i-1]`.

Mutable reach-set objects are the class `ReachSets.DReachSet`. The lists the
engine appends to are `seq<DReachSet>`, so aliasing follows the source:

- one object appended at every step of a loop stays one object;
- its entries all show the value of the last step.

External services are parameters:

- the load assembler is `loads`, the load vector of each step;
- the automaton's `vector_b` is `vectorB`;
- the LP check `check_feasible` is `lp`;
- the automaton's `get_trace` is `tr`;
- the interpolation sets' `get_min_max` is `mm`.

An interpolation set is the term of the arguments it was built from. A
routine that can stop with an `assert` or a run-time error returns a
`Result` or `Outcome` that names the fault.

The main results proved are these.

- Parameter linearity:
  - the assembler's solution sets and the verifier's step sets (those of
    `get_dreach_set`, `on_fly_check_dPde` and `get_interpolation_set`),
    evaluated at `(alpha, beta)`, are the states of the direct simulation
    `x[k] = A·x[k-1] + beta·b[k]`; the assembler's error sets are those of
    the error recurrence driven by it, and its bloated sets their sum.
    This holds of the set each step computes. The stored lists alias one
    object, so every stored bloated entry and every `to_current_step_set`
    entry holds the set of the last step `N`;
  - the error sets of the verifier's `get_error_dreach_set` are not: as
    written they lose their `alpha` part (see "## Findings");
  - the LP constraint of each step is the unsafe constraint on that state.
- The safety status after the check:
  - it is the verdict of the *last* step whose LP answer is decisive;
  - it is left unchanged when no step is decisive;
  - a new "unsafe" needs a step with a feasible point.
- The aliasing effects of the step loops all follow the source.
- With the residuals the code evidently intends, the verifier's answer is
  the assembler's error sets (`TwoPathEquivalence`). The code as written
  loses the `alpha` part of every error set.

## Model

| member | source | states |
|---|---|---|
| ReachSets.DReachSet.constructor | engine/verifier.py:219 | a new reach-set object has empty vectors and no ranges (assumed: the class is defined outside this model) |
| ReachSets.DReachSet.Of | engine/verifier.py:31-37 | a new object filled by `set_reach_set(s)` holds exactly the set `s` (assumed: `set_reach_set` is defined outside this model), as each `cur_u`, `cur_err` and `cur_be` object does (also engine/verifier.py:53-58) |
| ReachSets.DReachSet.SetReachSet | engine/verifier.py:234 | `set_reach_set` overwrites both ranges and both vectors and nothing else (assumed: the method is defined outside this model) |
| Stencil.ProjectAt | engine/verifier.py:79-89 | definition, no contract of its own: entry `i` of the stencil, with the first and last node missing one neighbour; `ProjectUniform` and `ProjectAtCombine` state its weights and its linearity |
| Stencil.Project | engine/verifier.py:79-89 | the projected vector has an entry per node; `ProjectCombine` states its linearity |
| Stencil.V1L1 | engine/verifier.py:67-91 | succeeds exactly when `V` and `l` have the same length `n = len(xlist) - 2` and `n != 1`; fails with an index error exactly when `n == 1`, where `V[1]` does not exist; on success both projections keep the length |
| Stencil.GetV1L1 | engine/verifier.py:399-423 | the index loop of `get_V1_l1` produces exactly `V1L1`: the same faults and the same projected vectors |
| Stencil.ProjectCombine | engine/verifier.py:78-90 | the stencil is linear: projecting `alpha·V + beta·l` gives `alpha·V1 + beta·l1` |
| Stencil.ProjectAtCombine | engine/verifier.py:78-90 | entry `i` of the stencil is linear in the projected vector |
| Stencil.ProjectUniform | engine/verifier.py:78-90 | on a uniform mesh of spacing `h` the stencil has weights `h/6, 2h/3, h/6`, and `2h/3` with one `h/6` neighbour at either end |
| Assembler.CurU | engine/verifier.py:22-37 | succeeds exactly when `A`, `b` and both basis vectors have one row count and `A` has a column per row; the shape assertion fault exactly when the row counts differ; the ranges of the previous set are kept |
| Assembler.CurErr | engine/verifier.py:40-59 | as `CurU` for `e[n] = A·e[n-1] + be[n]`: the success condition, the assertion fault and the kept ranges |
| Assembler.CurBe | engine/verifier.py:62-103 | succeeds exactly when both projections succeed and `invB` and `b` fit them; a failing first projection passes on its fault; the automaton's ranges are used |
| Assembler.USeq | engine/verifier.py:119-146 | the solution set of step `k` has `Dim` rows and the automaton's ranges |
| Assembler.BeSeq | engine/verifier.py:136 | the error forcing of step `k` has `Dim` rows and the automaton's ranges |
| Assembler.ESeq | engine/verifier.py:119-146 | the error set of step `k` has `Dim` rows and the automaton's ranges |
| Assembler.CurURealize | engine/verifier.py:22-37 | at `(alpha, beta)` one `u` step is `A·x + beta·b`: `alpha` scales only the homogeneous part |
| Assembler.CurErrRealize | engine/verifier.py:40-59 | at `(alpha, beta)` one `e` step is the propagated error plus the forcing at the same point |
| Assembler.CurBeRealize | engine/verifier.py:62-103 | at `(alpha, beta)` the error forcing is `invB·(beta·b + P(x_prev) - P(x_cur))` of the realized states |
| Assembler.USeqRealize | engine/verifier.py:119-146 | `u[k]` at `(alpha, beta)` is the state the direct simulation reaches at step `k` |
| Assembler.StepRealize | engine/verifier.py:131-137 | one pass of the loop, at a parameter point, moves the solution by `A` and the load, and the error by the error recurrence on the realized states |
| Assembler.RunRealize | engine/verifier.py:119-146 | along any run of `get_dreachset`, entry `k` realizes to the simulated state and the simulated error of step `k` |
| Assembler.ESeqRealize | engine/verifier.py:119-146 | `e[k]` at `(alpha, beta)` is the error recurrence driven by the simulated solution |
| Assembler.Bloated | engine/verifier.py:139-142 | the bloated set `u + e` has `Dim` rows and the automaton's ranges; `BloatedRealize` states its value at a parameter point |
| Assembler.BloatedRealize | engine/verifier.py:139-142 | the bloated set at a parameter point is the sum of the solution and error states there |
| Assembler.SeqStep | engine/verifier.py:131-137 | pass `k` of the recurrences is one step of `get_dreachset` |
| Assembler.SeqsRun | engine/verifier.py:119-146 | the recurrences `USeq` and `ESeq` are a run of `get_dreachset` |
| Assembler.NextSets | engine/verifier.py:131-137 | the three calls of a pass build new `u` and `e` objects holding the next sets of the run |
| Assembler.DReachLists | engine/verifier.py:112-148 | the loop against any run: `u` and `e` entries hold the run's sets; every bloated entry is one object holding the last sum `u[N] + e[N]` |
| Assembler.GetDReachSet | engine/verifier.py:106-148 | the three lists have `N + 1` entries; `u[k]` and `e[k]` hold the recurrences' sets of step `k`; all bloated entries are one object holding `u[N] + e[N]`; with `N >= 1` on a one-node mesh it fails with the index error of the first `get_V1_l1`, and succeeds otherwise |
| Assembler.InSpaceLoop | engine/verifier.py:167-170 | the in-space set of every stored `u`, `e` and bloated object, in order |
| Assembler.SpaceTimeLoop | engine/verifier.py:173-176 | the space-time set `k` pairs in-space entries `k - 1` and `k` of the same list, tagged with step `k` |
| Assembler.InterpolationLists | engine/verifier.py:160-178 | both loops together: the in-space lists and the space-time lists over the stored objects |
| Assembler.GetInterpolationSet | engine/verifier.py:151-178 | `N + 1` in-space sets of `u[k]` and `e[k]`, all bloated in-space sets built from the last sum `Bloated(N)`, and `N` space-time sets of consecutive pairs; the same index error as `GetDReachSet` on a one-node mesh |
| CurrentSets.Current | engine/verifier.py:224-233 | the verifier's set of step `k` has `Dim` rows |
| CurrentSets.CurrentIsUSeq | engine/verifier.py:224-233 | the verifier's recurrence and the assembler's `get_dreachset` compute the same solution sets |
| CurrentSets.CurrentRealize | engine/verifier.py:224-233 | the verifier's set of step `k` at `(alpha, beta)` is the simulated state |
| CurrentSets.CurrentRunIsRun | engine/verifier.py:224-233 | the sets of steps `0` to `N` are a run of the verifier's recurrence |
| CurrentSets.InSpaceOverAppend | engine/verifier.py:323-325 | the in-space list of a list extended by one set is the old in-space list extended by that set's in-space set: one loop pass appends one entry |
| CurrentSets.SpaceTimeOver | engine/verifier.py:328-331 | there are `m` space-time sets, counted from the head of the list |
| CurrentSets.FirstCallPairsSteps | engine/verifier.py:328-331 | an unfolding of `SpaceTimeOver` on empty earlier lists: on a fresh verifier, space-time set `j` pairs the steps `j` and `j + 1` of this call |
| CurrentSets.InSpaceMatchesAssembler | engine/verifier.py:323-325 | the verifier's in-space sets are those of the assembler's `u[k]` |
| CurrentSets.SpaceTimeOverStep | engine/verifier.py:328-331 | appending one in-space set adds the one space-time set pairing positions `m` and `m + 1` |
| CurrentSets.RepeatCallPairsOldEntries | engine/verifier.py:328-331 | when earlier calls left at least `N + 1` entries, a new call's space-time sets pair only those earlier entries |
| Safety.Constraint | engine/verifier.py:259-273 | the LP constraint matrix `hstack([C·V, C·l])` has a row per unsafe constraint and two columns; `ConstraintMeaning` states what a row means |
| Safety.ConstraintMeaning | engine/verifier.py:272-273 | row `j` of `hstack([C·V, C·l])` at `(alpha, beta)` is `C[j]` applied to the realized state |
| Safety.ConstraintAt | engine/verifier.py:272-273 | the same, at any point the set realizes to |
| Safety.ConstraintOnSimulation | engine/verifier.py:254-277 | the LP of step `k` is posed on the simulated state of step `k` |
| Safety.NextStatus | engine/verifier.py:278-285 | definition, as written, no contract of its own: code 2 gives "safe", code 0 "unsafe", any other code keeps the status; `IndecisiveCodesKeepStatus` states its property |
| Safety.NextStatusIntended | engine/verifier.py:278-285 | definition, as intended, no contract of its own: codes 0 to 3 map to their four verdicts; `IntendedStatusFollowsCode` states its property |
| Safety.CheckStep | engine/verifier.py:278-296 | definition, no contract of its own: one loop pass, the status update then a fresh trace when the status reads "unsafe"; the `CheckRun` lemmas state its effect |
| Safety.CheckRun | engine/verifier.py:254-298 | definition, no contract of its own: the fold of `CheckStep` over steps `0..k`; `StatusIsLastDecisive`, `StatusWithoutDecisive`, `UnsafeNeedsFeasibleStep` and `Verifier.CheckLoop` state its properties |
| Safety.IndecisiveCodesKeepStatus | engine/verifier.py:278-285 | as written, LP codes 1 and 3 leave the previous status standing, and no step ever records the iteration-limit or unbounded verdict |
| Safety.IntendedStatusFollowsCode | engine/verifier.py:278-285 | with the intended comparisons every LP code records its own verdict, whatever the status before, and distinct codes give distinct verdicts |
| Safety.StatusIsLastDecisive | engine/verifier.py:254-298 | the final status is the verdict of the last step whose LP answer is 0 or 2 |
| Safety.StatusWithoutDecisive | engine/verifier.py:254-298 | when no step is decisive, the status from before the check stays |
| Safety.UnsafeNeedsFeasibleStep | engine/verifier.py:278-281 | a final "unsafe" that was not already there comes from a step where the LP found a feasible point |
| Safety.UnsafeTraceFromLastStep | engine/verifier.py:287-296 | an unfolding of `CheckRun` and `CheckStep`: a final "unsafe" carries the trace of the last step's LP point |
| Safety.CurrentRunPosable | engine/verifier.py:254-273 | an unfolding of `Posable` over `Current`: the verifier's sets can all be posed against a configured automaton |
| ErrorPath.Residual | engine/verifier.py:425-434 | the residual of two stored sets keeps their row count |
| ErrorPath.LastResidual | engine/verifier.py:425-434 | the residual every entry of `residual_r_u` holds has a row per interior node and no ranges, since the loop never sets them |
| ErrorPath.ResidualOfSameSet | engine/verifier.py:431-432 | the residual of a set with itself is `(0, b)`: only the forcing vector is left |
| ErrorPath.AltErr | engine/verifier.py:449-460 | error set `j` of `get_error_dreach_set` has a row per interior node and the automaton's ranges |
| ErrorPath.AltErrsIsErrRun | engine/verifier.py:449-460 | those error sets follow the recurrence `e[0] = invB·r[0]`, `e[i] = invB·r[i] + A·e[i-1]` step by step |
| ErrorPath.AltErrZeroVn | engine/verifier.py:449-460 | residuals with no `alpha` part give error sets with no `alpha` part |
| ErrorPath.RunResiduals | engine/verifier.py:425-434 | one residual per consecutive pair of a run, each with the run's row count |
| ErrorPath.StepErrorFromResidual | engine/verifier.py:62-103 | one pass of `get_dreachset` takes `e` to `invB·r + A·e`, where `r` is the residual of the pass's two solution sets |
| ErrorPath.RunErrorPaths | engine/verifier.py:449-460 | along any run of the assembler, error set `j` of the residual route is the assembler's `e[j + 1]` |
| ErrorPath.IntendedResiduals | engine/verifier.py:425-434 | one intended residual per step `1..N` |
| ErrorPath.TwoPathEquivalence | engine/verifier.py:438-462 | with the intended residuals, both routes give the same error sets: `AltErr[j] == e[j + 1]` |
| ErrorPath.AliasedErrorPath | engine/verifier.py:425-434 | as written, the stored sets are one object, so the residual is that of a set with itself, and every error set it drives has a zero `alpha` part |
| ErrorPath.ExampleErrorHasAlpha | engine/verifier.py:119-146 | on a two-node mesh, the assembler's first error set has `Vn = (-2/3, -1/6)`, not zero |
| Verification.BoundsOfAppend | engine/verifier.py:345-348 | the bounds of two concatenated interpolation lists are the bounds of each in turn, so the bounds loop visits the sets in list order |
| Interp.InSpaceBoxes | engine/verifier.py:345-356 | one box row per set of bounds, in order; cell `i` of row `j` spans `[x_i, x_{i+1}] × [lo_i, hi_i]` of bounds `j` |
| Interp.InSpaceLayoutPrefix | engine/verifier.py:345-356 | the box rows of the first `m` bounds are the first `m` rows: each row depends only on its own bounds |
| Interp.SpaceTimeBoxes | engine/verifier.py:370-384 | one box row per set of bounds; cell `i` of row `j` spans `[x_i, x_{i+1}] × [j·dt, (j+1)·dt] × [lo_i, hi_i]` |
| Verification.Verifier.constructor | engine/verifier.py:187-209 | no status, no current pair, and every list empty |
| Verification.Verifier.GetDReachSet | engine/verifier.py:212-237 | `N + 1` entries, all one new object holding the last step's set; the current pair is that of step `N`; other fields unchanged |
| Verification.Verifier.ReachLoop | engine/verifier.py:224-235 | the same, along any run of the verifier's recurrence |
| Verification.Verifier.OnFlyCheck | engine/verifier.py:239-298 | the four `None` assertions in their order, each with its own fault, and nothing changed then; otherwise the status and trace are the fold `CheckRun` of the LP answers of the steps `0..N` from their old values |
| Verification.Verifier.CheckLoop | engine/verifier.py:254-298 | the loop leaves status and trace equal to `CheckRun` over the run, and the current pair of step `N` |
| Verification.Verifier.GetInterpolationSet | engine/verifier.py:300-333 | `N == 0` fails the assertion and changes nothing; otherwise the in-space list grows by the `N + 1` new sets, and the space-time list by `N` sets counted from the head of the whole list |
| Verification.Verifier.InterpolationLoop | engine/verifier.py:310-331 | the same two list updates along any run |
| Verification.Verifier.GetIntplInspaceBoxes | engine/verifier.py:335-358 | interpolation first, then the range assertion; one box row per entry of the whole in-space list, cell `i` spanning `[x_i, x_{i+1}] × [min_i, max_i]`; an index error when bounds do not fit the mesh |
| Verification.Verifier.GetIntplBoxes | engine/verifier.py:360-386 | as above over the whole space-time list, row `j` spanning time `[j·dt, (j+1)·dt]` |
| Verification.Verifier.ComputeResidualRU | engine/verifier.py:388-436 | fewer than two stored sets fails and changes nothing; otherwise `n - 1` entries are appended, all one new object holding the residual of the last two stored sets |
| Verification.Verifier.GetErrorDReachSet | engine/verifier.py:438-462 | resets the residuals, computes them, then builds `n - 1` error entries, all one new object, holding the last error set of the recurrence driven by copies of the last residual |
| Verification.ResidualSets | engine/verifier.py:425-434 | the residual loop appends one object `n - 1` times, holding the residual of the last two stored sets |
| Verification.ErrorSets | engine/verifier.py:446-460 | the error loop: every entry is one new object, and reading the previous entry reads that object, so it ends holding the last set of the recurrence |
| Verification.ErrorPathAfterDReachSet | engine/verifier.py:212-237 | `get_dreach_set` followed by `get_error_dreach_set` succeeds with `N` entries of one object whose `alpha` part is zero |
| Verification.ErrorsFromCopies | engine/verifier.py:438-462 | over a stored list whose entries all hold one set, the error sets have a zero `alpha` part |

Some members are plain definitions and have no row of their own:
`CurrentSets.InSpaceOver` (the in-space sets of a list, engine/verifier.py:323-325),
`Verification.BoundsOf` (the `get_min_max` bounds of a list, engine/verifier.py:346-348),
`Safety.QueryOf` (the automaton's `C`, `D` and ranges, engine/verifier.py:242-247),
`ErrorPath.AltErrs` (the error sets of the residual route, engine/verifier.py:449-460) and
`ErrorPath.Copies` (`n` entries of one residual, engine/verifier.py:434).
Their properties are stated by `InSpaceOverAppend`, `BoundsOfAppend`,
`CurrentRunPosable`, `AltErrsIsErrRun` and `AliasedErrorPath`.

## Left out

- `pdes/test.py` is a caller of the engine and is not part of this model.
- Printing: the diagnostic `print` statements of the loops are not modelled.
- Sparse matrices: `csc_matrix` and `lil_matrix` become dense sequences of reals. A mismatch of sparse shapes in a product is the fault `DimensionMismatch`.
- Floating point: all arithmetic is on exact reals. Python 2 integer division is not modelled: `hi / 3` is real division, which is what a mesh of floats does.
- Load assembly: `Fem1D.load_assembler` is not part of this model. Its vectors are the parameter `loads`.
- `dPde.set_vector_b`: its effect on the automaton is not modelled. The `dPde.vector_b[i]` read by `compute_residul_r_u` is the parameter `vectorB`.
- LP solving: `GeneralSet.set_constraints` and `check_feasible` are not part of this model. The LP is the parameter `lp`, and only its status code and point are used.
- `dPde.get_trace` is the parameter `tr`.
- Interpolation: `Interpolation.interpolate_in_space`, `increm_interpolation` and their `get_min_max` are not part of this model. The sets are terms of their arguments, and `get_min_max` is the parameter `mm`. The boxes are values, not `RectangleSet2D`/`RectangleSet3D` objects.
- Type assertions: the `isinstance` assertions hold by typing, and `toTimeStep >= 0` holds because the step count is a `nat`.
- `to_current_step_set is not None` always holds, because the list is never `None` in the model.
- The fields `status_cont`, `to_current_step_line_set` and `current_constraints` are only initialised or hold an external object, so they are not modelled.
- `dPde.residual_r_u = []`: the automaton is a value in the model, so this write to it is not modelled.
- Step loops: `Verifier.CheckLoop` and `Verifier.InterpolationLoop` keep status, trace, lists and the current pair in locals and store them after the loop. The locals stand for exactly the fields these loops read: `current_V`/`current_l`, `status_dis`, and the previous entry of `to_cur_step_intpl_inspace_set`. Nothing outside the loop reads those fields before the store, and these loops have no failure path under their preconditions.
- Verification.Verifier.GetDReachSet: requires the shapes of `A`, the loads and the initial vector (`StepReady`) instead of modelling the dimension error a bad sparse product raises.
- Verification.Verifier.OnFlyCheck: requires the same shapes, and that `C` has a column per row, instead of modelling a dimension error inside the loop. The four `None` assertions are modelled as faults.
- Verification.Verifier.GetInterpolationSet: requires the step shapes as above. The `toTimeStep >= 1` assertion is modelled as the fault `BadStepCount`.
- Verification.Verifier.GetIntplInspaceBoxes: requires the step shapes as above.
- Verification.Verifier.GetIntplBoxes: requires the step shapes as above.
- Verification.Verifier.ComputeResidualRU: requires, when there are two or more stored sets, that they and the forcing vectors fit the stencil (`SetsFit`). It does not model the shape and index faults of `get_V1_l1` on this route; `Stencil.V1L1` models them.
- Verification.Verifier.GetErrorDReachSet: requires `SetsFit` as above, and that `invB` and `A` fit the residuals (`ResidualsShaped`), instead of modelling dimension errors.
- ReachSets.DReachSet.constructor: `DReachSet` is defined in `engine/set.py`, which is not part of this model; that a new object has empty vectors and no ranges is an assumption, and so is what `set_reach_set` does (`ReachSets.DReachSet.SetReachSet`, `ReachSets.DReachSet.Of`).
- Assembler.GetDReachSet: models the index error of a one-node mesh as a `Failure`, but requires the step shapes and a mesh of `Dim + 2` nodes with a square `invB` (`StepReady`, `MeshFits`) instead of modelling the other shape faults inside the loop, which `CurU`, `CurErr` and `CurBe` model one step at a time. It does not state that the `u` and `e` entries of different steps are distinct objects.
- Assembler.GetInterpolationSet: the same requires and the same index error as `Assembler.GetDReachSet`.

## Findings

| source | as written | input that shows it | evidently intended | confidence | as-written member | corrected member |
|---|---|---|---|---|---|---|
| engine/verifier.py:282-285 | the branches for the iteration limit and unboundedness compare the LP result object itself with `1` and `3`, so they never match | a step whose LP answers 1 (iteration limit) after a step that answered 0: the status stays "unsafe" (`NextStatus(Some(Unsafe), 1) == Some(Unsafe)`) | compare the result's `status` field, so codes 1 and 3 record verdicts 2 and 3 | high, not executed | Safety.IndecisiveCodesKeepStatus | Safety.IntendedStatusFollowsCode |
| engine/verifier.py:219-235, engine/verifier.py:396-434 | `get_dreach_set` appends one set object at every step, and `compute_residul_r_u` appends one residual object. Every stored set holds the last step's set, and every residual is that of the last set with itself | `ErrorPath.Example` with zero loads and `N = 1`: `get_error_dreach_set` gives an error set with `Vn = 0`, while the assembler's `e[1]` has `Vn = (-2/3, -1/6)` | stored sets and residuals of every step are distinct objects, so residual `j` is that of `u[j]`, `u[j+1]` with load `b[j+1]` and the error sets equal the assembler's | high, not executed | Verification.ErrorPathAfterDReachSet | ErrorPath.TwoPathEquivalence |

The class `Verifier` models the code as written. The corrected definitions
`Safety.NextStatusIntended` and `ErrorPath.IntendedResiduals` sit beside it,
with the intended properties proved about them.
