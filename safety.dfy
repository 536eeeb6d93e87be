/** The on-the-fly safety check of the verifier: at every step the LP layer
    is asked whether some `(alpha, beta)` in the ranges puts the state
    `alpha·V + beta·l` into the unsafe region, and the answers are folded
    into `status_dis` and `unsafe_trace`. */
module Safety {
  import opened LinAlg
  import opened Wrappers
  import opened ReachSets
  import opened Automaton
  import opened Assembler
  import opened CurrentSets

  /** The verdicts `status_dis` records: 0 safe, 1 unsafe, 2 iteration
      limit, 3 unbounded; `None` before any verdict. */
  datatype Verdict = Safe | Unsafe | IterationLimit | Unbounded

  /** An answer of `check_feasible`: the LP status code (0 feasible point
      found, 1 iteration limit, 2 infeasible, 3 unbounded) and its point
      `x = (alpha, beta)`. */
  datatype LpResult = LpResult(status: int, x: (real, real))

  /** The LP layer, called with the constraint matrix, the right-hand side
      `vector_d` and the two ranges. */
  type Lp = (Mat, Vec, Range, Range) -> LpResult

  /** `get_trace(alpha, beta, step)` of the automaton. */
  type Tracer = (real, real, nat) -> seq<Vec>

  /** `status_dis` and `unsafe_trace` between steps. */
  datatype CheckState = CheckState(status: Option<Verdict>, trace: seq<Vec>)

  /** The constraint matrix `hstack([C·V, C·l])`: row `j` holds the two
      coefficients of `alpha` and `beta` in `C[j]·(alpha·V + beta·l)`. */
  function Constraint(C: Mat, s: RSet): (r: Mat)
    requires |s.Vn| == |s.ln| && Cols(C, |s.Vn|)
    ensures Shaped(r, |C|, 2)
  {
    var cv, cl := MatVec(C, s.Vn), MatVec(C, s.ln);
    seq(|C|, j requires 0 <= j < |C| => [cv[j], cl[j]])
  }

  /** Row `j` of the constraint at `(alpha, beta)` is `C[j]` applied to the
      state the set stands for there: the LP's feasible points are exactly
      the parameters whose state meets the unsafe constraints. */
  lemma ConstraintMeaning(C: Mat, s: RSet, alpha: real, beta: real, j: nat)
    requires |s.Vn| == |s.ln| && Cols(C, |s.Vn|) && j < |C|
    ensures |Constraint(C, s)| == |C| && |Constraint(C, s)[j]| == 2
    ensures Constraint(C, s)[j][0] * alpha + Constraint(C, s)[j][1] * beta
         == Dot(C[j], Realize(s, alpha, beta))
  {
    DotCombine(C[j], alpha, s.Vn, beta, s.ln);
  }

  /** The status update of one step, as written: only the codes 2 and 0
      are tested against the LP status; the codes for the iteration limit
      and unboundedness are compared with the result object itself, never
      match, and leave the status as it was. */
  function NextStatus(s: Option<Verdict>, code: int): Option<Verdict> {
    if code == 2 then Some(Safe)
    else if code == 0 then Some(Unsafe)
    else s
  }

  /** The status update the four branches evidently intend. */
  function NextStatusIntended(s: Option<Verdict>, code: int): Option<Verdict> {
    if code == 2 then Some(Safe)
    else if code == 0 then Some(Unsafe)
    else if code == 1 then Some(IterationLimit)
    else if code == 3 then Some(Unbounded)
    else s
  }

  /** As written, an LP that stops at the iteration limit or is unbounded
      leaves the previous verdict standing, an earlier "unsafe" included,
      and no step ever records `IterationLimit` or `Unbounded`. */
  lemma IndecisiveCodesKeepStatus(s: Option<Verdict>, code: int)
    ensures code == 1 || code == 3 ==> NextStatus(s, code) == s
    ensures NextStatus(s, code) != Some(IterationLimit) || s == Some(IterationLimit)
    ensures NextStatus(s, code) != Some(Unbounded) || s == Some(Unbounded)
    ensures NextStatus(Some(Unsafe), 1) == Some(Unsafe) != NextStatusIntended(Some(Unsafe), 1)
  {
  }

  /** With the intended update every LP code records its own verdict,
      whatever the status before, and distinct codes record distinct
      verdicts. */
  lemma IntendedStatusFollowsCode(s: Option<Verdict>, t: Option<Verdict>, code: int, code2: int)
    requires 0 <= code <= 3 && 0 <= code2 <= 3
    ensures NextStatusIntended(s, code).Some?
    ensures NextStatusIntended(s, code) == NextStatusIntended(t, code)
    ensures NextStatusIntended(s, code) == NextStatusIntended(t, code2) <==> code == code2
  {
  }

  /** The automaton has all four fields the safety check asserts. */
  predicate Configured(d: DPde) {
    d.matrixA.Some? && d.unsafeSet.Some? && d.alphaRange.Some? && d.betaRange.Some?
  }

  /** What every step's LP is posed with: the unsafe region `C·x ⋈ D` and
      the two ranges. */
  datatype Query = Query(C: Mat, D: Vec, alpha: Range, beta: Range)

  function QueryOf(d: DPde): (q: Query)
    requires Configured(d)
    ensures q.C == d.unsafeSet.value.matrixC && q.D == d.unsafeSet.value.vectorD
    ensures Some(q.alpha) == d.alphaRange && Some(q.beta) == d.betaRange
  {
    Query(d.unsafeSet.value.matrixC, d.unsafeSet.value.vectorD, d.alphaRange.value, d.betaRange.value)
  }

  /** Every set of `S` has a constraint matrix against `q`. */
  predicate Posable(q: Query, S: seq<RSet>) {
    forall k :: 0 <= k < |S| ==> |S[k].Vn| == |S[k].ln| && Cols(q.C, |S[k].Vn|)
  }

  /** The LP answer for the set of step `k`. */
  function LpAt(q: Query, S: seq<RSet>, lp: Lp, k: nat): LpResult
    requires Posable(q, S) && k < |S|
  {
    lp(Constraint(q.C, S[k]), q.D, q.alpha, q.beta)
  }

  /** One step of the check: the status update, then a fresh trace from the
      LP point whenever the status now reads "unsafe". */
  function CheckStep(st: CheckState, res: LpResult, tr: Tracer, k: nat): CheckState {
    var s := NextStatus(st.status, res.status);
    CheckState(s, if s == Some(Unsafe) then tr(res.x.0, res.x.1, k) else st.trace)
  }

  /** The state after the steps `0` to `k` of the sets `S`, from `st0`. */
  function CheckRun(q: Query, S: seq<RSet>, lp: Lp, tr: Tracer, st0: CheckState, k: nat): CheckState
    requires Posable(q, S) && k < |S|
  {
    var st := if k == 0 then st0 else CheckRun(q, S, lp, tr, st0, k - 1);
    CheckStep(st, LpAt(q, S, lp, k), tr, k)
  }

  /** The LP status codes that record a verdict. */
  predicate Decisive(code: int) {
    code == 0 || code == 2
  }

  function VerdictOf(code: int): Verdict
    requires Decisive(code)
  {
    if code == 2 then Safe else Unsafe
  }

  /** There is no early exit: the final status is the verdict of the LAST
      step whose LP answer is 0 or 2, whatever the earlier steps said. */
  lemma {:induction false} StatusIsLastDecisive(q: Query, S: seq<RSet>, lp: Lp, tr: Tracer,
                                                st0: CheckState, N: nat, k: nat)
    requires Posable(q, S) && k <= N < |S|
    requires Decisive(LpAt(q, S, lp, k).status)
    requires forall j :: k < j <= N ==> !Decisive(LpAt(q, S, lp, j).status)
    ensures CheckRun(q, S, lp, tr, st0, N).status == Some(VerdictOf(LpAt(q, S, lp, k).status))
  {
    if N > k {
      StatusIsLastDecisive(q, S, lp, tr, st0, N - 1, k);
    }
  }

  /** When no step is decisive the status from before the check stays. */
  lemma {:induction false} StatusWithoutDecisive(q: Query, S: seq<RSet>, lp: Lp, tr: Tracer,
                                                 st0: CheckState, N: nat)
    requires Posable(q, S) && N < |S|
    requires forall j :: 0 <= j <= N ==> !Decisive(LpAt(q, S, lp, j).status)
    ensures CheckRun(q, S, lp, tr, st0, N).status == st0.status
  {
    if N > 0 {
      StatusWithoutDecisive(q, S, lp, tr, st0, N - 1);
    }
  }

  /** A final "unsafe" that was not already there before the check comes
      from a step at which the LP found a feasible point. */
  lemma {:induction false} UnsafeNeedsFeasibleStep(q: Query, S: seq<RSet>, lp: Lp, tr: Tracer,
                                                   st0: CheckState, N: nat)
    requires Posable(q, S) && N < |S|
    requires CheckRun(q, S, lp, tr, st0, N).status == Some(Unsafe)
    requires st0.status != Some(Unsafe)
    ensures exists k :: 0 <= k <= N && LpAt(q, S, lp, k).status == 0
  {
    if LpAt(q, S, lp, N).status != 0 {
      assert N > 0;
      UnsafeNeedsFeasibleStep(q, S, lp, tr, st0, N - 1);
    }
  }

  /** An "unsafe" verdict at the end always carries the trace of the LAST
      step's LP point, even when that step's LP stopped at the iteration
      limit or was unbounded and the verdict came from an earlier step. */
  lemma UnsafeTraceFromLastStep(q: Query, S: seq<RSet>, lp: Lp, tr: Tracer, st0: CheckState, N: nat)
    requires Posable(q, S) && N < |S|
    requires CheckRun(q, S, lp, tr, st0, N).status == Some(Unsafe)
    ensures CheckRun(q, S, lp, tr, st0, N).trace
         == tr(LpAt(q, S, lp, N).x.0, LpAt(q, S, lp, N).x.1, N)
  {
  }

  /** The verifier's sets can be posed against a configured automaton. */
  lemma CurrentRunPosable(d: DPde, loads: seq<Vec>, N: nat)
    requires StepReady(d, loads, N) && Configured(d) && Cols(d.unsafeSet.value.matrixC, Dim(d))
    ensures Posable(QueryOf(d), CurrentRun(d, loads, N))
  {
  }

  /** The LP at step `k` is posed on the simulated state of the assembler:
      row `j` of its constraint at `(alpha, beta)` is `C[j]` applied to
      `Simulate(k)`. */
  lemma ConstraintOnSimulation(d: DPde, loads: seq<Vec>, alpha: real, beta: real, k: nat, j: nat)
    requires StepReady(d, loads, k) && Configured(d) && Cols(d.unsafeSet.value.matrixC, Dim(d))
    requires j < |d.unsafeSet.value.matrixC|
    ensures var c := Constraint(d.unsafeSet.value.matrixC, Current(d, loads, k));
      |c| == |d.unsafeSet.value.matrixC| && |c[j]| == 2 &&
      c[j][0] * alpha + c[j][1] * beta
        == Dot(d.unsafeSet.value.matrixC[j], Simulate(d, loads, alpha, beta, k))
  {
    CurrentRealize(d, loads, alpha, beta, k);
    ConstraintAt(d.unsafeSet.value.matrixC, Current(d, loads, k), alpha, beta, j, Simulate(d, loads, alpha, beta, k));
  }

  /** `ConstraintMeaning` at a point `x` the set realizes to. */
  lemma ConstraintAt(C: Mat, s: RSet, alpha: real, beta: real, j: nat, x: Vec)
    requires |s.Vn| == |s.ln| && Cols(C, |s.Vn|) && j < |C| && Realize(s, alpha, beta) == x
    ensures var c := Constraint(C, s);
      |c| == |C| && |c[j]| == 2 && c[j][0] * alpha + c[j][1] * beta == Dot(C[j], x)
  {
    ConstraintMeaning(C, s, alpha, beta, j);
  }
}
