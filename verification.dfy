/** The `Verifier`: its step loops over the discretized PDE automaton,
    kept in fields it updates in place. */
module Verification {
  import opened LinAlg
  import opened Wrappers
  import opened ReachSets
  import opened Automaton
  import opened Stencil
  import opened Interp
  import opened Assembler
  import opened CurrentSets
  import opened Safety
  import opened ErrorPath

  /** The bounds `get_min_max(alpha_range, beta_range)` of every set of `L`. */
  function BoundsOf<S>(L: seq<S>, mm: (S, Range, Range) -> MinMax, a: Range, b: Range): (r: seq<MinMax>)
    ensures |r| == |L| && forall j :: 0 <= j < |L| ==> r[j] == mm(L[j], a, b)
  {
    seq(|L|, j requires 0 <= j < |L| => mm(L[j], a, b))
  }

  /** The bounds of a list extended by `R` are the bounds of the list
      followed by those of `R`: the entries of earlier calls keep their
      bounds, and their rows of boxes, at the head. */
  lemma BoundsOfAppend<S>(L: seq<S>, R: seq<S>, mm: (S, Range, Range) -> MinMax, a: Range, b: Range)
    ensures BoundsOf(L + R, mm, a, b) == BoundsOf(L, mm, a, b) + BoundsOf(R, mm, a, b)
  {
    var x, y := BoundsOf(L + R, mm, a, b), BoundsOf(L, mm, a, b) + BoundsOf(R, mm, a, b);
    forall j | 0 <= j < |L| + |R| ensures x[j] == y[j] {
      if j < |L| {
        assert (L + R)[j] == L[j];
      } else {
        assert (L + R)[j] == R[j - |L|];
      }
    }
  }

  class Verifier {
    var statusDis: Option<Verdict>
    var currentV: Option<Vec>
    var currentL: Option<Vec>
    /** The sets of `get_dreach_set`, one entry per step. */
    var toCurrentStepSet: seq<DReachSet>
    var unsafeTrace: seq<Vec>
    var disErrSet: seq<DReachSet>
    var residualRU: seq<DReachSet>
    var toCurStepIntplInspaceSet: seq<InSpaceSet>
    var toCurStepIntplSet: seq<SpaceTimeSet>

    constructor ()
      ensures statusDis == None && currentV == None && currentL == None
      ensures toCurrentStepSet == [] && unsafeTrace == [] && disErrSet == [] && residualRU == []
      ensures toCurStepIntplInspaceSet == [] && toCurStepIntplSet == []
    {
      statusDis, currentV, currentL := None, None, None;
      toCurrentStepSet, unsafeTrace, disErrSet, residualRU := [], [], [], [];
      toCurStepIntplInspaceSet, toCurStepIntplSet := [], [];
    }

    /** `get_dreach_set`: one set object, reassigned and appended at every
        step, so all `N + 1` entries are that object and it holds the LAST
        step's set. */
    method GetDReachSet(d: DPde, loads: seq<Vec>, N: nat) returns (r: seq<DReachSet>)
      requires StepReady(d, loads, N)
      modifies this
      ensures r == toCurrentStepSet && |r| == N + 1 && fresh(r[0])
      ensures forall k :: 0 <= k <= N ==> r[k] == r[0]
      ensures r[0].Value() == Current(d, loads, N)
      ensures currentV == Some(Current(d, loads, N).Vn) && currentL == Some(Current(d, loads, N).ln)
      ensures unchanged(this`statusDis, this`unsafeTrace, this`disErrSet, this`residualRU,
                        this`toCurStepIntplInspaceSet, this`toCurStepIntplSet)
    {
      ghost var S := CurrentRun(d, loads, N);
      CurrentRunIsRun(d, loads, N);
      r := ReachLoop(d, loads, N, S);
    }

    /** The step loop of `get_dreach_set` along the run `S`. */
    method ReachLoop(d: DPde, loads: seq<Vec>, N: nat, ghost S: seq<RSet>) returns (r: seq<DReachSet>)
      requires IsCurrentRun(d, loads, S) && |S| == N + 1
      modifies this
      ensures r == toCurrentStepSet && |r| == N + 1 && fresh(r[0])
      ensures forall k :: 0 <= k <= N ==> r[k] == r[0]
      ensures r[0].Value() == S[N] && currentV == Some(S[N].Vn) && currentL == Some(S[N].ln)
      ensures unchanged(this`statusDis, this`unsafeTrace, this`disErrSet, this`residualRU,
                        this`toCurStepIntplInspaceSet, this`toCurStepIntplSet)
    {
      var cs := new DReachSet();
      currentV, currentL := None, None;
      toCurrentStepSet := [];
      var i := 0;
      while i <= N
        invariant 0 <= i <= N + 1 && |toCurrentStepSet| == i
        invariant forall k :: 0 <= k < i ==> toCurrentStepSet[k] == cs
        invariant i > 0 ==> cs.Value() == S[i - 1] && currentV == Some(cs.Vn) && currentL == Some(cs.ln)
        invariant unchanged(this`statusDis, this`unsafeTrace, this`disErrSet, this`residualRU,
                            this`toCurStepIntplInspaceSet, this`toCurStepIntplSet)
      {
        if i == 0 {
          currentV, currentL := Some(d.initVector), Some(Zeros(Dim(d)));
        } else {
          var A := d.matrixA.value;
          currentV := Some(MatVec(A, currentV.value));
          currentL := Some(Add(loads[i], MatVec(A, currentL.value)));
        }
        cs.SetReachSet(d.alphaRange, d.betaRange, currentV.value, currentL.value);
        toCurrentStepSet := toCurrentStepSet + [cs];
        i := i + 1;
      }
      r := toCurrentStepSet;
    }

    /** `on_fly_check_dPde`: after asserting, in this order, that the
        automaton has a transition matrix, an unsafe set and both ranges,
        it runs all `N + 1` steps, poses the LP of each step and folds its
        answer into `status_dis` and `unsafe_trace`. */
    method OnFlyCheck(d: DPde, loads: seq<Vec>, N: nat, lp: Lp, tr: Tracer) returns (o: Outcome)
      requires LoadsShaped(d, loads, N) && MatrixShaped(d)
      requires d.unsafeSet.Some? ==> Cols(d.unsafeSet.value.matrixC, Dim(d))
      modifies this
      ensures d.matrixA.None? ==> o == Fail(MissingMatrix)
      ensures d.matrixA.Some? && d.unsafeSet.None? ==> o == Fail(MissingUnsafeSet)
      ensures d.matrixA.Some? && d.unsafeSet.Some? && d.alphaRange.None? ==> o == Fail(MissingAlphaRange)
      ensures d.matrixA.Some? && d.unsafeSet.Some? && d.alphaRange.Some? && d.betaRange.None?
              ==> o == Fail(MissingBetaRange)
      ensures o == Pass <==> Configured(d)
      ensures o.Fail? ==> unchanged(this)
      ensures o == Pass ==>
        StepReady(d, loads, N) && Posable(QueryOf(d), CurrentRun(d, loads, N)) &&
        CheckState(statusDis, unsafeTrace)
          == CheckRun(QueryOf(d), CurrentRun(d, loads, N), lp, tr, CheckState(old(statusDis), old(unsafeTrace)), N) &&
        currentV == Some(Current(d, loads, N).Vn) && currentL == Some(Current(d, loads, N).ln)
      ensures unchanged(this`toCurrentStepSet, this`disErrSet, this`residualRU,
                        this`toCurStepIntplInspaceSet, this`toCurStepIntplSet)
    {
      if d.matrixA.None? {
        return Fail(MissingMatrix);
      }
      if d.unsafeSet.None? {
        return Fail(MissingUnsafeSet);
      }
      if d.alphaRange.None? {
        return Fail(MissingAlphaRange);
      }
      if d.betaRange.None? {
        return Fail(MissingBetaRange);
      }
      ghost var S := CurrentRun(d, loads, N);
      CurrentRunIsRun(d, loads, N);
      CurrentRunPosable(d, loads, N);
      CheckLoop(d, loads, N, lp, tr, S);
      o := Pass;
    }

    /** The step loop of `on_fly_check_dPde` along the run `S`. */
    method CheckLoop(d: DPde, loads: seq<Vec>, N: nat, lp: Lp, tr: Tracer, ghost S: seq<RSet>)
      requires IsCurrentRun(d, loads, S) && |S| == N + 1 && Configured(d) && Posable(QueryOf(d), S)
      modifies this
      ensures CheckState(statusDis, unsafeTrace)
           == CheckRun(QueryOf(d), S, lp, tr, CheckState(old(statusDis), old(unsafeTrace)), N)
      ensures currentV == Some(S[N].Vn) && currentL == Some(S[N].ln)
      ensures unchanged(this`toCurrentStepSet, this`disErrSet, this`residualRU,
                        this`toCurStepIntplInspaceSet, this`toCurStepIntplSet)
    {
      ghost var q, st0 := QueryOf(d), CheckState(statusDis, unsafeTrace);
      var C, D := d.unsafeSet.value.matrixC, d.unsafeSet.value.vectorD;
      // the status, the trace and the current pair are kept in locals and
      // stored once the loop is done
      var status, trace := statusDis, unsafeTrace;
      var V, L: Vec := [], [];
      var i := 0;
      while i <= N
        modifies {}
        invariant 0 <= i <= N + 1
        invariant i > 0 ==> V == S[i - 1].Vn && L == S[i - 1].ln
        invariant i > 0 ==> CheckState(status, trace) == CheckRun(q, S, lp, tr, st0, i - 1)
        invariant i == 0 ==> CheckState(status, trace) == st0
      {
        if i == 0 {
          V, L := d.initVector, Zeros(Dim(d));
        } else {
          var A := d.matrixA.value;
          V, L := MatVec(A, V), Add(loads[i], MatVec(A, L));
        }
        assert RSet(V, L, d.alphaRange, d.betaRange) == S[i];
        var inV, inL := MatVec(C, V), MatVec(C, L);
        var constraint := seq(|C|, j requires 0 <= j < |C| => [inV[j], inL[j]]);
        var res := lp(constraint, D, d.alphaRange.value, d.betaRange.value);
        assert res == LpAt(q, S, lp, i);
        if res.status == 2 {
          status := Some(Safe);
        } else if res.status == 0 {
          status := Some(Unsafe);
        }
        // the two remaining branches compare the result object itself with
        // 1 and 3, which never holds
        if status == Some(Unsafe) {
          trace := tr(res.x.0, res.x.1, i);
        }
        i := i + 1;
      }
      statusDis, unsafeTrace := status, trace;
      currentV, currentL := Some(V), Some(L);
    }

    /** `get_interpolation_set` appends, to lists it never resets, the
        in-space set of every step and, from step 1 on, the space-time set
        of the previous and current entries counted from the HEAD of the
        list; it needs at least one step. */
    method GetInterpolationSet(d: DPde, loads: seq<Vec>, N: nat)
      returns (r: Result<(seq<InSpaceSet>, seq<SpaceTimeSet>)>)
      requires StepReady(d, loads, N)
      modifies this
      ensures N == 0 ==> r == Failure(BadStepCount) && unchanged(this)
      ensures N >= 1 ==> r == Ok((toCurStepIntplInspaceSet, toCurStepIntplSet)) && Interpolated(d, loads, N)
      ensures unchanged(this`statusDis, this`unsafeTrace, this`toCurrentStepSet, this`disErrSet, this`residualRU)
    {
      if N == 0 {
        return Failure(BadStepCount);
      }
      ghost var S := CurrentRun(d, loads, N);
      CurrentRunIsRun(d, loads, N);
      InterpolationLoop(d, loads, N, S);
      r := Ok((toCurStepIntplInspaceSet, toCurStepIntplSet));
    }

    /** The lists after a successful `get_interpolation_set` of `N` steps:
        the old in-space list followed by the `N + 1` new in-space sets,
        the old space-time list followed by `N` space-time sets that pair
        positions `j` and `j + 1` of the WHOLE new in-space list. */
    twostate predicate Interpolated(d: DPde, loads: seq<Vec>, N: nat)
      requires StepReady(d, loads, N)
      reads this
    {
      toCurStepIntplInspaceSet == old(toCurStepIntplInspaceSet) + InSpaceOver(d.xlist, CurrentRun(d, loads, N)) &&
      toCurStepIntplSet == old(toCurStepIntplSet) + SpaceTimeOver(d.timeStep, toCurStepIntplInspaceSet, N) &&
      currentV == Some(Current(d, loads, N).Vn) && currentL == Some(Current(d, loads, N).ln)
    }

    /** The step loop of `get_interpolation_set` along the run `S`. */
    method InterpolationLoop(d: DPde, loads: seq<Vec>, N: nat, ghost S: seq<RSet>)
      requires IsCurrentRun(d, loads, S) && |S| == N + 1
      modifies this
      ensures toCurStepIntplInspaceSet == old(toCurStepIntplInspaceSet) + InSpaceOver(d.xlist, S)
      ensures toCurStepIntplSet == old(toCurStepIntplSet) + SpaceTimeOver(d.timeStep, toCurStepIntplInspaceSet, N)
      ensures currentV == Some(S[N].Vn) && currentL == Some(S[N].ln)
      ensures unchanged(this`statusDis, this`unsafeTrace, this`toCurrentStepSet, this`disErrSet, this`residualRU)
    {
      ghost var In0, St0 := toCurStepIntplInspaceSet, toCurStepIntplSet;
      // the lists and the current pair are kept in locals and stored once
      // the loop is done; nothing reads the fields in between
      var inspace, spacetime := toCurStepIntplInspaceSet, toCurStepIntplSet;
      var V, L: Vec := [], [];
      var i := 0;
      while i <= N
        modifies {}
        invariant 0 <= i <= N + 1
        invariant i > 0 ==> V == S[i - 1].Vn && L == S[i - 1].ln
        invariant inspace == In0 + InSpaceOver(d.xlist, S[..i])
        invariant i > 0 ==> spacetime == St0 + SpaceTimeOver(d.timeStep, inspace, i - 1)
        invariant i == 0 ==> spacetime == St0
      {
        if i == 0 {
          V, L := d.initVector, Zeros(Dim(d));
        } else {
          var A := d.matrixA.value;
          V, L := MatVec(A, V), Add(loads[i], MatVec(A, L));
        }
        assert RSet(V, L, d.alphaRange, d.betaRange) == S[i];
        ghost var prior := inspace;
        var cur := InSpace(d.xlist, V, L);
        inspace := inspace + [cur];
        assert S[..i + 1] == S[..i] + [S[i]];
        InSpaceOverAppend(d.xlist, S[..i], S[i]);
        if i >= 1 {
          var st := SpaceTime(d.timeStep, i, inspace[i - 1], inspace[i]);
          spacetime := spacetime + [st];
          SpaceTimeOverStep(d.timeStep, prior, cur, i - 1);
          RepeatCallPairsOldEntries(d.timeStep, prior, [cur], i - 1);
        }
        i := i + 1;
      }
      assert S[..i] == S;
      toCurStepIntplInspaceSet, toCurStepIntplSet := inspace, spacetime;
      currentV, currentL := Some(V), Some(L);
    }

    /** `get_intpl_inspace_boxes`: runs `get_interpolation_set` first, and
        only then asserts both ranges; lays out one row of boxes per entry
        of the WHOLE in-space list. A bound vector longer than the mesh has
        cells, or a maximum vector shorter than its minimum vector, reads
        past the end. */
    method GetIntplInspaceBoxes(d: DPde, loads: seq<Vec>, N: nat, mm: (InSpaceSet, Range, Range) -> MinMax)
      returns (r: Result<seq<seq<Box2D>>>)
      requires StepReady(d, loads, N)
      modifies this
      ensures N == 0 ==> r == Failure(BadStepCount) && unchanged(this)
      ensures N >= 1 ==> Interpolated(d, loads, N)
      ensures N >= 1 && (d.alphaRange.None? || d.betaRange.None?) ==> r == Failure(MissingRanges)
      ensures N >= 1 && d.alphaRange.Some? && d.betaRange.Some? ==>
        var mms := BoundsOf(toCurStepIntplInspaceSet, mm, d.alphaRange.value, d.betaRange.value);
        if forall j :: 0 <= j < |mms| ==> CellsFit(d.xlist, mms[j])
        then r.Ok? && IsInSpaceLayout(r.value, d.xlist, mms)
        else r == Failure(IndexOutOfRange)
      ensures unchanged(this`statusDis, this`unsafeTrace, this`toCurrentStepSet, this`disErrSet, this`residualRU)
    {
      var ir := GetInterpolationSet(d, loads, N);
      if ir.Failure? {
        return Failure(ir.fault);
      }
      if d.alphaRange.None? || d.betaRange.None? {
        return Failure(MissingRanges);
      }
      var mms := BoundsOf(toCurStepIntplInspaceSet, mm, d.alphaRange.value, d.betaRange.value);
      if exists j :: 0 <= j < |mms| && !CellsFit(d.xlist, mms[j]) {
        return Failure(IndexOutOfRange);
      }
      var boxes := InSpaceBoxes(d.xlist, mms);
      r := Ok(boxes);
    }

    /** `get_intpl_boxes`: as `get_intpl_inspace_boxes`, over the WHOLE
        space-time list, row `j` spanning the time interval
        `[j·dt, (j+1)·dt]`. */
    method GetIntplBoxes(d: DPde, loads: seq<Vec>, N: nat, mm: (SpaceTimeSet, Range, Range) -> MinMax)
      returns (r: Result<seq<seq<Box3D>>>)
      requires StepReady(d, loads, N)
      modifies this
      ensures N == 0 ==> r == Failure(BadStepCount) && unchanged(this)
      ensures N >= 1 ==> Interpolated(d, loads, N)
      ensures N >= 1 && (d.alphaRange.None? || d.betaRange.None?) ==> r == Failure(MissingRanges)
      ensures N >= 1 && d.alphaRange.Some? && d.betaRange.Some? ==>
        var mms := BoundsOf(toCurStepIntplSet, mm, d.alphaRange.value, d.betaRange.value);
        if forall j :: 0 <= j < |mms| ==> CellsFit(d.xlist, mms[j])
        then r.Ok? && IsSpaceTimeLayout(r.value, d.xlist, d.timeStep, mms)
        else r == Failure(IndexOutOfRange)
      ensures unchanged(this`statusDis, this`unsafeTrace, this`toCurrentStepSet, this`disErrSet, this`residualRU)
    {
      var ir := GetInterpolationSet(d, loads, N);
      if ir.Failure? {
        return Failure(ir.fault);
      }
      if d.alphaRange.None? || d.betaRange.None? {
        return Failure(MissingRanges);
      }
      var mms := BoundsOf(toCurStepIntplSet, mm, d.alphaRange.value, d.betaRange.value);
      if exists j :: 0 <= j < |mms| && !CellsFit(d.xlist, mms[j]) {
        return Failure(IndexOutOfRange);
      }
      var boxes := SpaceTimeBoxes(d.xlist, d.timeStep, mms);
      r := Ok(boxes);
    }

    /** `compute_residul_r_u`: needs two stored sets; one residual object,
        reassigned from the stored sets `i - 1` and `i` and appended for
        every `i` from 1 on, so the `n - 1` new entries are that object and
        it holds the residual of the LAST two sets. `vectorB[i]` stands for
        the automaton's `vector_b[i]`. */
    method ComputeResidualRU(d: DPde, vectorB: seq<Vec>) returns (r: Result<seq<DReachSet>>)
      requires |toCurrentStepSet| >= 2 ==> SetsFit(d.xlist, vectorB, Values(toCurrentStepSet))
      modifies this
      ensures unchanged(this`statusDis, this`currentV, this`currentL, this`toCurrentStepSet, this`unsafeTrace,
                        this`disErrSet, this`toCurStepIntplInspaceSet, this`toCurStepIntplSet)
      ensures |toCurrentStepSet| < 2 ==> r == Failure(TooFewSets) && unchanged(this)
      ensures |toCurrentStepSet| >= 2 ==>
        var m, n := |old(residualRU)|, |toCurrentStepSet|;
        r == Ok(residualRU) && |residualRU| == m + n - 1 && residualRU[..m] == old(residualRU) &&
        fresh(residualRU[m]) && (forall k :: m <= k < m + n - 1 ==> residualRU[k] == residualRU[m]) &&
        residualRU[m].Value() == old(LastResidual(d.xlist, vectorB, Values(toCurrentStepSet)))
    {
      var n := |toCurrentStepSet|;
      if n < 2 {
        return Failure(TooFewSets);
      }
      var res := new DReachSet();
      var added := ResidualSets(d.xlist, vectorB, toCurrentStepSet, res, Values(toCurrentStepSet));
      residualRU := residualRU + added;
      r := Ok(residualRU);
    }

    /** `get_error_dreach_set`: resets the residual list, runs
        `compute_residul_r_u`, then drives the error recurrence with one
        error object, reassigned and appended at every step; its previous
        entry is that same object, so each step reads the value the step
        before left in it. Every residual entry holds the residual of the
        last two stored sets. */
    method GetErrorDReachSet(d: DPde, vectorB: seq<Vec>) returns (r: Result<seq<DReachSet>>)
      requires |toCurrentStepSet| >= 2 ==>
        SetsFit(d.xlist, vectorB, Values(toCurrentStepSet)) &&
        ResidualsShaped(d, Copies(LastResidual(d.xlist, vectorB, Values(toCurrentStepSet)), |toCurrentStepSet| - 1))
      modifies this
      ensures unchanged(this`statusDis, this`currentV, this`currentL, this`toCurrentStepSet, this`unsafeTrace,
                        this`toCurStepIntplInspaceSet, this`toCurStepIntplSet)
      ensures |toCurrentStepSet| < 2 ==>
        r == Failure(TooFewSets) && residualRU == [] && disErrSet == old(disErrSet)
      ensures |toCurrentStepSet| >= 2 ==>
        var n, R := |toCurrentStepSet| - 1, old(LastResidual(d.xlist, vectorB, Values(toCurrentStepSet)));
        |residualRU| == n && fresh(residualRU[0]) && residualRU[0].Value() == R &&
        (forall k :: 0 <= k < n ==> residualRU[k] == residualRU[0]) &&
        r == Ok(disErrSet) && |disErrSet| == n && fresh(disErrSet[0]) &&
        (forall k :: 0 <= k < n ==> disErrSet[k] == disErrSet[0]) &&
        ResidualsShaped(d, Copies(R, n)) && disErrSet[0].Value() == AltErr(d, Copies(R, n), n - 1)
    {
      residualRU := [];
      var rr := ComputeResidualRU(d, vectorB);
      if rr.Failure? {
        return Failure(rr.fault);
      }
      ghost var R := residualRU[0].Value();
      assert R == old(LastResidual(d.xlist, vectorB, Values(toCurrentStepSet)));
      ghost var rs := Copies(R, |residualRU|);
      AltErrsIsErrRun(d, rs);
      disErrSet := ErrorSets(d, residualRU, R, AltErrs(d, rs));
      assert residualRU[0].Value() == R;
      r := Ok(disErrSet);
    }
  }

  /** The loop of `compute_residul_r_u` over the stored list `stored`,
      whose entries hold the values `T`: the one residual object `res`,
      reassigned from stored sets `i - 1` and `i`, is appended for every
      `i` from 1 on. */
  method ResidualSets(xlist: Vec, vectorB: seq<Vec>, stored: seq<DReachSet>, res: DReachSet, ghost T: seq<RSet>)
    returns (added: seq<DReachSet>)
    requires |stored| >= 2 && T == Values(stored) && SetsFit(xlist, vectorB, T)
    requires res.Value() == RSet([], [], None, None) && res !in stored
    modifies res
    ensures |added| == |stored| - 1 && forall k :: 0 <= k < |added| ==> added[k] == res
    ensures res.Value() == Residual(xlist, vectorB[|T| - 1], T[|T| - 2], T[|T| - 1])
  {
    var n := |stored|;
    added := [];
    var i := 1;
    while i < n
      invariant 1 <= i <= n && |added| == i - 1
      invariant res.alphaRange == None && res.betaRange == None
      invariant forall k :: 0 <= k < |added| ==> added[k] == res
      invariant i > 1 ==> res.Value() == Residual(xlist, vectorB[i - 1], T[i - 2], T[i - 1])
    {
      var prevSet, curSet := stored[i - 1], stored[i];
      assert prevSet.Value() == T[i - 1] && curSet.Value() == T[i];
      var p := GetV1L1(prevSet.Vn, prevSet.ln, xlist);
      var c := GetV1L1(curSet.Vn, curSet.ln, xlist);
      assert p.value == (Project(prevSet.Vn, xlist), Project(prevSet.ln, xlist));
      assert c.value == (Project(curSet.Vn, xlist), Project(curSet.ln, xlist));
      res.Vn := Sub(p.value.0, c.value.0);
      res.ln := Sub(Add(vectorB[i], p.value.1), c.value.1);
      added := added + [res];
      i := i + 1;
    }
  }

  /** The error loop of `get_error_dreach_set` over a residual list whose
      entries are one object holding `R`: one error object, reassigned from
      the residual and from the previous entry (itself) and appended at every
      step. */
  method ErrorSets(d: DPde, residuals: seq<DReachSet>, ghost R: RSet, ghost E: seq<RSet>)
    returns (es: seq<DReachSet>)
    requires |residuals| >= 1 && IsErrRun(d, Copies(R, |residuals|), E)
    requires forall k :: 0 <= k < |residuals| ==> residuals[k] == residuals[0]
    requires residuals[0].Value() == R
    ensures |es| == |residuals| && fresh(es[0])
    ensures forall k :: 0 <= k < |residuals| ==> es[k] == es[0]
    ensures es[0].Value() == E[|residuals| - 1]
  {
    var n := |residuals|;
    es := [];
    var err := new DReachSet();
    var i := 0;
    while i < n
      invariant 0 <= i <= n && |es| == i && fresh(err)
      invariant residuals[0].Value() == R
      invariant forall k :: 0 <= k < i ==> es[k] == err
      invariant i > 0 ==> err.Value() == E[i - 1]
    {
      var ru := residuals[i];
      assert ru.Value() == Copies(R, n)[i];
      var invB := d.invB;
      var nv, nl;
      if i == 0 {
        nv, nl := MatVec(invB, ru.Vn), MatVec(invB, ru.ln);
      } else {
        // the previous entry is `err` itself, read before it is overwritten
        var A := d.matrixA.value;
        var prev := es[i - 1];
        nv := Add(MatVec(invB, ru.Vn), MatVec(A, prev.Vn));
        nl := Add(MatVec(invB, ru.ln), MatVec(A, prev.ln));
      }
      assert RSet(nv, nl, d.alphaRange, d.betaRange) == E[i];
      err.Vn, err.ln := nv, nl;
      err.alphaRange, err.betaRange := d.alphaRange, d.betaRange;
      es := es + [err];
      i := i + 1;
    }
  }

  /** The alternate error path as the engine runs it after
      `get_dreach_set`: every stored set is the last one, so every error set
      comes out with no `alpha` part, unlike the assembler's error sets
      (`ExampleErrorHasAlpha`). */
  method ErrorPathAfterDReachSet(v: Verifier, d: DPde, loads: seq<Vec>, vectorB: seq<Vec>, N: nat)
    returns (r: Result<seq<DReachSet>>)
    requires N >= 1 && ErrReady(d, loads, N)
    requires |vectorB| > N && forall k :: 1 <= k <= N ==> |vectorB[k]| == Dim(d)
    modifies v
    ensures r.Ok? && |r.value| == N && forall k :: 0 <= k < N ==> r.value[k] == r.value[0]
    ensures r.value[0].Value().Vn == Zeros(Dim(d))
  {
    var sets := v.GetDReachSet(d, loads, N);
    var s := Current(d, loads, N);
    assert Values(v.toCurrentStepSet) == Copies(s, N + 1);
    r := ErrorsFromCopies(v, d, vectorB, s, N);
  }

  /** The alternate error path over a stored list whose entries all hold
      the set `s`. */
  method ErrorsFromCopies(v: Verifier, d: DPde, vectorB: seq<Vec>, ghost s: RSet, N: nat)
    returns (r: Result<seq<DReachSet>>)
    requires N >= 1 && |v.toCurrentStepSet| == N + 1 && |vectorB| > N
    requires |d.xlist| == |vectorB[N]| + 2 && |vectorB[N]| != 1
    requires SetsFit(d.xlist, vectorB, Values(v.toCurrentStepSet)) && HasRows(s, |vectorB[N]|)
    requires Values(v.toCurrentStepSet) == Copies(s, N + 1)
    requires ResidualsShaped(d, Copies(Residual(d.xlist, vectorB[N], s, s), N))
    modifies v
    ensures r.Ok? && |r.value| == N && forall k :: 0 <= k < N ==> r.value[k] == r.value[0]
    ensures r.value[0].Value().Vn == Zeros(|vectorB[N]|)
  {
    ghost var R := Residual(d.xlist, vectorB[N], s, s);
    AliasedErrorPath(d, vectorB[N], s, N, N - 1);
    ghost var E := AltErr(d, Copies(R, N), N - 1);
    assert E.Vn == Zeros(|vectorB[N]|);
    ghost var T := Values(v.toCurrentStepSet);
    assert T[N - 1] == s && T[N] == s;
    ghost var R0 := LastResidual(d.xlist, vectorB, T);
    assert R0 == R;
    r := v.GetErrorDReachSet(d, vectorB);
    assert |v.toCurrentStepSet| - 1 == N;
    ghost var e := v.disErrSet[0];
    assert e.Value() == AltErr(d, Copies(R0, N), N - 1);
  }
}
