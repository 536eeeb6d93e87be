/** The reach-set assembler: the one-step constructions of the solution set
    `u`, the error forcing `be` and the error set `e`, the sequences they
    generate, and the two step loops that build them as objects. */
module Assembler {
  import opened LinAlg
  import opened Wrappers
  import opened ReachSets
  import opened Automaton
  import opened Stencil
  import opened Interp

  /** What `N` steps need, fewer steps need too. */
  lemma ReadyPrefix(d: DPde, loads: seq<Vec>, N: nat, k: nat)
    requires ErrReady(d, loads, N) && k <= N
    ensures ErrReady(d, loads, k)
  {
  }

  /** `get_cur_u_dreachset`: `u[n] = A·u[n-1] + b[n]` with the homogeneous
      part in `Vn` and the load in `ln`. The assertion fails unless `A`,
      `b` and both basis vectors have the same row count; the products
      fail unless `A` has a column per row of `prev`. */
  function CurU(A: Mat, prev: RSet, b: Vec): (r: Result<RSet>)
    ensures r.Ok? <==> |A| == |b| == |prev.Vn| == |prev.ln| && Cols(A, |prev.Vn|)
    ensures r == Failure(ShapeMismatch) <==> !(|A| == |b| == |prev.Vn| == |prev.ln|)
    ensures r.Ok? ==> HasRows(r.value, |A|)
    ensures r.Ok? ==> r.value.alphaRange == prev.alphaRange && r.value.betaRange == prev.betaRange
  {
    if !(|A| == |b| == |prev.Vn| == |prev.ln|) then Failure(ShapeMismatch)
    else if !Cols(A, |prev.Vn|) then Failure(DimensionMismatch)
    else Ok(RSet(MatVec(A, prev.Vn), Add(MatVec(A, prev.ln), b), prev.alphaRange, prev.betaRange))
  }

  /** `get_cur_err_dreachset`: `e[n] = A·e[n-1] + be[n]`, basis vector by
      basis vector. */
  function CurErr(A: Mat, prevE: RSet, be: RSet): (r: Result<RSet>)
    ensures r.Ok? <==> |A| == |be.Vn| == |prevE.Vn| == |be.ln| == |prevE.ln| && Cols(A, |prevE.Vn|)
    ensures r == Failure(ShapeMismatch) <==> !(|A| == |be.Vn| == |prevE.Vn| == |be.ln| == |prevE.ln|)
    ensures r.Ok? ==> HasRows(r.value, |A|)
    ensures r.Ok? ==> r.value.alphaRange == prevE.alphaRange && r.value.betaRange == prevE.betaRange
  {
    if !(|A| == |be.Vn| == |prevE.Vn| == |be.ln| == |prevE.ln|) then Failure(ShapeMismatch)
    else if !Cols(A, |prevE.Vn|) then Failure(DimensionMismatch)
    else Ok(RSet(Add(MatVec(A, prevE.Vn), be.Vn), Add(MatVec(A, prevE.ln), be.ln),
                 prevE.alphaRange, prevE.betaRange))
  }

  /** `get_cur_be`: the error forcing `invB·(V1(pre) - V1(cur))`,
      `invB·(b + l1(pre) - l1(cur))` with the automaton's ranges, where `b`
      is the load vector of the current step. It fails when either
      projection fails, and when `invB` or `b` do not fit the projections. */
  function CurBe(pre: RSet, cur: RSet, d: DPde, b: Vec): (r: Result<RSet>)
    ensures r.Ok? <==> V1L1(pre.Vn, pre.ln, d.xlist).Ok? && V1L1(cur.Vn, cur.ln, d.xlist).Ok?
                       && Cols(d.invB, |d.xlist| - 2) && |b| == |d.xlist| - 2
    ensures V1L1(pre.Vn, pre.ln, d.xlist).Failure? ==> r == Failure(V1L1(pre.Vn, pre.ln, d.xlist).fault)
    ensures r.Ok? ==> HasRows(r.value, |d.invB|)
    ensures r.Ok? ==> r.value.alphaRange == d.alphaRange && r.value.betaRange == d.betaRange
  {
    var p := V1L1(pre.Vn, pre.ln, d.xlist);
    if p.Failure? then Failure(p.fault)
    else
      var c := V1L1(cur.Vn, cur.ln, d.xlist);
      if c.Failure? then Failure(c.fault)
      else if !Cols(d.invB, |d.xlist| - 2) || |b| != |d.xlist| - 2 then Failure(DimensionMismatch)
      else
        var (preV1, preL1) := p.value;
        var (curV1, curL1) := c.value;
        Ok(RSet(MatVec(d.invB, Sub(preV1, curV1)), MatVec(d.invB, Sub(Add(b, preL1), curL1)),
                d.alphaRange, d.betaRange))
  }

  /** `u[k]` of `get_dreachset`: `(init_vector, 0)` at step 0, then one
      `CurU` step per load vector. */
  function USeq(d: DPde, loads: seq<Vec>, k: nat): (r: RSet)
    requires StepReady(d, loads, k)
    ensures HasRows(r, Dim(d))
    ensures r.alphaRange == d.alphaRange && r.betaRange == d.betaRange
  {
    if k == 0 then RSet(d.initVector, Zeros(Dim(d)), d.alphaRange, d.betaRange)
    else CurU(d.matrixA.value, USeq(d, loads, k - 1), loads[k]).value
  }

  /** `be[k]` of `get_dreachset`, from `u[k-1]` and `u[k]`. */
  function BeSeq(d: DPde, loads: seq<Vec>, k: nat): (r: RSet)
    requires k >= 1 && ErrReady(d, loads, k)
    ensures HasRows(r, Dim(d))
    ensures r.alphaRange == d.alphaRange && r.betaRange == d.betaRange
  {
    CurBe(USeq(d, loads, k - 1), USeq(d, loads, k), d, loads[k]).value
  }

  /** `e[k]` of `get_dreachset`: zero at step 0, then one `CurErr` step
      driven by `be[k]`. */
  function ESeq(d: DPde, loads: seq<Vec>, k: nat): (r: RSet)
    requires ErrReady(d, loads, k)
    ensures HasRows(r, Dim(d))
    ensures r.alphaRange == d.alphaRange && r.betaRange == d.betaRange
  {
    if k == 0 then RSet(Zeros(Dim(d)), Zeros(Dim(d)), d.alphaRange, d.betaRange)
    else CurErr(d.matrixA.value, ESeq(d, loads, k - 1), BeSeq(d, loads, k)).value
  }

  /** The bloated set `u[k] + e[k]` that iteration `k` writes. */
  function Bloated(d: DPde, loads: seq<Vec>, k: nat): (r: RSet)
    requires ErrReady(d, loads, k)
    ensures HasRows(r, Dim(d))
    ensures r.alphaRange == d.alphaRange && r.betaRange == d.betaRange
  {
    var u := USeq(d, loads, k);
    var e := ESeq(d, loads, k);
    RSet(Add(u.Vn, e.Vn), Add(u.ln, e.ln), d.alphaRange, d.betaRange)
  }

  /** The direct simulation at one parameter point: `x[0] = alpha·init`,
      `x[k] = A·x[k-1] + beta·b[k]`. */
  function Simulate(d: DPde, loads: seq<Vec>, alpha: real, beta: real, k: nat): (x: Vec)
    requires StepReady(d, loads, k)
    ensures |x| == Dim(d)
  {
    if k == 0 then Scale(alpha, d.initVector)
    else Add(MatVec(d.matrixA.value, Simulate(d, loads, alpha, beta, k - 1)), Scale(beta, loads[k]))
  }

  /** One step of the error recurrence at a parameter point: the propagated
      error `A·y` plus `invB` applied to the load `beta·b` and the projected
      states `x0` before and `x1` after the step. */
  function ErrStep(d: DPde, b: Vec, beta: real, y: Vec, x0: Vec, x1: Vec): Vec
    requires d.matrixA.Some? && Cols(d.matrixA.value, |y|) && |d.matrixA.value| == |d.invB|
    requires |x0| == |x1| == |b| && |d.xlist| == |x0| + 2 && |x0| != 1 && Cols(d.invB, |x0|)
  {
    Add(MatVec(d.matrixA.value, y),
        MatVec(d.invB, Sub(Add(Scale(beta, b), Project(x0, d.xlist)), Project(x1, d.xlist))))
  }

  /** The error recurrence at one parameter point, driven by the simulated
      solution: `y[0] = 0`,
      `y[k] = A·y[k-1] + invB·(beta·b[k] + P(x[k-1]) - P(x[k]))`. */
  function SimulateErr(d: DPde, loads: seq<Vec>, alpha: real, beta: real, k: nat): (y: Vec)
    requires ErrReady(d, loads, k)
    ensures |y| == Dim(d)
  {
    if k == 0 then Zeros(Dim(d))
    else
      ErrStep(d, loads[k], beta, SimulateErr(d, loads, alpha, beta, k - 1),
              Simulate(d, loads, alpha, beta, k - 1), Simulate(d, loads, alpha, beta, k))
  }

  /** One `u` step at a parameter point: `alpha` scales only the
      homogeneous response and `beta` only the forced one. */
  lemma {:induction false} CurURealize(A: Mat, prev: RSet, b: Vec, alpha: real, beta: real)
    requires CurU(A, prev, b).Ok?
    ensures Realize(CurU(A, prev, b).value, alpha, beta)
         == Add(MatVec(A, Realize(prev, alpha, beta)), Scale(beta, b))
  {
    var r := CurU(A, prev, b).value;
    MatVecCombine(A, alpha, prev.Vn, beta, prev.ln);
    var lhs := Realize(r, alpha, beta);
    var rhs := Add(MatVec(A, Realize(prev, alpha, beta)), Scale(beta, b));
    forall i | 0 <= i < |A| ensures lhs[i] == rhs[i] {
      assert lhs[i] == alpha * MatVec(A, prev.Vn)[i] + beta * (MatVec(A, prev.ln)[i] + b[i]);
    }
  }

  /** One `e` step at a parameter point: the propagated error plus the
      forcing at the same point. */
  lemma {:induction false} CurErrRealize(A: Mat, prevE: RSet, be: RSet, alpha: real, beta: real)
    requires CurErr(A, prevE, be).Ok?
    ensures Realize(CurErr(A, prevE, be).value, alpha, beta)
         == Add(MatVec(A, Realize(prevE, alpha, beta)), Realize(be, alpha, beta))
  {
    var r := CurErr(A, prevE, be).value;
    MatVecCombine(A, alpha, prevE.Vn, beta, prevE.ln);
    var lhs := Realize(r, alpha, beta);
    var rhs := Add(MatVec(A, Realize(prevE, alpha, beta)), Realize(be, alpha, beta));
    forall i | 0 <= i < |A| ensures lhs[i] == rhs[i] {
      var mv, ml := MatVec(A, prevE.Vn)[i], MatVec(A, prevE.ln)[i];
      assert r.Vn[i] == mv + be.Vn[i] && r.ln[i] == ml + be.ln[i];
      assert lhs[i] == alpha * (mv + be.Vn[i]) + beta * (ml + be.ln[i]);
      assert rhs[i] == (alpha * mv + beta * ml) + (alpha * be.Vn[i] + beta * be.ln[i]);
    }
  }

  /** The error forcing at a parameter point is `invB` applied to the load
      at that point plus the projected previous state minus the projected
      current state. */
  lemma {:induction false} CurBeRealize(pre: RSet, cur: RSet, d: DPde, b: Vec, alpha: real, beta: real)
    requires CurBe(pre, cur, d, b).Ok?
    ensures |b| == |pre.Vn| == |cur.Vn| == |d.xlist| - 2 != 1
    ensures Realize(CurBe(pre, cur, d, b).value, alpha, beta)
         == MatVec(d.invB, Sub(Add(Scale(beta, b), Project(Realize(pre, alpha, beta), d.xlist)),
                               Project(Realize(cur, alpha, beta), d.xlist)))
  {
    var r := CurBe(pre, cur, d, b).value;
    var pV, pL := Project(pre.Vn, d.xlist), Project(pre.ln, d.xlist);
    var cV, cL := Project(cur.Vn, d.xlist), Project(cur.ln, d.xlist);
    var x := Sub(pV, cV);
    var y := Sub(Add(b, pL), cL);
    assert r.Vn == MatVec(d.invB, x) && r.ln == MatVec(d.invB, y);
    MatVecCombine(d.invB, alpha, x, beta, y);
    ProjectCombine(alpha, pre.Vn, beta, pre.ln, d.xlist);
    ProjectCombine(alpha, cur.Vn, beta, cur.ln, d.xlist);
    CombineResidual(alpha, pV, cV, beta, b, pL, cL);
  }

  /** Linearity in the parameters: `u[k]` at `(alpha, beta)` is the state
      the direct simulation reaches at step `k`. */
  lemma {:induction false} USeqRealize(d: DPde, loads: seq<Vec>, alpha: real, beta: real, k: nat)
    requires StepReady(d, loads, k)
    ensures Realize(USeq(d, loads, k), alpha, beta) == Simulate(d, loads, alpha, beta, k)
  {
    if k == 0 {
      CombineZeros(alpha, d.initVector, beta);
    } else {
      USeqRealize(d, loads, alpha, beta, k - 1);
      CurURealize(d.matrixA.value, USeq(d, loads, k - 1), loads[k], alpha, beta);
    }
  }

  /** One pass of `get_dreachset` at a parameter point: the solution moves
      by `A` and the load, the error by `ErrStep` on the realized sets. */
  lemma StepRealize(d: DPde, b: Vec, pu: RSet, pe: RSet, u: RSet, e: RSet, alpha: real, beta: real)
    requires IsStep(d, b, pu, pe, u, e)
    ensures |pu.Vn| == |pu.ln| == |pe.Vn| == |pe.ln| == |u.Vn| == |u.ln| == |e.Vn| == |e.ln| == |b|
    ensures |d.matrixA.value| == |d.invB| == |b| && |d.xlist| == |b| + 2 && |b| != 1
    ensures Cols(d.matrixA.value, |b|) && Cols(d.invB, |b|)
    ensures Realize(u, alpha, beta) == Add(MatVec(d.matrixA.value, Realize(pu, alpha, beta)), Scale(beta, b))
    ensures Realize(e, alpha, beta)
         == ErrStep(d, b, beta, Realize(pe, alpha, beta), Realize(pu, alpha, beta), Realize(u, alpha, beta))
  {
    var A := d.matrixA.value;
    var be := CurBe(pu, u, d, b).value;
    CurURealize(A, pu, b, alpha, beta);
    CurBeRealize(pu, u, d, b, alpha, beta);
    CurErrRealize(A, pe, be, alpha, beta);
  }

  /** Linearity in the parameters along any run of `get_dreachset`: at
      `(alpha, beta)` the solution set of pass `k` is the simulated state
      and the error set is the error recurrence driven by it. */
  lemma {:induction false} RunRealize(d: DPde, loads: seq<Vec>, N: nat, U: seq<RSet>, E: seq<RSet>,
                                      alpha: real, beta: real, k: nat)
    requires ErrReady(d, loads, N) && IsRun(d, loads, U, E) && |U| == N + 1 && k <= N
    ensures Realize(U[k], alpha, beta) == Simulate(d, loads, alpha, beta, k)
    ensures Realize(E[k], alpha, beta) == SimulateErr(d, loads, alpha, beta, k)
  {
    ReadyPrefix(d, loads, N, k);
    if k == 0 {
      var n := Dim(d);
      CombineZeros(alpha, d.initVector, beta);
      CombineZeros(alpha, Zeros(n), beta);
      assert Scale(alpha, Zeros(n)) == Zeros(n);
    } else {
      RunRealize(d, loads, N, U, E, alpha, beta, k - 1);
      StepRealize(d, loads[k], U[k - 1], E[k - 1], U[k], E[k], alpha, beta);
    }
  }

  /** Linearity in the parameters for the error set: `e[k]` at
      `(alpha, beta)` is the error recurrence driven by the simulated
      solution. */
  lemma ESeqRealize(d: DPde, loads: seq<Vec>, alpha: real, beta: real, k: nat)
    requires ErrReady(d, loads, k)
    ensures Realize(ESeq(d, loads, k), alpha, beta) == SimulateErr(d, loads, alpha, beta, k)
  {
    SeqsRun(d, loads, k);
    RunRealize(d, loads, k, USeqs(d, loads, k, k + 1), ESeqs(d, loads, k, k + 1), alpha, beta, k);
  }

  /** Additivity: the bloated set at a parameter point is the sum of the
      solution and error sets there. */
  lemma {:induction false} BloatedRealize(d: DPde, loads: seq<Vec>, alpha: real, beta: real, k: nat)
    requires ErrReady(d, loads, k)
    ensures Realize(Bloated(d, loads, k), alpha, beta)
         == Add(Realize(USeq(d, loads, k), alpha, beta), Realize(ESeq(d, loads, k), alpha, beta))
  {
    var u, e := USeq(d, loads, k), ESeq(d, loads, k);
    CombineAdd(alpha, u.Vn, e.Vn, beta, u.ln, e.ln);
  }

  /** One pass `t >= 1` of `get_dreachset`, from the sets `(pu, pe)` stored
      at pass `t - 1` to the sets `(u, e)` of pass `t`, with load vector `b`. */
  ghost predicate IsStep(d: DPde, b: Vec, pu: RSet, pe: RSet, u: RSet, e: RSet) {
    d.matrixA.Some? &&
    CurU(d.matrixA.value, pu, b) == Ok(u) &&
    var be := CurBe(pu, u, d, b);
    be.Ok? && CurErr(d.matrixA.value, pe, be.value) == Ok(e)
  }

  /** `U` and `E` are the solution and error sets of the passes `0` to
      `|U| - 1` of `get_dreachset`. */
  ghost predicate IsRun(d: DPde, loads: seq<Vec>, U: seq<RSet>, E: seq<RSet>) {
    |U| == |E| >= 1 && |loads| >= |U| &&
    U[0] == RSet(d.initVector, Zeros(Dim(d)), d.alphaRange, d.betaRange) &&
    E[0] == RSet(Zeros(Dim(d)), Zeros(Dim(d)), d.alphaRange, d.betaRange) &&
    (forall k :: 0 <= k < |U| ==> HasRows(U[k], Dim(d)) && HasRows(E[k], Dim(d))) &&
    forall k :: 1 <= k < |U| ==> IsStep(d, loads[k], U[k - 1], E[k - 1], U[k], E[k])
  }

  /** The first `t` sets of the solution and error sequences. */
  ghost function USeqs(d: DPde, loads: seq<Vec>, N: nat, t: nat): (r: seq<RSet>)
    requires ErrReady(d, loads, N) && t <= N + 1
    ensures |r| == t
  {
    seq(t, k requires 0 <= k < t => USeq(d, loads, k))
  }

  ghost function ESeqs(d: DPde, loads: seq<Vec>, N: nat, t: nat): (r: seq<RSet>)
    requires ErrReady(d, loads, N) && t <= N + 1
    ensures |r| == t
  {
    seq(t, k requires 0 <= k < t => ESeq(d, loads, k))
  }

  /** Pass `k` of the recurrences is one step of `get_dreachset`. */
  lemma SeqStep(d: DPde, loads: seq<Vec>, k: nat)
    requires 1 <= k && ErrReady(d, loads, k)
    ensures IsStep(d, loads[k], USeq(d, loads, k - 1), ESeq(d, loads, k - 1), USeq(d, loads, k), ESeq(d, loads, k))
  {
    assert BeSeq(d, loads, k) == CurBe(USeq(d, loads, k - 1), USeq(d, loads, k), d, loads[k]).value;
  }

  /** The sequences `USeq` and `ESeq` are a run of `get_dreachset`. */
  lemma SeqsRun(d: DPde, loads: seq<Vec>, N: nat)
    requires ErrReady(d, loads, N)
    ensures IsRun(d, loads, USeqs(d, loads, N, N + 1), ESeqs(d, loads, N, N + 1))
  {
    var U, E := USeqs(d, loads, N, N + 1), ESeqs(d, loads, N, N + 1);
    forall k | 1 <= k < |U| ensures IsStep(d, loads[k], U[k - 1], E[k - 1], U[k], E[k]) {
      SeqStep(d, loads, k);
    }
  }

  /** The passes `t >= 1` of `get_dreachset`: `get_cur_u_dreachset` and
      `get_cur_err_dreachset` each build a new object from the sets stored
      at pass `t - 1`, with the forcing `get_cur_be` in between. */
  method NextSets(d: DPde, b: Vec, pu: DReachSet, pe: DReachSet, ghost u1: RSet, ghost e1: RSet)
    returns (u: DReachSet, e: DReachSet)
    requires IsStep(d, b, pu.Value(), pe.Value(), u1, e1)
    ensures fresh(u) && fresh(e)
    ensures u.Value() == u1 && e.Value() == e1
  {
    u := new DReachSet.Of(CurU(d.matrixA.value, pu.Value(), b).value);
    var be := CurBe(pu.Value(), u.Value(), d, b).value;
    e := new DReachSet.Of(CurErr(d.matrixA.value, pe.Value(), be).value);
  }

  /** The loop of `get_dreachset`, against any run `(U, E)` of its
      recurrences. The bloated list holds one object, appended on every
      pass and overwritten on every pass, so each of its entries is that
      object holding the last sum `u[N] + e[N]`. */
  method DReachLists(d: DPde, loads: seq<Vec>, N: nat, ghost U: seq<RSet>, ghost E: seq<RSet>)
    returns (us: seq<DReachSet>, es: seq<DReachSet>, bs: seq<DReachSet>)
    requires IsRun(d, loads, U, E) && |U| == N + 1
    ensures |us| == N + 1 && |es| == N + 1 && |bs| == N + 1
    ensures forall k :: 0 <= k <= N ==> us[k].Value() == U[k] && es[k].Value() == E[k]
    ensures forall k :: 0 <= k <= N ==> bs[k] == bs[N]
    ensures bs[N].Value() == RSet(Add(U[N].Vn, E[N].Vn), Add(U[N].ln, E[N].ln), d.alphaRange, d.betaRange)
  {
    us, es, bs := [], [], [];
    var u := new DReachSet();
    var e := new DReachSet();
    var bl := new DReachSet();
    var t := 0;
    while t <= N
      invariant 0 <= t <= N + 1
      invariant |us| == t && |es| == t && |bs| == t
      invariant forall k :: 0 <= k < t ==> us[k].Value() == U[k] && es[k].Value() == E[k]
      invariant forall k :: 0 <= k < t ==> bs[k] == bl && us[k] != bl && es[k] != bl
      invariant t > 0 ==> bl.Value() == RSet(Add(U[t - 1].Vn, E[t - 1].Vn), Add(U[t - 1].ln, E[t - 1].ln),
                                            d.alphaRange, d.betaRange)
      invariant fresh(u) && fresh(e) && fresh(bl)
      invariant t == 0 ==> u != bl && e != bl && u != e
    {
      if t == 0 {
        u.SetReachSet(d.alphaRange, d.betaRange, d.initVector, Zeros(Dim(d)));
        e.SetReachSet(d.alphaRange, d.betaRange, Zeros(Dim(d)), Zeros(Dim(d)));
      } else {
        u, e := NextSets(d, loads[t], us[t - 1], es[t - 1], U[t], E[t]);
      }
      bl.SetReachSet(d.alphaRange, d.betaRange, Add(u.Vn, e.Vn), Add(u.ln, e.ln));
      us, es, bs := us + [u], es + [e], bs + [bl];
      t := t + 1;
    }
  }

  /** `get_dreachset`: the three lists of `N + 1` sets, holding the
      solution sets `USeq`, the error sets `ESeq` and, in every entry, the
      one bloated object with the last sum `Bloated(N)`. On a mesh with a
      single interior node the stencil of the first pass reads `V[1]`,
      which does not exist, and nothing is returned. */
  method GetDReachSet(d: DPde, loads: seq<Vec>, N: nat)
    returns (r: Result<(seq<DReachSet>, seq<DReachSet>, seq<DReachSet>)>)
    requires StepReady(d, loads, N) && (N >= 1 ==> MeshFits(d))
    ensures r.Failure? <==> N >= 1 && Dim(d) == 1
    ensures r.Failure? ==> r.fault == IndexOutOfRange
    ensures r.Ok? ==>
      var (us, es, bs) := r.value;
      ErrReady(d, loads, N) && |us| == N + 1 && |es| == N + 1 && |bs| == N + 1 &&
      (forall k :: 0 <= k <= N ==> us[k].Value() == USeq(d, loads, k)) &&
      (forall k :: 0 <= k <= N ==> es[k].Value() == ESeq(d, loads, k)) &&
      (forall k :: 0 <= k <= N ==> bs[k] == bs[N]) &&
      bs[N].Value() == Bloated(d, loads, N)
  {
    if N >= 1 && Dim(d) == 1 {
      // the fault of `get_V1_l1` in pass 1, raised before any list is returned
      assert V1L1(USeq(d, loads, 0).Vn, USeq(d, loads, 0).ln, d.xlist) == Failure(IndexOutOfRange);
      return Failure(IndexOutOfRange);
    }
    ghost var U, E := USeqs(d, loads, N, N + 1), ESeqs(d, loads, N, N + 1);
    SeqsRun(d, loads, N);
    var us, es, bs := DReachLists(d, loads, N, U, E);
    r := Ok((us, es, bs));
  }

  /** The two loops of `get_interpolationset` over the stored objects: the
      in-space set of every object, then the space-time set of every pair
      of consecutive in-space sets. */
  method InterpolationLists(xlist: Vec, dt: real, us: seq<DReachSet>, es: seq<DReachSet>, bs: seq<DReachSet>)
    returns (uIn: seq<InSpaceSet>, eIn: seq<InSpaceSet>, blIn: seq<InSpaceSet>,
             uST: seq<SpaceTimeSet>, eST: seq<SpaceTimeSet>, blST: seq<SpaceTimeSet>)
    requires |us| >= 1 && |es| == |us| && |bs| == |us|
    ensures |uIn| == |us| && |eIn| == |us| && |blIn| == |us|
    ensures |uST| == |us| - 1 && |eST| == |us| - 1 && |blST| == |us| - 1
    ensures forall k :: 0 <= k < |us| ==>
      uIn[k] == InSpace(xlist, us[k].Vn, us[k].ln) &&
      eIn[k] == InSpace(xlist, es[k].Vn, es[k].ln) &&
      blIn[k] == InSpace(xlist, bs[k].Vn, bs[k].ln)
    ensures forall k :: 1 <= k < |us| ==>
      uST[k - 1] == SpaceTime(dt, k, uIn[k - 1], uIn[k]) &&
      eST[k - 1] == SpaceTime(dt, k, eIn[k - 1], eIn[k]) &&
      blST[k - 1] == SpaceTime(dt, k, blIn[k - 1], blIn[k])
  {
    uIn, eIn, blIn := InSpaceLoop(xlist, us, es, bs);
    uST, eST, blST := SpaceTimeLoop(dt, uIn, eIn, blIn);
  }

  /** The first loop of `get_interpolationset`: the in-space set of every
      stored object, for the three lists at once. */
  method InSpaceLoop(xlist: Vec, us: seq<DReachSet>, es: seq<DReachSet>, bs: seq<DReachSet>)
    returns (uIn: seq<InSpaceSet>, eIn: seq<InSpaceSet>, blIn: seq<InSpaceSet>)
    requires |es| == |us| && |bs| == |us|
    ensures |uIn| == |us| && |eIn| == |us| && |blIn| == |us|
    ensures forall k :: 0 <= k < |us| ==>
      uIn[k] == InSpace(xlist, us[k].Vn, us[k].ln) &&
      eIn[k] == InSpace(xlist, es[k].Vn, es[k].ln) &&
      blIn[k] == InSpace(xlist, bs[k].Vn, bs[k].ln)
  {
    var n := |us|;
    uIn, eIn, blIn := [], [], [];
    var i := 0;
    while i < n
      invariant 0 <= i <= n
      invariant |uIn| == i && |eIn| == i && |blIn| == i
      invariant forall k :: 0 <= k < i ==> uIn[k] == InSpace(xlist, us[k].Vn, us[k].ln)
      invariant forall k :: 0 <= k < i ==> eIn[k] == InSpace(xlist, es[k].Vn, es[k].ln)
      invariant forall k :: 0 <= k < i ==> blIn[k] == InSpace(xlist, bs[k].Vn, bs[k].ln)
    {
      uIn := uIn + [InSpace(xlist, us[i].Vn, us[i].ln)];
      eIn := eIn + [InSpace(xlist, es[i].Vn, es[i].ln)];
      blIn := blIn + [InSpace(xlist, bs[i].Vn, bs[i].ln)];
      i := i + 1;
    }
  }

  /** The second loop of `get_interpolationset`: the space-time set of
      every pair of consecutive in-space sets, step `k` for the pair
      `k - 1`, `k`. */
  method SpaceTimeLoop(dt: real, uIn: seq<InSpaceSet>, eIn: seq<InSpaceSet>, blIn: seq<InSpaceSet>)
    returns (uST: seq<SpaceTimeSet>, eST: seq<SpaceTimeSet>, blST: seq<SpaceTimeSet>)
    requires |uIn| >= 1 && |eIn| == |uIn| && |blIn| == |uIn|
    ensures |uST| == |uIn| - 1 && |eST| == |uIn| - 1 && |blST| == |uIn| - 1
    ensures forall k :: 1 <= k < |uIn| ==>
      uST[k - 1] == SpaceTime(dt, k, uIn[k - 1], uIn[k]) &&
      eST[k - 1] == SpaceTime(dt, k, eIn[k - 1], eIn[k]) &&
      blST[k - 1] == SpaceTime(dt, k, blIn[k - 1], blIn[k])
  {
    var n := |uIn|;
    uST, eST, blST := [], [], [];
    var i := 1;
    while i < n
      invariant 1 <= i <= n
      invariant |uST| == i - 1 && |eST| == i - 1 && |blST| == i - 1
      invariant forall k :: 1 <= k < i ==> uST[k - 1] == SpaceTime(dt, k, uIn[k - 1], uIn[k])
      invariant forall k :: 1 <= k < i ==> eST[k - 1] == SpaceTime(dt, k, eIn[k - 1], eIn[k])
      invariant forall k :: 1 <= k < i ==> blST[k - 1] == SpaceTime(dt, k, blIn[k - 1], blIn[k])
    {
      uST := uST + [SpaceTime(dt, i, uIn[i - 1], uIn[i])];
      eST := eST + [SpaceTime(dt, i, eIn[i - 1], eIn[i])];
      blST := blST + [SpaceTime(dt, i, blIn[i - 1], blIn[i])];
      i := i + 1;
    }
  }

  /** The six lists `get_interpolationset` returns. */
  datatype Interpolations = Interpolations(
    uIn: seq<InSpaceSet>, eIn: seq<InSpaceSet>, blIn: seq<InSpaceSet>,
    uST: seq<SpaceTimeSet>, eST: seq<SpaceTimeSet>, blST: seq<SpaceTimeSet>)

  /** `get_interpolationset`: the in-space set of every stored set (`N + 1`
      of each) and the space-time set of every pair of consecutive in-space
      sets (`N` of each). Because every bloated entry is the same object,
      every bloated in-space set is built from the last sum. The fault of
      `get_dreachset` is passed on. */
  method GetInterpolationSet(d: DPde, loads: seq<Vec>, N: nat) returns (r: Result<Interpolations>)
    requires StepReady(d, loads, N) && (N >= 1 ==> MeshFits(d))
    ensures r.Failure? <==> N >= 1 && Dim(d) == 1
    ensures r.Failure? ==> r.fault == IndexOutOfRange
    ensures r.Ok? ==>
      var L := r.value;
      ErrReady(d, loads, N) &&
      |L.uIn| == N + 1 && |L.eIn| == N + 1 && |L.blIn| == N + 1 &&
      |L.uST| == N && |L.eST| == N && |L.blST| == N &&
      (forall k :: 0 <= k <= N ==>
        L.uIn[k] == InSpace(d.xlist, USeq(d, loads, k).Vn, USeq(d, loads, k).ln) &&
        L.eIn[k] == InSpace(d.xlist, ESeq(d, loads, k).Vn, ESeq(d, loads, k).ln) &&
        L.blIn[k] == InSpace(d.xlist, Bloated(d, loads, N).Vn, Bloated(d, loads, N).ln)) &&
      (forall k :: 1 <= k <= N ==>
        L.uST[k - 1] == SpaceTime(d.timeStep, k, L.uIn[k - 1], L.uIn[k]) &&
        L.eST[k - 1] == SpaceTime(d.timeStep, k, L.eIn[k - 1], L.eIn[k]) &&
        L.blST[k - 1] == SpaceTime(d.timeStep, k, L.blIn[k - 1], L.blIn[k]))
  {
    var sets := GetDReachSet(d, loads, N);
    if sets.Failure? {
      return Failure(sets.fault);
    }
    var (us, es, bs) := sets.value;
    var uIn, eIn, blIn, uST, eST, blST := InterpolationLists(d.xlist, d.timeStep, us, es, bs);
    r := Ok(Interpolations(uIn, eIn, blIn, uST, eST, blST));
  }
}
