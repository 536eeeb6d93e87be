/** The verifier's second route to the error sets: the residuals `r(u)` of
    consecutive stored solution sets, and the error recurrence
    `e[0] = invB·r[0]`, `e[i] = invB·r[i] + A·e[i-1]` driven by them. */
module ErrorPath {
  import opened LinAlg
  import opened Wrappers
  import opened ReachSets
  import opened Automaton
  import opened Stencil
  import opened Assembler

  /** The residual of `compute_residul_r_u` for the stored sets `prev` and
      `cur` and the cached forcing vector `b`: `V1(prev) - V1(cur)` and
      `b + l1(prev) - l1(cur)`. Its ranges are never set. */
  function Residual(xlist: Vec, b: Vec, prev: RSet, cur: RSet): (r: RSet)
    requires HasRows(prev, |b|) && HasRows(cur, |b|) && |xlist| == |b| + 2 && |b| != 1
    ensures HasRows(r, |b|)
  {
    RSet(Sub(Project(prev.Vn, xlist), Project(cur.Vn, xlist)),
         Sub(Add(b, Project(prev.ln, xlist)), Project(cur.ln, xlist)), None, None)
  }

  /** Stored sets `T` fit the stencil on `xlist` (a row per interior node
      and not a single one), and each step from 1 on has a forcing vector
      of that size. */
  predicate SetsFit(xlist: Vec, vectorB: seq<Vec>, T: seq<RSet>) {
    |xlist| >= 2 && |xlist| != 3 && |vectorB| >= |T| &&
    forall k :: 0 <= k < |T| ==> HasRows(T[k], |xlist| - 2) && (k >= 1 ==> |vectorB[k]| == |xlist| - 2)
  }

  /** The residual of the last two of the stored sets `T`. */
  function LastResidual(xlist: Vec, vectorB: seq<Vec>, T: seq<RSet>): (r: RSet)
    requires |T| >= 2 && SetsFit(xlist, vectorB, T)
    ensures HasRows(r, |xlist| - 2) && r.alphaRange.None? && r.betaRange.None?
  {
    Residual(xlist, vectorB[|T| - 1], T[|T| - 2], T[|T| - 1])
  }

  /** The residual of a set with itself keeps only the forcing vector. */
  lemma ResidualOfSameSet(xlist: Vec, b: Vec, s: RSet)
    requires HasRows(s, |b|) && |xlist| == |b| + 2 && |b| != 1
    ensures Residual(xlist, b, s, s) == RSet(Zeros(|b|), b, None, None)
  {
    var r := Residual(xlist, b, s, s);
    assert r.Vn == Zeros(|b|);
    assert r.ln == b;
  }

  /** What the error recurrence needs: residuals with a row per interior
      mesh node, a square inverse mass matrix of that size, and, from the
      second residual on, a square transition matrix of that size. */
  predicate ResidualsShaped(d: DPde, rs: seq<RSet>) {
    |d.xlist| >= 2 &&
    var m := |d.xlist| - 2;
    Shaped(d.invB, m, m) &&
    (|rs| >= 2 ==> d.matrixA.Some? && Shaped(d.matrixA.value, m, m)) &&
    forall k :: 0 <= k < |rs| ==> HasRows(rs[k], m)
  }

  /** Error set `j` of `get_error_dreach_set`, with the automaton's ranges. */
  function AltErr(d: DPde, rs: seq<RSet>, j: nat): (r: RSet)
    requires ResidualsShaped(d, rs) && j < |rs|
    ensures HasRows(r, |d.xlist| - 2)
    ensures r.alphaRange == d.alphaRange && r.betaRange == d.betaRange
  {
    var r := rs[j];
    if j == 0 then RSet(MatVec(d.invB, r.Vn), MatVec(d.invB, r.ln), d.alphaRange, d.betaRange)
    else
      var p := AltErr(d, rs, j - 1);
      RSet(Add(MatVec(d.invB, r.Vn), MatVec(d.matrixA.value, p.Vn)),
           Add(MatVec(d.invB, r.ln), MatVec(d.matrixA.value, p.ln)),
           d.alphaRange, d.betaRange)
  }

  /** All error sets of the residual route, in order. */
  function AltErrs(d: DPde, rs: seq<RSet>): (r: seq<RSet>)
    requires ResidualsShaped(d, rs)
    ensures |r| == |rs| && forall j :: 0 <= j < |rs| ==> r[j] == AltErr(d, rs, j)
  {
    seq(|rs|, j requires 0 <= j < |rs| => AltErr(d, rs, j))
  }

  /** `E` follows the error recurrence driven by `rs`, one step at a time. */
  ghost predicate IsErrRun(d: DPde, rs: seq<RSet>, E: seq<RSet>) {
    ResidualsShaped(d, rs) && 1 <= |E| == |rs| &&
    E[0] == RSet(MatVec(d.invB, rs[0].Vn), MatVec(d.invB, rs[0].ln), d.alphaRange, d.betaRange) &&
    (forall j :: 0 <= j < |E| ==> HasRows(E[j], |d.xlist| - 2)) &&
    forall j :: 1 <= j < |E| ==>
      E[j] == RSet(Add(MatVec(d.invB, rs[j].Vn), MatVec(d.matrixA.value, E[j - 1].Vn)),
                   Add(MatVec(d.invB, rs[j].ln), MatVec(d.matrixA.value, E[j - 1].ln)),
                   d.alphaRange, d.betaRange)
  }

  /** The error sets of the residual route are a run of the recurrence. */
  lemma AltErrsIsErrRun(d: DPde, rs: seq<RSet>)
    requires ResidualsShaped(d, rs) && |rs| >= 1
    ensures IsErrRun(d, rs, AltErrs(d, rs))
  {
  }

  /** Residuals with no `alpha` part give error sets with no `alpha` part. */
  lemma {:induction false} AltErrZeroVn(d: DPde, rs: seq<RSet>, j: nat)
    requires ResidualsShaped(d, rs) && j < |rs|
    requires forall k :: 0 <= k < |rs| ==> rs[k].Vn == Zeros(|d.xlist| - 2)
    ensures AltErr(d, rs, j).Vn == Zeros(|d.xlist| - 2)
  {
    var m := |d.xlist| - 2;
    MatVecZeros(d.invB, m);
    if j > 0 {
      AltErrZeroVn(d, rs, j - 1);
      MatVecZeros(d.matrixA.value, m);
      AddZeros(Zeros(m));
    }
  }

  /** The residuals of the consecutive sets of a run of the assembler, with
      the run's own load vectors as the forcing vectors. */
  function RunResiduals(d: DPde, loads: seq<Vec>, U: seq<RSet>): (r: seq<RSet>)
    requires MeshShaped(d) && 1 <= |U| <= |loads|
    requires forall k :: 0 <= k < |U| ==> HasRows(U[k], Dim(d))
    requires forall k :: 1 <= k < |U| ==> |loads[k]| == Dim(d)
    ensures |r| == |U| - 1
    ensures forall k :: 0 <= k < |r| ==> HasRows(r[k], Dim(d))
  {
    seq(|U| - 1, j requires 0 <= j < |U| - 1 => Residual(d.xlist, loads[j + 1], U[j], U[j + 1]))
  }

  /** One pass of `get_dreachset` takes the error set `pe` to
      `invB·r + A·pe`, where `r` is the residual of the pass's two
      solution sets and `b` its load vector. */
  lemma StepErrorFromResidual(d: DPde, b: Vec, pu: RSet, pe: RSet, u: RSet, e: RSet)
    requires IsStep(d, b, pu, pe, u, e) && MeshShaped(d) && |b| == Dim(d)
    requires HasRows(pu, Dim(d)) && HasRows(u, Dim(d)) && HasRows(pe, Dim(d))
    ensures Cols(d.matrixA.value, Dim(d))
    ensures var r, A := Residual(d.xlist, b, pu, u), d.matrixA.value;
      e == RSet(Add(MatVec(d.invB, r.Vn), MatVec(A, pe.Vn)), Add(MatVec(d.invB, r.ln), MatVec(A, pe.ln)),
                pe.alphaRange, pe.betaRange)
  {
    var A := d.matrixA.value;
    var r := Residual(d.xlist, b, pu, u);
    var be := CurBe(pu, u, d, b).value;
    assert be.Vn == MatVec(d.invB, r.Vn) && be.ln == MatVec(d.invB, r.ln);
    AddComm(MatVec(A, pe.Vn), be.Vn);
    AddComm(MatVec(A, pe.ln), be.ln);
  }

  /** Along any run of the assembler, the residual route reaches the
      assembler's error sets, one step later: `AltErr[j] == e[j + 1]`. */
  lemma {:induction false} RunErrorPaths(d: DPde, loads: seq<Vec>, U: seq<RSet>, E: seq<RSet>, j: nat)
    requires IsRun(d, loads, U, E) && MeshShaped(d) && j + 1 < |U|
    ensures forall k :: 1 <= k < |U| ==> |loads[k]| == Dim(d)
    ensures ResidualsShaped(d, RunResiduals(d, loads, U))
    ensures AltErr(d, RunResiduals(d, loads, U), j) == E[j + 1]
  {
    assert forall k :: 1 <= k < |U| ==> |loads[k]| == Dim(d) by {
      forall k | 1 <= k < |U| ensures |loads[k]| == Dim(d) {
        assert IsStep(d, loads[k], U[k - 1], E[k - 1], U[k], E[k]);
      }
    }
    var rs := RunResiduals(d, loads, U);
    var A := d.matrixA.value;
    assert IsStep(d, loads[j + 1], U[j], E[j], U[j + 1], E[j + 1]);
    StepErrorFromResidual(d, loads[j + 1], U[j], E[j], U[j + 1], E[j + 1]);
    assert rs[j] == Residual(d.xlist, loads[j + 1], U[j], U[j + 1]);
    if j == 0 {
      MatVecZeros(A, Dim(d));
      AddZeros(MatVec(d.invB, rs[0].Vn));
      AddZeros(MatVec(d.invB, rs[0].ln));
    } else {
      RunErrorPaths(d, loads, U, E, j - 1);
    }
  }

  /** The residuals the residual route evidently intends: those of the
      assembler's consecutive solution sets `u[j]`, `u[j + 1]`, each with
      its own step's load. */
  ghost function IntendedResiduals(d: DPde, loads: seq<Vec>, N: nat): (r: seq<RSet>)
    requires N >= 1 && ErrReady(d, loads, N)
    ensures |r| == N
  {
    RunResiduals(d, loads, USeqs(d, loads, N, N + 1))
  }

  /** With the intended residuals, both routes compute the same error sets:
      error set `j` of the residual route is `e[j + 1]` of the assembler. */
  lemma TwoPathEquivalence(d: DPde, loads: seq<Vec>, N: nat, j: nat)
    requires N >= 1 && ErrReady(d, loads, N) && j < N
    ensures ResidualsShaped(d, IntendedResiduals(d, loads, N))
    ensures AltErr(d, IntendedResiduals(d, loads, N), j) == ESeq(d, loads, j + 1)
  {
    SeqsRun(d, loads, N);
    RunErrorPaths(d, loads, USeqs(d, loads, N, N + 1), ESeqs(d, loads, N, N + 1), j);
  }

  /** As written, every entry of the residual list is one object, and the
      stored sets it is computed from are one object too: the residual of
      a set with itself keeps only the forcing vector, and the error sets
      driven by copies of it have no `alpha` part at all. */
  lemma AliasedErrorPath(d: DPde, b: Vec, s: RSet, n: nat, j: nat)
    requires |d.xlist| == |b| + 2 && |b| != 1 && HasRows(s, |b|) && j < n
    requires ResidualsShaped(d, Copies(Residual(d.xlist, b, s, s), n))
    ensures Residual(d.xlist, b, s, s) == RSet(Zeros(|b|), b, None, None)
    ensures AltErr(d, Copies(Residual(d.xlist, b, s, s), n), j).Vn == Zeros(|b|)
  {
    ResidualOfSameSet(d.xlist, b, s);
    AltErrZeroVn(d, Copies(Residual(d.xlist, b, s, s), n), j);
  }

  /** `n` copies of the residual `s`: the residual list one reused object
      leaves behind. */
  function Copies(s: RSet, n: nat): (r: seq<RSet>)
    ensures |r| == n && forall k :: 0 <= k < n ==> r[k] == s
  {
    seq(n, k => s)
  }

  /** A two-node mesh `0, 1, 2, 3`, `A = 2·I`, `invB = I`, `u[0] = (1, 0)`
      and zero loads. */
  function Example(): DPde {
    DPde(Some([[2.0, 0.0], [0.0, 2.0]]), [0.0, 1.0, 2.0, 3.0], 1.0, [1.0, 0.0],
         [[1.0, 0.0], [0.0, 1.0]], None, None, None)
  }

  /** On `Example`, the assembler's first error set does depend on
      `alpha`: its `Vn` is `(-2/3, -1/6)`, not zero. */
  lemma ExampleErrorHasAlpha()
    ensures ErrReady(Example(), [[0.0, 0.0], [0.0, 0.0]], 1)
    ensures ESeq(Example(), [[0.0, 0.0], [0.0, 0.0]], 1).Vn == [-2.0 / 3.0, -1.0 / 6.0]
  {
    var d, loads := Example(), [[0.0, 0.0], [0.0, 0.0]];
    var A := d.matrixA.value;
    var u0 := USeq(d, loads, 0);
    assert u0.Vn == [1.0, 0.0];
    var u1 := USeq(d, loads, 1);
    assert Dot(A[0], [1.0, 0.0]) == 2.0 && Dot(A[1], [1.0, 0.0]) == 0.0;
    assert u1.Vn == [2.0, 0.0];
    var p0, p1 := Project(u0.Vn, d.xlist), Project(u1.Vn, d.xlist);
    assert p0 == [2.0 / 3.0, 1.0 / 6.0];
    assert p1 == [4.0 / 3.0, 1.0 / 3.0];
    var diff := Sub(p0, p1);
    assert diff == [-2.0 / 3.0, -1.0 / 6.0];
    assert Dot(d.invB[0], diff) == -2.0 / 3.0 && Dot(d.invB[1], diff) == -1.0 / 6.0;
    var be := BeSeq(d, loads, 1);
    assert be.Vn == [-2.0 / 3.0, -1.0 / 6.0];
    MatVecZeros(A, 2);
    AddZeros(be.Vn);
  }
}
