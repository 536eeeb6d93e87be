/** The sets the `Verifier` computes in its own step loops, and the
    interpolation lists it builds from them. */
module CurrentSets {
  import opened LinAlg
  import opened ReachSets
  import opened Automaton
  import opened Interp
  import opened Assembler

  /** The set `(current_V, current_l)` after step `k` of the verifier's
      loops: `(init_vector, 0)`, then `current_V = A·current_V` and
      `current_l = b[k] + A·current_l`, with the automaton's ranges. */
  function Current(d: DPde, loads: seq<Vec>, k: nat): (r: RSet)
    requires StepReady(d, loads, k)
    ensures HasRows(r, Dim(d))
  {
    if k == 0 then RSet(d.initVector, Zeros(Dim(d)), d.alphaRange, d.betaRange)
    else
      var p := Current(d, loads, k - 1);
      RSet(MatVec(d.matrixA.value, p.Vn), Add(loads[k], MatVec(d.matrixA.value, p.ln)),
           d.alphaRange, d.betaRange)
  }

  /** The verifier's loops and the assembler's `get_dreachset` compute the
      same solution sets. */
  lemma {:induction false} CurrentIsUSeq(d: DPde, loads: seq<Vec>, k: nat)
    requires StepReady(d, loads, k)
    ensures Current(d, loads, k) == USeq(d, loads, k)
  {
    if k > 0 {
      CurrentIsUSeq(d, loads, k - 1);
      var p := USeq(d, loads, k - 1);
      AddComm(loads[k], MatVec(d.matrixA.value, p.ln));
    }
  }

  /** The verifier's set of step `k` at `(alpha, beta)` is the state of
      the direct simulation. */
  lemma CurrentRealize(d: DPde, loads: seq<Vec>, alpha: real, beta: real, k: nat)
    requires StepReady(d, loads, k)
    ensures Realize(Current(d, loads, k), alpha, beta) == Simulate(d, loads, alpha, beta, k)
  {
    CurrentIsUSeq(d, loads, k);
    USeqRealize(d, loads, alpha, beta, k);
  }

  /** The sets of steps `0` to `N`, in order. */
  function CurrentRun(d: DPde, loads: seq<Vec>, N: nat): (r: seq<RSet>)
    requires StepReady(d, loads, N)
    ensures |r| == N + 1
  {
    seq(N + 1, k requires 0 <= k <= N => Current(d, loads, k))
  }

  /** `S` is a run of the verifier's recurrence: each entry follows from
      the one before by `A` and the load of its step. */
  ghost predicate IsCurrentRun(d: DPde, loads: seq<Vec>, S: seq<RSet>) {
    1 <= |S| <= |loads| && MatrixShaped(d) && (|S| >= 2 ==> d.matrixA.Some?) &&
    S[0] == RSet(d.initVector, Zeros(Dim(d)), d.alphaRange, d.betaRange) &&
    (forall k :: 0 <= k < |S| ==> HasRows(S[k], Dim(d))) &&
    forall k :: 1 <= k < |S| ==>
      |loads[k]| == Dim(d) &&
      S[k] == RSet(MatVec(d.matrixA.value, S[k - 1].Vn), Add(loads[k], MatVec(d.matrixA.value, S[k - 1].ln)),
                   d.alphaRange, d.betaRange)
  }

  lemma CurrentRunIsRun(d: DPde, loads: seq<Vec>, N: nat)
    requires StepReady(d, loads, N)
    ensures IsCurrentRun(d, loads, CurrentRun(d, loads, N))
  {
    var S := CurrentRun(d, loads, N);
    forall k | 1 <= k < |S|
      ensures S[k] == RSet(MatVec(d.matrixA.value, S[k - 1].Vn), Add(loads[k], MatVec(d.matrixA.value, S[k - 1].ln)),
                           d.alphaRange, d.betaRange)
    {
      assert S[k] == Current(d, loads, k);
    }
  }

  /** The in-space sets `interpolate_in_space(xlist, V, l)` of the sets of `S`. */
  function InSpaceOver(xlist: Vec, S: seq<RSet>): (r: seq<InSpaceSet>)
    ensures |r| == |S| && forall k :: 0 <= k < |S| ==> r[k] == InSpace(xlist, S[k].Vn, S[k].ln)
  {
    seq(|S|, k requires 0 <= k < |S| => InSpace(xlist, S[k].Vn, S[k].ln))
  }

  /** Appending a step set appends its in-space set, and nothing before
      it changes. */
  lemma InSpaceOverAppend(xlist: Vec, S: seq<RSet>, s: RSet)
    ensures InSpaceOver(xlist, S + [s]) == InSpaceOver(xlist, S) + [InSpace(xlist, s.Vn, s.ln)]
  {
    var a, b := InSpaceOver(xlist, S + [s]), InSpaceOver(xlist, S) + [InSpace(xlist, s.Vn, s.ln)];
    forall k | 0 <= k < |S| + 1 ensures a[k] == b[k] {
      if k < |S| {
        assert (S + [s])[k] == S[k];
      }
    }
  }

  /** The space-time sets `increm_interpolation(dt, i, L[i-1], L[i])` for
      `i` from `1` to `m`: positions are counted from the head of `L`. */
  function SpaceTimeOver(dt: real, L: seq<InSpaceSet>, m: nat): (r: seq<SpaceTimeSet>)
    requires |L| > m
    ensures |r| == m
  {
    seq(m, j requires 0 <= j < m => SpaceTime(dt, j + 1, L[j], L[j + 1]))
  }

  /** On a verifier with empty interpolation lists, space-time set `j`
      spans the steps `j` and `j + 1` of this call. */
  lemma FirstCallPairsSteps(dt: real, xlist: Vec, S: seq<RSet>, j: nat)
    requires j + 1 < |S|
    ensures SpaceTimeOver(dt, [] + InSpaceOver(xlist, S), |S| - 1)[j]
         == SpaceTime(dt, j + 1, InSpace(xlist, S[j].Vn, S[j].ln), InSpace(xlist, S[j + 1].Vn, S[j + 1].ln))
  {
    assert [] + InSpaceOver(xlist, S) == InSpaceOver(xlist, S);
  }

  /** The verifier's in-space sets are those of the assembler's solution
      sets `u[k]`. */
  lemma InSpaceMatchesAssembler(d: DPde, loads: seq<Vec>, N: nat, k: nat)
    requires StepReady(d, loads, N) && k <= N
    ensures InSpaceOver(d.xlist, CurrentRun(d, loads, N))[k]
         == InSpace(d.xlist, USeq(d, loads, k).Vn, USeq(d, loads, k).ln)
  {
    CurrentIsUSeq(d, loads, k);
  }

  /** Appending one in-space set extends the space-time sets by the one
      that pairs positions `m` and `m + 1`. */
  lemma SpaceTimeOverStep(dt: real, L: seq<InSpaceSet>, x: InSpaceSet, m: nat)
    requires |L| > m
    ensures SpaceTimeOver(dt, L + [x], m + 1)
         == SpaceTimeOver(dt, L, m) + [SpaceTime(dt, m + 1, (L + [x])[m], (L + [x])[m + 1])]
  {
    var a := SpaceTimeOver(dt, L + [x], m + 1);
    var b := SpaceTimeOver(dt, L, m) + [SpaceTime(dt, m + 1, (L + [x])[m], (L + [x])[m + 1])];
    forall j | 0 <= j < m + 1 ensures a[j] == b[j] {
      if j < m {
        assert (L + [x])[j] == L[j] && (L + [x])[j + 1] == L[j + 1];
      }
    }
  }

  /** When earlier calls left at least `N + 1` in-space sets, a new call's
      space-time sets pair those earlier entries only: none of the sets
      it has just computed takes part. */
  lemma RepeatCallPairsOldEntries(dt: real, L: seq<InSpaceSet>, R: seq<InSpaceSet>, N: nat)
    requires |L| >= N + 1
    ensures SpaceTimeOver(dt, L + R, N) == SpaceTimeOver(dt, L, N)
  {
    var a, b := SpaceTimeOver(dt, L + R, N), SpaceTimeOver(dt, L, N);
    forall j | 0 <= j < N ensures a[j] == b[j] {
      assert (L + R)[j] == L[j] && (L + R)[j + 1] == L[j + 1];
    }
  }
}
