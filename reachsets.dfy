/** The parametric reach set `{ alpha·Vn + beta·ln : alpha in alphaRange,
    beta in betaRange }`, as a value (`RSet`) and as the mutable object
    the engine appends to its lists (`DReachSet`). */
module ReachSets {
  import opened LinAlg
  import opened Wrappers

  /** A closed interval `[lo, hi]` for one of the two parameters. */
  datatype Range = Range(lo: real, hi: real)

  datatype RSet = RSet(Vn: Vec, ln: Vec, alphaRange: Option<Range>, betaRange: Option<Range>)

  /** Both basis vectors have `n` rows. */
  predicate HasRows(s: RSet, n: nat) {
    |s.Vn| == n && |s.ln| == n
  }

  /** The state the set stands for at the parameter point `(alpha, beta)`. */
  function Realize(s: RSet, alpha: real, beta: real): Vec
    requires |s.Vn| == |s.ln|
  {
    Combine(alpha, s.Vn, beta, s.ln)
  }

  /** A reach-set object whose fields the engine assigns in place. An unset
      vector is the empty vector and an unset range is `None`. */
  class DReachSet {
    var Vn: Vec
    var ln: Vec
    var alphaRange: Option<Range>
    var betaRange: Option<Range>

    /** The value the object holds now. */
    function Value(): RSet
      reads this
    {
      RSet(Vn, ln, alphaRange, betaRange)
    }

    /** A fresh object with nothing set. */
    constructor ()
      ensures Value() == RSet([], [], None, None)
    {
      Vn, ln := [], [];
      alphaRange, betaRange := None, None;
    }

    /** A fresh object holding `s`, as a routine that builds and returns a new set. */
    constructor Of(s: RSet)
      ensures Value() == s
    {
      Vn, ln := s.Vn, s.ln;
      alphaRange, betaRange := s.alphaRange, s.betaRange;
    }

    /** Overwrites all four fields. */
    method SetReachSet(alpha: Option<Range>, beta: Option<Range>, V: Vec, l: Vec)
      modifies this
      ensures Value() == RSet(V, l, alpha, beta)
    {
      alphaRange, betaRange := alpha, beta;
      Vn, ln := V, l;
    }
  }

  /** The values the objects of `ss` hold now, in order. */
  function Values(ss: seq<DReachSet>): (r: seq<RSet>)
    reads ss
    ensures |r| == |ss| && forall k :: 0 <= k < |ss| ==> r[k] == ss[k].Value()
  {
    seq(|ss|, k requires 0 <= k < |ss| reads ss => ss[k].Value())
  }
}

/** The discretized PDE automaton the engine reads. Its four optional
    fields are the ones the safety check tests for `None`. The forcing
    vectors of the external load assembler are passed beside it as
    `loads`, where `loads[k]` is the load vector for step `k`. */
module Automaton {
  import opened LinAlg
  import opened Wrappers
  import opened ReachSets

  /** The unsafe region `{ x : matrixC·x ⋈ vectorD }`. */
  datatype UnsafeSet = UnsafeSet(matrixC: Mat, vectorD: Vec)

  datatype DPde = DPde(
    matrixA: Option<Mat>,
    xlist: Vec,
    timeStep: real,
    initVector: Vec,
    invB: Mat,
    unsafeSet: Option<UnsafeSet>,
    alphaRange: Option<Range>,
    betaRange: Option<Range>)

  /** Number of interior degrees of freedom. */
  function Dim(d: DPde): nat {
    |d.initVector|
  }

  /** The load vectors for steps 1 to `N` exist and have `Dim(d)` rows. */
  predicate LoadsShaped(d: DPde, loads: seq<Vec>, N: nat) {
    |loads| > N && forall k :: 1 <= k <= N ==> |loads[k]| == Dim(d)
  }

  /** A transition matrix, when present, is square of size `Dim(d)`. */
  predicate MatrixShaped(d: DPde) {
    d.matrixA.Some? ==> Shaped(d.matrixA.value, Dim(d), Dim(d))
  }

  /** What the nominal recurrence needs to run `N` steps without a shape error. */
  predicate StepReady(d: DPde, loads: seq<Vec>, N: nat) {
    LoadsShaped(d, loads, N) && MatrixShaped(d) && (N >= 1 ==> d.matrixA.Some?)
  }

  /** A mesh of `Dim(d) + 2` nodes and a square inverse mass matrix: the
      shapes the stencil and the error forcing assert or multiply with. */
  predicate MeshFits(d: DPde) {
    |d.xlist| == Dim(d) + 2 && Shaped(d.invB, Dim(d), Dim(d))
  }

  /** What the error recurrence needs as well, from step 1 on: a fitting
      mesh on which the stencil does not read past the end (`Dim(d) != 1`). */
  predicate MeshShaped(d: DPde) {
    MeshFits(d) && Dim(d) != 1
  }

  predicate ErrReady(d: DPde, loads: seq<Vec>, N: nat) {
    StepReady(d, loads, N) && (N >= 1 ==> MeshShaped(d))
  }
}
