/** Dense real vectors and matrices standing in for the sparse column
    vectors and matrices of the reach-set engine. A matrix is a sequence of
    rows; `MatVec` is the matrix-vector product. */
module LinAlg {

  type Vec = seq<real>
  type Mat = seq<seq<real>>

  /** Every row of `m` has `c` entries. */
  predicate Cols(m: Mat, c: nat) {
    forall i :: 0 <= i < |m| ==> |m[i]| == c
  }

  /** `m` is an `r` by `c` matrix. */
  predicate Shaped(m: Mat, r: nat, c: nat) {
    |m| == r && Cols(m, c)
  }

  function Zeros(n: nat): Vec {
    seq(n, i => 0.0)
  }

  function Add(a: Vec, b: Vec): Vec
    requires |a| == |b|
  {
    seq(|a|, i requires 0 <= i < |a| => a[i] + b[i])
  }

  function Sub(a: Vec, b: Vec): Vec
    requires |a| == |b|
  {
    seq(|a|, i requires 0 <= i < |a| => a[i] - b[i])
  }

  function Scale(c: real, a: Vec): Vec {
    seq(|a|, i requires 0 <= i < |a| => c * a[i])
  }

  /** `alpha·V + beta·l`, the point of a parametric set at `(alpha, beta)`. */
  function Combine(alpha: real, V: Vec, beta: real, l: Vec): Vec
    requires |V| == |l|
  {
    Add(Scale(alpha, V), Scale(beta, l))
  }

  lemma CombineAt(alpha: real, V: Vec, beta: real, l: Vec, i: nat)
    requires |V| == |l| && i < |V|
    ensures Combine(alpha, V, beta, l)[i] == alpha * V[i] + beta * l[i]
  {
  }

  /** Multiplication distributes over a parametric combination. */
  lemma Distribute(a: real, x: real, b: real, y: real, w: real)
    ensures (a * x + b * y) * w == a * (x * w) + b * (y * w)
  {
  }

  function Dot(a: Vec, b: Vec): real
    requires |a| == |b|
    decreases |a|
  {
    if |a| == 0 then 0.0 else a[0] * b[0] + Dot(a[1..], b[1..])
  }

  function MatVec(m: Mat, v: Vec): Vec
    requires Cols(m, |v|)
  {
    seq(|m|, i requires 0 <= i < |m| => Dot(m[i], v))
  }

  /** The product of a row with the zero vector is zero. */
  lemma {:induction false} DotZeros(a: Vec)
    ensures Dot(a, Zeros(|a|)) == 0.0
  {
    if |a| > 0 {
      assert Zeros(|a|)[1..] == Zeros(|a| - 1);
      DotZeros(a[1..]);
    }
  }

  /** The head and the tail of a combination. */
  lemma CombineSplit(alpha: real, x: Vec, beta: real, y: Vec)
    requires |x| == |y| > 0
    ensures Combine(alpha, x, beta, y)[0] == alpha * x[0] + beta * y[0]
    ensures Combine(alpha, x, beta, y)[1..] == Combine(alpha, x[1..], beta, y[1..])
  {
    var c := Combine(alpha, x, beta, y);
    CombineAt(alpha, x, beta, y, 0);
    forall i | 0 <= i < |x| - 1
      ensures c[1..][i] == Combine(alpha, x[1..], beta, y[1..])[i]
    {
      CombineAt(alpha, x, beta, y, i + 1);
      CombineAt(alpha, x[1..], beta, y[1..], i);
    }
  }

  /** A row is a linear functional: it maps `alpha·x + beta·y` to the same
      combination of its values at `x` and `y`. */
  lemma {:induction false} DotCombine(a: Vec, alpha: real, x: Vec, beta: real, y: Vec)
    requires |a| == |x| == |y|
    ensures Dot(a, Combine(alpha, x, beta, y)) == alpha * Dot(a, x) + beta * Dot(a, y)
  {
    if |a| > 0 {
      var c := Combine(alpha, x, beta, y);
      CombineSplit(alpha, x, beta, y);
      DotCombine(a[1..], alpha, x[1..], beta, y[1..]);
      DotStep(a[0], x[0], y[0], c[0], Dot(a[1..], c[1..]), Dot(a[1..], x[1..]), Dot(a[1..], y[1..]),
              alpha, beta, Dot(a, c), Dot(a, x), Dot(a, y));
    }
  }

  /** The arithmetic of one step of `DotCombine`, on the unfolded dot
      products `dc`, `dX` and `dY`. */
  lemma DotStep(a0: real, x0: real, y0: real, c0: real, rc: real, dx: real, dy: real,
                alpha: real, beta: real, dc: real, dX: real, dY: real)
    requires c0 == alpha * x0 + beta * y0 && rc == alpha * dx + beta * dy
    requires dc == a0 * c0 + rc && dX == a0 * x0 + dx && dY == a0 * y0 + dy
    ensures dc == alpha * dX + beta * dY
  {
  }

  lemma AddComm(a: Vec, b: Vec)
    requires |a| == |b|
    ensures Add(a, b) == Add(b, a)
  {
  }

  lemma AddZeros(a: Vec)
    ensures Add(Zeros(|a|), a) == a && Add(a, Zeros(|a|)) == a
  {
  }

  /** A set whose load part is zero realizes to `alpha·V`. */
  lemma CombineZeros(alpha: real, V: Vec, beta: real)
    ensures Combine(alpha, V, beta, Zeros(|V|)) == Scale(alpha, V)
  {
    var lhs := Combine(alpha, V, beta, Zeros(|V|));
    forall i | 0 <= i < |V| ensures lhs[i] == Scale(alpha, V)[i] {
    }
  }

  /** Realizing a sum of two parametric sets is summing their realizations. */
  lemma CombineAdd(alpha: real, a: Vec, b: Vec, beta: real, c: Vec, e: Vec)
    requires |a| == |b| == |c| == |e|
    ensures Combine(alpha, Add(a, b), beta, Add(c, e)) == Add(Combine(alpha, a, beta, c), Combine(alpha, b, beta, e))
  {
    var lhs := Combine(alpha, Add(a, b), beta, Add(c, e));
    var rhs := Add(Combine(alpha, a, beta, c), Combine(alpha, b, beta, e));
    forall i | 0 <= i < |a| ensures lhs[i] == rhs[i] {
      assert lhs[i] == alpha * (a[i] + b[i]) + beta * (c[i] + e[i]);
    }
  }

  /** Realizing the residual `(pV - cV, b + pL - cL)` is realizing its
      parts: `beta·b + (alpha·pV + beta·pL) - (alpha·cV + beta·cL)`. */
  lemma CombineResidual(alpha: real, pV: Vec, cV: Vec, beta: real, b: Vec, pL: Vec, cL: Vec)
    requires |pV| == |cV| == |b| == |pL| == |cL|
    ensures Combine(alpha, Sub(pV, cV), beta, Sub(Add(b, pL), cL))
         == Sub(Add(Scale(beta, b), Combine(alpha, pV, beta, pL)), Combine(alpha, cV, beta, cL))
  {
    var lhs := Combine(alpha, Sub(pV, cV), beta, Sub(Add(b, pL), cL));
    var rhs := Sub(Add(Scale(beta, b), Combine(alpha, pV, beta, pL)), Combine(alpha, cV, beta, cL));
    forall i | 0 <= i < |pV| ensures lhs[i] == rhs[i] {
      assert lhs[i] == alpha * (pV[i] - cV[i]) + beta * (b[i] + pL[i] - cL[i]);
      assert rhs[i] == beta * b[i] + (alpha * pV[i] + beta * pL[i]) - (alpha * cV[i] + beta * cL[i]);
    }
  }

  /** A matrix maps the zero vector to the zero vector. */
  lemma MatVecZeros(m: Mat, n: nat)
    requires Cols(m, n)
    ensures MatVec(m, Zeros(n)) == Zeros(|m|)
  {
    forall i | 0 <= i < |m| ensures MatVec(m, Zeros(n))[i] == 0.0 {
      DotZeros(m[i]);
    }
  }

  /** Matrix-vector products are linear in the vector. */
  lemma MatVecCombine(m: Mat, alpha: real, x: Vec, beta: real, y: Vec)
    requires |x| == |y| && Cols(m, |x|)
    ensures MatVec(m, Combine(alpha, x, beta, y))
         == Combine(alpha, MatVec(m, x), beta, MatVec(m, y))
  {
    forall i | 0 <= i < |m|
      ensures MatVec(m, Combine(alpha, x, beta, y))[i]
           == Combine(alpha, MatVec(m, x), beta, MatVec(m, y))[i]
    {
      DotCombine(m[i], alpha, x, beta, y);
    }
  }

}

/** Option, Outcome and Result, with the faults the engine raises. */
module Wrappers {

  datatype Option<T> = None | Some(value: T)

  /** The assertion or run-time error a routine of the engine stops with. */
  datatype Fault =
    | ShapeMismatch       // a shape `assert` at the head of a routine fails
    | IndexOutOfRange     // the stencil reads an entry past the end of its input
    | DimensionMismatch   // a sparse product or sum of incompatible shapes
    | MissingMatrix       // the automaton has no transition matrix
    | MissingUnsafeSet    // the automaton has no unsafe set
    | MissingAlphaRange   // the automaton has no alpha range
    | MissingBetaRange    // the automaton has no beta range
    | MissingRanges       // the box routines need both ranges
    | BadStepCount        // the interpolation routine needs at least one step
    | TooFewSets          // the residual needs at least two stored sets

  datatype Outcome = Pass | Fail(fault: Fault)

  datatype Result<T> = Ok(value: T) | Failure(fault: Fault)
}
