/** The nodal projection kernel `get_V1_l1`: the linear-element mass-matrix
    stencil applied to both basis vectors of a reach set over the interior
    nodes of the mesh `xlist`. */
module Stencil {
  import opened LinAlg
  import opened Wrappers

  /** Entry `i` of the projection of `V` on the mesh `xlist`, with
      `hi = xlist[i+1] - xlist[i]` and `hi1 = xlist[i+2] - xlist[i+1]`:
      self weight `hi/3 + hi1/3`, left neighbour weight `hi/6` (not at the
      first node), right neighbour weight `hi1/6` (not at the last node). */
  function ProjectAt(V: Vec, xlist: Vec, i: nat): real
    requires |xlist| == |V| + 2 && |V| >= 2 && i < |V|
  {
    var n := |V|;
    var hi := xlist[i + 1] - xlist[i];
    var hi1 := xlist[i + 2] - xlist[i + 1];
    if i == 0 then
      V[i] * (hi / 3.0 + hi1 / 3.0) + V[i + 1] * hi1 / 6.0
    else if i == n - 1 then
      V[i] * (hi / 3.0 + hi1 / 3.0) + V[i - 1] * hi / 6.0
    else
      V[i] * (hi / 3.0 + hi1 / 3.0) + V[i - 1] * hi / 6.0 + V[i + 1] * hi1 / 6.0
  }

  function Project(V: Vec, xlist: Vec): (r: Vec)
    requires |xlist| == |V| + 2 && |V| != 1
    ensures |r| == |V|
  {
    seq(|V|, i requires 0 <= i < |V| => ProjectAt(V, xlist, i))
  }

  /** `get_V1_l1(V, l, xlist)`: the shape assertions fail unless `V` and `l`
      have the same length `n == len(xlist) - 2`; for `n == 1` the first
      node's right neighbour `V[1]` does not exist. */
  function V1L1(V: Vec, l: Vec, xlist: Vec): (r: Result<(Vec, Vec)>)
    ensures r.Ok? <==> |V| == |l| && |xlist| == |V| + 2 && |V| != 1
    ensures r == Failure(IndexOutOfRange) <==> |V| == |l| == 1 && |xlist| == 3
    ensures r.Ok? ==> |r.value.0| == |V| && |r.value.1| == |l|
  {
    if |V| != |l| || |V| != |xlist| - 2 then Failure(ShapeMismatch)
    else if |V| == 1 then Failure(IndexOutOfRange)
    else Ok((Project(V, xlist), Project(l, xlist)))
  }

  /** The index loop of `get_V1_l1`, filling `V1[i]` and `l1[i]` in order. */
  method GetV1L1(V: Vec, l: Vec, xlist: Vec) returns (r: Result<(Vec, Vec)>)
    ensures r == V1L1(V, l, xlist)
  {
    if |V| != |l| || |V| != |xlist| - 2 {
      return Failure(ShapeMismatch);
    }
    var n := |V|;
    var V1 := new real[n];
    var l1 := new real[n];
    var i := 0;
    while i < n
      invariant 0 <= i <= n
      invariant i > 0 ==> n >= 2
      invariant forall k :: 0 <= k < i ==> V1[k] == ProjectAt(V, xlist, k)
      invariant forall k :: 0 <= k < i ==> l1[k] == ProjectAt(l, xlist, k)
    {
      var hi := xlist[i + 1] - xlist[i];
      var hi1 := xlist[i + 2] - xlist[i + 1];
      var v, w;
      if i == 0 {
        if i + 1 >= n {
          return Failure(IndexOutOfRange);
        }
        v := V[i] * (hi / 3.0 + hi1 / 3.0) + V[i + 1] * hi1 / 6.0;
        w := l[i] * (hi / 3.0 + hi1 / 3.0) + l[i + 1] * hi1 / 6.0;
      } else if i == n - 1 {
        v := V[i] * (hi / 3.0 + hi1 / 3.0) + V[i - 1] * hi / 6.0;
        w := l[i] * (hi / 3.0 + hi1 / 3.0) + l[i - 1] * hi / 6.0;
      } else {
        v := V[i] * (hi / 3.0 + hi1 / 3.0) + V[i - 1] * hi / 6.0 + V[i + 1] * hi1 / 6.0;
        w := l[i] * (hi / 3.0 + hi1 / 3.0) + l[i - 1] * hi / 6.0 + l[i + 1] * hi1 / 6.0;
      }
      assert v == ProjectAt(V, xlist, i) && w == ProjectAt(l, xlist, i);
      V1[i] := v;
      l1[i] := w;
      i := i + 1;
    }
    r := Ok((V1[..], l1[..]));
    assert n != 1;
    assert V1[..] == Project(V, xlist);
    assert l1[..] == Project(l, xlist);
  }

  /** The stencil is linear, so projecting the realized state
      `alpha·V + beta·l` gives `alpha·V1 + beta·l1`: the kernel keeps the
      two parameters apart. */
  lemma ProjectCombine(alpha: real, V: Vec, beta: real, l: Vec, xlist: Vec)
    requires |V| == |l| && |xlist| == |V| + 2 && |V| != 1
    ensures Project(Combine(alpha, V, beta, l), xlist)
         == Combine(alpha, Project(V, xlist), beta, Project(l, xlist))
  {
    var c := Combine(alpha, V, beta, l);
    var lhs := Project(c, xlist);
    var rhs := Combine(alpha, Project(V, xlist), beta, Project(l, xlist));
    forall i | 0 <= i < |V| ensures lhs[i] == rhs[i] {
      var pv, pl := ProjectAt(V, xlist, i), ProjectAt(l, xlist, i);
      ProjectAtCombine(alpha, V, beta, l, xlist, i);
      assert lhs[i] == alpha * pv + beta * pl;
      CombineAt(alpha, Project(V, xlist), beta, Project(l, xlist), i);
      assert rhs[i] == alpha * pv + beta * pl;
    }
  }

  lemma ProjectAtCombine(alpha: real, V: Vec, beta: real, l: Vec, xlist: Vec, i: nat)
    requires |V| == |l| && |xlist| == |V| + 2 && |V| >= 2 && i < |V|
    ensures ProjectAt(Combine(alpha, V, beta, l), xlist, i)
         == alpha * ProjectAt(V, xlist, i) + beta * ProjectAt(l, xlist, i)
  {
    var c := Combine(alpha, V, beta, l);
    var n := |V|;
    var hi := xlist[i + 1] - xlist[i];
    var hi1 := xlist[i + 2] - xlist[i + 1];
    var w := hi / 3.0 + hi1 / 3.0;
    CombineAt(alpha, V, beta, l, i);
    Distribute(alpha, V[i], beta, l[i], w);
    if i > 0 {
      CombineAt(alpha, V, beta, l, i - 1);
      Distribute(alpha, V[i - 1], beta, l[i - 1], hi / 6.0);
    }
    if i < n - 1 {
      CombineAt(alpha, V, beta, l, i + 1);
      Distribute(alpha, V[i + 1], beta, l[i + 1], hi1 / 6.0);
    }
  }

  /** On a uniform mesh of spacing `h` the stencil is the classical
      tridiagonal mass stencil: weights `h/6, 2h/3, h/6` inside, and
      `2h/3` with a single `h/6` neighbour at either end. */
  lemma ProjectUniform(V: Vec, xlist: Vec, h: real, i: nat)
    requires |xlist| == |V| + 2 && |V| >= 2 && i < |V|
    requires forall k :: 0 <= k < |xlist| - 1 ==> xlist[k + 1] - xlist[k] == h
    ensures 0 < i < |V| - 1 ==>
      ProjectAt(V, xlist, i) == h / 6.0 * V[i - 1] + 2.0 * h / 3.0 * V[i] + h / 6.0 * V[i + 1]
    ensures i == 0 ==> ProjectAt(V, xlist, i) == 2.0 * h / 3.0 * V[0] + h / 6.0 * V[1]
    ensures i == |V| - 1 ==>
      ProjectAt(V, xlist, i) == h / 6.0 * V[i - 1] + 2.0 * h / 3.0 * V[i]
  {
    assert xlist[i + 1] - xlist[i] == h;
    assert xlist[i + 2] - xlist[i + 1] == h;
  }
}
