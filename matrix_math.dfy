/**
  * What the matrix operations compute, stated on a matrix given as its
  * sequence of rows, and the algebraic facts about them.
  */
module MatrixMath {
  import opened VectorMath

  /** `a` has `n` rows of `n` elements each. */
  predicate IsSquare(a: seq<seq<int>>, n: nat)
  {
    |a| == n && forall i :: 0 <= i < n ==> |a[i]| == n
  }

  /** `a` and `b` have as many rows, and corresponding rows have one length. */
  predicate SameShape(a: seq<seq<int>>, b: seq<seq<int>>)
  {
    |a| == |b| && forall i :: 0 <= i < |a| ==> |a[i]| == |b[i]|
  }

  /** `A + B`: rows added pairwise. */
  function MatAdd(a: seq<seq<int>>, b: seq<seq<int>>): seq<seq<int>>
    requires SameShape(a, b)
  {
    seq(|a|, i requires 0 <= i < |a| => Add(a[i], b[i]))
  }

  /** `A - B`: rows subtracted pairwise. */
  function MatSub(a: seq<seq<int>>, b: seq<seq<int>>): seq<seq<int>>
    requires SameShape(a, b)
  {
    seq(|a|, i requires 0 <= i < |a| => Sub(a[i], b[i]))
  }

  /** `A * v`: element `i` is the dot product of row `i` with `v`. */
  function MatVec(a: seq<seq<int>>, v: seq<int>): seq<int>
    requires 1 <= |v| && forall i :: 0 <= i < |a| ==> |a[i]| == |v|
  {
    seq(|a|, i requires 0 <= i < |a| => Dot(a[i], v))
  }

  /** The identity matrix of order `n`: row `i` is the `i`-th unit vector. */
  function Identity(n: nat): seq<seq<int>>
  {
    seq(n, i requires 0 <= i < n => Unit(n, i))
  }

  /** `(A + B) - B == A`. */
  lemma MatAddSubRoundTrip(a: seq<seq<int>>, b: seq<seq<int>>)
    requires SameShape(a, b)
    ensures SameShape(MatAdd(a, b), b)
    ensures MatSub(MatAdd(a, b), b) == a
  {
    forall i | 0 <= i < |a|
      ensures Sub(MatAdd(a, b)[i], b[i]) == a[i]
    {
      AddSubRoundTrip(a[i], b[i]);
    }
  }

  /** Matrix addition commutes. */
  lemma MatAddCommutes(a: seq<seq<int>>, b: seq<seq<int>>)
    requires SameShape(a, b)
    ensures MatAdd(a, b) == MatAdd(b, a)
  {
    forall i | 0 <= i < |a|
      ensures MatAdd(a, b)[i] == MatAdd(b, a)[i]
    {
      AddCommutes(a[i], b[i]);
    }
  }

  /** The identity matrix maps every vector to itself. */
  lemma IdentityMatVec(v: seq<int>)
    requires 1 <= |v|
    ensures MatVec(Identity(|v|), v) == v
  {
    forall i | 0 <= i < |v|
      ensures MatVec(Identity(|v|), v)[i] == v[i]
    {
      DotUnit(v, i);
    }
  }

  /** `(A + B) * v == A * v + B * v`. */
  lemma MatVecDistributes(a: seq<seq<int>>, b: seq<seq<int>>, v: seq<int>)
    requires SameShape(a, b) && 1 <= |v|
    requires forall i :: 0 <= i < |a| ==> |a[i]| == |v|
    ensures MatVec(MatAdd(a, b), v) == Add(MatVec(a, v), MatVec(b, v))
  {
    forall i | 0 <= i < |a|
      ensures MatVec(MatAdd(a, b), v)[i] == Add(MatVec(a, v), MatVec(b, v))[i]
    {
      DotAddDistributes(a[i], b[i], v);
    }
  }
}
