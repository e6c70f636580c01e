/**
  * What the vector operations compute, stated on plain sequences of integers,
  * and the algebraic facts about them.
  */
module VectorMath {

  /** The contents of a freshly sized vector: `n` value-initialised elements. */
  function Zeros(n: nat): seq<int>
  {
    seq(n, _ => 0)
  }

  /** `v + x`: the scalar added to every element. */
  function AddScalar(a: seq<int>, x: int): seq<int>
  {
    seq(|a|, i requires 0 <= i < |a| => a[i] + x)
  }

  /** `v - x`: the scalar subtracted from every element. */
  function SubScalar(a: seq<int>, x: int): seq<int>
  {
    seq(|a|, i requires 0 <= i < |a| => a[i] - x)
  }

  /** `v * x`: every element multiplied by the scalar. */
  function MulScalar(a: seq<int>, x: int): seq<int>
  {
    seq(|a|, i requires 0 <= i < |a| => a[i] * x)
  }

  /** `a + b` for vectors of one length: elementwise sum. */
  function Add(a: seq<int>, b: seq<int>): seq<int>
    requires |a| == |b|
  {
    seq(|a|, i requires 0 <= i < |a| => a[i] + b[i])
  }

  /** `a - b` for vectors of one length: elementwise difference. */
  function Sub(a: seq<int>, b: seq<int>): seq<int>
    requires |a| == |b|
  {
    seq(|a|, i requires 0 <= i < |a| => a[i] - b[i])
  }

  /**
    * The dot product accumulated as the source does it: start from the
    * product of the first pair, then add the products of pairs 1 .. k-1
    * from left to right.
    */
  function DotPrefix(a: seq<int>, b: seq<int>, k: nat): int
    requires |a| == |b| && 1 <= k <= |a|
    decreases k
  {
    if k == 1 then a[0] * b[0] else DotPrefix(a, b, k - 1) + a[k - 1] * b[k - 1]
  }

  /** `a * b`: the dot product of two non-empty vectors of one length. */
  function Dot(a: seq<int>, b: seq<int>): int
    requires |a| == |b| && 1 <= |a|
  {
    DotPrefix(a, b, |a|)
  }

  /** Reference definition: the sum of pairwise products, folded from the right, 0 when empty. */
  function SumOfProducts(a: seq<int>, b: seq<int>): int
    requires |a| == |b|
    decreases |a|
  {
    if |a| == 0 then 0 else a[0] * b[0] + SumOfProducts(a[1..], b[1..])
  }

  /** The sum of the squares of the elements. */
  function SumOfSquares(a: seq<int>): int
    decreases |a|
  {
    if |a| == 0 then 0 else a[0] * a[0] + SumOfSquares(a[1..])
  }

  /** The `k`-th unit basis vector of length `n`. */
  function Unit(n: nat, k: nat): seq<int>
  {
    seq(n, j => if j == k then 1 else 0)
  }

  // ---------------------------------------------------------------------
  // Elementwise arithmetic

  /** Adding 0, subtracting 0 and multiplying by 1 leave a vector as it was. */
  lemma ScalarIdentities(a: seq<int>)
    ensures AddScalar(a, 0) == a
    ensures SubScalar(a, 0) == a
    ensures MulScalar(a, 1) == a
  {
  }

  /** Subtracting the scalar that was added gives the vector back. */
  lemma AddSubScalarRoundTrip(a: seq<int>, x: int)
    ensures SubScalar(AddScalar(a, x), x) == a
  {
  }

  /** `(a + b) - b == a`. */
  lemma AddSubRoundTrip(a: seq<int>, b: seq<int>)
    requires |a| == |b|
    ensures |Add(a, b)| == |b|
    ensures Sub(Add(a, b), b) == a
  {
  }

  /** Vector addition commutes. */
  lemma AddCommutes(a: seq<int>, b: seq<int>)
    requires |a| == |b|
    ensures Add(a, b) == Add(b, a)
  {
  }

  // ---------------------------------------------------------------------
  // Dot product

  lemma {:induction false} SumOfProductsSnoc(a: seq<int>, b: seq<int>, x: int, y: int)
    requires |a| == |b|
    ensures SumOfProducts(a + [x], b + [y]) == SumOfProducts(a, b) + x * y
    decreases |a|
  {
    if |a| == 0 {
      assert a + [x] == [x] && b + [y] == [y];
      assert SumOfProducts([x], [y]) == x * y + SumOfProducts([], []);
    } else {
      assert (a + [x])[1..] == a[1..] + [x];
      assert (b + [y])[1..] == b[1..] + [y];
      SumOfProductsSnoc(a[1..], b[1..], x, y);
    }
  }

  lemma {:induction false} DotPrefixIsSumOfProducts(a: seq<int>, b: seq<int>, k: nat)
    requires |a| == |b| && 1 <= k <= |a|
    ensures DotPrefix(a, b, k) == SumOfProducts(a[..k], b[..k])
    decreases k
  {
    if k == 1 {
      assert a[..1] == [] + [a[0]] && b[..1] == [] + [b[0]];
      SumOfProductsSnoc([], [], a[0], b[0]);
    } else {
      DotPrefixIsSumOfProducts(a, b, k - 1);
      assert a[..k] == a[..k - 1] + [a[k - 1]];
      assert b[..k] == b[..k - 1] + [b[k - 1]];
      SumOfProductsSnoc(a[..k - 1], b[..k - 1], a[k - 1], b[k - 1]);
    }
  }

  /** The left-to-right accumulation equals the plain sum of pairwise products. */
  lemma DotIsSumOfProducts(a: seq<int>, b: seq<int>)
    requires |a| == |b| && 1 <= |a|
    ensures Dot(a, b) == SumOfProducts(a, b)
  {
    DotPrefixIsSumOfProducts(a, b, |a|);
    assert a[..|a|] == a && b[..|b|] == b;
  }

  lemma {:induction false} DotPrefixSymmetric(a: seq<int>, b: seq<int>, k: nat)
    requires |a| == |b| && 1 <= k <= |a|
    ensures DotPrefix(a, b, k) == DotPrefix(b, a, k)
    decreases k
  {
    if k > 1 {
      DotPrefixSymmetric(a, b, k - 1);
    }
  }

  /** The dot product does not depend on the order of its operands. */
  lemma DotSymmetric(a: seq<int>, b: seq<int>)
    requires |a| == |b| && 1 <= |a|
    ensures Dot(a, b) == Dot(b, a)
  {
    DotPrefixSymmetric(a, b, |a|);
  }

  lemma {:induction false} SumOfProductsSelf(a: seq<int>)
    ensures SumOfProducts(a, a) == SumOfSquares(a)
    ensures SumOfSquares(a) >= 0
    decreases |a|
  {
    if |a| > 0 {
      SumOfProductsSelf(a[1..]);
      assert a[0] * a[0] >= 0;
    }
  }

  /** A vector dotted with itself is the sum of its squares, hence never negative. */
  lemma DotSelf(a: seq<int>)
    requires 1 <= |a|
    ensures Dot(a, a) == SumOfSquares(a)
    ensures Dot(a, a) >= 0
  {
    DotIsSumOfProducts(a, a);
    SumOfProductsSelf(a);
  }

  lemma {:induction false} DotPrefixUnit(a: seq<int>, k: nat, m: nat)
    requires k < |a| && 1 <= m <= |a|
    ensures DotPrefix(Unit(|a|, k), a, m) == if k < m then a[k] else 0
    decreases m
  {
    if m > 1 {
      DotPrefixUnit(a, k, m - 1);
    }
  }

  /** The `k`-th unit vector picks element `k` out of any vector of its length. */
  lemma DotUnit(a: seq<int>, k: nat)
    requires k < |a|
    ensures Dot(Unit(|a|, k), a) == a[k]
  {
    DotPrefixUnit(a, k, |a|);
  }

  /** Distinct unit vectors are orthogonal; a unit vector has length 1. */
  lemma DotUnits(n: nat, j: nat, k: nat)
    requires j < n && k < n
    ensures Dot(Unit(n, j), Unit(n, k)) == if j == k then 1 else 0
  {
    DotUnit(Unit(n, k), j);
  }

  lemma {:induction false} DotPrefixAdd(a: seq<int>, b: seq<int>, v: seq<int>, k: nat)
    requires |a| == |b| == |v| && 1 <= k <= |a|
    ensures DotPrefix(Add(a, b), v, k) == DotPrefix(a, v, k) + DotPrefix(b, v, k)
    decreases k
  {
    assert (a[k - 1] + b[k - 1]) * v[k - 1] == a[k - 1] * v[k - 1] + b[k - 1] * v[k - 1];
    if k > 1 {
      DotPrefixAdd(a, b, v, k - 1);
    }
  }

  /** The dot product distributes over vector addition. */
  lemma DotAddDistributes(a: seq<int>, b: seq<int>, v: seq<int>)
    requires |a| == |b| == |v| && 1 <= |a|
    ensures Dot(Add(a, b), v) == Dot(a, v) + Dot(b, v)
  {
    DotPrefixAdd(a, b, v, |a|);
  }
}
