/**
  * `TDynamicMatrix<int>`: a square matrix held as a buffer of `order` row
  * vectors, each of length `order`, with `1 <= order <= MAX_MATRIX_SIZE`.
  * The source reaches the row buffer by private inheritance from a vector of
  * vectors; here the matrix owns it as a field, and every operation delegates
  * to the row vectors as the source does.
  */
module DynamicMatrices {
  import opened Results
  import opened DynamicVectors
  import VectorMath
  import MatrixMath

  const MAX_MATRIX_SIZE: nat := 10_000

  class DynamicMatrix {
    var order: nat
    var rows: array<DynamicVector?>
    /** The matrix as its sequence of rows. */
    ghost var Contents: seq<seq<int>>
    /** The matrix object, its row buffer, the rows and their element buffers. */
    ghost var Repr: set<object>

    /**
      * The order is in range, there are `order` rows, each a valid vector of
      * length `order`, and no two rows share an object or a buffer.
      */
    ghost predicate Valid()
      reads this, Repr
    {
      this in Repr && rows in Repr &&
      1 <= order <= MAX_MATRIX_SIZE && rows.Length == order && |Contents| == order &&
      (forall i :: 0 <= i < order ==>
        rows[i] != null && rows[i] in Repr && rows[i].mem in Repr &&
        rows[i].Valid() && rows[i].sz == order && rows[i].Elements() == Contents[i]) &&
      (forall i, j :: 0 <= i < order && 0 <= j < order && i != j ==>
        rows[i] != rows[j] && rows[i].mem != rows[j].mem)
    }

    /** Allocation of `n` zero rows of length `n`, for an order already known to be in range. */
    constructor (n: nat)
      requires 1 <= n <= MAX_MATRIX_SIZE
      ensures Valid() && fresh(Repr) && order == n
      ensures forall i :: 0 <= i < n ==> Contents[i] == VectorMath.Zeros(n)
    {
      var a := new DynamicVector?[n];
      ghost var cs: seq<seq<int>> := [];
      ghost var repr: set<object> := {a};
      var i := 0;
      while i < n
        invariant i <= n && |cs| == i
        invariant a in repr && fresh(repr)
        invariant forall k :: 0 <= k < i ==>
          a[k] != null && a[k] in repr && a[k].mem in repr &&
          a[k].Valid() && a[k].sz == n && a[k].Elements() == cs[k]
        invariant forall k, l :: 0 <= k < i && 0 <= l < i && k != l ==>
          a[k] != a[l] && a[k].mem != a[l].mem
        invariant forall k :: 0 <= k < i ==> cs[k] == VectorMath.Zeros(n)
      {
        var row := new DynamicVector(n);
        a[i] := row;
        cs := cs + [row.Elements()];
        repr := repr + {row, row.mem};
        i := i + 1;
      }
      order, rows, Contents := n, a, cs;
      new;
      Repr := repr + {this};
    }

    /**
      * The order constructor: an order of 0, or above the maximum, raises
      * `out_of_range` (the row-buffer size check and the matrix's own check).
      */
    static method Create(n: nat) returns (r: Result<DynamicMatrix>)
      ensures r.Ok? <==> 1 <= n <= MAX_MATRIX_SIZE
      ensures r.Err? ==> r.error == OutOfRange
      ensures r.Ok? ==> fresh(r.value.Repr) && r.value.Valid() && r.value.order == n
      ensures r.Ok? ==> forall i :: 0 <= i < n ==> r.value.Contents[i] == VectorMath.Zeros(n)
    {
      if n == 0 || n > MAX_VECTOR_SIZE {
        return Err(OutOfRange);
      }
      if n > MAX_MATRIX_SIZE {
        return Err(OutOfRange);
      }
      var m := new DynamicMatrix(n);
      return Ok(m);
    }

    /** `size()`: the order. */
    function Size(): (n: nat)
      requires Valid()
      reads this, Repr
      ensures 1 <= n <= MAX_MATRIX_SIZE
      ensures MatrixMath.IsSquare(Contents, n)
    {
      order
    }

    /** `m[i]`: row `i`, or `out_of_range` when `i >= order`. */
    method Row(i: nat) returns (r: Result<DynamicVector>)
      requires Valid()
      ensures r.Ok? <==> i < |Contents|
      ensures r.Err? ==> r.error == OutOfRange
      ensures r.Ok? ==> r.value == rows[i] && r.value in Repr && r.value.Valid() && r.value.Elements() == Contents[i]
    {
      if i >= order {
        return Err(OutOfRange);
      }
      return Ok(rows[i]);
    }

    /** Reading `m[i][j]`: each index checked at its own level, `out_of_range` when either is `>= order`. */
    method Get(i: nat, j: nat) returns (r: Result<int>)
      requires Valid()
      ensures r.Ok? <==> i < |Contents| && j < |Contents|
      ensures r.Err? ==> r.error == OutOfRange
      ensures r.Ok? ==> r.value == Contents[i][j]
    {
      if i >= order {
        return Err(OutOfRange);
      }
      r := rows[i].Get(j);
    }

    /** Writing through `m[i][j]`: only that element changes; `out_of_range` when either index is `>= order`. */
    method Set(i: nat, j: nat, x: int) returns (r: Result<()>)
      requires Valid()
      modifies Repr
      ensures Valid() && Repr == old(Repr) && order == old(order)
      ensures r.Ok? <==> i < order && j < order
      ensures r.Err? ==> r.error == OutOfRange
      ensures Contents == if i < order && j < order
                          then old(Contents)[i := old(Contents)[i][j := x]]
                          else old(Contents)
    {
      if i >= order {
        return Err(OutOfRange);
      }
      r := rows[i].Set(j, x);
      Contents := Contents[i := rows[i].Elements()];
    }

    /** `res[i] = row`: the row vector in slot `i` takes over the buffer of `row` by move assignment. */
    method ReplaceRow(i: nat, row: DynamicVector)
      requires Valid() && i < order
      requires row.Valid() && row.sz == order
      requires row !in Repr && row.mem !in Repr
      modifies Repr, row
      ensures Valid() && order == old(order)
      ensures Repr == old(Repr) + {old(row.mem)}
      ensures Contents == old(Contents)[i := old(row.Elements())]
    {
      rows[i].MoveAssign(row);
      Contents := Contents[i := rows[i].Elements()];
      Repr := Repr + {rows[i].mem};
    }

    /**
      * `==`: rows compared in turn with the vector `==`. Matrices of different
      * order are unequal, decided at row 0 whose lengths already differ.
      */
    method Equals(m: DynamicMatrix) returns (eq: bool)
      requires Valid() && m.Valid()
      ensures eq <==> Contents == m.Contents
      ensures order != m.order ==> !eq
    {
      var i := 0;
      while i < order
        invariant i <= order
        invariant i > 0 ==> order == m.order
        invariant forall k :: 0 <= k < i ==> Contents[k] == m.Contents[k]
      {
        var e := rows[i].Equals(m.rows[i]);
        if !e {
          return false;
        }
        i := i + 1;
      }
      return true;
    }

    /** `m * v`: `logic_error` when `v`'s size is not the order, else element `i` is row `i` dotted with `v`. */
    method MulVector(v: DynamicVector) returns (r: Result<DynamicVector>)
      requires Valid() && v.Valid()
      ensures r.Ok? <==> v.sz == order
      ensures r.Err? ==> r.error == LogicError
      ensures r.Ok? ==> fresh(r.value) && fresh(r.value.mem) && r.value.Valid()
      ensures r.Ok? ==> |v.Elements()| == order &&
                        r.value.Elements() == MatrixMath.MatVec(Contents, v.Elements())
    {
      if order != v.sz {
        return Err(LogicError);
      }
      var res := new DynamicVector(order);
      var i := 0;
      while i < order
        invariant i <= order
        invariant fresh(res) && fresh(res.mem) && res.Valid() && res.sz == order
        invariant forall k :: 0 <= k < i ==> res.mem[k] == VectorMath.Dot(Contents[k], v.Elements())
      {
        var d := rows[i].Dot(v);
        res.mem[i] := d;
        i := i + 1;
      }
      return Ok(res);
    }

    /** `A + B`: rows added pairwise with the vector `+`, whose size check rejects a different order at row 0. */
    method Add(m: DynamicMatrix) returns (r: Result<DynamicMatrix>)
      requires Valid() && m.Valid()
      ensures r.Ok? <==> order == m.order
      ensures r.Err? ==> r.error == LogicError
      ensures r.Ok? ==> fresh(r.value.Repr) && r.value.Valid()
      ensures r.Ok? ==> MatrixMath.SameShape(Contents, m.Contents) &&
                        r.value.Contents == MatrixMath.MatAdd(Contents, m.Contents)
    {
      var res := new DynamicMatrix(order);
      var i := 0;
      while i < order
        invariant i <= order
        invariant i > 0 ==> order == m.order
        invariant fresh(res.Repr) && res.Valid() && res.order == order
        invariant forall k :: 0 <= k < i ==> res.Contents[k] == VectorMath.Add(Contents[k], m.Contents[k])
      {
        var row := rows[i].Add(m.rows[i]);
        if row.Err? {
          return Err(row.error);
        }
        res.ReplaceRow(i, row.value);
        i := i + 1;
      }
      return Ok(res);
    }

    /** `A - B`: rows subtracted pairwise with the vector `-`, whose size check rejects a different order at row 0. */
    method Sub(m: DynamicMatrix) returns (r: Result<DynamicMatrix>)
      requires Valid() && m.Valid()
      ensures r.Ok? <==> order == m.order
      ensures r.Err? ==> r.error == LogicError
      ensures r.Ok? ==> fresh(r.value.Repr) && r.value.Valid()
      ensures r.Ok? ==> MatrixMath.SameShape(Contents, m.Contents) &&
                        r.value.Contents == MatrixMath.MatSub(Contents, m.Contents)
    {
      var res := new DynamicMatrix(order);
      var i := 0;
      while i < order
        invariant i <= order
        invariant i > 0 ==> order == m.order
        invariant fresh(res.Repr) && res.Valid() && res.order == order
        invariant forall k :: 0 <= k < i ==> res.Contents[k] == VectorMath.Sub(Contents[k], m.Contents[k])
      {
        var row := rows[i].Sub(m.rows[i]);
        if row.Err? {
          return Err(row.error);
        }
        res.ReplaceRow(i, row.value);
        i := i + 1;
      }
      return Ok(res);
    }
  }
}
