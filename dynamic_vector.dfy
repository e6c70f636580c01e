/**
  * `TDynamicVector<int>`: an owned heap buffer `mem` of length `sz`,
  * with `1 <= sz <= MAX_VECTOR_SIZE` once constructed.
  */
module DynamicVectors {
  import opened Results
  import VectorMath

  const MAX_VECTOR_SIZE: nat := 100_000_000

  class DynamicVector {
    var sz: nat
    var mem: array<int>

    /** The size bounds every constructed vector keeps, and a buffer of exactly `sz` elements. */
    ghost predicate Valid()
      reads this
    {
      1 <= sz <= MAX_VECTOR_SIZE && mem.Length == sz
    }

    /** The elements, in index order. */
    ghost function Elements(): seq<int>
      reads this, mem
    {
      mem[..]
    }

    /** Allocation of a value-initialised buffer for a size already known to be in range. */
    constructor (size: nat)
      requires 1 <= size <= MAX_VECTOR_SIZE
      ensures Valid() && fresh(mem) && sz == size
      ensures Elements() == VectorMath.Zeros(size)
    {
      sz := size;
      mem := new int[size](_ => 0);
    }

    /** The size constructor: a size of 0 or above the maximum raises `out_of_range`. */
    static method Create(size: nat) returns (r: Result<DynamicVector>)
      ensures r.Ok? <==> 1 <= size <= MAX_VECTOR_SIZE
      ensures r.Err? ==> r.error == OutOfRange
      ensures r.Ok? ==> fresh(r.value) && fresh(r.value.mem) && r.value.Valid() && r.value.sz == size
      ensures r.Ok? ==> forall i :: 0 <= i < size ==> r.value.mem[i] == 0
    {
      if size == 0 {
        return Err(OutOfRange);
      }
      if size > MAX_VECTOR_SIZE {
        return Err(OutOfRange);
      }
      var v := new DynamicVector(size);
      return Ok(v);
    }

    /** Construction from a pointer and a count: the first `s` elements of `arr` are copied into a new buffer. */
    constructor FromArray(arr: array<int>, s: nat)
      requires 1 <= s <= MAX_VECTOR_SIZE && s <= arr.Length
      ensures Valid() && fresh(mem) && sz == s
      ensures Elements() == arr[..s]
    {
      var a := new int[s];
      var i := 0;
      while i < s
        invariant i <= s
        invariant forall k :: 0 <= k < i ==> a[k] == arr[k]
      {
        a[i] := arr[i];
        i := i + 1;
      }
      sz, mem := s, a;
    }

    /** The copy constructor: a deep copy into a buffer of its own. */
    method Clone() returns (c: DynamicVector)
      requires Valid()
      ensures fresh(c) && fresh(c.mem) && c.Valid()
      ensures c.Elements() == Elements()
    {
      c := new DynamicVector.FromArray(mem, sz);
    }

    /**
      * Move assignment: the buffers are exchanged and the length taken over.
      * Only the destination is specified; the source is a spent temporary.
      */
    method MoveAssign(v: DynamicVector)
      requires v.Valid()
      modifies this, v
      ensures Valid() && sz == old(v.sz) && mem == old(v.mem)
      ensures Elements() == old(v.Elements())
    {
      mem, v.mem := v.mem, mem;
      sz := v.sz;
    }

    /**
      * Copy assignment: a deep copy of `v` is made and moved in, whatever state
      * the target is in (a moved-from vector may be reassigned); assigning a
      * vector to itself changes nothing.
      */
    method Assign(v: DynamicVector)
      requires v.Valid()
      modifies this
      ensures Valid() && sz == old(v.sz) && Elements() == old(v.Elements())
      ensures v.Elements() == old(v.Elements())
      ensures this != v ==> fresh(mem)
      ensures this == v ==> mem == old(mem)
    {
      if this != v {
        var tmp := v.Clone();
        MoveAssign(tmp);
      }
    }

    /** `size()`. */
    function Size(): (n: nat)
      requires Valid()
      reads this, mem
      ensures 1 <= n <= MAX_VECTOR_SIZE
      ensures n == |Elements()|
    {
      sz
    }

    /** Reading `v[ind]` or `v.at(ind)`: element `ind`, or `out_of_range` when `ind >= sz`. */
    method Get(ind: nat) returns (r: Result<int>)
      requires Valid()
      ensures r.Ok? <==> ind < |Elements()|
      ensures r.Ok? ==> r.value == Elements()[ind]
      ensures r.Err? ==> r.error == OutOfRange
    {
      if ind >= sz {
        return Err(OutOfRange);
      }
      return Ok(mem[ind]);
    }

    /**
      * Writing through the reference that `v[ind]` or `v.at(ind)` returns:
      * only element `ind` changes; `out_of_range` when `ind >= sz`.
      */
    method Set(ind: nat, x: int) returns (r: Result<()>)
      requires Valid()
      modifies mem
      ensures Valid()
      ensures r.Ok? <==> ind < sz
      ensures r.Err? ==> r.error == OutOfRange
      ensures Elements() == if ind < sz then old(Elements())[ind := x] else old(Elements())
    {
      if ind >= sz {
        return Err(OutOfRange);
      }
      mem[ind] := x;
      return Ok(());
    }

    /** `==`: the same object, or the same size and pairwise equal elements. */
    method Equals(v: DynamicVector) returns (eq: bool)
      requires Valid() && v.Valid()
      ensures eq <==> sz == v.sz && forall i :: 0 <= i < sz ==> mem[i] == v.mem[i]
      ensures eq <==> Elements() == v.Elements()
    {
      if this == v {
        return true;
      }
      if sz != v.sz {
        return false;
      }
      var i := 0;
      while i < sz
        invariant i <= sz
        invariant forall k :: 0 <= k < i ==> mem[k] == v.mem[k]
      {
        if mem[i] != v.mem[i] {
          return false;
        }
        i := i + 1;
      }
      assert Elements() == v.Elements();
      return true;
    }

    /** `!=`: the negation of `==`. */
    method NotEquals(v: DynamicVector) returns (ne: bool)
      requires Valid() && v.Valid()
      ensures ne <==> Elements() != v.Elements()
    {
      var eq := Equals(v);
      ne := !eq;
    }

    /** `v + x`: a new vector of the same size; the receiver is not modified. */
    method AddScalar(x: int) returns (r: DynamicVector)
      requires Valid()
      ensures fresh(r) && fresh(r.mem) && r.Valid()
      ensures r.Elements() == VectorMath.AddScalar(Elements(), x)
    {
      r := new DynamicVector(sz);
      var i := 0;
      while i < sz
        invariant i <= sz
        invariant fresh(r) && fresh(r.mem) && r.Valid() && r.sz == sz
        invariant forall k :: 0 <= k < i ==> r.mem[k] == mem[k] + x
      {
        r.mem[i] := mem[i] + x;
        i := i + 1;
      }
    }

    /** `v - x`: a new vector of the same size; the receiver is not modified. */
    method SubScalar(x: int) returns (r: DynamicVector)
      requires Valid()
      ensures fresh(r) && fresh(r.mem) && r.Valid()
      ensures r.Elements() == VectorMath.SubScalar(Elements(), x)
    {
      r := new DynamicVector(sz);
      var i := 0;
      while i < sz
        invariant i <= sz
        invariant fresh(r) && fresh(r.mem) && r.Valid() && r.sz == sz
        invariant forall k :: 0 <= k < i ==> r.mem[k] == mem[k] - x
      {
        r.mem[i] := mem[i] - x;
        i := i + 1;
      }
    }

    /** `v * x`: a new vector of the same size; the receiver is not modified. */
    method MulScalar(x: int) returns (r: DynamicVector)
      requires Valid()
      ensures fresh(r) && fresh(r.mem) && r.Valid()
      ensures r.Elements() == VectorMath.MulScalar(Elements(), x)
    {
      r := new DynamicVector(sz);
      var i := 0;
      while i < sz
        invariant i <= sz
        invariant fresh(r) && fresh(r.mem) && r.Valid() && r.sz == sz
        invariant forall k :: 0 <= k < i ==> r.mem[k] == mem[k] * x
      {
        r.mem[i] := mem[i] * x;
        i := i + 1;
      }
    }

    /** `a + b`: `logic_error` when the sizes differ, else a new vector of elementwise sums. */
    method Add(v: DynamicVector) returns (r: Result<DynamicVector>)
      requires Valid() && v.Valid()
      ensures r.Ok? <==> sz == v.sz
      ensures r.Err? ==> r.error == LogicError
      ensures r.Ok? ==> fresh(r.value) && fresh(r.value.mem) && r.value.Valid()
      ensures r.Ok? ==> |Elements()| == |v.Elements()| &&
                        r.value.Elements() == VectorMath.Add(Elements(), v.Elements())
    {
      if sz != v.sz {
        return Err(LogicError);
      }
      var res := new DynamicVector(sz);
      var i := 0;
      while i < sz
        invariant i <= sz
        invariant fresh(res) && fresh(res.mem) && res.Valid() && res.sz == sz
        invariant forall k :: 0 <= k < i ==> res.mem[k] == mem[k] + v.mem[k]
      {
        res.mem[i] := mem[i] + v.mem[i];
        i := i + 1;
      }
      return Ok(res);
    }

    /** `a - b`: `logic_error` when the sizes differ, else a new vector of elementwise differences. */
    method Sub(v: DynamicVector) returns (r: Result<DynamicVector>)
      requires Valid() && v.Valid()
      ensures r.Ok? <==> sz == v.sz
      ensures r.Err? ==> r.error == LogicError
      ensures r.Ok? ==> fresh(r.value) && fresh(r.value.mem) && r.value.Valid()
      ensures r.Ok? ==> |Elements()| == |v.Elements()| &&
                        r.value.Elements() == VectorMath.Sub(Elements(), v.Elements())
    {
      if sz != v.sz {
        return Err(LogicError);
      }
      var res := new DynamicVector(sz);
      var i := 0;
      while i < sz
        invariant i <= sz
        invariant fresh(res) && fresh(res.mem) && res.Valid() && res.sz == sz
        invariant forall k :: 0 <= k < i ==> res.mem[k] == mem[k] - v.mem[k]
      {
        res.mem[i] := mem[i] - v.mem[i];
        i := i + 1;
      }
      return Ok(res);
    }

    /**
      * `a * b`, the dot product: the products of the pairs accumulated left to
      * right from the first pair. The sizes must agree: the operator is
      * `noexcept` for `int`, so a mismatch would end the program.
      */
    method Dot(v: DynamicVector) returns (d: int)
      requires Valid() && v.Valid() && sz == v.sz
      ensures d == VectorMath.Dot(Elements(), v.Elements())
    {
      d := mem[0] * v.mem[0];
      var i := 1;
      while i < sz
        invariant 1 <= i <= sz
        invariant d == VectorMath.DotPrefix(Elements(), v.Elements(), i)
      {
        d := d + mem[i] * v.mem[i];
        i := i + 1;
      }
    }

    /** `swap(lhs, rhs)`: sizes and buffers exchanged. */
    static method Swap(lhs: DynamicVector, rhs: DynamicVector)
      modifies lhs, rhs
      ensures lhs.sz == old(rhs.sz) && lhs.mem == old(rhs.mem)
      ensures rhs.sz == old(lhs.sz) && rhs.mem == old(lhs.mem)
      ensures lhs.Valid() == old(rhs.Valid()) && rhs.Valid() == old(lhs.Valid())
      ensures lhs.Elements() == old(rhs.Elements()) && rhs.Elements() == old(lhs.Elements())
    {
      var s, m := lhs.sz, lhs.mem;
      lhs.sz, lhs.mem := rhs.sz, rhs.mem;
      rhs.sz, rhs.mem := s, m;
    }
  }
}
