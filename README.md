# tmatrix in Dafny

A model of `include/tmatrix.h`, a header with two value containers,
instantiated with `int` elements:

- `TDynamicVector<T>` is the class `DynamicVectors.DynamicVector`. It owns a heap buffer `mem` of length `sz`, with `1 <= sz <= MAX_VECTOR_SIZE` (100 000 000). It has checked element access, deep copy and copy assignment, equality, elementwise scalar and vector `+ - *`, a left-to-right dot product and `swap`.
- `TDynamicMatrix<T>` is the class `DynamicMatrices.DynamicMatrix`. It is a square matrix of order `1 <= order <= MAX_MATRIX_SIZE` (10 000), held as a buffer of `order` row vectors of length `order`. The source gets that buffer by private inheritance from a vector of vectors. Here the matrix owns it as a field, and every operation delegates to the row vectors, as in the source: equality, matrix × vector, and matrix `+`/`-`.

Layout:

- `results.dfy`: the two error kinds the source throws, `OutOfRange` (`std::out_of_range`) and `LogicError` (`std::logic_error`). It also holds a `Result` type. Each throwing operation returns its error through it, instead of requiring it away. The exception is the dot product, whose size check is a precondition (see "Left out").
- `vector_math.dfy` (`VectorMath`): what each vector operation computes, on `seq<int>`, and lemmas about it. `Dot` is the left-to-right accumulation the source performs. It is related to `SumOfProducts`, an independent right-fold definition.
- `matrix_math.dfy` (`MatrixMath`): the same for matrices as sequences of rows.
- `dynamic_vector.dfy` and `dynamic_matrix.dfy`: the two classes. Where the source loops over the buffers (construction from an array, equality, the arithmetic, the dot product, the matrix constructor), the method loops the same way. Element access, `size()`, `swap` and the size checks are straight-line, as in the source. Each method's `ensures` ties its result, or the new state, to the functions above.

## Model

| member | source | states |
|---|---|---|
| DynamicVectors.DynamicVector.constructor | include/tmatrix.h:24 | a size already in range gives a fresh buffer of that many elements, all 0 (`new T[sz]()`) |
| DynamicVectors.DynamicVector.Create | include/tmatrix.h:16-25 | size 0 or above `MAX_VECTOR_SIZE` gives `OutOfRange`; otherwise a fresh valid vector of that size, all elements 0 |
| DynamicVectors.DynamicVector.FromArray | include/tmatrix.h:27-31 | the new vector has its own fresh buffer holding exactly the first `s` elements of the array |
| DynamicVectors.DynamicVector.Clone | include/tmatrix.h:33 | the copy has the same elements as the original, in a fresh buffer of its own |
| DynamicVectors.DynamicVector.MoveAssign | include/tmatrix.h:53-58 | the destination takes over the source's buffer and size, so it holds the source's former elements |
| DynamicVectors.DynamicVector.Assign | include/tmatrix.h:47-52 | afterwards the target equals the right-hand side, which is unchanged. Assigning another vector leaves the target with a fresh buffer, so later writes do not reach the right-hand side. Self-assignment keeps the buffer |
| DynamicVectors.DynamicVector.Size | include/tmatrix.h:60-63 | the size is the number of elements and lies in `[1, MAX_VECTOR_SIZE]` |
| DynamicVectors.DynamicVector.Get | include/tmatrix.h:65-93 | `operator[]` and `at` succeed exactly when `ind < sz` and then return element `ind`; otherwise `OutOfRange` |
| DynamicVectors.DynamicVector.Set | include/tmatrix.h:65-93 | writing through the returned reference succeeds exactly when `ind < sz` and changes element `ind` only; an out-of-range write changes nothing |
| DynamicVectors.DynamicVector.Equals | include/tmatrix.h:95-105 | true exactly when the sizes are equal and all elements are pairwise equal, that is, when the element sequences are equal |
| DynamicVectors.DynamicVector.NotEquals | include/tmatrix.h:107-110 | true exactly when the element sequences differ |
| DynamicVectors.DynamicVector.AddScalar | include/tmatrix.h:112-119 | a fresh vector with `r[i] = v[i] + x`; the receiver is unchanged |
| DynamicVectors.DynamicVector.SubScalar | include/tmatrix.h:121-128 | a fresh vector with `r[i] = v[i] - x`; the receiver is unchanged |
| DynamicVectors.DynamicVector.MulScalar | include/tmatrix.h:130-137 | a fresh vector with `r[i] = v[i] * x`; the receiver is unchanged |
| DynamicVectors.DynamicVector.Add | include/tmatrix.h:139-147 | `LogicError` exactly when the sizes differ; otherwise a fresh vector of elementwise sums. Neither operand changes |
| DynamicVectors.DynamicVector.Sub | include/tmatrix.h:149-157 | `LogicError` exactly when the sizes differ; otherwise a fresh vector of elementwise differences. Neither operand changes |
| DynamicVectors.DynamicVector.Dot | include/tmatrix.h:159-168 | for equal sizes, the loop's result is the left-to-right accumulation of pairwise products, starting from the first pair |
| DynamicVectors.DynamicVector.Swap | include/tmatrix.h:170-174 | the two vectors exchange sizes and buffers, so each holds the other's former elements, and validity moves with them |
| VectorMath.ScalarIdentities | include/tmatrix.h:112-137 | `v + 0`, `v - 0` and `v * 1` all equal `v` |
| VectorMath.AddSubScalarRoundTrip | include/tmatrix.h:112-128 | `(v + x) - x == v` |
| VectorMath.AddSubRoundTrip | include/tmatrix.h:139-157 | `(a + b) - b == a` for vectors of one size |
| VectorMath.AddCommutes | include/tmatrix.h:139-147 | `a + b == b + a` |
| VectorMath.DotIsSumOfProducts | include/tmatrix.h:159-168 | the left-to-right accumulation equals the sum of pairwise products, defined independently by a right fold |
| VectorMath.DotSymmetric | include/tmatrix.h:159-168 | `a * b == b * a` |
| VectorMath.DotSelf | include/tmatrix.h:159-168 | a vector dotted with itself is the sum of its squares, and so is never negative |
| VectorMath.DotUnit | include/tmatrix.h:159-168 | the `k`-th unit vector dotted with `a` gives `a[k]` |
| VectorMath.DotUnits | include/tmatrix.h:159-168 | distinct unit vectors have dot product 0, and a unit vector dotted with itself gives 1 |
| VectorMath.DotAddDistributes | include/tmatrix.h:139-168 | `(a + b) * v == a * v + b * v` |
| DynamicMatrices.DynamicMatrix.constructor | include/tmatrix.h:198-206 | an order already in range gives `n` distinct fresh rows, each of length `n` and all zeros |
| DynamicMatrices.DynamicMatrix.Create | include/tmatrix.h:198-206 | order 0 or above `MAX_MATRIX_SIZE` gives `OutOfRange`; otherwise a fresh valid matrix of that order, all zeros |
| DynamicMatrices.DynamicMatrix.Size | include/tmatrix.h:264-267 | the order is in `[1, MAX_MATRIX_SIZE]`, and the contents are `order` rows of `order` elements |
| DynamicMatrices.DynamicMatrix.Row | include/tmatrix.h:208 | `m[i]` succeeds exactly when `i < order`. It then returns the stored row object itself, a valid vector holding row `i`; otherwise `OutOfRange` |
| DynamicMatrices.DynamicMatrix.Get | include/tmatrix.h:208 | `m[i][j]` succeeds exactly when both indices are below the order and then returns that element; otherwise `OutOfRange` |
| DynamicMatrices.DynamicMatrix.Set | include/tmatrix.h:208 | writing through `m[i][j]` changes that one element only, and keeps the matrix valid; out of range, nothing changes |
| DynamicMatrices.DynamicMatrix.ReplaceRow | include/tmatrix.h:243-244 | `res[i] = row` moves the row's buffer into slot `i`, which then holds the row's elements; the other rows are unchanged |
| DynamicMatrices.DynamicMatrix.Equals | include/tmatrix.h:210-217 | true exactly when the row sequences are equal; matrices of different order compare unequal, without an index error |
| DynamicMatrices.DynamicMatrix.MulVector | include/tmatrix.h:229-238 | `LogicError` exactly when the vector's size is not the order; otherwise a fresh vector whose element `i` is row `i` dotted with `v` |
| DynamicMatrices.DynamicMatrix.Add | include/tmatrix.h:240-246 | `LogicError` exactly when the orders differ, raised by the row-level size check; otherwise a fresh valid matrix whose rows are the pairwise row sums |
| DynamicMatrices.DynamicMatrix.Sub | include/tmatrix.h:248-254 | `LogicError` exactly when the orders differ, raised by the row-level size check; otherwise a fresh valid matrix whose rows are the pairwise row differences |
| MatrixMath.MatAddSubRoundTrip | include/tmatrix.h:240-254 | `(A + B) - B == A` |
| MatrixMath.MatAddCommutes | include/tmatrix.h:240-246 | `A + B == B + A` |
| MatrixMath.IdentityMatVec | include/tmatrix.h:229-238 | the identity matrix times `v` is `v` |
| MatrixMath.MatVecDistributes | include/tmatrix.h:229-246 | `(A + B) * v == A * v + B * v` |

## Left out

- The stream operators `>>` and `<<` for vectors and matrices (include/tmatrix.h:176-188, 269-288) are not modelled. They are iostream text I/O.
- Matrix × scalar (include/tmatrix.h:219-227) is not modelled. It refers to an undeclared `m` and throws a bare string, so it has no behaviour to state.
- Matrix × matrix (include/tmatrix.h:256-262) is not modelled. It stores the scalar dot product of row `i` of each operand into row `i`, and the implicit size constructor turns that scalar into a zero row of that length. That is not matrix multiplication, and the result is not square.
- The move constructor and the destructor (include/tmatrix.h:35-45) are not modelled. They concern raw-pointer ownership, which Dafny's garbage-collected arrays do not have.
- DynamicVectors.DynamicVector.MoveAssign: only the destination is specified. The moved-from vector keeps its stale size beside the swapped-in buffer. Such a vector may still be the target of `Assign`, which does not require a valid target.
- DynamicVectors.DynamicVector.Dot: a size mismatch is a precondition, not an error result. The operator is `noexcept` for `int`, so its `throw` would end the program rather than reach a caller.
- DynamicVectors.DynamicVector.FromArray: requires `1 <= s <= MAX_VECTOR_SIZE` and `s <= arr.Length`. The source checks neither, and reading past the array is undefined behaviour in C++.
- DynamicVectors.DynamicVector.Get and DynamicVectors.DynamicVector.Set model both `operator[]` and `at`, whose bounds contract is identical. The `ind < 0` test at lines 67 and 74 is always false for `size_t`, so indices are `nat`.
- Elements are unbounded `int`s. Signed overflow in the C++ `+`, `-` and `*` is undefined behaviour and is not modelled. Other element types, floating point included, are left out.
- DynamicMatrices.DynamicMatrix.Row: assigning a whole row through the reference `m[i]` returns is not modelled. The source does not guard against it: `m[0] = TDynamicVector<int>(5)` on a 3×3 matrix breaks the square invariant that `Valid()` states, and a later `A + B` of equal order would then raise `logic_error` at that row. The model writes single elements only, through `Set`.
- DynamicMatrices.DynamicMatrix.MulVector models what matrix × vector evidently intends. As written it cannot be instantiated. Line 231 reads `v.sz`, a protected member of `TDynamicVector<T>`, which the matrix class, derived only from `TDynamicVector<TDynamicVector<T>>`, may not access. At line 233 the unqualified `TDynamicVector` does not name `TDynamicVector<T>`.
- DynamicMatrices.DynamicMatrix.constructor starts from an empty row buffer. The source's base constructor first fills it with default rows of length 1, which the loop at line 205 then replaces; no caller can observe those rows.
