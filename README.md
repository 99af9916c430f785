# QR decomposition by Householder reflections, and the QR algorithm

A Dafny model of `qr_decomposition.py`. The program computes the QR decomposition of a real square matrix with Householder reflections. It then uses repeated QR steps (the unshifted QR algorithm) to approximate eigenvalues (`eigvalues`) and eigenvectors (`eigvector`).

Matrices are lists of rows (`seq<seq<real>>`) over exact reals. Each routine that builds its result with loops is a `method`, and its loops are the source's loops. Each method is proved against a specification function. The properties the program relies on are lemmas about those functions.

The model is split into modules:

- `Sums`: finite sums. They are the `sum += ...` accumulations of the loops.
- `Matrices`: `matrixmult`, `transposta`, `makeZero`, `makeId` and `signal`, plus product, transpose and identity algebra.
- `Norms`: `modulo`, `moduloVector` and `moduloMat`.
- `Householder`: `HH`, the reflector for one column.
- `QRFactor`: `QR`.
- `Reduction`: what one `HH` step does to the columns of R, and when the R of `QR` is upper triangular.
- `Eigen`: `eigvalues` and `eigvector`.
- `ScalarProduct`: `scalVector`.

`sqrt` comes from Python's `math` module, which is not part of this model. Every operation that takes a square root therefore takes a function `sqrt: real -> real` as a parameter. It must satisfy `IsSqrt`: for `x >= 0`, `sqrt(x) >= 0` and `sqrt(x) * sqrt(x) == x`.

## Model

| member | source | states |
|---|---|---|
| Matrices.Multiply | qr_decomposition.py:15-28 | Fails (`None`, the "Dimensoes invalidas." branch) exactly when `len(A[0]) != len(B)`. Otherwise it returns the `len(A) x len(B[0])` matrix whose entry (i, j) is the sum over k of `A[i][k] * B[k][j]`, i.e. `Product(A, B)`. |
| Matrices.Transpose | qr_decomposition.py:31-38 | For a non-empty square M, returns the square T with `T[j][i] == M[i][j]` for all i, j, i.e. `Transposed(M)`. |
| Matrices.MakeZero | qr_decomposition.py:76-80 | Returns an m x n matrix whose every entry is 0. |
| Matrices.MakeId | qr_decomposition.py:90-97 | Returns the m x m matrix with entry 1 exactly on the diagonal and 0 elsewhere, which is `Identity(m)`. |
| Matrices.Signal | qr_decomposition.py:100-101 | The result is in {-1, 0, 1}. It is 1 iff a > b, -1 iff a < b, and 0 iff a == b. |
| Matrices.SignalAntisymmetric | qr_decomposition.py:100-101 | `signal(a, b) == -signal(b, a)`. |
| Matrices.ProductAssociative | qr_decomposition.py:15-28 | Products of n x n matrices are associative. |
| Matrices.TransposeProduct | qr_decomposition.py:31-38 | `(A.B)^T == B^T.A^T` for square A and B. |
| Matrices.TransposeInvolution | qr_decomposition.py:31-38 | Transposing a square matrix twice gives it back. |
| Matrices.IdentityLeftUnit | qr_decomposition.py:90-97 | `I.M == M`. |
| Matrices.IdentityRightUnit | qr_decomposition.py:90-97 | `M.I == M`. |
| Matrices.OrthogonalProduct | qr_decomposition.py:15-28 | The product of two orthogonal matrices is orthogonal. |
| Matrices.OrthogonalTranspose | qr_decomposition.py:31-38 | The transpose of an orthogonal matrix is orthogonal. |
| Norms.Modulo | qr_decomposition.py:40-46 | Returns `sqrt` of the sum of squares. The result is non-negative, its square is that sum, and it is 0 exactly when v is the zero vector. |
| Norms.NormFacts | qr_decomposition.py:40-46 | The modulus is non-negative, squares to the sum of squares, and is 0 iff every entry is 0. |
| Norms.ModuloVector | qr_decomposition.py:50-60 | Updates the array in place to `Normalized(old v)`. It leaves a zero vector unchanged, and otherwise leaves a vector whose sum of squares is 1. |
| Norms.NormalizedUnitOrZero | qr_decomposition.py:50-60 | The normalised vector has the input's length. It is the input when the input is zero, and has unit sum of squares otherwise. It is zero iff the input is. |
| Norms.NormalizedIdempotent | qr_decomposition.py:50-60 | Normalising twice is normalising once. This is why the repeated calls in `moduloMat` change nothing after the first. |
| Norms.ModuloMat | qr_decomposition.py:63-73 | Returns the square matrix whose column j is column j of A normalised, i.e. `ColumnsNormalized(A)`. |
| Norms.ColumnsNormalizedUnitOrZero | qr_decomposition.py:63-73 | Each column of the result is a unit vector or zero, and it is zero iff that column of A is zero. |
| Norms.ColumnsNormalizedIdempotent | qr_decomposition.py:63-73 | Applying `moduloMat` twice is applying it once. |
| Norms.ColumnsNormalizedOfOrthogonal | qr_decomposition.py:63-73 | `moduloMat` returns an orthogonal matrix unchanged. |
| Householder.ReflectionSign | qr_decomposition.py:112 | `delta` is -1 iff `a[0] > 0`, 1 iff `a[0] < 0`, and 0 iff `a[0] == 0`. |
| Householder.SubColumnIsSlice | qr_decomposition.py:110 | For a square R, the sub-column `SubColumn(R, column)` used throughout the model is exactly `transposta(R)[column][column:]`. |
| Householder.FirstUnitIsSlice | qr_decomposition.py:111 | The first unit vector `FirstUnit(n - column)` used throughout the model is exactly `transposta(I)[column][column:]` for the n x n identity. |
| Householder.SubColumnOfIdentity | qr_decomposition.py:110-111 | Column `column` of the identity, from the diagonal down, is `e`: 1 first and 0 after. |
| Householder.HH | qr_decomposition.py:103-137 | Returns `HouseholderOf(R, column)`: the identity outside the lower-right block, with `I - 2 v v^T` inside it. The result is symmetric and orthogonal. |
| Householder.HouseholderVector | qr_decomposition.py:106-118 | The vector `v` that HH normalises equals `moduloVector(a + delta * modulo(a) * e)` for `a` and `e` taken from the transposes of R and I. |
| Householder.RawVector | qr_decomposition.py:115-117 | The append loop builds exactly `a[i] + delta * modulo(a) * e[i]` for every i. |
| Householder.TruncatedBlock | qr_decomposition.py:121-124 | `Q_i_cortada` holds `I[i][j] - 2 v[i] v[j]` for i, j < len(v) and 0 elsewhere. |
| Householder.EmbedBlock | qr_decomposition.py:129-135 | `Q_i[i][j]` is `float(i == j)` when i or j is below `column`, and `Q_i_cortada[i - column][j - column]` otherwise. |
| Householder.ReflectorIsReflection | qr_decomposition.py:121-135 | The assembled `Q_i` equals `I - 2 w w^T`, where w is v preceded by `column` zeros. |
| Householder.PadSumSq | qr_decomposition.py:121-135 | Padding v with zeros keeps its sum of squares, and keeps it zero iff v is zero. |
| Householder.ReflectionInvolution | qr_decomposition.py:121-135 | For a unit or zero w, `(I - 2 w w^T)^2 == I`. |
| Householder.ReflectorOrthogonal | qr_decomposition.py:121-135 | For a unit or zero v, `Q_i` is symmetric and orthogonal, and `Q_i.Q_i == I`. |
| Householder.DirectionUnitOrZero | qr_decomposition.py:115-118 | The normalised v is a unit vector or zero. |
| Householder.HouseholderOrthogonal | qr_decomposition.py:103-137 | Every matrix HH can return is symmetric and orthogonal. |
| Householder.HouseholderOfIdentity | qr_decomposition.py:103-137 | For R the identity, `v` is zero, so HH returns the identity. |
| QRFactor.QR | qr_decomposition.py:139-156 | Returns `Factor(A)`. Q is orthogonal, R is square, and `Q.R == A`. |
| QRFactor.ReduceColumn | qr_decomposition.py:148-152 | One pass of the loop multiplies both Q and R on the left by `HH(R, column)`. It takes the state after `column` columns to the state after `column + 1`. |
| QRFactor.QRStateInvariant | qr_decomposition.py:147-152 | After every pass, the accumulated Q is orthogonal, R is square, and `R == Q.A`. |
| QRFactor.FactorCorrect | qr_decomposition.py:139-156 | The returned `transposta(Q)` is orthogonal, and `transposta(Q).R == A`. |
| QRFactor.QRIdentity | qr_decomposition.py:139-156 | `QR(I) == (I, I)`. |
| Reduction.RawBalance | qr_decomposition.py:112-117 | For a non-zero pivot `a[0]`, `u = a + delta * modulo(a) * e` satisfies `SumSq(u) == 2 (u . a)`. |
| Reduction.DirectionReduces | qr_decomposition.py:110-118 | When `a[0] != 0`, or when `a` is zero, reflecting `a` by the normalised v zeroes every entry after the first: `a[i] - 2 v[i] (v . a) == 0` for i >= 1. |
| Reduction.ReflectionTimesAt | qr_decomposition.py:121-135 | Entry (i, j) of `(I - 2 w w^T).R` is `R[i][j] - 2 w[i]` times the sum over k of `w[k] R[k][j]`. |
| Reduction.ReflectorTimesAt | qr_decomposition.py:121-135 | Entry (i, j) of `Q_i.R` is `R[i][j] - 2 w[i]` times the sum over k of `v[k] R[column + k][j]`, where w is v preceded by `column` zeros. |
| Reduction.ReflectorKeepsColumn | qr_decomposition.py:129-135 | A `Q_i` built for `column` keeps zero, below the diagonal, every earlier column that was already zero there. This holds for any v. |
| Reduction.ReducesPivotColumn | qr_decomposition.py:103-137 | When `R[column][column] != 0`, or when the sub-column is zero, `HH(R, column).R` is zero below the diagonal in column `column`. |
| Reduction.StepReduces | qr_decomposition.py:148-152 | If columns `0 .. column - 1` of R are zero below the diagonal and the pivot is usable, one pass of the loop leaves columns `0 .. column` zero below the diagonal. |
| Reduction.QRStateReduced | qr_decomposition.py:147-152 | After k passes, columns `0 .. k - 1` of R are zero below the diagonal, provided every pivot met so far was usable. |
| Reduction.QRTriangular | qr_decomposition.py:139-156 | The returned R is upper triangular whenever every pivot the loop meets is usable. |
| Reduction.ZeroPivotNotReduced | qr_decomposition.py:112 | For `A = [[0, 1], [1, 0]]`, the first pivot is 0 over a non-zero column, and the returned R has -1 at (1, 0). |
| Eigen.EigValues | qr_decomposition.py:158-169 | Returns the iterate `X_n` of `X := R.Q`, where `(Q, R) = QR(X)`, starting from A. |
| Eigen.IterateValues | qr_decomposition.py:167-168 | One pass of the loop of `eigvalues`, `Q, R = QR(X); X = matrixmult(R, Q)`, takes iterate i to iterate i + 1. |
| Eigen.EigVector | qr_decomposition.py:181-198 | Returns `moduloMat(V_n)` with `V_n = Q_1 ... Q_n`. It equals `V_n` itself, is orthogonal, and satisfies `A.V_n == V_n.X_n`. |
| Eigen.IterateVectors | qr_decomposition.py:195-197 | One pass of the loop of `eigvector` takes the pair (X, V) of iteration i to that of iteration i + 1: `X := R.Q` and `V := V.Q`. |
| Eigen.IterStateSimilar | qr_decomposition.py:166-168 | After every iteration X is square, V is orthogonal, and `A.V == V.X`. |
| Eigen.IterateIsSimilarity | qr_decomposition.py:158-169 | `X_k == V_k^T.A.V_k`: every iterate is an orthogonal similarity transform of A, so it has the eigenvalues of A. |
| Eigen.IterateSymmetric | qr_decomposition.py:158-169 | When A is symmetric, every iterate is symmetric. |
| ScalarProduct.ScalVector | qr_decomposition.py:172-178 | Returns the sum over i < len(u) of `u[i] + v[i]` (`PairwiseSum`). |
| ScalarProduct.PairwiseSumSplits | qr_decomposition.py:172-178 | That value is the sum of the entries of u plus the sum of the first len(u) entries of v. |
| ScalarProduct.PairwiseSumIsNotDot | qr_decomposition.py:172-178 | For u = v = [1], scalVector gives 2 while the scalar product is 1. |
| ScalarProduct.DotProduct | qr_decomposition.py:172-178 | The corrected loop returns the scalar product `Dot(u, v)`. |
| ScalarProduct.DotSymmetric | qr_decomposition.py:172-178 | `u . v == v . u`. |
| ScalarProduct.DotSelf | qr_decomposition.py:40-46 | `v . v` is the sum of squares, i.e. `modulo(v)^2`. |

## Left out

- `imprime` and `main`: they only print fixed example matrices through numpy. That is output formatting, not part of the numerical core.
- The "Dimensoes invalidas." message of `matrixmult`: printing is not modelled. The failure itself is the `None` result of `Multiply`.
- Floating point: all arithmetic is on exact reals. Rounding, and the convergence of the QR algorithm towards a diagonal matrix, are not modelled. The eigenvalue lemmas state what holds exactly (similarity and preserved symmetry), not how close the diagonal of `X_n` is to the eigenvalues.
- `math.sqrt`: it is a parameter constrained by `IsSqrt`, not a definition.
- Matrices.Transpose: only square inputs are modelled. For a non-square M, `transposta` either fails on an index or leaves rows of zeros. Every caller in the source passes a square matrix.
- QRFactor.QR: does not state that R is upper-triangular, because that does not hold in general. As written, `delta = -signal(a[0], 0)` is 0 when the pivot `a[0]` is exactly 0. Then `v = a`, and the reflector maps the sub-column to `-a` instead of zeroing it. For example, `[[0, 1], [1, 0]]` gives `R = [[0, 1], [-1, 0]]` (`Reduction.ZeroPivotNotReduced`). Triangularity is proved only under the condition that every pivot the loop meets is non-zero or sits on a zero column (`Reduction.QRTriangular`).
- Householder.HH: its uses of `transposta` and `moduloVector` are split into the helper methods `HouseholderVector`, `RawVector`, `TruncatedBlock` and `EmbedBlock`. In the source, `moduloVector` normalises the Python list `v` in place and HH then keeps using that same list. The model copies `v` into an array, normalises the array, and reads it back. Aliasing of the list is not modelled.
- Norms.ModuloMat: each row of the transpose is normalised in an array as many times as it has entries, as in the source. Replacing `C[i]` by the same list object is modelled as writing the normalised row back into `C`.
- Inputs on which the source raises `IndexError` are excluded by `requires` rather than modelled as an error: `Matrices.Multiply` requires a non-empty A (`A[0]` at line 19) and a non-empty B when `len(A[0]) == len(B)` (`B[0]` at line 22); `Matrices.Transpose`, `Norms.ModuloMat`, `QRFactor.QR` and `Eigen.EigVector` require a non-empty matrix, because `transposta` reads `M[0]` (line 34); `ScalarProduct.ScalVector` requires `len(u) <= len(v)` (`v[i]` at line 177). No caller in the core reaches these crashes.
- `makeNullVector`: not modelled. Despite its name it returns the n x n zero matrix, which is `MakeZero(n, n)`, and nothing in the core calls it.
- Deep copies (`deepcopy(A)`): matrices are values, so a copy is an assignment.

## Findings

| source | as written | input that shows it | evidently intended | confidence | as-written member | corrected member |
|---|---|---|---|---|---|---|
| qr_decomposition.py:172-178 | `scalVector` adds `u[i] + v[i]` over the indices of u | u = v = [1.0] gives 2.0 | it is documented as the scalar product of u and v, i.e. the sum of `u[i] * v[i]`, which is 1.0 here | high; not executed | ScalarProduct.ScalVector | ScalarProduct.DotProduct |
