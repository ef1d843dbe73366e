# Least-squares 2D affine transformation estimator

This project models `LeastSquare2DAffineTransformationEstimator` from
`lsate.cpp` in Dafny and proves properties of the model. The class fits an
affine map `Q ≈ A·P + b` between two sequences of corresponding 2D points
by the closed form of Späth, "Fitting affine and orthogonal transformations
between two sets of points" (Mathematical Communications 9.1, 2004). It
uses formulas (12), (14), (16) and (17) of that paper:

- `q_to_q_tilde` lifts a point to `(x, y, 1)` (`Estimator.Lift`);
- `Q_set_to_Q_matrix_tilde` sums the outer products of the lifted points
  into the 3×3 normal matrix (`Estimator.NormalMatrix`);
- `c_j_tilde` sums the right-hand side `c_j` and throws `0` or `1` on bad
  arguments (`Estimator.CjTilde`, errors `SizeMismatch` and `InvalidIndex`);
- `estimate` inverts the normal matrix once, solves for both rows and
  writes them into a 2×3 result (`Estimator.Estimate`).

Coordinates are exact `real`s instead of `float`. The inverse is the
adjugate divided by the determinant (`LinAlg.Inverse`). The source has no
singularity check before `inv()`, so `Estimate` requires a non-zero
determinant whenever the two lengths agree. When they differ, `Estimate`
returns the `SizeMismatch` error, as the first `c_j_tilde` call throws `0`
before anything is inverted.

The wiring follows the code. `estimate` builds the normal matrix from `P`
(lsate.cpp:17) and calls `c_j_tilde(j, P, Q)`, whose parameters are named
`(j, Q_set, P_set)`. Inside `c_j_tilde`, `Q_set` therefore holds the
caller's `P` and `P_set` the caller's `Q`. Likewise
`Q_set_to_Q_matrix_tilde` names its parameter `Q_set`, but `estimate`
passes it `P`; the model follows the call.

Modules:

- `LinAlg`: 3-vectors and 3×3, 3×2 and 2×3 matrices, the adjugate inverse and its proof, and a kernel vector of any singular matrix.
- `Estimator`: the four operations above.
- `Normal`: the normal matrix in closed form, its action on a vector, positive semi-definiteness, and when it is singular: exactly when the points are collinear or absent.
- `Recovery`: uniqueness of the solution and exact recovery of a noiseless affine map.
- `LeastSquares`: the estimate minimises the sum of squared residuals.
- `Permutation`: reordering the point pairs does not change the estimate.
- `Loops`: the three accumulation loops and `estimate` as imperative methods with loop invariants.
- `Example`: the data of `main`.
- `AsWritten`: `c_j_tilde` with its guard exactly as written (see Findings).
- `Results` and `Pairs`: a result type and generic sequence lemmas.

## Model

| member | source | states |
|---|---|---|
| Estimator.Lift | lsate.cpp:35-38 | The lift of `q` has third coordinate 1, and dropping that coordinate gives `q` back. |
| Estimator.NormalMatrix | lsate.cpp:41-54 | The bottom-right entry of the accumulated matrix is the number of points. |
| Estimator.CjTilde | lsate.cpp:57-99 | Unequal lengths give error 0 (`SizeMismatch`) whatever `j` is. Equal lengths with `j > 1` give error 1 (`InvalidIndex`). The call succeeds exactly when the lengths agree and `j` is 0 or 1. |
| Estimator.Estimate | lsate.cpp:15-31 | The result is an error exactly when `P` and `Q` differ in length, and that error is `SizeMismatch`. Otherwise, for j = 0, 1, the normal matrix of `P` times row `j` of the result equals `c_j`: row `j` solves `M a_j = c_j`. |
| LinAlg.Inverse | lsate.cpp:22 | For a matrix with non-zero determinant, the inverse undoes the matrix on both sides: `M (M⁻¹ v) = v` and `M⁻¹ (M v) = v` for every `v`. |
| LinAlg.InverseSolves | lsate.cpp:22-24 | `M a = c` holds if and only if `a = M⁻¹ c`. |
| LinAlg.KernelSingular | lsate.cpp:22 | A matrix that sends a non-zero vector to zero has determinant 0, so it has no inverse. |
| LinAlg.KernelVector | lsate.cpp:22 | The converse: a matrix with determinant 0 sends some non-zero vector to zero. |
| LinAlg.Mat3x2.Transpose | lsate.cpp:26-29 | Writing `a_0` and `a_1` as columns and transposing puts entry `(i, j)` of the 3×2 matrix at `(j, i)` of the 2×3 result. |
| Normal.NormalClosedForm | lsate.cpp:41-54 | The normal matrix is `[[Σx², Σxy, Σx], [Σxy, Σy², Σy], [Σx, Σy, m]]`, with the sums over the points. |
| Normal.MomentsCount | lsate.cpp:43-52 | The count entry of the sums is the number of points. |
| Normal.NormalShape | lsate.cpp:41-54 | The normal matrix is symmetric. Entries (0,2) and (1,2) are Σx and Σy, entry (2,2) is the point count, and the empty sequence gives the zero matrix. |
| Normal.NormalMulVec | lsate.cpp:41-54 | The normal matrix times `a` is the sum of the lifted points, each weighted by its dot product with `a`. |
| Normal.NormalQuadratic | lsate.cpp:41-54 | `dᵀ M d` is the sum over the points of the squared dot product of `d` with the lifted point. It is therefore never negative: the normal matrix is positive semi-definite. |
| Normal.NormalKernel | lsate.cpp:41-54 | If `v` is orthogonal to every lifted point, the normal matrix sends `v` to zero. |
| Normal.DegenerateSingular | lsate.cpp:22 | A non-zero `v` orthogonal to every lifted point makes the normal matrix singular, so `inv()` has no valid result. |
| Normal.CollinearSingular | lsate.cpp:22 | Points on one line `a x + b y + c = 0` give a singular normal matrix. |
| Normal.FewPointsSingular | lsate.cpp:22 | Fewer than three points give a singular normal matrix. |
| Normal.KernelOrthogonal | lsate.cpp:41-54 | A vector the normal matrix sends to zero is orthogonal to every lifted point. |
| Normal.DegenerateWitness | lsate.cpp:22 | The converse of `DegenerateSingular`: a singular normal matrix has a non-zero vector orthogonal to every lifted point. |
| Normal.SingularCollinear | lsate.cpp:22 | A singular normal matrix of a non-empty point set puts every point on one line `a x + b y + c = 0` with `(a, b) ≠ (0, 0)`. |
| Normal.SingularIffCollinear | lsate.cpp:22 | The normal matrix is singular if and only if there are no points or all the points lie on one line. So `inv()` has a valid result exactly for non-collinear point sets. |
| Normal.NonCollinearInvertible | lsate.cpp:22 | Any three points of `P` that are not collinear (non-zero signed area) make the normal matrix invertible, which meets the determinant requirement of `Estimate`, `ExactRecovery` and `IdentityRecovery`. |
| Recovery.EstimateUnique | lsate.cpp:22-30 | Row `j` of the estimate is the one and only `a` with `M a = c_j`. |
| Recovery.RightHandSideOfImages | lsate.cpp:57-99 | When every `Q[i]` is the image of `P[i]` under `t`, `c_j` equals `M` times row `j` of `t`. |
| Recovery.ExactRecovery | lsate.cpp:5-8 | When every `Q[i]` is the image of `P[i]` under an affine `t` and `M` is invertible, the estimate is `t` itself. |
| Recovery.IdentityRecovery | lsate.cpp:15-31 | Fitting an invertible point set to itself gives the identity. |
| Recovery.TranslationRecovery | lsate.cpp:15-31 | Fitting a point set to a translated copy gives `[[1, 0, dx], [0, 1, dy]]`. |
| LeastSquares.RowErrorDecomposition | lsate.cpp:14 | If `a` solves the normal equations for weights `w`, the squared error of any `b` is the error of `a` plus `Σ ((b − a)·lift(p_i))²`. |
| LeastSquares.PositiveDefinite | lsate.cpp:22 | With an invertible normal matrix, `dᵀ M d > 0` for every non-zero `d`. |
| LeastSquares.TotalErrorSplit | lsate.cpp:5-8 | The total squared distance between the `Q[i]` and the images of the `P[i]` is the sum of the two per-row squared errors. |
| LeastSquares.RowOptimal | lsate.cpp:14 | A solution of the normal equations has squared error at most that of any `b`, with equality exactly when `b` is that solution. |
| LeastSquares.LeastSquaresOptimal | lsate.cpp:5-8 | No affine map has a smaller total squared error than the estimate. Any map with the same error is the estimate itself. |
| Permutation.AccumulatePermutation | lsate.cpp:48-52 | Folding the per-pair contributions gives the same sums for any two orderings of the same multiset of pairs. |
| Permutation.AccumulateZip | lsate.cpp:17-20 | Folding the pairs of `P` and `Q` gives the normal matrix of `P` together with `c_0` and `c_1`. |
| Permutation.EstimatePermutation | lsate.cpp:15-31 | Reordering the pairs `(P[i], Q[i])` leaves the determinant of the normal matrix unchanged. When that determinant is not zero, it also leaves the estimate unchanged. |
| Loops.NormalMatrixLoop | lsate.cpp:41-54 | The loop that adds `q̃ q̃ᵀ` for i = 0 … m−1, starting from zeros, computes the normal matrix. It equals the closed form of the sums. |
| Loops.CjTildeLoops | lsate.cpp:57-99 | The two guards followed by the three accumulation loops and their `switch`, with the corrected guard, compute `CjTilde`. |
| Loops.EstimateProcedure | lsate.cpp:15-31 | The statement sequence of `estimate` gives `Estimate`: the normal matrix, the two right-hand sides, one inverse and the transposed 3×2 matrix. |
| Example.DiamondNormal | lsate.cpp:111-114 | The diamond of radius `r` has normal matrix `diag(2r², 2r², 4)`. At `r = 1` this is `diag(2, 2, 4)`. |
| Example.DiamondDet | lsate.cpp:111-114 | A diamond of non-zero radius has a positive determinant, so it is invertible. |
| Example.DiamondEstimate | lsate.cpp:111-121 | Fitting the diamond to its images under `[[s, −s, 1], [s, s, 1]]` gives back that transformation, for every non-zero radius and every `s`. |
| Example.MainData | lsate.cpp:111-119 | `main`'s `P` is the diamond of radius 1, and its `Q` is that diamond's image with offset `s`. |
| Example.MainDet | lsate.cpp:111-114 | The normal matrix of `main`'s `P` is invertible. |
| Example.ExampleEstimate | lsate.cpp:111-121 | On `main`'s data, `estimate` returns `[[s, −s, 1], [s, s, 1]]` for every `s`, including `sqrtf(2)/2`. |
| Example.ExampleIsRotation | lsate.cpp:116-121 | With `s² = 1/2`, the linear part of that result has orthonormal columns and determinant 1, so it is a rotation. Its cosine and sine are both `s`: the angle is 45° exactly when `s > 0`, as for `sqrtf(2)/2`, and 225° when `s < 0`. |
| Example.SwappedRightHandSide | lsate.cpp:57-99 | Swapping the targets of the first two diamond points gives a `c_0` whose second component is `r²`. |
| Example.PairingMatters | lsate.cpp:15-31 | Fitting the diamond to itself gives the identity. Swapping the targets of its first two points does not, although the targets form the same multiset: the fit depends on the pairing. |
| AsWritten.CjTildeAsWritten | lsate.cpp:57-99 | With the guard `j > 2` as written, unequal lengths give error 0, `j > 2` gives error 1, and the call succeeds exactly when the lengths agree and `j ≤ 2`. |
| AsWritten.AgreesExceptTwo | lsate.cpp:63-98 | For every index other than 2, the code as written and the corrected `CjTilde` agree, whatever the uninitialised value. |
| AsWritten.GuardAdmitsTwo | lsate.cpp:63-76 | Index 2 passes the guard as written, while the corrected function returns error 1 for it. |
| AsWritten.IndeterminateResult | lsate.cpp:69-98 | Read as one unknown value `u` shared by all three loops (one possible outcome of the undefined read of `p_ji`), `j = 2` gives a last component of `m · u`. Two different values of `u` give two different results on any non-empty input. |

## Left out

- OpenCV plumbing (`cv::Mat` allocation, `zeros`, `copyTo`, `transpose`, the `point3D_t` wrapper): the model uses fixed-size `real` records.
- The internals of `cv::Mat::inv`: it is foreign, floating-point code. `LinAlg.Inverse` is the adjugate over the determinant, proved to be a two-sided inverse.
- Estimator.Estimate: requires a non-zero determinant when the lengths agree. On a singular matrix `inv()` returns a matrix anyway, and what it returns is not modelled.
- IEEE `float` rounding and `sqrtf`: coordinates are exact reals, and `sqrtf(2)/2` is a symbolic `s`.
- Integer arithmetic: `size_t` is modelled as `nat`. No loop in the core can overflow an index.
- The `std::cout` printing in `main`, and the template parameters `point2D_t` and `point3D_t`: one real-valued `Point` record stands for them.
- Example.DiamondNormal: states `diag(2, 2, 4)` for `main`'s points through the radius-1 case, together with `Example.MainData`. It does not state it directly about the literal point list.
- Exceptions: the model returns a `Failure` value instead of unwinding the stack. `Estimator.Error.Code` gives the integer thrown (`0` for `SizeMismatch`, `1` for `InvalidIndex`), and `Estimator.CjTilde`'s contract states which one each failure carries.

## Findings

| source | as written | input that shows it | evidently intended | confidence | as-written member | corrected member |
|---|---|---|---|---|---|---|
| lsate.cpp:63-76 | The index guard is `if (j > 2) throw 1;`, but the `switch` that assigns `p_ji` has only `case 0` and `case 1`. So `j == 2` passes the guard, and every loop reads `p_ji` uninitialised, which is undefined behaviour in C++. The defect is latent: `c_j_tilde` is private (lsate.cpp:33) and `estimate` only passes `j = 0` and `1` (lsate.cpp:19-20). | A direct call `c_j_tilde(2, Q, P)` with `Q = P = [(1, 0)]`, reachable only from inside the class. Reading `p_ji` as one unknown value, the result's last component is whatever it holds; the undefined read allows any other outcome too. | The guard rejects every `j > 1`, so index 2 throws `1` like any other index without a coordinate. | not executed | AsWritten.CjTildeAsWritten, shown by AsWritten.GuardAdmitsTwo and AsWritten.IndeterminateResult | Estimator.CjTilde, whose contract states that it succeeds exactly for equal lengths and `j < 2` |
