# Blade generator core, modelled in Dafny

This project models the exact-arithmetic core of the `blade_gen` package. That package generates axial fan blades from a Bamberger parameterisation: a blade's spanwise parameter laws carry modified NACA 4-digit sections. The model covers four source files:

- **`blade_gen/linalg.py`, the dense linear-algebra kernel.** Dafny files: `linalg.dfy`, `det_rows.dfy`, `det_cols.dfy`, `adjugate.dfy`. It covers:
  - `Matrix` and `Vector`;
  - submatrix, minor and cofactor;
  - the recursive first-row Laplace determinant;
  - adjugate, inverse and `solve`;
  - scalar multiply and divide, and the matrix-vector product.

  The cell-updating `__setitem__` methods are methods of the classes `LinAlg.Matrix` and `LinAlg.Vector`. Everything else is a function on `seq<seq<real>>`.

  The proofs build the determinant theory the kernel relies on, so that `A * solve(A, b) == b` whenever `det(A) != 0`:
  - swapping rows or columns negates the determinant;
  - equal rows or columns give zero;
  - the expansion along any row;
  - linearity in a column;
  - `A * adj(A) == det(A) * I`;
  - Cramer's rule for a column.
- **`blade_gen/helper.py`, `linspace` and `interp`.** Dafny file: `helper.dfy`. Besides the basic facts, it proves:
  - the Vandermonde determinant formula;
  - that distinct nodes give a non-singular system;
  - that the interpolant passes through every sample and is the only polynomial of its degree that does.
- **`blade_gen/function.py`, the function algebra.** Dafny file: `function.dfy`. It covers:
  - powers with integer exponents, constants, sums, products, polynomials and piecewise functions;
  - their antiderivatives;
  - the one-bound and two-bound integrals, and the trapezoid rule they fall back to.
- **`blade_gen/blade.py`, the rational parts of the blade.** Dafny files: `blade.dfy`, `ratio.dfy`, `profile.dfy`, `grid.dfy`. It covers:
  - the hub and tip radii;
  - the spanwise interpolation of the design parameters;
  - the chord law;
  - the camber line `wc` and its slope `m`;
  - the thickness `h`, with its 5 x 5 matching system `coeffs` and the tabulated `d1`;
  - the upper and lower surface points;
  - the `gen` loop that stacks the sections station by station.

  `gen` is a `method` with a loop. It is proved equal to a recursive specification, `BladeGrid.GenGrid`. The lemmas about that specification give:
  - the grid's shape;
  - its error cases;
  - that every row lies on the cylinder of its station radius.

Numbers are Dafny `real`s, so the kernel's arithmetic is exact.

`sqrt`, `sin`, `cos`, `tan` and `atan` are function parameters collected in `Blade.Trig`. Where a property needs `sin`/`cos`, it assumes only the Pythagorean identity (`Profile.Pythagorean`).

A call that raises in the program is an `Err` of a `Result`, named after the exception. For example:
- a division by zero;
- `sqrt` of a negative number;
- `Matrix([])` indexing an empty list;
- a failed `assert`.

Shared pieces:
- `wrappers.dfy` holds `Result` and `Option`;
- `sums.dfy` holds Python's `sum` (and the product) over a list of reals, with the lemmas that reorder such sums.

`blade_gen/blade.py:163-164` makes both slopes zero at `ta`; `Blade.MeetAt` states it.

Where the program is evidently wrong (see "## Findings"), the operations the program runs are modelled as written: `Blade.SpanInterp` uses `Helper.InterpAsWritten`, `Blade.MakeSection` and `Blade.Sec` use `Blade.CoeffsAsWritten`, and `Functions.Int1b` and `Functions.Int2b` use `Functions.AntiderivativeAsWritten`. The corrected definitions stand beside them, with the intended properties proved about them.

## Model

| member | source | states |
|---|---|---|
| LinAlg.Matrix.constructor | blade_gen/linalg.py:7-12 | building a matrix from a non-empty list of rows stores those rows, with `m` the row count and `n` the length of the first row |
| LinAlg.Matrix.Len | blade_gen/linalg.py:14-16 | the number of entries is `m * n` for a rectangular matrix |
| LinAlg.Matrix.Set | blade_gen/linalg.py:22-24 | `A[i, j] = v` changes exactly the one cell `(i, j)` to `v`; every other entry and the shape are unchanged |
| LinAlg.Vector.constructor | blade_gen/linalg.py:122-125 | a vector stores its entries, with `m` their count |
| LinAlg.Vector.Len | blade_gen/linalg.py:127-129 | the length of a vector is its entry count `m` |
| LinAlg.Vector.Set | blade_gen/linalg.py:135-137 | `b[i] = v` changes exactly entry `i` |
| LinAlg.EntryCountRect | blade_gen/linalg.py:14-16 | summing the row lengths of `m` rows of length `n` gives `m * n` |
| LinAlg.MulConst | blade_gen/linalg.py:66-68 | the scalar product keeps the shape and multiplies every entry by `c` |
| LinAlg.DivConst | blade_gen/linalg.py:74-76 | the scalar quotient by a non-zero `c` keeps the shape, and every entry times `c` gives back the original entry |
| LinAlg.MulVec | blade_gen/linalg.py:70-72 | the product has one entry per row, entry `i` being the sum of `A[i][j] * b[j]` over the entries of `b` |
| LinAlg.IsSquare | blade_gen/linalg.py:78-80 | true exactly when the matrix has as many rows as columns |
| LinAlg.Transpose | blade_gen/linalg.py:82-84 | the transpose of a square matrix is square of the same size with entry `(i, j)` equal to `A[j][i]` |
| Adjugate.TransposeTwice | blade_gen/linalg.py:82-84 | transposing twice gives the original matrix back |
| LinAlg.Sub | blade_gen/linalg.py:86-88 | striking row `i` and column `j` leaves one row and one column fewer, with entry `(k, l)` taken from row `k + (k >= i)` and column `l + (l >= j)` |
| LinAlg.TryDet | blade_gen/linalg.py:98-105 | the determinant is defined exactly for square matrices (the assertion fails otherwise) and is then `Det` |
| LinAlg.DetMeaning | blade_gen/linalg.py:94-105 | `det` of a 1 x 1 matrix is its single entry; from size 2 on it is the first-row cofactor expansion |
| LinAlg.DetExpansion | blade_gen/linalg.py:94-105 | for size 2 and up the determinant is the sum over the first row of `A[0][i]` times the signed minor `(-1) ** i * det(sub(0, i))` |
| DetRows.Det2 | blade_gen/linalg.py:98-105 | a 2 x 2 determinant is `a00 * a11 - a01 * a10` |
| DetRows.SwapNegates | blade_gen/linalg.py:98-105 | swapping two adjacent rows negates the determinant |
| DetRows.EqualRowsZero | blade_gen/linalg.py:98-105 | a matrix with two equal rows has determinant zero |
| DetRows.RaiseRowDet | blade_gen/linalg.py:98-105 | moving row `k` to the top multiplies the determinant by `(-1) ** k` |
| DetRows.ScaleRowDet | blade_gen/linalg.py:98-105 | scaling one row by `c` scales the determinant by `c` |
| DetRows.ScaleRowsDet | blade_gen/linalg.py:98-105 | scaling the first `m` rows by `c[0..m)` scales the determinant by their product |
| DetRows.ExpandTwice | blade_gen/linalg.py:98-105 | expanding along the first row twice gives the determinant as the sum of a table of products with two rows struck |
| DetRows.SwapFirstTwo | blade_gen/linalg.py:98-105 | swapping the first two rows negates the determinant |
| DetCols.SwapColsNegates | blade_gen/linalg.py:98-105 | swapping two adjacent columns negates the determinant |
| DetCols.EqualColsZero | blade_gen/linalg.py:98-105 | a matrix with two equal columns has determinant zero |
| DetCols.ColumnLinear | blade_gen/linalg.py:98-105 | the determinant is linear in each column: `det(C) == det(A) + c * det(B)` when column `q` of `C` is that of `A` plus `c` times that of `B` |
| DetCols.AddColumnDet | blade_gen/linalg.py:98-105 | adding a multiple of one column to another keeps the determinant |
| DetCols.ZeroColumnDet | blade_gen/linalg.py:98-105 | a zero column gives determinant zero |
| DetCols.CramerColumn | blade_gen/linalg.py:98-105 | replacing column `k` by a combination of the first `m` columns with weights `d` gives `d[k] * det(A)` when `k < m`, and zero otherwise |
| DetCols.KernelTrivial | blade_gen/linalg.py:98-105 | a matrix of non-zero determinant sends only the zero vector to zero |
| Adjugate.RowExpansion | blade_gen/linalg.py:94-105 | the determinant can equally be expanded along any row `k` with the cofactors of that row |
| Adjugate.AlienRowZero | blade_gen/linalg.py:94-105 | row `i` against the cofactors of another row `k` sums to zero |
| LinAlg.CofactorMatrix | blade_gen/linalg.py:107-109 | the cofactor matrix is square of the matrix's size with entry `(i, j)` equal to the cofactor `(-1) ** (i + j) * minor(i, j)` |
| LinAlg.AdjAsWritten | blade_gen/linalg.py:86-109 | as written, the adjugate fails exactly for a 1 x 1 matrix (its minors are `Matrix([])`, which raises) |
| LinAlg.Adj | blade_gen/linalg.py:107-109 | the adjugate is square of the matrix's size (a 1 x 1 matrix has adjugate `[[1]]`) |
| LinAlg.AdjEntries | blade_gen/linalg.py:107-109 | for size 2 and up, adjugate entry `(i, j)` is the cofactor `(j, i)`, and it agrees with the adjugate as written |
| Adjugate.AdjugateIdentity | blade_gen/linalg.py:107-109 | `A * adj(A)` is `det(A)` times the identity |
| LinAlg.Inv | blade_gen/linalg.py:111-113 | the corrected `inv`, built on `LinAlg.Adj` (the program's `inv` raises on every 1 x 1 matrix, see "## Findings"): the inverse exists exactly when the determinant is non-zero (`adj / det` divides by it) and is square of the same size |
| LinAlg.InvEntries | blade_gen/linalg.py:111-113 | every inverse entry times `det(A)` is the adjugate entry |
| Adjugate.InverseIdentity | blade_gen/linalg.py:111-113 | `A * inv(A)` is the identity |
| Adjugate.InverseColumn | blade_gen/linalg.py:70-117 | in `A * (inv(A) * b)`, the terms that multiply `b[l]` sum to 1 in row `l` and to 0 in any other row |
| Adjugate.AdjScalesInv | blade_gen/linalg.py:111-113 | the terms of `A * adj(A)` are `det(A)` times those of `A * inv(A)` |
| LinAlg.SolveAsWritten | blade_gen/linalg.py:70-117 | as written, `adj` runs before `det`: a one-row matrix with at least one column, square or not, fails with the empty-matrix error (`sub` gives `Matrix([])`); a single empty row, and any larger non-square matrix, fail the square assertion in `det`; a regular matrix of size 2 or more given a vector longer than its rows fails on the index in the product; a success needs a square matrix of non-zero determinant and a vector no longer than the rows |
| LinAlg.Solve | blade_gen/linalg.py:70-117 | `solve` succeeds exactly for a square matrix of non-zero determinant and a vector no longer than its rows, and returns one value per row; with a regular matrix, a longer vector is exactly the index error of `_mul_vec` |
| LinAlg.SolveAgreesAsWritten | blade_gen/linalg.py:115-117 | from size 2 on, `solve` and `solve` as written agree |
| Adjugate.SolveCorrect | blade_gen/linalg.py:115-117 | when `det(A) != 0`, `x = solve(A, b)` satisfies `A * x == b` |
| Adjugate.SolveUnique | blade_gen/linalg.py:115-117 | when `det(A) != 0`, any `x` with `A * x == b` is what `solve(A, b)` returns |
| Adjugate.SameImage | blade_gen/linalg.py:111-117 | a matrix of non-zero determinant is one-to-one |
| Adjugate.SolveFails | blade_gen/linalg.py:70-117 | `solve` fails with "not square" exactly for a non-square matrix and with "singular" exactly for a square one of determinant zero; it fails at all exactly when one of these holds or the vector is longer than the rows |
| Helper.Linspace | blade_gen/helper.py:7-10 | `linspace` returns `max(num, 0)` samples |
| Helper.LinspaceAt | blade_gen/helper.py:7-10 | sample `i` is `first + i * (last - first) / (num - 1)`, and it lies in `[first, last]` when `first < last` |
| Helper.LinspaceSingle | blade_gen/helper.py:9-10 | one sample is just `[first]` |
| Helper.LinspaceEnds | blade_gen/helper.py:9-10 | with two or more samples the first is exactly `first` and the last exactly `last` |
| Helper.LinspaceStep | blade_gen/helper.py:9-10 | consecutive samples differ by the constant `(last - first) / (num - 1)` |
| Helper.LinspaceOrdered | blade_gen/helper.py:9-10 | for `first < last`, a later sample is strictly larger |
| Helper.LinspaceIncreasing | blade_gen/helper.py:9-10 | for `first < last` the samples strictly increase and stay within `[first, last]` |
| Helper.LinspaceDistinct | blade_gen/helper.py:9-10 | for `first < last` the samples are pairwise distinct |
| Helper.Vandermonde | blade_gen/helper.py:19 | the interpolation system is `n` x `n` with row `i` equal to `[x_i ** 0, ..., x_i ** (n - 1)]` |
| Helper.VandermondeEval | blade_gen/helper.py:19-24 | the system times coefficients `c` gives the polynomial with coefficients `c` evaluated at each node |
| Helper.ReducedDet | blade_gen/helper.py:19 | subtracting `x_0` times each column from the next keeps the Vandermonde determinant |
| Helper.ReducedExpansion | blade_gen/helper.py:19 | the reduced determinant is the product of `x_i - x_0` times the Vandermonde determinant of the other nodes |
| Helper.VandermondeDet | blade_gen/helper.py:19 | the Vandermonde determinant is the product of `x_j - x_i` over `i < j` |
| Helper.VanderProdNonZero | blade_gen/helper.py:19 | that product is non-zero for distinct nodes |
| Helper.VandermondeNonSingular | blade_gen/helper.py:19-22 | distinct nodes give a non-singular interpolation system |
| Helper.Interp | blade_gen/helper.py:12-24 | two numbers give the constant `y`; a number with a list fails; lists of different lengths fail the assertion; two empty lists fail in the kernel; a success on lists is a polynomial with one coefficient per node |
| Helper.InterpScalar | blade_gen/helper.py:14-15 | `interp` of two numbers is the constant function `y` |
| Helper.InterpSucceeds | blade_gen/helper.py:17-22 | on lists of equal non-zero length, `interp` succeeds exactly when the Vandermonde determinant is non-zero, and fails only as singular otherwise |
| Helper.InterpSolves | blade_gen/helper.py:12-24 | for distinct nodes the interpolant is a polynomial whose coefficients solve the Vandermonde system |
| Helper.InterpExact | blade_gen/helper.py:12-24 | for distinct nodes `interp` succeeds and its polynomial takes the value `y_i` at every node `x_i` |
| Helper.SolutionPasses | blade_gen/helper.py:19-24 | coefficients solving the Vandermonde system give a polynomial through every sample |
| Helper.ThroughPointsSolves | blade_gen/helper.py:19-22 | a polynomial through the samples solves the Vandermonde system |
| Helper.InterpUnique | blade_gen/helper.py:12-24 | for distinct nodes, any polynomial of degree below `n` through the samples is the one `interp` returns |
| Helper.InterpAsWritten | blade_gen/helper.py:12-24 | `interp` as written fails with the empty-matrix error for one node on each side, and in every other case gives what the corrected `interp` gives |
| Helper.InterpSinglePoint | blade_gen/helper.py:19-24 | a single sample fails as written (the 1 x 1 adjugate), while the corrected `interp` returns the constant `y_0` |
| Functions.IntPow | blade_gen/function.py:213-218 | `pow(t, p)` is `t ** p` for `p >= 0`, the reciprocal of `t ** -p` for `p < 0`, and fails exactly for a zero base with a negative exponent |
| Functions.PowerCall | blade_gen/function.py:213-218 | `Power(c, p)()` with no argument is `c` exactly when `p == 0` and fails otherwise; with an argument it is the evaluation at it |
| Functions.PowerEval | blade_gen/function.py:213-218 | `Power(c, p)(t)` is `c * t ** p` for a natural `p` |
| Functions.ConstantEval | blade_gen/function.py:238-243 | `Constant(c)(t)` is `c` at every `t` |
| Functions.Eval | blade_gen/function.py:75-127 | evaluating a function fails only by a negative power at `t = 0` or a piecewise function without a piece for `t` |
| Functions.EvalAll | blade_gen/function.py:75-93 | evaluating a list of functions succeeds exactly when each does, gives their values in order, and fails only as a single evaluation can |
| Functions.SumProductEval | blade_gen/function.py:75-93 | `Sum(fs)(t)` is the sum and `Product(fs)(t)` the product of the `f(t)`, defined exactly when every `f(t)` is |
| Functions.AddEval | blade_gen/function.py:34-36 | `(f + g)(t) == f(t) + g(t)`, defined exactly when both are |
| Functions.MulEval | blade_gen/function.py:38-40 | `(f * g)(t) == f(t) * g(t)`, defined exactly when both are |
| Functions.Powers | blade_gen/function.py:248-252 | a polynomial's terms are `Power(coeffs[i], i)`, one per coefficient |
| Functions.PolynomialIsSum | blade_gen/function.py:248-252 | a polynomial evaluates as the sum of its power terms |
| Functions.PowersEval | blade_gen/function.py:248-252 | the power terms of a polynomial evaluate to its terms `coeffs[i] * t ** i` |
| Functions.Degree | blade_gen/function.py:248-252 | `deg` is the highest exponent among the polynomial's powers (each power `i` has exponent `i <= deg`, and power `deg` has exponent `deg`), and -1 for no coefficients |
| Functions.Antiderivative | blade_gen/function.py:151-273 | the antiderivative of `c * t ** p` is the power `p + 1` with coefficient `c / (p + 1)` and fails, dividing by zero, exactly for `p == -1`; a polynomial's always exists and has one coefficient more; a product has none; a piecewise function's fails on its undefined names |
| Functions.IntegrateCoeffs | blade_gen/function.py:271-273 | the polynomial antiderivative has one coefficient more and degree one higher |
| Functions.IntegrateCoeffsAtZero | blade_gen/function.py:271-273 | the polynomial antiderivative vanishes at 0 |
| Functions.DifferentiateIntegrate | blade_gen/function.py:271-273 | differentiating the antiderivative's coefficients term by term gives the original coefficients |
| Functions.AntiderivativeAll | blade_gen/function.py:79-81 | the antiderivatives of a list of functions exist exactly when each does, and are taken in order |
| Functions.DerivativeOfAntiderivative | blade_gen/function.py:220-222 | differentiating any antiderivative that exists gives back the function |
| Functions.DerivativeOfAntiderivativeAll | blade_gen/function.py:79-81 | the same holds for each function of a list |
| Functions.AntiderivativeAsWritten | blade_gen/function.py:79-81 | as written, a sum first takes its terms' antiderivatives (a failing one is the error); it never yields a function, only the integer 0, when every term gives 0; other functions are as `Antiderivative` |
| Functions.AntiderivativeAllAsWritten | blade_gen/function.py:81 | the terms' antiderivatives as written succeed exactly when each does, in order, and otherwise the first failing one decides the error |
| Functions.SumAntiderivativeAsWritten | blade_gen/function.py:79-81 | a sum has an antiderivative as written exactly when every term is a sum that has one |
| Functions.ConstantAntiderivative | blade_gen/function.py:220-222 | a constant `c` has the antiderivative `c * t`, as written too |
| Functions.ConstantsAntiderivativeAsWritten | blade_gen/function.py:79-81 | as written, `Sum([Constant(1), Constant(2)])` has no antiderivative |
| Functions.ConstantsAntiderivative | blade_gen/function.py:79-81 | as intended, the antiderivative of `Sum([Constant(1), Constant(2)])` is `Sum([Power(1, 1), Power(2, 1)])` |
| Functions.SumAntiderivativeFails | blade_gen/function.py:79-81 | `Sum([Constant(1), Constant(2)])` has no antiderivative as written, while the corrected one is `Sum([Power(1, 1), Power(2, 1)])`; `Sum([Power(1, -1), Constant(2)])` fails on the division first; `Sum([])` gives the integer 0 |
| Functions.Int1b | blade_gen/function.py:47-50 | the integral from `a` of any sum fails as written (its antiderivative is an error or the integer 0, which cannot be called) |
| Functions.Int1bValue | blade_gen/function.py:47-50 | the integral from `a` is `F(t) - F(a)` for the antiderivative `F`, so it is zero at `a` |
| Functions.Int2b | blade_gen/function.py:52-58 | without a point count, the integral of any sum fails as written |
| Functions.Int2bIsInt1b | blade_gen/function.py:47-56 | the analytic two-bound integral from `a` to `b` is the one-bound integral from `a` evaluated at `b` |
| Functions.Int2bAdditive | blade_gen/function.py:52-56 | analytic integrals add over adjacent intervals, and swapping the bounds negates them |
| Functions.Int2bLine | blade_gen/function.py:52-56 | the analytic integral of `q + p * t` from `a` to `b` is `q * (b - a) + p * (b * b - a * a) / 2` |
| Functions.EvalAt | blade_gen/function.py:44-45 | a function's values at the sample points, defined exactly when each is; a failure is a negative power at a point `0` or a missing piece |
| Functions.IntTrap | blade_gen/function.py:42-45 | `_int_trap` is zero below two points; otherwise it succeeds exactly when the function has a value at every point of `linspace(a, b, num)`, and fails only by a negative power at a point `0` or a missing piece |
| Functions.TrapTelescope | blade_gen/function.py:42-45 | trapezoids that are differences of a potential sum to its total difference |
| Functions.TrapLinear | blade_gen/function.py:42-45 | the trapezoid rule is exact for values on a line |
| Functions.IntTrapLinear | blade_gen/function.py:42-45 | `_int_trap` of a linear function over two or more points is its exact integral |
| Functions.IntTrapConstant | blade_gen/function.py:42-45 | `_int_trap` of a constant `c` is `c * (b - a)` (zero with fewer than two points) |
| Functions.IntTrapLine | blade_gen/function.py:52-58 | with a point count, the numeric integral of a line matches the analytic one (zero below two points) |
| Functions.Integrate | blade_gen/function.py:60-65 | `int(a)` is the one-bound integral, a function, and `int(a, b)` the two-bound one, a number; each fails exactly when that integral does |
| Functions.MakePiecewise | blade_gen/function.py:110-120 | a piecewise function needs exactly one bound fewer than pieces, and stores the pieces and the bounds list |
| Functions.PieceIndex | blade_gen/function.py:124-127 | the selected index is the first bound greater than `t`, or one past the bounds when there is none |
| Functions.PiecewiseEval | blade_gen/function.py:122-127 | a piecewise function evaluates as its selected piece, which always exists |
| Functions.PieceIndexSorted | blade_gen/function.py:124-127 | for sorted bounds, `t` in `[bounds[i - 1], bounds[i])` selects piece `i` |
| Blade.RadiiOrdered | blade_gen/blade.py:13-14 | the tip radius is half the diameter and the hub radius `hub_ratio` times it, so `0 <= rh < rt` for a positive diameter and a hub ratio in `[0, 1)` |
| Blade.HubBelowTip | blade_gen/blade.py:13-14 | a positive diameter with a hub ratio below 1 puts the hub below the tip |
| Blade.SpanInterp | blade_gen/blade.py:25-34 | a spanwise law is `interp` as written over `linspace(rh, rt, len(vals))` and fails exactly when it does, with its error |
| Blade.SpanInterpDefined | blade_gen/blade.py:25-34 | over a non-empty span a law exists exactly when it has at least two values; with fewer the kernel fails on the empty matrix |
| Blade.SpanInterpOk | blade_gen/blade.py:25-34 | for `rh < rt` and at least two values the law exists and takes the given value at each of its span nodes |
| Blade.SpanInterpHub | blade_gen/blade.py:25-34 | a law of at least two values takes its first value at the hub |
| Blade.SpanInterpTip | blade_gen/blade.py:25-34 | a law of at least two values takes its last value at the tip |
| Blade.SpanInterpSingle | blade_gen/blade.py:25-34 | as written, a single value fails on the empty matrix, where the corrected `interp` gives the constant law |
| Blade.Collect | blade_gen/blade.py:24-34 | outcomes computed one after another, where a failure raises: the result exists exactly when every outcome does and lists them in order, and otherwise its error is that of the first failing one |
| Blade.SpanLaws | blade_gen/blade.py:25-34 | the laws of a list of parameter lists exist exactly when each does, in order, and otherwise the first failing one decides the error |
| Blade.MakeBamberger | blade_gen/blade.py:21-34 | the blade has the tip and hub radii of its diameter and the seven interpolated laws in order; it fails exactly when a law does, with that law's error |
| Blade.BambergerBuilds | blade_gen/blade.py:21-34 | with the hub below the tip, a blade is built exactly when every parameter list has at least two values, and otherwise fails on the empty matrix |
| Blade.ChordLaw | blade_gen/blade.py:25-26 | the blade's chord-ratio law is `cd_in` interpolated over the span |
| Blade.BuiltChordLaw | blade_gen/blade.py:25-26 | for a positive diameter, a hub ratio below 1 and at least two values per list, the blade is built and its chord ratio is the interpolated `cd_in` |
| Blade.BuiltRatioEnds | blade_gen/blade.py:24-25 | such a blade's chord-ratio law takes `cd_in[0]` at the hub and `cd_in[-1]` at the tip |
| Blade.BuiltChordEnds | blade_gen/blade.py:13-26 | such a blade has the chord `hub_ratio * d * cd_in[0]` at the hub and `d * cd_in[-1]` at the tip |
| Blade.LawEnds | blade_gen/blade.py:25-34 | a law interpolating a list over the span takes its first value at the hub and its last at the tip |
| Blade.ChordScale | blade_gen/blade.py:26 | the chord law `2 * r * cd(r)` at the hub is `hub_ratio * d * cd(rh)` and at the tip `d * cd(rt)` |
| Blade.ChordAtHubAndTip | blade_gen/blade.py:26 | a chord ratio `first` at the hub and `last` at the tip gives chords `hub_ratio * d * first` and `d * last` (`Blade.ChordEnds`) |
| Blade.QuarterChord | blade_gen/blade.py:91-93 | `uc` runs from 0 at `t = 0` to the chord at `t = 1`, and the quarter chord is `uc(1/4)`, strictly inside the chord |
| Blade.Wc | blade_gen/blade.py:131-135 | the camber is the fore parabola before `tk` and the aft one from `tk` on; it fails exactly when that branch divides by zero (`tk == 0` or `tk == 1`) |
| Blade.M | blade_gen/blade.py:137-141 | the camber slope has the same branches and fails exactly when the camber does |
| Blade.CamberEnds | blade_gen/blade.py:131-135 | for `0 < tk < 1` the camber is zero at both ends of the chord |
| Blade.CamberForePeak | blade_gen/blade.py:133 | the fore branch reaches `c * k` at `tk` |
| Blade.CamberAftPeak | blade_gen/blade.py:135 | the aft branch reaches `c * k` at `tk` |
| Blade.CamberShape | blade_gen/blade.py:131-141 | for `0 < tk < 1`: zero camber at both ends, both branches `c * k` at `tk` (so the camber is continuous), and zero slope on both branches there |
| Blade.CamberSlopeFore | blade_gen/blade.py:131-141 | on the fore branch, `wc(t + h) - wc(t)` is `c * h * m(t)` up to a term in `h ** 2`, so `m` is `d(wc / c) / dt` |
| Blade.CamberSlopeAft | blade_gen/blade.py:131-141 | the same on the aft branch |
| Blade.AsList | blade_gen/blade.py:167-169 | the list has eight entries: `a0` first, `d0` and `d1` at positions 4 and 5, and at positions 1, 2, 3, 6 and 7 the five unknowns the system is solved for, in the order `solve` returns them |
| Blade.ThicknessSystem | blade_gen/blade.py:161-165 | the corrected thickness system is 5 x 5 |
| Blade.ThicknessSystemAsWritten | blade_gen/blade.py:161-165 | the system as written is 5 x 5 and differs from the corrected one only in the sign of the last entry |
| Blade.ThicknessRhs | blade_gen/blade.py:166 | the right-hand side has five entries |
| Blade.SolveThickness | blade_gen/blade.py:167 | solving the system succeeds exactly for a non-zero determinant, and the unknowns then satisfy it |
| Blade.CoeffsWith | blade_gen/blade.py:154-169 | `coeffs` fails on a negative `ta` (`sqrt`), on a zero root and on a singular system, and otherwise has `a0 = sqrt(2.2038) * a`, `d0 = 0.01 * a` and the given `d1` |
| Blade.CoeffsSolve | blade_gen/blade.py:161-167 | the unknowns `coeffs` returns solve the system with its right-hand side |
| Blade.MeetRows | blade_gen/blade.py:161-166 | rows 0 to 3 against the right-hand side say exactly that both thickness pieces have the value `a` and zero slope at `ta` |
| Blade.CurvatureRow | blade_gen/blade.py:165 | the corrected row 4 says exactly that the two pieces have equal curvature at `ta` |
| Blade.CurvatureRowAsWritten | blade_gen/blade.py:165 | row 4 as written says that the curvature jumps by `-12 * d3 * (1 - ta)` at `ta` |
| Blade.ThicknessSystemMeaning | blade_gen/blade.py:161-166 | unknowns solve the corrected system exactly when the pieces meet at `ta` with value `a`, zero slope and equal curvature |
| Blade.ThicknessSystemAsWrittenMeaning | blade_gen/blade.py:161-166 | unknowns solve the system as written exactly when the pieces meet with value `a` and zero slope, and the curvature jumps by `-12 * d3 * (1 - ta)` |
| Blade.CoeffsMeet | blade_gen/blade.py:154-169 | the coefficients from the corrected system give pieces that meet at `ta` with value `a`, zero slope and equal curvature |
| Blade.D3Determined | blade_gen/blade.py:162-166 | the value and slope conditions on the aft piece alone fix `d3` |
| Blade.Coeffs | blade_gen/blade.py:154-178 | the corrected `coeffs` fails for a negative `ta`; otherwise it has `a0 = sqrt(2.2038) * a`, `d0 = 0.01 * a`, `d1` from the table, and pieces that meet at `ta` with value `a`, zero slope and equal curvature |
| Blade.KinkAtTableNode | blade_gen/blade.py:165 | at `ta = 0.4` with `a != 0`, `d0 = 0.01 * a` and the tabulated `d1 = 1.575 * a`, an aft piece with value `a` and zero slope there that also satisfies row 4 as written has a curvature different from the fore piece |
| Blade.CoeffsAsWrittenKinkWith | blade_gen/blade.py:154-169 | `coeffs` with the system as written at `ta = 0.4`, where `d1 = 1.575 * a`, gives pieces whose curvatures differ |
| Blade.CoeffsAsWrittenKink | blade_gen/blade.py:154-178 | `coeffs` as written at `ta = 0.4` with `a != 0` gives a thickness whose curvature jumps at `ta` |
| Blade.CoeffsAsWrittenMeet | blade_gen/blade.py:154-169 | the coefficients from the system as written, for any `d1`, give pieces that meet at `ta` with value `a` and zero slope, with the curvature jumping by `-12 * d3 * (1 - ta)` |
| Blade.CoeffsAsWritten | blade_gen/blade.py:154-178 | `coeffs` as written fails for a negative `ta`; otherwise it has `a0 = sqrt(2.2038) * a`, `d0 = 0.01 * a`, `d1` from the table, and pieces that meet at `ta` with value `a` and zero slope, while the curvature jumps by `-12 * d3 * (1 - ta)` |
| Blade.MakeSection | blade_gen/blade.py:117-125 | building a section fails exactly when `coeffs` as written does, with its error, and stores `c`, `k`, `tk`, `a`, `ta` and those coefficients |
| Blade.Sec | blade_gen/blade.py:79-81 | the section at radius `r` has the chord law and the interpolated `k`, `tk`, `a`, `ta` there, its coefficients are those of `coeffs` as written, and it fails exactly when that does |
| Ratio.RatioNodesValues | blade_gen/blade.py:174 | `linspace(0.2, 0.6, 5)` is exactly `[0.2, 0.3, 0.4, 0.5, 0.6]` |
| Ratio.RatioTableIsInterp | blade_gen/blade.py:174-177 | interpolating the ratio table succeeds, and `interp` as written gives the same table |
| Ratio.RatioTableAtNodes | blade_gen/blade.py:174-177 | the interpolated table takes every tabulated ratio at its node |
| Ratio.RatioTableValues | blade_gen/blade.py:174-177 | the interpolated table is 1.0, 1.17, 1.575, 2.325 and 3.5 at 0.2, 0.3, 0.4, 0.5 and 0.6 |
| Ratio.D1 | blade_gen/blade.py:172-178 | at each table node 0.2, 0.3, 0.4, 0.5, 0.6, `d1(a, ta)` is `a` times the tabulated ratio 1.0, 1.17, 1.575, 2.325, 3.5 |
| Profile.H | blade_gen/blade.py:145-149 | the thickness is `c` times the fore polynomial in `sqrt(t)` before `ta` and `c` times the aft cubic in `1 - t` from `ta` on; it fails exactly for a negative `t` before `ta` |
| Profile.HContinuousAt | blade_gen/blade.py:145-149 | where both pieces take the value `a` at `ta`, the thickness is `c * a` there from both sides |
| Profile.HContinuous | blade_gen/blade.py:143-149 | with the coefficients `NACA4m` computes (`coeffs` as written), the thickness is continuous at `ta` with value `c * a` |
| Profile.Point | blade_gen/blade.py:151 | a surface point exists exactly when `h` and `m` do; `h` fails first; it is the camber point offset by `h` along the normal |
| Profile.OffsetSymmetric | blade_gen/blade.py:151 | the upper and lower points are `2 * h` apart, with the camber point as their midpoint |
| Profile.SidesApart | blade_gen/blade.py:143-151 | at every `t` where one surface is defined, both are; they are `2 * h(t)` apart, and the camber point is their midpoint |
| BladeGrid.Reparam | blade_gen/blade.py:45 | there is one curve argument per sample of `linspace(0, 1, num_pts)` |
| BladeGrid.AllIncreasingMeaning | blade_gen/blade.py:47 | the check on consecutive pairs passes exactly when each argument exceeds the one before |
| BladeGrid.IncreasingStrict | blade_gen/blade.py:47 | each argument exceeding the one before is the same as the arguments strictly increasing |
| BladeGrid.DefaultReparamIncreasing | blade_gen/blade.py:36-47 | the default `f(t) = t` always passes the check |
| BladeGrid.FlowAngleDefined | blade_gen/blade.py:57 | the flow angle is defined exactly when `rt != 0`, `r != 0` and `rh != +-rt`; otherwise it divides by zero |
| BladeGrid.FlowAngleOnBlade | blade_gen/blade.py:57 | on a blade with a positive diameter and a hub ratio in `[0, 1)`, the flow angle fails only at `r == 0` |
| BladeGrid.Twist | blade_gen/blade.py:57 | the twist exists exactly when the flow angle does, and only at a non-zero radius |
| BladeGrid.AdvanceLength | blade_gen/blade.py:58-61 | each station moves the stacking line by exactly `turn`, measured on the unrolled cylinder of radius `r` |
| BladeGrid.PlaceOnCylinder | blade_gen/blade.py:72-73 | every placed point lies on the cylinder of radius `r` |
| BladeGrid.PlaceCentroid | blade_gen/blade.py:65-70 | the centroid itself maps to the stacking-line point `(az0, z0)` |
| BladeGrid.UnrolledIsometric | blade_gen/blade.py:66-70 | the azimuth and height mapping is a rigid motion of the section onto the unrolled cylinder: it keeps distances |
| BladeGrid.UnrolledArc | blade_gen/blade.py:69 | azimuth differences times `r` are the rotated chordwise differences |
| BladeGrid.UnrolledHeight | blade_gen/blade.py:70 | height differences are the rotated normal differences |
| BladeGrid.Curve | blade_gen/blade.py:75 | a surface curve at the arguments exists exactly when each point does; it lists the points in order, and the first failing point decides the error |
| BladeGrid.Row | blade_gen/blade.py:65-75 | a row has one point per argument, each point placed on the cylinder, and fails exactly when the curve does |
| BladeGrid.StationAt | blade_gen/blade.py:54-75 | a station that succeeds is at a non-zero radius and has one point per argument on each surface |
| BladeGrid.GenFrom | blade_gen/blade.py:53-75 | the loop adds one row per station to each surface and keeps the rows before |
| BladeGrid.GenFromUnfold | blade_gen/blade.py:53-75 | one pass: the first station either raises or appends its rows and hands on its frame |
| BladeGrid.GenFromRows | blade_gen/blade.py:53-75 | any property every station's rows have at their radius holds for every row the loop adds, at the radius of its own station |
| BladeGrid.GenFromWidth | blade_gen/blade.py:53-75 | steps of width `w` give a grid with one row per station, each of width `w` |
| BladeGrid.StepWidth | blade_gen/blade.py:63-75 | each station's rows have one point per curve argument |
| BladeGrid.GenErrors | blade_gen/blade.py:41-47 | zero sections divide by zero in `dr`; otherwise arguments that do not increase fail the check; a grid that is returned has strictly increasing arguments |
| BladeGrid.GenGridLoop | blade_gen/blade.py:36-77 | past its two checks, `gen` is the loop over `linspace(0.99 * rh, rt, num_secs)` from `az0 == z0 == 0` |
| BladeGrid.GenShape | blade_gen/blade.py:43-75 | a grid `gen` returns has `max(num_secs, 0)` rows on each surface and `max(num_pts, 0)` points in every row |
| BladeGrid.RowOnCylinder | blade_gen/blade.py:68-75 | every point of a row lies on the cylinder of the station radius |
| BladeGrid.StationOnCylinder | blade_gen/blade.py:53-75 | both rows of a station lie on the cylinder of its radius |
| BladeGrid.StepOnCylinder | blade_gen/blade.py:53-75 | the same for the loop body as a step function |
| BladeGrid.GenOnStations | blade_gen/blade.py:36-77 | row `k` of each surface lies on the cylinder whose radius is the `k`-th station radius |
| BladeGrid.StationStep | blade_gen/blade.py:54-75 | the loop body computes the station specified by `StationAt` |
| BladeGrid.GenStations | blade_gen/blade.py:38-77 | the loop that advances `az0`, `z0` and writes row `i` of each surface in place returns the grid `GenFrom` specifies |
| BladeGrid.Gen | blade_gen/blade.py:36-77 | `gen` returns exactly the grid `GenGrid` specifies, errors included |

## Left out

- Floating point: every number is an exact real. Rounding, overflow and `inf`/`nan` are not modelled. So `linspace` ends exactly at `last`, and the kernel's determinant is exact.
- `sqrt`, `sin`, `cos`, `tan` and `atan` are not defined. They are the function parameters in `Blade.Trig`. Properties about geometry assume only `sin(x) ** 2 + cos(x) ** 2 == 1` (`Profile.Pythagorean`).
- `Section.centroid` (blade_gen/blade.py:95-112) is a parameter of `BladeGrid.Gen`. Its numeric loop uses `sqrt` distances, `int()` truncation of step counts and a division that fails when every distance is below the step, and none of that is modelled.
- `BladeGrid.Gen` also takes the section builder `r -> sec(r)` as a parameter. The program passes `Blade.Sec` with the square root from `Trig`. The grid properties hold for any builder.
- `Bamberger.sec` is called twice per station in the program, once for the profile and once for the centroid. Both calls give the same section, so the model calls it once.
- Python dictionaries have no key order. The model visits `'upper'` before `'lower'`. When both surfaces fail at the same station, the program may report the lower error instead.
- The rows of `pts` start out as one shared list, `[[None] * num_pts] * num_secs`. Every row is then replaced, never updated, so the sharing is not modelled. The model starts from empty rows.
- `map` returns a list (Python 2 semantics, which the `args[1:]` slicing at blade_gen/blade.py:47 requires).
- `Ratio.RatioTable`: the fallback `Const(0.0)` for an error is never taken (`Ratio.RatioTableIsInterp`), so it models nothing of the program.
- `Matrix.__init__` and `Vector.__init__` with a scalar or `None` argument (blade_gen/linalg.py:9-10, 124-125) are not modelled. Only lists of rows and lists of entries are. `Matrix([])` raising is the `EmptyMatrix` error.
- `Matrix.__mul__`, `__truediv__` and `__rtruediv__` (blade_gen/linalg.py:30-45) only dispatch on the operand type. They appear as the operations they call (`MulConst`, `MulVec`, `DivConst`, `Solve`). An operand of another type returns `None`, and that is not modelled.
- `Matrix.__str__` and `Vector.__str__` are not modelled: presentation only, and `Matrix.__str__` refers to an undefined name.
- `Polynomial.__str__` is not modelled: float-to-string formatting.
- `Sin`, `Cos`, `Tan`, `Atan`, `Root` and `Sqrt` in blade_gen/function.py are not modelled: transcendental functions or non-integer exponents.
- `Composite` and `Curve` in blade_gen/function.py are not modelled. They cannot run as written: they refer to undefined names, and `Composite.__call__` has no `self`.
- `Function.order` is not modelled: it is stored but never read.
- `Piecewise.antiderivative` (blade_gen/function.py:151-153) refers to the undefined names `bound` and `bounds`. It is modelled as the error `UndefinedName`.
- `Piecewise.__call__` (blade_gen/function.py:122) is declared without `self`, so calling it raises. The model gives it the evident intended selection rule (`Functions.PiecewiseEval`).
- blade_gen/function.py:6 imports `dot` and `prod` from `helper`, which defines neither, and `_int_trap` uses `linspace` without importing it. The model gives them their evident meaning: the product of a list, and `Helper.Linspace`.
- `LinAlg.MulVec`: requires every row to be at least as long as the vector. With a shorter row, `_mul_vec` (blade_gen/linalg.py:70-72) raises an index error. That error is modelled one level up, as `IndexOutOfRange` in `LinAlg.Solve` and `LinAlg.SolveAsWritten`, the only products of a matrix and a vector the program forms. Their own calls (`interp`, `coeffs`) always pass one entry per row.
- `LinAlg.Solve`: requires a rectangular matrix (`Rect`: every row as long as the first). `Matrix.__init__` (blade_gen/linalg.py:7-12) also accepts ragged rows, and what `solve` then does on them is not modelled. The program only builds square systems.
- `LinAlg.SolveAsWritten`: requires a rectangular matrix, for the same reason as `LinAlg.Solve`.
- `Profile.HContinuous`: states continuity of the thickness at `ta` only. Away from `ta` each piece is a polynomial in `t` or `sqrt(t)`, and `sqrt` is a parameter here.
- blade_gen/gen.py is not part of this model: it drives a CAD library.
- blade_gen/test.py is not part of this model: it calls methods that do not exist.
- op_data/merge.py and op_data/parse.py are not part of this model: filesystem and process orchestration.

## Findings

| source | as written | input that shows it | evidently intended | confidence | as-written member | corrected member |
|---|---|---|---|---|---|---|
| blade_gen/linalg.py:107-109 | `adj` of a 1 x 1 matrix builds `sub(0, 0)` as `Matrix([])`, which raises on `dat[0]`. So `inv`, `solve` and `interp` fail on a single point. | `interp([x0], [y0])`, or `Matrix([[2]]).solve(Vector([4]))` | the adjugate of `[[a]]` is `[[1]]`, so `solve` gives `[b / a]` and `interp` of one point is the constant `y0` | not executed | LinAlg.AdjAsWritten, LinAlg.SolveAsWritten, Helper.InterpAsWritten, Helper.InterpSinglePoint, Blade.SpanInterpSingle | LinAlg.Adj, LinAlg.Inv, LinAlg.Solve, Helper.Interp |
| blade_gen/blade.py:165 | row 4 of the thickness system has `+6 * (1 - ta)` for `d3`, so its solution satisfies "fore curvature - aft curvature = -12 * d3 * (1 - ta)" | `coeffs(a, 0.4)` with `a != 0` | `-6 * (1 - ta)`: the second derivatives of the two pieces agree at `ta`, as rows 0 to 3 match value and slope | not executed | Blade.CoeffsAsWrittenKink, Blade.CoeffsAsWritten | Blade.Coeffs, Blade.ThicknessSystemMeaning |
| blade_gen/function.py:79-81 | `sum([...antiderivatives])` starts from the integer 0, and `0 + Function` raises | `Sum([Constant(1), Constant(2)]).antiderivative()` | the `Sum` of the antiderivatives | not executed | Functions.SumAntiderivativeAsWritten, Functions.SumAntiderivativeFails | Functions.DerivativeOfAntiderivative, Functions.AntiderivativeAll |
