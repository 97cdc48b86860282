/**
  The small dense linear-algebra kernel of the blade generator
  (blade_gen/linalg.py): matrices as lists of rows of reals, the recursive
  first-row Laplace determinant, the adjugate, the inverse adj/det and the
  solve inv*b.

  Matrices are values (`Mat`); the two classes at the end model the one
  operation that changes a matrix or vector in place, item assignment.
*/
module LinAlg {
  import opened Sums
  import opened Wrappers

  type Mat = seq<seq<real>>

  /** Why a kernel operation fails. */
  datatype Error =
    | EmptyMatrix   // a Matrix built from an empty list of rows (its first row is looked up)
    | NotSquare     // determinant of a non-square matrix (the assertion in det)
    | Singular      // division by a zero determinant in inv
    | IndexOutOfRange // `_mul_vec` reads `b[j]` for every j of b, past the end of a shorter row

  /** At least one row, and every row as long as the first. */
  predicate Rect(A: Mat)
  {
    |A| >= 1 && forall i :: 0 <= i < |A| ==> |A[i]| == |A[0]|
  }

  /** n x n with n >= 1. */
  predicate Square(A: Mat)
  {
    |A| >= 1 && forall i :: 0 <= i < |A| ==> |A[i]| == |A|
  }

  /** `range(n - 1)` has `n - 1` elements, and none when `n` is zero. */
  function Shrunk(n: nat): nat
  {
    if n == 0 then 0 else n - 1
  }

  /** `k + int(k >= i)`: the index in the original of the `k`-th kept index. */
  function Skip(k: nat, i: nat): nat
  {
    if k >= i then k + 1 else k
  }

  /** `k` is even. */
  predicate Even(k: nat)
  {
    if k == 0 then true else !Even(k - 1)
  }

  /** `(-1)**k * x`. */
  function Sign(k: nat, x: real): real
  {
    if Even(k) then x else -x
  }

  /** Equal factors give equal products (stated once, so that products need not be compared inside larger proofs). */
  lemma MulLeft(a: real, x: real, y: real)
    requires x == y
    ensures a * x == a * y
  {
  }

  /** A factor passes through a sign. */
  lemma SignFactor(a: real, k: nat, x: real)
    ensures a * Sign(k, x) == Sign(k, a * x)
  {
  }

  /** `is_square`: the number of rows equals the number of columns. */
  function IsSquare(A: Mat): (b: bool)
    requires Rect(A)
    ensures b <==> Square(A)
  {
    |A| == |A[0]|
  }

  /** `_mul_const`: every entry multiplied by `c`. */
  function MulConst(A: Mat, c: real): (B: Mat)
    ensures |B| == |A|
    ensures forall i :: 0 <= i < |A| ==> |B[i]| == |A[i]|
    ensures forall i, j {:trigger B[i][j]} :: 0 <= i < |A| && 0 <= j < |A[i]| ==> B[i][j] == c * A[i][j]
  {
    seq(|A|, i requires 0 <= i < |A| => seq(|A[i]|, j requires 0 <= j < |A[i]| => c * A[i][j]))
  }

  /** `_div_const`: every entry divided by `c`; dividing by zero raises, so `c` is non-zero. */
  function DivConst(A: Mat, c: real): (B: Mat)
    requires c != 0.0
    ensures |B| == |A|
    ensures forall i :: 0 <= i < |A| ==> |B[i]| == |A[i]|
    ensures forall i, j {:trigger B[i][j]} :: 0 <= i < |A| && 0 <= j < |A[i]| ==> B[i][j] * c == A[i][j]
  {
    seq(|A|, i requires 0 <= i < |A| => seq(|A[i]|, j requires 0 <= j < |A[i]| => A[i][j] / c))
  }

  /** The terms `row[j] * b[j]` of one entry of a matrix-vector product. */
  function RowTimes(row: seq<real>, b: seq<real>): seq<real>
    requires |b| <= |row|
  {
    seq(|b|, j requires 0 <= j < |b| => row[j] * b[j])
  }

  /**
    `_mul_vec`: one entry per row, the sum of `row[j] * b[j]` over the
    indices of `b` (a row shorter than `b` raises an index error).
  */
  function MulVec(A: Mat, b: seq<real>): (r: seq<real>)
    requires forall i :: 0 <= i < |A| ==> |b| <= |A[i]|
    ensures |r| == |A|
    ensures forall i :: 0 <= i < |A| ==> r[i] == SumSeq(RowTimes(A[i], b))
  {
    seq(|A|, i requires 0 <= i < |A| => SumSeq(RowTimes(A[i], b)))
  }

  /** `transpose` of a square matrix (its ranges are swapped, so only square input is safe). */
  function Transpose(A: Mat): (T: Mat)
    requires Square(A)
    ensures Square(T) && |T| == |A|
    ensures forall i, j {:trigger T[i][j]} :: 0 <= i < |A| && 0 <= j < |A| ==> T[i][j] == A[j][i]
  {
    seq(|A|, i requires 0 <= i < |A| => seq(|A|, j requires 0 <= j < |A| => A[j][i]))
  }

  /** `sub(i, j)`: the entries left after striking row `i` and column `j`. */
  function Sub(A: Mat, i: nat, j: nat): (S: Mat)
    requires Rect(A)
    ensures |S| == |A| - 1
    ensures forall k :: 0 <= k < |S| ==> |S[k]| == Shrunk(|A[0]|)
    ensures forall k, l {:trigger S[k][l]} :: 0 <= k < |A| - 1 && 0 <= l < Shrunk(|A[0]|) ==> S[k][l] == A[Skip(k, i)][Skip(l, j)]
  {
    seq(|A| - 1, k requires 0 <= k < |A| - 1 =>
      seq(Shrunk(|A[0]|), l requires 0 <= l < Shrunk(|A[0]|) => A[Skip(k, i)][Skip(l, j)]))
  }

  /**
    `det`: a 1 x 1 matrix is its entry; otherwise the sum over the first row
    of each entry times its cofactor (see `DetExpansion`).
  */
  function Det(A: Mat): real
    requires Square(A)
  {
    DetRec(A)
  }

  /**
    The recursion behind `Det`, accumulating the first-row terms left to
    right in `FirstRowSum`. Keeping it behind the non-recursive `Det` lets
    every statement about a determinant mention one and the same term.
  */
  function DetRec(A: Mat): real
    requires Square(A)
    decreases |A|, 1
  {
    if |A| == 1 then A[0][0] else FirstRowSum(A, |A|)
  }

  /** The sum of the first `k` terms `self[0, i] * cofactor(0, i)`, each written `(-1)**i * (self[0, i] * minor(0, i))`. */
  function FirstRowSum(A: Mat, k: nat): real
    requires Square(A) && |A| >= 2 && k <= |A|
    decreases |A|, 0, k
  {
    if k == 0 then 0.0 else FirstRowSum(A, k - 1) + Sign(k - 1, A[0][k - 1] * DetRec(Sub(A, 0, k - 1)))
  }

  /** `minor(i, j)`: the determinant of `sub(i, j)`. */
  function Minor(A: Mat, i: nat, j: nat): real
    requires Square(A) && |A| >= 2 && i < |A| && j < |A|
  {
    Det(Sub(A, i, j))
  }

  /** `cofactor(i, j)`: the signed minor. */
  function Cofactor(A: Mat, i: nat, j: nat): real
    requires Square(A) && |A| >= 2 && i < |A| && j < |A|
  {
    Sign(i + j, Minor(A, i, j))
  }

  /** The terms `self[0, i] * cofactor(0, i)` of the first-row expansion. */
  function FirstRowTerms(A: Mat): seq<real>
    requires Square(A) && |A| >= 2
  {
    seq(|A|, i requires 0 <= i < |A| => A[0][i] * Cofactor(A, 0, i))
  }

  /** `det` of a matrix of size at least 2 is the sum of its first-row terms. */
  lemma DetExpansion(A: Mat)
    requires Square(A) && |A| >= 2
    ensures Det(A) == SumSeq(FirstRowTerms(A))
  {
    FirstRowSumPrefix(A, |A|);
    assert FirstRowTerms(A)[..|A|] == FirstRowTerms(A);
  }

  /** What `det` computes at every size: the single entry of a 1 x 1 matrix,
      the first-row cofactor expansion from size 2 on. */
  lemma DetMeaning(A: Mat)
    requires Square(A)
    ensures |A| == 1 ==> Det(A) == A[0][0]
    ensures |A| >= 2 ==> Det(A) == SumSeq(FirstRowTerms(A))
  {
    if |A| >= 2 {
      DetExpansion(A);
    }
  }

  lemma {:induction false} FirstRowSumPrefix(A: Mat, k: nat)
    requires Square(A) && |A| >= 2 && k <= |A|
    ensures FirstRowSum(A, k) == SumSeq(FirstRowTerms(A)[..k])
    decreases k
  {
    if k > 0 {
      FirstRowSumPrefix(A, k - 1);
      var t := FirstRowTerms(A);
      var p := t[..k];
      assert p[..k - 1] == t[..k - 1];
      assert SumSeq(p) == SumSeq(p[..k - 1]) + p[k - 1];
      var a, d := A[0][k - 1], Det(Sub(A, 0, k - 1));
      assert p[k - 1] == a * Cofactor(A, 0, k - 1);
      assert Cofactor(A, 0, k - 1) == Sign(k - 1, d);
      MulLeft(a, Cofactor(A, 0, k - 1), Sign(k - 1, d));
      SignFactor(a, k - 1, d);
    }
  }

  /** `det` with its assertion: a non-square matrix has no determinant. */
  function TryDet(A: Mat): (r: Result<real, Error>)
    requires Rect(A)
    ensures r.Ok? <==> Square(A)
    ensures r.Ok? ==> r.value == Det(A)
  {
    if IsSquare(A) then Ok(Det(A)) else Err(NotSquare)
  }

  /** The matrix of cofactors, before `adj` transposes it. */
  function CofactorMatrix(A: Mat): (C: Mat)
    requires Square(A) && |A| >= 2
    ensures Square(C) && |C| == |A|
    ensures forall i, j :: 0 <= i < |A| && 0 <= j < |A| ==> C[i][j] == Cofactor(A, i, j)
  {
    seq(|A|, i requires 0 <= i < |A| => seq(|A|, j requires 0 <= j < |A| => Cofactor(A, i, j)))
  }

  /**
    `adj` as written: for a 1 x 1 matrix `sub` builds a Matrix from an empty
    list of rows, whose constructor fails looking up the first row.
  */
  function AdjAsWritten(A: Mat): (r: Result<Mat, Error>)
    requires Square(A)
    ensures r.Err? <==> |A| == 1
  {
    if |A| == 1 then Err(EmptyMatrix) else Ok(Transpose(CofactorMatrix(A)))
  }

  /**
    `adj`: the transposed cofactor matrix. The adjugate of a 1 x 1 matrix is
    [[1]] (the cofactor of its entry is the determinant of the empty matrix).
  */
  function Adj(A: Mat): (B: Mat)
    requires Square(A)
    ensures Square(B) && |B| == |A|
  {
    if |A| == 1 then [[1.0]] else Transpose(CofactorMatrix(A))
  }

  /** Entry `(i, j)` of the adjugate is the cofactor `(j, i)`, and from size 2 on `adj` as written agrees. */
  lemma AdjEntries(A: Mat)
    requires Square(A) && |A| >= 2
    ensures forall i, j :: 0 <= i < |A| && 0 <= j < |A| ==> Adj(A)[i][j] == Cofactor(A, j, i)
    ensures AdjAsWritten(A) == Ok(Adj(A))
  {
  }

  /** `inv`: `adj() / det()`; a zero determinant is a division by zero. */
  function Inv(A: Mat): (r: Result<Mat, Error>)
    requires Square(A)
    ensures r.Ok? <==> Det(A) != 0.0
    ensures r.Ok? ==> Square(r.value) && |r.value| == |A|
  {
    var d := Det(A);
    if d == 0.0 then Err(Singular) else Ok(DivConst(Adj(A), d))
  }

  /** Each entry of the inverse times the determinant is the matching entry of the adjugate. */
  lemma InvEntries(A: Mat)
    requires Square(A) && Det(A) != 0.0
    ensures Inv(A).Ok?
    ensures forall i, j :: 0 <= i < |A| && 0 <= j < |A| ==> Inv(A).value[i][j] * Det(A) == Adj(A)[i][j]
  {
  }

  /**
    `solve` as written: `inv` runs `adj` before `det`, and the first
    cofactor `adj` takes strikes row 0. Of a matrix with one row and at
    least one column that leaves a Matrix of no rows, whose constructor
    fails. A single empty row has no cofactors at all, so `adj` succeeds
    and `det` then fails on the 1 x 0 matrix; of a larger non-square
    matrix the first minor is non-square and its `det` fails. A vector
    longer than the rows fails in the final product.
  */
  function SolveAsWritten(A: Mat, b: seq<real>): (r: Result<seq<real>, Error>)
    requires Rect(A)
    ensures |A| == 1 && |A[0]| >= 1 ==> r == Err(EmptyMatrix)
    ensures !Square(A) && !(|A| == 1 && |A[0]| >= 1) ==> r == Err(NotSquare)
    ensures Square(A) && |A| >= 2 && Det(A) != 0.0 && |b| > |A| ==> r == Err(IndexOutOfRange)
    ensures r.Ok? ==> Square(A) && Det(A) != 0.0 && |b| <= |A| && |r.value| == |A|
  {
    if !IsSquare(A) then (if |A| == 1 && |A[0]| >= 1 then Err(EmptyMatrix) else Err(NotSquare))
    else
      var adj :- AdjAsWritten(A);
      var d := Det(A);
      if d == 0.0 then Err(Singular)
      else if |b| > |A| then Err(IndexOutOfRange)
      else Ok(MulVec(DivConst(adj, d), b))
  }

  /**
    `solve(b)`: `inv() * b`. Fails for a non-square matrix, for a zero
    determinant, and, in the product, for a vector longer than the rows;
    otherwise one entry per row.
  */
  function Solve(A: Mat, b: seq<real>): (r: Result<seq<real>, Error>)
    requires Rect(A)
    ensures r.Ok? <==> Square(A) && Det(A) != 0.0 && |b| <= |A|
    ensures r == Err(IndexOutOfRange) <==> Square(A) && Det(A) != 0.0 && |b| > |A|
    ensures r.Ok? ==> |r.value| == |A|
  {
    if !IsSquare(A) then Err(NotSquare)
    else
      var inv :- Inv(A);
      if |b| > |A| then Err(IndexOutOfRange) else Ok(MulVec(inv, b))
  }

  /** From size 2 on, `solve` as written computes the same result. */
  lemma SolveAgreesAsWritten(A: Mat, b: seq<real>)
    requires Square(A) && |A| >= 2
    ensures Solve(A, b) == SolveAsWritten(A, b)
  {
    AdjEntries(A);
  }

  /** Number of entries of a list of rows (`len` of a Matrix). */
  function EntryCount(rows: Mat): nat
  {
    if |rows| == 0 then 0 else EntryCount(rows[..|rows| - 1]) + |rows[|rows| - 1]|
  }

  /** A rectangular m x n matrix has m * n entries. */
  lemma {:induction false} EntryCountRect(rows: Mat, n: nat)
    requires forall i :: 0 <= i < |rows| ==> |rows[i]| == n
    ensures EntryCount(rows) == |rows| * n
    decreases |rows|
  {
    if |rows| > 0 {
      EntryCountRect(rows[..|rows| - 1], n);
    }
  }

  /** A matrix object; item assignment changes one entry in place. */
  class Matrix {
    var dat: Mat
    const m: nat
    const n: nat

    ghost predicate Valid()
      reads this
    {
      |dat| >= 1 && m == |dat| && n == |dat[0]|
    }

    /** `Matrix(dat)`: copies the rows and records the number of rows and of columns of the first row. */
    constructor (rows: Mat)
      requires |rows| >= 1
      ensures Valid() && dat == rows
      ensures m == |rows| && n == |rows[0]|
    {
      dat := rows;
      m := |rows|;
      n := |rows[0]|;
    }

    /** `len`: the total number of entries. */
    function Len(): (r: nat)
      reads this
      requires Valid()
      ensures Rect(dat) ==> r == m * n
    {
      if Rect(dat) then EntryCountRect(dat, n); EntryCount(dat) else EntryCount(dat)
    }

    /** `self[i, j]`. */
    function Get(i: nat, j: nat): real
      reads this
      requires i < |dat| && j < |dat[i]|
    {
      dat[i][j]
    }

    /** `self[i, j] = v`: exactly that entry changes. */
    method Set(i: nat, j: nat, v: real)
      requires Valid()
      requires i < |dat| && j < |dat[i]|
      modifies this
      ensures Valid()
      ensures dat == old(dat)[i := old(dat)[i][j := v]]
      ensures Get(i, j) == v
      ensures forall k, l :: 0 <= k < |dat| && 0 <= l < |dat[k]| && (k, l) != (i, j) ==> dat[k][l] == old(dat)[k][l]
    {
      dat := dat[i := dat[i][j := v]];
    }
  }

  /** A vector object; item assignment changes one entry in place. */
  class Vector {
    var dat: seq<real>
    const m: nat

    ghost predicate Valid()
      reads this
    {
      m == |dat|
    }

    /** `Vector(dat)`: stores the entries and their number. */
    constructor (entries: seq<real>)
      ensures Valid() && dat == entries
    {
      dat := entries;
      m := |entries|;
    }

    /** `len`: the number of entries. */
    function Len(): (r: nat)
      reads this
      requires Valid()
      ensures r == m
    {
      |dat|
    }

    /** `self[i]`. */
    function Get(i: nat): real
      reads this
      requires i < |dat|
    {
      dat[i]
    }

    /** `self[i] = v`: exactly that entry changes. */
    method Set(i: nat, v: real)
      requires Valid()
      requires i < |dat|
      modifies this
      ensures Valid()
      ensures dat == old(dat)[i := v]
    {
      dat := dat[i := v];
    }
  }
}
