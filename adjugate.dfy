/**
  Why `inv` and `solve` of blade_gen/linalg.py are right: the first-row
  determinant can be expanded along any row, expanding along one row with
  the cofactors of another gives zero, so the matrix times its adjugate is
  det * I, and for a non-zero determinant `solve(b)` returns an x with A x = b.
*/
module Adjugate {
  import opened Sums
  import opened LinAlg
  import opened DetRows
  import opened DetCols
  import opened Wrappers

  /** `(-1)**(a + b) = (-1)**a * (-1)**b`. */
  lemma {:induction false} SignAdd(a: nat, b: nat, x: real)
    ensures Sign(a + b, x) == Sign(a, Sign(b, x))
    decreases a
  {
    if a > 0 {
      SignAdd(a - 1, b, x);
      SignStep(a - 1 + b, x);
      SignStep(a - 1, Sign(b, x));
    }
  }

  /** A sign applied twice cancels. */
  lemma {:induction false} SignTwice(k: nat, x: real)
    ensures Sign(k, Sign(k, x)) == x
    decreases k
  {
    if k > 0 {
      SignTwice(k - 1, x);
      SignStep(k - 1, x);
      SignStep(k - 1, Sign(k, x));
      SignLinear(k - 1, -1.0, Sign(k - 1, x));
    }
  }

  /** The terms `A[k][j] * cofactor(k, j)` of the expansion along row `k`. */
  function RowTerms(A: Mat, k: nat): seq<real>
    requires Square(A) && |A| >= 2 && k < |A|
  {
    seq(|A|, j requires 0 <= j < |A| => A[k][j] * Cofactor(A, k, j))
  }

  /** Each term along row `k` is, up to (-1)^k, the first-row term of the matrix with row `k` raised to the top. */
  lemma RowTermRaised(A: Mat, k: nat, j: nat)
    requires Square(A) && |A| >= 2 && k < |A| && j < |A|
    ensures Square(RaiseRow(A, k))
    ensures RowTerms(A, k)[j] == Sign(k, FirstRowTerms(RaiseRow(A, k))[j])
  {
    RaiseRowDet(A, k);
    var P := RaiseRow(A, k);
    var d := Det(Sub(A, k, j));
    RaiseRowSub(A, k, j);
    FirstRowTermAt(P, j);
    assert P[0][j] == A[k][j];
    assert Cofactor(A, k, j) == Sign(k + j, d);
    MulLeft(A[k][j], Cofactor(A, k, j), Sign(k + j, d));
    SignFactor(A[k][j], k + j, d);
    SignAdd(k, j, A[k][j] * d);
  }

  /** Laplace expansion along any row gives the same determinant. */
  lemma RowExpansion(A: Mat, k: nat)
    requires Square(A) && |A| >= 2 && k < |A|
    ensures Det(A) == SumSeq(RowTerms(A, k))
  {
    RaiseRowDet(A, k);
    var P := RaiseRow(A, k);
    forall j | 0 <= j < |A|
      ensures RowTerms(A, k)[j] == Sign(k, FirstRowTerms(P)[j])
    {
      RowTermRaised(A, k, j);
    }
    SumSign(FirstRowTerms(P), RowTerms(A, k), k);
    DetExpansion(P);
    SignTwice(k, Det(A));
  }

  /** The terms `A[i][j] * cofactor(k, j)`: row `i` against the cofactors of row `k`. */
  function MixedTerms(A: Mat, i: nat, k: nat): seq<real>
    requires Square(A) && |A| >= 2 && i < |A| && k < |A|
  {
    seq(|A|, j requires 0 <= j < |A| => A[i][j] * Cofactor(A, k, j))
  }

  /** The cofactors along row `k` do not depend on the entries of row `k`. */
  lemma CofactorIgnoresRow(A: Mat, k: nat, row: seq<real>, j: nat)
    requires Square(A) && |A| >= 2 && k < |A| && j < |A| && |row| == |A|
    ensures Square(A[k := row])
    ensures Cofactor(A[k := row], k, j) == Cofactor(A, k, j)
  {
    var B := A[k := row];
    SquareExt(Sub(B, k, j), Sub(A, k, j));
  }

  /** Expanding along row `k` with the entries of another row `i` gives zero. */
  lemma AlienRowZero(A: Mat, i: nat, k: nat)
    requires Square(A) && |A| >= 2 && i < |A| && k < |A| && i != k
    ensures SumSeq(MixedTerms(A, i, k)) == 0.0
  {
    var B := A[k := A[i]];
    forall j | 0 <= j < |A|
      ensures RowTerms(B, k)[j] == MixedTerms(A, i, k)[j]
    {
      CofactorIgnoresRow(A, k, A[i], j);
      MulLeft(A[i][j], Cofactor(B, k, j), Cofactor(A, k, j));
    }
    assert RowTerms(B, k) == MixedTerms(A, i, k);
    RowExpansion(B, k);
    if i < k {
      EqualRowsZero(B, i, k);
    } else {
      EqualRowsZero(B, k, i);
    }
  }

  /** Row `i` of A against column `k` of a matrix B. */
  function RowCol(A: Mat, B: Mat, i: nat, k: nat): seq<real>
    requires Square(A) && Square(B) && |A| == |B| && i < |A| && k < |A|
  {
    seq(|A|, j requires 0 <= j < |A| => A[i][j] * B[j][k])
  }

  /** `A * adj(A) = det(A) * I`: row `i` against column `k` of the adjugate. */
  lemma AdjugateIdentity(A: Mat, i: nat, k: nat)
    requires Square(A) && i < |A| && k < |A|
    ensures SumSeq(RowCol(A, Adj(A), i, k)) == if i == k then Det(A) else 0.0
  {
    var t := RowCol(A, Adj(A), i, k);
    if |A| == 1 {
      assert t == [] + [A[0][0] * 1.0];
      SumAppend([], A[0][0] * 1.0);
    } else {
      AdjEntries(A);
      forall j | 0 <= j < |A|
        ensures t[j] == MixedTerms(A, i, k)[j]
      {
        MulLeft(A[i][j], Adj(A)[j][k], Cofactor(A, k, j));
      }
      assert t == MixedTerms(A, i, k);
      if i == k {
        assert t == RowTerms(A, k);
        RowExpansion(A, k);
      } else {
        AlienRowZero(A, i, k);
      }
    }
  }

  /** `A * inv(A) = I` when the determinant is non-zero. */
  lemma InverseIdentity(A: Mat, i: nat, k: nat)
    requires Square(A) && i < |A| && k < |A| && Det(A) != 0.0
    ensures Inv(A).Ok?
    ensures SumSeq(RowCol(A, Inv(A).value, i, k)) == if i == k then 1.0 else 0.0
  {
    var d := Det(A);
    var s := RowCol(A, Inv(A).value, i, k);
    var t := RowCol(A, Adj(A), i, k);
    AdjScalesInv(A, i, k);
    SumScale(s, t, d);
    AdjugateIdentity(A, i, k);
    DivideOut(d, SumSeq(s), if i == k then 1.0 else 0.0);
  }

  /** Row `i` against column `k` of the adjugate is `det(A)` times that of the inverse, term by term. */
  lemma AdjScalesInv(A: Mat, i: nat, k: nat)
    requires Square(A) && i < |A| && k < |A| && Det(A) != 0.0
    ensures Inv(A).Ok?
    ensures forall j :: 0 <= j < |A| ==> RowCol(A, Adj(A), i, k)[j] == Det(A) * RowCol(A, Inv(A).value, i, k)[j]
  {
    InvEntries(A);
    var N := Inv(A).value;
    forall j | 0 <= j < |A|
      ensures RowCol(A, Adj(A), i, k)[j] == Det(A) * RowCol(A, N, i, k)[j]
    {
      assert Adj(A)[j][k] == N[j][k] * Det(A);
      MulLeft(A[i][j], Adj(A)[j][k], N[j][k] * Det(A));
    }
  }

  lemma DivideOut(d: real, x: real, y: real)
    requires d != 0.0 && d * y == d * x
    ensures x == y
  {
    assert d * (x - y) == 0.0;
  }

  /** One entry of `A * (N * b)`, as the double sum over the table `A[i][j] * (N[j][l] * b[l])`. */
  function ProductTable(A: Mat, N: Mat, b: seq<real>, i: nat): seq<seq<real>>
    requires Square(A) && Square(N) && |A| == |N| == |b| && i < |A|
  {
    seq(|A|, j requires 0 <= j < |A| => seq(|A|, l requires 0 <= l < |A| => A[i][j] * (N[j][l] * b[l])))
  }

  /** Summing the table row by row gives entry `i` of `A * (N * b)`. */
  lemma ProductRows(A: Mat, N: Mat, b: seq<real>, i: nat)
    requires Square(A) && Square(N) && |A| == |N| == |b| && i < |A|
    ensures SumSeq(RowSums(ProductTable(A, N, b, i))) == MulVec(A, MulVec(N, b))[i]
  {
    var T := ProductTable(A, N, b, i);
    var x := MulVec(N, b);
    forall j | 0 <= j < |A|
      ensures RowSums(T)[j] == RowTimes(A[i], x)[j]
    {
      SumScale(RowTimes(N[j], b), T[j], A[i][j]);
      MulLeft(A[i][j], SumSeq(RowTimes(N[j], b)), x[j]);
    }
    assert RowSums(T) == RowTimes(A[i], x);
  }

  /** Summing the table column by column gives `sum_l b[l] * (A * N)[i][l]`. */
  lemma ProductColumn(A: Mat, N: Mat, b: seq<real>, i: nat, l: nat)
    requires Square(A) && Square(N) && |A| == |N| == |b| && i < |A| && l < |A|
    ensures ColumnSums(ProductTable(A, N, b, i), |A|)[l] == b[l] * SumSeq(RowCol(A, N, i, l))
  {
    var T := ProductTable(A, N, b, i);
    var s := RowCol(A, N, i, l);
    forall j | 0 <= j < |A|
      ensures Column(T, l)[j] == b[l] * s[j]
    {
    }
    SumScale(s, Column(T, l), b[l]);
  }

  /**
    `solve(b)` is correct: for a square matrix with non-zero determinant and
    a right-hand side with one entry per row, it succeeds with an x such
    that A x = b.
  */
  lemma SolveCorrect(A: Mat, b: seq<real>)
    requires Square(A) && |b| == |A| && Det(A) != 0.0
    ensures Solve(A, b).Ok?
    ensures MulVec(A, Solve(A, b).value) == b
  {
    var N := Inv(A).value;
    assert Solve(A, b).value == MulVec(N, b);
    forall i | 0 <= i < |A|
      ensures MulVec(A, MulVec(N, b))[i] == b[i]
    {
      SolveRow(A, b, i);
    }
  }

  /** Entry `i` of `A * (inv(A) * b)` is `b[i]`. */
  lemma SolveRow(A: Mat, b: seq<real>, i: nat)
    requires Square(A) && |b| == |A| && i < |A| && Det(A) != 0.0
    ensures Inv(A).Ok? && MulVec(A, MulVec(Inv(A).value, b))[i] == b[i]
  {
    var N := Inv(A).value;
    var T := ProductTable(A, N, b, i);
    ProductRows(A, N, b, i);
    Fubini(T, |A|);
    var c := ColumnSums(T, |A|);
    forall l | 0 <= l < |A|
      ensures c[l] == if l == i then b[i] else 0.0
    {
      InverseColumn(A, b, i, l);
    }
    SumSingle(c, i);
  }

  /** Column `l` of the table for `A * (inv(A) * b)` sums to `b[i]` on the diagonal and to 0 elsewhere. */
  lemma InverseColumn(A: Mat, b: seq<real>, i: nat, l: nat)
    requires Square(A) && |b| == |A| && i < |A| && l < |A| && Det(A) != 0.0
    ensures Inv(A).Ok?
    ensures ColumnSums(ProductTable(A, Inv(A).value, b, i), |A|)[l] == if l == i then b[i] else 0.0
  {
    ProductColumn(A, Inv(A).value, b, i, l);
    InverseIdentity(A, i, l);
  }

  /** The matrix-vector product is linear: `A (x - y) = A x - A y`. */
  lemma MulVecDiff(A: Mat, x: seq<real>, y: seq<real>, e: seq<real>)
    requires Square(A) && |x| == |y| == |e| == |A|
    requires forall j :: 0 <= j < |A| ==> e[j] == x[j] - y[j]
    ensures forall i :: 0 <= i < |A| ==> MulVec(A, e)[i] == MulVec(A, x)[i] - MulVec(A, y)[i]
  {
    forall i | 0 <= i < |A|
      ensures MulVec(A, e)[i] == MulVec(A, x)[i] - MulVec(A, y)[i]
    {
      SumAdd(RowTimes(A[i], e), RowTimes(A[i], y), RowTimes(A[i], x));
    }
  }

  /** The solution of a non-singular system is unique: any x with A x = b is what `solve(b)` returns. */
  lemma SolveUnique(A: Mat, b: seq<real>, x: seq<real>)
    requires Square(A) && |b| == |A| && |x| == |A| && Det(A) != 0.0
    requires MulVec(A, x) == b
    ensures Solve(A, b) == Ok(x)
  {
    SolveCorrect(A, b);
    SameImage(A, x, Solve(A, b).value);
  }

  /** A non-singular matrix maps distinct vectors to distinct vectors. */
  lemma SameImage(A: Mat, x: seq<real>, y: seq<real>)
    requires Square(A) && |x| == |y| == |A| && Det(A) != 0.0
    requires MulVec(A, x) == MulVec(A, y)
    ensures x == y
  {
    var e := seq(|A|, j requires 0 <= j < |A| => x[j] - y[j]);
    MulVecDiff(A, x, y, e);
    KernelTrivial(A, e);
    forall j | 0 <= j < |A|
      ensures x[j] == y[j]
    {
      assert e[j] == x[j] - y[j] == 0.0;
    }
  }

  /**
    `solve` fails exactly when the matrix is not square, is singular, or
    is given a vector longer than its rows, in that order.
  */
  lemma SolveFails(A: Mat, b: seq<real>)
    requires Rect(A)
    ensures Solve(A, b) == Err(NotSquare) <==> !Square(A)
    ensures Solve(A, b) == Err(Singular) <==> Square(A) && Det(A) == 0.0
    ensures Solve(A, b).Err? <==> !Square(A) || Det(A) == 0.0 || |b| > |A|
  {
  }

  /** Transposing twice gives the matrix back. */
  lemma TransposeTwice(A: Mat)
    requires Square(A)
    ensures Transpose(Transpose(A)) == A
  {
    SquareExt(Transpose(Transpose(A)), A);
  }
}
