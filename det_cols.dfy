/**
  How the first-row Laplace determinant of blade_gen/linalg.py behaves under
  column operations: exchanging two adjacent columns negates it, so two
  equal columns give zero; it is linear in each column; and adding a
  multiple of one column to another leaves it unchanged.
*/
module DetCols {
  import opened Sums
  import opened LinAlg
  import opened DetRows

  /** The column that lands at `j` when columns `r` and `r + 1` are exchanged. */
  function ColSwap(j: nat, r: nat): nat
  {
    if j == r then r + 1 else if j == r + 1 then r else j
  }

  /** The matrix with columns `r` and `r + 1` exchanged. */
  function SwapCols(A: Mat, r: nat): (B: Mat)
    requires Square(A) && r + 1 < |A|
    ensures Square(B) && |B| == |A|
    ensures forall i, j {:trigger B[i][j]} :: 0 <= i < |A| && 0 <= j < |A| ==> B[i][j] == A[i][ColSwap(j, r)]
  {
    seq(|A|, i requires 0 <= i < |A| => seq(|A|, j requires 0 <= j < |A| => A[i][ColSwap(j, r)]))
  }

  /** Striking column `r` of the swapped matrix strikes column `r + 1` of the original, and vice versa. */
  lemma SwapColsSubPair(A: Mat, r: nat)
    requires Square(A) && |A| >= 2 && r + 1 < |A|
    ensures Sub(SwapCols(A, r), 0, r) == Sub(A, 0, r + 1)
    ensures Sub(SwapCols(A, r), 0, r + 1) == Sub(A, 0, r)
  {
    var B := SwapCols(A, r);
    SquareExt(Sub(B, 0, r), Sub(A, 0, r + 1));
    SquareExt(Sub(B, 0, r + 1), Sub(A, 0, r));
  }

  /** Striking another column `j` keeps the two exchanged columns next to each other. */
  lemma SwapColsSubOther(A: Mat, r: nat, j: nat)
    requires Square(A) && |A| >= 3 && r + 1 < |A| && j < |A| && j != r && j != r + 1
    ensures Sub(SwapCols(A, r), 0, j) == SwapCols(Sub(A, 0, j), if j < r then r - 1 else r)
  {
    var r' := if j < r then r - 1 else r;
    SquareExt(Sub(SwapCols(A, r), 0, j), SwapCols(Sub(A, 0, j), r'));
  }

  /** Exchanging two adjacent columns negates the determinant. */
  lemma {:induction false} SwapColsNegates(A: Mat, r: nat)
    requires Square(A) && r + 1 < |A|
    ensures Det(SwapCols(A, r)) == -Det(A)
    decreases |A|, 1
  {
    var B := SwapCols(A, r);
    var FA, FB := FirstRowTerms(A), FirstRowTerms(B);
    forall j | 0 <= j < |A|
      ensures FB[j] == -1.0 * FA[ColSwap(j, r)]
    {
      SwapColsTerm(A, r, j);
    }
    var v := seq(|A|, j requires 0 <= j < |A| => FA[ColSwap(j, r)]);
    SumScale(v, FB, -1.0);
    SumSwapAdjacent(FA, v, r);
    DetExpansion(A);
    DetExpansion(B);
  }

  /** Each first-row term of the swapped matrix is the negated term of the exchanged column. */
  lemma {:induction false} SwapColsTerm(A: Mat, r: nat, j: nat)
    requires Square(A) && r + 1 < |A| && j < |A|
    ensures FirstRowTerms(SwapCols(A, r))[j] == -1.0 * FirstRowTerms(A)[ColSwap(j, r)]
    decreases |A|, 0
  {
    var B := SwapCols(A, r);
    FirstRowTermAt(B, j);
    FirstRowTermAt(A, ColSwap(j, r));
    if j == r || j == r + 1 {
      SwapColsSubPair(A, r);
      var c := ColSwap(j, r);
      assert B[0][j] == A[0][c];
      SignStep(r, A[0][c] * Det(Sub(A, 0, c)));
    } else {
      var S := Sub(A, 0, j);
      var r' := if j < r then r - 1 else r;
      SwapColsSubOther(A, r, j);
      SwapColsNegates(S, r');
      assert B[0][j] * Det(Sub(B, 0, j)) == -1.0 * (A[0][j] * Det(S));
      SignLinear(j, -1.0, A[0][j] * Det(S));
    }
  }

  /** A matrix whose columns `p < q` are equal has determinant zero. */
  lemma {:induction false} EqualColsZero(A: Mat, p: nat, q: nat)
    requires Square(A) && p < q < |A|
    requires forall i :: 0 <= i < |A| ==> A[i][p] == A[i][q]
    ensures Det(A) == 0.0
    decreases q - p
  {
    var B := SwapCols(A, q - 1);
    SwapColsNegates(A, q - 1);
    if q == p + 1 {
      SquareExt(B, A);
    } else {
      EqualColsZero(B, p, q - 1);
    }
  }

  /** `A`, `B` and `C` agree outside column `q`, where `C = A + c * B`. */
  predicate ColumnCombination(A: Mat, B: Mat, C: Mat, q: nat, c: real)
  {
    Square(A) && Square(B) && Square(C) && |A| == |B| == |C| && q < |A| &&
    (forall i, j {:trigger C[i][j]} :: 0 <= i < |A| && 0 <= j < |A| && j != q ==> A[i][j] == C[i][j] && B[i][j] == C[i][j]) &&
    (forall i {:trigger C[i][q]} :: 0 <= i < |A| ==> C[i][q] == A[i][q] + c * B[i][q])
  }

  /** A sign distributes over a linear combination. */
  lemma SignCombine(k: nat, x: real, c: real, y: real)
    ensures Sign(k, x + c * y) == Sign(k, x) + c * Sign(k, y)
  {
  }

  /** Striking the first row and a column `j != q` keeps the combination, at the shifted column. */
  lemma SubCombination(A: Mat, B: Mat, C: Mat, q: nat, c: real, j: nat)
    requires ColumnCombination(A, B, C, q, c) && |A| >= 2 && j < |A| && j != q
    ensures ColumnCombination(Sub(A, 0, j), Sub(B, 0, j), Sub(C, 0, j), Unskip(q, j), c)
  {
    SubCombinationOff(A, B, C, q, c, j);
    SubCombinationAt(A, B, C, q, c, j);
  }

  /** Off the combined column, the minors of `A`, `B` and `C` agree. */
  lemma SubCombinationOff(A: Mat, B: Mat, C: Mat, q: nat, c: real, j: nat)
    requires ColumnCombination(A, B, C, q, c) && |A| >= 2 && j < |A| && j != q
    ensures Square(Sub(A, 0, j)) && Square(Sub(B, 0, j)) && Square(Sub(C, 0, j))
    ensures |Sub(A, 0, j)| == |Sub(B, 0, j)| == |Sub(C, 0, j)| == |A| - 1
    ensures forall k, l {:trigger Sub(C, 0, j)[k][l]} :: 0 <= k < |A| - 1 && 0 <= l < |A| - 1 && l != Unskip(q, j) ==>
      Sub(A, 0, j)[k][l] == Sub(C, 0, j)[k][l] && Sub(B, 0, j)[k][l] == Sub(C, 0, j)[k][l]
  {
    var SA, SB, SC := Sub(A, 0, j), Sub(B, 0, j), Sub(C, 0, j);
    forall k, l | 0 <= k < |SA| && 0 <= l < |SA| && l != Unskip(q, j)
      ensures SA[k][l] == SC[k][l] && SB[k][l] == SC[k][l]
    {
      assert Skip(l, j) != q;
    }
  }

  /** In the combined column, the minor of `C` is the combination of those of `A` and `B`. */
  lemma SubCombinationAt(A: Mat, B: Mat, C: Mat, q: nat, c: real, j: nat)
    requires ColumnCombination(A, B, C, q, c) && |A| >= 2 && j < |A| && j != q
    ensures Square(Sub(A, 0, j)) && Square(Sub(B, 0, j)) && Square(Sub(C, 0, j))
    ensures |Sub(A, 0, j)| == |Sub(B, 0, j)| == |Sub(C, 0, j)| == |A| - 1 && Unskip(q, j) < |A| - 1
    ensures forall k {:trigger Sub(C, 0, j)[k]} :: 0 <= k < |A| - 1 ==>
      Sub(C, 0, j)[k][Unskip(q, j)] == Sub(A, 0, j)[k][Unskip(q, j)] + c * Sub(B, 0, j)[k][Unskip(q, j)]
  {
    var SA, SB, SC := Sub(A, 0, j), Sub(B, 0, j), Sub(C, 0, j);
    forall k | 0 <= k < |SA|
      ensures SC[k][Unskip(q, j)] == SA[k][Unskip(q, j)] + c * SB[k][Unskip(q, j)]
    {
      assert Skip(Unskip(q, j), j) == q;
    }
  }

  /** The determinant is linear in column `q`. */
  lemma {:induction false} ColumnLinear(A: Mat, B: Mat, C: Mat, q: nat, c: real)
    requires ColumnCombination(A, B, C, q, c)
    ensures Det(C) == Det(A) + c * Det(B)
    decreases |A|, 1
  {
    if |A| == 1 {
      assert C[0][0] == A[0][0] + c * B[0][0];
    } else {
      var FA, FB, FC := FirstRowTerms(A), FirstRowTerms(B), FirstRowTerms(C);
      var w := seq(|A|, j requires 0 <= j < |A| => c * FB[j]);
      forall j | 0 <= j < |A|
        ensures FC[j] == FA[j] + w[j]
      {
        ColumnLinearTerm(A, B, C, q, c, j);
      }
      SumScale(FB, w, c);
      SumAdd(FA, w, FC);
      DetExpansion(A);
      DetExpansion(B);
      DetExpansion(C);
    }
  }

  /** Each first-row term is linear in column `q`. */
  lemma {:induction false} ColumnLinearTerm(A: Mat, B: Mat, C: Mat, q: nat, c: real, j: nat)
    requires ColumnCombination(A, B, C, q, c) && |A| >= 2 && j < |A|
    ensures FirstRowTerms(C)[j] == FirstRowTerms(A)[j] + c * FirstRowTerms(B)[j]
    decreases |A|, 0
  {
    FirstRowTermAt(A, j);
    FirstRowTermAt(B, j);
    FirstRowTermAt(C, j);
    if j == q {
      SquareExt(Sub(A, 0, q), Sub(C, 0, q));
      SquareExt(Sub(B, 0, q), Sub(C, 0, q));
      var d := Det(Sub(C, 0, q));
      assert C[0][q] * d == A[0][q] * d + c * (B[0][q] * d);
      SignCombine(q, A[0][q] * d, c, B[0][q] * d);
    } else {
      var a := C[0][j];
      SubCombination(A, B, C, q, c, j);
      ColumnLinear(Sub(A, 0, j), Sub(B, 0, j), Sub(C, 0, j), Unskip(q, j), c);
      var dA, dB, dC := Det(Sub(A, 0, j)), Det(Sub(B, 0, j)), Det(Sub(C, 0, j));
      MulLeft(a, dC, dA + c * dB);
      assert a * dC == a * dA + c * (a * dB);
      SignCombine(j, a * dA, c, a * dB);
    }
  }

  /** The matrix with column `q` replaced by column `q` plus `c` times column `p`. */
  function AddColumn(A: Mat, p: nat, q: nat, c: real): (C: Mat)
    requires Square(A) && p < |A| && q < |A|
    ensures Square(C) && |C| == |A|
    ensures forall i, j {:trigger C[i][j]} :: 0 <= i < |A| && 0 <= j < |A| ==>
      C[i][j] == if j == q then A[i][q] + c * A[i][p] else A[i][j]
  {
    seq(|A|, i requires 0 <= i < |A| => seq(|A|, j requires 0 <= j < |A| =>
      if j == q then A[i][q] + c * A[i][p] else A[i][j]))
  }

  /** Adding a multiple of one column to another leaves the determinant unchanged. */
  lemma AddColumnDet(A: Mat, p: nat, q: nat, c: real)
    requires Square(A) && p < |A| && q < |A| && p != q
    ensures Det(AddColumn(A, p, q, c)) == Det(A)
  {
    var B := seq(|A|, i requires 0 <= i < |A| => seq(|A|, j requires 0 <= j < |A| => if j == q then A[i][p] else A[i][j]));
    var C := AddColumn(A, p, q, c);
    assert ColumnCombination(A, B, C, q, c);
    ColumnLinear(A, B, C, q, c);
    if p < q {
      EqualColsZero(B, p, q);
    } else {
      EqualColsZero(B, q, p);
    }
  }
  /** A matrix with a zero column has determinant zero. */
  lemma ZeroColumnDet(A: Mat, k: nat)
    requires Square(A) && k < |A|
    requires forall i :: 0 <= i < |A| ==> A[i][k] == 0.0
    ensures Det(A) == 0.0
  {
    assert ColumnCombination(A, A, A, k, 1.0);
    ColumnLinear(A, A, A, k, 1.0);
  }

  /** The matrix with column `k` replaced by `v`. */
  function ReplaceCol(A: Mat, k: nat, v: seq<real>): (C: Mat)
    requires Square(A) && k < |A| && |v| == |A|
    ensures Square(C) && |C| == |A|
    ensures forall i, j {:trigger C[i][j]} :: 0 <= i < |A| && 0 <= j < |A| ==> C[i][j] == if j == k then v[i] else A[i][j]
  {
    seq(|A|, i requires 0 <= i < |A| => seq(|A|, j requires 0 <= j < |A| => if j == k then v[i] else A[i][j]))
  }

  /** The combination `sum_{j < m} d[j] * column j` of the first `m` columns. */
  function PartialColumn(A: Mat, d: seq<real>, m: nat): (v: seq<real>)
    requires Square(A) && |d| == |A| && m <= |A|
    ensures |v| == |A|
  {
    seq(|A|, i requires 0 <= i < |A| => SumSeq(RowTimes(A[i], d[..m])))
  }

  /** One more column in the combination adds its multiple. */
  lemma PartialColumnStep(A: Mat, d: seq<real>, m: nat, i: nat)
    requires Square(A) && |d| == |A| && 0 < m <= |A| && i < |A|
    ensures PartialColumn(A, d, m)[i] == PartialColumn(A, d, m - 1)[i] + d[m - 1] * A[i][m - 1]
  {
    var u, w := RowTimes(A[i], d[..m]), RowTimes(A[i], d[..m - 1]) + [A[i][m - 1] * d[m - 1]];
    forall j | 0 <= j < m
      ensures u[j] == w[j]
    {
    }
    assert u == w;
    SumAppend(RowTimes(A[i], d[..m - 1]), A[i][m - 1] * d[m - 1]);
  }

  /**
    Replacing column `k` by the combination of the first `m` columns gives
    `d[k] * det(A)` once column `k` itself is among them, and zero before.
  */
  lemma {:induction false} CramerColumn(A: Mat, d: seq<real>, k: nat, m: nat)
    requires Square(A) && |d| == |A| && k < |A| && m <= |A|
    ensures Det(ReplaceCol(A, k, PartialColumn(A, d, m))) == if k < m then d[k] * Det(A) else 0.0
    decreases m
  {
    var P := ReplaceCol(A, k, PartialColumn(A, d, m));
    if m == 0 {
      forall i | 0 <= i < |A|
        ensures P[i][k] == 0.0
      {
        assert RowTimes(A[i], d[..0]) == [];
      }
      ZeroColumnDet(P, k);
    } else {
      var Q := ReplaceCol(A, k, PartialColumn(A, d, m - 1));
      CramerColumn(A, d, k, m - 1);
      forall i | 0 <= i < |A|
        ensures P[i][k] == Q[i][k] + d[m - 1] * A[i][m - 1]
      {
        PartialColumnStep(A, d, m, i);
      }
      if m - 1 == k {
        assert ColumnCombination(Q, A, P, k, d[k]);
        ColumnLinear(Q, A, P, k, d[k]);
      } else {
        SquareExt(P, AddColumn(Q, m - 1, k, d[m - 1]));
        AddColumnDet(Q, m - 1, k, d[m - 1]);
      }
    }
  }

  /** A non-singular matrix sends only the zero vector to zero. */
  lemma KernelTrivial(A: Mat, d: seq<real>)
    requires Square(A) && |d| == |A| && Det(A) != 0.0
    requires forall i :: 0 <= i < |A| ==> MulVec(A, d)[i] == 0.0
    ensures forall k :: 0 <= k < |d| ==> d[k] == 0.0
  {
    forall k | 0 <= k < |d|
      ensures d[k] == 0.0
    {
      var P := ReplaceCol(A, k, PartialColumn(A, d, |A|));
      CramerColumn(A, d, k, |A|);
      assert d[..|A|] == d;
      forall i | 0 <= i < |A|
        ensures P[i][k] == 0.0
      {
        assert P[i][k] == MulVec(A, d)[i];
      }
      ZeroColumnDet(P, k);
    }
  }
}
