/**
  How the first-row Laplace determinant of blade_gen/linalg.py behaves under
  row operations: exchanging two adjacent rows negates it, so a matrix with
  two equal rows has determinant zero and lifting row k to the top multiplies
  it by (-1)^k; scaling one row scales it.
*/
module DetRows {
  import opened Sums
  import opened LinAlg

  /** Square matrices with the same entries are equal. */
  lemma SquareExt(X: Mat, Y: Mat)
    requires Square(X) && Square(Y) && |X| == |Y|
    requires forall i, j :: 0 <= i < |X| && 0 <= j < |X| ==> X[i][j] == Y[i][j]
    ensures X == Y
  {
    forall i | 0 <= i < |X|
      ensures X[i] == Y[i]
    {
      assert forall j :: 0 <= j < |X| ==> X[i][j] == Y[i][j];
    }
  }

  lemma Sum2(s: seq<real>)
    requires |s| == 2
    ensures SumSeq(s) == s[0] + s[1]
  {
    assert s == [] + [s[0]] + [s[1]];
    SumAppend([], s[0]);
    SumAppend([s[0]], s[1]);
  }

  /** The determinant of a 2 x 2 matrix. */
  lemma Det2(A: Mat)
    requires Square(A) && |A| == 2
    ensures Det(A) == A[0][0] * A[1][1] - A[0][1] * A[1][0]
  {
    var t := FirstRowTerms(A);
    DetExpansion(A);
    Sum2(t);
    SquareExt(Sub(A, 0, 0), [[A[1][1]]]);
    SquareExt(Sub(A, 0, 1), [[A[1][0]]]);
    FirstRowTermAt(A, 0);
    FirstRowTermAt(A, 1);
    assert Det([[A[1][1]]]) == A[1][1];
    assert Det([[A[1][0]]]) == A[1][0];
    assert !Even(1);
  }

  /** One term of the first-row expansion, its sign outside the product. */
  lemma FirstRowTermAt(A: Mat, j: nat)
    requires Square(A) && |A| >= 2 && j < |A|
    ensures Square(Sub(A, 0, j)) && |Sub(A, 0, j)| == |A| - 1
    ensures FirstRowTerms(A)[j] == Sign(j, A[0][j] * Det(Sub(A, 0, j)))
  {
    assert FirstRowTerms(A)[j] == A[0][j] * Cofactor(A, 0, j);
    assert Cofactor(A, 0, j) == Sign(j, Det(Sub(A, 0, j)));
    MulLeft(A[0][j], Cofactor(A, 0, j), Sign(j, Det(Sub(A, 0, j))));
    SignFactor(A[0][j], j, Det(Sub(A, 0, j)));
  }


  /** A constant factor passes through a sign. */
  lemma SignLinear(k: nat, c: real, y: real)
    ensures Sign(k, c * y) == c * Sign(k, y)
  {
  }

  /** One more flip negates. */
  lemma SignStep(k: nat, x: real)
    ensures Sign(k + 1, x) == -Sign(k, x)
  {
  }

  /** Summing terms that all carry the same sign. */
  lemma SumSign(s: seq<real>, u: seq<real>, k: nat)
    requires |s| == |u|
    requires forall i :: 0 <= i < |u| ==> u[i] == Sign(k, s[i])
    ensures SumSeq(u) == Sign(k, SumSeq(s))
  {
    if Even(k) {
      forall i | 0 <= i < |u|
        ensures u[i] == 1.0 * s[i]
      {
      }
      SumScale(s, u, 1.0);
    } else {
      forall i | 0 <= i < |u|
        ensures u[i] == -1.0 * s[i]
      {
      }
      SumScale(s, u, -1.0);
    }
  }

  /** A factor and a sign applied to every term come out of the sum. */
  lemma SumScaleSign(s: seq<real>, u: seq<real>, a: real, k: nat)
    requires |s| == |u|
    requires forall i :: 0 <= i < |u| ==> u[i] == Sign(k, a * s[i])
    ensures SumSeq(u) == Sign(k, a * SumSeq(s))
  {
    var v := seq(|s|, i requires 0 <= i < |s| => a * s[i]);
    SumScale(s, v, a);
    SumSign(v, u, k);
  }

  /** The matrix with rows `r` and `r + 1` exchanged. */
  function SwapRows(A: Mat, r: nat): (B: Mat)
    requires r + 1 < |A|
    ensures |B| == |A|
  {
    A[r := A[r + 1]][r + 1 := A[r]]
  }

  /** Index of column `k` once column `j` (with `k != j`) is struck out. */
  function Unskip(k: nat, j: nat): nat
  {
    if k > j then k - 1 else k
  }

  /** Rows 2.. of `A` without the columns `p < q`. */
  function Strike2(A: Mat, p: nat, q: nat): (S: Mat)
    requires Square(A) && |A| >= 3 && p < q < |A|
    ensures Square(S) && |S| == |A| - 2
  {
    seq(|A| - 2, k requires 0 <= k < |A| - 2 =>
      seq(|A| - 2, l requires 0 <= l < |A| - 2 => A[k + 2][Skip(Skip(l, p), q)]))
  }

  /** The minor of rows 0, 1 and the (distinct) columns `j`, `k`. */
  function PairMinor(A: Mat, j: nat, k: nat): real
    requires Square(A) && |A| >= 3 && j < |A| && k < |A| && j != k
  {
    if j < k then Det(Strike2(A, j, k)) else Det(Strike2(A, k, j))
  }

  /** One term of expanding first along row 0 (column `j`) and then along row 1 (column `k`). */
  function PairTerm(A: Mat, j: nat, k: nat): real
    requires Square(A) && |A| >= 3 && j < |A| && k < |A|
  {
    if j == k then 0.0
    else Sign(j, Sign(Unskip(k, j), A[0][j] * (A[1][k] * PairMinor(A, j, k))))
  }

  function PairTable(A: Mat): (T: seq<seq<real>>)
    requires Square(A) && |A| >= 3
    ensures |T| == |A| && forall j :: 0 <= j < |A| ==> |T[j]| == |A|
  {
    seq(|A|, j requires 0 <= j < |A| => seq(|A|, k requires 0 <= k < |A| => PairTerm(A, j, k)))
  }

  /** Striking column `j` and then column `l` of what is left strikes two columns of `A`. */
  lemma SubSub(A: Mat, j: nat, l: nat)
    requires Square(A) && |A| >= 3 && j < |A| && l < |A| - 1
    ensures Sub(Sub(A, 0, j), 0, l) ==
      if j < Skip(l, j) then Strike2(A, j, Skip(l, j)) else Strike2(A, Skip(l, j), j)
  {
    var n := |A|;
    var S := Sub(A, 0, j);
    var X := Sub(S, 0, l);
    var p, q := if j < Skip(l, j) then j else Skip(l, j), if j < Skip(l, j) then Skip(l, j) else j;
    var Y := Strike2(A, p, q);
    forall k, c | 0 <= k < n - 2 && 0 <= c < n - 2
      ensures X[k][c] == Y[k][c]
    {
      SkipTwice(c, l, j);
      assert X[k][c] == S[k + 1][Skip(c, l)];
      assert S[k + 1][Skip(c, l)] == A[k + 2][Skip(Skip(c, l), j)];
      assert Y[k][c] == A[k + 2][Skip(Skip(c, p), q)];
    }
    SquareExt(X, Y);
  }

  /** Striking index `j` and then index `l` of what is left strikes `j` and `Skip(l, j)`, in either order. */
  lemma SkipTwice(c: nat, l: nat, j: nat)
    ensures Skip(Skip(c, l), j) ==
      if j < Skip(l, j) then Skip(Skip(c, j), Skip(l, j)) else Skip(Skip(c, Skip(l, j)), j)
  {
  }

  /** One entry of row `j` of the pair table, with column `j` dropped. */
  lemma PairRowEntry(A: Mat, j: nat, l: nat)
    requires Square(A) && |A| >= 3 && j < |A| && l < |A| - 1
    ensures Square(Sub(A, 0, j)) && |Sub(A, 0, j)| == |A| - 1
    ensures PairTerm(A, j, Skip(l, j)) == Sign(j, A[0][j] * FirstRowTerms(Sub(A, 0, j))[l])
  {
    var S := Sub(A, 0, j);
    var k := Skip(l, j);
    PairMinorIsSubSub(A, j, l);
    assert Unskip(k, j) == l;
    FirstRowTermAt(S, l);
    assert S[0][l] == A[1][k];
    SignFactor(A[0][j], l, A[1][k] * Det(Sub(S, 0, l)));
  }

  /** The minor of rows 0, 1 and columns `j`, `Skip(l, j)` is that of the minor of a minor. */
  lemma PairMinorIsSubSub(A: Mat, j: nat, l: nat)
    requires Square(A) && |A| >= 3 && j < |A| && l < |A| - 1
    ensures j != Skip(l, j) && Skip(l, j) < |A|
    ensures Square(Sub(Sub(A, 0, j), 0, l))
    ensures PairMinor(A, j, Skip(l, j)) == Det(Sub(Sub(A, 0, j), 0, l))
  {
    SubSub(A, j, l);
  }

  /** Row `j` of the pair table without its zero diagonal entry, term by term. */
  lemma PairRowDropped(A: Mat, j: nat, dropped: seq<real>)
    requires Square(A) && |A| >= 3 && j < |A|
    requires dropped == PairTable(A)[j][..j] + PairTable(A)[j][j + 1..]
    ensures Square(Sub(A, 0, j)) && |Sub(A, 0, j)| == |A| - 1
    ensures SignedTerms(Sub(A, 0, j), dropped, A[0][j], j)
  {
    var row := PairTable(A)[j];
    forall l | 0 <= l < |dropped|
      ensures dropped[l] == Sign(j, A[0][j] * FirstRowTerms(Sub(A, 0, j))[l])
    {
      assert dropped[l] == row[Skip(l, j)];
      PairRowEntry(A, j, l);
    }
  }

  /** Row `j` of the pair table without its diagonal entry sums to the `j`-th first-row term. */
  lemma PairRowDroppedSum(A: Mat, j: nat)
    requires Square(A) && |A| >= 3 && j < |A|
    ensures Square(Sub(A, 0, j))
    ensures SumSeq(PairTable(A)[j][..j] + PairTable(A)[j][j + 1..]) == Sign(j, A[0][j] * Det(Sub(A, 0, j)))
  {
    var S := Sub(A, 0, j);
    var dropped := PairTable(A)[j][..j] + PairTable(A)[j][j + 1..];
    PairRowDropped(A, j, dropped);
    SignedExpansion(S, dropped, A[0][j], j);
  }

  /** `u` is the first-row terms of `S`, each scaled by `a` and signed by `j`. */
  predicate SignedTerms(S: Mat, u: seq<real>, a: real, j: nat)
    requires Square(S) && |S| >= 2
  {
    |u| == |S| && forall l :: 0 <= l < |u| ==> u[l] == Sign(j, a * FirstRowTerms(S)[l])
  }

  /** Terms that are the first-row terms of `S` scaled by `a` and signed sum to `Det(S)` scaled and signed alike. */
  lemma SignedExpansion(S: Mat, u: seq<real>, a: real, j: nat)
    requires Square(S) && |S| >= 2 && SignedTerms(S, u, a, j)
    ensures SumSeq(u) == Sign(j, a * Det(S))
  {
    SumScaleSign(FirstRowTerms(S), u, a, j);
    DetExpansion(S);
    MulLeft(a, SumSeq(FirstRowTerms(S)), Det(S));
  }

  /** Row `j` of the pair table sums to the `j`-th term of the first-row expansion. */
  lemma PairRow(A: Mat, j: nat)
    requires Square(A) && |A| >= 3 && j < |A|
    ensures SumSeq(PairTable(A)[j]) == FirstRowTerms(A)[j]
  {
    var row := PairTable(A)[j];
    PairRowDroppedSum(A, j);
    SumDrop(row, j);
    assert row[j] == 0.0;
    FirstRowTermAt(A, j);
  }

  /** The determinant is the sum of the pair table. */
  lemma ExpandTwice(A: Mat)
    requires Square(A) && |A| >= 3
    ensures Det(A) == SumSeq(RowSums(PairTable(A)))
  {
    var R := RowSums(PairTable(A));
    var F := FirstRowTerms(A);
    forall j | 0 <= j < |A|
      ensures R[j] == F[j]
    {
      PairRow(A, j);
    }
    assert R == F;
    DetExpansion(A);
  }

  /** The sign arithmetic behind exchanging rows 0 and 1: the two orders of expansion differ by one flip. */
  lemma SwapSigns(a: real, b: real, m: real, p: nat, q: nat)
    ensures Sign(p, Sign(q, a * (b * m))) == -Sign(q + 1, Sign(p, b * (a * m)))
  {
    assert a * (b * m) == b * (a * m);
    SignStep(q, Sign(p, b * (a * m)));
  }

  /** Exchanging rows 0 and 1 transposes the pair table and negates it. */
  lemma PairTableSwap(A: Mat, j: nat, k: nat)
    requires Square(A) && |A| >= 3 && j < |A| && k < |A|
    ensures Square(SwapRows(A, 0))
    ensures PairTerm(SwapRows(A, 0), j, k) == -PairTerm(A, k, j)
  {
    if j < k {
      PairTableSwapBelow(A, j, k);
    } else if k < j {
      PairTableSwapAbove(A, j, k);
    }
  }

  /** `PairTableSwap` for an entry left of the diagonal. */
  lemma PairTableSwapBelow(A: Mat, j: nat, k: nat)
    requires Square(A) && |A| >= 3 && j < k < |A|
    ensures Square(SwapRows(A, 0))
    ensures PairTerm(SwapRows(A, 0), j, k) == -PairTerm(A, k, j)
  {
    var B := SwapRows(A, 0);
    assert Strike2(B, j, k) == Strike2(A, j, k);
    assert B[0][j] == A[1][j] && B[1][k] == A[0][k];
    SwapSigns(A[1][j], A[0][k], PairMinor(A, k, j), j, k - 1);
  }

  /** `PairTableSwap` for an entry right of the diagonal. */
  lemma PairTableSwapAbove(A: Mat, j: nat, k: nat)
    requires Square(A) && |A| >= 3 && k < j < |A|
    ensures Square(SwapRows(A, 0))
    ensures PairTerm(SwapRows(A, 0), j, k) == -PairTerm(A, k, j)
  {
    var B := SwapRows(A, 0);
    assert Strike2(B, k, j) == Strike2(A, k, j);
    assert B[0][j] == A[1][j] && B[1][k] == A[0][k];
    SwapSigns(A[0][k], A[1][j], PairMinor(A, k, j), k, j - 1);
  }

  /** Column `k` of the swapped matrix's pair table is row `k` of the original's, negated. */
  lemma SwapColumn(A: Mat, k: nat)
    requires Square(A) && |A| >= 3 && k < |A|
    ensures SumSeq(Column(PairTable(SwapRows(A, 0)), k)) == -1.0 * SumSeq(PairTable(A)[k])
  {
    var TA, TB := PairTable(A), PairTable(SwapRows(A, 0));
    forall j | 0 <= j < |A|
      ensures Column(TB, k)[j] == -1.0 * TA[k][j]
    {
      PairTableSwap(A, j, k);
    }
    SumScale(TA[k], Column(TB, k), -1.0);
  }

  /** Exchanging rows 0 and 1 of a matrix of size at least 3 negates its determinant. */
  lemma SwapFirstTwo(A: Mat)
    requires Square(A) && |A| >= 3
    ensures Det(SwapRows(A, 0)) == -Det(A)
  {
    var n := |A|;
    var B := SwapRows(A, 0);
    var TA, TB := PairTable(A), PairTable(B);
    ExpandTwice(A);
    ExpandTwice(B);
    Fubini(TB, n);
    forall k | 0 <= k < n
      ensures ColumnSums(TB, n)[k] == -1.0 * RowSums(TA)[k]
    {
      SwapColumn(A, k);
    }
    SumScale(RowSums(TA), ColumnSums(TB, n), -1.0);
  }

  /** Exchanging two adjacent rows negates the determinant. */
  lemma {:induction false} SwapNegates(A: Mat, r: nat)
    requires Square(A) && r + 1 < |A|
    ensures Square(SwapRows(A, r))
    ensures Det(SwapRows(A, r)) == -Det(A)
    decreases |A|
  {
    var n := |A|;
    var B := SwapRows(A, r);
    if r == 0 {
      if n == 2 {
        Det2(A);
        Det2(B);
      } else {
        SwapFirstTwo(A);
      }
    } else {
      forall j | 0 <= j < n
        ensures FirstRowTerms(B)[j] == -1.0 * FirstRowTerms(A)[j]
      {
        var S := Sub(A, 0, j);
        assert Sub(B, 0, j) == SwapRows(S, r - 1) by {
          SquareExt(Sub(B, 0, j), SwapRows(S, r - 1));
        }
        SwapNegates(S, r - 1);
        FirstRowTermAt(A, j);
        FirstRowTermAt(B, j);
        assert A[0][j] * Det(Sub(B, 0, j)) == -1.0 * (A[0][j] * Det(S));
        SignLinear(j, -1.0, A[0][j] * Det(S));
      }
      SumScale(FirstRowTerms(A), FirstRowTerms(B), -1.0);
      DetExpansion(A);
      DetExpansion(B);
    }
  }

  /** A matrix with two equal rows has determinant zero. */
  lemma {:induction false} EqualRowsZero(A: Mat, p: nat, q: nat)
    requires Square(A) && p < q < |A| && A[p] == A[q]
    ensures Det(A) == 0.0
    decreases q - p
  {
    if q == p + 1 {
      assert SwapRows(A, p) == A;
      SwapNegates(A, p);
    } else {
      var B := SwapRows(A, q - 1);
      SwapNegates(A, q - 1);
      EqualRowsZero(B, p, q - 1);
    }
  }

  /** Row `k` moved to the top, the rows above it moved down by one. */
  function RaiseRow(A: Mat, k: nat): (P: Mat)
    requires k < |A|
    ensures |P| == |A|
  {
    [A[k]] + A[..k] + A[k + 1..]
  }

  /** Moving row `k` to the top multiplies the determinant by (-1)^k. */
  lemma {:induction false} RaiseRowDet(A: Mat, k: nat)
    requires Square(A) && k < |A|
    ensures Square(RaiseRow(A, k))
    ensures Det(RaiseRow(A, k)) == Sign(k, Det(A))
    decreases k
  {
    if k == 0 {
      assert RaiseRow(A, 0) == A;
    } else {
      var B := SwapRows(A, k - 1);
      assert RaiseRow(A, k) == RaiseRow(B, k - 1);
      SwapNegates(A, k - 1);
      RaiseRowDet(B, k - 1);
      SignLinear(k - 1, -1.0, Det(A));
      SignStep(k - 1, Det(A));
    }
  }

  /** Striking the top row of the raised matrix strikes row `k` of the original. */
  lemma RaiseRowSub(A: Mat, k: nat, j: nat)
    requires Square(A) && |A| >= 2 && k < |A| && j < |A|
    ensures Sub(RaiseRow(A, k), 0, j) == Sub(A, k, j)
  {
    var P := RaiseRow(A, k);
    forall r | 0 <= r < |A| - 1
      ensures P[r + 1] == A[Skip(r, k)]
    {
    }
    SquareExt(Sub(P, 0, j), Sub(A, k, j));
  }

  /** The matrix with row `r` multiplied by `c`. */
  function ScaleRow(A: Mat, r: nat, c: real): (B: Mat)
    requires r < |A|
    ensures |B| == |A| && B[r] == seq(|A[r]|, j requires 0 <= j < |A[r]| => c * A[r][j])
  {
    A[r := seq(|A[r]|, j requires 0 <= j < |A[r]| => c * A[r][j])]
  }

  /** Scaling one row scales the determinant. */
  lemma {:induction false} ScaleRowDet(A: Mat, r: nat, c: real)
    requires Square(A) && r < |A|
    ensures Square(ScaleRow(A, r, c))
    ensures Det(ScaleRow(A, r, c)) == c * Det(A)
    decreases |A|, 1
  {
    var n := |A|;
    var B := ScaleRow(A, r, c);
    if n >= 2 {
      forall j | 0 <= j < n
        ensures FirstRowTerms(B)[j] == c * FirstRowTerms(A)[j]
      {
        ScaleRowTerm(A, r, c, j);
      }
      SumScale(FirstRowTerms(A), FirstRowTerms(B), c);
      DetExpansion(A);
      DetExpansion(B);
    }
  }

  /** Scaling a row by `c` scales each term of the first-row expansion by `c`. */
  lemma {:induction false} ScaleRowTerm(A: Mat, r: nat, c: real, j: nat)
    requires Square(A) && |A| >= 2 && r < |A| && j < |A|
    ensures Square(ScaleRow(A, r, c))
    ensures FirstRowTerms(ScaleRow(A, r, c))[j] == c * FirstRowTerms(A)[j]
    decreases |A|, 0
  {
    var B := ScaleRow(A, r, c);
    var S := Sub(A, 0, j);
    FirstRowTermAt(A, j);
    FirstRowTermAt(B, j);
    if r == 0 {
      SquareExt(Sub(B, 0, j), S);
      assert B[0][j] * Det(S) == c * (A[0][j] * Det(S));
    } else {
      assert Sub(B, 0, j) == ScaleRow(S, r - 1, c) by {
        SquareExt(Sub(B, 0, j), ScaleRow(S, r - 1, c));
      }
      ScaleRowDet(S, r - 1, c);
      assert A[0][j] * (c * Det(S)) == c * (A[0][j] * Det(S));
    }
    SignLinear(j, c, A[0][j] * Det(S));
  }
  /** The matrix with each of its first `m` rows `k` multiplied by `c[k]`. */
  function ScaleRows(A: Mat, c: seq<real>, m: nat): (B: Mat)
    requires Square(A) && |c| == |A| && m <= |A|
    ensures Square(B) && |B| == |A|
    ensures forall k, l {:trigger B[k][l]} :: 0 <= k < |A| && 0 <= l < |A| ==> B[k][l] == if k < m then c[k] * A[k][l] else A[k][l]
  {
    seq(|A|, k requires 0 <= k < |A| => seq(|A|, l requires 0 <= l < |A| => if k < m then c[k] * A[k][l] else A[k][l]))
  }

  /** Scaling rows `0 .. m - 1` by `c[0] .. c[m - 1]` multiplies the determinant by their product. */
  lemma {:induction false} ScaleRowsDet(A: Mat, c: seq<real>, m: nat)
    requires Square(A) && |c| == |A| && m <= |A|
    ensures Det(ScaleRows(A, c, m)) == ProdSeq(c[..m]) * Det(A)
    decreases m
  {
    if m == 0 {
      SquareExt(ScaleRows(A, c, 0), A);
      assert c[..0] == [];
    } else {
      var P := ScaleRows(A, c, m - 1);
      ScaleRowsDet(A, c, m - 1);
      SquareExt(ScaleRows(A, c, m), ScaleRow(P, m - 1, c[m - 1]));
      ScaleRowDet(P, m - 1, c[m - 1]);
      assert c[..m] == c[..m - 1] + [c[m - 1]];
      ProdAppend(c[..m - 1], c[m - 1]);
    }
  }
}
