/**
  Finite sums and products of real sequences.

  `SumSeq` adds left to right starting from zero, the way Python's built-in
  `sum` does; `ProdSeq` multiplies left to right starting from one. Over the
  reals the order does not matter, and the lemmas below are the algebra the
  determinant and interpolation proofs need.
*/
module Sums {

  /** Sum of the elements of `s` (`sum(s)`). */
  function SumSeq(s: seq<real>): real
  {
    SumRec(s)
  }

  /**
    The recursion behind `SumSeq`. Keeping it behind a non-recursive name
    lets every statement about a sum mention one and the same term.
  */
  function SumRec(s: seq<real>): real
  {
    if |s| == 0 then 0.0 else SumRec(s[..|s| - 1]) + s[|s| - 1]
  }

  /** Product of the elements of `s` (`prod(s)`); the empty product is one. */
  function ProdSeq(s: seq<real>): real
  {
    ProdRec(s)
  }

  function ProdRec(s: seq<real>): real
  {
    if |s| == 0 then 1.0 else ProdRec(s[..|s| - 1]) * s[|s| - 1]
  }

  lemma SumAppend(s: seq<real>, x: real)
    ensures SumSeq(s + [x]) == SumSeq(s) + x
  {
    assert (s + [x])[..|s|] == s;
  }

  lemma ProdAppend(s: seq<real>, x: real)
    ensures ProdSeq(s + [x]) == ProdSeq(s) * x
  {
    assert (s + [x])[..|s|] == s;
  }

  /** The product of two values. */
  lemma ProdPair(x: real, y: real)
    ensures ProdSeq([x, y]) == x * y
  {
    ProdAppend([], x);
    ProdAppend([x], y);
    assert [x] + [y] == [x, y];
  }

  /** Summing a concatenation sums the two parts. */
  lemma {:induction false} SumConcat(s: seq<real>, t: seq<real>)
    ensures SumSeq(s + t) == SumSeq(s) + SumSeq(t)
    decreases |t|
  {
    if |t| == 0 {
      assert s + t == s;
    } else {
      var t' := t[..|t| - 1];
      assert s + t == (s + t') + [t[|t| - 1]];
      SumAppend(s + t', t[|t| - 1]);
      SumConcat(s, t');
    }
  }

  /** A sum of pointwise sums is the sum of the two sums. */
  lemma {:induction false} SumAdd(s: seq<real>, t: seq<real>, u: seq<real>)
    requires |s| == |t| == |u|
    requires forall i {:trigger u[i]} :: 0 <= i < |u| ==> u[i] == s[i] + t[i]
    ensures SumSeq(u) == SumSeq(s) + SumSeq(t)
    decreases |u|
  {
    if |u| > 0 {
      var n := |u| - 1;
      SumAdd(s[..n], t[..n], u[..n]);
    }
  }

  /** A constant factor comes out of a sum. */
  lemma {:induction false} SumScale(s: seq<real>, u: seq<real>, c: real)
    requires |s| == |u|
    requires forall i {:trigger u[i]} :: 0 <= i < |u| ==> u[i] == c * s[i]
    ensures SumSeq(u) == c * SumSeq(s)
    decreases |u|
  {
    if |u| > 0 {
      var n := |u| - 1;
      SumScale(s[..n], u[..n], c);
    }
  }

  /** A sum of zeros is zero. */
  lemma {:induction false} SumZero(s: seq<real>)
    requires forall i :: 0 <= i < |s| ==> s[i] == 0.0
    ensures SumSeq(s) == 0.0
    decreases |s|
  {
    if |s| > 0 {
      SumZero(s[..|s| - 1]);
    }
  }

  /** A sum whose terms vanish except at `k` is its `k`-th term. */
  lemma {:induction false} SumSingle(s: seq<real>, k: nat)
    requires k < |s|
    requires forall i :: 0 <= i < |s| && i != k ==> s[i] == 0.0
    ensures SumSeq(s) == s[k]
  {
    assert s == s[..k] + [s[k]] + s[k + 1..];
    SumConcat(s[..k] + [s[k]], s[k + 1..]);
    SumAppend(s[..k], s[k]);
    SumZero(s[..k]);
    SumZero(s[k + 1..]);
  }

  /** Removing the `k`-th term removes it from the sum. */
  lemma {:induction false} SumDrop(s: seq<real>, k: nat)
    requires k < |s|
    ensures SumSeq(s[..k] + s[k + 1..]) + s[k] == SumSeq(s)
  {
    var left, right := s[..k], s[k + 1..];
    assert s == (left + [s[k]]) + right;
    SumConcat(left + [s[k]], right);
    SumAppend(left, s[k]);
    SumConcat(left, right);
  }

  /** Exchanging two neighbouring terms leaves the sum unchanged. */
  lemma SumSwapAdjacent(s: seq<real>, v: seq<real>, r: nat)
    requires r + 1 < |s| && |v| == |s|
    requires v[r] == s[r + 1] && v[r + 1] == s[r]
    requires forall i {:trigger v[i]} :: 0 <= i < |s| && i != r && i != r + 1 ==> v[i] == s[i]
    ensures SumSeq(v) == SumSeq(s)
  {
    var left, right := s[..r], s[r + 2..];
    assert s == left + [s[r], s[r + 1]] + right;
    assert v == left + [s[r + 1], s[r]] + right;
    SumConcat(left + [s[r], s[r + 1]], right);
    SumConcat(left + [s[r + 1], s[r]], right);
    SumConcat(left, [s[r], s[r + 1]]);
    SumConcat(left, [s[r + 1], s[r]]);
    assert [s[r], s[r + 1]] == [s[r]] + [s[r + 1]];
    assert [s[r + 1], s[r]] == [s[r + 1]] + [s[r]];
    SumConcat([s[r]], [s[r + 1]]);
    SumConcat([s[r + 1]], [s[r]]);
    SumSingle([s[r]], 0);
    SumSingle([s[r + 1]], 0);
  }

  /** A product of non-zero factors is non-zero. */
  lemma {:induction false} ProdNonZero(s: seq<real>)
    requires forall i :: 0 <= i < |s| ==> s[i] != 0.0
    ensures ProdSeq(s) != 0.0
    decreases |s|
  {
    if |s| > 0 {
      ProdNonZero(s[..|s| - 1]);
    }
  }

  /** Column `j` of a table of rows. */
  function Column(t: seq<seq<real>>, j: nat): seq<real>
    requires forall i :: 0 <= i < |t| ==> j < |t[i]|
  {
    seq(|t|, i requires 0 <= i < |t| => t[i][j])
  }

  /** The sums of the rows of a table. */
  function RowSums(t: seq<seq<real>>): seq<real>
  {
    seq(|t|, i requires 0 <= i < |t| => SumSeq(t[i]))
  }

  /** The sums of the columns of a table whose rows all have length `n`. */
  function ColumnSums(t: seq<seq<real>>, n: nat): seq<real>
    requires forall i :: 0 <= i < |t| ==> |t[i]| == n
  {
    seq(n, j requires 0 <= j < n => SumSeq(Column(t, j)))
  }

  /** Summing a table row by row or column by column gives the same total. */
  lemma {:induction false} Fubini(t: seq<seq<real>>, n: nat)
    requires forall i :: 0 <= i < |t| ==> |t[i]| == n
    ensures SumSeq(RowSums(t)) == SumSeq(ColumnSums(t, n))
    decreases |t|
  {
    if |t| == 0 {
      SumZero(ColumnSums(t, n));
    } else {
      var m := |t| - 1;
      var t' := t[..m];
      Fubini(t', n);
      assert RowSums(t)[..m] == RowSums(t');
      forall j | 0 <= j < n
        ensures ColumnSums(t, n)[j] == ColumnSums(t', n)[j] + t[m][j]
      {
        assert Column(t, j)[..m] == Column(t', j);
      }
      SumAdd(ColumnSums(t', n), t[m], ColumnSums(t, n));
    }
  }
}
