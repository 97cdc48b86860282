/**
  The sampling and interpolation helpers of blade_gen/helper.py: evenly
  spaced samples of an interval, and the polynomial through a list of
  points, found by solving the Vandermonde system with the kernel of
  blade_gen/linalg.py.
*/
module Helper {
  import opened Sums
  import opened Wrappers
  import opened LinAlg
  import opened DetRows
  import opened DetCols
  import opened Adjugate

  /** The spacing of `linspace`: `(last - first) / (num - 1)`, and 0 when there are fewer than two samples. */
  function Spacing(first: real, last: real, num: int): real
  {
    if num > 1 then (last - first) / ((num - 1) as real) else 0.0
  }

  /** `linspace(first, last, num)`: the samples `first + k * diff` for `k` in `range(num)`. */
  function Linspace(first: real, last: real, num: int): (r: seq<real>)
    ensures |r| == if num > 0 then num else 0
  {
    var n: nat := if num > 0 then num else 0;
    seq(n, k requires 0 <= k < n => first + (k as real) * Spacing(first, last, num))
  }

  /** With one sample, `linspace` is `[first]`. */
  lemma LinspaceSingle(first: real, last: real)
    ensures Linspace(first, last, 1) == [first]
  {
  }

  /** With at least two samples, the first is `first` and the last is exactly `last`. */
  lemma LinspaceEnds(first: real, last: real, num: int)
    requires num > 1
    ensures Linspace(first, last, num)[0] == first
    ensures Linspace(first, last, num)[num - 1] == last
  {
    var d := Spacing(first, last, num);
    assert ((num - 1) as real) * d == last - first;
  }

  /** Neighbouring samples differ by the same amount, `(last - first) / (num - 1)`. */
  lemma LinspaceStep(first: real, last: real, num: int, k: nat)
    requires k + 1 < num
    ensures Linspace(first, last, num)[k + 1] - Linspace(first, last, num)[k] == (last - first) / ((num - 1) as real)
  {
    var d := Spacing(first, last, num);
    assert ((k + 1) as real) * d == (k as real) * d + d;
  }

  /** A positive factor keeps the order. */
  lemma MulOrder(a: real, b: real, d: real)
    requires a <= b && d > 0.0
    ensures a * d <= b * d
    ensures a < b ==> a * d < b * d
  {
    assert b * d - a * d == (b - a) * d;
  }

  /** Sample `i` lies `i` steps above `first` and, for `first < last`, inside `[first, last]`. */
  lemma LinspaceAt(first: real, last: real, num: int, i: nat)
    requires i < num
    ensures Linspace(first, last, num)[i] == first + (i as real) * Spacing(first, last, num)
    ensures num > 1 && first < last ==> first <= Linspace(first, last, num)[i] <= last
  {
    if num > 1 && first < last {
      var d, x, n := Spacing(first, last, num), i as real, (num - 1) as real;
      assert n > 0.0 && d == (last - first) / n;
      assert n * d == last - first;
      assert d > 0.0;
      assert 0.0 <= x <= n;
      MulOrder(0.0, x, d);
      MulOrder(x, n, d);
      assert 0.0 * d == 0.0;
      assert Linspace(first, last, num)[i] == first + x * d;
      assert 0.0 <= x * d && x * d <= n * d;
    }
  }

  /** For `first < last` an earlier sample is smaller than a later one. */
  lemma LinspaceOrdered(first: real, last: real, num: int, i: nat, j: nat)
    requires first < last && i < j < num
    ensures Linspace(first, last, num)[i] < Linspace(first, last, num)[j]
  {
    var d, n := Spacing(first, last, num), (num - 1) as real;
    assert n > 0.0 && d == (last - first) / n;
    assert d > 0.0 by {
      assert d * n == last - first;
    }
    var s := Linspace(first, last, num);
    LinspaceAt(first, last, num, i);
    LinspaceAt(first, last, num, j);
    var xi, xj := (i as real) * d, (j as real) * d;
    assert s[i] == first + xi && s[j] == first + xj;
    MulOrder(i as real, j as real, d);
    assert xi < xj;
  }

  /** For `first < last` the samples are strictly increasing and lie in `[first, last]`. */
  lemma LinspaceIncreasing(first: real, last: real, num: int)
    requires first < last
    ensures forall i, j :: 0 <= i < j < |Linspace(first, last, num)| ==> Linspace(first, last, num)[i] < Linspace(first, last, num)[j]
    ensures forall i :: 0 <= i < |Linspace(first, last, num)| ==> first <= Linspace(first, last, num)[i] <= last
  {
    var r := Linspace(first, last, num);
    forall i, j | 0 <= i < j < |r|
      ensures r[i] < r[j]
    {
      LinspaceOrdered(first, last, num, i, j);
    }
    forall i | 0 <= i < |r|
      ensures first <= r[i] <= last
    {
      LinspaceAt(first, last, num, i);
    }
  }

  /** Evenly spaced points over a non-empty interval are distinct. */
  lemma LinspaceDistinct(first: real, last: real, num: int)
    requires first < last
    ensures Distinct(Linspace(first, last, num))
  {
    LinspaceIncreasing(first, last, num);
  }

  /** `x ** k` for a natural exponent (`0 ** 0` is 1, as in Python). */
  function Pow(x: real, k: nat): real
  {
    if k == 0 then 1.0 else Pow(x, k - 1) * x
  }

  /** The interpolation system: row `i` holds `xs[i] ** j` for `j` in `range(len(xs))`. */
  function Vandermonde(xs: seq<real>): (V: Mat)
    requires |xs| >= 1
    ensures Square(V) && |V| == |xs|
    ensures forall i, j {:trigger V[i][j]} :: 0 <= i < |xs| && 0 <= j < |xs| ==> V[i][j] == Pow(xs[i], j)
  {
    seq(|xs|, i requires 0 <= i < |xs| => seq(|xs|, j requires 0 <= j < |xs| => Pow(xs[i], j)))
  }

  /** The terms `a_i * t ** i` of a polynomial with coefficients `coeffs`. */
  function PolyTerms(coeffs: seq<real>, t: real): seq<real>
  {
    seq(|coeffs|, i requires 0 <= i < |coeffs| => coeffs[i] * Pow(t, i))
  }

  /** The returned polynomial: `sum(a_i * t ** i)`. */
  function PolyEval(coeffs: seq<real>, t: real): real
  {
    SumSeq(PolyTerms(coeffs, t))
  }

  /** Row `i` of the Vandermonde system times a coefficient vector evaluates the polynomial at `xs[i]`. */
  lemma VandermondeEval(xs: seq<real>, c: seq<real>)
    requires |xs| >= 1 && |c| == |xs|
    ensures forall i :: 0 <= i < |xs| ==> MulVec(Vandermonde(xs), c)[i] == PolyEval(c, xs[i])
  {
    var V := Vandermonde(xs);
    forall i | 0 <= i < |xs|
      ensures MulVec(V, c)[i] == PolyEval(c, xs[i])
    {
      forall j | 0 <= j < |xs|
        ensures RowTimes(V[i], c)[j] == PolyTerms(c, xs[i])[j]
      {
        assert V[i][j] == Pow(xs[i], j);
      }
      assert RowTimes(V[i], c) == PolyTerms(c, xs[i]);
    }
  }

  /** No node appears twice. */
  predicate Distinct(xs: seq<real>)
  {
    forall i, j :: 0 <= i < j < |xs| ==> xs[i] != xs[j]
  }

  /** The differences `xs[k] - xs[0]` for `k >= 1`. */
  function Diffs(xs: seq<real>): seq<real>
    requires |xs| >= 1
  {
    seq(|xs| - 1, k requires 0 <= k < |xs| - 1 => xs[k + 1] - xs[0])
  }

  /** The product of `xs[j] - xs[i]` over all `i < j`. */
  function VanderProd(xs: seq<real>): real
    decreases |xs|
  {
    if |xs| <= 1 then 1.0 else ProdSeq(Diffs(xs)) * VanderProd(xs[1..])
  }

  /**
    The Vandermonde matrix after the column operations of the proof:
    every column `j >= m` has had `xs[0]` times column `j - 1` subtracted,
    so it holds `xs[i] ** (j - 1) * (xs[i] - xs[0])`.
  */
  function Reduced(xs: seq<real>, m: nat): (M: Mat)
    requires |xs| >= 1
    ensures Square(M) && |M| == |xs|
    ensures forall i, j {:trigger M[i][j]} :: 0 <= i < |xs| && 0 <= j < |xs| ==>
      M[i][j] == if 1 <= m <= j then Pow(xs[i], j - 1) * (xs[i] - xs[0]) else Pow(xs[i], j)
  {
    seq(|xs|, i requires 0 <= i < |xs| => seq(|xs|, j requires 0 <= j < |xs| =>
      if 1 <= m <= j then Pow(xs[i], j - 1) * (xs[i] - xs[0]) else Pow(xs[i], j)))
  }

  /** Reducing column `m` is adding `-xs[0]` times column `m - 1` to it. */
  lemma ReduceStep(xs: seq<real>, m: nat)
    requires 1 <= m < |xs|
    ensures Reduced(xs, m) == AddColumn(Reduced(xs, m + 1), m - 1, m, -xs[0])
  {
    var M, N := Reduced(xs, m), AddColumn(Reduced(xs, m + 1), m - 1, m, -xs[0]);
    forall i | 0 <= i < |xs|
      ensures M[i][m] == N[i][m]
    {
      var x := xs[i];
      assert Pow(x, m) == Pow(x, m - 1) * x;
      assert Pow(x, m) + -xs[0] * Pow(x, m - 1) == Pow(x, m - 1) * (x - xs[0]);
    }
    SquareExt(M, N);
  }

  /** The column operations leave the determinant unchanged. */
  lemma {:induction false} ReducedDet(xs: seq<real>, m: nat)
    requires 1 <= m <= |xs|
    ensures Det(Reduced(xs, m)) == Det(Vandermonde(xs))
    decreases |xs| - m
  {
    if m == |xs| {
      SquareExt(Reduced(xs, m), Vandermonde(xs));
    } else {
      ReducedDet(xs, m + 1);
      ReduceStep(xs, m);
      AddColumnDet(Reduced(xs, m + 1), m - 1, m, -xs[0]);
    }
  }

  /** Once reduced, the first row is 1, 0, ..., 0, so the determinant is the top-left minor. */
  lemma ReducedFirstRow(xs: seq<real>)
    requires |xs| >= 2
    ensures Det(Reduced(xs, 1)) == Det(Sub(Reduced(xs, 1), 0, 0))
  {
    var M := Reduced(xs, 1);
    var F := FirstRowTerms(M);
    forall j | 1 <= j < |xs|
      ensures F[j] == 0.0
    {
      assert M[0][j] == 0.0;
    }
    SumSingle(F, 0);
    DetExpansion(M);
    FirstRowTermAt(M, 0);
    assert M[0][0] == 1.0;
  }

  /** The top-left minor of the reduced matrix is the Vandermonde matrix of the other nodes, row `k` scaled by `xs[k + 1] - xs[0]`. */
  lemma ReducedMinor(xs: seq<real>)
    requires |xs| >= 2
    ensures Sub(Reduced(xs, 1), 0, 0) == ScaleRows(Vandermonde(xs[1..]), Diffs(xs), |xs| - 1)
  {
    SquareExt(Sub(Reduced(xs, 1), 0, 0), ScaleRows(Vandermonde(xs[1..]), Diffs(xs), |xs| - 1));
  }

  /** Expanding the reduced matrix leaves a smaller Vandermonde determinant times the differences to `xs[0]`. */
  lemma ReducedExpansion(xs: seq<real>)
    requires |xs| >= 2
    ensures Det(Reduced(xs, 1)) == ProdSeq(Diffs(xs)) * Det(Vandermonde(xs[1..]))
  {
    var c := Diffs(xs);
    ReducedFirstRow(xs);
    ReducedMinor(xs);
    ScaleRowsDet(Vandermonde(xs[1..]), c, |xs| - 1);
    assert c[..|xs| - 1] == c;
  }

  /** The Vandermonde determinant is the product of the differences of the nodes. */
  lemma {:induction false} VandermondeDet(xs: seq<real>)
    requires |xs| >= 1
    ensures Det(Vandermonde(xs)) == VanderProd(xs)
    decreases |xs|
  {
    if |xs| >= 2 {
      ReducedDet(xs, 1);
      ReducedExpansion(xs);
      VandermondeDet(xs[1..]);
    }
  }

  /** For distinct nodes the product of differences is non-zero. */
  lemma {:induction false} VanderProdNonZero(xs: seq<real>)
    requires Distinct(xs)
    ensures VanderProd(xs) != 0.0
    decreases |xs|
  {
    if |xs| >= 2 {
      var c := Diffs(xs);
      forall k | 0 <= k < |c|
        ensures c[k] != 0.0
      {
        assert xs[0] != xs[k + 1];
      }
      ProdNonZero(c);
      VanderProdNonZero(xs[1..]);
    }
  }

  /** The Vandermonde system of distinct nodes is non-singular. */
  lemma VandermondeNonSingular(xs: seq<real>)
    requires |xs| >= 1 && Distinct(xs)
    ensures Det(Vandermonde(xs)) != 0.0
  {
    VandermondeDet(xs);
    VanderProdNonZero(xs);
  }
  /** An argument of `interp`: a bare number or a list of numbers. */
  datatype Sample = Scalar(v: real) | Samples(vs: seq<real>)

  /** The function `interp` returns: a constant, or a polynomial given by its coefficients. */
  datatype Interpolant = Const(value: real) | Poly(coeffs: seq<real>)
  {
    function Eval(t: real): real
    {
      match this
      case Const(value) => value
      case Poly(coeffs) => PolyEval(coeffs, t)
    }
  }

  /** Why `interp` fails. */
  datatype InterpError =
    | NoLength              // one argument is a list and the other is not: `len` of a number
    | LengthMismatch        // the assertion that both lists have the same length
    | Kernel(cause: Error)  // building or solving the Vandermonde system failed

  /** Solving the interpolation system with a given solver. */
  function SolveWith(r: Result<seq<real>, Error>): Result<Interpolant, InterpError>
  {
    match r
    case Ok(c) => Ok(Poly(c))
    case Err(e) => Err(Kernel(e))
  }

  /**
    `interp(x, y)`: for two numbers the constant `y`; for two lists of the
    same non-zero length the polynomial whose coefficients solve the
    Vandermonde system with right-hand side `y`.
  */
  function Interp(x: Sample, y: Sample): (r: Result<Interpolant, InterpError>)
    ensures x.Scalar? && y.Scalar? ==> r == Ok(Const(y.v))
    ensures x.Scalar? != y.Scalar? ==> r == Err(NoLength)
    ensures x.Samples? && y.Samples? && |x.vs| != |y.vs| ==> r == Err(LengthMismatch)
    ensures x.Samples? && y.Samples? && |x.vs| == |y.vs| == 0 ==> r == Err(Kernel(EmptyMatrix))
    ensures r.Ok? && x.Samples? ==> r.value.Poly? && |r.value.coeffs| == |x.vs|
  {
    if x.Scalar? && y.Scalar? then Ok(Const(y.v))
    else if x.Scalar? || y.Scalar? then Err(NoLength)
    else if |x.vs| != |y.vs| then Err(LengthMismatch)
    else if |x.vs| == 0 then Err(Kernel(EmptyMatrix))
    else SolveWith(Solve(Vandermonde(x.vs), y.vs))
  }

  /**
    `interp` as written: the system is solved through the adjugate as
    written. It fails for a single point, and from two points on it agrees
    with `interp`.
  */
  function InterpAsWritten(x: Sample, y: Sample): (r: Result<Interpolant, InterpError>)
    ensures x.Samples? && y.Samples? && |x.vs| == |y.vs| == 1 ==> r == Err(Kernel(EmptyMatrix))
    ensures !(x.Samples? && y.Samples? && |x.vs| == |y.vs| == 1) ==> r == Interp(x, y)
  {
    if x.Scalar? && y.Scalar? then Ok(Const(y.v))
    else if x.Scalar? || y.Scalar? then Err(NoLength)
    else if |x.vs| != |y.vs| then Err(LengthMismatch)
    else if |x.vs| == 0 then Err(Kernel(EmptyMatrix))
    else
      var V := Vandermonde(x.vs);
      if |x.vs| >= 2 then SolveAgreesAsWritten(V, y.vs); SolveWith(SolveAsWritten(V, y.vs))
      else SolveWith(SolveAsWritten(V, y.vs))
  }

  /** Two numbers give the constant function `y`. */
  lemma InterpScalar(a: real, b: real)
    ensures Interp(Scalar(a), Scalar(b)).Ok?
    ensures forall t :: Interp(Scalar(a), Scalar(b)).value.Eval(t) == b
  {
  }

  /** For lists of the same non-zero length, `interp` succeeds exactly when the Vandermonde system is non-singular. */
  lemma InterpSucceeds(xs: seq<real>, ys: seq<real>)
    requires |xs| == |ys| >= 1
    ensures Interp(Samples(xs), Samples(ys)).Ok? <==> Det(Vandermonde(xs)) != 0.0
    ensures Interp(Samples(xs), Samples(ys)).Err? ==> Interp(Samples(xs), Samples(ys)) == Err(Kernel(Singular))
  {
  }

  /**
    For distinct nodes `interp` succeeds, with one coefficient per point,
    and the polynomial passes through every point exactly.
  */
  lemma InterpExact(xs: seq<real>, ys: seq<real>)
    requires |xs| == |ys| >= 1 && Distinct(xs)
    ensures Interp(Samples(xs), Samples(ys)).Ok?
    ensures forall i :: 0 <= i < |xs| ==> Interp(Samples(xs), Samples(ys)).value.Eval(xs[i]) == ys[i]
  {
    InterpSolves(xs, ys);
    SolutionPasses(xs, ys, Interp(Samples(xs), Samples(ys)).value.coeffs);
  }

  /** For distinct points the interpolant's coefficients solve the Vandermonde system. */
  lemma InterpSolves(xs: seq<real>, ys: seq<real>)
    requires |xs| == |ys| >= 1 && Distinct(xs)
    ensures Interp(Samples(xs), Samples(ys)).Ok? && Interp(Samples(xs), Samples(ys)).value.Poly?
    ensures MulVec(Vandermonde(xs), Interp(Samples(xs), Samples(ys)).value.coeffs) == ys
  {
    var V := Vandermonde(xs);
    VandermondeNonSingular(xs);
    SolveCorrect(V, ys);
    assert Interp(Samples(xs), Samples(ys)) == Ok(Poly(Solve(V, ys).value));
  }

  /** A solution of the Vandermonde system is a polynomial through the points. */
  lemma SolutionPasses(xs: seq<real>, ys: seq<real>, c: seq<real>)
    requires |xs| == |ys| == |c| >= 1 && MulVec(Vandermonde(xs), c) == ys
    ensures forall i :: 0 <= i < |xs| ==> Poly(c).Eval(xs[i]) == ys[i]
  {
    VandermondeEval(xs, c);
  }

  /**
    The interpolant is the only polynomial with one coefficient per point
    that passes through all the (distinct) points, so it has the lowest
    degree possible.
  */
  lemma InterpUnique(xs: seq<real>, ys: seq<real>, c: seq<real>)
    requires |xs| == |ys| >= 1 && Distinct(xs) && |c| == |xs|
    requires forall i :: 0 <= i < |xs| ==> PolyEval(c, xs[i]) == ys[i]
    ensures Interp(Samples(xs), Samples(ys)) == Ok(Poly(c))
  {
    var V := Vandermonde(xs);
    VandermondeNonSingular(xs);
    ThroughPointsSolves(xs, ys, c);
    SolveUnique(V, ys, c);
  }

  /** A polynomial through the points solves the Vandermonde system. */
  lemma ThroughPointsSolves(xs: seq<real>, ys: seq<real>, c: seq<real>)
    requires |xs| == |ys| >= 1 && |c| == |xs|
    requires forall i :: 0 <= i < |xs| ==> PolyEval(c, xs[i]) == ys[i]
    ensures MulVec(Vandermonde(xs), c) == ys
  {
    VandermondeEval(xs, c);
  }

  /**
    As written, one point (x0, y0) makes `interp` fail, because the adjugate
    of the 1 x 1 system fails; the corrected `interp` returns the constant
    polynomial y0.
  */
  lemma InterpSinglePoint(x0: real, y0: real)
    ensures InterpAsWritten(Samples([x0]), Samples([y0])) == Err(Kernel(EmptyMatrix))
    ensures Interp(Samples([x0]), Samples([y0])).Ok?
    ensures forall t :: Interp(Samples([x0]), Samples([y0])).value.Eval(t) == y0
  {
    InterpExact([x0], [y0]);
    var c := Interp(Samples([x0]), Samples([y0])).value.coeffs;
    forall t
      ensures PolyEval(c, t) == y0
    {
      assert PolyEval(c, x0) == y0;
      assert PolyTerms(c, t) == PolyTerms(c, x0);
    }
  }
}
