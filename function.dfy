/**
  The function algebra of blade_gen/function.py: powers with integer
  exponents (a constant is the power 0), sums and products of functions,
  polynomials, piecewise functions, their antiderivatives and the one- and
  two-bound integrals built from them.

  A function is a value (`Func`), evaluated by `Eval`; an evaluation that
  raises in the original program is an `Err`.
*/
module Functions {
  import opened Sums
  import opened Wrappers
  import opened Helper

  /** Why evaluating, integrating or building a function fails. */
  datatype FuncError =
    | ZeroToNegativePower  // 0.0 raised to a negative exponent
    | MissingArgument      // a power of non-zero exponent called without an argument
    | NoPiece              // a piecewise function with no piece at that index
    | DivisionByZero       // the antiderivative of the power -1
    | NoAntiderivative     // a product has no `antiderivative` method
    | UndefinedName        // the piecewise antiderivative refers to names that do not exist
    | NotAFunction         // the integer 0 of an empty sum added to a function, or called
    | BoundsMismatch       // a piecewise function needs one bound fewer than pieces

  /** A function of one real variable. */
  datatype Func =
    | Power(coeff: real, exponent: int)          // coeff * t ** exponent; a constant is the power 0
    | Sum(funcs: seq<Func>)                      // the sum of the values of the functions
    | Product(funcs: seq<Func>)                  // the product of the values of the functions
    | Polynomial(coeffs: seq<real>)              // sum of coeffs[i] * t ** i
    | Piecewise(funcs: seq<Func>, bounds: seq<real>)  // funcs[i] before bounds[i], the last one after all bounds

  /** `Constant(val)`: the power 0 with coefficient `val`. */
  function Constant(val: real): Func
  {
    Power(val, 0)
  }

  /** `pow(t, p)` for an integer exponent; a zero base with a negative exponent raises. */
  function IntPow(t: real, p: int): (r: Result<real, FuncError>)
    ensures r.Err? <==> t == 0.0 && p < 0
    ensures r.Ok? && p >= 0 ==> r.value == Pow(t, p)
    ensures r.Ok? && p < 0 ==> r.value * Pow(t, -p) == 1.0
  {
    if p >= 0 then Ok(Pow(t, p))
    else if t == 0.0 then Err(ZeroToNegativePower)
    else PowNonZero(t, -p); Ok(1.0 / Pow(t, -p))
  }

  /** A power of a non-zero base is non-zero. */
  lemma {:induction false} PowNonZero(t: real, k: nat)
    requires t != 0.0
    ensures Pow(t, k) != 0.0
  {
    if k > 0 {
      PowNonZero(t, k - 1);
    }
  }

  /**
    The index of the piece used at `t`: the first `i` with `bounds[i] > t`,
    and `|bounds|` when there is none.
  */
  function PieceIndex(bounds: seq<real>, t: real): (i: nat)
    ensures i <= |bounds|
    ensures forall j :: 0 <= j < i ==> bounds[j] <= t
    ensures i < |bounds| ==> bounds[i] > t
  {
    if |bounds| == 0 then 0
    else if bounds[0] > t then 0
    else 1 + PieceIndex(bounds[1..], t)
  }

  /** The two ways evaluating at `t` can fail: a negative power at `t = 0`, and a piecewise function without a piece for `t`. */
  predicate EvalFailure(e: FuncError, t: real)
  {
    (e == ZeroToNegativePower && t == 0.0) || e == NoPiece
  }

  /** The value of `f` at `t`; it fails only as `EvalFailure` allows. */
  function Eval(f: Func, t: real): (r: Result<real, FuncError>)
    ensures r.Err? ==> EvalFailure(r.error, t)
    decreases f
  {
    match f
    case Power(c, p) =>
      var x :- IntPow(t, p);
      Ok(c * x)
    case Sum(fs) =>
      var vs :- EvalAll(fs, t);
      Ok(SumSeq(vs))
    case Product(fs) =>
      var vs :- EvalAll(fs, t);
      Ok(ProdSeq(vs))
    case Polynomial(cs) =>
      Ok(PolyEval(cs, t))
    case Piecewise(fs, bs) =>
      var i := PieceIndex(bs, t);
      if i < |bs| then (if i < |fs| then Eval(fs[i], t) else Err(NoPiece))
      else if |fs| > 0 then Eval(fs[|fs| - 1], t)
      else Err(NoPiece)
  }

  /** The values of the functions at `t`, in order; the first failure is the result. */
  function EvalAll(fs: seq<Func>, t: real): (r: Result<seq<real>, FuncError>)
    ensures r.Ok? <==> forall i :: 0 <= i < |fs| ==> Eval(fs[i], t).Ok?
    ensures r.Ok? ==> |r.value| == |fs| && forall i :: 0 <= i < |fs| ==> r.value[i] == Eval(fs[i], t).value
    ensures r.Err? ==> EvalFailure(r.error, t)
    decreases fs
  {
    if |fs| == 0 then Ok([])
    else
      var init :- EvalAll(fs[..|fs| - 1], t);
      var v :- Eval(fs[|fs| - 1], t);
      Ok(init + [v])
  }

  /** `Power.__call__` with its optional argument: without one, only the power 0 has a value, its coefficient. */
  function PowerCall(c: real, p: int, arg: Option<real>): (r: Result<real, FuncError>)
    ensures arg.None? ==> (r.Ok? <==> p == 0)
    ensures arg.None? && p == 0 ==> r == Ok(c)
    ensures arg.Some? ==> r == Eval(Power(c, p), arg.value)
  {
    if arg.None? && p == 0 then Ok(c)
    else if arg.None? then Err(MissingArgument)
    else Eval(Power(c, p), arg.value)
  }

  /** A power with a natural exponent is `c * t ** p` everywhere. */
  lemma PowerEval(c: real, p: nat, t: real)
    ensures Eval(Power(c, p), t).Ok? && Eval(Power(c, p), t).value == c * Pow(t, p)
  {
  }

  /** A constant has its value everywhere. */
  lemma ConstantEval(c: real, t: real)
    ensures Eval(Constant(c), t) == Ok(c)
  {
  }

  /**
    A sum or product of functions is defined at `t` exactly when every
    operand is, and then its value is the sum, or the product, of their values.
  */
  lemma SumProductEval(fs: seq<Func>, t: real)
    ensures Eval(Sum(fs), t).Ok? <==> forall i :: 0 <= i < |fs| ==> Eval(fs[i], t).Ok?
    ensures Eval(Product(fs), t).Ok? <==> forall i :: 0 <= i < |fs| ==> Eval(fs[i], t).Ok?
    ensures Eval(Sum(fs), t).Ok? ==>
      Eval(Sum(fs), t).value == SumSeq(seq(|fs|, i requires 0 <= i < |fs| => Eval(fs[i], t).value)) &&
      Eval(Product(fs), t).value == ProdSeq(seq(|fs|, i requires 0 <= i < |fs| => Eval(fs[i], t).value))
  {
    if EvalAll(fs, t).Ok? {
      var vs := seq(|fs|, i requires 0 <= i < |fs| => Eval(fs[i], t).value);
      assert EvalAll(fs, t).value == vs;
    }
  }

  /** `f + g` is the sum of the two, and its value the sum of their values. */
  function Add(f: Func, g: Func): (h: Func)
    ensures h == Sum([f, g])
  {
    Sum([f, g])
  }

  /** `f * g` is the product of the two. */
  function Mul(f: Func, g: Func): (h: Func)
    ensures h == Product([f, g])
  {
    Product([f, g])
  }

  /** The value of `f + g` is `f(t) + g(t)` when both are defined, and `f + g` raises otherwise. */
  lemma AddEval(f: Func, g: Func, t: real)
    ensures Eval(Add(f, g), t).Ok? <==> Eval(f, t).Ok? && Eval(g, t).Ok?
    ensures Eval(Add(f, g), t).Ok? ==> Eval(Add(f, g), t).value == Eval(f, t).value + Eval(g, t).value
  {
    if EvalAll([f, g], t).Ok? {
      var vs := EvalAll([f, g], t).value;
      assert vs == [] + [vs[0]] + [vs[1]];
      SumAppend([], vs[0]);
      SumAppend([vs[0]], vs[1]);
    }
  }

  /** The value of `f * g` is `f(t) * g(t)` when both are defined, and `f * g` raises otherwise. */
  lemma MulEval(f: Func, g: Func, t: real)
    ensures Eval(Mul(f, g), t).Ok? <==> Eval(f, t).Ok? && Eval(g, t).Ok?
    ensures Eval(Mul(f, g), t).Ok? ==> Eval(Mul(f, g), t).value == Eval(f, t).value * Eval(g, t).value
  {
    if EvalAll([f, g], t).Ok? {
      ProductValue([f, g], t);
      assert EvalAll([f, g], t).value == [Eval(f, t).value, Eval(g, t).value];
      ProdPair(Eval(f, t).value, Eval(g, t).value);
    }
  }

  /** Where all its factors are defined, a product is the product of their values. */
  lemma ProductValue(fs: seq<Func>, t: real)
    requires EvalAll(fs, t).Ok?
    ensures Eval(Product(fs), t) == Ok(ProdSeq(EvalAll(fs, t).value))
  {
  }

  /** The powers `coeffs[i] * t ** i` a polynomial is the sum of. */
  function Powers(cs: seq<real>): (ps: seq<Func>)
    ensures |ps| == |cs|
    ensures forall i :: 0 <= i < |cs| ==> ps[i] == Power(cs[i], i)
  {
    seq(|cs|, i requires 0 <= i < |cs| => Power(cs[i], i))
  }

  /** A polynomial is the sum of its powers. */
  lemma PolynomialIsSum(cs: seq<real>, t: real)
    ensures Eval(Polynomial(cs), t) == Eval(Sum(Powers(cs)), t)
  {
    PowersEval(cs, t);
    assert Eval(Sum(Powers(cs)), t) == Ok(SumSeq(PolyTerms(cs, t)));
  }

  /** The powers of a polynomial evaluate to its terms. */
  lemma PowersEval(cs: seq<real>, t: real)
    ensures EvalAll(Powers(cs), t) == Ok(PolyTerms(cs, t))
  {
    var ps := Powers(cs);
    forall i | 0 <= i < |cs|
      ensures Eval(ps[i], t).Ok? && Eval(ps[i], t).value == PolyTerms(cs, t)[i]
    {
      PowerEval(cs[i], i, t);
    }
    assert EvalAll(ps, t).Ok?;
    assert EvalAll(ps, t).value == PolyTerms(cs, t);
  }

  /**
    `Polynomial.deg`: the highest exponent among the powers the polynomial
    sums, -1 for the polynomial with no coefficients.
  */
  function Degree(cs: seq<real>): (d: int)
    ensures d + 1 == |cs|
    ensures forall i :: 0 <= i < |cs| ==> Powers(cs)[i].exponent <= d
    ensures |cs| > 0 ==> Powers(cs)[d].exponent == d
    ensures |cs| == 0 <==> d == -1
  {
    |cs| - 1
  }

  /** `Polynomial.antiderivative`: the coefficients `[0] + [c_i / (i + 1)]`. */
  function IntegrateCoeffs(cs: seq<real>): (ds: seq<real>)
    ensures |ds| == |cs| + 1 && Degree(ds) == Degree(cs) + 1
  {
    [0.0] + seq(|cs|, i requires 0 <= i < |cs| => cs[i] / ((i + 1) as real))
  }

  /** Term-wise differentiation of coefficients: `[(i + 1) * c_(i+1)]`. */
  function DifferentiateCoeffs(cs: seq<real>): (ds: seq<real>)
    ensures |ds| == if |cs| == 0 then 0 else |cs| - 1
  {
    if |cs| == 0 then [] else seq(|cs| - 1, i requires 0 <= i < |cs| - 1 => ((i + 1) as real) * cs[i + 1])
  }

  /** Differentiating the integrated coefficients term by term gives the original coefficients back. */
  lemma DifferentiateIntegrate(cs: seq<real>)
    ensures DifferentiateCoeffs(IntegrateCoeffs(cs)) == cs
  {
    var ds := DifferentiateCoeffs(IntegrateCoeffs(cs));
    forall i | 0 <= i < |cs|
      ensures ds[i] == cs[i]
    {
      var k := (i + 1) as real;
      assert ds[i] == k * (cs[i] / k);
    }
  }

  /** The integrated polynomial vanishes at 0. */
  lemma IntegrateCoeffsAtZero(cs: seq<real>)
    ensures PolyEval(IntegrateCoeffs(cs), 0.0) == 0.0
  {
    var ds := IntegrateCoeffs(cs);
    forall i | 0 <= i < |ds|
      ensures PolyTerms(ds, 0.0)[i] == 0.0
    {
      if i > 0 {
        assert Pow(0.0, i) == Pow(0.0, i - 1) * 0.0;
      }
    }
    SumZero(PolyTerms(ds, 0.0));
  }

  /** The functions that have an `antiderivative` method (all but products). */
  predicate HasAntiderivative(f: Func)
  {
    !f.Product?
  }

  /**
    `antiderivative()`: for a power `Power(c / (1 + p), 1 + p)` (the power -1
    divides by zero), for a polynomial the integrated coefficients, for a
    sum the sum of the antiderivatives; products have none, and the
    piecewise antiderivative cannot run (it refers to an undefined name).
  */
  function Antiderivative(f: Func): (r: Result<Func, FuncError>)
    ensures f.Power? ==> (r.Ok? <==> f.exponent != -1)
    ensures f.Power? && r.Err? ==> r.error == DivisionByZero
    ensures f.Power? && r.Ok? ==>
      r.value.Power? && r.value.exponent == f.exponent + 1 && r.value.coeff * (r.value.exponent as real) == f.coeff
    ensures f.Polynomial? ==> r.Ok? && r.value.Polynomial? && |r.value.coeffs| == |f.coeffs| + 1
    ensures f.Product? ==> r == Err(NoAntiderivative)
    ensures f.Piecewise? ==> r == Err(UndefinedName)
    decreases f
  {
    match f
    case Power(c, p) =>
      if 1 + p == 0 then Err(DivisionByZero)
      else
        var k := (1 + p) as real;
        assert k != 0.0 && c / k * k == c;
        Ok(Power(c / k, 1 + p))
    case Polynomial(cs) => Ok(Polynomial(IntegrateCoeffs(cs)))
    case Sum(fs) =>
      var gs :- AntiderivativeAll(fs);
      Ok(Sum(gs))
    case Product(_) => Err(NoAntiderivative)
    case Piecewise(_, _) => Err(UndefinedName)
  }

  /** The antiderivatives of the functions, in order. */
  function AntiderivativeAll(fs: seq<Func>): (r: Result<seq<Func>, FuncError>)
    ensures r.Ok? <==> forall i :: 0 <= i < |fs| ==> Antiderivative(fs[i]).Ok?
    ensures r.Ok? ==> |r.value| == |fs| && forall i :: 0 <= i < |fs| ==> r.value[i] == Antiderivative(fs[i]).value
    decreases fs
  {
    if |fs| == 0 then Ok([])
    else
      var init :- AntiderivativeAll(fs[..|fs| - 1]);
      var g :- Antiderivative(fs[|fs| - 1]);
      Ok(init + [g])
  }

  /** What `antiderivative()` returns as written: a function, or the integer 0 that `sum` starts from. */
  datatype Anti = FuncValue(func: Func) | IntZero

  /**
    `antiderivative()` as written. `Sum.antiderivative` first computes the
    antiderivatives of its terms in order (the first that raises is the
    error), then adds them to the integer 0: 0 plus 0 stays 0, and 0 plus a
    function raises, since functions define `__add__` but not `__radd__`.
    The other kinds are as in `Antiderivative`.
  */
  function AntiderivativeAsWritten(f: Func): (r: Result<Anti, FuncError>)
    ensures !f.Sum? ==> (r.Ok? <==> Antiderivative(f).Ok?)
    ensures !f.Sum? && r.Ok? ==> r.value == FuncValue(Antiderivative(f).value)
    ensures !f.Sum? && r.Err? ==> r.error == Antiderivative(f).error
    ensures f.Sum? && r.Ok? ==> r.value == IntZero
    decreases f
  {
    match f
    case Sum(fs) =>
      var vs :- AntiderivativeAllAsWritten(fs);
      if forall i :: 0 <= i < |vs| ==> vs[i].IntZero? then Ok(IntZero) else Err(NotAFunction)
    case _ =>
      var F :- Antiderivative(f);
      Ok(FuncValue(F))
  }

  /** `[it.antiderivative() for it in funcs]` as written: in order, the first that raises is the error. */
  function AntiderivativeAllAsWritten(fs: seq<Func>): (r: Result<seq<Anti>, FuncError>)
    ensures r.Ok? <==> forall i :: 0 <= i < |fs| ==> AntiderivativeAsWritten(fs[i]).Ok?
    ensures r.Ok? ==> |r.value| == |fs| && forall i :: 0 <= i < |fs| ==> r.value[i] == AntiderivativeAsWritten(fs[i]).value
    ensures r.Err? ==>
      exists i :: 0 <= i < |fs| && AntiderivativeAsWritten(fs[i]) == Err(r.error) &&
                  forall j :: 0 <= j < i ==> AntiderivativeAsWritten(fs[j]).Ok?
    decreases fs
  {
    if |fs| == 0 then Ok([])
    else
      var g :- AntiderivativeAsWritten(fs[0]);
      var rest :- AntiderivativeAllAsWritten(fs[1..]);
      Ok([g] + rest)
  }

  /**
    A sum has an antiderivative as written exactly when each of its terms is
    itself a sum that has one: any other term either raises or gives a
    function, which the integer 0 cannot be added to.
  */
  lemma SumAntiderivativeAsWritten(fs: seq<Func>)
    ensures AntiderivativeAsWritten(Sum(fs)).Ok? <==> forall i :: 0 <= i < |fs| ==> fs[i].Sum? && AntiderivativeAsWritten(fs[i]).Ok?
  {
    if AntiderivativeAsWritten(Sum(fs)).Ok? {
      var vs := AntiderivativeAllAsWritten(fs).value;
      assert forall k :: 0 <= k < |vs| ==> vs[k].IntZero?;
      forall i | 0 <= i < |fs|
        ensures fs[i].Sum?
      {
        assert vs[i] == AntiderivativeAsWritten(fs[i]).value;
        assert vs[i].IntZero?;
      }
    }
  }

  /**
    The sum `Constant(1) + Constant(2)` has no antiderivative as written, but
    has one, `Power(1, 1) + Power(2, 1)`, as intended; a term that raises
    raises first, and the empty sum gives the integer 0.
  */
  lemma SumAntiderivativeFails()
    ensures AntiderivativeAsWritten(Sum([Constant(1.0), Constant(2.0)])) == Err(NotAFunction)
    ensures Antiderivative(Sum([Constant(1.0), Constant(2.0)])) == Ok(Sum([Power(1.0, 1), Power(2.0, 1)]))
    ensures AntiderivativeAsWritten(Sum([Power(1.0, -1), Constant(2.0)])) == Err(DivisionByZero)
    ensures AntiderivativeAsWritten(Sum([])) == Ok(IntZero)
  {
    ConstantsAntiderivativeAsWritten();
    ConstantsAntiderivative();
    var gs := [Power(1.0, -1), Constant(2.0)];
    assert AntiderivativeAsWritten(gs[0]) == Err(DivisionByZero);
    assert AntiderivativeAllAsWritten(gs) == Err(DivisionByZero);
    assert AntiderivativeAllAsWritten([]) == Ok([]);
  }

  /** As written, the sum of two constants fails: 0 plus the first antiderivative raises. */
  lemma ConstantsAntiderivativeAsWritten()
    ensures AntiderivativeAsWritten(Sum([Constant(1.0), Constant(2.0)])) == Err(NotAFunction)
  {
    var fs := [Constant(1.0), Constant(2.0)];
    ConstantAntiderivative(1.0);
    ConstantAntiderivative(2.0);
    assert AntiderivativeAllAsWritten(fs).Ok?;
    assert AntiderivativeAllAsWritten(fs).value[0] == FuncValue(Power(1.0, 1));
  }

  /** As intended, the sum of two constants has the sum of their antiderivatives. */
  lemma ConstantsAntiderivative()
    ensures Antiderivative(Sum([Constant(1.0), Constant(2.0)])) == Ok(Sum([Power(1.0, 1), Power(2.0, 1)]))
  {
    var fs := [Constant(1.0), Constant(2.0)];
    ConstantAntiderivative(1.0);
    ConstantAntiderivative(2.0);
    assert AntiderivativeAll(fs).value == [Power(1.0, 1), Power(2.0, 1)];
  }

  /** A constant `c` has the antiderivative `c * t`, as written too. */
  lemma ConstantAntiderivative(c: real)
    ensures Antiderivative(Constant(c)) == Ok(Power(c, 1))
    ensures AntiderivativeAsWritten(Constant(c)) == Ok(FuncValue(Power(c, 1)))
  {
  }

  /** Term-wise symbolic differentiation, for the functions built from powers. */
  function Derivative(f: Func): Option<Func>
    decreases f
  {
    match f
    case Power(c, p) => Some(Power(c * (p as real), p - 1))
    case Polynomial(cs) => Some(Polynomial(DifferentiateCoeffs(cs)))
    case Sum(fs) =>
      var ds := DerivativeAll(fs);
      if ds.Some? then Some(Sum(ds.value)) else None
    case Product(_) => None
    case Piecewise(_, _) => None
  }

  /** The derivatives of the functions, in order. */
  function DerivativeAll(fs: seq<Func>): Option<seq<Func>>
    decreases fs
  {
    if |fs| == 0 then Some([])
    else
      var init := DerivativeAll(fs[..|fs| - 1]);
      var d := Derivative(fs[|fs| - 1]);
      if init.Some? && d.Some? then Some(init.value + [d.value]) else None
  }

  /** Differentiating an antiderivative gives the function back. */
  lemma {:induction false} DerivativeOfAntiderivative(f: Func)
    requires Antiderivative(f).Ok?
    ensures Derivative(Antiderivative(f).value) == Some(f)
    decreases f
  {
    match f
    case Power(c, p) =>
      var k := (1 + p) as real;
      assert k != 0.0;
      var g := Power(c / k, 1 + p);
      assert Antiderivative(f).value == g;
      assert c / k * k == c;
      assert g.coeff * (g.exponent as real) == c;
      assert g.exponent - 1 == p;
      assert Derivative(g).value == f;
    case Polynomial(cs) =>
      DifferentiateIntegrate(cs);
    case Sum(fs) =>
      DerivativeOfAntiderivativeAll(fs);
  }

  lemma {:induction false} DerivativeOfAntiderivativeAll(fs: seq<Func>)
    requires AntiderivativeAll(fs).Ok?
    ensures DerivativeAll(AntiderivativeAll(fs).value) == Some(fs)
    decreases fs
  {
    if |fs| > 0 {
      var gs := AntiderivativeAll(fs).value;
      var last := fs[|fs| - 1];
      DerivativeOfAntiderivativeAll(fs[..|fs| - 1]);
      DerivativeOfAntiderivative(last);
      assert gs[..|gs| - 1] == AntiderivativeAll(fs[..|fs| - 1]).value;
      assert fs == fs[..|fs| - 1] + [last];
    }
  }

  /**
    `_int_1b(a)`: `Constant(-F(a)) + F` for the antiderivative F as written,
    the integral from `a`; calling the integer 0 of a sum raises.
  */
  function Int1b(f: Func, a: real): (r: Result<Func, FuncError>)
    ensures f.Sum? ==> r.Err?
  {
    var A :- AntiderivativeAsWritten(f);
    if A.IntZero? then Err(NotAFunction)
    else
      var Fa :- Eval(A.func, a);
      Ok(Add(Constant(-Fa), A.func))
  }

  /** The integral from `a` is `F(t) - F(a)`, so it vanishes at `a`. */
  lemma {:induction false} Int1bValue(f: Func, a: real, t: real)
    requires Int1b(f, a).Ok?
    ensures Eval(Int1b(f, a).value, a) == Ok(0.0)
    ensures Eval(Antiderivative(f).value, t).Ok? ==>
      Eval(Int1b(f, a).value, t) == Ok(Eval(Antiderivative(f).value, t).value - Eval(Antiderivative(f).value, a).value)
  {
    Int1bShape(f, a);
    var F, g := Antiderivative(f).value, Int1b(f, a).value;
    assert g == Add(Constant(-Eval(F, a).value), F);
    StartShift(F, g, a, t);
    assert Eval(g, a) == Ok(0.0);
  }

  /** A successful `int1b` is the antiderivative lowered by its value at `a`. */
  lemma {:induction false} Int1bShape(f: Func, a: real)
    requires Int1b(f, a).Ok?
    ensures Antiderivative(f).Ok? && Eval(Antiderivative(f).value, a).Ok?
    ensures Int1b(f, a).value == Add(Constant(-Eval(Antiderivative(f).value, a).value), Antiderivative(f).value)
  {
    assert !f.Sum?;
    var A := AntiderivativeAsWritten(f);
    assert A.Ok? && !A.value.IntZero?;
    assert A.value == FuncValue(Antiderivative(f).value);
    var F := A.value.func;
    assert Eval(F, a).Ok?;
    assert Int1b(f, a).value == Add(Constant(-Eval(F, a).value), F);
  }

  /** `F` lowered by its value at `a`, as `g`, vanishes at `a` and is `F(t) - F(a)` wherever `F` is defined. */
  lemma {:induction false} StartShift(F: Func, g: Func, a: real, t: real)
    requires Eval(F, a).Ok? && g == Add(Constant(-Eval(F, a).value), F)
    ensures Eval(g, a) == Ok(0.0)
    ensures Eval(F, t).Ok? ==> Eval(g, t) == Ok(Eval(F, t).value - Eval(F, a).value)
  {
    ShiftedEval(-Eval(F, a).value, F, g, a);
    ShiftedEval(-Eval(F, a).value, F, g, t);
  }

  /** `h`, a function `g` plus the constant `c`, is defined where `g` is, and is `c` higher there. */
  lemma {:induction false} ShiftedEval(c: real, g: Func, h: Func, t: real)
    requires h == Add(Constant(c), g)
    ensures Eval(h, t).Ok? <==> Eval(g, t).Ok?
    ensures Eval(g, t).Ok? ==> Eval(h, t) == Ok(c + Eval(g, t).value)
  {
    ConstantEval(c, t);
    AddEval(Constant(c), g, t);
  }

  /** The area of one trapezoid of the rule, between `x0` and `x1` with heights `v0` and `v1`. */
  function Trapezoid(x0: real, x1: real, v0: real, v1: real): real
  {
    0.5 * (v0 + v1) * (x1 - x0)
  }

  /** The trapezoids between consecutive points `x[i - 1]`, `x[i]`. */
  function TrapTerms(x: seq<real>, v: seq<real>): seq<real>
    requires |v| == |x|
  {
    if |x| == 0 then []
    else seq(|x| - 1, i requires 0 <= i < |x| - 1 => Trapezoid(x[i], x[i + 1], v[i], v[i + 1]))
  }

  /**
    `_int_trap(a, b, num)`: the trapezoid rule on `linspace(a, b, num)`.
    Below two points it is zero; otherwise it fails exactly when `f` has no
    value at one of the points, and then only through a negative power at a
    point `0` or a missing piece.
  */
  function IntTrap(f: Func, a: real, b: real, num: int): (r: Result<real, FuncError>)
    ensures num < 2 ==> r == Ok(0.0)
    ensures num >= 2 ==> (r.Ok? <==> forall i :: 0 <= i < num ==> Eval(f, Linspace(a, b, num)[i]).Ok?)
    ensures r.Err? ==> (r.error == ZeroToNegativePower && 0.0 in Linspace(a, b, num)) || r.error == NoPiece
  {
    var x := Linspace(a, b, num);
    if |x| < 2 then Ok(0.0)
    else
      var w :- EvalAt(f, x);
      Ok(SumSeq(TrapTerms(x, w)))
  }

  /** The values of `f` at the points `x`, in order. */
  function EvalAt(f: Func, x: seq<real>): (r: Result<seq<real>, FuncError>)
    ensures r.Ok? <==> forall i :: 0 <= i < |x| ==> Eval(f, x[i]).Ok?
    ensures r.Ok? ==> |r.value| == |x| && forall i :: 0 <= i < |x| ==> r.value[i] == Eval(f, x[i]).value
    ensures r.Err? ==> (r.error == ZeroToNegativePower && 0.0 in x) || r.error == NoPiece
  {
    if |x| == 0 then Ok([])
    else
      var front := x[..|x| - 1];
      assert forall i :: 0 <= i < |front| ==> front[i] == x[i];
      var init :- EvalAt(f, front);
      var v :- Eval(f, x[|x| - 1]);
      Ok(init + [v])
  }

  /** Dropping the last grid point drops the last trapezoid. */
  lemma TrapTermsInit(x: seq<real>, v: seq<real>)
    requires |x| == |v| >= 2
    ensures TrapTerms(x, v) == TrapTerms(x[..|x| - 1], v[..|v| - 1]) + [Trapezoid(x[|x| - 2], x[|x| - 1], v[|v| - 2], v[|v| - 1])]
  {
    var n := |x|;
    var x', v' := x[..n - 1], v[..n - 1];
    var T, T' := TrapTerms(x, v), TrapTerms(x', v');
    forall k | 0 <= k < |T'|
      ensures T[k] == T'[k]
    {
      assert x'[k] == x[k] && v'[k] == v[k];
      assert x'[k + 1] == x[k + 1] && v'[k + 1] == v[k + 1];
    }
    var last := Trapezoid(x[n - 2], x[n - 1], v[n - 2], v[n - 1]);
    assert |T| == |T'| + 1;
    assert T[n - 2] == last;
    assert T == T' + [last];
    assert x' == x[..|x| - 1] && v' == v[..|v| - 1];
    assert TrapTerms(x, v) == TrapTerms(x[..|x| - 1], v[..|v| - 1]) + [last];
  }

  /** The exact integral of the line `q + p * t` from `a` to `b`. */
  function LineIntegral(q: real, p: real, a: real, b: real): real
  {
    q * (b - a) + 0.5 * p * (b * b - a * a)
  }

  /** The trapezoid rule integrates a straight line `q + p * x` exactly over any grid. */
  lemma TrapLinear(x: seq<real>, v: seq<real>, q: real, p: real)
    requires |x| == |v| >= 1
    requires forall i :: 0 <= i < |x| ==> v[i] == q + p * x[i]
    ensures SumSeq(TrapTerms(x, v)) == LineIntegral(q, p, x[0], x[|x| - 1])
  {
    var g := seq(|x|, i requires 0 <= i < |x| => LineIntegral(q, p, x[0], x[i]));
    forall i | 0 <= i < |x| - 1
      ensures Trapezoid(x[i], x[i + 1], v[i], v[i + 1]) == g[i + 1] - g[i]
    {
      TrapStep(q, p, x[i], x[i + 1], v[i], v[i + 1]);
      LineIntegralSplit(q, p, x[0], x[i], x[i + 1]);
    }
    TrapTelescope(x, v, g);
    assert g[0] == 0.0;
  }

  /** One trapezoid under the line `q + p * x` from `y` to `z`. */
  lemma TrapStep(q: real, p: real, y: real, z: real, vy: real, vz: real)
    requires vy == q + p * y && vz == q + p * z
    ensures Trapezoid(y, z, vy, vz) == LineIntegral(q, p, y, z)
  {
    assert vy + vz == 2.0 * q + p * (y + z);
    assert (y + z) * (z - y) == z * z - y * y;
  }

  /**
    The trapezoid sum telescopes: when every trapezoid is the increase of
    `g` over its interval, the sum is the increase of `g` over the grid.
  */
  lemma {:induction false} TrapTelescope(x: seq<real>, v: seq<real>, g: seq<real>)
    requires |x| == |v| == |g| >= 1
    requires forall i :: 0 <= i < |x| - 1 ==> Trapezoid(x[i], x[i + 1], v[i], v[i + 1]) == g[i + 1] - g[i]
    ensures SumSeq(TrapTerms(x, v)) == g[|g| - 1] - g[0]
    decreases |x|
  {
    var n := |x|;
    if n == 1 {
      assert TrapTerms(x, v) == [];
    } else {
      var x', v', g' := x[..n - 1], v[..n - 1], g[..n - 1];
      TrapTelescope(x', v', g');
      TrapTermsInit(x, v);
      SumAppend(TrapTerms(x', v'), Trapezoid(x[n - 2], x[n - 1], v[n - 2], v[n - 1]));
    }
  }

  /** The integral of a line over `[x0, y]` plus that over `[y, z]` is that over `[x0, z]`. */
  lemma LineIntegralSplit(q: real, p: real, x0: real, y: real, z: real)
    ensures LineIntegral(q, p, x0, y) + LineIntegral(q, p, y, z) == LineIntegral(q, p, x0, z)
  {
    assert q * (y - x0) + q * (z - y) == q * (z - x0);
    assert 0.5 * p * (y * y - x0 * x0) + 0.5 * p * (z * z - y * y) == 0.5 * p * (z * z - x0 * x0);
  }

  /** A polynomial of degree one or two in closed form. */
  lemma PolyEvalLow(c0: real, c1: real, c2: real, t: real)
    ensures PolyEval([c0, c1], t) == c0 + c1 * t
    ensures PolyEval([c0, c1, c2], t) == c0 + c1 * t + c2 * (t * t)
  {
    assert Pow(t, 1) == t;
    assert Pow(t, 2) == t * t;
    var u, w := PolyTerms([c0, c1], t), PolyTerms([c0, c1, c2], t);
    assert u[0] == c0 && u[1] == c1 * t;
    assert w[0] == c0 && w[1] == c1 * t && w[2] == c2 * (t * t);
    assert u == [] + [c0] + [c1 * t];
    assert w == [] + [c0] + [c1 * t] + [c2 * (t * t)];
    SumAppend([], c0);
    SumAppend([c0], c1 * t);
    SumAppend([c0, c1 * t], c2 * (t * t));
  }

  /**
    `_int_2b(a, b, num_pts)`: `F(b) - F(a)` for the antiderivative F as
    written when no point count is given and the function has an
    `antiderivative` method (so a sum fails there), otherwise the trapezoid
    rule on `num_pts` points (101 by default).
  */
  function Int2b(f: Func, a: real, b: real, numPts: Option<int>): (r: Result<real, FuncError>)
    ensures numPts.None? && f.Sum? ==> r.Err?
  {
    if numPts.None? && HasAntiderivative(f) then
      var A :- AntiderivativeAsWritten(f);
      if A.IntZero? then Err(NotAFunction)
      else
        var Fb :- Eval(A.func, b);
        var Fa :- Eval(A.func, a);
        Ok(Fb - Fa)
    else
      IntTrap(f, a, b, if numPts.None? then 101 else numPts.value)
  }

  /** The two-bound integral is the one-bound integral from `a` evaluated at `b`. */
  lemma Int2bIsInt1b(f: Func, a: real, b: real)
    requires HasAntiderivative(f) && Int2b(f, a, b, None).Ok?
    ensures Int1b(f, a).Ok? && Eval(Int1b(f, a).value, b).Ok?
    ensures Eval(Int1b(f, a).value, b).value == Int2b(f, a, b, None).value
  {
    Int1bValue(f, a, b);
  }

  /** The analytic integral is additive over adjacent intervals, and so changes sign with its bounds. */
  lemma Int2bAdditive(f: Func, a: real, b: real, c: real)
    requires HasAntiderivative(f)
    requires Int2b(f, a, b, None).Ok? && Int2b(f, b, c, None).Ok?
    ensures Int2b(f, a, c, None).Ok?
    ensures Int2b(f, a, b, None).value + Int2b(f, b, c, None).value == Int2b(f, a, c, None).value
    ensures Int2b(f, b, a, None).Ok? && Int2b(f, b, a, None).value == -Int2b(f, a, b, None).value
  {
  }

  /** The analytic integral of the line `q + p * t` is `q * (b - a) + p * (b * b - a * a) / 2`. */
  lemma Int2bLine(q: real, p: real, a: real, b: real)
    ensures Int2b(Polynomial([q, p]), a, b, None).Ok?
    ensures Int2b(Polynomial([q, p]), a, b, None).value == LineIntegral(q, p, a, b)
  {
    var ds := IntegrateCoeffs([q, p]);
    assert ds[1] == q / 1.0 && ds[2] == p / 2.0;
    assert ds == [0.0, q / 1.0, p / 2.0];
    assert AntiderivativeAsWritten(Polynomial([q, p])) == Ok(FuncValue(Polynomial(ds)));
    PolyEvalLow(0.0, q / 1.0, p / 2.0, a);
    PolyEvalLow(0.0, q / 1.0, p / 2.0, b);
    assert PolyEval(ds, b) - PolyEval(ds, a) == LineIntegral(q, p, a, b);
  }

  /** The trapezoid rule on at least two points integrates a function that is a straight line everywhere exactly. */
  lemma IntTrapLinear(f: Func, q: real, p: real, a: real, b: real, num: int)
    requires num >= 2
    requires forall t :: Eval(f, t).Ok? && Eval(f, t).value == q + p * t
    ensures IntTrap(f, a, b, num).Ok?
    ensures IntTrap(f, a, b, num).value == LineIntegral(q, p, a, b)
  {
    var x := Linspace(a, b, num);
    LinspaceEnds(a, b, num);
    var w := EvalAt(f, x).value;
    TrapLinear(x, w, q, p);
    assert x[0] == a && x[|x| - 1] == b;
    var sum := SumSeq(TrapTerms(x, w));
    assert sum == LineIntegral(q, p, a, b);
    assert IntTrap(f, a, b, num).value == sum;
  }

  /** The polynomial `[q, p]` is the line `q + p * t`. */
  lemma LineEval(q: real, p: real)
    ensures forall t :: Eval(Polynomial([q, p]), t).Ok? && Eval(Polynomial([q, p]), t).value == q + p * t
  {
    forall t
      ensures Eval(Polynomial([q, p]), t).Ok? && Eval(Polynomial([q, p]), t).value == q + p * t
    {
      PolyEvalLow(q, p, 0.0, t);
    }
  }

  /** On a straight line the trapezoid rule with at least two points gives the analytic integral. */
  lemma IntTrapLine(q: real, p: real, a: real, b: real, num: int)
    ensures Int2b(Polynomial([q, p]), a, b, Some(num)).Ok?
    ensures Int2b(Polynomial([q, p]), a, b, Some(num)).value ==
      if num >= 2 then Int2b(Polynomial([q, p]), a, b, None).value else 0.0
  {
    Int2bLine(q, p, a, b);
    if num >= 2 {
      LineEval(q, p);
      IntTrapLinear(Polynomial([q, p]), q, p, a, b, num);
    }
  }

  /** The trapezoid rule is exact on a constant: `c * (b - a)` with at least two points, 0 with fewer. */
  lemma IntTrapConstant(c: real, a: real, b: real, num: int)
    ensures IntTrap(Constant(c), a, b, num).Ok?
    ensures IntTrap(Constant(c), a, b, num).value == if num >= 2 then c * (b - a) else 0.0
  {
    if num >= 2 {
      forall t
        ensures Eval(Constant(c), t).Ok? && Eval(Constant(c), t).value == c + 0.0 * t
      {
      }
      IntTrapLinear(Constant(c), c, 0.0, a, b, num);
    }
  }

  /** The bounds argument of `Piecewise`: a single number stands for the list holding it. */
  function BoundsList(bounds: Sample): (bs: seq<real>)
    ensures bounds.Scalar? ==> bs == [bounds.v]
    ensures bounds.Samples? ==> bs == bounds.vs
  {
    match bounds
    case Scalar(b) => [b]
    case Samples(bs) => bs
  }

  /** `Piecewise(funcs, bounds)`: the constructor insists on one bound fewer than pieces. */
  function MakePiecewise(funcs: seq<Func>, bounds: Sample): (r: Result<Func, FuncError>)
    ensures r.Err? <==> |BoundsList(bounds)| + 1 != |funcs|
    ensures r.Err? ==> r.error == BoundsMismatch
    ensures r.Ok? ==> r.value.Piecewise? && r.value.funcs == funcs && r.value.bounds == BoundsList(bounds)
  {
    var bs := BoundsList(bounds);
    if |bs| != |funcs| - 1 then Err(BoundsMismatch) else Ok(Piecewise(funcs, bs))
  }

  /**
    A constructed piecewise function always has a piece to use, and its
    value is that of piece `PieceIndex(bounds, t)`: the first piece whose
    bound lies above `t`, the last piece past every bound.
  */
  lemma PiecewiseEval(funcs: seq<Func>, bounds: Sample, t: real)
    requires MakePiecewise(funcs, bounds).Ok?
    ensures PieceIndex(BoundsList(bounds), t) < |funcs|
    ensures Eval(MakePiecewise(funcs, bounds).value, t) == Eval(funcs[PieceIndex(BoundsList(bounds), t)], t)
  {
  }

  /** With ascending bounds, `t` in `[bounds[i - 1], bounds[i])` selects piece `i`. */
  lemma PieceIndexSorted(bs: seq<real>, t: real, i: nat)
    requires forall j, k :: 0 <= j < k < |bs| ==> bs[j] <= bs[k]
    requires i <= |bs|
    requires i > 0 ==> bs[i - 1] <= t
    requires i < |bs| ==> t < bs[i]
    ensures PieceIndex(bs, t) == i
  {
  }

  /** What `int` returns: a function of the upper bound, or a number. */
  datatype Integral = Indefinite(func: Func) | Definite(value: real)

  /** `int(a, b, num_pts)`: the one-bound integral without `b`, the two-bound one with it. */
  function Integrate(f: Func, a: real, b: Option<real>, numPts: Option<int>): (r: Result<Integral, FuncError>)
    ensures b.None? ==> (r.Ok? <==> Int1b(f, a).Ok?) && (r.Ok? ==> r.value.Indefinite?)
    ensures b.Some? ==> (r.Ok? <==> Int2b(f, a, b.value, numPts).Ok?) && (r.Ok? ==> r.value.Definite?)
  {
    if b.None? then
      var g :- Int1b(f, a);
      Ok(Indefinite(g))
    else
      var v :- Int2b(f, a, b.value, numPts);
      Ok(Definite(v))
  }
}
