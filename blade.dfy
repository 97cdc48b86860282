/**
  The rational parts of blade_gen/blade.py: the blade's hub and tip radii,
  the spanwise interpolation of its design parameters, the chord law, the
  camber line and thickness system of the modified NACA 4-digit section,
  and the point grid that `gen` fills station by station.

  Square roots and the trigonometric functions are parameters of the model
  (the `Trig` record); every other step is exact arithmetic over the reals.
*/
module Blade {
  import opened Wrappers
  import opened Sums
  import opened LinAlg
  import opened Helper
  import opened Adjugate
  import opened Ratio

  /** Why building a blade, a section or the point grid fails. */
  datatype BladeError =
    | Interpolation(cause: InterpError)  // `interp` of a design parameter failed
    | DivisionByZero                     // a float division by zero
    | MathDomain                         // `sqrt` of a negative number
    | Unsolvable(reason: Error)          // the thickness system could not be solved
    | NotIncreasing                      // the reparametrisation `f` is not increasing on the samples

  /** The square root and trigonometric functions the geometry uses. */
  datatype Trig = Trig(sqrt: real -> real, sin: real -> real, cos: real -> real, tan: real -> real, atan: real -> real)

  // ---------------------------------------------------------------------
  // Blade and Bamberger construction
  // ---------------------------------------------------------------------

  /** The arguments of `Bamberger(d, hub_ratio, flow_coeff, cd_in, k_in, tk_in, a_in, ta_in, aoa_in, sweep_in)`. */
  datatype Params = Params(
    d: real, hubRatio: real, flowCoeff: real,
    cd: seq<real>, k: seq<real>, tk: seq<real>, a: seq<real>, ta: seq<real>, aoa: seq<real>, sweep: seq<real>)

  /** A Bamberger blade: the radii and the interpolated spanwise parameter laws. */
  datatype Bamberger = Bamberger(
    rt: real, rh: real, flowCoeff: real,
    cd: Interpolant, k: Interpolant, tk: Interpolant, a: Interpolant, ta: Interpolant, aoa: Interpolant, sweep: Interpolant)

  /** `Blade.__init__`: the tip radius is half the diameter, the hub radius the hub ratio of it. */
  function TipRadius(d: real): real
  {
    0.5 * d
  }

  function HubRadius(d: real, hubRatio: real): real
  {
    hubRatio * TipRadius(d)
  }

  /** The radii are ordered as expected for a positive diameter and a hub ratio in `[0, 1)`. */
  lemma RadiiOrdered(d: real, hubRatio: real)
    ensures TipRadius(d) + TipRadius(d) == d
    ensures HubRadius(d, hubRatio) + HubRadius(d, hubRatio) == hubRatio * d
    ensures d > 0.0 && 0.0 <= hubRatio < 1.0 ==> 0.0 <= HubRadius(d, hubRatio) < TipRadius(d)
  {
  }

  /**
    `interp(linspace(rh, rt, len(vals)), vals)`: a parameter law over the
    span, with `interp` as written.
  */
  function SpanInterp(rh: real, rt: real, vals: seq<real>): (r: Result<Interpolant, BladeError>)
    ensures r.Ok? <==> InterpAsWritten(Samples(Linspace(rh, rt, |vals|)), Samples(vals)).Ok?
    ensures r.Ok? ==> r.value == InterpAsWritten(Samples(Linspace(rh, rt, |vals|)), Samples(vals)).value
    ensures r.Err? ==> r.error == Interpolation(InterpAsWritten(Samples(Linspace(rh, rt, |vals|)), Samples(vals)).error)
  {
    match InterpAsWritten(Samples(Linspace(rh, rt, |vals|)), Samples(vals))
    case Ok(f) => Ok(f)
    case Err(e) => Err(Interpolation(e))
  }

  /**
    Over a non-empty span a parameter law exists exactly when it is given
    at least two values. With none or one value the Vandermonde system is
    empty or 1 x 1, and the kernel fails on the empty matrix.
  */
  lemma SpanInterpDefined(rh: real, rt: real, vals: seq<real>)
    requires rh < rt
    ensures SpanInterp(rh, rt, vals).Ok? <==> |vals| >= 2
    ensures |vals| < 2 ==> SpanInterp(rh, rt, vals) == Err(Interpolation(Kernel(EmptyMatrix)))
  {
    if |vals| >= 2 {
      SpanInterpOk(rh, rt, vals);
    } else if |vals| == 1 {
      SpanInterpSingle(rh, rt, vals);
    }
  }

  /**
    Over a non-empty span a parameter law with at least two values exists
    and takes the given values at the evenly spaced stations.
  */
  lemma SpanInterpOk(rh: real, rt: real, vals: seq<real>)
    requires rh < rt && |vals| >= 2
    ensures SpanInterp(rh, rt, vals).Ok?
    ensures forall i :: 0 <= i < |vals| ==> SpanInterp(rh, rt, vals).value.Eval(Linspace(rh, rt, |vals|)[i]) == vals[i]
  {
    LinspaceDistinct(rh, rt, |vals|);
    InterpExact(Linspace(rh, rt, |vals|), vals);
  }

  /**
    A law given by a single value fails, as the program's `interp` does on
    one point; the corrected `interp` would give that constant over the
    whole span.
  */
  lemma SpanInterpSingle(rh: real, rt: real, vals: seq<real>)
    requires |vals| == 1
    ensures SpanInterp(rh, rt, vals) == Err(Interpolation(Kernel(EmptyMatrix)))
    ensures Interp(Samples(Linspace(rh, rt, 1)), Samples(vals)).Ok?
    ensures forall t :: Interp(Samples(Linspace(rh, rt, 1)), Samples(vals)).value.Eval(t) == vals[0]
  {
    LinspaceSingle(rh, rt);
    assert vals == [vals[0]];
    InterpSinglePoint(rh, vals[0]);
  }

  /** Such a law takes its first value at the hub. */
  lemma SpanInterpHub(rh: real, rt: real, vals: seq<real>)
    requires rh < rt && |vals| >= 2
    ensures SpanInterp(rh, rt, vals).Ok?
    ensures SpanInterp(rh, rt, vals).value.Eval(rh) == vals[0]
  {
    SpanInterpOk(rh, rt, vals);
    LinspaceEnds(rh, rt, |vals|);
  }

  /** Such a law takes its last value at the tip. */
  lemma SpanInterpTip(rh: real, rt: real, vals: seq<real>)
    requires rh < rt && |vals| >= 2
    ensures SpanInterp(rh, rt, vals).Ok?
    ensures SpanInterp(rh, rt, vals).value.Eval(rt) == vals[|vals| - 1]
  {
    SpanInterpOk(rh, rt, vals);
    LinspaceEnds(rh, rt, |vals|);
  }

  /**
    Outcomes computed in order, as a loop of calls that raise: either
    every outcome is a value and the result lists them, or the error is
    that of the first outcome that fails.
  */
  function Collect(outs: seq<Result<Interpolant, BladeError>>): (r: Result<seq<Interpolant>, BladeError>)
    ensures r.Ok? <==> forall i :: 0 <= i < |outs| ==> outs[i].Ok?
    ensures r.Ok? ==> |r.value| == |outs| && forall i :: 0 <= i < |outs| ==> r.value[i] == outs[i].value
    ensures r.Err? ==>
      exists i :: 0 <= i < |outs| && outs[i] == Err(r.error) && forall j :: 0 <= j < i ==> outs[j].Ok?
    decreases |outs|
  {
    if |outs| == 0 then Ok([])
    else
      var first :- outs[0];
      var rest :- Collect(outs[1..]);
      Ok([first] + rest)
  }

  /**
    The laws for several parameter lists over the same span, built in
    order: either every `interp` succeeds and the laws are theirs, or the
    error is that of the first list whose `interp` fails.
  */
  function SpanLaws(rh: real, rt: real, lists: seq<seq<real>>): (r: Result<seq<Interpolant>, BladeError>)
    ensures r.Ok? <==> forall i :: 0 <= i < |lists| ==> SpanInterp(rh, rt, lists[i]).Ok?
    ensures r.Ok? ==> |r.value| == |lists| && forall i :: 0 <= i < |lists| ==> r.value[i] == SpanInterp(rh, rt, lists[i]).value
    ensures r.Err? ==>
      exists i :: 0 <= i < |lists| && SpanInterp(rh, rt, lists[i]) == Err(r.error) &&
                  forall j :: 0 <= j < i ==> SpanInterp(rh, rt, lists[j]).Ok?
  {
    Collect(Outcomes(rh, rt, lists))
  }

  /** The outcome of `interp` over the span for each parameter list, in order. */
  function Outcomes(rh: real, rt: real, lists: seq<seq<real>>): (outs: seq<Result<Interpolant, BladeError>>)
    ensures |outs| == |lists| && forall i :: 0 <= i < |lists| ==> outs[i] == SpanInterp(rh, rt, lists[i])
    decreases |lists|
  {
    if |lists| == 0 then []
    else
      var rest := Outcomes(rh, rt, lists[1..]);
      assert forall i :: 1 <= i < |lists| ==> lists[i] == lists[1..][i - 1];
      [SpanInterp(rh, rt, lists[0])] + rest
  }

  /** The parameter lists in the order `Bamberger.__init__` interpolates them. */
  function ParamLists(p: Params): (ls: seq<seq<real>>)
    ensures |ls| == 7 && ls[0] == p.cd && ls[6] == p.sweep
  {
    [p.cd, p.k, p.tk, p.a, p.ta, p.aoa, p.sweep]
  }

  /**
    `Bamberger.__init__`: the radii, then the laws for `cd`, `k`, `tk`, `a`,
    `ta`, `aoa` and `sweep` in that order; the first failing `interp` is the
    error.
  */
  function MakeBamberger(p: Params): (r: Result<Bamberger, BladeError>)
    ensures r.Ok? ==> r.value.rt == TipRadius(p.d) && r.value.rh == HubRadius(p.d, p.hubRatio) && r.value.flowCoeff == p.flowCoeff
    ensures r.Ok? <==> SpanLaws(HubRadius(p.d, p.hubRatio), TipRadius(p.d), ParamLists(p)).Ok?
    ensures r.Err? ==> SpanLaws(HubRadius(p.d, p.hubRatio), TipRadius(p.d), ParamLists(p)).error == r.error
    ensures r.Ok? ==>
      var laws := SpanLaws(HubRadius(p.d, p.hubRatio), TipRadius(p.d), ParamLists(p)).value;
      |laws| == 7 && r.value.cd == laws[0] && r.value.k == laws[1] && r.value.tk == laws[2] && r.value.a == laws[3] &&
      r.value.ta == laws[4] && r.value.aoa == laws[5] && r.value.sweep == laws[6]
  {
    var rt := TipRadius(p.d);
    var rh := HubRadius(p.d, p.hubRatio);
    var laws :- SpanLaws(rh, rt, ParamLists(p));
    Ok(Bamberger(rt, rh, p.flowCoeff, laws[0], laws[1], laws[2], laws[3], laws[4], laws[5], laws[6]))
  }

  /** Every parameter list is given at least two values, as `interp` as written needs. */
  predicate AllInterpolable(p: Params)
  {
    forall i :: 0 <= i < 7 ==> |ParamLists(p)[i]| >= 2
  }

  /** The chord at radius `r` for the chord ratio `ratio`: `2 * r * ratio`, the ratio times the local diameter. */
  function ChordOf(r: real, ratio: real): real
  {
    2.0 * r * ratio
  }

  /** The chord law `c(r) = 2 * r * cd(r)`. */
  function Chord(b: Bamberger, r: real): real
  {
    ChordOf(r, b.cd.Eval(r))
  }

  /**
    Over a non-empty span a blade is built exactly when every parameter
    list has at least two values; otherwise the first list with fewer
    fails on the empty matrix.
  */
  lemma BambergerBuilds(p: Params)
    requires HubRadius(p.d, p.hubRatio) < TipRadius(p.d)
    ensures MakeBamberger(p).Ok? <==> AllInterpolable(p)
    ensures MakeBamberger(p).Err? ==> MakeBamberger(p).error == Interpolation(Kernel(EmptyMatrix))
  {
    var rh, rt := HubRadius(p.d, p.hubRatio), TipRadius(p.d);
    var ls := ParamLists(p);
    forall i | 0 <= i < 7
      ensures SpanInterp(rh, rt, ls[i]).Ok? <==> |ls[i]| >= 2
      ensures SpanInterp(rh, rt, ls[i]).Err? ==> SpanInterp(rh, rt, ls[i]).error == Interpolation(Kernel(EmptyMatrix))
    {
      SpanInterpDefined(rh, rt, ls[i]);
    }
  }

  /** The chord-ratio law of a built blade is the interpolant of `cd_in`. */
  lemma ChordLaw(p: Params)
    requires MakeBamberger(p).Ok?
    ensures SpanInterp(HubRadius(p.d, p.hubRatio), TipRadius(p.d), p.cd).Ok?
    ensures MakeBamberger(p).value.cd == SpanInterp(HubRadius(p.d, p.hubRatio), TipRadius(p.d), p.cd).value
  {
    var laws := SpanLaws(HubRadius(p.d, p.hubRatio), TipRadius(p.d), ParamLists(p)).value;
    assert MakeBamberger(p).value.cd == laws[0];
  }

  /**
    A blade of positive diameter with hub ratio below one and at least two
    values in every parameter list is always built, over a non-empty span,
    and its chord-ratio law is the interpolant of `cd_in` over that span.
  */
  lemma BuiltChordLaw(p: Params)
    requires p.d > 0.0 && p.hubRatio < 1.0 && AllInterpolable(p)
    ensures HubRadius(p.d, p.hubRatio) < TipRadius(p.d)
    ensures MakeBamberger(p).Ok?
    ensures SpanInterp(HubRadius(p.d, p.hubRatio), TipRadius(p.d), p.cd).Ok?
    ensures MakeBamberger(p).value.cd == SpanInterp(HubRadius(p.d, p.hubRatio), TipRadius(p.d), p.cd).value
  {
    HubBelowTip(p.d, p.hubRatio);
    BambergerBuilds(p);
    ChordLaw(p);
  }

  /** The chord of `b` is `hub_ratio * d * first` at the hub and `d * last` at the tip. */
  predicate ChordEnds(b: Bamberger, d: real, hubRatio: real, first: real, last: real)
  {
    Chord(b, HubRadius(d, hubRatio)) == hubRatio * d * first && Chord(b, TipRadius(d)) == d * last
  }

  /**
    With those ratios the chord at the hub is `hub_ratio * d * cd_in[0]` and
    at the tip `d * cd_in[-1]`: the chord ratio times the local diameter.
  */
  lemma ChordAtHubAndTip(b: Bamberger, d: real, hubRatio: real, first: real, last: real)
    requires b.cd.Eval(HubRadius(d, hubRatio)) == first && b.cd.Eval(TipRadius(d)) == last
    ensures ChordEnds(b, d, hubRatio, first, last)
  {
    ChordScale(d, hubRatio, first, last);
  }

  /**
    The chord of such a built blade is `hub_ratio * d * cd_in[0]` at the
    hub and `d * cd_in[-1]` at the tip.
  */
  lemma {:induction false} BuiltChordEnds(p: Params)
    requires p.d > 0.0 && p.hubRatio < 1.0 && AllInterpolable(p)
    ensures MakeBamberger(p).Ok?
    ensures |p.cd| >= 2 && ChordEnds(MakeBamberger(p).value, p.d, p.hubRatio, p.cd[0], p.cd[|p.cd| - 1])
  {
    BuiltRatioEnds(p);
    ChordAtHubAndTip(MakeBamberger(p).value, p.d, p.hubRatio, p.cd[0], p.cd[|p.cd| - 1]);
  }

  /** The chord-ratio law of such a built blade takes `cd_in[0]` at the hub and `cd_in[-1]` at the tip. */
  lemma BuiltRatioEnds(p: Params)
    requires p.d > 0.0 && p.hubRatio < 1.0 && AllInterpolable(p)
    ensures MakeBamberger(p).Ok? && |p.cd| >= 2
    ensures MakeBamberger(p).value.cd.Eval(HubRadius(p.d, p.hubRatio)) == p.cd[0]
    ensures MakeBamberger(p).value.cd.Eval(TipRadius(p.d)) == p.cd[|p.cd| - 1]
  {
    var rh, rt := HubRadius(p.d, p.hubRatio), TipRadius(p.d);
    BuiltChordLaw(p);
    assert |p.cd| >= 2 by {
      assert ParamLists(p)[0] == p.cd;
    }
    var law := MakeBamberger(p).value.cd;
    assert law.Eval(rh) == p.cd[0] && law.Eval(rt) == p.cd[|p.cd| - 1] by {
      LawEnds(law, rh, rt, p.cd);
    }
  }

  /** A law interpolating `vals` over the span takes `vals[0]` at the hub and `vals[-1]` at the tip. */
  lemma LawEnds(law: Interpolant, rh: real, rt: real, vals: seq<real>)
    requires rh < rt && |vals| >= 2
    requires SpanInterp(rh, rt, vals).Ok? && law == SpanInterp(rh, rt, vals).value
    ensures law.Eval(rh) == vals[0] && law.Eval(rt) == vals[|vals| - 1]
  {
    SpanInterpHub(rh, rt, vals);
    SpanInterpTip(rh, rt, vals);
  }

  /** For a positive diameter, a hub ratio below one puts the hub below the tip. */
  lemma HubBelowTip(d: real, hubRatio: real)
    requires d > 0.0 && hubRatio < 1.0
    ensures HubRadius(d, hubRatio) < TipRadius(d)
  {
    var rt := TipRadius(d);
    MulPos(1.0 - hubRatio, rt);
    assert rt - HubRadius(d, hubRatio) == (1.0 - hubRatio) * rt;
  }

  /** `a * b > 0` for positive `a` and `b`. */
  lemma MulPos(a: real, b: real)
    requires a > 0.0 && b > 0.0
    ensures a * b > 0.0
  {
  }

  /** The chord at the hub and at the tip in terms of the diameter. */
  lemma ChordScale(d: real, hubRatio: real, x: real, y: real)
    ensures ChordOf(HubRadius(d, hubRatio), x) == hubRatio * d * x
    ensures ChordOf(TipRadius(d), y) == d * y
  {
  }

  // ---------------------------------------------------------------------
  // The modified NACA 4-digit section
  // ---------------------------------------------------------------------

  /** The eight thickness coefficients `[a0, a1, a2, a3, d0, d1, d2, d3]`. */
  datatype Thickness = Thickness(a0: real, a1: real, a2: real, a3: real, d0: real, d1: real, d2: real, d3: real)
  {
    /**
      The list `coeffs` returns: `a0`, the first three unknowns of the
      thickness system, `d0`, `d1`, then the last two unknowns.
    */
    function AsList(): (s: seq<real>)
      ensures |s| == 8 && s[0] == a0 && s[4] == d0 && s[5] == d1
      ensures [s[1], s[2], s[3], s[6], s[7]] == Unknowns(this)
    {
      [a0, a1, a2, a3, d0, d1, d2, d3]
    }
  }

  /** A section: chord, camber `k` at `tk`, thickness `a` at `ta`, and its thickness coefficients. */
  datatype Section = NACA4m(c: real, k: real, tk: real, a: real, ta: real, coeffs: Thickness)

  /** The chordwise coordinate `uc(t) = c * t`. */
  function Uc(s: Section, t: real): real
  {
    s.c * t
  }

  /** `Section.qc`: the quarter chord. */
  function Qc(s: Section): real
  {
    0.25 * s.c
  }

  /** The chordwise coordinate runs from 0 at `t = 0` to the chord at `t = 1`, and the quarter chord is its value at `t = 1/4`. */
  lemma QuarterChord(s: Section)
    ensures Uc(s, 0.0) == 0.0 && Uc(s, 1.0) == s.c
    ensures Qc(s) == Uc(s, 0.25)
    ensures s.c > 0.0 ==> 0.0 < Qc(s) < s.c
  {
  }

  /** `x * y / y == x` for non-zero `y`. */
  lemma DivSelf(x: real, y: real)
    requires y != 0.0
    ensures x * y / y == x
  {
  }

  /** `x ** 2`, which vanishes only at zero: the camber denominators vanish only at `tk = 0` and `tk = 1`. */
  function Sq(x: real): (r: real)
    ensures x != 0.0 ==> r != 0.0
  {
    if x == 0.0 then x * x else DivSelf(x, x); x * x
  }

  /** The parabola `e + f * t - t ** 2` both camber branches are built on. */
  function Parabola(e: real, f: real, t: real): real
  {
    e + f * t - t * t
  }

  /** The camber line ahead of its highest point: `c * k * (2 * tk * t - t ** 2) / tk ** 2`. */
  function CamberFore(c: real, k: real, tk: real, t: real): real
    requires tk != 0.0
  {
    c * k * Parabola(0.0, 2.0 * tk, t) / Sq(tk)
  }

  /** The camber line behind its highest point: `c * k * (1 - 2 * tk + 2 * tk * t - t ** 2) / (1 - tk) ** 2`. */
  function CamberAft(c: real, k: real, tk: real, t: real): real
    requires tk != 1.0
  {
    c * k * Parabola(1.0 - 2.0 * tk, 2.0 * tk, t) / Sq(1.0 - tk)
  }

  /** The camber slope ahead of the highest point: `2 * k / tk ** 2 * (tk - t)`. */
  function SlopeFore(k: real, tk: real, t: real): real
    requires tk != 0.0
  {
    2.0 * k / Sq(tk) * (tk - t)
  }

  /** The camber slope behind the highest point: `2 * k / (1 - tk) ** 2 * (tk - t)`. */
  function SlopeAft(k: real, tk: real, t: real): real
    requires tk != 1.0
  {
    2.0 * k / Sq(1.0 - tk) * (tk - t)
  }

  /** `wc(t)`: the fore branch for `t < tk`, the aft branch otherwise; a zero denominator raises. */
  function Wc(s: Section, t: real): (r: Result<real, BladeError>)
    ensures r.Err? <==> (t < s.tk && s.tk == 0.0) || (t >= s.tk && s.tk == 1.0)
    ensures r.Ok? && t < s.tk ==> r.value == CamberFore(s.c, s.k, s.tk, t)
    ensures r.Ok? && t >= s.tk ==> r.value == CamberAft(s.c, s.k, s.tk, t)
  {
    if t < s.tk then
      if s.tk == 0.0 then Err(DivisionByZero) else Ok(CamberFore(s.c, s.k, s.tk, t))
    else
      if s.tk == 1.0 then Err(DivisionByZero) else Ok(CamberAft(s.c, s.k, s.tk, t))
  }

  /** `m(t)`: the camber slope, with the same branches and the same failures as `wc`. */
  function M(s: Section, t: real): (r: Result<real, BladeError>)
    ensures r.Err? <==> Wc(s, t).Err?
    ensures r.Ok? && t < s.tk ==> r.value == SlopeFore(s.k, s.tk, t)
    ensures r.Ok? && t >= s.tk ==> r.value == SlopeAft(s.k, s.tk, t)
  {
    if t < s.tk then
      if s.tk == 0.0 then Err(DivisionByZero) else Ok(SlopeFore(s.k, s.tk, t))
    else
      if s.tk == 1.0 then Err(DivisionByZero) else Ok(SlopeAft(s.k, s.tk, t))
  }

  /** Both branches of the camber line vanish at the ends of the chord. */
  lemma CamberEnds(s: Section)
    requires 0.0 < s.tk < 1.0
    ensures Wc(s, 0.0).Ok? && Wc(s, 0.0).value == 0.0
    ensures Wc(s, 1.0).Ok? && Wc(s, 1.0).value == 0.0
  {
    assert Parabola(0.0, 2.0 * s.tk, 0.0) == 0.0;
    assert Parabola(1.0 - 2.0 * s.tk, 2.0 * s.tk, 1.0) == 0.0;
  }

  /** The fore branch reaches the height `c * k` at `tk`. */
  lemma CamberForePeak(c: real, k: real, tk: real)
    requires tk != 0.0
    ensures CamberFore(c, k, tk, tk) == c * k
  {
    assert Parabola(0.0, 2.0 * tk, tk) == Sq(tk);
    DivSelf(c * k, Sq(tk));
  }

  /** The aft branch reaches the height `c * k` at `tk`. */
  lemma CamberAftPeak(c: real, k: real, tk: real)
    requires tk != 1.0
    ensures CamberAft(c, k, tk, tk) == c * k
  {
    assert Parabola(1.0 - 2.0 * tk, 2.0 * tk, tk) == Sq(1.0 - tk);
    DivSelf(c * k, Sq(1.0 - tk));
  }

  /**
    For `0 < tk < 1` the camber line starts and ends on the chord, and both
    branches reach the height `c * k` with zero slope at `tk`, so the line
    is continuous and smooth there.
  */
  lemma CamberShape(s: Section)
    requires 0.0 < s.tk < 1.0
    ensures Wc(s, 0.0).Ok? && Wc(s, 0.0).value == 0.0
    ensures Wc(s, 1.0).Ok? && Wc(s, 1.0).value == 0.0
    ensures CamberFore(s.c, s.k, s.tk, s.tk) == s.c * s.k == CamberAft(s.c, s.k, s.tk, s.tk)
    ensures Wc(s, s.tk).Ok? && Wc(s, s.tk).value == s.c * s.k
    ensures SlopeFore(s.k, s.tk, s.tk) == 0.0 == SlopeAft(s.k, s.tk, s.tk)
    ensures M(s, s.tk).Ok? && M(s, s.tk).value == 0.0
  {
    CamberEnds(s);
    CamberForePeak(s.c, s.k, s.tk);
    CamberAftPeak(s.c, s.k, s.tk);
  }

  /** Division by `q` is multiplication by its reciprocal. */
  lemma DivAsMul(x: real, q: real)
    requires q != 0.0
    ensures x / q == x * (1.0 / q)
  {
  }

  /** The step of a parabola: `P(t + h) - P(t) == h * (f - 2 t) - h ** 2`. */
  lemma ParabolaStep(e: real, f: real, t: real, h: real)
    ensures Parabola(e, f, t + h) - Parabola(e, f, t) == h * (f - 2.0 * t) - h * h
  {
  }

  /**
    The step of a camber branch `c * k * P(t) / q` with `P` the parabola
    peaking at `tk`: `c * h * (2 k / q * (tk - t)) - c * k * h ** 2 / q`.
  */
  lemma BranchStep(c: real, k: real, q: real, e: real, tk: real, t: real, h: real)
    requires q != 0.0
    ensures c * k * Parabola(e, 2.0 * tk, t + h) / q - c * k * Parabola(e, 2.0 * tk, t) / q
         == c * h * (2.0 * k / q * (tk - t)) - c * k * (h * h) / q
  {
    var iq := 1.0 / q;
    var p1, p0 := Parabola(e, 2.0 * tk, t + h), Parabola(e, 2.0 * tk, t);
    ParabolaStep(e, 2.0 * tk, t, h);
    DivAsMul(c * k * p1, q);
    DivAsMul(c * k * p0, q);
    DivAsMul(2.0 * k, q);
    DivAsMul(c * k * (h * h), q);
    assert p1 - p0 == h * (2.0 * tk - 2.0 * t) - h * h;
    assert c * k * p1 * iq - c * k * p0 * iq == c * k * iq * (p1 - p0);
  }

  /**
    The slope `m` is the derivative of `wc / c` ahead of the highest point:
    stepping from `t` to `t + h` changes the camber by `c * h * m(t)` up to
    the second-order term `c * k * h ** 2 / tk ** 2`.
  */
  lemma CamberSlopeFore(c: real, k: real, tk: real, t: real, h: real)
    requires tk != 0.0
    ensures CamberFore(c, k, tk, t + h) - CamberFore(c, k, tk, t) == c * h * SlopeFore(k, tk, t) - c * k * (h * h) / Sq(tk)
  {
    BranchStep(c, k, Sq(tk), 0.0, tk, t, h);
  }

  /**
    Likewise behind the highest point, with the second-order term
    `c * k * h ** 2 / (1 - tk) ** 2`.
  */
  lemma CamberSlopeAft(c: real, k: real, tk: real, t: real, h: real)
    requires tk != 1.0
    ensures CamberAft(c, k, tk, t + h) - CamberAft(c, k, tk, t) == c * h * SlopeAft(k, tk, t) - c * k * (h * h) / Sq(1.0 - tk)
  {
    BranchStep(c, k, Sq(1.0 - tk), 1.0 - 2.0 * tk, tk, t, h);
  }

  // ---------------------------------------------------------------------
  // Thickness distribution
  // ---------------------------------------------------------------------

  /** The thickness ahead of `ta`, per unit chord, with `st` standing for `sqrt(t)`. */
  function ThicknessFore(T: Thickness, t: real, st: real): real
  {
    T.a0 * st + T.a1 * t + T.a2 * (t * t) + T.a3 * (t * t * t)
  }

  /** The thickness behind `ta`, per unit chord: a cubic in `1 - t`. */
  function ThicknessAft(T: Thickness, t: real): real
  {
    var u := 1.0 - t;
    T.d0 + T.d1 * u + T.d2 * (u * u) + T.d3 * (u * u * u)
  }

  /** The derivative of `ThicknessFore` in `t`, with `st == sqrt(t)`. */
  function SlopeThicknessFore(T: Thickness, t: real, st: real): real
    requires st != 0.0
  {
    0.5 * T.a0 / st + T.a1 + 2.0 * T.a2 * t + 3.0 * T.a3 * (t * t)
  }

  /** The derivative of `ThicknessAft` in `t`. */
  function SlopeThicknessAft(T: Thickness, t: real): real
  {
    var u := 1.0 - t;
    -(T.d1 + 2.0 * T.d2 * u + 3.0 * T.d3 * (u * u))
  }

  /** The second derivative of `ThicknessFore`, with `st3 == sqrt(t ** 3)`. */
  function CurvatureFore(T: Thickness, t: real, st3: real): real
    requires st3 != 0.0
  {
    -0.25 * T.a0 / st3 + 2.0 * T.a2 + 6.0 * T.a3 * t
  }

  /** The second derivative of `ThicknessAft`. */
  function CurvatureAft(T: Thickness, t: real): real
  {
    2.0 * T.d2 + 6.0 * T.d3 * (1.0 - t)
  }

  /** The thickness system: value and slope at `ta` for both pieces, and equal curvature there. */
  function ThicknessSystem(ta: real): (A: Mat)
    ensures Square(A) && |A| == 5
  {
    var u := 1.0 - ta;
    [[ta, ta * ta, ta * ta * ta, 0.0, 0.0],
     [0.0, 0.0, 0.0, u * u, u * u * u],
     [1.0, 2.0 * ta, 3.0 * (ta * ta), 0.0, 0.0],
     [0.0, 0.0, 0.0, 2.0 * u, 3.0 * (u * u)],
     [0.0, 2.0, 6.0 * ta, -2.0, -6.0 * u]]
  }

  /** The thickness system as written: the last entry of the curvature row has the wrong sign. */
  function ThicknessSystemAsWritten(ta: real): (A: Mat)
    ensures Square(A) && |A| == 5
    ensures forall i, j :: 0 <= i < 5 && 0 <= j < 5 && (i, j) != (4, 4) ==> A[i][j] == ThicknessSystem(ta)[i][j]
    ensures A[4][4] == -ThicknessSystem(ta)[4][4]
  {
    var u := 1.0 - ta;
    [[ta, ta * ta, ta * ta * ta, 0.0, 0.0],
     [0.0, 0.0, 0.0, u * u, u * u * u],
     [1.0, 2.0 * ta, 3.0 * (ta * ta), 0.0, 0.0],
     [0.0, 0.0, 0.0, 2.0 * u, 3.0 * (u * u)],
     [0.0, 2.0, 6.0 * ta, -2.0, 6.0 * u]]
  }

  /** The right-hand side, with `st == sqrt(ta)` and `st3 == sqrt(ta ** 3)`. */
  function ThicknessRhs(a: real, ta: real, a0: real, d0: real, d1: real, st: real, st3: real): (b: seq<real>)
    requires st != 0.0 && st3 != 0.0
    ensures |b| == 5
  {
    [a - st * a0, a - d0 - (1.0 - ta) * d1, -0.5 * a0 / st, -d1, 0.25 * a0 / st3]
  }

  /** The five unknowns `[a1, a2, a3, d2, d3]` the thickness system solves for. */
  function Unknowns(T: Thickness): (x: seq<real>)
    ensures |x| == 5
  {
    [T.a1, T.a2, T.a3, T.d2, T.d3]
  }

  /**
    Solving the thickness system `A` for `[a1, a2, a3, d2, d3]` with the
    given `a0`, `d0` and `d1`: the result solves the system, and a singular
    system is the error.
  */
  function SolveThickness(A: Mat, b: seq<real>, a0: real, d0: real, d1: real): (r: Result<Thickness, BladeError>)
    requires Square(A) && |A| == 5 && |b| == 5
    ensures r.Ok? <==> Det(A) != 0.0
    ensures r.Ok? ==> r.value.a0 == a0 && r.value.d0 == d0 && r.value.d1 == d1 && MulVec(A, Unknowns(r.value)) == b
  {
    match Solve(A, b)
    case Err(e) => Err(Unsolvable(e))
    case Ok(x) =>
      SolveCorrect(A, b);
      assert x == [x[0], x[1], x[2], x[3], x[4]];
      Ok(Thickness(a0, x[0], x[1], x[2], d0, d1, x[3], x[4]))
  }

  /**
    `NACA4m.coeffs(a, ta)` with the thickness system `A` and the tabulated
    `d1`: `a0 = sqrt(2.2038) * a`, `d0 = 0.01 * a`, and `a1, a2, a3, d2, d3`
    solving the system. A negative `ta` has no square root, and `ta = 0`
    divides by zero.
  */
  function CoeffsWith(A: Mat, a: real, ta: real, d1: real, sqrt: real -> real): (r: Result<Thickness, BladeError>)
    requires Square(A) && |A| == 5
    ensures ta < 0.0 ==> r == Err(MathDomain)
    ensures r.Ok? <==> ta >= 0.0 && sqrt(ta) != 0.0 && sqrt(ta * ta * ta) != 0.0 && Det(A) != 0.0
    ensures r.Ok? ==> r.value.a0 == sqrt(2.2038) * a && r.value.d0 == 0.01 * a && r.value.d1 == d1
  {
    var a0 := sqrt(2.2038) * a;
    var d0 := 0.01 * a;
    if ta < 0.0 then Err(MathDomain)
    else if sqrt(ta) == 0.0 || sqrt(ta * ta * ta) == 0.0 then Err(DivisionByZero)
    else SolveThickness(A, ThicknessRhs(a, ta, a0, d0, d1, sqrt(ta), sqrt(ta * ta * ta)), a0, d0, d1)
  }

  /** The unknowns `coeffs` returns solve the thickness system with its right-hand side. */
  lemma CoeffsSolve(A: Mat, a: real, ta: real, d1: real, sqrt: real -> real)
    requires Square(A) && |A| == 5 && CoeffsWith(A, a, ta, d1, sqrt).Ok?
    ensures sqrt(ta) != 0.0 && sqrt(ta * ta * ta) != 0.0
    ensures var T := CoeffsWith(A, a, ta, d1, sqrt).value;
      MulVec(A, Unknowns(T)) == ThicknessRhs(a, ta, T.a0, T.d0, T.d1, sqrt(ta), sqrt(ta * ta * ta))
  {
    var a0, d0 := sqrt(2.2038) * a, 0.01 * a;
    var b := ThicknessRhs(a, ta, a0, d0, d1, sqrt(ta), sqrt(ta * ta * ta));
    assert CoeffsWith(A, a, ta, d1, sqrt) == SolveThickness(A, b, a0, d0, d1);
  }

  /**
    The corrected `coeffs`: it fails for a negative `ta`; otherwise
    `a0 = sqrt(2.2038) * a`, `d0 = 0.01 * a`, `d1` from the ratio table,
    and the two pieces of the thickness meet at `ta` with value `a`, zero
    slope and equal curvature.
  */
  function Coeffs(a: real, ta: real, sqrt: real -> real): (r: Result<Thickness, BladeError>)
    ensures ta < 0.0 ==> r == Err(MathDomain)
    ensures r.Ok? ==> sqrt(ta) != 0.0 && sqrt(ta * ta * ta) != 0.0
    ensures r.Ok? ==> r.value.a0 == sqrt(2.2038) * a && r.value.d0 == 0.01 * a && r.value.d1 == D1(a, ta)
    ensures r.Ok? ==>
      MeetAt(r.value, a, ta, sqrt(ta)) && CurvatureFore(r.value, ta, sqrt(ta * ta * ta)) == CurvatureAft(r.value, ta)
  {
    var r := CoeffsWith(ThicknessSystem(ta), a, ta, D1(a, ta), sqrt);
    if r.Ok? then CoeffsMeet(a, ta, D1(a, ta), sqrt); r else r
  }

  /**
    `coeffs` as written: it fails for a negative `ta`; otherwise
    `a0 = sqrt(2.2038) * a`, `d0 = 0.01 * a`, `d1` from the ratio table,
    and the two pieces of the thickness meet at `ta` with value `a` and
    zero slope, while the curvature jumps there by `-12 * d3 * (1 - ta)`.
  */
  function CoeffsAsWritten(a: real, ta: real, sqrt: real -> real): (r: Result<Thickness, BladeError>)
    ensures ta < 0.0 ==> r == Err(MathDomain)
    ensures r.Ok? ==> sqrt(ta) != 0.0 && sqrt(ta * ta * ta) != 0.0
    ensures r.Ok? ==> r.value.a0 == sqrt(2.2038) * a && r.value.d0 == 0.01 * a && r.value.d1 == D1(a, ta)
    ensures r.Ok? ==> MeetAt(r.value, a, ta, sqrt(ta)) && JumpsAsWritten(r.value, ta, sqrt(ta * ta * ta))
  {
    var r := CoeffsWith(ThicknessSystemAsWritten(ta), a, ta, D1(a, ta), sqrt);
    if r.Ok? then CoeffsAsWrittenMeet(a, ta, D1(a, ta), sqrt); r else r
  }

  /** A row of five entries times a vector of five. */
  lemma Dot5(row: seq<real>, x: seq<real>)
    requires |row| == 5 && |x| == 5
    ensures SumSeq(RowTimes(row, x)) == row[0] * x[0] + row[1] * x[1] + row[2] * x[2] + row[3] * x[3] + row[4] * x[4]
  {
    var p := RowTimes(row, x);
    assert p[..0] == [];
    assert SumSeq(p[..0]) == 0.0;
    assert p[..1] == p[..0] + [p[0]];
    SumAppend(p[..0], p[0]);
    assert p[..2] == p[..1] + [p[1]];
    SumAppend(p[..1], p[1]);
    assert p[..3] == p[..2] + [p[2]];
    SumAppend(p[..2], p[2]);
    assert p[..4] == p[..3] + [p[3]];
    SumAppend(p[..3], p[3]);
    assert p[..5] == p[..4] + [p[4]];
    SumAppend(p[..4], p[4]);
    assert p[..5] == p;
  }

  /** Row `i` of a 5 x 5 system times the unknowns, written out. */
  function Row5(A: Mat, i: nat, x: seq<real>): real
    requires Square(A) && |A| == 5 && i < 5 && |x| == 5
  {
    A[i][0] * x[0] + A[i][1] * x[1] + A[i][2] * x[2] + A[i][3] * x[3] + A[i][4] * x[4]
  }

  /** The product of a 5 x 5 system with five unknowns, row by row. */
  lemma MulVec5(A: Mat, x: seq<real>)
    requires Square(A) && |A| == 5 && |x| == 5
    ensures |MulVec(A, x)| == 5
    ensures forall i :: 0 <= i < 5 ==> MulVec(A, x)[i] == Row5(A, i, x)
  {
    forall i | 0 <= i < 5
      ensures MulVec(A, x)[i] == Row5(A, i, x)
    {
      Dot5(A[i], x);
    }
  }

  /**
    The two pieces of the thickness meet at `ta`: both have the value `a`
    there and both have zero slope (`st == sqrt(ta)`).
  */
  predicate MeetAt(T: Thickness, a: real, ta: real, st: real)
    requires st != 0.0
  {
    ThicknessFore(T, ta, st) == a && ThicknessAft(T, ta) == a &&
    SlopeThicknessFore(T, ta, st) == 0.0 && SlopeThicknessAft(T, ta) == 0.0
  }

  /** Row 0: the fore piece has the value `a` at `ta`. */
  lemma ValueForeRow(T: Thickness, a: real, ta: real, st: real)
    ensures ta * T.a1 + ta * ta * T.a2 + ta * ta * ta * T.a3 == a - st * T.a0 <==> ThicknessFore(T, ta, st) == a
  {
  }

  /** Row 1: the aft piece has the value `a` at `ta`. */
  lemma ValueAftRow(T: Thickness, a: real, ta: real)
    ensures var u := 1.0 - ta; u * u * T.d2 + u * u * u * T.d3 == a - T.d0 - u * T.d1 <==> ThicknessAft(T, ta) == a
  {
  }

  /** Row 2: the fore piece has zero slope at `ta`. */
  lemma SlopeForeRow(T: Thickness, ta: real, st: real)
    requires st != 0.0
    ensures T.a1 + 2.0 * ta * T.a2 + 3.0 * (ta * ta) * T.a3 == -0.5 * T.a0 / st <==> SlopeThicknessFore(T, ta, st) == 0.0
  {
  }

  /** Row 3: the aft piece has zero slope at `ta`. */
  lemma SlopeAftRow(T: Thickness, ta: real)
    ensures var u := 1.0 - ta; 2.0 * u * T.d2 + 3.0 * (u * u) * T.d3 == -T.d1 <==> SlopeThicknessAft(T, ta) == 0.0
  {
  }

  /**
    The first four rows shared by both thickness systems, times the
    unknowns, against the right-hand side: the two pieces meet at `ta` with
    value `a` and zero slope.
  */
  lemma MeetRows(T: Thickness, a: real, ta: real, st: real)
    requires st != 0.0
    ensures var u := 1.0 - ta;
      (ta * T.a1 + ta * ta * T.a2 + ta * ta * ta * T.a3 == a - st * T.a0 &&
       u * u * T.d2 + u * u * u * T.d3 == a - T.d0 - u * T.d1 &&
       T.a1 + 2.0 * ta * T.a2 + 3.0 * (ta * ta) * T.a3 == -0.5 * T.a0 / st &&
       2.0 * u * T.d2 + 3.0 * (u * u) * T.d3 == -T.d1)
      <==> MeetAt(T, a, ta, st)
  {
    ValueForeRow(T, a, ta, st);
    ValueAftRow(T, a, ta);
    SlopeForeRow(T, ta, st);
    SlopeAftRow(T, ta);
  }

  /** The entries of the right-hand side. */
  lemma RhsEntries(a: real, ta: real, a0: real, d0: real, d1: real, st: real, st3: real)
    requires st != 0.0 && st3 != 0.0
    ensures var b := ThicknessRhs(a, ta, a0, d0, d1, st, st3);
      b[0] == a - st * a0 && b[1] == a - d0 - (1.0 - ta) * d1 && b[2] == -0.5 * a0 / st &&
      b[3] == -d1 && b[4] == 0.25 * a0 / st3
  {
  }

  /** The rows of the corrected system times the unknowns. */
  lemma SystemRows(T: Thickness, ta: real)
    ensures var A, x, u := ThicknessSystem(ta), Unknowns(T), 1.0 - ta;
      Row5(A, 0, x) == ta * T.a1 + ta * ta * T.a2 + ta * ta * ta * T.a3 &&
      Row5(A, 1, x) == u * u * T.d2 + u * u * u * T.d3 &&
      Row5(A, 2, x) == T.a1 + 2.0 * ta * T.a2 + 3.0 * (ta * ta) * T.a3 &&
      Row5(A, 3, x) == 2.0 * u * T.d2 + 3.0 * (u * u) * T.d3 &&
      Row5(A, 4, x) == 2.0 * T.a2 + 6.0 * ta * T.a3 - 2.0 * T.d2 - 6.0 * u * T.d3
  {
    var A, x, u := ThicknessSystem(ta), Unknowns(T), 1.0 - ta;
    assert Row5(A, 0, x) == ta * T.a1 + ta * ta * T.a2 + ta * ta * ta * T.a3;
    assert Row5(A, 1, x) == u * u * T.d2 + u * u * u * T.d3;
    assert Row5(A, 2, x) == T.a1 + 2.0 * ta * T.a2 + 3.0 * (ta * ta) * T.a3;
    assert Row5(A, 3, x) == 2.0 * u * T.d2 + 3.0 * (u * u) * T.d3;
  }

  /** The rows of the system as written times the unknowns: only the last differs. */
  lemma SystemRowsAsWritten(T: Thickness, ta: real)
    ensures var A, x, u := ThicknessSystemAsWritten(ta), Unknowns(T), 1.0 - ta;
      Row5(A, 0, x) == ta * T.a1 + ta * ta * T.a2 + ta * ta * ta * T.a3 &&
      Row5(A, 1, x) == u * u * T.d2 + u * u * u * T.d3 &&
      Row5(A, 2, x) == T.a1 + 2.0 * ta * T.a2 + 3.0 * (ta * ta) * T.a3 &&
      Row5(A, 3, x) == 2.0 * u * T.d2 + 3.0 * (u * u) * T.d3 &&
      Row5(A, 4, x) == 2.0 * T.a2 + 6.0 * ta * T.a3 - 2.0 * T.d2 + 6.0 * u * T.d3
  {
    var A, x, u := ThicknessSystemAsWritten(ta), Unknowns(T), 1.0 - ta;
    assert Row5(A, 0, x) == ta * T.a1 + ta * ta * T.a2 + ta * ta * ta * T.a3;
    assert Row5(A, 1, x) == u * u * T.d2 + u * u * u * T.d3;
    assert Row5(A, 2, x) == T.a1 + 2.0 * ta * T.a2 + 3.0 * (ta * ta) * T.a3;
    assert Row5(A, 3, x) == 2.0 * u * T.d2 + 3.0 * (u * u) * T.d3;
  }

  /** Two sequences of five entries are equal exactly when they agree entry by entry. */
  lemma Equal5(s: seq<real>, t: seq<real>)
    requires |s| == 5 && |t| == 5
    ensures s == t <==> s[0] == t[0] && s[1] == t[1] && s[2] == t[2] && s[3] == t[3] && s[4] == t[4]
  {
    if s[0] == t[0] && s[1] == t[1] && s[2] == t[2] && s[3] == t[3] && s[4] == t[4] {
      assert forall i :: 0 <= i < 5 ==> s[i] == t[i];
    }
  }

  /** Row 4 of the corrected system: the curvatures of the two pieces agree at `ta`. */
  lemma CurvatureRow(T: Thickness, ta: real, st3: real)
    requires st3 != 0.0
    ensures 2.0 * T.a2 + 6.0 * ta * T.a3 - 2.0 * T.d2 - 6.0 * (1.0 - ta) * T.d3 == 0.25 * T.a0 / st3
            <==> CurvatureFore(T, ta, st3) == CurvatureAft(T, ta)
  {
  }

  /** Row 4 of the system as written: the curvature jumps by `-12 * d3 * (1 - ta)` at `ta`. */
  lemma CurvatureRowAsWritten(T: Thickness, ta: real, st3: real)
    requires st3 != 0.0
    ensures 2.0 * T.a2 + 6.0 * ta * T.a3 - 2.0 * T.d2 + 6.0 * (1.0 - ta) * T.d3 == 0.25 * T.a0 / st3
            <==> CurvatureFore(T, ta, st3) - CurvatureAft(T, ta) == -12.0 * T.d3 * (1.0 - ta)
  {
  }

  /**
    `coeffs` with the corrected system: its unknowns solve the system
    exactly when the pieces meet at `ta` with value `a`, zero slope and
    equal curvature (`st3 == sqrt(ta ** 3)`).
  */
  lemma ThicknessSystemMeaning(T: Thickness, a: real, ta: real, st: real, st3: real)
    requires st != 0.0 && st3 != 0.0
    ensures MulVec(ThicknessSystem(ta), Unknowns(T)) == ThicknessRhs(a, ta, T.a0, T.d0, T.d1, st, st3)
            <==> MeetAt(T, a, ta, st) && CurvatureFore(T, ta, st3) == CurvatureAft(T, ta)
  {
    var A, x := ThicknessSystem(ta), Unknowns(T);
    var p, b := MulVec(A, x), ThicknessRhs(a, ta, T.a0, T.d0, T.d1, st, st3);
    assert b[0] == a - st * T.a0 && b[1] == a - T.d0 - (1.0 - ta) * T.d1 && b[2] == -0.5 * T.a0 / st &&
           b[3] == -T.d1 && b[4] == 0.25 * T.a0 / st3 by {
      RhsEntries(a, ta, T.a0, T.d0, T.d1, st, st3);
    }
    assert p[0] == ta * T.a1 + ta * ta * T.a2 + ta * ta * ta * T.a3 &&
           p[1] == (1.0 - ta) * (1.0 - ta) * T.d2 + (1.0 - ta) * (1.0 - ta) * (1.0 - ta) * T.d3 &&
           p[2] == T.a1 + 2.0 * ta * T.a2 + 3.0 * (ta * ta) * T.a3 &&
           p[3] == 2.0 * (1.0 - ta) * T.d2 + 3.0 * ((1.0 - ta) * (1.0 - ta)) * T.d3 &&
           p[4] == 2.0 * T.a2 + 6.0 * ta * T.a3 - 2.0 * T.d2 - 6.0 * (1.0 - ta) * T.d3 by {
      MulVec5(A, x);
      SystemRows(T, ta);
    }
    assert p == b <==> p[0] == b[0] && p[1] == b[1] && p[2] == b[2] && p[3] == b[3] && p[4] == b[4] by {
      MulVec5(A, x);
      Equal5(p, b);
    }
    MeetRows(T, a, ta, st);
    CurvatureRow(T, ta, st3);
  }

  /**
    With the system as written, the unknowns solve it exactly when the
    pieces meet at `ta` with value `a` and zero slope and the curvature
    jumps there by `-12 * d3 * (1 - ta)`.
  */
  lemma ThicknessSystemAsWrittenMeaning(T: Thickness, a: real, ta: real, st: real, st3: real)
    requires st != 0.0 && st3 != 0.0
    ensures MulVec(ThicknessSystemAsWritten(ta), Unknowns(T)) == ThicknessRhs(a, ta, T.a0, T.d0, T.d1, st, st3)
            <==> MeetAt(T, a, ta, st) && CurvatureFore(T, ta, st3) - CurvatureAft(T, ta) == -12.0 * T.d3 * (1.0 - ta)
  {
    var A, x := ThicknessSystemAsWritten(ta), Unknowns(T);
    var p, b := MulVec(A, x), ThicknessRhs(a, ta, T.a0, T.d0, T.d1, st, st3);
    assert b[0] == a - st * T.a0 && b[1] == a - T.d0 - (1.0 - ta) * T.d1 && b[2] == -0.5 * T.a0 / st &&
           b[3] == -T.d1 && b[4] == 0.25 * T.a0 / st3 by {
      RhsEntries(a, ta, T.a0, T.d0, T.d1, st, st3);
    }
    assert p[0] == ta * T.a1 + ta * ta * T.a2 + ta * ta * ta * T.a3 &&
           p[1] == (1.0 - ta) * (1.0 - ta) * T.d2 + (1.0 - ta) * (1.0 - ta) * (1.0 - ta) * T.d3 &&
           p[2] == T.a1 + 2.0 * ta * T.a2 + 3.0 * (ta * ta) * T.a3 &&
           p[3] == 2.0 * (1.0 - ta) * T.d2 + 3.0 * ((1.0 - ta) * (1.0 - ta)) * T.d3 &&
           p[4] == 2.0 * T.a2 + 6.0 * ta * T.a3 - 2.0 * T.d2 + 6.0 * (1.0 - ta) * T.d3 by {
      MulVec5(A, x);
      SystemRowsAsWritten(T, ta);
    }
    assert p == b <==> p[0] == b[0] && p[1] == b[1] && p[2] == b[2] && p[3] == b[3] && p[4] == b[4] by {
      MulVec5(A, x);
      Equal5(p, b);
    }
    MeetRows(T, a, ta, st);
    CurvatureRowAsWritten(T, ta, st3);
  }

  /**
    The coefficients `coeffs` returns with the corrected system: the two
    pieces of the thickness meet at `ta` with value `a`, zero slope and
    equal curvature.
  */
  lemma CoeffsMeet(a: real, ta: real, d1: real, sqrt: real -> real)
    requires CoeffsWith(ThicknessSystem(ta), a, ta, d1, sqrt).Ok?
    ensures sqrt(ta) != 0.0 && sqrt(ta * ta * ta) != 0.0
    ensures var T := CoeffsWith(ThicknessSystem(ta), a, ta, d1, sqrt).value;
      MeetAt(T, a, ta, sqrt(ta)) && CurvatureFore(T, ta, sqrt(ta * ta * ta)) == CurvatureAft(T, ta)
  {
    var T := CoeffsWith(ThicknessSystem(ta), a, ta, d1, sqrt).value;
    CoeffsSolve(ThicknessSystem(ta), a, ta, d1, sqrt);
    ThicknessSystemMeaning(T, a, ta, sqrt(ta), sqrt(ta * ta * ta));
  }

  /**
    The value and slope conditions on the aft piece alone fix `d3`:
    `(1 - ta) ** 3 * d3 / 2 == (1 - ta) * d1 / 2 - a + d0`.
  */
  lemma D3Determined(T: Thickness, a: real, ta: real)
    requires ThicknessAft(T, ta) == a && SlopeThicknessAft(T, ta) == 0.0
    ensures 0.5 * ((1.0 - ta) * (1.0 - ta) * (1.0 - ta)) * T.d3 == 0.5 * (1.0 - ta) * T.d1 - a + T.d0
  {
    var u := 1.0 - ta;
    assert T.d0 + T.d1 * u + T.d2 * (u * u) + T.d3 * (u * u * u) == a;
    assert T.d1 + 2.0 * T.d2 * u + 3.0 * T.d3 * (u * u) == 0.0;
    assert u * (T.d1 + 2.0 * T.d2 * u + 3.0 * T.d3 * (u * u)) == 0.0;
  }

  /**
    At `ta = 0.4`, where the table gives `d1 = 1.575 * a`, pieces that meet
    with value `a != 0` and zero slope and whose curvature jumps by
    `-12 * d3 * (1 - ta)` have a curvature that really jumps: `d3 != 0`.
  */
  lemma KinkAtTableNode(T: Thickness, a: real, st3: real)
    requires a != 0.0 && st3 != 0.0 && T.d1 == 1.575 * a && T.d0 == 0.01 * a
    requires ThicknessAft(T, 0.4) == a && SlopeThicknessAft(T, 0.4) == 0.0
    requires CurvatureFore(T, 0.4, st3) - CurvatureAft(T, 0.4) == -12.0 * T.d3 * (1.0 - 0.4)
    ensures CurvatureFore(T, 0.4, st3) != CurvatureAft(T, 0.4)
  {
    D3Determined(T, a, 0.4);
    assert 0.108 * T.d3 == -0.5175 * a;
  }

  /** `coeffs` as written at `ta = 0.4` with a `d1` of `1.575 * a`: the curvature jumps. */
  lemma CoeffsAsWrittenKinkWith(a: real, d1: real, sqrt: real -> real)
    requires a != 0.0 && d1 == 1.575 * a && CoeffsWith(ThicknessSystemAsWritten(0.4), a, 0.4, d1, sqrt).Ok?
    ensures sqrt(0.4) != 0.0 && sqrt(0.4 * 0.4 * 0.4) != 0.0
    ensures var T := CoeffsWith(ThicknessSystemAsWritten(0.4), a, 0.4, d1, sqrt).value;
      CurvatureFore(T, 0.4, sqrt(0.4 * 0.4 * 0.4)) != CurvatureAft(T, 0.4)
  {
    var T := CoeffsWith(ThicknessSystemAsWritten(0.4), a, 0.4, d1, sqrt).value;
    CoeffsSolve(ThicknessSystemAsWritten(0.4), a, 0.4, d1, sqrt);
    ThicknessSystemAsWrittenMeaning(T, a, 0.4, sqrt(0.4), sqrt(0.4 * 0.4 * 0.4));
    KinkAtTableNode(T, a, sqrt(0.4 * 0.4 * 0.4));
  }

  /**
    `coeffs` as written at the table node `ta = 0.4` with `a != 0`: the
    curvature of the thickness jumps at `ta`.
  */
  lemma CoeffsAsWrittenKink(a: real, sqrt: real -> real)
    requires a != 0.0 && CoeffsAsWritten(a, 0.4, sqrt).Ok?
    ensures sqrt(0.4) != 0.0 && sqrt(0.4 * 0.4 * 0.4) != 0.0
    ensures var T := CoeffsAsWritten(a, 0.4, sqrt).value;
      CurvatureFore(T, 0.4, sqrt(0.4 * 0.4 * 0.4)) != CurvatureAft(T, 0.4)
  {
    RatioNodesValues();
    CoeffsAsWrittenKinkWith(a, D1(a, 0.4), sqrt);
  }

  /** The curvature of the fore piece minus that of the aft piece at `ta` is `-12 * d3 * (1 - ta)`. */
  predicate JumpsAsWritten(T: Thickness, ta: real, st3: real)
    requires st3 != 0.0
  {
    CurvatureFore(T, ta, st3) - CurvatureAft(T, ta) == -12.0 * T.d3 * (1.0 - ta)
  }

  /** `coeffs` as written with any `d1`: the pieces meet at `ta`, and the curvature jumps by `-12 * d3 * (1 - ta)`. */
  lemma CoeffsAsWrittenMeet(a: real, ta: real, d1: real, sqrt: real -> real)
    requires CoeffsWith(ThicknessSystemAsWritten(ta), a, ta, d1, sqrt).Ok?
    ensures sqrt(ta) != 0.0 && sqrt(ta * ta * ta) != 0.0
    ensures var T := CoeffsWith(ThicknessSystemAsWritten(ta), a, ta, d1, sqrt).value;
      MeetAt(T, a, ta, sqrt(ta)) && JumpsAsWritten(T, ta, sqrt(ta * ta * ta))
  {
    var T := CoeffsWith(ThicknessSystemAsWritten(ta), a, ta, d1, sqrt).value;
    var st, st3 := sqrt(ta), sqrt(ta * ta * ta);
    assert st != 0.0 && st3 != 0.0 &&
           MulVec(ThicknessSystemAsWritten(ta), Unknowns(T)) == ThicknessRhs(a, ta, T.a0, T.d0, T.d1, st, st3) by {
      CoeffsSolve(ThicknessSystemAsWritten(ta), a, ta, d1, sqrt);
    }
    ThicknessSystemAsWrittenMeaning(T, a, ta, st, st3);
  }

  // ---------------------------------------------------------------------
  // Building a section
  // ---------------------------------------------------------------------

  /**
    `NACA4m(c, k, tk, a, ta)`: building the section computes its thickness
    coefficients with `coeffs` as written, so it fails exactly when
    `coeffs(a, ta)` does.
  */
  function MakeSection(c: real, k: real, tk: real, a: real, ta: real, sqrt: real -> real): (r: Result<Section, BladeError>)
    ensures r.Ok? <==> CoeffsAsWritten(a, ta, sqrt).Ok?
    ensures r.Err? ==> r.error == CoeffsAsWritten(a, ta, sqrt).error
    ensures r.Ok? ==> r.value.c == c && r.value.k == k && r.value.tk == tk && r.value.a == a && r.value.ta == ta
    ensures r.Ok? ==> r.value.coeffs == CoeffsAsWritten(a, ta, sqrt).value
  {
    var T :- CoeffsAsWritten(a, ta, sqrt);
    Ok(NACA4m(c, k, tk, a, ta, T))
  }

  /**
    `Bamberger.sec(r)`: the section at radius `r`, with the chord law and
    the interpolated camber and thickness parameters there.
  */
  function Sec(b: Bamberger, r: real, sqrt: real -> real): (s: Result<Section, BladeError>)
    ensures s.Ok? <==> CoeffsAsWritten(b.a.Eval(r), b.ta.Eval(r), sqrt).Ok?
    ensures s.Ok? ==> s.value.coeffs == CoeffsAsWritten(b.a.Eval(r), b.ta.Eval(r), sqrt).value
    ensures s.Ok? ==> s.value.c == Chord(b, r) && s.value.k == b.k.Eval(r) && s.value.tk == b.tk.Eval(r)
    ensures s.Ok? ==> s.value.a == b.a.Eval(r) && s.value.ta == b.ta.Eval(r)
  {
    MakeSection(Chord(b, r), b.k.Eval(r), b.tk.Eval(r), b.a.Eval(r), b.ta.Eval(r), sqrt)
  }
}
