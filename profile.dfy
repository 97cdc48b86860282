/**
  The surfaces of a modified NACA 4-digit section (`NACA4m.bounds` in
  blade_gen/blade.py): the thickness `h`, and the upper and lower curves,
  which offset the camber line by `h` along its normal.

  `sqrt`, `sin`, `cos` and `atan` are the parameters in `Trig`.
*/
module Profile {
  import opened Wrappers
  import opened Blade

  /** The two curves `bounds` returns, under the keys `'upper'` and `'lower'`. */
  datatype Side = Upper | Lower

  /**
    `h(t)`: the thickness at `t`, the fore polynomial in `sqrt(t)` before
    `ta` and the aft cubic in `1 - t` from `ta` on, times the chord.
    `sqrt` of a negative argument raises.
  */
  function H(s: Section, t: real, sqrt: real -> real): (r: Result<real, BladeError>)
    ensures r.Err? <==> t < s.ta && t < 0.0
    ensures r.Err? ==> r.error == MathDomain
    ensures r.Ok? && t < s.ta ==> r.value == s.c * ThicknessFore(s.coeffs, t, sqrt(t))
    ensures r.Ok? && t >= s.ta ==> r.value == s.c * ThicknessAft(s.coeffs, t)
  {
    var T := s.coeffs;
    if t < s.ta then
      if t < 0.0 then Err(MathDomain)
      else Ok(s.c * (T.a0 * sqrt(t) + T.a1 * t + T.a2 * (t * t) + T.a3 * (t * t * t)))
    else
      var u := 1.0 - t;
      Ok(s.c * (T.d0 + T.d1 * u + T.d2 * (u * u) + T.d3 * (u * u * u)))
  }

  /**
    Where both thickness pieces of a section take the value `a` at `ta`,
    the fore polynomial and `h(ta)` are both `c * a` there.
  */
  lemma HContinuousAt(s: Section, sqrt: real -> real)
    requires ThicknessFore(s.coeffs, s.ta, sqrt(s.ta)) == s.a && ThicknessAft(s.coeffs, s.ta) == s.a
    ensures H(s, s.ta, sqrt).Ok? && H(s, s.ta, sqrt).value == s.c * s.a
    ensures s.c * ThicknessFore(s.coeffs, s.ta, sqrt(s.ta)) == s.c * s.a
  {
  }

  /**
    In particular for a section whose coefficients are `coeffs(a, ta)`, as
    `NACA4m` computes them: the thickness is continuous at `ta`.
  */
  lemma HContinuous(s: Section, sqrt: real -> real)
    requires CoeffsAsWritten(s.a, s.ta, sqrt).Ok? && s.coeffs == CoeffsAsWritten(s.a, s.ta, sqrt).value
    ensures sqrt(s.ta) != 0.0 && H(s, s.ta, sqrt).Ok? && H(s, s.ta, sqrt).value == s.c * s.a
    ensures s.c * ThicknessFore(s.coeffs, s.ta, sqrt(s.ta)) == s.c * s.a
  {
    HContinuousAt(s, sqrt);
  }

  /**
    The point of the `side` curve at `t`: the camber point `(uc(t), wc(t))`
    moved by `h(t)` along the normal `(-sin(atan(m)), cos(atan(m)))` of the
    camber line, outwards for the upper curve and inwards for the lower.
    `h` is computed first, so its error wins over that of `m`.
  */
  function Point(s: Section, side: Side, t: real, trig: Trig): (p: Result<(real, real), BladeError>)
    ensures p.Ok? <==> H(s, t, trig.sqrt).Ok? && M(s, t).Ok?
    ensures p.Err? ==> p.error == if H(s, t, trig.sqrt).Err? then MathDomain else DivisionByZero
    ensures p.Ok? ==> Wc(s, t).Ok? && p.value == Offset(side, Uc(s, t), Wc(s, t).value, H(s, t, trig.sqrt).value, M(s, t).value, trig)
  {
    var h :- H(s, t, trig.sqrt);
    var m :- M(s, t);
    Ok(Offset(side, Uc(s, t), Wc(s, t).value, h, m, trig))
  }

  /**
    The camber point `(uc, wc)` moved by `h` along the normal of a camber
    line with slope `m`: `uc - h * sin(atan(m)), wc + h * cos(atan(m))` on
    the upper side, the opposite way on the lower.
  */
  function Offset(side: Side, uc: real, wc: real, h: real, m: real, trig: Trig): (real, real)
  {
    var du, dw := h * trig.sin(trig.atan(m)), h * trig.cos(trig.atan(m));
    match side
    case Upper => (uc - du, wc + dw)
    case Lower => (uc + du, wc - dw)
  }

  /** The squared distance between two points of the plane. */
  function DistanceSquared(p: (real, real), q: (real, real)): real
  {
    (p.0 - q.0) * (p.0 - q.0) + (p.1 - q.1) * (p.1 - q.1)
  }

  /** `sin(x) ** 2 + cos(x) ** 2`. */
  function SquareSum(trig: Trig, x: real): real
  {
    trig.sin(x) * trig.sin(x) + trig.cos(x) * trig.cos(x)
  }

  /** `sin` and `cos` satisfy the Pythagorean identity. */
  ghost predicate Pythagorean(trig: Trig)
  {
    forall x :: SquareSum(trig, x) == 1.0
  }

  /** The identity at one angle `x`. */
  lemma PythagoreanAt(trig: Trig, x: real)
    requires Pythagorean(trig)
    ensures trig.cos(x) * trig.cos(x) + trig.sin(x) * trig.sin(x) == 1.0
  {
    assert SquareSum(trig, x) == 1.0;
  }

  /**
    The upper and lower points for the same camber point are `2 * h`
    apart, and their midpoint is the camber point.
  */
  lemma OffsetSymmetric(uc: real, wc: real, h: real, m: real, trig: Trig)
    requires Pythagorean(trig)
    ensures var up, lo := Offset(Upper, uc, wc, h, m, trig), Offset(Lower, uc, wc, h, m, trig);
      DistanceSquared(up, lo) == 4.0 * (h * h) &&
      up.0 + lo.0 == 2.0 * uc && up.1 + lo.1 == 2.0 * wc
  {
    var x := trig.atan(m);
    var sn, cs := trig.sin(x), trig.cos(x);
    PythagoreanAt(trig, x);
    calc {
      (2.0 * (h * sn)) * (2.0 * (h * sn)) + (2.0 * (h * cs)) * (2.0 * (h * cs));
      4.0 * (h * h) * (sn * sn + cs * cs);
      4.0 * (h * h);
    }
  }

  /**
    A section's upper and lower curves exist at the same arguments, and
    there they are `2 * h(t)` apart about the camber point `(uc(t), wc(t))`.
  */
  lemma SidesApart(s: Section, t: real, trig: Trig)
    requires Pythagorean(trig)
    requires Point(s, Upper, t, trig).Ok? || Point(s, Lower, t, trig).Ok?
    ensures Point(s, Upper, t, trig).Ok? && Point(s, Lower, t, trig).Ok? && Wc(s, t).Ok?
    ensures var up, lo, h := Point(s, Upper, t, trig).value, Point(s, Lower, t, trig).value, H(s, t, trig.sqrt).value;
      DistanceSquared(up, lo) == 4.0 * (h * h) &&
      up.0 + lo.0 == 2.0 * Uc(s, t) && up.1 + lo.1 == 2.0 * Wc(s, t).value
  {
    var uc, wc, h, m := Uc(s, t), Wc(s, t).value, H(s, t, trig.sqrt).value, M(s, t).value;
    var up, lo := Point(s, Upper, t, trig).value, Point(s, Lower, t, trig).value;
    assert up == Offset(Upper, uc, wc, h, m, trig) && lo == Offset(Lower, uc, wc, h, m, trig);
    OffsetSymmetric(uc, wc, h, m, trig);
    assert DistanceSquared(up, lo) == 4.0 * (h * h);
  }
}
