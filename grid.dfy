/**
  `Bamberger.gen` in blade_gen/blade.py: the upper and lower surface
  points of a blade, one row per spanwise station. Each section is
  shifted to its centroid, turned by the local twist and wrapped onto the
  cylinder of its station radius. Sections are stacked along the sweep,
  which the running offsets `az0` and `z0` accumulate.

  The trigonometric functions are the parameters in `Trig`. The section
  centroid is a parameter too.
*/
module BladeGrid {
  import opened Wrappers
  import opened Helper
  import opened Blade
  import opened Profile

  /** A point `(x, y, z)` of the output. */
  type Coord = (real, real, real)

  /** The lists under the keys `'upper'` and `'lower'`: one row of points per station. */
  datatype Grid = Grid(upper: seq<seq<Coord>>, lower: seq<seq<Coord>>)

  /** The running azimuth `az0` and height `z0` of the stacking line. */
  datatype Frame = Frame(az0: real, z0: real)

  /** What one station contributes: the advanced frame and the two rows. */
  datatype Station = Station(frame: Frame, upper: seq<Coord>, lower: seq<Coord>)

  // ---------------------------------------------------------------------
  // The reparametrisation
  // ---------------------------------------------------------------------

  /** `map(f, linspace(0, 1, num_pts))`: the curve arguments. */
  function Reparam(f: real -> real, numPts: int): (args: seq<real>)
    ensures |args| == |Linspace(0.0, 1.0, numPts)|
  {
    var ts := Linspace(0.0, 1.0, numPts);
    seq(|ts|, i requires 0 <= i < |ts| => f(ts[i]))
  }

  /** `all(curr > prev for curr, prev in zip(args[1:], args[:-1]))`: each argument exceeds the one before. */
  predicate Increasing(s: seq<real>)
  {
    forall i :: 0 < i < |s| ==> s[i - 1] < s[i]
  }

  /**
    The check itself: consecutive pairs from the front, stopping at the
    first pair out of order.
  */
  function AllIncreasing(s: seq<real>): bool
    decreases |s|
  {
    |s| < 2 || (s[0] < s[1] && AllIncreasing(s[1..]))
  }

  /** The check passes exactly when each argument exceeds the one before. */
  lemma {:induction false} AllIncreasingMeaning(s: seq<real>)
    ensures AllIncreasing(s) <==> Increasing(s)
    decreases |s|
  {
    if |s| >= 2 {
      AllIncreasingMeaning(s[1..]);
      assert forall i :: 1 <= i < |s| ==> s[i] == s[1..][i - 1];
    }
  }

  /** Checking consecutive pairs is enough: any earlier argument is below any later one. */
  lemma {:induction false} IncreasingPair(s: seq<real>, i: int, j: int)
    requires Increasing(s) && 0 <= i < j < |s|
    ensures s[i] < s[j]
    decreases j - i
  {
    if i + 1 < j {
      IncreasingPair(s, i, j - 1);
    }
  }

  /** The check accepts exactly the strictly increasing argument lists. */
  lemma IncreasingStrict(s: seq<real>)
    ensures Increasing(s) <==> forall i, j :: 0 <= i < j < |s| ==> s[i] < s[j]
  {
    if Increasing(s) {
      forall i, j | 0 <= i < j < |s|
        ensures s[i] < s[j]
      {
        IncreasingPair(s, i, j);
      }
    }
  }

  /** With the default `f(t) = t` the check always passes. */
  lemma DefaultReparamIncreasing(numPts: int)
    ensures Increasing(Reparam(t => t, numPts))
  {
    var args := Reparam(t => t, numPts);
    LinspaceIncreasing(0.0, 1.0, numPts);
    forall i | 0 < i < |args|
      ensures args[i - 1] < args[i]
    {
      assert args[i - 1] == Linspace(0.0, 1.0, numPts)[i - 1];
    }
  }

  // ---------------------------------------------------------------------
  // Twist, sweep and the mapping onto the cylinder
  // ---------------------------------------------------------------------

  /**
    The flow angle `atan(flow_coeff * rt / (r * (1 - (rh / rt) ** 2)))`
    added to the angle of attack. Both divisions raise on a zero divisor.
  */
  function FlowAngle(b: Bamberger, r: real, trig: Trig): Result<real, BladeError>
  {
    if b.rt == 0.0 then Err(DivisionByZero)
    else
      var q := b.rh / b.rt;
      var den := r * (1.0 - q * q);
      if den == 0.0 then Err(DivisionByZero)
      else Ok(trig.atan(b.flowCoeff * b.rt / den))
  }

  /** `q * q == 1` exactly for `q == 1` and `q == -1`. */
  lemma SquareIsOne(q: real)
    ensures q * q == 1.0 <==> q == 1.0 || q == -1.0
  {
    if q * q == 1.0 && q != 1.0 {
      var x, y := q - 1.0, q + 1.0;
      assert x * y == 0.0;
      assert y == (x * y) / x;
    }
  }

  /**
    The flow angle is defined exactly away from the axis, for a non-zero
    tip radius and a hub radius other than `rt` and `-rt`.
  */
  lemma FlowAngleDefined(b: Bamberger, r: real, trig: Trig)
    ensures FlowAngle(b, r, trig).Ok? <==> b.rt != 0.0 && r != 0.0 && b.rh != b.rt && b.rh != -b.rt
    ensures FlowAngle(b, r, trig).Err? ==> FlowAngle(b, r, trig).error == DivisionByZero
  {
    if b.rt != 0.0 {
      var q := b.rh / b.rt;
      SquareIsOne(q);
      assert q == 1.0 <==> b.rh == b.rt;
      assert q == -1.0 <==> b.rh == -b.rt;
    }
  }

  /** On a blade built from a positive diameter and a hub ratio in `[0, 1)`, only `r == 0` fails. */
  lemma FlowAngleOnBlade(d: real, hubRatio: real, b: Bamberger, r: real, trig: Trig)
    requires d > 0.0 && 0.0 <= hubRatio < 1.0
    requires b.rt == TipRadius(d) && b.rh == HubRadius(d, hubRatio)
    ensures FlowAngle(b, r, trig).Ok? <==> r != 0.0
  {
    RadiiOrdered(d, hubRatio);
    FlowAngleDefined(b, r, trig);
  }

  /** `twist = aoa(r) + atan(...)` at the station radius `r`. */
  function Twist(b: Bamberger, r: real, trig: Trig): (tw: Result<real, BladeError>)
    ensures tw.Ok? <==> FlowAngle(b, r, trig).Ok?
    ensures tw.Ok? ==> r != 0.0
  {
    FlowAngleDefined(b, r, trig);
    var phi :- FlowAngle(b, r, trig);
    Ok(b.aoa.Eval(r) + phi)
  }

  /** `turn = tan(sweep(r)) * dr`: how far the stacking line moves at this station. */
  function Turn(b: Bamberger, r: real, dr: real, trig: Trig): real
  {
    trig.tan(b.sweep.Eval(r)) * dr
  }

  /** `az0 += turn * cos(twist) / r` and `z0 += turn * sin(twist)`. */
  function Advance(fr: Frame, turn: real, tw: real, r: real, trig: Trig): Frame
    requires r != 0.0
  {
    Frame(fr.az0 + turn * trig.cos(tw) / r, fr.z0 + turn * trig.sin(tw))
  }

  /**
    The stacking line moves by exactly `turn` per station, measured along
    the unrolled cylinder of radius `r`, in the direction of the twist.
  */
  lemma AdvanceLength(fr: Frame, turn: real, tw: real, r: real, trig: Trig)
    requires r != 0.0 && Pythagorean(trig)
    ensures var next := Advance(fr, turn, tw, r, trig);
      (r * (next.az0 - fr.az0)) * (r * (next.az0 - fr.az0)) + (next.z0 - fr.z0) * (next.z0 - fr.z0) == turn * turn
  {
    var next := Advance(fr, turn, tw, r, trig);
    var c, s := trig.cos(tw), trig.sin(tw);
    PythagoreanAt(trig, tw);
    assert r * (next.az0 - fr.az0) == turn * c by {
      assert next.az0 - fr.az0 == turn * c / r;
    }
    calc {
      (turn * c) * (turn * c) + (turn * s) * (turn * s);
      (turn * turn) * (c * c + s * s);
      turn * turn;
    }
  }

  /**
    The azimuth and height of a section point `uw`: the point relative to
    the centroid `orig`, turned by the twist `tw`, with the azimuth scaled
    by `1 / r` and both measured from the stacking line.
  */
  function Unrolled(r: real, fr: Frame, tw: real, orig: (real, real), uw: (real, real), trig: Trig): (real, real)
    requires r != 0.0
  {
    var u, w := uw.0 - orig.0, uw.1 - orig.1;
    (fr.az0 - (u * trig.cos(tw) + w * trig.sin(tw)) / r, fr.z0 - u * trig.sin(tw) + w * trig.cos(tw))
  }

  /** `(x(u, w), y(u, w), z(u, w))`: the point on the cylinder of radius `r`. */
  function Place(r: real, fr: Frame, tw: real, orig: (real, real), uw: (real, real), trig: Trig): Coord
    requires r != 0.0
  {
    var azz := Unrolled(r, fr, tw, orig, uw, trig);
    (r * trig.cos(azz.0), r * trig.sin(azz.0), azz.1)
  }

  /** Every placed point lies on the cylinder of the station radius. */
  lemma PlaceOnCylinder(r: real, fr: Frame, tw: real, orig: (real, real), uw: (real, real), trig: Trig)
    requires r != 0.0 && Pythagorean(trig)
    ensures var p := Place(r, fr, tw, orig, uw, trig);
      p.0 * p.0 + p.1 * p.1 == r * r
  {
    var az := Unrolled(r, fr, tw, orig, uw, trig).0;
    var c, s := trig.cos(az), trig.sin(az);
    PythagoreanAt(trig, az);
    calc {
      (r * c) * (r * c) + (r * s) * (r * s);
      (r * r) * (c * c + s * s);
      r * r;
    }
  }

  /** The centroid itself lands on the stacking line. */
  lemma PlaceCentroid(r: real, fr: Frame, tw: real, orig: (real, real), trig: Trig)
    requires r != 0.0
    ensures Unrolled(r, fr, tw, orig, orig, trig) == (fr.az0, fr.z0)
  {
  }

  /**
    Unrolled, a section is only turned: two of its points are as far
    apart on the unrolled cylinder (azimuth times `r`, height) as they
    are in the section plane.
  */
  lemma UnrolledIsometric(r: real, fr: Frame, tw: real, orig: (real, real), p: (real, real), q: (real, real), trig: Trig)
    requires r != 0.0 && Pythagorean(trig)
    ensures ArcDistanceSquared(r, Unrolled(r, fr, tw, orig, p, trig), Unrolled(r, fr, tw, orig, q, trig)) == DistanceSquared(p, q)
  {
    var a, b := Unrolled(r, fr, tw, orig, p, trig), Unrolled(r, fr, tw, orig, q, trig);
    var du, dw, c, s := p.0 - q.0, p.1 - q.1, trig.cos(tw), trig.sin(tw);
    PythagoreanAt(trig, tw);
    UnrolledArc(r, fr, tw, orig, p, q, trig);
    UnrolledHeight(r, fr, tw, orig, p, q, trig);
    TurnedNorm(r * (a.0 - b.0), a.1 - b.1, du, dw, c, s);
    DistanceAsNorm(p, q);
  }

  /** A difference `(du, dw)` turned by the angle with cosine `c` and sine `s` keeps its length. */
  lemma TurnedNorm(arc: real, h: real, du: real, dw: real, c: real, s: real)
    requires c * c + s * s == 1.0
    requires arc == -(du * c + dw * s) && h == -du * s + dw * c
    ensures SquareNorm(arc, h) == SquareNorm(du, dw)
  {
    RotationNorm(du, dw, c, s);
  }

  /** The distance of two points is the norm of their difference. */
  lemma DistanceAsNorm(p: (real, real), q: (real, real))
    ensures DistanceSquared(p, q) == SquareNorm(p.0 - q.0, p.1 - q.1)
  {
  }

  /** The squared length `x * x + y * y` of a vector of the plane. */
  function SquareNorm(x: real, y: real): real
  {
    x * x + y * y
  }

  /** The squared distance on the unrolled cylinder of radius `r` between two (azimuth, height) points. */
  function ArcDistanceSquared(r: real, a: (real, real), b: (real, real)): real
  {
    SquareNorm(r * (a.0 - b.0), a.1 - b.1)
  }

  /** The azimuths of two points differ, times `r`, by minus the first component of their turned difference. */
  lemma UnrolledArc(r: real, fr: Frame, tw: real, orig: (real, real), p: (real, real), q: (real, real), trig: Trig)
    requires r != 0.0
    ensures r * (Unrolled(r, fr, tw, orig, p, trig).0 - Unrolled(r, fr, tw, orig, q, trig).0)
         == -((p.0 - q.0) * trig.cos(tw) + (p.1 - q.1) * trig.sin(tw))
  {
    ScaledDifference(r, fr.az0, (p.0 - orig.0) * trig.cos(tw) + (p.1 - orig.1) * trig.sin(tw),
                     (q.0 - orig.0) * trig.cos(tw) + (q.1 - orig.1) * trig.sin(tw));
  }

  /** The heights of two points differ by the second component of their turned difference. */
  lemma UnrolledHeight(r: real, fr: Frame, tw: real, orig: (real, real), p: (real, real), q: (real, real), trig: Trig)
    requires r != 0.0
    ensures Unrolled(r, fr, tw, orig, p, trig).1 - Unrolled(r, fr, tw, orig, q, trig).1
         == -(p.0 - q.0) * trig.sin(tw) + (p.1 - q.1) * trig.cos(tw)
  {
  }

  /** Measured from the same azimuth and scaled by `r`, two azimuths differ by the difference of their arcs. */
  lemma ScaledDifference(r: real, az0: real, x: real, y: real)
    requires r != 0.0
    ensures r * ((az0 - x / r) - (az0 - y / r)) == y - x
  {
    assert (az0 - x / r) - (az0 - y / r) == (y - x) / r;
  }

  /** A rotation by an angle with cosine `c` and sine `s` keeps the length of `(du, dw)`. */
  lemma RotationNorm(du: real, dw: real, c: real, s: real)
    requires c * c + s * s == 1.0
    ensures SquareNorm(-(du * c + dw * s), -du * s + dw * c) == SquareNorm(du, dw)
  {
    calc {
      SquareNorm(-(du * c + dw * s), -du * s + dw * c);
      -(du * c + dw * s) * -(du * c + dw * s) + (-du * s + dw * c) * (-du * s + dw * c);
      (du * du + dw * dw) * (c * c + s * s);
      du * du + dw * dw;
    }
  }

  // ---------------------------------------------------------------------
  // Rows and stations
  // ---------------------------------------------------------------------

  /**
    `map(curves[key], args)`: the `side` curve of `s` at every argument.
    The first argument where the curve raises decides the error.
  */
  function Curve(s: Section, side: Side, args: seq<real>, trig: Trig): (c: Result<seq<(real, real)>, BladeError>)
    ensures c.Ok? <==> forall i :: 0 <= i < |args| ==> Point(s, side, args[i], trig).Ok?
    ensures c.Ok? ==> |c.value| == |args| && forall i :: 0 <= i < |args| ==> c.value[i] == Point(s, side, args[i], trig).value
    ensures c.Err? ==>
      exists i :: 0 <= i < |args| && Point(s, side, args[i], trig).Err? && Point(s, side, args[i], trig).error == c.error &&
                  forall j :: 0 <= j < i ==> Point(s, side, args[j], trig).Ok?
    decreases |args|
  {
    if args == [] then Ok([])
    else
      var p :- Point(s, side, args[0], trig);
      var rest :- Curve(s, side, args[1..], trig);
      assert forall i :: 1 <= i < |args| ==> args[i] == args[1..][i - 1];
      Ok([p] + rest)
  }

  /** `lol[i] = [...]`: the curve points shifted to the centroid and placed on the cylinder. */
  function Row(r: real, fr: Frame, tw: real, orig: (real, real), s: Section, side: Side, args: seq<real>, trig: Trig): (row: Result<seq<Coord>, BladeError>)
    requires r != 0.0
    ensures row.Ok? <==> Curve(s, side, args, trig).Ok?
    ensures row.Err? ==> row.error == Curve(s, side, args, trig).error
    ensures row.Ok? ==> |row.value| == |args|
    ensures row.Ok? ==> forall j :: 0 <= j < |args| ==> row.value[j] == Place(r, fr, tw, orig, Point(s, side, args[j], trig).value, trig)
  {
    var uw :- Curve(s, side, args, trig);
    Ok(seq(|uw|, j requires 0 <= j < |uw| => Place(r, fr, tw, orig, uw[j], trig)))
  }

  /**
    One pass of the loop at radius `r`: the twist, the advanced stacking
    line, the section and its centroid, then the upper and lower rows.
  */
  function StationAt(b: Bamberger, sec: real -> Result<Section, BladeError>, r: real, dr: real, fr: Frame, args: seq<real>, trig: Trig,
                     centroid: Section -> Result<(real, real), BladeError>): (st: Result<Station, BladeError>)
    ensures st.Ok? ==> r != 0.0 && |st.value.upper| == |args| && |st.value.lower| == |args|
  {
    var tw :- Twist(b, r, trig);
    var next := Advance(fr, Turn(b, r, dr, trig), tw, r, trig);
    var s :- sec(r);
    var orig :- centroid(s);
    var up :- Row(r, next, tw, orig, s, Upper, args, trig);
    var lo :- Row(r, next, tw, orig, s, Lower, args, trig);
    Ok(Station(next, up, lo))
  }

  /**
    The loop from some station on, from the frame `fr` and the rows `acc`
    so far, where `step` is what one pass does at a radius: the first
    station that raises ends it with its error.
  */
  function GenFrom(step: (real, Frame) -> Result<Station, BladeError>, stations: seq<real>, fr: Frame, acc: Grid): (g: Result<Grid, BladeError>)
    ensures g.Ok? ==> |g.value.upper| == |acc.upper| + |stations| && |g.value.lower| == |acc.lower| + |stations|
    ensures g.Ok? ==> g.value.upper[..|acc.upper|] == acc.upper && g.value.lower[..|acc.lower|] == acc.lower
    decreases |stations|
  {
    if stations == [] then Ok(acc)
    else
      var st :- step(stations[0], fr);
      var next := Grid(acc.upper + [st.upper], acc.lower + [st.lower]);
      var g := GenFrom(step, stations[1..], st.frame, next);
      assert g.Ok? ==> g.value.upper[..|acc.upper|] == next.upper[..|acc.upper|] by {
        if g.Ok? {
          assert g.value.upper[..|acc.upper|] == g.value.upper[..|next.upper|][..|acc.upper|];
        }
      }
      assert g.Ok? ==> g.value.lower[..|acc.lower|] == next.lower[..|acc.lower|] by {
        if g.Ok? {
          assert g.value.lower[..|acc.lower|] == g.value.lower[..|next.lower|][..|acc.lower|];
        }
      }
      g
  }

  /**
    When every row a step produces at radius `r` satisfies `P(r, row)`,
    so does every row the loop adds, with the radius of its own station.
  */
  lemma {:induction false} GenFromRows(step: (real, Frame) -> Result<Station, BladeError>, stations: seq<real>, fr: Frame, acc: Grid,
                                      P: (real, seq<Coord>) -> bool)
    requires forall r, f :: step(r, f).Ok? ==> P(r, step(r, f).value.upper) && P(r, step(r, f).value.lower)
    requires GenFrom(step, stations, fr, acc).Ok?
    ensures var g := GenFrom(step, stations, fr, acc).value;
      (forall k :: |acc.upper| <= k < |g.upper| ==> P(stations[k - |acc.upper|], g.upper[k])) &&
      (forall k :: |acc.lower| <= k < |g.lower| ==> P(stations[k - |acc.lower|], g.lower[k]))
    decreases |stations|
  {
    if stations != [] {
      var st := step(stations[0], fr).value;
      var next := Grid(acc.upper + [st.upper], acc.lower + [st.lower]);
      GenFromRows(step, stations[1..], st.frame, next, P);
      var g := GenFrom(step, stations, fr, acc).value;
      assert g == GenFrom(step, stations[1..], st.frame, next).value;
      assert g.upper[|acc.upper|] == st.upper by {
        assert g.upper[..|next.upper|] == next.upper;
      }
      assert g.lower[|acc.lower|] == st.lower by {
        assert g.lower[..|next.lower|] == next.lower;
      }
    }
  }

  /** One pass of the loop: the first station either raises or extends the rows so far by its own. */
  lemma GenFromUnfold(step: (real, Frame) -> Result<Station, BladeError>, stations: seq<real>, fr: Frame, acc: Grid)
    requires stations != []
    ensures step(stations[0], fr).Err? ==> GenFrom(step, stations, fr, acc) == Err(step(stations[0], fr).error)
    ensures step(stations[0], fr).Ok? ==>
      var st := step(stations[0], fr).value;
      GenFrom(step, stations, fr, acc) == GenFrom(step, stations[1..], st.frame, Grid(acc.upper + [st.upper], acc.lower + [st.lower]))
  {
  }

  /** The station radii `linspace(0.99 * rh, rt, num_secs)`, starting just inside the hub. */
  function Stations(b: Bamberger, numSecs: int): seq<real>
  {
    Linspace(0.99 * b.rh, b.rt, numSecs)
  }

  /**
    `gen(num_secs, num_pts, f)`: `dr = (rt - rh) / num_secs`, the curve
    arguments and their check, then the loop over the stations from
    `az0 == z0 == 0` with empty surfaces.
  */
  function GenGrid(b: Bamberger, sec: real -> Result<Section, BladeError>, numSecs: int, numPts: int, f: real -> real, trig: Trig,
                   centroid: Section -> Result<(real, real), BladeError>): Result<Grid, BladeError>
  {
    if numSecs == 0 then Err(DivisionByZero)
    else
      var dr := (b.rt - b.rh) / (numSecs as real);
      var args := Reparam(f, numPts);
      if !AllIncreasing(args) then Err(NotIncreasing)
      else GenFrom(GenStep(b, sec, dr, args, trig, centroid), Stations(b, numSecs), Frame(0.0, 0.0), Grid([], []))
  }

  /** The loop body of `gen` as a step from a radius and a frame. */
  function GenStep(b: Bamberger, sec: real -> Result<Section, BladeError>, dr: real, args: seq<real>, trig: Trig,
                   centroid: Section -> Result<(real, real), BladeError>): (real, Frame) -> Result<Station, BladeError>
  {
    (r, fr) => StationAt(b, sec, r, dr, fr, args, trig, centroid)
  }

  /**
    Zero sections divide by zero in `dr`; otherwise a reparametrisation
    that is not strictly increasing on the samples fails the check.
  */
  lemma GenErrors(b: Bamberger, sec: real -> Result<Section, BladeError>, numSecs: int, numPts: int, f: real -> real, trig: Trig,
                  centroid: Section -> Result<(real, real), BladeError>)
    ensures numSecs == 0 ==> GenGrid(b, sec, numSecs, numPts, f, trig, centroid) == Err(DivisionByZero)
    ensures numSecs != 0 && !Increasing(Reparam(f, numPts)) ==> GenGrid(b, sec, numSecs, numPts, f, trig, centroid) == Err(NotIncreasing)
    ensures GenGrid(b, sec, numSecs, numPts, f, trig, centroid).Ok? ==> forall i, j :: 0 <= i < j < |Reparam(f, numPts)| ==> Reparam(f, numPts)[i] < Reparam(f, numPts)[j]
  {
    AllIncreasingMeaning(Reparam(f, numPts));
    IncreasingStrict(Reparam(f, numPts));
  }

  /**
    A grid `gen` returns has one row per station on each surface, and
    `num_pts` points in every row (none for a negative count).
  */
  lemma GenShape(b: Bamberger, sec: real -> Result<Section, BladeError>, numSecs: int, numPts: int, f: real -> real, trig: Trig,
                 centroid: Section -> Result<(real, real), BladeError>)
    requires GenGrid(b, sec, numSecs, numPts, f, trig, centroid).Ok?
    ensures var g := GenGrid(b, sec, numSecs, numPts, f, trig, centroid).value;
      |g.upper| == |g.lower| == (if numSecs > 0 then numSecs else 0) &&
      (forall k :: 0 <= k < |g.upper| ==> |g.upper[k]| == (if numPts > 0 then numPts else 0)) &&
      (forall k :: 0 <= k < |g.lower| ==> |g.lower[k]| == (if numPts > 0 then numPts else 0))
  {
    var dr := (b.rt - b.rh) / (numSecs as real);
    var args := Reparam(f, numPts);
    var step := GenStep(b, sec, dr, args, trig, centroid);
    GenGridLoop(b, sec, numSecs, numPts, f, trig, centroid);
    StepWidth(b, sec, dr, args, trig, centroid);
    GenFromWidth(step, Stations(b, numSecs), Frame(0.0, 0.0), Grid([], []), |args|);
  }

  /** Past its two checks, `gen` is the loop over the stations. */
  lemma GenGridLoop(b: Bamberger, sec: real -> Result<Section, BladeError>, numSecs: int, numPts: int, f: real -> real, trig: Trig,
                    centroid: Section -> Result<(real, real), BladeError>)
    ensures numSecs != 0 && AllIncreasing(Reparam(f, numPts)) ==>
      GenGrid(b, sec, numSecs, numPts, f, trig, centroid)
         == GenFrom(GenStep(b, sec, (b.rt - b.rh) / (numSecs as real), Reparam(f, numPts), trig, centroid),
                    Stations(b, numSecs), Frame(0.0, 0.0), Grid([], []))
  {
  }

  /** When every step yields rows of `w` points, so does the loop. */
  lemma GenFromWidth(step: (real, Frame) -> Result<Station, BladeError>, stations: seq<real>, fr: Frame, acc: Grid, w: int)
    requires forall r, f :: step(r, f).Ok? ==> |step(r, f).value.upper| == w && |step(r, f).value.lower| == w
    requires acc == Grid([], []) && GenFrom(step, stations, fr, acc).Ok?
    ensures var g := GenFrom(step, stations, fr, acc).value;
      |g.upper| == |g.lower| == |stations| &&
      (forall k :: 0 <= k < |g.upper| ==> |g.upper[k]| == w) && (forall k :: 0 <= k < |g.lower| ==> |g.lower[k]| == w)
  {
    GenFromRows(step, stations, fr, acc, (r, row: seq<Coord>) => |row| == w);
  }

  /** Every station's rows have one point per curve argument. */
  lemma StepWidth(b: Bamberger, sec: real -> Result<Section, BladeError>, dr: real, args: seq<real>, trig: Trig,
                  centroid: Section -> Result<(real, real), BladeError>)
    ensures forall r, fr :: GenStep(b, sec, dr, args, trig, centroid)(r, fr).Ok? ==>
      |GenStep(b, sec, dr, args, trig, centroid)(r, fr).value.upper| == |args| &&
      |GenStep(b, sec, dr, args, trig, centroid)(r, fr).value.lower| == |args|
  {
  }

  /** Every point of `row` lies on the cylinder of radius `r` about the `z` axis. */
  predicate OnCylinder(r: real, row: seq<Coord>)
  {
    forall j :: 0 <= j < |row| ==> row[j].0 * row[j].0 + row[j].1 * row[j].1 == r * r
  }

  /** A row placed at radius `r` lies on that cylinder. */
  lemma RowOnCylinder(r: real, fr: Frame, tw: real, orig: (real, real), s: Section, side: Side, args: seq<real>, trig: Trig)
    requires r != 0.0 && Pythagorean(trig) && Row(r, fr, tw, orig, s, side, args, trig).Ok?
    ensures OnCylinder(r, Row(r, fr, tw, orig, s, side, args, trig).value)
  {
    var pts := Curve(s, side, args, trig).value;
    PlacedOnCylinder(r, fr, tw, orig, pts, Row(r, fr, tw, orig, s, side, args, trig).value, trig);
  }

  /** Points of the section plane placed at radius `r` lie on that cylinder. */
  lemma PlacedOnCylinder(r: real, fr: Frame, tw: real, orig: (real, real), pts: seq<(real, real)>, row: seq<Coord>, trig: Trig)
    requires r != 0.0 && Pythagorean(trig)
    requires |row| == |pts| && forall j :: 0 <= j < |pts| ==> row[j] == Place(r, fr, tw, orig, pts[j], trig)
    ensures OnCylinder(r, row)
  {
    forall j | 0 <= j < |row|
      ensures row[j].0 * row[j].0 + row[j].1 * row[j].1 == r * r
    {
      PlaceOnCylinder(r, fr, tw, orig, pts[j], trig);
    }
  }

  /** Both rows of the station at radius `r` lie on the cylinder of radius `r`. */
  lemma StationOnCylinder(b: Bamberger, sec: real -> Result<Section, BladeError>, r: real, dr: real, fr: Frame, args: seq<real>, trig: Trig,
                          centroid: Section -> Result<(real, real), BladeError>)
    requires Pythagorean(trig) && StationAt(b, sec, r, dr, fr, args, trig, centroid).Ok?
    ensures OnCylinder(r, StationAt(b, sec, r, dr, fr, args, trig, centroid).value.upper)
    ensures OnCylinder(r, StationAt(b, sec, r, dr, fr, args, trig, centroid).value.lower)
  {
    var tw := Twist(b, r, trig).value;
    var next := Advance(fr, Turn(b, r, dr, trig), tw, r, trig);
    var s := sec(r).value;
    var orig := centroid(s).value;
    RowOnCylinder(r, next, tw, orig, s, Upper, args, trig);
    RowOnCylinder(r, next, tw, orig, s, Lower, args, trig);
  }

  /** The same for a step of the loop. */
  lemma StepOnCylinder(b: Bamberger, sec: real -> Result<Section, BladeError>, dr: real, args: seq<real>, trig: Trig,
                       centroid: Section -> Result<(real, real), BladeError>)
    requires Pythagorean(trig)
    ensures forall r, fr :: GenStep(b, sec, dr, args, trig, centroid)(r, fr).Ok? ==>
      OnCylinder(r, GenStep(b, sec, dr, args, trig, centroid)(r, fr).value.upper) &&
      OnCylinder(r, GenStep(b, sec, dr, args, trig, centroid)(r, fr).value.lower)
  {
    forall r, fr | GenStep(b, sec, dr, args, trig, centroid)(r, fr).Ok?
      ensures OnCylinder(r, GenStep(b, sec, dr, args, trig, centroid)(r, fr).value.upper) &&
              OnCylinder(r, GenStep(b, sec, dr, args, trig, centroid)(r, fr).value.lower)
    {
      StationOnCylinder(b, sec, r, dr, fr, args, trig, centroid);
    }
  }

  /**
    Row `k` of either surface is written at station `k`: all its points lie
    on the cylinder whose radius is the `k`-th station radius.
  */
  lemma GenOnStations(b: Bamberger, sec: real -> Result<Section, BladeError>, numSecs: int, numPts: int, f: real -> real, trig: Trig,
                      centroid: Section -> Result<(real, real), BladeError>)
    requires Pythagorean(trig) && GenGrid(b, sec, numSecs, numPts, f, trig, centroid).Ok?
    ensures var g, rs := GenGrid(b, sec, numSecs, numPts, f, trig, centroid).value, Stations(b, numSecs);
      |g.upper| == |g.lower| == |rs| &&
      (forall k :: 0 <= k < |rs| ==> OnCylinder(rs[k], g.upper[k]) && OnCylinder(rs[k], g.lower[k]))
  {
    var dr := (b.rt - b.rh) / (numSecs as real);
    var args := Reparam(f, numPts);
    var step, rs := GenStep(b, sec, dr, args, trig, centroid), Stations(b, numSecs);
    GenGridLoop(b, sec, numSecs, numPts, f, trig, centroid);
    assert GenGrid(b, sec, numSecs, numPts, f, trig, centroid) == GenFrom(step, rs, Frame(0.0, 0.0), Grid([], []));
    StepOnCylinder(b, sec, dr, args, trig, centroid);
    GenFromRows(step, rs, Frame(0.0, 0.0), Grid([], []), OnCylinder);
  }

  /**
    The body of the loop in `gen` at the station radius `r`, from the
    stacking line `fr` of the previous station.
  */
  method StationStep(b: Bamberger, sec: real -> Result<Section, BladeError>, r: real, dr: real, fr: Frame, args: seq<real>, trig: Trig,
                     centroid: Section -> Result<(real, real), BladeError>) returns (st: Result<Station, BladeError>)
    ensures st == StationAt(b, sec, r, dr, fr, args, trig, centroid)
  {
    var tw :- Twist(b, r, trig);
    var turn := Turn(b, r, dr, trig);
    var next := Advance(fr, turn, tw, r, trig);
    var s :- sec(r);
    var orig :- centroid(s);
    var up :- Row(r, next, tw, orig, s, Upper, args, trig);
    var lo :- Row(r, next, tw, orig, s, Lower, args, trig);
    return Ok(Station(next, up, lo));
  }

  /**
    `Bamberger.gen`: `dr`, the curve arguments and their check, then the
    loop over the stations.
  */
  method Gen(b: Bamberger, sec: real -> Result<Section, BladeError>, numSecs: int, numPts: int, f: real -> real, trig: Trig,
             centroid: Section -> Result<(real, real), BladeError>) returns (g: Result<Grid, BladeError>)
    ensures g == GenGrid(b, sec, numSecs, numPts, f, trig, centroid)
  {
    if numSecs == 0 {
      return Err(DivisionByZero);
    }
    var dr := (b.rt - b.rh) / (numSecs as real);
    var args := Reparam(f, numPts);
    if !AllIncreasing(args) {
      return Err(NotIncreasing);
    }
    GenGridLoop(b, sec, numSecs, numPts, f, trig, centroid);
    g := GenStations(b, sec, Stations(b, numSecs), dr, args, trig, centroid);
  }

  /**
    The loop of `gen` over the station radii: it advances `az0` and `z0`
    and writes row `i` of each surface at station `i`, starting from
    `az0 == z0 == 0` and rows that are all empty.
  */
  method GenStations(b: Bamberger, sec: real -> Result<Section, BladeError>, stations: seq<real>, dr: real, args: seq<real>, trig: Trig,
                     centroid: Section -> Result<(real, real), BladeError>) returns (g: Result<Grid, BladeError>)
    ensures g == GenFrom(GenStep(b, sec, dr, args, trig, centroid), stations, Frame(0.0, 0.0), Grid([], []))
  {
    var az0, z0 := 0.0, 0.0;
    var n := |stations|;
    var upper: seq<seq<Coord>> := seq(n, _ => []);
    var lower: seq<seq<Coord>> := seq(n, _ => []);
    ghost var step := GenStep(b, sec, dr, args, trig, centroid);
    var i := 0;
    while i < n
      invariant 0 <= i <= n == |upper| == |lower|
      invariant GenFrom(step, stations, Frame(0.0, 0.0), Grid([], []))
             == GenFrom(step, stations[i..], Frame(az0, z0), Grid(upper[..i], lower[..i]))
    {
      ghost var fr, rest, acc := Frame(az0, z0), stations[i..], Grid(upper[..i], lower[..i]);
      GenFromUnfold(step, rest, fr, acc);
      assert rest[0] == stations[i] && rest[1..] == stations[i + 1..];
      var st :- StationStep(b, sec, stations[i], dr, Frame(az0, z0), args, trig, centroid);
      assert step(rest[0], fr).Ok? && step(rest[0], fr).value == st;
      az0, z0 := st.frame.az0, st.frame.z0;
      upper, lower := upper[i := st.upper], lower[i := st.lower];
      assert upper[..i + 1] == acc.upper + [st.upper] && lower[..i + 1] == acc.lower + [st.lower];
      i := i + 1;
    }
    assert stations[i..] == [] && upper == upper[..i] && lower == lower[..i];
    return Ok(Grid(upper, lower));
  }
}
