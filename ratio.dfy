/**
  `NACA4m.d1` in blade_gen/blade.py: the aft thickness slope coefficient
  `d1`, which is `a` times a ratio interpolated from a fixed table over the
  position `ta` of maximum thickness.
*/
module Ratio {
  import opened Wrappers
  import opened LinAlg
  import opened Helper

  /** The ratios `d1 / a` tabulated at the nodes `RatioNodes`. */
  const Ratios: seq<real> := [1.0, 1.17, 1.575, 2.325, 3.5]

  /** The table nodes, `linspace(0.2, 0.6, 5)`. */
  const RatioNodes: seq<real> := Linspace(0.2, 0.6, 5)

  /** The table nodes are exactly 0.2, 0.3, 0.4, 0.5 and 0.6. */
  lemma RatioNodesValues()
    ensures RatioNodes == [0.2, 0.3, 0.4, 0.5, 0.6]
  {
    forall i | 0 <= i < 5
      ensures RatioNodes[i] == 0.2 + (i as real) * 0.1
    {
      LinspaceAt(0.2, 0.6, 5, i);
    }
  }

  /**
    The interpolated ratio table. The interpolation cannot fail on these
    distinct nodes (`RatioTableIsInterp`), so the `Err` case is never taken.
  */
  function RatioTable(): Interpolant
  {
    match Interp(Samples(RatioNodes), Samples(Ratios))
    case Ok(T) => T
    case Err(_) => Const(0.0)
  }

  /**
    `interp(linspace(0.2, 0.6, 5), ratios)` succeeds, as written too (five
    nodes need no 1 x 1 adjugate), and the table is its result.
  */
  lemma RatioTableIsInterp()
    ensures Interp(Samples(RatioNodes), Samples(Ratios)).Ok?
    ensures InterpAsWritten(Samples(RatioNodes), Samples(Ratios)) == Interp(Samples(RatioNodes), Samples(Ratios))
    ensures RatioTable() == Interp(Samples(RatioNodes), Samples(Ratios)).value
  {
    LinspaceDistinct(0.2, 0.6, 5);
    InterpExact(RatioNodes, Ratios);
  }

  /**
    `NACA4m.d1(a, ta)`: `a` times the interpolated ratio at `ta`; at a table
    node that is `a` times the tabulated ratio.
  */
  function D1(a: real, ta: real): (d: real)
    ensures ta == 0.2 ==> d == a * 1.0
    ensures ta == 0.3 ==> d == a * 1.17
    ensures ta == 0.4 ==> d == a * 1.575
    ensures ta == 0.5 ==> d == a * 2.325
    ensures ta == 0.6 ==> d == a * 3.5
  {
    RatioTableValues();
    Scaled(a, RatioTable().Eval(ta))
  }

  /** The ratio `r` scaled by the thickness `a`. */
  function Scaled(a: real, r: real): real
  {
    a * r
  }

  /** The interpolated table passes through every tabulated ratio. */
  lemma RatioTableAtNodes()
    ensures forall i :: 0 <= i < 5 ==> RatioTable().Eval(RatioNodes[i]) == Ratios[i]
  {
    LinspaceDistinct(0.2, 0.6, 5);
    InterpExact(RatioNodes, Ratios);
  }

  /** The table at the nodes 0.2, 0.3, 0.4, 0.5 and 0.6. */
  lemma RatioTableValues()
    ensures RatioTable().Eval(0.2) == 1.0 && RatioTable().Eval(0.3) == 1.17 && RatioTable().Eval(0.4) == 1.575
    ensures RatioTable().Eval(0.5) == 2.325 && RatioTable().Eval(0.6) == 3.5
  {
    RatioNodesValues();
    RatioTableAtNodes();
    assert RatioTable().Eval(RatioNodes[0]) == Ratios[0];
    assert RatioTable().Eval(RatioNodes[1]) == Ratios[1];
    assert RatioTable().Eval(RatioNodes[2]) == Ratios[2];
    assert RatioTable().Eval(RatioNodes[3]) == Ratios[3];
    assert RatioTable().Eval(RatioNodes[4]) == Ratios[4];
  }
}
