/** Colours of generated appearances: the components read from a colour array, the
    brightening and darkening used for bevelled and inset borders, and the colour
    operator written for them. */
module Colors {
  import opened PdfObjects
  import opened ContentText

  /** Number of components used from a colour array: at most four. */
  function ComponentCount(a: seq<Obj>): nat
  {
    if |a| > 4 then 4 else |a|
  }

  /** The colour components: the first (up to) four array elements, a non-number
      counting as 0. */
  function Components(xref: XRef, a: seq<Obj>): (c: seq<real>)
    ensures |c| == ComponentCount(a)
  {
    seq(ComponentCount(a), i requires 0 <= i < ComponentCount(a) => NumOr(Fetch(xref, a[i]), 0.0))
  }

  /** The adjustment applied to `n` components: CMYK colours are adjusted the other way
      round, since more ink is darker. */
  function EffectiveAdjust(n: nat, adjust: int): int
  {
    if n == 4 then -adjust else adjust
  }

  /** Components moved halfway towards 1 (adjustment > 0), halfway towards 0
      (adjustment < 0), or unchanged. */
  function Adjusted(c: seq<real>, adjust: int): (r: seq<real>)
    ensures |r| == |c|
  {
    var a := EffectiveAdjust(|c|, adjust);
    if a > 0 then seq(|c|, i requires 0 <= i < |c| => 0.5 * c[i] + 0.5)
    else if a < 0 then seq(|c|, i requires 0 <= i < |c| => 0.5 * c[i])
    else c
  }

  /** The operator that sets colour `c`: CMYK ("k"), RGB ("rg"), or gray ("g") from the
      first component alone, in upper case for the stroking colour, with the
      components printed to two decimals. */
  function ColorOps(c: seq<real>, fill: bool): seq<Piece>
    requires |c| > 0
  {
    if |c| == 4 then [Nums(c, 2, if fill then " k\n" else " K\n")]
    else if |c| == 3 then [Nums(c, 2, if fill then " rg\n" else " RG\n")]
    else [Nums(c[..1], 2, if fill then " g\n" else " G\n")]
  }

  /** setColor: the operator for colour array `a`, adjusted by `adjust`. */
  function SetColorOps(xref: XRef, a: seq<Obj>, fill: bool, adjust: int): seq<Piece>
    requires |a| > 0
  {
    ColorOps(Adjusted(Components(xref, a), adjust), fill)
  }

  predicate InUnit(c: seq<real>)
  {
    forall i :: 0 <= i < |c| ==> 0.0 <= c[i] <= 1.0
  }

  /** `r` is a lighter version of `c`: more of each gray or RGB component, less of each
      CMYK ink. */
  predicate Lighter(c: seq<real>, r: seq<real>)
  {
    |r| == |c| &&
    forall i :: 0 <= i < |c| ==> if |c| == 4 then r[i] <= c[i] else c[i] <= r[i]
  }

  /** Brightening lightens and darkening darkens, in every colour space, and both keep
      components within [0, 1]. */
  lemma AdjustDirection(c: seq<real>, adjust: int)
    requires InUnit(c)
    ensures InUnit(Adjusted(c, adjust))
    ensures adjust > 0 ==> Lighter(c, Adjusted(c, adjust))
    ensures adjust < 0 ==> Lighter(Adjusted(c, adjust), c)
  {
  }

  /** Brightening white or darkening black leaves a gray or RGB component where it is,
      and any other component moves strictly. */
  lemma AdjustFixedPoints(c: seq<real>, adjust: int, i: int)
    requires InUnit(c) && |c| != 4 && 0 <= i < |c|
    ensures adjust > 0 ==> (Adjusted(c, adjust)[i] == c[i] <==> c[i] == 1.0)
    ensures adjust < 0 ==> (Adjusted(c, adjust)[i] == c[i] <==> c[i] == 0.0)
  {
  }

  /** The operator follows the number of components: four give CMYK, three give RGB,
      and one or two give gray from the first component alone; the printed
      components are the adjusted ones. */
  lemma ColorOperatorByCount(xref: XRef, a: seq<Obj>, fill: bool, adjust: int)
    requires |a| > 0
    ensures var ops := SetColorOps(xref, a, fill, adjust);
      var c := Adjusted(Components(xref, a), adjust);
      |ops| == 1 && ops[0].Nums? && ops[0].decimals == 2 &&
      (|a| >= 4 ==> ops[0].values == c && ops[0].op == (if fill then " k\n" else " K\n")) &&
      (|a| == 3 ==> ops[0].values == c && ops[0].op == (if fill then " rg\n" else " RG\n")) &&
      (|a| <= 2 ==> ops[0].values == [c[0]] && ops[0].op == (if fill then " g\n" else " G\n"))
  {
  }
}
