/**
 * The linear six-colour rule shared by every time-, input- and variable-driven palette:
 * six scalars (a main hue, saturation and luminance and a per-step shift for each) and
 * one loop that writes entry i of the palette through the ColorHSL setters as
 *   h = Repeat(mainHue + i * hueShift, 1)
 *   s = Clamp01(mainSaturation - saturationShift * i)
 *   l = Clamp01(mainLuminance + luminanceShift * i)
 */
module LinearRule {
  import opened UnityMath
  import opened HSLColor

  /** Every palette in the project has six entries. */
  const PaletteSize: nat := 6

  /** The palette every generator starts from: six copies of ColorHSL(0, 0.95, 0.5). */
  function StartingPalette(): (p: seq<ColorHSL>)
    ensures |p| == PaletteSize
    ensures forall i :: 0 <= i < |p| ==> p[i] == ColorHSL(0.0, 0.95, 0.5)
  {
    seq(PaletteSize, _ => FromHSL(0.0, 0.95, 0.5))
  }

  /** The six colour-scheme variables the loop reads. */
  datatype Scalars = Scalars(
    mainHue: real, hueShift: real,
    mainSaturation: real, saturationShift: real,
    mainLuminance: real, luminanceShift: real)

  /** Entry i's hue as the loop computes it, before wrapping. */
  function RawHue(sc: Scalars, i: nat): real {
    sc.mainHue + Steps(i, sc.hueShift)
  }

  /** Entry i's saturation as the loop computes it, before clamping. */
  function RawSaturation(sc: Scalars, i: nat): real {
    sc.mainSaturation - Steps(i, sc.saturationShift)
  }

  /** Entry i's lightness as the loop computes it, before clamping. */
  function RawLightness(sc: Scalars, i: nat): real {
    sc.mainLuminance + Steps(i, sc.luminanceShift)
  }

  /** The colour the loop leaves in entry i: what the normalising constructor makes of
      the raw values. */
  function LinearColor(sc: Scalars, i: nat): (c: ColorHSL)
    ensures c.Valid()
  {
    FromHSL(RawHue(sc, i), RawSaturation(sc, i), RawLightness(sc, i))
  }

  /** The whole palette the loop produces. */
  function LinearColors(sc: Scalars): (p: seq<ColorHSL>)
    ensures |p| == PaletteSize
    ensures forall i :: 0 <= i < |p| ==> p[i].Valid()
  {
    seq(PaletteSize, i requires 0 <= i => LinearColor(sc, i))
  }

  /** The raw values are the loop's own arithmetic `main ± i * shift`. */
  lemma RawIsLoopArithmetic(sc: Scalars, i: nat)
    ensures RawHue(sc, i) == sc.mainHue + i as real * sc.hueShift
    ensures RawSaturation(sc, i) == sc.mainSaturation - sc.saturationShift * i as real
    ensures RawLightness(sc, i) == sc.mainLuminance + sc.luminanceShift * i as real
  {
    StepsIsProduct(i, sc.hueShift);
    StepsIsProduct(i, sc.saturationShift);
    StepsIsProduct(i, sc.luminanceShift);
  }

  /** One turn of the loop writes hue, saturation and luminance through the setters, which
      wrap and clamp the already wrapped and clamped values once more; the entry ends equal
      to LinearColor(sc, i), whatever it held before. */
  lemma LoopStepOverwrites(c: ColorHSL, sc: Scalars, i: nat)
    ensures SetL(SetS(SetH(c, Repeat(sc.mainHue + i as real * sc.hueShift, 1.0)),
                      Clamp01(sc.mainSaturation - sc.saturationShift * i as real)),
                 Clamp01(sc.mainLuminance + sc.luminanceShift * i as real))
         == LinearColor(sc, i)
  {
    RawIsLoopArithmetic(sc, i);
    NormalisedWrites(c, RawHue(sc, i), RawSaturation(sc, i), RawLightness(sc, i));
  }

  /** The loop, which rewrites all six entries of the palette in place. */
  method ApplyLinear(palette: array<ColorHSL>, sc: Scalars)
    requires palette.Length == PaletteSize
    modifies palette
    ensures palette[..] == LinearColors(sc)
  {
    for i := 0 to PaletteSize
      invariant forall j :: 0 <= j < i ==> palette[j] == LinearColor(sc, j)
    {
      LoopStepOverwrites(palette[i], sc, i);
      palette[i] := SetH(palette[i], Repeat(sc.mainHue + i as real * sc.hueShift, 1.0));
      palette[i] := SetS(palette[i], Clamp01(sc.mainSaturation - sc.saturationShift * i as real));
      palette[i] := SetL(palette[i], Clamp01(sc.mainLuminance + sc.luminanceShift * i as real));
    }
  }

  /** Entry 0 is the main colour itself, normalised. */
  lemma LinearFirst(sc: Scalars)
    ensures LinearColors(sc)[0] == FromHSL(sc.mainHue, sc.mainSaturation, sc.mainLuminance)
  {
    assert LinearColors(sc)[0] == LinearColor(sc, 0);
  }

  /** Each hue is the previous one turned by hueShift round the circle. */
  lemma LinearHueSteps(sc: Scalars)
    ensures forall i :: 0 <= i < PaletteSize - 1 ==>
      LinearColors(sc)[i + 1].h == Repeat(LinearColors(sc)[i].h + sc.hueShift, 1.0)
  {
    forall i | 0 <= i < PaletteSize - 1
      ensures LinearColors(sc)[i + 1].h == Repeat(LinearColors(sc)[i].h + sc.hueShift, 1.0)
    {
      assert LinearColors(sc)[i].h == Repeat(RawHue(sc, i), 1.0);
      assert LinearColors(sc)[i + 1].h == Repeat(RawHue(sc, i + 1), 1.0);
      WrapAdd(RawHue(sc, i), sc.hueShift);
      assert RawHue(sc, i) + sc.hueShift == RawHue(sc, i + 1);
    }
  }

  /** Going round the circle the short way, each hue is no further from the previous one
      than the size of hueShift. */
  lemma LinearHueNear(sc: Scalars)
    ensures forall i :: 0 <= i < PaletteSize - 1 ==>
      Abs(HueTravel(LinearColors(sc)[i].h, LinearColors(sc)[i + 1].h)) <= Abs(sc.hueShift)
  {
    LinearHueSteps(sc);
    forall i | 0 <= i < PaletteSize - 1
      ensures Abs(HueTravel(LinearColors(sc)[i].h, LinearColors(sc)[i + 1].h)) <= Abs(sc.hueShift)
    {
      var a, b := LinearColors(sc)[i], LinearColors(sc)[i + 1];
      var t := a.h + sc.hueShift;
      WrapRange(t);
      assert b.h + t.Floor as real - a.h == sc.hueShift;
      HueTravelIsShortest(a, b, t.Floor);
    }
  }

  /** Saturation falls (or stays) along the palette when the shift is non-negative, and
      rises (or stays) when it is non-positive. */
  lemma LinearSaturationMonotone(sc: Scalars)
    ensures sc.saturationShift >= 0.0 ==>
      forall i, j :: 0 <= i <= j < PaletteSize ==> LinearColors(sc)[j].s <= LinearColors(sc)[i].s
    ensures sc.saturationShift <= 0.0 ==>
      forall i, j :: 0 <= i <= j < PaletteSize ==> LinearColors(sc)[i].s <= LinearColors(sc)[j].s
  {
    forall i, j | 0 <= i <= j < PaletteSize
      ensures sc.saturationShift >= 0.0 ==> LinearColors(sc)[j].s <= LinearColors(sc)[i].s
      ensures sc.saturationShift <= 0.0 ==> LinearColors(sc)[i].s <= LinearColors(sc)[j].s
    {
      assert LinearColors(sc)[i].s == Clamp01(RawSaturation(sc, i));
      assert LinearColors(sc)[j].s == Clamp01(RawSaturation(sc, j));
      StepsMonotone(i, j, sc.saturationShift);
      if sc.saturationShift >= 0.0 {
        Clamp01Monotone(RawSaturation(sc, j), RawSaturation(sc, i));
      }
      if sc.saturationShift <= 0.0 {
        Clamp01Monotone(RawSaturation(sc, i), RawSaturation(sc, j));
      }
    }
  }

  /** Lightness rises (or stays) along the palette when the shift is non-negative, and
      falls (or stays) when it is non-positive. */
  lemma LinearLightnessMonotone(sc: Scalars)
    ensures sc.luminanceShift >= 0.0 ==>
      forall i, j :: 0 <= i <= j < PaletteSize ==> LinearColors(sc)[i].l <= LinearColors(sc)[j].l
    ensures sc.luminanceShift <= 0.0 ==>
      forall i, j :: 0 <= i <= j < PaletteSize ==> LinearColors(sc)[j].l <= LinearColors(sc)[i].l
  {
    forall i, j | 0 <= i <= j < PaletteSize
      ensures sc.luminanceShift >= 0.0 ==> LinearColors(sc)[i].l <= LinearColors(sc)[j].l
      ensures sc.luminanceShift <= 0.0 ==> LinearColors(sc)[j].l <= LinearColors(sc)[i].l
    {
      assert LinearColors(sc)[i].l == Clamp01(RawLightness(sc, i));
      assert LinearColors(sc)[j].l == Clamp01(RawLightness(sc, j));
      StepsMonotone(i, j, sc.luminanceShift);
      if sc.luminanceShift >= 0.0 {
        Clamp01Monotone(RawLightness(sc, i), RawLightness(sc, j));
      }
      if sc.luminanceShift <= 0.0 {
        Clamp01Monotone(RawLightness(sc, j), RawLightness(sc, i));
      }
    }
  }

  /** Five steps of a fifth of the gap to 0.5 reach 0.5 exactly, and no step overshoots. */
  lemma TowardHalf(m: real, i: nat)
    requires i < PaletteSize
    ensures var l := m + Steps(i, (0.5 - m) * 0.2);
      Min(m, 0.5) <= l <= Min(m, 0.5) + Abs(m - 0.5) && (i == PaletteSize - 1 ==> l == 0.5)
  {
    var d := (0.5 - m) * 0.2;
    assert Steps(5, d) == 5.0 * d;
    StepsMonotone(i, 5, d);
    StepsMonotone(0, i, d);
  }

  /** With luminanceShift = (0.5 - mainLuminance) * 0.2 and an in-range main luminance,
      no lightness is clamped, each one lies between mainLuminance and 0.5, each one is
      at least as close to 0.5 as the one before, and the last one is exactly 0.5. */
  lemma LinearLightnessTowardHalf(sc: Scalars)
    requires 0.0 <= sc.mainLuminance <= 1.0
    requires sc.luminanceShift == (0.5 - sc.mainLuminance) * 0.2
    ensures forall i :: 0 <= i < PaletteSize ==> LinearColors(sc)[i].l == RawLightness(sc, i)
    ensures forall i :: 0 <= i < PaletteSize ==>
      Min(sc.mainLuminance, 0.5) <= LinearColors(sc)[i].l <= Min(sc.mainLuminance, 0.5) + Abs(sc.mainLuminance - 0.5)
    ensures LinearColors(sc)[PaletteSize - 1].l == 0.5
    ensures forall i, j :: 0 <= i <= j < PaletteSize ==>
      Abs(LinearColors(sc)[j].l - 0.5) <= Abs(LinearColors(sc)[i].l - 0.5)
  {
    LinearLightnessMonotone(sc);
    forall i | 0 <= i < PaletteSize
      ensures LinearColors(sc)[i].l == RawLightness(sc, i)
      ensures Min(sc.mainLuminance, 0.5) <= LinearColors(sc)[i].l <= Min(sc.mainLuminance, 0.5) + Abs(sc.mainLuminance - 0.5)
    {
      assert LinearColors(sc)[i].l == Clamp01(RawLightness(sc, i));
      TowardHalf(sc.mainLuminance, i);
    }
    TowardHalf(sc.mainLuminance, PaletteSize - 1);
  }
}
