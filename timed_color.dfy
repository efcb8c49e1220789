/**
 * TimedColor: a palette regenerated every frame from the game time. Six scalars oscillate
 * with the time at different speeds (the main hue runs through one cycle a minute) and
 * feed the linear six-colour rule.
 */
module TimedPalette {
  import opened UnityMath
  import opened HSLColor
  import opened LinearRule

  /** The six scalars TimeBasedPalette derives from the time `t` in seconds. Whatever Sin
      and Cos are, the main hue climbs from 0 towards 0.96 each minute of non-negative
      time, the main saturation swings between 0.3 and 0.8 and its shift between 0.01
      and 0.11. */
  function TimeScalars(t: real, sin: real -> real, cos: real -> real): (sc: Scalars)
    ensures t >= 0.0 ==> 0.0 <= sc.mainHue < 0.96
    ensures 0.3 <= sc.mainSaturation <= 0.8
    ensures 0.01 <= sc.saturationShift <= 0.11
  {
    var mainLuminance := 0.5 + cos(t * 0.1) * 0.25;
    Scalars(
      FRem(t, 60.0) * 0.016,
      sin(t * 0.02 * PI) * 0.1,
      0.3 + PingPong(t * 0.015, 5.0) * 0.1,
      PingPong(t * 0.007, 0.1) + 0.01,
      mainLuminance,
      (0.5 - mainLuminance) * 0.2)
  }

  /** The ranges the scalars stay in: the main hue climbs from 0 towards 0.96 each minute
      of non-negative time, the hue shift is at most a tenth of a turn either way, the
      main saturation swings between 0.3 and 0.8, its shift between 0.01 and 0.11, the
      main luminance between 0.25 and 0.75, and the luminance shift is a fifth of the gap
      from the main luminance to 0.5. */
  lemma TimeScalarsBounds(t: real, sin: real -> real, cos: real -> real)
    requires Bounded(sin) && Bounded(cos)
    ensures var sc := TimeScalars(t, sin, cos);
      && (t >= 0.0 ==> 0.0 <= sc.mainHue < 0.96)
      && -0.1 <= sc.hueShift <= 0.1
      && 0.3 <= sc.mainSaturation <= 0.8
      && 0.01 <= sc.saturationShift <= 0.11
      && 0.25 <= sc.mainLuminance <= 0.75
      && sc.luminanceShift == (0.5 - sc.mainLuminance) * 0.2
  {
    assert -1.0 <= sin(t * 0.02 * PI) <= 1.0;
    assert -1.0 <= cos(t * 0.1) <= 1.0;
  }

  /** Hue: for non-negative time entry 0 carries the main hue unwrapped, and consecutive
      entries are at most a tenth of a turn apart round the circle. */
  lemma TimedHue(t: real, sin: real -> real, cos: real -> real)
    requires Bounded(sin) && Bounded(cos)
    ensures var sc := TimeScalars(t, sin, cos);
      t >= 0.0 ==> LinearColors(sc)[0].h == sc.mainHue
    ensures forall i :: 0 <= i < PaletteSize - 1 ==>
      Abs(HueTravel(LinearColors(TimeScalars(t, sin, cos))[i].h, LinearColors(TimeScalars(t, sin, cos))[i + 1].h)) <= 0.1
  {
    var sc := TimeScalars(t, sin, cos);
    TimeScalarsBounds(t, sin, cos);
    LinearFirst(sc);
    LinearHueNear(sc);
  }

  /** Saturation: entry 0 carries the main saturation unclamped, and saturation never
      rises along the palette. */
  lemma TimedSaturation(t: real, sin: real -> real, cos: real -> real)
    requires Bounded(sin) && Bounded(cos)
    ensures var p := LinearColors(TimeScalars(t, sin, cos));
      p[0].s == TimeScalars(t, sin, cos).mainSaturation
    ensures var p := LinearColors(TimeScalars(t, sin, cos));
      forall i, j :: 0 <= i <= j < PaletteSize ==> p[j].s <= p[i].s
  {
    var sc := TimeScalars(t, sin, cos);
    TimeScalarsBounds(t, sin, cos);
    LinearFirst(sc);
    LinearSaturationMonotone(sc);
  }

  /** Lightness: entry 0 carries the main luminance, every entry stays within
      [0.25, 0.75] and is at least as close to 0.5 as the one before, and the last entry
      is exactly 0.5. */
  lemma TimedLightness(t: real, sin: real -> real, cos: real -> real)
    requires Bounded(sin) && Bounded(cos)
    ensures var p := LinearColors(TimeScalars(t, sin, cos));
      p[0].l == TimeScalars(t, sin, cos).mainLuminance
    ensures var p := LinearColors(TimeScalars(t, sin, cos));
      forall i :: 0 <= i < PaletteSize ==> 0.25 <= p[i].l <= 0.75
    ensures var p := LinearColors(TimeScalars(t, sin, cos));
      forall i, j :: 0 <= i <= j < PaletteSize ==> Abs(p[j].l - 0.5) <= Abs(p[i].l - 0.5)
    ensures LinearColors(TimeScalars(t, sin, cos))[PaletteSize - 1].l == 0.5
  {
    var sc := TimeScalars(t, sin, cos);
    TimeScalarsBounds(t, sin, cos);
    LinearFirst(sc);
    LinearLightnessTowardHalf(sc);
  }

  /** The component: its six-colour palette, rewritten in place each frame. */
  class TimedColor {
    const colorPalette: array<ColorHSL>

    /** The palette starts as six copies of ColorHSL(0, 0.95, 0.5). */
    constructor()
      ensures fresh(colorPalette)
      ensures colorPalette[..] == StartingPalette()
    {
      colorPalette := new ColorHSL[PaletteSize](_ => FromHSL(0.0, 0.95, 0.5));
    }

    /** TimeBasedPalette, given the time Time.time reads: the palette becomes the linear
        palette of the time's scalars, whatever it held before. */
    method TimeBasedPalette(currentTime: real, sin: real -> real, cos: real -> real)
      requires colorPalette.Length == PaletteSize
      modifies colorPalette
      ensures colorPalette[..] == LinearColors(TimeScalars(currentTime, sin, cos))
    {
      var mainHue := FRem(currentTime, 60.0) * 0.016;
      var hueShift := sin(currentTime * 0.02 * PI) * 0.1;
      var mainSaturation := 0.3 + PingPong(currentTime * 0.015, 5.0) * 0.1;
      var saturationShift := PingPong(currentTime * 0.007, 0.1) + 0.01;
      var mainLuminance := 0.5 + cos(currentTime * 0.1) * 0.25;
      var luminanceShift := (0.5 - mainLuminance) * 0.2;
      var sc := Scalars(mainHue, hueShift, mainSaturation, saturationShift, mainLuminance, luminanceShift);
      assert sc == TimeScalars(currentTime, sin, cos);
      ApplyLinear(colorPalette, sc);
    }
  }
}
