/**
 * ApplyPropertyBlocks: every fixed update it regenerates its palette from the Unix
 * timestamp and pushes each colour to its group of renderers through a material
 * property block. Each scalar is driven by the timestamp modulo its own small period.
 */
module PropertyBlocks {
  import opened UnityMath
  import opened HSLColor
  import opened LinearRule

  /** The six scalars UNIXpalette derives from the whole-second Unix timestamp `u`. After
      the epoch, whatever Sin and Cos are: the main hue lies in [0, 0.944], the main
      saturation in [0.5, 0.9995], the saturation shift in [-0.1, 0.068] (negative
      exactly for the first four seconds of every seven) and the luminance shift in
      [-0.1, 0.065] (negative exactly for the first four seconds of every six). */
  function BlockScalars(u: int, sin: real -> real, cos: real -> real): (sc: Scalars)
    ensures u >= 0 ==> 0.0 <= sc.mainHue <= 0.944 && 0.5 <= sc.mainSaturation <= 0.9995
    ensures u >= 0 ==> -0.1 <= sc.saturationShift <= 0.068 && (sc.saturationShift < 0.0 <==> IRem(u, 7) <= 3)
    ensures u >= 0 ==> -0.1 <= sc.luminanceShift <= 0.065 && (sc.luminanceShift < 0.0 <==> IRem(u, 6) <= 3)
  {
    Scalars(
      IRem(u, 60) as real * 0.016,
      sin(IRem(u, 100) as real * 0.02 * PI) * 0.1,
      0.5 + IRem(u, 1000) as real * 0.0005,
      IRem(u, 7) as real * 0.028 - 0.1,
      0.5 + cos(IRem(u, 10) as real * 0.1) * 0.25,
      IRem(u, 6) as real * 0.033 - 0.1)
  }

  /** For a timestamp after the epoch: the main hue steps through [0, 0.944] once a
      minute, the main saturation climbs through [0.5, 0.9995] once every 1000 seconds,
      the saturation shift is one of seven values in [-0.1, 0.068] and is negative exactly
      for the first four of them, the luminance shift is one of six values in
      [-0.1, 0.065] and is negative exactly for the first four of them; with a bounded
      Sin and Cos the hue shift is at most a tenth of a turn and the main luminance lies
      in [0.25, 0.75]. */
  lemma BlockScalarsBounds(u: int, sin: real -> real, cos: real -> real)
    requires u >= 0
    requires Bounded(sin) && Bounded(cos)
    ensures var sc := BlockScalars(u, sin, cos);
      && 0.0 <= sc.mainHue <= 0.944
      && -0.1 <= sc.hueShift <= 0.1
      && 0.5 <= sc.mainSaturation <= 0.9995
      && -0.1 <= sc.saturationShift <= 0.068
      && (sc.saturationShift < 0.0 <==> IRem(u, 7) <= 3)
      && 0.25 <= sc.mainLuminance <= 0.75
      && -0.1 <= sc.luminanceShift <= 0.065
      && (sc.luminanceShift < 0.0 <==> IRem(u, 6) <= 3)
  {
    assert -1.0 <= sin(IRem(u, 100) as real * 0.02 * PI) <= 1.0;
    assert -1.0 <= cos(IRem(u, 10) as real * 0.1) <= 1.0;
  }

  /** Saturation rises along the palette during the first four seconds of every seven
      and falls during the other three; entry 0 carries the main saturation unclamped. */
  lemma BlockSaturation(u: int, sin: real -> real, cos: real -> real)
    requires u >= 0
    requires Bounded(sin) && Bounded(cos)
    ensures var p := LinearColors(BlockScalars(u, sin, cos));
      p[0].s == BlockScalars(u, sin, cos).mainSaturation
    ensures var p := LinearColors(BlockScalars(u, sin, cos));
      IRem(u, 7) <= 3 ==> forall i, j :: 0 <= i <= j < PaletteSize ==> p[i].s <= p[j].s
    ensures var p := LinearColors(BlockScalars(u, sin, cos));
      IRem(u, 7) > 3 ==> forall i, j :: 0 <= i <= j < PaletteSize ==> p[j].s <= p[i].s
  {
    var sc := BlockScalars(u, sin, cos);
    BlockScalarsBounds(u, sin, cos);
    LinearFirst(sc);
    LinearSaturationMonotone(sc);
  }

  /** Lightness falls along the palette during the first four seconds of every six and
      rises during the other two; entry 0 carries the main luminance unclamped. */
  lemma BlockLightness(u: int, sin: real -> real, cos: real -> real)
    requires u >= 0
    requires Bounded(sin) && Bounded(cos)
    ensures var p := LinearColors(BlockScalars(u, sin, cos));
      p[0].l == BlockScalars(u, sin, cos).mainLuminance
    ensures var p := LinearColors(BlockScalars(u, sin, cos));
      IRem(u, 6) <= 3 ==> forall i, j :: 0 <= i <= j < PaletteSize ==> p[j].l <= p[i].l
    ensures var p := LinearColors(BlockScalars(u, sin, cos));
      IRem(u, 6) > 3 ==> forall i, j :: 0 <= i <= j < PaletteSize ==> p[i].l <= p[j].l
  {
    var sc := BlockScalars(u, sin, cos);
    BlockScalarsBounds(u, sin, cos);
    LinearFirst(sc);
    LinearLightnessMonotone(sc);
  }

  /** After the epoch the palette repeats every 21000 seconds (5 h 50 min), the least
      common multiple of the periods 60, 100, 1000, 7, 10 and 6 of the six scalars. */
  lemma BlockPeriod(u: int, sin: real -> real, cos: real -> real)
    requires u >= 0
    ensures BlockScalars(u + 21000, sin, cos) == BlockScalars(u, sin, cos)
    ensures LinearColors(BlockScalars(u + 21000, sin, cos)) == LinearColors(BlockScalars(u, sin, cos))
  {
    RemPeriodic(u, 60, 350);
    RemPeriodic(u, 100, 210);
    RemPeriodic(u, 1000, 21);
    RemPeriodic(u, 7, 3000);
    RemPeriodic(u, 10, 2100);
    RemPeriodic(u, 6, 3500);
  }

  /** The component: its six-colour palette, rewritten in place each fixed update. */
  class ApplyPropertyBlocks {
    const colorPalette: array<ColorHSL>

    /** The palette starts as six copies of ColorHSL(0, 0.95, 0.5). */
    constructor()
      ensures fresh(colorPalette)
      ensures colorPalette[..] == StartingPalette()
    {
      colorPalette := new ColorHSL[PaletteSize](_ => FromHSL(0.0, 0.95, 0.5));
    }

    /** UNIXpalette, given the whole seconds since the Unix epoch that the clock reads:
        the palette becomes the linear palette of the timestamp's scalars. */
    method UNIXpalette(unixTime: int, sin: real -> real, cos: real -> real)
      requires colorPalette.Length == PaletteSize
      modifies colorPalette
      ensures colorPalette[..] == LinearColors(BlockScalars(unixTime, sin, cos))
    {
      var mainHue := IRem(unixTime, 60) as real * 0.016;
      var hueShift := sin(IRem(unixTime, 100) as real * 0.02 * PI) * 0.1;
      var mainSaturation := 0.5 + IRem(unixTime, 1000) as real * 0.0005;
      var saturationShift := IRem(unixTime, 7) as real * 0.028 - 0.1;
      var mainLuminance := 0.5 + cos(IRem(unixTime, 10) as real * 0.1) * 0.25;
      var luminanceShift := IRem(unixTime, 6) as real * 0.033 - 0.1;
      ApplyLinear(colorPalette, Scalars(mainHue, hueShift, mainSaturation, saturationShift, mainLuminance, luminanceShift));
    }
  }
}
