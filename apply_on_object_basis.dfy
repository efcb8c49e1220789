/**
 * ApplyOnObjecBasis: every fixed update it regenerates its palette from the game time
 * and hands the palette to the scene's objects, the fog and the skybox. Its generator is
 * the same time-driven linear rule as TimedColor's.
 */
module ObjectBasis {
  import opened UnityMath
  import opened HSLColor
  import opened LinearRule
  import opened TimedPalette

  /** The component: its six-colour palette, rewritten in place each fixed update. */
  class ApplyOnObjecBasis {
    const colorPalette: array<ColorHSL>

    /** The palette starts as six copies of ColorHSL(0, 0.95, 0.5). */
    constructor()
      ensures fresh(colorPalette)
      ensures colorPalette[..] == StartingPalette()
    {
      colorPalette := new ColorHSL[PaletteSize](_ => FromHSL(0.0, 0.95, 0.5));
    }

    /** UNIXpalette, given the time Time.time reads: despite its name it is driven by the
        game time, and it leaves exactly the palette TimedColor.TimeBasedPalette makes
        for the same time. */
    method UNIXpalette(currentTime: real, sin: real -> real, cos: real -> real)
      requires colorPalette.Length == PaletteSize
      modifies colorPalette
      ensures colorPalette[..] == LinearColors(TimeScalars(currentTime, sin, cos))
    {
      var mainHue := FRem(currentTime, 60.0) * 0.016;
      var hueShift := sin(currentTime * 0.02 * PI) * 0.1;
      var mainSaturation := 0.3 + PingPong(currentTime * 0.015, 5.0) * 0.1;
      var saturationShift := PingPong(currentTime * 0.007, 0.1) + 0.01;
      var mainLuminance := 0.5 + cos(currentTime * 0.1) * 0.25;
      var luminanceShift := (0.5 - mainLuminance) * 0.2;
      var sc := Scalars(mainHue, hueShift, mainSaturation, saturationShift, mainLuminance, luminanceShift);
      assert sc == TimeScalars(currentTime, sin, cos);
      ApplyLinear(colorPalette, sc);
    }
  }
}
