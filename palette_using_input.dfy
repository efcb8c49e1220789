/**
 * PaletteUsingInput: a palette generated on demand from one of three inputs chosen in
 * the inspector — the Unix timestamp, a colour, or three abstract variables A, B and C in
 * [0, 1]. Each input is turned into the six scalars of the linear six-colour rule.
 */
module PaletteInput {
  import opened UnityMath
  import opened HSLColor
  import opened LinearRule
  import opened TimedPalette

  /** Where the scalars come from. */
  datatype InputMethod = UnixTime | InputColor | AbstractVariables

  /** The scalars UnixPalette derives from the whole-second Unix timestamp `u`: the
      time-driven formulas, with an int remainder for the main hue. After the epoch the
      main hue lies in [0, 0.944]; the main saturation lies in [0.3, 0.8] and its shift
      in [0.01, 0.11]. */
  function UnixScalars(u: int, sin: real -> real, cos: real -> real): (sc: Scalars)
    ensures u >= 0 ==> 0.0 <= sc.mainHue <= 0.944
    ensures 0.3 <= sc.mainSaturation <= 0.8
    ensures 0.01 <= sc.saturationShift <= 0.11
  {
    var t := u as real;
    var mainLuminance := 0.5 + cos(t * 0.1) * 0.25;
    Scalars(
      IRem(u, 60) as real * 0.016,
      sin(t * 0.02 * PI) * 0.1,
      0.3 + PingPong(t * 0.015, 5.0) * 0.1,
      PingPong(t * 0.007, 0.1) + 0.01,
      mainLuminance,
      (0.5 - mainLuminance) * 0.2)
  }

  /** The timestamp palette is the game-time palette of TimedColor taken at a whole number
      of seconds: the int and the float remainder by 60 agree there. So every property of
      the time-driven palette holds for it too. */
  lemma UnixIsTime(u: int, sin: real -> real, cos: real -> real)
    ensures UnixScalars(u, sin, cos) == TimeScalars(u as real, sin, cos)
    ensures LinearColors(UnixScalars(u, sin, cos)) == LinearColors(TimeScalars(u as real, sin, cos))
  {
    IRemIsFRem(u);
  }

  /** After the epoch the main hue is one of the sixty steps 0, 0.016, …, 0.944, and
      entry 0 carries it unwrapped. */
  lemma UnixHue(u: int, sin: real -> real, cos: real -> real)
    requires u >= 0
    ensures 0.0 <= UnixScalars(u, sin, cos).mainHue <= 0.944
    ensures LinearColors(UnixScalars(u, sin, cos))[0].h == UnixScalars(u, sin, cos).mainHue
  {
    LinearFirst(UnixScalars(u, sin, cos));
  }

  /** The scalars ColorBasedPalette derives from the input colour in HSL form. The main
      hue, saturation and luminance are the colour's own; a grey colour turns the hue
      back by a fifth of a turn per step and keeps the saturation shift at zero. */
  function ColorScalars(c: ColorHSL, sin: real -> real): (sc: Scalars)
    ensures sc.mainHue == c.h && sc.mainSaturation == c.s && sc.mainLuminance == c.l
    ensures c.s == 0.0 ==> sc.hueShift == -0.2 && sc.saturationShift == 0.0
  {
    Scalars(
      c.h, c.s * c.l * 0.5 - 0.2,
      c.s, c.s * 0.1 * (c.s + c.l),
      c.l, sin(c.l * 31.0) * 0.07)
  }

  /** For a colour in range: the hue shift lies in [-0.2, 0.3], the saturation shift in
      [0, 0.2] and, with a bounded Sin, the luminance shift in [-0.07, 0.07]. */
  lemma ColorScalarsBounds(c: ColorHSL, sin: real -> real)
    requires c.Valid() && Bounded(sin)
    ensures var sc := ColorScalars(c, sin);
      && -0.2 <= sc.hueShift <= 0.3
      && 0.0 <= sc.saturationShift <= 0.2
      && -0.07 <= sc.luminanceShift <= 0.07
  {
    var x, y := c.s, c.l;
    MulNonNegative(x, y);
    MulMonotone(x, 1.0, y);
    assert x * y <= 1.0 * y == y;
    var z := x + y;
    MulNonNegative(x, z);
    MulMonotone(x, 1.0, z);
    assert x * z <= 1.0 * z == z;
    assert x * y * 0.5 == 0.5 * (x * y);
    assert x * 0.1 * z == 0.1 * (x * z);
    assert -1.0 <= sin(c.l * 31.0) <= 1.0;
  }

  /** The default inspector colour, pure red, is hue 0 at full saturation and lightness
      1/2; its palette steps the hue by exactly 0.05 (hues 0, 0.05, …, 0.25) and lowers
      the saturation by exactly 0.15 per entry (1, 0.85, …, 0.25). */
  lemma DefaultColorPalette(sin: real -> real)
    ensures FromColor(HSV(0.0, 1.0, 1.0)) == ColorHSL(0.0, 1.0, 0.5)
    ensures var p := LinearColors(ColorScalars(FromColor(HSV(0.0, 1.0, 1.0)), sin));
      forall i :: 0 <= i < PaletteSize ==> p[i].h == i as real * 0.05 && p[i].s == 1.0 - i as real * 0.15
  {
    var c := FromColor(HSV(0.0, 1.0, 1.0));
    var sc := ColorScalars(c, sin);
    assert sc.hueShift == 0.05 && sc.saturationShift == 0.15;
    forall i | 0 <= i < PaletteSize
      ensures LinearColors(sc)[i].h == i as real * 0.05 && LinearColors(sc)[i].s == 1.0 - i as real * 0.15
    {
      assert LinearColors(sc)[i] == LinearColor(sc, i);
      StepsIsProduct(i, 0.05);
      StepsIsProduct(i, 0.15);
    }
  }

  /** The palette of a colour in range starts with the colour itself, and its saturation
      never rises along the palette. */
  lemma ColorPaletteFromInput(c: ColorHSL, sin: real -> real)
    requires c.Valid()
    ensures LinearColors(ColorScalars(c, sin))[0] == c
    ensures var p := LinearColors(ColorScalars(c, sin));
      forall i, j :: 0 <= i <= j < PaletteSize ==> p[j].s <= p[i].s
  {
    var sc := ColorScalars(c, sin);
    LinearFirst(sc);
    var z := c.s + c.l;
    MulNonNegative(c.s, z);
    assert c.s * 0.1 * z == 0.1 * (c.s * z);
    assert sc.saturationShift >= 0.0;
    LinearSaturationMonotone(sc);
  }

  /** A grey input colour gives a grey palette whose hue turns back by a fifth of a
      turn at each step. */
  lemma ColorPaletteGrey(c: ColorHSL, sin: real -> real)
    requires c.Valid() && c.s == 0.0
    ensures ColorScalars(c, sin).hueShift == -0.2
    ensures forall i :: 0 <= i < PaletteSize ==> LinearColors(ColorScalars(c, sin))[i].s == 0.0
  {
    var sc := ColorScalars(c, sin);
    forall i | 0 <= i < PaletteSize
      ensures LinearColors(sc)[i].s == 0.0
    {
      assert LinearColors(sc)[i] == LinearColor(sc, i);
      StepsIsProduct(i, 0.0);
    }
  }

  /** The scalars VariableBasedPalette derives from the variables A, B and C. Whatever
      the variables and Sin, each hue step is between 0.05 and 0.15 of a turn, the main
      saturation lies in [0, 1), its shift in [0, 0.2] and the luminance shift in
      [-0.1, 0.1]. */
  function VariableScalars(a: real, b: real, c: real, sin: real -> real): (sc: Scalars)
    ensures 0.05 <= sc.hueShift <= 0.15
    ensures 0.0 <= sc.mainSaturation < 1.0
    ensures 0.0 <= sc.saturationShift <= 0.2
    ensures -0.1 <= sc.luminanceShift <= 0.1
  {
    Scalars(
      a + b,
      Clamp(c * 0.3, 0.05, 0.15),
      Repeat(a + b + c, 1.0),
      Clamp(sin(c * 3.0) * a, 0.0, 0.2),
      sin(b * 60.0) * 0.2 + 0.5,
      Clamp(sin(a * 3.0 + b * 2.0) * 0.1, -0.1, 0.1))
  }

  /** Whatever the variables: each hue step is between 0.05 and 0.15 of a turn, the main
      saturation lies in [0, 1) and its shift in [0, 0.2], the luminance shift lies in
      [-0.1, 0.1], and with a bounded Sin the main luminance lies in [0.3, 0.7]. */
  lemma VariableScalarsBounds(a: real, b: real, c: real, sin: real -> real)
    requires Bounded(sin)
    ensures var sc := VariableScalars(a, b, c, sin);
      && 0.05 <= sc.hueShift <= 0.15
      && 0.0 <= sc.mainSaturation < 1.0
      && 0.0 <= sc.saturationShift <= 0.2
      && 0.3 <= sc.mainLuminance <= 0.7
      && -0.1 <= sc.luminanceShift <= 0.1
  {
    assert -1.0 <= sin(b * 60.0) <= 1.0;
  }

  /** The variable palette starts at hue A + B wrapped, with the main saturation and
      luminance unclamped; its saturation never rises; each hue is 0.05 to 0.15 of a turn
      on from the previous one, so no two neighbours share a hue. */
  lemma VariablePalette(a: real, b: real, c: real, sin: real -> real)
    requires Bounded(sin)
    ensures var sc := VariableScalars(a, b, c, sin);
      LinearColors(sc)[0] == ColorHSL(Repeat(a + b, 1.0), sc.mainSaturation, sc.mainLuminance)
    ensures var p := LinearColors(VariableScalars(a, b, c, sin));
      forall i, j :: 0 <= i <= j < PaletteSize ==> p[j].s <= p[i].s
    ensures var p := LinearColors(VariableScalars(a, b, c, sin));
      forall i :: 0 <= i < PaletteSize - 1 ==>
        0.05 <= HueTravel(p[i].h, p[i + 1].h) <= 0.15 && p[i + 1].h != p[i].h
  {
    var sc := VariableScalars(a, b, c, sin);
    VariableScalarsBounds(a, b, c, sin);
    LinearFirst(sc);
    WrapRange(a + b);
    LinearSaturationMonotone(sc);
    VariableHueTravel(sc);
  }

  /** With a hue step in [0.05, 0.15], neighbours are exactly one step apart the short way
      round, and so never share a hue. */
  lemma VariableHueTravel(sc: Scalars)
    requires 0.05 <= sc.hueShift <= 0.15
    ensures var p := LinearColors(sc);
      forall i :: 0 <= i < PaletteSize - 1 ==>
        HueTravel(p[i].h, p[i + 1].h) == sc.hueShift && p[i + 1].h != p[i].h
  {
    LinearHueSteps(sc);
    var p := LinearColors(sc);
    forall i | 0 <= i < PaletteSize - 1
      ensures HueTravel(p[i].h, p[i + 1].h) == sc.hueShift && p[i + 1].h != p[i].h
    {
      VariableHueStep(p[i].h, p[i + 1].h, sc.hueShift);
    }
  }

  /** A turn by d in [0.05, 0.15] from a hue in [0, 1) is travelled as exactly d the
      short way round, and lands on a different hue. */
  lemma VariableHueStep(x: real, y: real, d: real)
    requires 0.0 <= x < 1.0 && 0.05 <= d <= 0.15 && y == Repeat(x + d, 1.0)
    ensures HueTravel(x, y) == d && y != x
  {
    WrapRange(x + d);
    WrapDistinct(x, d);
    WrapRange(x);
    if x + d < 1.0 {
      assert y == x + d;
    } else {
      assert y == x + d - 1.0;
    }
  }

  /** The palette NewColorPalette generates for the chosen input method. */
  function InputPalette(inputMethod: InputMethod, unixTime: int, inputColor: HSV,
                        a: real, b: real, c: real, sin: real -> real, cos: real -> real): (p: seq<ColorHSL>)
    ensures |p| == PaletteSize
  {
    match inputMethod
    case UnixTime => LinearColors(UnixScalars(unixTime, sin, cos))
    case InputColor => LinearColors(ColorScalars(FromColor(inputColor), sin))
    case AbstractVariables => LinearColors(VariableScalars(a, b, c, sin))
  }

  /** The component: its inspector settings and its six-colour palette. */
  class PaletteUsingInput {
    var inputMethod: InputMethod
    /** The inspector colour, as Unity's RGBToHSV gives it. */
    var inputColor: HSV
    var variableA: real
    var variableB: real
    var variableC: real
    const colorPalette: array<ColorHSL>

    /** The inspector defaults: timestamp input, pure red, A = 0, B = 1, C = 0.5; the
        palette starts as six copies of ColorHSL(0, 0.95, 0.5). */
    constructor()
      ensures inputMethod == UnixTime && inputColor == HSV(0.0, 1.0, 1.0)
      ensures variableA == 0.0 && variableB == 1.0 && variableC == 0.5
      ensures fresh(colorPalette)
      ensures colorPalette[..] == StartingPalette()
    {
      inputMethod := UnixTime;
      inputColor := HSV(0.0, 1.0, 1.0);
      variableA, variableB, variableC := 0.0, 1.0, 0.5;
      colorPalette := new ColorHSL[PaletteSize](_ => FromHSL(0.0, 0.95, 0.5));
    }

    /** UnixPalette, given the whole seconds since the epoch that the clock reads. */
    method UnixPalette(unixTime: int, sin: real -> real, cos: real -> real)
      requires colorPalette.Length == PaletteSize
      modifies colorPalette
      ensures colorPalette[..] == LinearColors(UnixScalars(unixTime, sin, cos))
    {
      var mainHue := IRem(unixTime, 60) as real * 0.016;
      var hueShift := sin(unixTime as real * 0.02 * PI) * 0.1;
      var mainSaturation := 0.3 + PingPong(unixTime as real * 0.015, 5.0) * 0.1;
      var saturationShift := PingPong(unixTime as real * 0.007, 0.1) + 0.01;
      var mainLuminance := 0.5 + cos(unixTime as real * 0.1) * 0.25;
      var luminanceShift := (0.5 - mainLuminance) * 0.2;
      ApplyLinear(colorPalette, Scalars(mainHue, hueShift, mainSaturation, saturationShift, mainLuminance, luminanceShift));
    }

    /** ColorBasedPalette: the scalars come from the input colour converted to HSL. */
    method ColorBasedPalette(sin: real -> real)
      requires colorPalette.Length == PaletteSize
      modifies colorPalette
      ensures colorPalette[..] == LinearColors(ColorScalars(FromColor(inputColor), sin))
    {
      var inputHSL := FromColor(inputColor);
      var mainHue := inputHSL.h;
      var hueShift := inputHSL.s * inputHSL.l * 0.5 - 0.2;
      var mainSaturation := inputHSL.s;
      var saturationShift := inputHSL.s * 0.1 * (inputHSL.s + inputHSL.l);
      var mainLuminance := inputHSL.l;
      var luminanceShift := sin(inputHSL.l * 31.0) * 0.07;
      var sc := Scalars(mainHue, hueShift, mainSaturation, saturationShift, mainLuminance, luminanceShift);
      assert sc == ColorScalars(inputHSL, sin);
      ApplyLinear(colorPalette, sc);
    }

    /** VariableBasedPalette: the scalars come from A, B and C. */
    method VariableBasedPalette(sin: real -> real)
      requires colorPalette.Length == PaletteSize
      modifies colorPalette
      ensures colorPalette[..] == LinearColors(VariableScalars(variableA, variableB, variableC, sin))
    {
      var mainHue := variableA + variableB;
      var hueShift := Clamp(variableC * 0.3, 0.05, 0.15);
      var mainSaturation := Repeat(variableA + variableB + variableC, 1.0);
      var saturationShift := Clamp(sin(variableC * 3.0) * variableA, 0.0, 0.2);
      var mainLuminance := sin(variableB * 60.0) * 0.2 + 0.5;
      var luminanceShift := Clamp(sin(variableA * 3.0 + variableB * 2.0) * 0.1, -0.1, 0.1);
      var sc := Scalars(mainHue, hueShift, mainSaturation, saturationShift, mainLuminance, luminanceShift);
      assert sc == VariableScalars(variableA, variableB, variableC, sin);
      ApplyLinear(colorPalette, sc);
    }

    /** NewColorPalette: regenerate from the chosen input; nothing else changes. */
    method NewColorPalette(unixTime: int, sin: real -> real, cos: real -> real)
      requires colorPalette.Length == PaletteSize
      modifies colorPalette
      ensures colorPalette[..] == InputPalette(inputMethod, unixTime, inputColor, variableA, variableB, variableC, sin, cos)
    {
      match inputMethod
      case UnixTime => UnixPalette(unixTime, sin, cos);
      case InputColor => ColorBasedPalette(sin);
      case AbstractVariables => VariableBasedPalette(sin);
    }
  }
}
