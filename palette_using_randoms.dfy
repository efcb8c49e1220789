/**
 * The randomised generator: a colour scheme picks how the six hues relate, a second draw
 * picks how the lightness runs along the palette, and the saturation falls group by group
 * (or, with adaptive saturation, grows with the distance of each lightness from 0.5).
 *
 * Every Random.Range draw is a parameter. Each pass over the palette is a method that
 * rewrites the palette array in place and is specified by a function on sequences.
 */
module PaletteRandoms {
  import opened UnityMath
  import opened HSLColor
  import opened LinearRule

  datatype ColorScheme = Analogous | Complementary | Triadic | Tetradic | SplitComplementary | Random

  /** The enum's underlying value, in declaration order. */
  function Ordinal(s: ColorScheme): (n: nat)
    ensures n <= 5 && (n == 5 <==> s == Random)
  {
    match s
    case Analogous => 0
    case Complementary => 1
    case Triadic => 2
    case Tetradic => 3
    case SplitComplementary => 4
    case Random => 5
  }

  /** The cast `(ColorScheme)n` on the values the enum declares. */
  function SchemeOf(n: int): (s: ColorScheme)
    requires 0 <= n <= 5
    ensures Ordinal(s) == n
  {
    if n == 0 then Analogous
    else if n == 1 then Complementary
    else if n == 2 then Triadic
    else if n == 3 then Tetradic
    else if n == 4 then SplitComplementary
    else Random
  }

  /** The scheme a new palette is generated with: the chosen one, or, when Random is chosen,
      the scheme whose value was drawn by Random.Range(0, 5). */
  function Resolve(scheme: ColorScheme, draw: int): (r: ColorScheme)
    requires 0 <= draw < 5
    ensures r != Random
    ensures scheme != Random ==> r == scheme
    ensures scheme == Random ==> Ordinal(r) == draw
  {
    if scheme == Random then SchemeOf(draw) else scheme
  }

  /** Every concrete scheme is the outcome of exactly one draw under Random. */
  lemma ResolveCovers(s: ColorScheme, draw: int)
    requires s != Random && 0 <= draw < 5
    ensures Resolve(Random, draw) == s <==> draw == Ordinal(s)
  {
    if draw == Ordinal(s) {
      match s
      case Analogous =>
      case Complementary =>
      case Triadic =>
      case Tetradic =>
      case SplitComplementary =>
    }
  }

  // Hue.

  /** The bounds of the hue-shift draw in each scheme; Random draws no shift. */
  predicate HueDrawInRange(scheme: ColorScheme, draw: real) {
    match scheme
    case Analogous => 0.03 <= draw <= 0.08
    case Complementary => 0.03 <= draw <= 0.05
    case Triadic => 0.01 <= draw <= 0.025
    case Tetradic => 0.1 <= draw <= 0.4
    case SplitComplementary => 0.03 <= draw <= 0.08
    case Random => true
  }

  /** hueShift as each scheme derives it from its draw: Complementary and Triadic add
      roughly a half and a third of a turn. From an in-range draw every scheme but Random
      steps by a positive share of at most 0.55 of a turn; Complementary's step lies just
      past half a turn and Triadic's just past a third. */
  function HueShift(scheme: ColorScheme, draw: real): (r: real)
    ensures scheme == Random ==> r == 0.0
    ensures HueDrawInRange(scheme, draw) && scheme != Random ==> 0.03 <= r <= 0.55
    ensures HueDrawInRange(scheme, draw) && scheme == Complementary ==> 0.53 <= r <= 0.55
    ensures HueDrawInRange(scheme, draw) && scheme == Triadic ==> 0.34 <= r <= 0.355
  {
    match scheme
    case Complementary => draw + 0.5
    case Triadic => draw + 0.33
    case Random => 0.0
    case _ => draw
  }

  /** Entry i's hue before wrapping. Analogous, Complementary and Triadic step by hueShift;
      Tetradic puts the complement at even entries and mainHue + hueShift at odd ones;
      SplitComplementary puts the complement at entry 0 and steps from mainHue - 2 * hueShift
      at entries 1 to 5. So Tetradic alternates between the complement and mainHue +
      hueShift, SplitComplementary's entry 3 carries the main hue itself, and every other
      scheme starts at the main hue. */
  function SchemeHue(scheme: ColorScheme, mainHue: real, hueShift: real, i: nat): (h: real)
    ensures scheme == Tetradic ==> h == if i % 2 == 0 then mainHue + 0.5 else mainHue + hueShift
    ensures scheme == SplitComplementary && i == 3 ==> h == mainHue
    ensures scheme != Tetradic && scheme != SplitComplementary && i == 0 ==> h == mainHue
  {
    assert Steps(0, hueShift) == 0.0 && Steps(1, hueShift) == hueShift;
    match scheme
    case Tetradic => mainHue + Steps(i % 2, hueShift) - ((i % 2) - 1) as real * 0.5
    case SplitComplementary => if i == 0 then mainHue + 0.5 else mainHue + Times(i - 3, hueShift)
    case _ => mainHue + Steps(i, hueShift)
  }

  /** Entry i after GenerateHue: its scheme hue, wrapped; saturation and lightness kept. */
  function HueEntry(c: ColorHSL, scheme: ColorScheme, mainHue: real, hueShift: real, i: nat): (r: ColorHSL)
    ensures r.s == c.s && r.l == c.l
  {
    SetH(c, Repeat(SchemeHue(scheme, mainHue, hueShift, i), 1.0))
  }

  /** GenerateHue: every entry gets its scheme hue; Random writes nothing. */
  function HuePass(p: seq<ColorHSL>, scheme: ColorScheme, mainHue: real, hueShift: real): (q: seq<ColorHSL>)
    requires |p| == PaletteSize
    ensures |q| == PaletteSize
    ensures forall i :: 0 <= i < PaletteSize ==> q[i].s == p[i].s && q[i].l == p[i].l
    ensures scheme == Random ==> q == p
  {
    if scheme == Random then p else
    seq(PaletteSize, i requires 0 <= i < PaletteSize => HueEntry(p[i], scheme, mainHue, hueShift, i))
  }

  /** The three stepping schemes: the first hue is mainHue and each next one is the
      previous one turned by hueShift. */
  lemma HueStepping(p: seq<ColorHSL>, scheme: ColorScheme, mainHue: real, hueShift: real)
    requires |p| == PaletteSize
    requires scheme == Analogous || scheme == Complementary || scheme == Triadic
    ensures HuePass(p, scheme, mainHue, hueShift)[0].h == Repeat(mainHue, 1.0)
    ensures forall i :: 0 <= i < PaletteSize - 1 ==>
      HuePass(p, scheme, mainHue, hueShift)[i + 1].h == Repeat(HuePass(p, scheme, mainHue, hueShift)[i].h + hueShift, 1.0)
  {
    var q := HuePass(p, scheme, mainHue, hueShift);
    assert q[0].h == Repeat(SchemeHue(scheme, mainHue, hueShift, 0), 1.0);
    forall i | 0 <= i < PaletteSize - 1
      ensures q[i + 1].h == Repeat(q[i].h + hueShift, 1.0)
    {
      var a := SchemeHue(scheme, mainHue, hueShift, i);
      assert q[i].h == Repeat(a, 1.0);
      assert q[i + 1].h == Repeat(SchemeHue(scheme, mainHue, hueShift, i + 1), 1.0);
      assert SchemeHue(scheme, mainHue, hueShift, i + 1) == a + hueShift;
      WrapAdd(a, hueShift);
    }
  }

  /** Tetradic: even entries hold the complement of mainHue and odd entries mainHue + hueShift;
      with a shift drawn in [0.1, 0.4] these are two different hues and neither is mainHue. */
  lemma TetradicPattern(p: seq<ColorHSL>, mainHue: real, hueShift: real)
    requires |p| == PaletteSize
    requires HueDrawInRange(Tetradic, hueShift)
    ensures forall i :: 0 <= i < PaletteSize && i % 2 == 0 ==>
      HuePass(p, Tetradic, mainHue, hueShift)[i].h == Repeat(mainHue + 0.5, 1.0)
    ensures forall i :: 0 <= i < PaletteSize && i % 2 == 1 ==>
      HuePass(p, Tetradic, mainHue, hueShift)[i].h == Repeat(mainHue + hueShift, 1.0)
    ensures Repeat(mainHue + 0.5, 1.0) != Repeat(mainHue + hueShift, 1.0)
    ensures forall i :: 0 <= i < PaletteSize ==>
      HuePass(p, Tetradic, mainHue, hueShift)[i].h != Repeat(mainHue, 1.0)
  {
    var q := HuePass(p, Tetradic, mainHue, hueShift);
    forall i | 0 <= i < PaletteSize
      ensures i % 2 == 0 ==> q[i].h == Repeat(mainHue + 0.5, 1.0)
      ensures i % 2 == 1 ==> q[i].h == Repeat(mainHue + hueShift, 1.0)
    {
      assert q[i].h == Repeat(SchemeHue(Tetradic, mainHue, hueShift, i), 1.0);
      if i % 2 == 0 {
        assert SchemeHue(Tetradic, mainHue, hueShift, i) == mainHue + 0.5;
      } else {
        assert Steps(1, hueShift) == hueShift;
        assert SchemeHue(Tetradic, mainHue, hueShift, i) == mainHue + hueShift;
      }
    }
    WrapDistinct(mainHue + hueShift, 0.5 - hueShift);
    WrapDistinct(mainHue, 0.5);
    WrapDistinct(mainHue, hueShift);
  }

  /** SplitComplementary: entry 3 holds mainHue, entry 0 its complement, and entries 1 to 5
      step by hueShift, so entries 2 and 4 flank mainHue. */
  lemma SplitComplementaryPattern(p: seq<ColorHSL>, mainHue: real, hueShift: real)
    requires |p| == PaletteSize
    ensures HuePass(p, SplitComplementary, mainHue, hueShift)[3].h == Repeat(mainHue, 1.0)
    ensures HuePass(p, SplitComplementary, mainHue, hueShift)[0].h ==
      Repeat(HuePass(p, SplitComplementary, mainHue, hueShift)[3].h + 0.5, 1.0)
    ensures forall i :: 1 <= i < PaletteSize - 1 ==>
      HuePass(p, SplitComplementary, mainHue, hueShift)[i + 1].h ==
      Repeat(HuePass(p, SplitComplementary, mainHue, hueShift)[i].h + hueShift, 1.0)
  {
    var q := HuePass(p, SplitComplementary, mainHue, hueShift);
    assert q[3].h == Repeat(SchemeHue(SplitComplementary, mainHue, hueShift, 3), 1.0);
    assert q[0].h == Repeat(mainHue + 0.5, 1.0);
    WrapAdd(mainHue, 0.5);
    forall i | 1 <= i < PaletteSize - 1
      ensures q[i + 1].h == Repeat(q[i].h + hueShift, 1.0)
    {
      var a := SchemeHue(SplitComplementary, mainHue, hueShift, i);
      assert q[i].h == Repeat(a, 1.0);
      assert q[i + 1].h == Repeat(SchemeHue(SplitComplementary, mainHue, hueShift, i + 1), 1.0);
      TimesIsProduct(i - 3, hueShift);
      TimesIsProduct(i - 2, hueShift);
      assert SchemeHue(SplitComplementary, mainHue, hueShift, i + 1) == a + hueShift;
      WrapAdd(a, hueShift);
    }
  }

  // Saturation.

  /** The factor each scheme scales the drawn saturation shift by: a positive share of at
      most one. Only Random leaves the drawn shift unscaled; every other scheme takes at
      most half of it. */
  function SaturationFactor(scheme: ColorScheme): (f: real)
    ensures 0.0 < f <= 1.0
    ensures f == 1.0 <==> scheme == Random
    ensures scheme != Random ==> f <= 0.5
  {
    match scheme
    case Analogous => 0.16
    case SplitComplementary => 0.16
    case Complementary => 0.33
    case Tetradic => 0.33
    case Triadic => 0.5
    case Random => 1.0
  }

  /** Which saturation step entry i takes: one per entry, per pair or per triple. Entry i
      lies in group g, which never counts more groups than there are entries before it. */
  function SaturationGroup(scheme: ColorScheme, i: nat): (g: nat)
    ensures g <= i
    ensures scheme == Complementary || scheme == Tetradic ==> 2 * g <= i < 2 * g + 2
    ensures scheme == Triadic ==> 3 * g <= i < 3 * g + 3
  {
    match scheme
    case Complementary => i / 2
    case Tetradic => i / 2
    case Triadic => i / 3
    case _ => i
  }

  /** Entry i after the scheme-driven saturation step: mainSaturation lowered by its group's
      number of shifts. */
  function GroupedEntry(c: ColorHSL, scheme: ColorScheme, mainSaturation: real, shift: real, i: nat): (r: ColorHSL)
    ensures r.h == c.h && r.l == c.l
  {
    SetS(c, Clamp01(mainSaturation - Steps(SaturationGroup(scheme, i), shift)))
  }

  /** The scheme-driven part of GenerateSaturation: entry i gets mainSaturation lowered by
      its group's number of shifts; Random writes nothing. */
  function GroupedSaturation(p: seq<ColorHSL>, scheme: ColorScheme, mainSaturation: real, shift: real): (q: seq<ColorHSL>)
    requires |p| == PaletteSize
    ensures |q| == PaletteSize
    ensures forall i :: 0 <= i < PaletteSize ==> q[i].h == p[i].h && q[i].l == p[i].l
    ensures scheme == Random ==> q == p
  {
    if scheme == Random then p else
    seq(PaletteSize, i requires 0 <= i < PaletteSize => GroupedEntry(p[i], scheme, mainSaturation, shift, i))
  }

  /** Entry i after the adaptive pass: its saturation is lowered by i shifts and raised by how
      far its current lightness lies from 0.5. */
  function AdaptiveEntry(c: ColorHSL, mainSaturation: real, shift: real, i: nat): (r: ColorHSL)
    ensures r.h == c.h && r.l == c.l
  {
    SetS(c, Clamp01(mainSaturation - Steps(i, shift) + Abs(c.l - 0.5)))
  }

  /** The adaptive part of GenerateSaturation. */
  function AdaptiveSaturation(p: seq<ColorHSL>, mainSaturation: real, shift: real): (q: seq<ColorHSL>)
    requires |p| == PaletteSize
    ensures |q| == PaletteSize
    ensures forall i :: 0 <= i < PaletteSize ==> q[i].h == p[i].h && q[i].l == p[i].l
  {
    seq(PaletteSize, i requires 0 <= i < PaletteSize => AdaptiveEntry(p[i], mainSaturation, shift, i))
  }

  /** The main saturation, from the draw of Random.Range(0, 0.6). */
  function MainSaturation(draw: real): real {
    1.0 - draw
  }

  /** The saturation shift after the scheme's factor, from the draw of Random.Range(0.2, 1). */
  function SaturationShift(scheme: ColorScheme, mainDraw: real, shiftDraw: real): real {
    MainSaturation(mainDraw) * shiftDraw * SaturationFactor(scheme)
  }

  /** The shift the saturation loops use: the main saturation times the draw, scaled by the
      scheme's factor. */
  lemma ScaledShift(scheme: ColorScheme, mainDraw: real, shiftDraw: real, drawn: real)
    requires drawn == MainSaturation(mainDraw) * shiftDraw
    ensures SaturationShift(scheme, mainDraw, shiftDraw) == drawn * SaturationFactor(scheme)
  {
  }

  /** GenerateSaturation as a whole. */
  function SaturationPass(p: seq<ColorHSL>, scheme: ColorScheme, adaptive: bool, mainDraw: real, shiftDraw: real): (q: seq<ColorHSL>)
    requires |p| == PaletteSize
    ensures |q| == PaletteSize
    ensures forall i :: 0 <= i < PaletteSize ==> q[i].h == p[i].h && q[i].l == p[i].l
  {
    var mainSaturation := MainSaturation(mainDraw);
    var shift := SaturationShift(scheme, mainDraw, shiftDraw);
    var q := GroupedSaturation(p, scheme, mainSaturation, shift);
    if adaptive then AdaptiveSaturation(q, mainSaturation, shift * 0.16) else q
  }

  /** g shifts of m * draw * factor stay below m when g * factor is at most 0.8 and the draw
      at most 1, so the clamp never reaches 0; more shifts leave strictly less. */
  lemma SaturationSteps(m: real, draw: real, factor: real, g: nat)
    requires 0.4 <= m <= 1.0 && 0.2 <= draw <= 1.0 && factor > 0.0
    requires g as real * factor <= 0.8
    ensures 0.0 < m - Steps(g, m * draw * factor) <= m
    ensures m * draw * factor > 0.0
  {
    var shift := m * draw * factor;
    MulStrict(0.0, m, draw);
    MulStrict(0.0, m * draw, factor);
    StepsIsProduct(g, shift);
    MulMonotone(draw, 1.0, m);
    MulMonotone(m * draw, m, factor);
    assert shift <= m * factor;
    MulMonotone(shift, m * factor, g as real);
    assert g as real * (m * factor) == (g as real * factor) * m;
    MulMonotone(g as real * factor, 0.8, m);
    MulNonNegative(g as real, shift);
  }

  /** The number of groups each scheme makes, less one, times its factor is at most 0.8. */
  lemma GroupFactorBound(scheme: ColorScheme, i: nat)
    requires scheme != Random && i < PaletteSize
    ensures SaturationGroup(scheme, i) as real * SaturationFactor(scheme) <= 0.8
  {
  }

  /** Without adaptive saturation, and with draws in the ranges of Random.Range, no saturation
      is clamped: entry i has the main saturation lowered by its group's number of shifts. */
  lemma SaturationUnclamped(p: seq<ColorHSL>, scheme: ColorScheme, mainDraw: real, shiftDraw: real)
    requires |p| == PaletteSize && scheme != Random
    requires 0.0 <= mainDraw <= 0.6 && 0.2 <= shiftDraw <= 1.0
    ensures SaturationShift(scheme, mainDraw, shiftDraw) > 0.0
    ensures forall i :: 0 <= i < PaletteSize ==>
      SaturationPass(p, scheme, false, mainDraw, shiftDraw)[i].s ==
        MainSaturation(mainDraw) - Steps(SaturationGroup(scheme, i), SaturationShift(scheme, mainDraw, shiftDraw))
  {
    var q := SaturationPass(p, scheme, false, mainDraw, shiftDraw);
    var m := MainSaturation(mainDraw);
    var factor := SaturationFactor(scheme);
    var shift := SaturationShift(scheme, mainDraw, shiftDraw);
    assert shift == m * shiftDraw * factor;
    assert q == GroupedSaturation(p, scheme, m, shift);
    SaturationSteps(m, shiftDraw, factor, 0);
    forall i | 0 <= i < PaletteSize
      ensures q[i].s == m - Steps(SaturationGroup(scheme, i), shift)
    {
      var g := SaturationGroup(scheme, i);
      assert q[i] == GroupedEntry(p[i], scheme, m, shift, i);
      GroupFactorBound(scheme, i);
      SaturationSteps(m, shiftDraw, factor, g);
      assert 0.0 < m - Steps(g, shift) <= 1.0;
    }
  }

  /** Without adaptive saturation, and with draws in the ranges of Random.Range: entry 0 has the
      main saturation 1 - draw, in [0.4, 1]; the saturation never rises along the palette; and
      two entries share a saturation exactly when they are in the same group (every entry, every
      pair, every triple). */
  lemma SaturationGroups(p: seq<ColorHSL>, scheme: ColorScheme, mainDraw: real, shiftDraw: real)
    requires |p| == PaletteSize && scheme != Random
    requires 0.0 <= mainDraw <= 0.6 && 0.2 <= shiftDraw <= 1.0
    ensures var q := SaturationPass(p, scheme, false, mainDraw, shiftDraw);
      q[0].s == 1.0 - mainDraw && 0.4 <= q[0].s <= 1.0
    ensures var q := SaturationPass(p, scheme, false, mainDraw, shiftDraw);
      forall i, j :: 0 <= i <= j < PaletteSize ==> q[j].s <= q[i].s
    ensures var q := SaturationPass(p, scheme, false, mainDraw, shiftDraw);
      forall i, j :: 0 <= i < PaletteSize && 0 <= j < PaletteSize ==>
        (q[i].s == q[j].s <==> SaturationGroup(scheme, i) == SaturationGroup(scheme, j))
  {
    var q := SaturationPass(p, scheme, false, mainDraw, shiftDraw);
    var shift := SaturationShift(scheme, mainDraw, shiftDraw);
    SaturationUnclamped(p, scheme, mainDraw, shiftDraw);
    assert SaturationGroup(scheme, 0) == 0;
    forall i, j | 0 <= i < PaletteSize && 0 <= j < PaletteSize
      ensures i <= j ==> q[j].s <= q[i].s
      ensures q[i].s == q[j].s <==> SaturationGroup(scheme, i) == SaturationGroup(scheme, j)
    {
      var gi, gj := SaturationGroup(scheme, i), SaturationGroup(scheme, j);
      assert i <= j ==> gi <= gj;
      if gi <= gj {
        StepsMonotone(gi, gj, shift);
      } else {
        StepsMonotone(gj, gi, shift);
      }
    }
  }

  /** With adaptive saturation, the saturation of every entry is its adaptive value computed
      from the lightness the entry holds when the pass runs. */
  lemma AdaptiveUsesLightness(p: seq<ColorHSL>, scheme: ColorScheme, mainDraw: real, shiftDraw: real)
    requires |p| == PaletteSize
    ensures var q := SaturationPass(p, scheme, true, mainDraw, shiftDraw);
      forall i :: 0 <= i < PaletteSize ==>
        q[i].l == p[i].l &&
        q[i].s == Clamp01(MainSaturation(mainDraw)
          - Steps(i, SaturationShift(scheme, mainDraw, shiftDraw) * 0.16) + Abs(p[i].l - 0.5))
  {
    var q := SaturationPass(p, scheme, true, mainDraw, shiftDraw);
    var g := GroupedSaturation(p, scheme, MainSaturation(mainDraw), SaturationShift(scheme, mainDraw, shiftDraw));
    assert q == AdaptiveSaturation(g, MainSaturation(mainDraw), SaturationShift(scheme, mainDraw, shiftDraw) * 0.16);
    forall i | 0 <= i < PaletteSize
      ensures q[i].l == p[i].l
      ensures q[i].s == Clamp01(MainSaturation(mainDraw)
          - Steps(i, SaturationShift(scheme, mainDraw, shiftDraw) * 0.16) + Abs(p[i].l - 0.5))
    {
      assert g[i].l == p[i].l;
    }
  }

  // Lightness.

  /** lightnessShift in each of the three modes, from the draw of Random.Range(0.2, 0.9): a share
      of the room above (lighten), below (darken) or on the nearer side (alternate) of the main
      lightness. For a main lightness in [0, 1] and a non-negative draw it is never negative,
      and it is zero when there is no room in the chosen direction. */
  function LightnessShift(mode: int, mainLightness: real, draw: real): (r: real)
    ensures 0.0 <= mainLightness <= 1.0 && draw >= 0.0 ==> r >= 0.0
    ensures mode == 0 && mainLightness == 1.0 ==> r == 0.0
    ensures mode == 1 && mainLightness == 0.0 ==> r == 0.0
  {
    ShareNonNegative(1.0 - mainLightness, draw);
    ShareNonNegative(mainLightness, draw);
    ShareNonNegative(Min(mainLightness, 1.0 - mainLightness), draw);
    if mode == 0 then (1.0 - mainLightness) * 0.15 * draw
    else if mode == 1 then mainLightness * 0.15 * draw
    else Min(mainLightness, 1.0 - mainLightness) * 0.15 * draw
  }

  /** A share 0.15 * draw of a non-negative room is never negative. */
  lemma ShareNonNegative(room: real, draw: real)
    ensures room >= 0.0 && draw >= 0.0 ==> room * 0.15 * draw >= 0.0
  {
    if room >= 0.0 && draw >= 0.0 {
      MulNonNegative(room * 0.15, draw);
    }
  }

  /** Entry i's lightness before clamping: lighten adds i shifts, darken takes i shifts away, and
      alternate gives pair k the main lightness plus and minus k shifts. Entry 0 has the
      main lightness in every mode; with a non-negative shift lighten never goes below it,
      darken never above it, and alternate puts even entries on or above it and odd ones
      on or below it. */
  function ModeLightness(mode: int, mainLightness: real, shift: real, i: nat): (r: real)
    ensures i == 0 ==> r == mainLightness
    ensures shift >= 0.0 && mode == 0 ==> r >= mainLightness
    ensures shift >= 0.0 && mode == 1 ==> r <= mainLightness
    ensures shift >= 0.0 && mode != 0 && mode != 1 ==>
      (i % 2 == 0 ==> r >= mainLightness) && (i % 2 == 1 ==> r <= mainLightness)
  {
    StepsMonotone(0, i, shift);
    StepsMonotone(0, i / 2, shift);
    if mode == 0 then mainLightness + Steps(i, shift)
    else if mode == 1 then mainLightness - Steps(i, shift)
    else if i % 2 == 0 then mainLightness + Steps(i / 2, shift)
    else mainLightness - Steps(i / 2, shift)
  }

  /** Entry i after GenerateLightness: its mode lightness, clamped. */
  function LightnessEntry(c: ColorHSL, mode: int, mainLightness: real, shift: real, i: nat): (r: ColorHSL)
    ensures r.h == c.h && r.s == c.s
  {
    SetL(c, Clamp01(ModeLightness(mode, mainLightness, shift, i)))
  }

  /** Every entry gets its mode lightness. */
  function ModePass(p: seq<ColorHSL>, mode: int, mainLightness: real, shift: real): (q: seq<ColorHSL>)
    requires |p| == PaletteSize
    ensures |q| == PaletteSize
    ensures forall i :: 0 <= i < PaletteSize ==> q[i].h == p[i].h && q[i].s == p[i].s
  {
    seq(PaletteSize, i requires 0 <= i < PaletteSize => LightnessEntry(p[i], mode, mainLightness, shift, i))
  }

  /** GenerateLightness: the mode drawn by Random.Range(0, 3) decides every entry's lightness; a
      mode outside 0 to 2 writes nothing. The colour scheme plays no part. */
  function LightnessPass(p: seq<ColorHSL>, mode: int, mainLightness: real, shiftDraw: real): (q: seq<ColorHSL>)
    requires |p| == PaletteSize
    ensures |q| == PaletteSize
    ensures forall i :: 0 <= i < PaletteSize ==> q[i].h == p[i].h && q[i].s == p[i].s
    ensures !(0 <= mode < 3) ==> q == p
  {
    if !(0 <= mode < 3) then p
    else ModePass(p, mode, mainLightness, LightnessShift(mode, mainLightness, shiftDraw))
  }

  /** k shifts of share * 0.15 * draw, with k at most 5 and the draw at most 0.9, stay below
      the room `share` they are taken from. */
  lemma LightnessSteps(share: real, draw: real, k: nat)
    requires share > 0.0 && 0.2 <= draw <= 0.9 && k <= 5
    ensures 0.0 < share * 0.15 * draw
    ensures 0.0 <= Steps(k, share * 0.15 * draw) < share
  {
    var shift := share * 0.15 * draw;
    MulStrict(0.0, draw, share);
    MulMonotone(draw, 0.9, share);
    assert shift == 0.15 * (draw * share);
    assert shift <= 0.135 * share;
    StepsMonotone(0, k, shift);
    StepsMonotone(k, 5, shift);
    StepsIsProduct(5, shift);
  }

  /** The room each mode takes its shift from: above, below, or on the nearer side of the main
      lightness. */
  function LightnessRoom(mode: int, mainLightness: real): real {
    if mode == 0 then 1.0 - mainLightness
    else if mode == 1 then mainLightness
    else Min(mainLightness, 1.0 - mainLightness)
  }

  /** With draws in the ranges of Random.Range (main lightness in [0.2, 0.8]), no lightness is
      clamped. */
  lemma LightnessUnclamped(p: seq<ColorHSL>, mode: int, mainLightness: real, shiftDraw: real)
    requires |p| == PaletteSize && 0 <= mode < 3
    requires 0.2 <= mainLightness <= 0.8 && 0.2 <= shiftDraw <= 0.9
    ensures LightnessShift(mode, mainLightness, shiftDraw) > 0.0
    ensures forall i :: 0 <= i < PaletteSize ==>
      LightnessPass(p, mode, mainLightness, shiftDraw)[i].l ==
        ModeLightness(mode, mainLightness, LightnessShift(mode, mainLightness, shiftDraw), i)
  {
    var q := LightnessPass(p, mode, mainLightness, shiftDraw);
    var shift := LightnessShift(mode, mainLightness, shiftDraw);
    var room := LightnessRoom(mode, mainLightness);
    assert shift == room * 0.15 * shiftDraw;
    assert q == ModePass(p, mode, mainLightness, shift);
    LightnessSteps(room, shiftDraw, 0);
    forall i | 0 <= i < PaletteSize
      ensures q[i].l == ModeLightness(mode, mainLightness, shift, i)
    {
      assert q[i] == LightnessEntry(p[i], mode, mainLightness, shift, i);
      var k := if mode == 2 then i / 2 else i;
      LightnessSteps(room, shiftDraw, k);
      assert 0.0 <= ModeLightness(mode, mainLightness, shift, i) <= 1.0;
    }
  }

  /** Lighten (mode 0) starts at the main lightness and never falls along the palette. */
  lemma LightenRises(p: seq<ColorHSL>, mainLightness: real, shiftDraw: real)
    requires |p| == PaletteSize
    requires 0.2 <= mainLightness <= 0.8 && 0.2 <= shiftDraw <= 0.9
    ensures var q := LightnessPass(p, 0, mainLightness, shiftDraw);
      q[0].l == mainLightness && forall i, j :: 0 <= i <= j < PaletteSize ==> q[i].l <= q[j].l
  {
    LightnessUnclamped(p, 0, mainLightness, shiftDraw);
    forall i, j | 0 <= i <= j < PaletteSize {
      StepsMonotone(i, j, LightnessShift(0, mainLightness, shiftDraw));
    }
  }

  /** Darken (mode 1) starts at the main lightness and never rises along the palette. */
  lemma DarkenFalls(p: seq<ColorHSL>, mainLightness: real, shiftDraw: real)
    requires |p| == PaletteSize
    requires 0.2 <= mainLightness <= 0.8 && 0.2 <= shiftDraw <= 0.9
    ensures var q := LightnessPass(p, 1, mainLightness, shiftDraw);
      q[0].l == mainLightness && forall i, j :: 0 <= i <= j < PaletteSize ==> q[j].l <= q[i].l
  {
    LightnessUnclamped(p, 1, mainLightness, shiftDraw);
    forall i, j | 0 <= i <= j < PaletteSize {
      StepsMonotone(i, j, LightnessShift(1, mainLightness, shiftDraw));
    }
  }

  /** The entries 2k and 2k + 1 form pair k, the even one first, and 3k to 3k + 2 form
      triple k. */
  lemma GroupIndices(k: nat)
    ensures (k * 2) % 2 == 0 && (k * 2) / 2 == k && (k * 2 + 1) % 2 == 1 && (k * 2 + 1) / 2 == k
    ensures (k * 3) / 3 == k && (k * 3 + 1) / 3 == k && (k * 3 + 2) / 3 == k
  {
  }

  /** Alternate (mode 2) gives the first pair the main lightness, and the two entries of every
      pair lightnesses whose mean is the main lightness, the even one above and the odd one
      below. */
  lemma AlternateBalances(p: seq<ColorHSL>, mainLightness: real, shiftDraw: real)
    requires |p| == PaletteSize
    requires 0.2 <= mainLightness <= 0.8 && 0.2 <= shiftDraw <= 0.9
    ensures var q := LightnessPass(p, 2, mainLightness, shiftDraw);
      q[0].l == mainLightness && q[1].l == mainLightness
    ensures var q := LightnessPass(p, 2, mainLightness, shiftDraw);
      forall k :: 0 <= k < PaletteSize / 2 ==>
        q[2 * k + 1].l <= mainLightness <= q[2 * k].l && q[2 * k].l + q[2 * k + 1].l == 2.0 * mainLightness
  {
    var q := LightnessPass(p, 2, mainLightness, shiftDraw);
    var shift := LightnessShift(2, mainLightness, shiftDraw);
    LightnessUnclamped(p, 2, mainLightness, shiftDraw);
    assert q[0].l == ModeLightness(2, mainLightness, shift, 0);
    assert q[1].l == ModeLightness(2, mainLightness, shift, 1);
    forall k | 0 <= k < PaletteSize / 2
      ensures q[2 * k + 1].l <= mainLightness <= q[2 * k].l && q[2 * k].l + q[2 * k + 1].l == 2.0 * mainLightness
    {
      GroupIndices(k);
      var up, down := ModeLightness(2, mainLightness, shift, 2 * k), ModeLightness(2, mainLightness, shift, 2 * k + 1);
      assert up == mainLightness + Steps(k, shift);
      assert down == mainLightness - Steps(k, shift);
      StepsMonotone(0, k, shift);
      assert q[2 * k].l == up && q[2 * k + 1].l == down;
    }
  }

  // A whole new palette.

  /** All draws NewColorPalette makes, in the order the code makes them. */
  datatype Draws = Draws(
    scheme: int,
    mainHue: real, hueShiftDraw: real,
    mainLightness: real, lightnessMode: int, lightnessShiftDraw: real,
    mainSaturationDraw: real, saturationShiftDraw: real)

  /** The ranges Random.Range gives each draw, for the scheme the palette is generated with. */
  predicate DrawsInRange(d: Draws, scheme: ColorScheme) {
    0 <= d.scheme < 5 &&
    0.0 <= d.mainHue <= 1.0 && HueDrawInRange(scheme, d.hueShiftDraw) &&
    0.2 <= d.mainLightness <= 0.8 && 0 <= d.lightnessMode < 3 && 0.2 <= d.lightnessShiftDraw <= 0.9 &&
    0.0 <= d.mainSaturationDraw <= 0.6 && 0.2 <= d.saturationShiftDraw <= 1.0
  }

  /** NewColorPalette: hue, then lightness, then saturation, with the resolved scheme. */
  function NewPalette(p: seq<ColorHSL>, scheme: ColorScheme, adaptive: bool, d: Draws): (q: seq<ColorHSL>)
    requires |p| == PaletteSize && 0 <= d.scheme < 5
    ensures |q| == PaletteSize
  {
    var s := Resolve(scheme, d.scheme);
    var withHue := HuePass(p, s, d.mainHue, HueShift(s, d.hueShiftDraw));
    var withLightness := LightnessPass(withHue, d.lightnessMode, d.mainLightness, d.lightnessShiftDraw);
    SaturationPass(withLightness, s, adaptive, d.mainSaturationDraw, d.saturationShiftDraw)
  }

  /** Entry i of a new palette does not depend on the previous palette, and is valid. */
  lemma NewPaletteEntry(p: seq<ColorHSL>, p': seq<ColorHSL>, scheme: ColorScheme, adaptive: bool, d: Draws, i: nat)
    requires |p| == PaletteSize && |p'| == PaletteSize
    requires 0 <= d.scheme < 5 && 0 <= d.lightnessMode < 3 && i < PaletteSize
    ensures NewPalette(p, scheme, adaptive, d)[i] == NewPalette(p', scheme, adaptive, d)[i]
    ensures NewPalette(p, scheme, adaptive, d)[i].Valid()
  {
    var s := Resolve(scheme, d.scheme);
    var q, q' := NewPalette(p, scheme, adaptive, d), NewPalette(p', scheme, adaptive, d);
    var h, h' := HuePass(p, s, d.mainHue, HueShift(s, d.hueShiftDraw)), HuePass(p', s, d.mainHue, HueShift(s, d.hueShiftDraw));
    var l, l' := LightnessPass(h, d.lightnessMode, d.mainLightness, d.lightnessShiftDraw),
      LightnessPass(h', d.lightnessMode, d.mainLightness, d.lightnessShiftDraw);
    var m := MainSaturation(d.mainSaturationDraw);
    var shift := SaturationShift(s, d.mainSaturationDraw, d.saturationShiftDraw);
    var g, g' := GroupedSaturation(l, s, m, shift), GroupedSaturation(l', s, m, shift);
    var hue := Repeat(SchemeHue(s, d.mainHue, HueShift(s, d.hueShiftDraw), i), 1.0);
    assert h[i].h == hue && h'[i].h == hue;
    var light := Clamp01(ModeLightness(d.lightnessMode, d.mainLightness,
      LightnessShift(d.lightnessMode, d.mainLightness, d.lightnessShiftDraw), i));
    assert l[i].l == light && l'[i].l == light;
    var grouped := Clamp01(m - Steps(SaturationGroup(s, i), shift));
    assert g[i] == ColorHSL(hue, grouped, light) && g'[i] == g[i];
    if adaptive {
      assert q[i] == AdaptiveSaturation(g, m, shift * 0.16)[i];
      assert q'[i] == AdaptiveSaturation(g', m, shift * 0.16)[i];
    }
  }

  /** A new palette overwrites every component of every entry: it is a valid palette that does
      not depend on the previous one. */
  lemma NewPaletteOverwrites(p: seq<ColorHSL>, p': seq<ColorHSL>, scheme: ColorScheme, adaptive: bool, d: Draws)
    requires |p| == PaletteSize && |p'| == PaletteSize
    requires 0 <= d.scheme < 5 && 0 <= d.lightnessMode < 3
    ensures NewPalette(p, scheme, adaptive, d) == NewPalette(p', scheme, adaptive, d)
    ensures forall i :: 0 <= i < PaletteSize ==> NewPalette(p, scheme, adaptive, d)[i].Valid()
  {
    forall i | 0 <= i < PaletteSize
      ensures NewPalette(p, scheme, adaptive, d)[i] == NewPalette(p', scheme, adaptive, d)[i]
      ensures NewPalette(p, scheme, adaptive, d)[i].Valid()
    {
      NewPaletteEntry(p, p', scheme, adaptive, d, i);
    }
  }

  /** With adaptive saturation, the saturation of each entry of a new palette follows the
      lightness the same palette ends up with: the lightness pass runs first. */
  lemma NewPaletteAdaptive(p: seq<ColorHSL>, scheme: ColorScheme, d: Draws)
    requires |p| == PaletteSize && 0 <= d.scheme < 5
    ensures var s := Resolve(scheme, d.scheme);
      var q := NewPalette(p, scheme, true, d);
      forall i :: 0 <= i < PaletteSize ==>
        q[i].s == Clamp01(MainSaturation(d.mainSaturationDraw)
          - Steps(i, SaturationShift(s, d.mainSaturationDraw, d.saturationShiftDraw) * 0.16) + Abs(q[i].l - 0.5))
  {
    var s := Resolve(scheme, d.scheme);
    var h := HuePass(p, s, d.mainHue, HueShift(s, d.hueShiftDraw));
    var l := LightnessPass(h, d.lightnessMode, d.mainLightness, d.lightnessShiftDraw);
    AdaptiveUsesLightness(l, s, d.mainSaturationDraw, d.saturationShiftDraw);
  }

  /** With every draw in the range Random.Range gives it, and without adaptive saturation, a
      new palette is valid and starts at the drawn main lightness and at main saturation
      1 - draw. Its lightness rises (lighten), falls (darken) or balances in pairs about the
      main lightness (alternate), as the drawn mode says. Its saturation never rises, and two
      entries share one exactly when they are in the same group of the resolved scheme. */
  lemma NewPaletteInRange(p: seq<ColorHSL>, scheme: ColorScheme, d: Draws)
    requires |p| == PaletteSize && 0 <= d.scheme < 5 && DrawsInRange(d, Resolve(scheme, d.scheme))
    ensures var q := NewPalette(p, scheme, false, d);
      (forall i :: 0 <= i < PaletteSize ==> q[i].Valid()) &&
      q[0].l == d.mainLightness && q[0].s == 1.0 - d.mainSaturationDraw
    ensures var q := NewPalette(p, scheme, false, d);
      d.lightnessMode == 0 ==> forall i, j :: 0 <= i <= j < PaletteSize ==> q[i].l <= q[j].l
    ensures var q := NewPalette(p, scheme, false, d);
      d.lightnessMode == 1 ==> forall i, j :: 0 <= i <= j < PaletteSize ==> q[j].l <= q[i].l
    ensures var q := NewPalette(p, scheme, false, d);
      d.lightnessMode == 2 ==> forall k :: 0 <= k < PaletteSize / 2 ==>
        q[2 * k + 1].l <= d.mainLightness <= q[2 * k].l && q[2 * k].l + q[2 * k + 1].l == 2.0 * d.mainLightness
    ensures var q := NewPalette(p, scheme, false, d);
      forall i, j :: 0 <= i <= j < PaletteSize ==> q[j].s <= q[i].s
    ensures var q := NewPalette(p, scheme, false, d); var s := Resolve(scheme, d.scheme);
      forall i, j :: 0 <= i < PaletteSize && 0 <= j < PaletteSize ==>
        (q[i].s == q[j].s <==> SaturationGroup(s, i) == SaturationGroup(s, j))
  {
    var s := Resolve(scheme, d.scheme);
    var h := HuePass(p, s, d.mainHue, HueShift(s, d.hueShiftDraw));
    var l := LightnessPass(h, d.lightnessMode, d.mainLightness, d.lightnessShiftDraw);
    var q := NewPalette(p, scheme, false, d);
    assert q == SaturationPass(l, s, false, d.mainSaturationDraw, d.saturationShiftDraw);
    NewPaletteOverwrites(p, p, scheme, false, d);
    SaturationGroups(l, s, d.mainSaturationDraw, d.saturationShiftDraw);
    if d.lightnessMode == 0 {
      LightenRises(h, d.mainLightness, d.lightnessShiftDraw);
    } else if d.lightnessMode == 1 {
      DarkenFalls(h, d.mainLightness, d.lightnessShiftDraw);
    } else {
      AlternateBalances(h, d.mainLightness, d.lightnessShiftDraw);
    }
  }

  // What one turn of each loop writes, in the source's own arithmetic, is the entry the
  // passes above describe.

  lemma SteppedHueWrite(c: ColorHSL, scheme: ColorScheme, mainHue: real, hueShift: real, i: nat)
    requires scheme == Analogous || scheme == Complementary || scheme == Triadic
    ensures SetH(c, Repeat(mainHue + i as real * hueShift, 1.0)) == HueEntry(c, scheme, mainHue, hueShift, i)
  {
    var x := mainHue + i as real * hueShift;
    assert x == SchemeHue(scheme, mainHue, hueShift, i) by {
      StepsIsProduct(i, hueShift);
    }
  }

  lemma TetradicHueWrite(c: ColorHSL, mainHue: real, hueShift: real, i: nat)
    ensures SetH(c, Repeat(mainHue + (i % 2) as real * hueShift - ((i % 2) - 1) as real * 0.5, 1.0))
      == HueEntry(c, Tetradic, mainHue, hueShift, i)
  {
    var x := mainHue + (i % 2) as real * hueShift - ((i % 2) - 1) as real * 0.5;
    assert x == SchemeHue(Tetradic, mainHue, hueShift, i) by {
      StepsIsProduct(i % 2, hueShift);
    }
  }

  lemma SplitHueWrite(c: ColorHSL, mainHue: real, hueShift: real, i: nat)
    requires i >= 1
    ensures SetH(c, Repeat(mainHue + (i - 3) as real * hueShift, 1.0))
      == HueEntry(c, SplitComplementary, mainHue, hueShift, i)
  {
    var x := mainHue + (i - 3) as real * hueShift;
    assert x == SchemeHue(SplitComplementary, mainHue, hueShift, i) by {
      TimesIsProduct(i - 3, hueShift);
    }
  }

  lemma GroupedWrite(c: ColorHSL, scheme: ColorScheme, mainSaturation: real, shift: real, k: nat, i: nat)
    requires SaturationGroup(scheme, i) == k
    ensures SetS(c, Clamp01(mainSaturation - shift * k as real)) == GroupedEntry(c, scheme, mainSaturation, shift, i)
  {
    var x := mainSaturation - shift * k as real;
    assert x == mainSaturation - Steps(k, shift) by {
      StepsIsProduct(k, shift);
    }
  }

  lemma AdaptiveWrite(c: ColorHSL, mainSaturation: real, shift: real, i: nat)
    ensures SetS(c, Clamp01(mainSaturation - shift * i as real + Abs(c.l - 0.5)))
      == AdaptiveEntry(c, mainSaturation, shift, i)
  {
    var x := mainSaturation - shift * i as real;
    assert x == mainSaturation - Steps(i, shift) by {
      StepsIsProduct(i, shift);
    }
  }

  lemma LightenWrite(c: ColorHSL, mainLightness: real, shift: real, i: nat)
    ensures SetL(c, Clamp01(mainLightness + shift * i as real)) == LightnessEntry(c, 0, mainLightness, shift, i)
  {
    var x := mainLightness + shift * i as real;
    assert x == mainLightness + Steps(i, shift) by {
      StepsIsProduct(i, shift);
    }
  }

  lemma DarkenWrite(c: ColorHSL, mainLightness: real, shift: real, i: nat)
    ensures SetL(c, Clamp01(mainLightness - shift * i as real)) == LightnessEntry(c, 1, mainLightness, shift, i)
  {
    var x := mainLightness - shift * i as real;
    assert x == mainLightness - Steps(i, shift) by {
      StepsIsProduct(i, shift);
    }
  }

  lemma AlternateWrite(c: ColorHSL, c': ColorHSL, mainLightness: real, shift: real, k: nat)
    ensures SetL(c, Clamp01(mainLightness + shift * k as real)) == LightnessEntry(c, 2, mainLightness, shift, k * 2)
    ensures SetL(c', Clamp01(mainLightness - shift * k as real)) == LightnessEntry(c', 2, mainLightness, shift, k * 2 + 1)
  {
    GroupIndices(k);
    var x := shift * k as real;
    assert x == Steps(k, shift) by {
      StepsIsProduct(k, shift);
    }
  }

  /** The MonoBehaviour: the chosen scheme, the adaptive-saturation switch and the palette it
      rewrites on every update. */
  class PaletteUsingRandoms {
    var colorScheme: ColorScheme
    var adaptiveSaturation: bool
    const colorPalette: array<ColorHSL>

    /** The inspector defaults: scheme Random, no adaptive saturation, the starting palette. */
    constructor()
      ensures colorScheme == Random && !adaptiveSaturation
      ensures fresh(colorPalette) && colorPalette[..] == StartingPalette()
    {
      colorScheme := Random;
      adaptiveSaturation := false;
      colorPalette := new ColorHSL[PaletteSize](_ => FromHSL(0.0, 0.95, 0.5));
    }

    /** Sets every hue for `scheme`, from a main hue and a hue-shift draw. */
    method GenerateHue(scheme: ColorScheme, mainHue: real, shiftDraw: real)
      requires colorPalette.Length == PaletteSize
      modifies colorPalette
      ensures colorPalette[..] == HuePass(old(colorPalette[..]), scheme, mainHue, HueShift(scheme, shiftDraw))
    {
      var hueShift := HueShift(scheme, shiftDraw);
      match scheme {
        case Analogous | Complementary | Triadic =>
          StepHues(scheme, mainHue, hueShift);
        case Tetradic =>
          TetradicHues(mainHue, hueShift);
        case SplitComplementary =>
          SplitHues(mainHue, hueShift);
        case Random =>
      }
    }

    /** The hue loop of Analogous, Complementary and Triadic: entry i is turned i shifts. */
    method StepHues(scheme: ColorScheme, mainHue: real, hueShift: real)
      requires colorPalette.Length == PaletteSize
      requires scheme == Analogous || scheme == Complementary || scheme == Triadic
      modifies colorPalette
      ensures colorPalette[..] == HuePass(old(colorPalette[..]), scheme, mainHue, hueShift)
    {
      ghost var p := colorPalette[..];
      ghost var q := HuePass(p, scheme, mainHue, hueShift);
      for i := 0 to PaletteSize
        invariant forall j :: 0 <= j < i ==> colorPalette[j] == q[j]
        invariant forall j :: i <= j < PaletteSize ==> colorPalette[j] == p[j]
      {
        SteppedHueWrite(colorPalette[i], scheme, mainHue, hueShift, i);
        colorPalette[i] := SetH(colorPalette[i], Repeat(mainHue + i as real * hueShift, 1.0));
      }
    }

    /** The hue loop of Tetradic: the complement at even entries, one shift at odd ones. */
    method TetradicHues(mainHue: real, hueShift: real)
      requires colorPalette.Length == PaletteSize
      modifies colorPalette
      ensures colorPalette[..] == HuePass(old(colorPalette[..]), Tetradic, mainHue, hueShift)
    {
      ghost var p := colorPalette[..];
      ghost var q := HuePass(p, Tetradic, mainHue, hueShift);
      for i := 0 to PaletteSize
        invariant forall j :: 0 <= j < i ==> colorPalette[j] == q[j]
        invariant forall j :: i <= j < PaletteSize ==> colorPalette[j] == p[j]
      {
        TetradicHueWrite(colorPalette[i], mainHue, hueShift, i);
        colorPalette[i] := SetH(colorPalette[i], Repeat(mainHue + (i % 2) as real * hueShift - ((i % 2) - 1) as real * 0.5, 1.0));
      }
    }

    /** The hues of SplitComplementary: the complement at entry 0, then entries 1 to 5 turned
        i - 3 shifts. */
    method SplitHues(mainHue: real, hueShift: real)
      requires colorPalette.Length == PaletteSize
      modifies colorPalette
      ensures colorPalette[..] == HuePass(old(colorPalette[..]), SplitComplementary, mainHue, hueShift)
    {
      ghost var p := colorPalette[..];
      ghost var q := HuePass(p, SplitComplementary, mainHue, hueShift);
      colorPalette[0] := SetH(colorPalette[0], Repeat(mainHue + 0.5, 1.0));
      for i := 1 to PaletteSize
        invariant forall j :: 0 <= j < i ==> colorPalette[j] == q[j]
        invariant forall j :: i <= j < PaletteSize ==> colorPalette[j] == p[j]
      {
        SplitHueWrite(colorPalette[i], mainHue, hueShift, i);
        colorPalette[i] := SetH(colorPalette[i], Repeat(mainHue + (i - 3) as real * hueShift, 1.0));
      }
    }

    /** Sets every saturation for `scheme`, then, when adaptive saturation is on, once more from
        each entry's lightness. */
    method GenerateSaturation(scheme: ColorScheme, mainDraw: real, shiftDraw: real)
      requires colorPalette.Length == PaletteSize
      modifies colorPalette
      ensures colorPalette[..] == SaturationPass(old(colorPalette[..]), scheme, adaptiveSaturation, mainDraw, shiftDraw)
    {
      ghost var p := colorPalette[..];
      var mainSaturation := 1.0 - mainDraw;
      var saturationShift := mainSaturation * shiftDraw;
      ScaledShift(scheme, mainDraw, shiftDraw, saturationShift);
      saturationShift := LowerSaturation(scheme, mainSaturation, saturationShift);
      ghost var q := GroupedSaturation(p, scheme, mainSaturation, saturationShift);
      assert SaturationPass(p, scheme, false, mainDraw, shiftDraw) == q;
      assert SaturationPass(p, scheme, true, mainDraw, shiftDraw) == AdaptiveSaturation(q, mainSaturation, saturationShift * 0.16);
      if adaptiveSaturation {
        saturationShift := saturationShift * 0.16;
        AdaptSaturation(mainSaturation, saturationShift);
      }
    }

    /** The scheme switch of GenerateSaturation: scales the shift by the scheme's factor and
        runs the scheme's saturation loop; Random leaves both alone. */
    method LowerSaturation(scheme: ColorScheme, mainSaturation: real, saturationShift: real) returns (scaled: real)
      requires colorPalette.Length == PaletteSize
      modifies colorPalette
      ensures scaled == saturationShift * SaturationFactor(scheme)
      ensures colorPalette[..] == GroupedSaturation(old(colorPalette[..]), scheme, mainSaturation, scaled)
    {
      scaled := saturationShift;
      match scheme {
        case Analogous | SplitComplementary =>
          scaled := scaled * 0.16;
          LowerPerEntry(scheme, mainSaturation, scaled);
        case Complementary | Tetradic =>
          scaled := scaled * 0.33;
          LowerPerPair(scheme, mainSaturation, scaled);
        case Triadic =>
          scaled := scaled * 0.5;
          LowerPerTriple(mainSaturation, scaled);
        case Random =>
      }
    }

    /** The saturation loop of Analogous and SplitComplementary: one step per entry. */
    method LowerPerEntry(scheme: ColorScheme, mainSaturation: real, saturationShift: real)
      requires colorPalette.Length == PaletteSize
      requires scheme == Analogous || scheme == SplitComplementary
      modifies colorPalette
      ensures colorPalette[..] == GroupedSaturation(old(colorPalette[..]), scheme, mainSaturation, saturationShift)
    {
      ghost var p := colorPalette[..];
      ghost var q := GroupedSaturation(p, scheme, mainSaturation, saturationShift);
      for i := 0 to PaletteSize
        invariant forall j :: 0 <= j < i ==> colorPalette[j] == q[j]
        invariant forall j :: i <= j < PaletteSize ==> colorPalette[j] == p[j]
      {
        GroupedWrite(colorPalette[i], scheme, mainSaturation, saturationShift, i, i);
        colorPalette[i] := SetS(colorPalette[i], Clamp01(mainSaturation - saturationShift * i as real));
      }
    }

    /** The saturation loop of Complementary and Tetradic: one step per pair of entries. */
    method LowerPerPair(scheme: ColorScheme, mainSaturation: real, saturationShift: real)
      requires colorPalette.Length == PaletteSize
      requires scheme == Complementary || scheme == Tetradic
      modifies colorPalette
      ensures colorPalette[..] == GroupedSaturation(old(colorPalette[..]), scheme, mainSaturation, saturationShift)
    {
      ghost var p := colorPalette[..];
      ghost var q := GroupedSaturation(p, scheme, mainSaturation, saturationShift);
      for i := 0 to 3
        invariant forall j :: 0 <= j < i * 2 ==> colorPalette[j] == q[j]
        invariant forall j :: i * 2 <= j < PaletteSize ==> colorPalette[j] == p[j]
      {
        GroupIndices(i);
        assert q[i * 2] == GroupedEntry(p[i * 2], scheme, mainSaturation, saturationShift, i * 2);
        assert q[i * 2 + 1] == GroupedEntry(p[i * 2 + 1], scheme, mainSaturation, saturationShift, i * 2 + 1);
        GroupedWrite(colorPalette[i * 2], scheme, mainSaturation, saturationShift, i, i * 2);
        GroupedWrite(colorPalette[i * 2 + 1], scheme, mainSaturation, saturationShift, i, i * 2 + 1);
        colorPalette[i * 2] := SetS(colorPalette[i * 2], Clamp01(mainSaturation - saturationShift * i as real));
        colorPalette[i * 2 + 1] := SetS(colorPalette[i * 2 + 1], Clamp01(mainSaturation - saturationShift * i as real));
      }
    }

    /** The saturation loop of Triadic: one step per triple of entries. */
    method LowerPerTriple(mainSaturation: real, saturationShift: real)
      requires colorPalette.Length == PaletteSize
      modifies colorPalette
      ensures colorPalette[..] == GroupedSaturation(old(colorPalette[..]), Triadic, mainSaturation, saturationShift)
    {
      ghost var p := colorPalette[..];
      ghost var q := GroupedSaturation(p, Triadic, mainSaturation, saturationShift);
      for i := 0 to 2
        invariant forall j :: 0 <= j < i * 3 ==> colorPalette[j] == q[j]
        invariant forall j :: i * 3 <= j < PaletteSize ==> colorPalette[j] == p[j]
      {
        GroupIndices(i);
        assert q[i * 3] == GroupedEntry(p[i * 3], Triadic, mainSaturation, saturationShift, i * 3);
        assert q[i * 3 + 1] == GroupedEntry(p[i * 3 + 1], Triadic, mainSaturation, saturationShift, i * 3 + 1);
        assert q[i * 3 + 2] == GroupedEntry(p[i * 3 + 2], Triadic, mainSaturation, saturationShift, i * 3 + 2);
        GroupedWrite(colorPalette[i * 3], Triadic, mainSaturation, saturationShift, i, i * 3);
        GroupedWrite(colorPalette[i * 3 + 1], Triadic, mainSaturation, saturationShift, i, i * 3 + 1);
        GroupedWrite(colorPalette[i * 3 + 2], Triadic, mainSaturation, saturationShift, i, i * 3 + 2);
        colorPalette[i * 3] := SetS(colorPalette[i * 3], Clamp01(mainSaturation - saturationShift * i as real));
        colorPalette[i * 3 + 1] := SetS(colorPalette[i * 3 + 1], Clamp01(mainSaturation - saturationShift * i as real));
        colorPalette[i * 3 + 2] := SetS(colorPalette[i * 3 + 2], Clamp01(mainSaturation - saturationShift * i as real));
      }
    }

    /** The adaptive-saturation loop: each entry's saturation from its own lightness. */
    method AdaptSaturation(mainSaturation: real, saturationShift: real)
      requires colorPalette.Length == PaletteSize
      modifies colorPalette
      ensures colorPalette[..] == AdaptiveSaturation(old(colorPalette[..]), mainSaturation, saturationShift)
    {
      ghost var p := colorPalette[..];
      ghost var q := AdaptiveSaturation(p, mainSaturation, saturationShift);
      for i := 0 to PaletteSize
        invariant forall j :: 0 <= j < i ==> colorPalette[j] == q[j]
        invariant forall j :: i <= j < PaletteSize ==> colorPalette[j] == p[j]
      {
        AdaptiveWrite(colorPalette[i], mainSaturation, saturationShift, i);
        colorPalette[i] := SetS(colorPalette[i],
          Clamp01(mainSaturation - saturationShift * i as real + Abs(colorPalette[i].l - 0.5)));
      }
    }

    /** Sets every lightness in the drawn mode; the scheme is not consulted. */
    method GenerateLightness(scheme: ColorScheme, mainLightness: real, mode: int, shiftDraw: real)
      requires colorPalette.Length == PaletteSize
      modifies colorPalette
      ensures colorPalette[..] == LightnessPass(old(colorPalette[..]), mode, mainLightness, shiftDraw)
    {
      var lightnessShift: real;
      if mode == 0 {
        lightnessShift := (1.0 - mainLightness) * 0.15 * shiftDraw;
        Lighten(mainLightness, lightnessShift);
      } else if mode == 1 {
        lightnessShift := mainLightness * 0.15 * shiftDraw;
        Darken(mainLightness, lightnessShift);
      } else if mode == 2 {
        lightnessShift := Min(mainLightness, 1.0 - mainLightness) * 0.15 * shiftDraw;
        Alternate(mainLightness, lightnessShift);
      }
    }

    /** The lighten loop: entry i gets the main lightness plus i shifts. */
    method Lighten(mainLightness: real, lightnessShift: real)
      requires colorPalette.Length == PaletteSize
      modifies colorPalette
      ensures colorPalette[..] == ModePass(old(colorPalette[..]), 0, mainLightness, lightnessShift)
    {
      ghost var p := colorPalette[..];
      ghost var q := ModePass(p, 0, mainLightness, lightnessShift);
      for i := 0 to PaletteSize
        invariant forall j :: 0 <= j < i ==> colorPalette[j] == q[j]
        invariant forall j :: i <= j < PaletteSize ==> colorPalette[j] == p[j]
      {
        LightenWrite(colorPalette[i], mainLightness, lightnessShift, i);
        colorPalette[i] := SetL(colorPalette[i], Clamp01(mainLightness + lightnessShift * i as real));
      }
    }

    /** The darken loop: entry i gets the main lightness minus i shifts. */
    method Darken(mainLightness: real, lightnessShift: real)
      requires colorPalette.Length == PaletteSize
      modifies colorPalette
      ensures colorPalette[..] == ModePass(old(colorPalette[..]), 1, mainLightness, lightnessShift)
    {
      ghost var p := colorPalette[..];
      ghost var q := ModePass(p, 1, mainLightness, lightnessShift);
      for i := 0 to PaletteSize
        invariant forall j :: 0 <= j < i ==> colorPalette[j] == q[j]
        invariant forall j :: i <= j < PaletteSize ==> colorPalette[j] == p[j]
      {
        DarkenWrite(colorPalette[i], mainLightness, lightnessShift, i);
        colorPalette[i] := SetL(colorPalette[i], Clamp01(mainLightness - lightnessShift * i as real));
      }
    }

    /** The alternating loop: pair k gets the main lightness plus and minus k shifts. */
    method Alternate(mainLightness: real, lightnessShift: real)
      requires colorPalette.Length == PaletteSize
      modifies colorPalette
      ensures colorPalette[..] == ModePass(old(colorPalette[..]), 2, mainLightness, lightnessShift)
    {
      ghost var p := colorPalette[..];
      ghost var q := ModePass(p, 2, mainLightness, lightnessShift);
      for i := 0 to 3
        invariant forall j :: 0 <= j < i * 2 ==> colorPalette[j] == q[j]
        invariant forall j :: i * 2 <= j < PaletteSize ==> colorPalette[j] == p[j]
      {
        assert q[i * 2] == LightnessEntry(p[i * 2], 2, mainLightness, lightnessShift, i * 2);
        assert q[i * 2 + 1] == LightnessEntry(p[i * 2 + 1], 2, mainLightness, lightnessShift, i * 2 + 1);
        AlternateWrite(colorPalette[i * 2], colorPalette[i * 2 + 1], mainLightness, lightnessShift, i);
        colorPalette[i * 2] := SetL(colorPalette[i * 2], Clamp01(mainLightness + lightnessShift * i as real));
        colorPalette[i * 2 + 1] := SetL(colorPalette[i * 2 + 1], Clamp01(mainLightness - lightnessShift * i as real));
      }
    }

    /** Generates a new palette: resolves Random to a drawn scheme, then sets hue, lightness and
        saturation in that order. */
    method NewColorPalette(d: Draws)
      requires colorPalette.Length == PaletteSize
      requires 0 <= d.scheme < 5
      modifies colorPalette
      ensures colorPalette[..] == NewPalette(old(colorPalette[..]), colorScheme, adaptiveSaturation, d)
    {
      if colorScheme == Random {
        var randomScheme := SchemeOf(d.scheme);
        GenerateHue(randomScheme, d.mainHue, d.hueShiftDraw);
        GenerateLightness(randomScheme, d.mainLightness, d.lightnessMode, d.lightnessShiftDraw);
        GenerateSaturation(randomScheme, d.mainSaturationDraw, d.saturationShiftDraw);
      } else {
        GenerateHue(colorScheme, d.mainHue, d.hueShiftDraw);
        GenerateLightness(colorScheme, d.mainLightness, d.lightnessMode, d.lightnessShiftDraw);
        GenerateSaturation(colorScheme, d.mainSaturationDraw, d.saturationShiftDraw);
      }
    }
  }
}
