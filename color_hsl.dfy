/**
 * The ColorHSL struct: a colour held as hue, saturation and lightness, with its
 * normalising constructors and property setters, the HSV-to-HSL step of its
 * conversion from RGB, the post-processing of its conversion to RGB, and the
 * interpolation that takes the shorter way round the hue circle.
 *
 * ColorHSL is a value type (a C# struct), so it is a datatype here; a property
 * setter on a struct variable replaces that variable's value, so each setter is a
 * function from the old value to the new one.
 */
module HSLColor {
  import opened UnityMath

  /** The struct's three private fields `_h`, `_s` and `_l`. */
  datatype ColorHSL = ColorHSL(h: real, s: real, l: real) {
    /** What every constructor and setter establishes: hue in [0, 1), saturation and
        lightness in [0, 1]. */
    predicate Valid() {
      0.0 <= h < 1.0 && 0.0 <= s <= 1.0 && 0.0 <= l <= 1.0
    }
  }

  /** The hue, saturation and value that Unity's Color.RGBToHSV returns for a colour. */
  datatype HSV = HSV(h: real, s: real, v: real)

  /** What RGBToHSV promises for a colour with channels in [0, 1]. */
  predicate HsvInRange(c: HSV) {
    0.0 <= c.h < 1.0 && 0.0 <= c.s <= 1.0 && 0.0 <= c.v <= 1.0
  }

  /** An RGB triple (the r, g, b channels of a Unity Color). */
  datatype RGB = RGB(r: real, g: real, b: real)

  predicate RgbInRange(c: RGB) {
    0.0 <= c.r <= 1.0 && 0.0 <= c.g <= 1.0 && 0.0 <= c.b <= 1.0
  }

  /** `new ColorHSL(h, s, l)`: hue wraps round the circle, s and l are clamped. */
  function FromHSL(h: real, s: real, l: real): (c: ColorHSL)
    ensures c.Valid()
    ensures c.h == h - h.Floor as real
    ensures 0.0 <= h < 1.0 ==> c.h == h
    ensures 0.0 <= s <= 1.0 ==> c.s == s
    ensures s < 0.0 ==> c.s == 0.0
    ensures s > 1.0 ==> c.s == 1.0
    ensures 0.0 <= l <= 1.0 ==> c.l == l
    ensures l < 0.0 ==> c.l == 0.0
    ensures l > 1.0 ==> c.l == 1.0
  {
    WrapRange(h);
    ColorHSL(Repeat(h, 1.0), Clamp01(s), Clamp01(l))
  }

  /** The `h` setter: wraps the hue and leaves s and l as they were. */
  function SetH(c: ColorHSL, value: real): (r: ColorHSL)
    ensures 0.0 <= r.h < 1.0 && r.s == c.s && r.l == c.l
    ensures r.h == value - value.Floor as real
    ensures 0.0 <= value < 1.0 ==> r.h == value
    ensures c.Valid() ==> r.Valid()
  {
    WrapRange(value);
    c.(h := Repeat(value, 1.0))
  }

  /** The `s` setter: clamps the saturation and leaves h and l as they were. */
  function SetS(c: ColorHSL, value: real): (r: ColorHSL)
    ensures 0.0 <= r.s <= 1.0 && r.h == c.h && r.l == c.l
    ensures 0.0 <= value <= 1.0 ==> r.s == value
    ensures value < 0.0 ==> r.s == 0.0
    ensures value > 1.0 ==> r.s == 1.0
    ensures c.Valid() ==> r.Valid()
  {
    c.(s := Clamp01(value))
  }

  /** The `l` setter: clamps the lightness and leaves h and s as they were. */
  function SetL(c: ColorHSL, value: real): (r: ColorHSL)
    ensures 0.0 <= r.l <= 1.0 && r.h == c.h && r.s == c.s
    ensures 0.0 <= value <= 1.0 ==> r.l == value
    ensures value < 0.0 ==> r.l == 0.0
    ensures value > 1.0 ==> r.l == 1.0
    ensures c.Valid() ==> r.Valid()
  {
    c.(l := Clamp01(value))
  }

  /** Writing back a component just read changes nothing. */
  lemma SetReadBack(c: ColorHSL)
    requires c.Valid()
    ensures SetH(c, c.h) == c && SetS(c, c.s) == c && SetL(c, c.l) == c
  {
  }

  /** The lightness the Color constructor derives from RGBToHSV's value and
      saturation: v * (1 - s/2). A grey keeps its value as its lightness, and a fully
      saturated colour has half its value. */
  function HslLightness(v: real, sv: real): (l: real)
    ensures sv == 0.0 ==> l == v
    ensures sv == 1.0 ==> l * 2.0 == v
  {
    v * (1.0 - sv * 0.5)
  }

  /** The saturation the Color constructor derives from the value and the lightness:
      (v - l) / min(l, 1 - l), except that it is 0 when l is exactly 0 or 1, where that
      division would be by zero. */
  function HslSaturation(v: real, l: real): (s: real)
    ensures l == 0.0 || l == 1.0 ==> s == 0.0
    ensures l != 0.0 && l != 1.0 ==> s * Min(l, 1.0 - l) == v - l
  {
    if l == 0.0 || l == 1.0 then 0.0 else (v - l) / Min(l, 1.0 - l)
  }

  /** `new ColorHSL(Color)`, after Unity's RGBToHSV has produced `hsv`. The hue is kept
      as given, and away from black and white the value can be read back from the
      result as l + s * min(l, 1 - l). */
  function FromColor(hsv: HSV): (c: ColorHSL)
    ensures c.h == hsv.h
    ensures c.l != 0.0 && c.l != 1.0 ==> c.l + c.s * Min(c.l, 1.0 - c.l) == hsv.v
  {
    var l := HslLightness(hsv.v, hsv.s);
    ColorHSL(hsv.h, HslSaturation(hsv.v, l), l)
  }

  /** The `rgb` setter does exactly what the Color constructor does: all three components
      are overwritten and the old value is forgotten. */
  function SetRgb(c: ColorHSL, hsv: HSV): (r: ColorHSL)
    ensures r == FromColor(hsv)
  {
    var l := HslLightness(hsv.v, hsv.s);
    c.(h := hsv.h, s := HslSaturation(hsv.v, l), l := l)
  }

  /** The lightness computed from an in-range value and saturation lies between v/2
      and v, the gap v - l is at most l, and the boundary cases are exactly black, white
      and grey. */
  lemma LightnessFacts(v: real, sv: real)
    requires 0.0 <= v <= 1.0 && 0.0 <= sv <= 1.0
    ensures var l := HslLightness(v, sv);
      && 0.0 <= l <= v
      && v - l == v * (sv * 0.5)
      && v - l <= l
      && (l == 0.0 <==> v == 0.0)
      && (l == 1.0 <==> v == 1.0 && sv == 0.0)
      && (v - l == 0.0 <==> v == 0.0 || sv == 0.0)
  {
    var w := 1.0 - sv * 0.5;
    var l := v * w;
    MulNonNegative(v, w);
    MulMonotone(w, 1.0, v);
    assert v - l == v * (sv * 0.5) by {
      assert v - v * w == v * (1.0 - w);
    }
    MulMonotone(sv * 0.5, w, v);
    if v > 0.0 {
      MulMonotone(0.5, w, v);
    }
    if sv > 0.0 {
      MulMonotone(v, 1.0, w);
      if v > 0.0 {
        MulStrict(0.0, sv * 0.5, v);
      }
    }
  }

  /** A quotient n / m with 0 <= n <= m is in [0, 1]; it is 0 exactly when n is. */
  lemma QuotientInUnit(n: real, m: real, q: real)
    requires 0.0 < m && 0.0 <= n <= m && q * m == n
    ensures 0.0 <= q <= 1.0
    ensures q == 0.0 <==> n == 0.0
  {
    if q < 0.0 {
      MulStrict(q, 0.0, m);
    } else if q > 1.0 {
      MulStrict(1.0, q, m);
    } else if q > 0.0 {
      MulStrict(0.0, q, m);
    }
  }

  /** Where the lightness is strictly between 0 and 1, the saturation is the quotient of
      the gap v - l by the distance min(l, 1 - l) to the nearer end. */
  lemma SaturationQuotient(v: real, sv: real)
    requires 0.0 <= v <= 1.0 && 0.0 <= sv <= 1.0
    ensures var l := HslLightness(v, sv);
      0.0 <= HslSaturation(v, l) <= 1.0 &&
      (HslSaturation(v, l) == 0.0 <==> v == 0.0 || sv == 0.0)
  {
    LightnessFacts(v, sv);
    var l := HslLightness(v, sv);
    if l != 0.0 && l != 1.0 {
      var m := Min(l, 1.0 - l);
      assert 0.0 < m && v - l <= m;
      QuotientInUnit(v - l, m, HslSaturation(v, l));
    }
  }

  /** From an in-range HSV triple the conversion yields a valid colour without any
      clamping: lightness and saturation both land in [0, 1]. */
  lemma FromColorInRange(hsv: HSV)
    requires HsvInRange(hsv)
    ensures FromColor(hsv).Valid()
  {
    LightnessFacts(hsv.v, hsv.s);
    SaturationQuotient(hsv.v, hsv.s);
  }

  /** The converted saturation is 0 exactly when the input is grey (no HSV saturation)
      or black (no value). */
  lemma FromColorGrey(hsv: HSV)
    requires HsvInRange(hsv)
    ensures FromColor(hsv).s == 0.0 <==> hsv.s == 0.0 || hsv.v == 0.0
  {
    SaturationQuotient(hsv.v, hsv.s);
  }

  /** The HSL-to-HSV step read backwards: v = l + s * min(l, 1 - l) and
      s_v = 2 * (1 - l / v). It is the reference the conversion is checked against. */
  function ToHSV(c: ColorHSL): (hsv: HSV)
    ensures hsv.h == c.h
  {
    var v := c.l + c.s * Min(c.l, 1.0 - c.l);
    HSV(c.h, if v == 0.0 then 0.0 else 2.0 * (1.0 - c.l / v), v)
  }

  /** Dividing a product by one of its non-zero factors gives the other. */
  lemma DivideBack(p: real, v: real, w: real)
    requires v != 0.0 && p == v * w
    ensures p / v == w
  {
  }

  /** HSV to HSL and back gives the HSV triple again, except for black, whose HSV
      saturation is not recoverable. */
  lemma FromColorRoundTrip(hsv: HSV)
    requires HsvInRange(hsv)
    ensures ToHSV(FromColor(hsv)) == if hsv.v == 0.0 then HSV(hsv.h, 0.0, 0.0) else hsv
  {
    var v, sv := hsv.v, hsv.s;
    var l := HslLightness(v, sv);
    var s := HslSaturation(v, l);
    LightnessFacts(v, sv);
    if l != 0.0 && l != 1.0 {
      var w := 1.0 - sv * 0.5;
      assert l + s * Min(l, 1.0 - l) == v;
      DivideBack(l, v, w);
      assert 2.0 * (1.0 - l / v) == sv;
    }
  }

  /** v * (1 - s_v/2) with s_v = 2 * (1 - l/v) gives l back. */
  lemma RecoverLightness(l: real, v: real)
    requires v > 0.0
    ensures v * (1.0 - 2.0 * (1.0 - l / v) * 0.5) == l
  {
    assert 1.0 - 2.0 * (1.0 - l / v) * 0.5 == l / v;
  }

  /** A non-zero factor can be cancelled. */
  lemma MulCancel(a: real, b: real, m: real)
    requires m > 0.0 && a * m == b * m
    ensures a == b
  {
    if a < b {
      MulStrict(a, b, m);
    } else if a > b {
      MulStrict(b, a, m);
    }
  }

  /** HSL to HSV and back gives the colour again whenever it is neither black nor white. */
  lemma ToHSVRoundTrip(c: ColorHSL)
    requires c.Valid() && 0.0 < c.l < 1.0
    ensures FromColor(ToHSV(c)) == c
  {
    var m := Min(c.l, 1.0 - c.l);
    var v := c.l + c.s * m;
    assert v > 0.0 by { MulNonNegative(c.s, m); }
    var hsv := ToHSV(c);
    assert hsv == HSV(c.h, 2.0 * (1.0 - c.l / v), v);
    RecoverLightness(c.l, v);
    assert HslLightness(hsv.v, hsv.s) == c.l;
    var s' := HslSaturation(v, c.l);
    assert s' * m == c.s * m;
    MulCancel(s', c.s, m);
  }

  /** One channel of the `rgb` getter, from the matching channel of the pure-hue colour
      (full saturation and value): desaturate toward grey, then lighten toward white,
      then darken toward black, in that order. Lightness 0 or below is black, 1 or above
      is white, and at lightness 1/2 neither the lighten nor the darken step acts. */
  function Channel(pure: real, s: real, l: real): (r: real)
    ensures l <= 0.0 ==> r == 0.0
    ensures l >= 1.0 ==> r == 1.0
    ensures l == 0.5 ==> r == Lerp(0.5, pure, s)
  {
    LightenDarken(Lerp(0.5, pure, s), l)
  }

  /** The last two steps of the `rgb` getter on one desaturated channel value. */
  function LightenDarken(desaturated: real, l: real): real {
    var lightened := Lerp(desaturated, 1.0, Clamp01(l * 2.0 - 1.0));
    lightened * Clamp01(l * 2.0)
  }

  /** The `rgb` getter, given the pure-hue triple that Unity's HSVToRGB returns for the
      colour's hue at full saturation and value. */
  function GetRgb(c: ColorHSL, pure: RGB): (rgb: RGB)
    ensures RgbInRange(pure) ==> RgbInRange(rgb)
  {
    ChannelInRange(pure.r, c.s, c.l);
    ChannelInRange(pure.g, c.s, c.l);
    ChannelInRange(pure.b, c.s, c.l);
    RGB(Channel(pure.r, c.s, c.l), Channel(pure.g, c.s, c.l), Channel(pure.b, c.s, c.l))
  }

  /** Every channel of the result stays in [0, 1] when the pure-hue channel does. */
  lemma ChannelInRange(pure: real, s: real, l: real)
    ensures 0.0 <= pure <= 1.0 ==> 0.0 <= Channel(pure, s, l) <= 1.0
  {
    if 0.0 <= pure <= 1.0 {
      var d := Lerp(0.5, pure, s);
      LerpInUnit(0.5, pure, s);
      var e := Lerp(d, 1.0, Clamp01(l * 2.0 - 1.0));
      LerpInUnit(d, 1.0, Clamp01(l * 2.0 - 1.0));
      var k := Clamp01(l * 2.0);
      MulMonotone(0.0, e, k);
      MulMonotone(e, 1.0, k);
      assert Channel(pure, s, l) == LightenDarken(d, l) == e * k;
    }
  }

  /** Lightness 0 is black and lightness 1 is white, whatever the hue and saturation. */
  lemma RgbBlackAndWhite(c: ColorHSL, pure: RGB)
    ensures c.l == 0.0 ==> GetRgb(c, pure) == RGB(0.0, 0.0, 0.0)
    ensures c.l == 1.0 ==> GetRgb(c, pure) == RGB(1.0, 1.0, 1.0)
  {
  }

  /** Up to lightness 1/2 the lighten step does nothing: the colour is the desaturated
      hue scaled by 2l. */
  lemma RgbNoLightenBelowHalf(c: ColorHSL, pure: RGB)
    requires 0.0 <= c.l <= 0.5
    ensures GetRgb(c, pure) == RGB(Lerp(0.5, pure.r, c.s) * (c.l * 2.0),
                                   Lerp(0.5, pure.g, c.s) * (c.l * 2.0),
                                   Lerp(0.5, pure.b, c.s) * (c.l * 2.0))
  {
  }

  /** Without saturation a channel forgets the pure hue's value. */
  lemma ChannelWithoutSaturation(pure: real, l: real)
    ensures Channel(pure, 0.0, l) == Channel(0.0, 0.0, l)
  {
    assert Lerp(0.5, pure, 0.0) == 0.5 == Lerp(0.5, 0.0, 0.0);
  }

  /** A colour without saturation is a grey: its three channels agree, whatever the hue. */
  lemma RgbGreyWithoutSaturation(c: ColorHSL, pure: RGB)
    requires c.s == 0.0
    ensures GetRgb(c, pure).r == GetRgb(c, pure).g == GetRgb(c, pure).b
  {
    ChannelWithoutSaturation(pure.r, c.l);
    ChannelWithoutSaturation(pure.g, c.l);
    ChannelWithoutSaturation(pure.b, c.l);
  }

  /** Full saturation at lightness 1/2 gives back the pure hue. */
  lemma RgbPureHue(c: ColorHSL, pure: RGB)
    requires c.s == 1.0 && c.l == 0.5
    ensures GetRgb(c, pure) == pure
  {
  }

  /** The post-processing keeps the order of the channels: a channel that is brighter in
      the pure hue is no darker in the result. */
  lemma {:induction false} RgbKeepsChannelOrder(c: ColorHSL, p: real, q: real)
    requires c.Valid() && p <= q
    ensures Channel(p, c.s, c.l) <= Channel(q, c.s, c.l)
  {
    LerpMonotone(0.5, 0.5, p, q, c.s);
    var dp, dq := Lerp(0.5, p, c.s), Lerp(0.5, q, c.s);
    var k := Clamp01(c.l * 2.0 - 1.0);
    LerpMonotone(dp, dq, 1.0, 1.0, k);
    MulMonotone(Lerp(dp, 1.0, k), Lerp(dq, 1.0, k), Clamp01(c.l * 2.0));
  }

  /** The signed distance ColorHSL.Lerp travels round the hue circle from `ah` to `bh`:
      straight when the hues are at most half a turn apart, otherwise through the seam at
      0/1. Whatever the hues, the travel is never longer than the straight difference
      and ends on b's hue or one whole turn above or below it. */
  function HueTravel(ah: real, bh: real): (r: real)
    ensures Abs(r) <= Abs(bh - ah)
    ensures r == bh - ah || r == bh + 1.0 - ah || r == bh - 1.0 - ah
  {
    if Abs(ah - bh) <= 0.5 then bh - ah
    else if ah > bh then (bh + 1.0) - ah
    else bh - (ah + 1.0)
  }

  /** The hue ColorHSL.Lerp computes before the `h` setter wraps it: when the hues are
      more than half a turn apart, the smaller one is lifted by a whole turn first. */
  function LerpHue(ah: real, bh: real, t: real): (x: real)
    ensures x == ah + HueTravel(ah, bh) * Clamp01(t) || x == ah + HueTravel(ah, bh) * Clamp01(t) + 1.0
  {
    if Abs(ah - bh) <= 0.5 then Lerp(ah, bh, t)
    else if ah > bh then Lerp(ah, bh + 1.0, t)
    else Lerp(ah + 1.0, bh, t)
  }

  /** ColorHSL.Lerp(a, b, t): a fresh ColorHSL(0, 0, 0) whose hue, saturation and
      lightness are set through the setters to the interpolated values. */
  function LerpHSL(a: ColorHSL, b: ColorHSL, t: real): (c: ColorHSL)
    ensures c.Valid()
  {
    var c := FromHSL(0.0, 0.0, 0.0);
    var c := SetH(c, LerpHue(a.h, b.h, t));
    var c := SetS(c, Lerp(a.s, b.s, t));
    SetL(c, Lerp(a.l, b.l, t))
  }

  /** Between two valid hues the travel is at most half a turn, and it ends at b's hue
      itself or at b's hue one turn up or down. */
  lemma HueTravelShort(ah: real, bh: real)
    requires 0.0 <= ah < 1.0 && 0.0 <= bh < 1.0
    ensures Abs(HueTravel(ah, bh)) <= 0.5
    ensures ah + HueTravel(ah, bh) in {bh, bh + 1.0, bh - 1.0}
  {
  }

  /** Travelling from a's hue by HueTravel and wrapping lands exactly on b's hue. */
  lemma HueTravelArrives(a: ColorHSL, b: ColorHSL)
    requires a.Valid() && b.Valid()
    ensures Repeat(a.h + HueTravel(a.h, b.h), 1.0) == b.h
  {
    HueTravelShort(a.h, b.h);
    var e := a.h + HueTravel(a.h, b.h);
    if e == b.h + 1.0 {
      WrapUnique(e, 1, b.h);
    } else if e == b.h - 1.0 {
      WrapUnique(e, -1, b.h);
    } else {
      WrapUnique(e, 0, b.h);
    }
  }

  /** Lerp through the setters is the same as the normalising constructor applied to
      the interpolated components. */
  lemma LerpIsConstructor(a: ColorHSL, b: ColorHSL, t: real)
    ensures LerpHSL(a, b, t) == FromHSL(LerpHue(a.h, b.h, t), Lerp(a.s, b.s, t), Lerp(a.l, b.l, t))
  {
  }

  /** Writing a wrapped hue and a clamped saturation and lightness through the setters
      gives the normalising constructor's colour, whatever the struct held before: the
      setters' own wrapping and clamping change nothing the second time. */
  lemma NormalisedWrites(c: ColorHSL, h: real, s: real, l: real)
    ensures SetL(SetS(SetH(c, Repeat(h, 1.0)), Clamp01(s)), Clamp01(l)) == FromHSL(h, s, l)
  {
    WrapRange(h);
    WrapIdempotent(h);
  }

  /** The interpolated hue is a's hue moved by the fraction Clamp01(t) of the travel,
      wrapped into [0, 1). */
  lemma LerpHueOnShortArc(ah: real, bh: real, t: real)
    ensures Repeat(LerpHue(ah, bh, t), 1.0) == Repeat(ah + HueTravel(ah, bh) * Clamp01(t), 1.0)
  {
    var x := ah + HueTravel(ah, bh) * Clamp01(t);
    if LerpHue(ah, bh, t) == x + 1.0 {
      WrapShift(x, 1);
    }
  }

  /** No other way round the circle from a's hue to b's hue is shorter than the one
      Lerp takes. */
  lemma HueTravelIsShortest(a: ColorHSL, b: ColorHSL, k: int)
    requires a.Valid() && b.Valid()
    ensures Abs(HueTravel(a.h, b.h)) <= Abs(b.h + k as real - a.h)
  {
  }

  /** At t = 0 Lerp gives a, at t = 1 it gives b. */
  lemma LerpEndpoints(a: ColorHSL, b: ColorHSL)
    requires a.Valid() && b.Valid()
    ensures LerpHSL(a, b, 0.0) == a
    ensures LerpHSL(a, b, 1.0) == b
  {
    var d := HueTravel(a.h, b.h);
    LerpIsConstructor(a, b, 0.0);
    LerpHueOnShortArc(a.h, b.h, 0.0);
    assert a.h + d * Clamp01(0.0) == a.h;
    WrapRange(a.h);
    LerpIsConstructor(a, b, 1.0);
    LerpHueOnShortArc(a.h, b.h, 1.0);
    assert a.h + d * Clamp01(1.0) == a.h + d;
    HueTravelArrives(a, b);
  }

  /** Saturation and lightness move in a straight line from a to b, whichever way the hue
      goes. */
  lemma LerpSaturationLightness(a: ColorHSL, b: ColorHSL, t: real)
    requires a.Valid() && b.Valid() && 0.0 <= t <= 1.0
    ensures LerpHSL(a, b, t).s == a.s + (b.s - a.s) * t
    ensures LerpHSL(a, b, t).l == a.l + (b.l - a.l) * t
  {
    LerpInUnit(a.s, b.s, t);
    LerpInUnit(a.l, b.l, t);
  }

  /** Hues 0.02 and 0.98 meet at 0 halfway, not at 0.5. */
  lemma LerpThroughSeam(s: real, l: real)
    ensures LerpHSL(ColorHSL(0.02, s, l), ColorHSL(0.98, s, l), 0.5).h == 0.0
  {
    WrapUnique(1.0, 1, 0.0);
  }
}
