# Procedural colour palettes, modelled in Dafny

This project models the core of a Unity project that generates six-colour palettes in HSL
space. The model has four parts:

- **The `ColorHSL` struct.** Its constructors and setters normalise their inputs: the hue
  wraps into [0, 1), and saturation and lightness are clamped to [0, 1]. It converts
  HSV to HSL and post-processes a pure-hue RGB triple. Its `Lerp` interpolates along the
  shorter arc of the hue circle.
- **The harmony-scheme generator `PaletteUsingRandoms`.** A colour scheme (Analogous,
  Complementary, Triadic, Tetradic, SplitComplementary, or Random for one of these drawn
  at random) decides how the six hues relate. A drawn mode makes the lightness lighten,
  darken or alternate. The saturation falls per entry, per pair or per triple, or with
  adaptive saturation follows each entry's distance from lightness 1/2. Three passes
  rewrite the palette array in place: hue, then lightness, then saturation.
- **The linear six-scalar rule.** Four components share it: `PaletteUsingInput`,
  `TimedColor`, `ApplyOnObjecBasis` and `ApplyPropertyBlocks` (the latter with its own
  scalars). Each derives a main hue, saturation and luminance and a per-entry shift for
  each. One loop then sets entry i to hue `Repeat(mainHue + i*hueShift, 1)`, saturation
  `Clamp01(mainSaturation - saturationShift*i)` and lightness
  `Clamp01(mainLuminance + luminanceShift*i)`.
- **The scalar adapters.** They derive the scalars from the Unix timestamp, the game
  time, a seed colour, or three abstract variables.

Files:

| file | module | contents |
|---|---|---|
| `unity_math.dfy` | `UnityMath` | Unity's `Mathf` helpers (`Repeat`, `Clamp01`, `Clamp`, `Lerp`, `PingPong`); C#'s truncating `%` on ints (`IRem`) and floats (`FRem`); hue-circle and index arithmetic |
| `color_hsl.dfy` | `HSLColor` | the `ColorHSL` struct |
| `linear_palette.dfy` | `LinearRule` | the shared linear loop `ApplyLinear` and the palette `LinearColors` it produces |
| `palette_using_randoms.dfy` | `PaletteRandoms` | the harmony-scheme generator |
| `palette_using_input.dfy` | `PaletteInput` | the timestamp, seed-colour and abstract-variable adapters |
| `timed_color.dfy` | `TimedPalette` | the game-time adapter |
| `apply_on_object_basis.dfy` | `ObjectBasis` | the second game-time component |
| `apply_property_blocks.dfy` | `PropertyBlocks` | the integer-modulo timestamp adapter |

Modelling choices:

- **Numbers.** Floats are exact reals. `Mathf.Sin` and `Mathf.Cos` are function
  parameters. The lemmas assume only that they stay within [-1, 1] (`Bounded`).
- **Inputs from outside.** Clock reads (`Time.time`, the Unix timestamp) and every
  `Random.Range` draw are method parameters. The ranges `Random.Range` guarantees are the
  hypotheses of the lemmas, because every method is defined for any draw.
- **`ColorHSL`.** It is a C# struct, that is, a value type, so it is a datatype here. A
  property setter on a struct variable replaces that variable's value, so each setter
  is a function from the old value to the new one. The source writes
  `colorPalette[i].h = x` on an array of structs, and that becomes
  `colorPalette[i] := SetH(colorPalette[i], x)`.
- **Components.** Each MonoBehaviour that owns a palette is a class with a
  `const colorPalette: array<ColorHSL>`. Each generator method is specified by a function
  on sequences: `HuePass`, `LightnessPass`, `SaturationPass`, `NewPalette`,
  `LinearColors`.
- **Loops.** `PaletteUsingRandoms` has several loops per generator; each is a helper
  method of its own (`StepHues`, `LowerPerPair`, `Alternate`, …) with its own loop
  invariant. The scheme switch of `GenerateSaturation`, which scales the shift and runs
  one of these loops, is the helper `LowerSaturation`. The linear loop is written once,
  as `LinearRule.ApplyLinear`. The four linear components compute their scalars exactly
  as their source does and hand them to that loop.
- **Index products.** The source multiplies a float by the loop index (`i * hueShift`).
  The specification functions write this product as `Steps(i, hueShift)`, which is i
  repeated additions. `StepsIsProduct` and `TimesIsProduct` prove it equal to the
  product. Each loop body first proves that the source's own expression equals the
  specification's entry (`LoopStepOverwrites`, `SteppedHueWrite`, …), then assigns the
  source's expression.

Behaviour of the code that the model keeps as written:

- **Tetradic hues.** The formula at `PaletteUsingRandoms.cs:123` puts `mainHue + 0.5` at
  the even entries and `mainHue + hueShift` at the odd ones, so `mainHue` itself never
  appears in a Tetradic palette (`TetradicPattern`).
- **Adaptive saturation.** With adaptive saturation on, the loop at
  `PaletteUsingRandoms.cs:174-179` overwrites every entry's saturation. The per-entry,
  per-pair or per-triple values written just before are lost
  (`AdaptiveUsesLightness`).
- **Timestamp adapters.** `PaletteUsingInput.UnixPalette` uses the game-time formulas
  of `TimedColor` at a whole number of seconds (`UnixIsTime`).
  `ApplyPropertyBlocks.UNIXpalette` instead takes the timestamp modulo 60, 100, 1000, 7,
  10 and 6 (`ApplyPropertyBlocks.cs:74-81`), one small period per scalar.
- **The main-hue draw.** `Random.Range(0f, 1f)` at `PaletteUsingRandoms.cs:95` can
  return 1, so `DrawsInRange` allows a main hue of 1. The hue setter wraps it to 0.

## Model

| member | source | states |
|---|---|---|
| UnityMath.Clamp | Assets/ColorPaletteGeneration/Scripts/PaletteUsingInput.cs:139-143 | Mathf.Clamp: the result lies in [min, max], is the value when it is inside, and the nearer bound otherwise |
| UnityMath.Clamp01 | Assets/ColorPaletteGeneration/Scripts/ColorHSL.cs:20-21 | Mathf.Clamp01: the result lies in [0, 1], keeps an in-range value, and is 0 or 1 beyond the bounds |
| UnityMath.Lerp | Assets/ColorPaletteGeneration/Scripts/ColorHSL.cs:107-108 | Mathf.Lerp: t at or below 0 gives a, and t at or above 1 gives b |
| UnityMath.Repeat | Assets/ColorPaletteGeneration/Scripts/ColorHSL.cs:42 | Mathf.Repeat: for a positive length the result lies in [0, length) |
| UnityMath.PingPong | Assets/ColorPaletteGeneration/Scripts/TimedColor.cs:58-59 | Mathf.PingPong: the triangle wave stays within [0, length] and follows t itself over its first rise from 0 to length |
| UnityMath.FRem | Assets/ColorPaletteGeneration/Scripts/TimedColor.cs:56 | C#'s float `%`: for a non-negative dividend the remainder lies in [0, m), for a negative one in (-m, 0] |
| UnityMath.WrapRange | Assets/ColorPaletteGeneration/Scripts/ColorHSL.cs:42 | Mathf.Repeat(t, 1) lies in [0, 1), differs from t by a whole number of turns, and leaves a hue already in [0, 1) alone |
| UnityMath.WrapIdempotent | Assets/ColorPaletteGeneration/Scripts/ColorHSL.cs:69 | wrapping an already wrapped hue again changes nothing |
| UnityMath.IRem | Assets/ColorPaletteGeneration/Scripts/PaletteUsingInput.cs:101 | C#'s int `%`: for a non-negative dividend the remainder lies in [0, m), for a negative one in (-m, 0] |
| UnityMath.IRemIsFRem | Assets/ColorPaletteGeneration/Scripts/TimedColor.cs:56 | the int and the float remainder by 60 agree on every whole number, negative ones included |
| UnityMath.RemPeriodic | Assets/ColorPaletteGeneration/Scripts/ApplyPropertyBlocks.cs:74-81 | adding k whole periods of m to a non-negative timestamp leaves its remainder by m unchanged |
| UnityMath.StepsIsProduct | Assets/ColorPaletteGeneration/Scripts/PaletteUsingInput.cs:110-112 | i repeated additions of a shift equal the product `i * shift` the loops compute |
| UnityMath.StepsMonotone | Assets/ColorPaletteGeneration/Scripts/PaletteUsingInput.cs:111-112 | more steps of a non-negative shift go no less far (strictly further for a positive one); of a non-positive shift, no further |
| UnityMath.TimesIsProduct | Assets/ColorPaletteGeneration/Scripts/PaletteUsingRandoms.cs:131 | the signed product `(i - 3) * hueShift` for an index of either sign |
| UnityMath.WrapDistinct | Assets/ColorPaletteGeneration/Scripts/PaletteUsingRandoms.cs:123 | two hues less than a full turn apart (and not equal) never wrap to the same value |
| HSLColor.FromHSL | Assets/ColorPaletteGeneration/Scripts/ColorHSL.cs:18-22 | the result is valid; its hue is h minus its floor; in-range s and l are kept; below 0 becomes 0 and above 1 becomes 1 |
| HSLColor.SetH | Assets/ColorPaletteGeneration/Scripts/ColorHSL.cs:41-43 | the new hue is wrapped into [0, 1) (equal to the value when it is in range); s and l unchanged; validity preserved |
| HSLColor.SetS | Assets/ColorPaletteGeneration/Scripts/ColorHSL.cs:50-52 | the new saturation is the value clamped to [0, 1]; h and l unchanged; validity preserved |
| HSLColor.SetL | Assets/ColorPaletteGeneration/Scripts/ColorHSL.cs:59-61 | the new lightness is the value clamped to [0, 1]; h and s unchanged; validity preserved |
| HSLColor.SetReadBack | Assets/ColorPaletteGeneration/Scripts/ColorHSL.cs:37-62 | writing back a component just read leaves a valid colour unchanged |
| HSLColor.HslLightness | Assets/ColorPaletteGeneration/Scripts/ColorHSL.cs:27 | a grey (HSV saturation 0) keeps its value as its lightness; a fully saturated colour has half its value |
| HSLColor.HslSaturation | Assets/ColorPaletteGeneration/Scripts/ColorHSL.cs:28-31 | saturation is 0 when l is exactly 0 or 1, and otherwise satisfies `s * min(l, 1 - l) == v - l`, with the division by zero guarded |
| HSLColor.FromColor | Assets/ColorPaletteGeneration/Scripts/ColorHSL.cs:24-32 | the hue passes through unchanged; away from black and white the HSV value is recovered from the result as `l + s * min(l, 1 - l)` |
| HSLColor.SetRgb | Assets/ColorPaletteGeneration/Scripts/ColorHSL.cs:79-87 | the `rgb` setter gives the same colour as the Color constructor and forgets the old value |
| HSLColor.LightnessFacts | Assets/ColorPaletteGeneration/Scripts/ColorHSL.cs:27 | for in-range v and s_v: l lies in [0, v]; v - l is at most l; l is 0 exactly for black and 1 exactly for white |
| HSLColor.SaturationQuotient | Assets/ColorPaletteGeneration/Scripts/ColorHSL.cs:28-31 | the saturation lies in [0, 1] without any clamping, and is 0 exactly when v or s_v is 0 |
| HSLColor.FromColorInRange | Assets/ColorPaletteGeneration/Scripts/ColorHSL.cs:24-32 | an in-range HSV triple converts to a valid colour |
| HSLColor.FromColorGrey | Assets/ColorPaletteGeneration/Scripts/ColorHSL.cs:27-31 | the converted saturation is 0 exactly for a grey or black input |
| HSLColor.FromColorRoundTrip | Assets/ColorPaletteGeneration/Scripts/ColorHSL.cs:24-32 | converting HSV to HSL and back through the reference inverse `ToHSV` recovers the triple, except the saturation of black |
| HSLColor.ToHSVRoundTrip | Assets/ColorPaletteGeneration/Scripts/ColorHSL.cs:24-32 | a valid colour that is neither black nor white converts to HSV and back to itself |
| HSLColor.Channel | Assets/ColorPaletteGeneration/Scripts/ColorHSL.cs:72-74 | one `rgb` channel: lightness 0 or below is black, 1 or above is white, and at lightness 1/2 the channel is the desaturated pure-hue value |
| HSLColor.GetRgb | Assets/ColorPaletteGeneration/Scripts/ColorHSL.cs:67-78 | the `rgb` getter, given the pure-hue triple: channels in [0, 1] stay in [0, 1] |
| HSLColor.ChannelInRange | Assets/ColorPaletteGeneration/Scripts/ColorHSL.cs:72-74 | desaturate, lighten and darken keep an in-range channel in [0, 1] |
| HSLColor.RgbBlackAndWhite | Assets/ColorPaletteGeneration/Scripts/ColorHSL.cs:73-74 | lightness 0 gives black and lightness 1 gives white, whatever the hue and saturation |
| HSLColor.RgbNoLightenBelowHalf | Assets/ColorPaletteGeneration/Scripts/ColorHSL.cs:73 | up to lightness 1/2 the lighten step is the identity, and the result is the desaturated hue scaled by 2l |
| HSLColor.RgbGreyWithoutSaturation | Assets/ColorPaletteGeneration/Scripts/ColorHSL.cs:72 | zero saturation gives three equal channels |
| HSLColor.ChannelWithoutSaturation | Assets/ColorPaletteGeneration/Scripts/ColorHSL.cs:72 | at zero saturation one channel's result does not depend on its pure-hue value |
| HSLColor.RgbPureHue | Assets/ColorPaletteGeneration/Scripts/ColorHSL.cs:72-74 | full saturation at lightness 1/2 gives the pure hue back |
| HSLColor.RgbKeepsChannelOrder | Assets/ColorPaletteGeneration/Scripts/ColorHSL.cs:72-74 | a brighter pure-hue channel is no darker after the three steps |
| HSLColor.HueTravel | Assets/ColorPaletteGeneration/Scripts/ColorHSL.cs:98-106 | the hue Lerp's travel is never longer than the straight difference of the hues and ends on b's hue or one whole turn above or below it |
| HSLColor.LerpHue | Assets/ColorPaletteGeneration/Scripts/ColorHSL.cs:98-106 | the pre-wrap hue is a's hue moved by Clamp01(t) of the short-arc travel, possibly one turn up |
| HSLColor.LerpHSL | Assets/ColorPaletteGeneration/Scripts/ColorHSL.cs:96-110 | Lerp always yields a valid colour |
| HSLColor.HueTravelShort | Assets/ColorPaletteGeneration/Scripts/ColorHSL.cs:98-106 | between valid hues the travel is at most half a turn and ends on b's hue up to one whole turn |
| HSLColor.HueTravelArrives | Assets/ColorPaletteGeneration/Scripts/ColorHSL.cs:102-105 | wrapping a's hue plus the travel lands exactly on b's hue; in the seam branches `Repeat(b.h + 1, 1) == b.h` |
| HSLColor.LerpIsConstructor | Assets/ColorPaletteGeneration/Scripts/ColorHSL.cs:97-109 | Lerp through the setters equals the normalising constructor of the interpolated components |
| HSLColor.NormalisedWrites | Assets/ColorPaletteGeneration/Scripts/ColorHSL.cs:37-62 | writing a wrapped hue and a clamped saturation and lightness through the three setters gives the normalising constructor's colour, whatever the struct held before |
| HSLColor.LerpHueOnShortArc | Assets/ColorPaletteGeneration/Scripts/ColorHSL.cs:98-106 | the wrapped Lerp hue is a's hue moved along the short arc by the fraction Clamp01(t) |
| HSLColor.HueTravelIsShortest | Assets/ColorPaletteGeneration/Scripts/ColorHSL.cs:98-106 | no other way round the circle between the two hues is shorter than Lerp's |
| HSLColor.LerpEndpoints | Assets/ColorPaletteGeneration/Scripts/ColorHSL.cs:96-110 | Lerp at t = 0 gives a and at t = 1 gives b |
| HSLColor.LerpSaturationLightness | Assets/ColorPaletteGeneration/Scripts/ColorHSL.cs:107-108 | s and l move linearly from a to b, whichever branch the hue takes |
| HSLColor.LerpThroughSeam | Assets/ColorPaletteGeneration/Scripts/ColorHSL.cs:98-106 | hues 0.02 and 0.98 meet at hue 0 halfway, not at 0.5 |
| LinearRule.StartingPalette | Assets/ColorPaletteGeneration/Scripts/TimedColor.cs:25-32 | the initial palette is six copies of ColorHSL(0, 0.95, 0.5) |
| LinearRule.LinearColor | Assets/ColorPaletteGeneration/Scripts/PaletteUsingInput.cs:109-113 | every entry the linear rule produces is a valid colour |
| LinearRule.LinearColors | Assets/ColorPaletteGeneration/Scripts/PaletteUsingInput.cs:109-113 | the linear palette has six entries, all valid |
| LinearRule.RawIsLoopArithmetic | Assets/ColorPaletteGeneration/Scripts/PaletteUsingInput.cs:110-112 | the specification's repeated steps are the loop's products main + i * hueShift, main - saturationShift * i and main + luminanceShift * i |
| LinearRule.LoopStepOverwrites | Assets/ColorPaletteGeneration/Scripts/PaletteUsingInput.cs:110-112 | one turn of the loop, with its three setter writes, leaves the linear entry whatever the entry held before |
| LinearRule.ApplyLinear | Assets/ColorPaletteGeneration/Scripts/PaletteUsingInput.cs:109-113 | the loop rewrites the whole array to the linear palette of the scalars |
| LinearRule.LinearFirst | Assets/ColorPaletteGeneration/Scripts/PaletteUsingInput.cs:109-113 | entry 0 is the normalised main colour |
| LinearRule.LinearHueSteps | Assets/ColorPaletteGeneration/Scripts/PaletteUsingInput.cs:110 | each hue is the previous one turned by hueShift round the circle |
| LinearRule.LinearHueNear | Assets/ColorPaletteGeneration/Scripts/TimedColor.cs:57-65 | consecutive hues are at most \|hueShift\| apart along the short arc |
| LinearRule.LinearSaturationMonotone | Assets/ColorPaletteGeneration/Scripts/PaletteUsingInput.cs:111 | a non-negative saturation shift makes saturation non-increasing along the palette, and a non-positive one non-decreasing |
| LinearRule.LinearLightnessMonotone | Assets/ColorPaletteGeneration/Scripts/PaletteUsingInput.cs:112 | a non-negative luminance shift makes lightness non-decreasing, and a non-positive one non-increasing |
| LinearRule.TowardHalf | Assets/ColorPaletteGeneration/Scripts/PaletteUsingInput.cs:106 | five steps of a fifth of the gap to 0.5 reach 0.5 exactly without overshooting |
| LinearRule.LinearLightnessTowardHalf | Assets/ColorPaletteGeneration/Scripts/PaletteUsingInput.cs:105-112 | with luminanceShift = (0.5 - main) * 0.2 and an in-range main luminance: nothing is clamped; each lightness lies between main and 0.5 and is no further from 0.5 than the one before; the last is exactly 0.5 |
| PaletteRandoms.Ordinal | Assets/ColorPaletteGeneration/Scripts/PaletteUsingRandoms.cs:14-21 | the enum values are 0 to 5, and 5 is exactly Random |
| PaletteRandoms.SchemeOf | Assets/ColorPaletteGeneration/Scripts/PaletteUsingRandoms.cs:67 | the cast from int gives the scheme with that value |
| PaletteRandoms.Resolve | Assets/ColorPaletteGeneration/Scripts/PaletteUsingRandoms.cs:66-76 | the scheme used is never Random: a chosen concrete scheme is kept, and Random becomes the drawn scheme |
| PaletteRandoms.ResolveCovers | Assets/ColorPaletteGeneration/Scripts/PaletteUsingRandoms.cs:67 | each concrete scheme results from exactly one draw of Random.Range(0, 5) |
| PaletteRandoms.HueShift | Assets/ColorPaletteGeneration/Scripts/PaletteUsingRandoms.cs:100-121 | from an in-range draw every scheme steps by 0.03 to 0.55 of a turn; Complementary by 0.53 to 0.55, Triadic by 0.34 to 0.355; Random by nothing |
| PaletteRandoms.SchemeHue | Assets/ColorPaletteGeneration/Scripts/PaletteUsingRandoms.cs:102-131 | Tetradic alternates the complement (even entries) and mainHue + hueShift (odd ones); SplitComplementary's entry 3 is the main hue; the other schemes start at the main hue |
| PaletteRandoms.HueEntry | Assets/ColorPaletteGeneration/Scripts/PaletteUsingRandoms.cs:99-133 | a hue write keeps the entry's saturation and lightness |
| PaletteRandoms.HuePass | Assets/ColorPaletteGeneration/Scripts/PaletteUsingRandoms.cs:93-135 | GenerateHue writes only hues; under Random it writes nothing |
| PaletteRandoms.HueStepping | Assets/ColorPaletteGeneration/Scripts/PaletteUsingRandoms.cs:99-118 | Analogous, Complementary and Triadic: hue 0 is mainHue wrapped, and each next hue is the previous one turned by hueShift |
| PaletteRandoms.TetradicPattern | Assets/ColorPaletteGeneration/Scripts/PaletteUsingRandoms.cs:120-125 | even entries hold mainHue + 0.5 and odd entries mainHue + hueShift; these two differ; mainHue itself never appears |
| PaletteRandoms.SplitComplementaryPattern | Assets/ColorPaletteGeneration/Scripts/PaletteUsingRandoms.cs:127-133 | entry 3 is mainHue, entry 0 its complement, and entries 1 to 5 step by hueShift |
| PaletteRandoms.SaturationFactor | Assets/ColorPaletteGeneration/Scripts/PaletteUsingRandoms.cs:146-165 | each scheme scales the drawn saturation shift by a positive factor of at most 1; the factor is 1 exactly for Random and at most 1/2 for every other scheme |
| PaletteRandoms.SaturationGroup | Assets/ColorPaletteGeneration/Scripts/PaletteUsingRandoms.cs:147-168 | entry i takes the step of group g with g <= i: pair g (2g <= i < 2g + 2) for Complementary and Tetradic, triple g (3g <= i < 3g + 3) for Triadic |
| PaletteRandoms.GroupedEntry | Assets/ColorPaletteGeneration/Scripts/PaletteUsingRandoms.cs:148-168 | a saturation write keeps hue and lightness |
| PaletteRandoms.GroupedSaturation | Assets/ColorPaletteGeneration/Scripts/PaletteUsingRandoms.cs:142-171 | the scheme step writes only saturations; under Random it writes nothing |
| PaletteRandoms.AdaptiveEntry | Assets/ColorPaletteGeneration/Scripts/PaletteUsingRandoms.cs:177 | the adaptive write keeps hue and lightness |
| PaletteRandoms.AdaptiveSaturation | Assets/ColorPaletteGeneration/Scripts/PaletteUsingRandoms.cs:174-179 | the adaptive pass writes only saturations |
| PaletteRandoms.SaturationPass | Assets/ColorPaletteGeneration/Scripts/PaletteUsingRandoms.cs:137-180 | GenerateSaturation writes only saturations |
| PaletteRandoms.SaturationSteps | Assets/ColorPaletteGeneration/Scripts/PaletteUsingRandoms.cs:139-140 | with draws in range, the shifts taken never exhaust the main saturation |
| PaletteRandoms.GroupFactorBound | Assets/ColorPaletteGeneration/Scripts/PaletteUsingRandoms.cs:146-164 | each scheme's largest group number times its factor is at most 0.8 |
| PaletteRandoms.SaturationUnclamped | Assets/ColorPaletteGeneration/Scripts/PaletteUsingRandoms.cs:139-171 | with draws in range, no grouped saturation is clamped: entry i is the main saturation lowered by its group's number of shifts |
| PaletteRandoms.SaturationGroups | Assets/ColorPaletteGeneration/Scripts/PaletteUsingRandoms.cs:139-171 | s[0] = 1 - draw lies in [0.4, 1]; s never rises; two entries share a saturation exactly when they share a group (pairs for Complementary and Tetradic, triples for Triadic) |
| PaletteRandoms.AdaptiveUsesLightness | Assets/ColorPaletteGeneration/Scripts/PaletteUsingRandoms.cs:174-179 | with adaptive saturation every s[i] is Clamp01(main - shift*0.16*i + \|l[i] - 0.5\|), from the lightness the entry holds when the pass runs |
| PaletteRandoms.LightnessShift | Assets/ColorPaletteGeneration/Scripts/PaletteUsingRandoms.cs:189-201 | for a main lightness in [0, 1] and a non-negative draw the shift is never negative, and it is 0 when lighten starts at 1 or darken at 0 |
| PaletteRandoms.ModeLightness | Assets/ColorPaletteGeneration/Scripts/PaletteUsingRandoms.cs:190-205 | entry 0 has the main lightness in every mode; with a non-negative shift lighten stays at or above it, darken at or below, alternate puts even entries above and odd ones below |
| PaletteRandoms.LightnessEntry | Assets/ColorPaletteGeneration/Scripts/PaletteUsingRandoms.cs:191-204 | a lightness write keeps hue and saturation |
| PaletteRandoms.ModePass | Assets/ColorPaletteGeneration/Scripts/PaletteUsingRandoms.cs:188-206 | each mode writes only lightnesses |
| PaletteRandoms.LightnessPass | Assets/ColorPaletteGeneration/Scripts/PaletteUsingRandoms.cs:182-207 | GenerateLightness writes only lightnesses, ignores the scheme, and writes nothing for a mode outside 0 to 2 |
| PaletteRandoms.LightnessSteps | Assets/ColorPaletteGeneration/Scripts/PaletteUsingRandoms.cs:189-201 | up to five shifts of room * 0.15 * draw stay below the room |
| PaletteRandoms.LightnessUnclamped | Assets/ColorPaletteGeneration/Scripts/PaletteUsingRandoms.cs:184-206 | with draws in range, no lightness is clamped in any mode |
| PaletteRandoms.LightenRises | Assets/ColorPaletteGeneration/Scripts/PaletteUsingRandoms.cs:188-193 | lighten starts at the main lightness and never falls |
| PaletteRandoms.DarkenFalls | Assets/ColorPaletteGeneration/Scripts/PaletteUsingRandoms.cs:194-199 | darken starts at the main lightness and never rises |
| PaletteRandoms.AlternateBalances | Assets/ColorPaletteGeneration/Scripts/PaletteUsingRandoms.cs:200-206 | alternate: l[0] = l[1] = main; in every pair the even entry is at or above main and the odd at or below, and the two sum to 2 * main |
| PaletteRandoms.NewPalette | Assets/ColorPaletteGeneration/Scripts/PaletteUsingRandoms.cs:65-76 | a new palette has six entries |
| PaletteRandoms.NewPaletteEntry | Assets/ColorPaletteGeneration/Scripts/PaletteUsingRandoms.cs:65-76 | each single entry of a new palette is valid and does not depend on the previous palette |
| PaletteRandoms.NewPaletteOverwrites | Assets/ColorPaletteGeneration/Scripts/PaletteUsingRandoms.cs:65-76 | a new palette does not depend on the previous palette, and all its entries are valid |
| PaletteRandoms.NewPaletteAdaptive | Assets/ColorPaletteGeneration/Scripts/PaletteUsingRandoms.cs:68-70 | with adaptive saturation each saturation follows the final lightness of the same palette, because lightness runs before saturation |
| PaletteRandoms.NewPaletteInRange | Assets/ColorPaletteGeneration/Scripts/PaletteUsingRandoms.cs:65-76 | with every draw in its Random.Range range and no adaptive saturation: the palette is valid, starts at the drawn main lightness and at saturation 1 - draw, its lightness rises, falls or balances in pairs as the drawn mode says, and its saturation never rises, equal exactly within a group of the resolved scheme |
| PaletteRandoms.SteppedHueWrite | Assets/ColorPaletteGeneration/Scripts/PaletteUsingRandoms.cs:102 | the source's hue write for the stepping schemes is the specified entry |
| PaletteRandoms.TetradicHueWrite | Assets/ColorPaletteGeneration/Scripts/PaletteUsingRandoms.cs:123 | the source's Tetradic hue write is the specified entry |
| PaletteRandoms.SplitHueWrite | Assets/ColorPaletteGeneration/Scripts/PaletteUsingRandoms.cs:131 | the source's SplitComplementary hue write for entries 1 to 5 is the specified entry |
| PaletteRandoms.GroupedWrite | Assets/ColorPaletteGeneration/Scripts/PaletteUsingRandoms.cs:148-168 | the source's grouped saturation write is the specified entry for every member of the group |
| PaletteRandoms.AdaptiveWrite | Assets/ColorPaletteGeneration/Scripts/PaletteUsingRandoms.cs:177 | the source's adaptive write is the specified entry |
| PaletteRandoms.LightenWrite | Assets/ColorPaletteGeneration/Scripts/PaletteUsingRandoms.cs:191 | the source's lighten write is the specified entry |
| PaletteRandoms.DarkenWrite | Assets/ColorPaletteGeneration/Scripts/PaletteUsingRandoms.cs:197 | the source's darken write is the specified entry |
| PaletteRandoms.AlternateWrite | Assets/ColorPaletteGeneration/Scripts/PaletteUsingRandoms.cs:203-204 | the source's two alternate writes are the specified entries 2k and 2k + 1 |
| PaletteRandoms.PaletteUsingRandoms.constructor | Assets/ColorPaletteGeneration/Scripts/PaletteUsingRandoms.cs:23-47 | scheme Random, no adaptive saturation, the starting palette |
| PaletteRandoms.PaletteUsingRandoms.GenerateHue | Assets/ColorPaletteGeneration/Scripts/PaletteUsingRandoms.cs:93-135 | the palette becomes HuePass of the old palette with the scheme's hue shift |
| PaletteRandoms.PaletteUsingRandoms.StepHues | Assets/ColorPaletteGeneration/Scripts/PaletteUsingRandoms.cs:99-118 | the stepping loop gives HuePass of the old palette |
| PaletteRandoms.PaletteUsingRandoms.TetradicHues | Assets/ColorPaletteGeneration/Scripts/PaletteUsingRandoms.cs:120-125 | the Tetradic loop gives HuePass of the old palette |
| PaletteRandoms.PaletteUsingRandoms.SplitHues | Assets/ColorPaletteGeneration/Scripts/PaletteUsingRandoms.cs:127-133 | the SplitComplementary writes give HuePass of the old palette |
| PaletteRandoms.PaletteUsingRandoms.GenerateSaturation | Assets/ColorPaletteGeneration/Scripts/PaletteUsingRandoms.cs:137-180 | the palette becomes SaturationPass of the old palette |
| PaletteRandoms.PaletteUsingRandoms.LowerSaturation | Assets/ColorPaletteGeneration/Scripts/PaletteUsingRandoms.cs:142-171 | the scheme switch returns the drawn shift times the scheme's factor, and the palette becomes GroupedSaturation of the old palette with that shift |
| PaletteRandoms.PaletteUsingRandoms.LowerPerEntry | Assets/ColorPaletteGeneration/Scripts/PaletteUsingRandoms.cs:144-150 | the per-entry loop gives GroupedSaturation of the old palette |
| PaletteRandoms.PaletteUsingRandoms.LowerPerPair | Assets/ColorPaletteGeneration/Scripts/PaletteUsingRandoms.cs:153-160 | the per-pair loop gives GroupedSaturation of the old palette |
| PaletteRandoms.PaletteUsingRandoms.LowerPerTriple | Assets/ColorPaletteGeneration/Scripts/PaletteUsingRandoms.cs:163-170 | the per-triple loop gives GroupedSaturation of the old palette |
| PaletteRandoms.PaletteUsingRandoms.AdaptSaturation | Assets/ColorPaletteGeneration/Scripts/PaletteUsingRandoms.cs:174-179 | the adaptive loop gives AdaptiveSaturation of the old palette |
| PaletteRandoms.PaletteUsingRandoms.GenerateLightness | Assets/ColorPaletteGeneration/Scripts/PaletteUsingRandoms.cs:182-207 | the palette becomes LightnessPass of the old palette |
| PaletteRandoms.PaletteUsingRandoms.Lighten | Assets/ColorPaletteGeneration/Scripts/PaletteUsingRandoms.cs:188-193 | the lighten loop gives mode 0 of the old palette |
| PaletteRandoms.PaletteUsingRandoms.Darken | Assets/ColorPaletteGeneration/Scripts/PaletteUsingRandoms.cs:194-199 | the darken loop gives mode 1 of the old palette |
| PaletteRandoms.PaletteUsingRandoms.Alternate | Assets/ColorPaletteGeneration/Scripts/PaletteUsingRandoms.cs:200-206 | the alternating loop gives mode 2 of the old palette |
| PaletteRandoms.PaletteUsingRandoms.NewColorPalette | Assets/ColorPaletteGeneration/Scripts/PaletteUsingRandoms.cs:65-76 | the palette becomes NewPalette: the resolved scheme, then hue, lightness and saturation in that order |
| PaletteInput.UnixScalars | Assets/ColorPaletteGeneration/Scripts/PaletteUsingInput.cs:101-106 | after the epoch the main hue lies in [0, 0.944]; the main saturation lies in [0.3, 0.8] and its shift in [0.01, 0.11] |
| PaletteInput.UnixIsTime | Assets/ColorPaletteGeneration/Scripts/PaletteUsingInput.cs:101-106 | the timestamp scalars are the game-time scalars at a whole second, so the time-driven bounds (main saturation in [0.3, 0.8], shift in [0.01, 0.11], lightness toward 0.5 with l[5] = 0.5) carry over |
| PaletteInput.UnixHue | Assets/ColorPaletteGeneration/Scripts/PaletteUsingInput.cs:101 | after the epoch the main hue lies in [0, 0.944], and entry 0 carries it unwrapped |
| PaletteInput.DefaultColorPalette | Assets/ColorPaletteGeneration/Scripts/PaletteUsingInput.cs:24 | the default red input is ColorHSL(0, 1, 0.5), and its palette has hues i * 0.05 and saturations 1 - i * 0.15 |
| PaletteInput.ColorScalars | Assets/ColorPaletteGeneration/Scripts/PaletteUsingInput.cs:121-125 | the main hue, saturation and luminance are the seed colour's own; a grey seed turns the hue back by 0.2 per step and gives no saturation shift |
| PaletteInput.ColorScalarsBounds | Assets/ColorPaletteGeneration/Scripts/PaletteUsingInput.cs:121-125 | for a valid seed colour: hueShift in [-0.2, 0.3], saturationShift in [0, 0.2], luminanceShift in [-0.07, 0.07] |
| PaletteInput.ColorPaletteFromInput | Assets/ColorPaletteGeneration/Scripts/PaletteUsingInput.cs:117-132 | entry 0 is the seed colour itself, and saturation never rises |
| PaletteInput.ColorPaletteGrey | Assets/ColorPaletteGeneration/Scripts/PaletteUsingInput.cs:121-130 | a grey seed gives an all-grey palette whose hue steps back by 0.2 |
| PaletteInput.VariableScalars | Assets/ColorPaletteGeneration/Scripts/PaletteUsingInput.cs:139-143 | whatever A, B, C and Sin: hueShift in [0.05, 0.15], mainSaturation in [0, 1), saturationShift in [0, 0.2], luminanceShift in [-0.1, 0.1] |
| PaletteInput.VariableScalarsBounds | Assets/ColorPaletteGeneration/Scripts/PaletteUsingInput.cs:139-143 | hueShift in [0.05, 0.15], mainSaturation in [0, 1), saturationShift in [0, 0.2], mainLuminance in [0.3, 0.7], luminanceShift in [-0.1, 0.1] |
| PaletteInput.VariablePalette | Assets/ColorPaletteGeneration/Scripts/PaletteUsingInput.cs:138-150 | h[0] = Repeat(A + B, 1) with the main saturation and luminance; saturation never rises; each hue step travels 0.05 to 0.15 of a turn, so neighbours always differ |
| PaletteInput.VariableHueStep | Assets/ColorPaletteGeneration/Scripts/PaletteUsingInput.cs:147 | a turn by d in [0.05, 0.15] is travelled as exactly d and lands on a different hue |
| PaletteInput.VariableHueTravel | Assets/ColorPaletteGeneration/Scripts/PaletteUsingInput.cs:139-147 | with a hue step in [0.05, 0.15], each hue is reached from the previous one by exactly that step the short way round, so neighbours never share a hue |
| PaletteInput.InputPalette | Assets/ColorPaletteGeneration/Scripts/PaletteUsingInput.cs:67-78 | the palette of the chosen input method has six entries |
| PaletteInput.PaletteUsingInput.constructor | Assets/ColorPaletteGeneration/Scripts/PaletteUsingInput.cs:23-49 | the inspector defaults (timestamp input, red, A = 0, B = 1, C = 0.5) and the starting palette |
| PaletteInput.PaletteUsingInput.UnixPalette | Assets/ColorPaletteGeneration/Scripts/PaletteUsingInput.cs:95-114 | the palette becomes the linear palette of the timestamp's scalars |
| PaletteInput.PaletteUsingInput.ColorBasedPalette | Assets/ColorPaletteGeneration/Scripts/PaletteUsingInput.cs:116-133 | the palette becomes the linear palette of the seed colour's scalars |
| PaletteInput.PaletteUsingInput.VariableBasedPalette | Assets/ColorPaletteGeneration/Scripts/PaletteUsingInput.cs:135-151 | the palette becomes the linear palette of A, B and C's scalars |
| PaletteInput.PaletteUsingInput.NewColorPalette | Assets/ColorPaletteGeneration/Scripts/PaletteUsingInput.cs:67-78 | exactly the generator of the chosen input method runs |
| TimedPalette.TimeScalars | Assets/ColorPaletteGeneration/Scripts/TimedColor.cs:56-61 | whatever Sin and Cos: for t >= 0 the main hue lies in [0, 0.96); the main saturation lies in [0.3, 0.8] and its shift in [0.01, 0.11] |
| TimedPalette.TimeScalarsBounds | Assets/ColorPaletteGeneration/Scripts/TimedColor.cs:56-61 | for t >= 0 the main hue lies in [0, 0.96); hueShift in [-0.1, 0.1]; mainSaturation in [0.3, 0.8]; saturationShift in [0.01, 0.11]; mainLuminance in [0.25, 0.75] |
| TimedPalette.TimedHue | Assets/ColorPaletteGeneration/Scripts/TimedColor.cs:56-65 | for t >= 0 entry 0 carries the main hue, and consecutive hues are at most 0.1 apart on the circle |
| TimedPalette.TimedSaturation | Assets/ColorPaletteGeneration/Scripts/TimedColor.cs:58-66 | s[0] is the main saturation, unclamped, and saturation never rises |
| TimedPalette.TimedLightness | Assets/ColorPaletteGeneration/Scripts/TimedColor.cs:60-67 | l[0] is the main luminance; every lightness lies in [0.25, 0.75] and is no further from 0.5 than the one before; l[5] = 0.5 |
| TimedPalette.TimedColor.constructor | Assets/ColorPaletteGeneration/Scripts/TimedColor.cs:25-32 | the starting palette |
| TimedPalette.TimedColor.TimeBasedPalette | Assets/ColorPaletteGeneration/Scripts/TimedColor.cs:53-69 | the palette becomes the linear palette of the time's scalars, whatever it held before, so it depends only on the time |
| ObjectBasis.ApplyOnObjecBasis.constructor | Assets/ColorPaletteGeneration/Scripts/ApplyOnObjecBasis.cs:17-24 | the starting palette |
| ObjectBasis.ApplyOnObjecBasis.UNIXpalette | Assets/ColorPaletteGeneration/Scripts/ApplyOnObjecBasis.cs:45-61 | the palette becomes exactly the one TimedColor.TimeBasedPalette makes for the same time, so all the TimedPalette lemmas apply |
| PropertyBlocks.BlockScalars | Assets/ColorPaletteGeneration/Scripts/ApplyPropertyBlocks.cs:74-81 | for u >= 0, whatever Sin and Cos: mainHue in [0, 0.944]; mainSaturation in [0.5, 0.9995]; saturationShift in [-0.1, 0.068], negative exactly when u % 7 <= 3; luminanceShift in [-0.1, 0.065], negative exactly when u % 6 <= 3 |
| PropertyBlocks.BlockScalarsBounds | Assets/ColorPaletteGeneration/Scripts/ApplyPropertyBlocks.cs:74-81 | for u >= 0: mainHue in [0, 0.944]; mainSaturation in [0.5, 0.9995]; saturationShift in [-0.1, 0.068], negative exactly when u % 7 <= 3; luminanceShift in [-0.1, 0.065], negative exactly when u % 6 <= 3 |
| PropertyBlocks.BlockSaturation | Assets/ColorPaletteGeneration/Scripts/ApplyPropertyBlocks.cs:77-86 | s[0] is the main saturation, unclamped; saturation rises along the palette when u % 7 <= 3 and falls otherwise |
| PropertyBlocks.BlockLightness | Assets/ColorPaletteGeneration/Scripts/ApplyPropertyBlocks.cs:80-87 | l[0] is the main luminance; lightness falls along the palette when u % 6 <= 3 and rises otherwise |
| PropertyBlocks.BlockPeriod | Assets/ColorPaletteGeneration/Scripts/ApplyPropertyBlocks.cs:74-81 | after the epoch the scalars, and so the palette, repeat every 21000 seconds |
| PropertyBlocks.ApplyPropertyBlocks.constructor | Assets/ColorPaletteGeneration/Scripts/ApplyPropertyBlocks.cs:23-30 | the starting palette |
| PropertyBlocks.ApplyPropertyBlocks.UNIXpalette | Assets/ColorPaletteGeneration/Scripts/ApplyPropertyBlocks.cs:69-89 | the palette becomes the linear palette of the timestamp's modulo scalars |

## Left out

- The Unity lifecycle (`Start`, `Awake`, `Update`, `FixedUpdate`), the update key and the
  collection of renderers: they schedule generation but compute nothing.
- The sinks that only read the finished palette: `material.SetColor`,
  `MaterialPropertyBlock`, the fog colour and the skybox colours (entries 2 and 5).
- `ObjectBasedColor.cs` is not part of this model. It is renderer plumbing and an
  endless coroutine around the index pick `colorID % colorPalette.Length`.
- `Color.RGBToHSV` and `Color.HSVToRGB` are Unity library calls. The Color constructor
  and the `rgb` setter take the HSV triple RGBToHSV would return. The `rgb` getter takes
  the pure-hue triple HSVToRGB would return. No RGB-to-HSL round trip is stated, since it
  would need those library bodies.
- The three `ColorHSL.Lerp` overloads that take a `Color` only convert their argument and
  call the HSL overload. They add nothing beyond the Color constructor.
- `Mathf.Sin` and `Mathf.Cos`: only their range [-1, 1] is used.
- Float rounding. Over exact reals, identities such as l[5] = 0.5 hold exactly, and
  `Mathf.Repeat`'s final clamp into [0, length] changes nothing. Neither is guaranteed in
  single precision.
- The timestamp is an unbounded int. The `(int)` cast of the seconds since 1970
  overflows in 2038; that is not modelled.
- Time and randomness are parameters. The methods accept any draw, and the ranges
  `Random.Range` guarantees appear only as lemma hypotheses: `DrawsInRange` in
  `NewPaletteInRange`, and the requires of `SaturationGroups`, `LightnessUnclamped`,
  `AlternateBalances` and others.
  The one exception is `PaletteUsingRandoms.NewColorPalette`, which requires the scheme
  draw in [0, 5) because the enum cast needs it.
- PaletteInput.InputPalette: only states the length. What each branch produces is
  stated by the three generator methods and their lemmas.
- PaletteRandoms.NewPalette: only states the length. Its properties are the lemmas
  `NewPaletteOverwrites`, `NewPaletteAdaptive` and `NewPaletteInRange`, and those about
  each pass.
