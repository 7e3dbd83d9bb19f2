# Shrink-on-load planner (imgproxy), in Dafny

This project models imgproxy's shrink-on-load planner, `processing/scale_on_load.go`.
Before an image is fully decoded, the planner decides whether the decoder can
produce an already reduced raster. If so, it picks the power-of-two divisor to
ask for. After that reduced decode it recomputes the per-axis residual scale
that the later resize stage still has to apply.

- `image_types.dfy`, module `ImageTypes`: the image formats the planner tells apart
  (`Jpeg`, `Webp`, `Svg`, `Other`). It also has a capability table: which formats
  are rasterised at any scale, and which shrink by an integer divisor while decoding.
- `planner.dfy`, module `Planner`: the three Go functions.
  - `canScaleOnLoad` becomes `CanScaleOnLoad`.
  - `calcJpegShink` becomes `CalcJpegShrink`, on top of `TruncToInt`, which models Go's `int(float64)` conversion.
  - `scaleOnLoad` becomes `ScaleOnLoad`. It is split into `PlanLoad` (the early returns and the choice of decoder call) and `Reconcile` (handling the decoder's answer). `ResidualScale` holds the per-axis recomputation with the snap to 1.0.
- `planner_properties.dfy`, module `PlannerProperties`: lemmas that relate
  several calls, or relate a call to an independent description. They cover
  eligibility against the capability table, the divisor as the largest safe
  divisor and as a capped power-of-two floor, antitonicity, the no-op paths, the invariant of the residual scales,
  independence of the two axes, and worked example scenarios.

Modelling choices:
- `float64` values are `real`.
- `int(1.0/scale)` is `TruncToInt(1.0 / scale)`, which truncates toward zero.
- `math.Max` is `Prescale`.
- The decoder (`img.Load` followed by `extractMeta`) is a function parameter of
  type `Decoder`. It maps the bytes, the divisor and the scale hint to either a
  `LoadFailed` error or the positive decoded `(width, height)`.
- `imath.Scale` is a function parameter of type `PixelScale`, and nothing is assumed about it.
- The global `config.DisableShrinkOnLoad` is passed in as the parameter `disableShrinkOnLoad`.
- `imgdata == nil` is `imgdata.None?`.
- Go's `scaleOnLoad` mutates the context and returns an error. `ScaleOnLoad` instead
  returns an `Outcome`: the context afterwards, the error, and the decoder call
  that was made, if any. That last field makes "the decoder is not called" something
  a contract can state.

## Model

| member | source | states |
|---|---|---|
| Planner.Prescale | processing/scale_on_load.go:42 | the dominant scale is one of the two axis scales and is at least both |
| Planner.CanScaleOnLoad | processing/scale_on_load.go:14-24 | SVG is eligible whatever the scale and the switch. Any other format is ineligible when the switch is on or the scale is at least 1. Otherwise it is eligible exactly when it is JPEG or WebP |
| Planner.TruncToInt | processing/scale_on_load.go:27 | Go's float-to-int conversion: the integer part toward zero. It is at most the value and within 1 of it for non-negative inputs, mirrored for negative ones |
| Planner.CalcJpegShrink | processing/scale_on_load.go:26-39 | the divisor is in {1, 2, 4, 8}. It is the largest of them not above `int(1/scale)`, or 1 when none of 2, 4, 8 is |
| Planner.ShrinkNeverOvershoots | processing/scale_on_load.go:26-39 | for a non-zero scale of at most 1, `shrink * scale <= 1`; for a scale in (0, 1] the divisor is also at most `int(1/scale)`. So the decoded raster is never smaller than the target |
| Planner.ShrinkNeverOvershootsBelowOne | processing/scale_on_load.go:14-38 | for an eligible raster format, the chosen divisor never overshoots the scale |
| Planner.ResidualScale | processing/scale_on_load.go:61-69 | the residual scale is exactly 1.0 when the pixel scaling function maps the source dimension to itself under the unsnapped value. Otherwise, applied to the decoded dimension, it gives exactly the requested target `src * scale` |
| Planner.PlanLoad | processing/scale_on_load.go:42-52 | no decoder call is planned when the context is trimmed, the dominant scale is 1, there are no bytes, the format is ineligible, or a JPEG would get divisor 1. In every other case a call is planned (both directions). The planned call carries the bytes, `CalcJpegShrink` of the dominant scale, and that scale as hint. Its divisor is in {1, 2, 4, 8}, at least 2 for JPEG, and never overshoots for raster formats |
| Planner.Reconcile | processing/scale_on_load.go:54-69 | a decoder failure is returned verbatim and the context is unchanged. A success returns no error and replaces each axis scale by its own residual scale. No other context field ever changes |
| Planner.ScaleOnLoad | processing/scale_on_load.go:41-72 | the decoder is called exactly as `PlanLoad` says. Without a call there is no error and the context is unchanged. With a call, the context and error follow from the decoder's answer through `Reconcile`. Only `wscale` and `hscale` can change, and they do not change on an error |
| PlannerProperties.EligibilityFollowsCapabilities | processing/scale_on_load.go:14-24 | eligible exactly when the format decodes at any scale, or shrinks on decode while the switch is off and the scale is below 1 |
| PlannerProperties.EligibilityAntitoneInScale | processing/scale_on_load.go:19-21 | a format eligible at a scale stays eligible at every smaller scale |
| PlannerProperties.DisableSwitchOnlyRemovesRaster | processing/scale_on_load.go:14-21 | with the switch on, only SVG is eligible, and turning the switch off never removes eligibility |
| PlannerProperties.SafeIntegersBelowTrunc | processing/scale_on_load.go:27 | for a positive scale, every integer `d` with `d * scale <= 1` is at most `int(1/scale)` |
| PlannerProperties.ShrinkIsLargestSafeDivisor | processing/scale_on_load.go:26-39 | for a scale in (0, 1], the divisor satisfies `shrink * scale <= 1`, and every divisor in {1, 2, 4, 8} that does so is at most it |
| PlannerProperties.StaircaseMonotone | processing/scale_on_load.go:29-38 | the staircase never steps down as `int(1/scale)` grows |
| PlannerProperties.ShrinkAntitone | processing/scale_on_load.go:26-39 | a smaller positive scale never yields a smaller divisor |
| PlannerProperties.PowerOfTwoFloor | processing/scale_on_load.go:29-38 | the reference for the staircase: a power of two `p` with `p <= n < 2p` |
| PlannerProperties.PowersOfTwoUpToEight | processing/scale_on_load.go:29-38 | the divisors the staircase can return are exactly the powers of two up to 8 (both directions) |
| PlannerProperties.ShrinkIsCappedPowerOfTwoFloor | processing/scale_on_load.go:26-39 | the divisor is `int(1/scale)` snapped down to a power of two, capped at 8, and taken as 1 when `int(1/scale)` is below 1 |
| PlannerProperties.StaircaseSamples | processing/scale_on_load.go:26-39 | scales 0.6, 0.49, 0.24 and 0.1 give divisors 1, 2, 4 and 8 |
| PlannerProperties.UpscaleNeverLoadsRaster | processing/scale_on_load.go:19-46 | for a non-SVG format with dominant scale at least 1, the run makes no decoder call, returns no error and changes nothing |
| PlannerProperties.OtherFormatsNeverLoad | processing/scale_on_load.go:14-46 | a format other than JPEG, WebP and SVG never gets a decoder call, whatever its scales |
| PlannerProperties.DisableSwitchEffect | processing/scale_on_load.go:14-46 | for SVG the switch does not change the outcome. For any other format, turning the switch on makes the run a no-op |
| PlannerProperties.ResidualCases | processing/scale_on_load.go:61-69 | every residual scale either takes the decoded dimension to the requested target, or is 1.0 because the snap condition held |
| PlannerProperties.ResidualReachesTarget | processing/scale_on_load.go:58-69 | after a successful decode both axes keep that invariant and no error is returned |
| PlannerProperties.ExactDecodeLeavesNoResidual | processing/scale_on_load.go:61-69 | when the decoded dimension equals the requested target `src * scale`, the residual scale is exactly 1.0 |
| PlannerProperties.AxesReconciledIndependently | processing/scale_on_load.go:61-69 | the new width scale depends only on the source width, the width scale and the decoded width. The same holds for height |
| PlannerProperties.JpegTenthScenario | processing/scale_on_load.go:41-72 | a 4000x3000 JPEG at scale 0.1 is decoded with divisor 8. If the decoder returns 500x375 and no snap applies, both residual scales are 0.8 |
| PlannerProperties.JpegNearOneScenario | processing/scale_on_load.go:48-52 | a JPEG at scale 0.9 gets divisor 1 and is left alone without a decoder call |
| PlannerProperties.SvgUpscaleScenario | processing/scale_on_load.go:14-54 | an SVG upscaled by 2 still gets a decoder call, with divisor 1 and hint 2, even with the switch on. If the decoder renders it at exactly 200x100, both residual scales become 1.0 and no error is returned |

## Left out

- The decode itself (`vips.Image.Load`), and the orientation handling of `extractMeta` that turns its result into the decoded width and height. These are libvips calls. They are the `Decoder` parameter, whose answer is an error or positive dimensions. The `pages` argument (always 1) and the `po.Rotate` / `po.AutoRotate` options reach only these calls, so they are not modelled.
- The body of `imath.Scale`. It is not part of this model, so it is the uninterpreted `PixelScale` parameter. A round-trip law for the rounding function is therefore not stated: that the recomputed residual, applied by `imath.Scale`, reproduces the target dimension. The exact real-number version, `residual * decoded == src * scale`, is proved instead, in `ResidualScale` and the lemma `ResidualCases`.
- The snap tests at processing/scale_on_load.go:62 and :67 apply the new residual to the source dimension, while the resize stage applies it to the decoded one. Under a round-to-nearest `imath.Scale` this can drop a small residual. For example, an SVG 100 px wide at scale 10.04, decoded to 1000 px, gets residual 1.004, and `Scale(100, 1.004) == 100` snaps it to 1.0. The model keeps the test as written. The discrepancy is not proved, because it depends on the body of `imath.Scale`.
- IEEE-754 behaviour: rounding of `float64` arithmetic, NaN and infinities. Scales are `real`.
- CalcJpegShrink: assumes a non-zero scale, and `int(1/scale)` is unbounded. In Go, `int(+Inf)` for a zero scale is implementation-defined. So is `int(1/scale)` for scales below 2^-63, where the quotient overflows int64. `ScaleOnLoad` and `PlanLoad` therefore require a non-zero dominant scale.
- The unused `imgtype` parameter of `calcJpegShink` is dropped, because it does not affect the result.
- The global `config` package is replaced by the `disableShrinkOnLoad` parameter.
- The contents of `imagedata.ImageData` are only passed through to the decoder.
- The image type package is not part of this model. Formats other than JPEG, WebP and SVG are one `Other` constructor, since the planner treats them all alike.
- The fields of the pipeline context that the planner neither reads nor writes are not modelled. The `r.ctx == ctx.(wscale := …, hscale := …)` contracts state that every modelled field other than the two scales is unchanged.
