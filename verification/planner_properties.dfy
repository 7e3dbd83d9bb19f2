/**
 Properties of the shrink-on-load planner that relate several calls, or a
 call and an independent description of what it should compute.
 */
module PlannerProperties {
  import opened ImageTypes
  import opened Planner

  // ---------------------------------------------------------------------------
  // Eligibility

  /** Eligibility is exactly the capability table: a vector decoder always
      qualifies; a shrinking raster decoder qualifies for a downscale while the
      switch is off; no other format ever does. */
  lemma EligibilityFollowsCapabilities(t: ImageType, scale: real, disableShrinkOnLoad: bool)
    ensures CanScaleOnLoad(t, scale, disableShrinkOnLoad) <==>
              DecodesAtAnyScale(t) || (ShrinksOnDecode(t) && !disableShrinkOnLoad && scale < 1.0)
  {}

  /** A format eligible at some scale stays eligible at every smaller scale. */
  lemma EligibilityAntitoneInScale(t: ImageType, small: real, large: real, disableShrinkOnLoad: bool)
    requires small <= large
    ensures CanScaleOnLoad(t, large, disableShrinkOnLoad) ==> CanScaleOnLoad(t, small, disableShrinkOnLoad)
  {}

  /** Turning the switch on can only take eligibility away, and never from SVG. */
  lemma DisableSwitchOnlyRemovesRaster(t: ImageType, scale: real)
    ensures CanScaleOnLoad(t, scale, true) ==> CanScaleOnLoad(t, scale, false)
    ensures CanScaleOnLoad(t, scale, true) <==> t.Svg?
  {}

  // ---------------------------------------------------------------------------
  // The shrink divisor

  /** For a positive scale, no integer `d` with `d * scale <= 1` exceeds
      `int(1/scale)`. */
  lemma SafeIntegersBelowTrunc(scale: real, d: int)
    requires 0.0 < scale
    requires d as real * scale <= 1.0
    ensures d <= TruncToInt(1.0 / scale)
  {
    var inv := 1.0 / scale;
    assert inv * scale == 1.0;
    if inv < d as real {
      MulMonotone(inv, d as real, scale);
      assert false;
    }
  }

  /** The divisor is the largest one whose shrink keeps the decoded raster at
      least as large as the target: `shrink * scale <= 1`, and every larger
      divisor would break that. */
  lemma ShrinkIsLargestSafeDivisor(scale: real)
    requires 0.0 < scale <= 1.0
    ensures CalcJpegShrink(scale) as real * scale <= 1.0
    ensures forall d :: d in Divisors && d as real * scale <= 1.0 ==> d <= CalcJpegShrink(scale)
  {
    ShrinkNeverOvershoots(scale);
    forall d | d in Divisors && d as real * scale <= 1.0
      ensures d <= CalcJpegShrink(scale)
    {
      SafeIntegersBelowTrunc(scale, d);
    }
  }

  /** The staircase never steps down as `int(1/scale)` grows. */
  lemma StaircaseMonotone(d1: int, raw1: int, d2: int, raw2: int)
    requires raw1 <= raw2
    requires IsLargestDivisorWithin(d1, raw1) && IsLargestDivisorWithin(d2, raw2)
    ensures d1 <= d2
  {
    if d1 != 1 {
      assert d1 in Divisors && d1 <= raw2;
    }
  }

  /** A smaller scale never yields a smaller divisor. */
  lemma ShrinkAntitone(small: real, large: real)
    requires 0.0 < small <= large
    ensures CalcJpegShrink(small) >= CalcJpegShrink(large)
  {
    var invSmall := 1.0 / small;
    var invLarge := 1.0 / large;
    assert invLarge <= invSmall by {
      assert invSmall * small == 1.0 && invLarge * large == 1.0;
      if invSmall < invLarge {
        MulMonotone(invSmall, invLarge, small);
        MulMonotone(small, large, invLarge);
        assert false;
      }
    }
    StaircaseMonotone(CalcJpegShrink(large), TruncToInt(invLarge), CalcJpegShrink(small), TruncToInt(invSmall));
  }

  /** `n` is 1, 2, 4, 8, ... */
  ghost predicate IsPowerOfTwo(n: int)
    decreases n
  {
    n == 1 || (n > 1 && n % 2 == 0 && IsPowerOfTwo(n / 2))
  }

  /** The largest power of two not above `n`. */
  function PowerOfTwoFloor(n: int): (p: int)
    requires n >= 1
    ensures IsPowerOfTwo(p)
    ensures p <= n < 2 * p
    decreases n
  {
    if n == 1 then 1 else 2 * PowerOfTwoFloor(n / 2)
  }

  /** The divisors are exactly the powers of two up to 8. */
  lemma {:induction false} PowersOfTwoUpToEight(p: int)
    ensures IsPowerOfTwo(p) && p <= 8 <==> p in Divisors
  {
    if IsPowerOfTwo(p) && p <= 8 && p != 1 {
      assert IsPowerOfTwo(p / 2) && p / 2 <= 4;
      if p / 2 != 1 {
        assert IsPowerOfTwo(p / 4) && p / 4 <= 2;
      }
    }
    if p in Divisors {
      assert IsPowerOfTwo(1);
      assert IsPowerOfTwo(2);
      assert IsPowerOfTwo(4);
      assert IsPowerOfTwo(8);
    }
  }

  /** The divisor as a capped power-of-two floor: `int(1/scale)` snapped down to
      the nearest power of two, capped at the decoder's largest divisor 8, and
      1 when `int(1/scale)` is below 1. */
  lemma ShrinkIsCappedPowerOfTwoFloor(scale: real)
    requires scale != 0.0
    ensures var raw := TruncToInt(1.0 / scale);
            CalcJpegShrink(scale) == PowerOfTwoFloor(if raw < 1 then 1 else if raw > 8 then 8 else raw)
  {
    var raw := TruncToInt(1.0 / scale);
    var capped := if raw < 1 then 1 else if raw > 8 then 8 else raw;
    var p := PowerOfTwoFloor(capped);
    PowersOfTwoUpToEight(p);
  }

  /** The staircase on four sample scales. */
  lemma StaircaseSamples()
    ensures CalcJpegShrink(0.6) == 1
    ensures CalcJpegShrink(0.49) == 2
    ensures CalcJpegShrink(0.24) == 4
    ensures CalcJpegShrink(0.1) == 8
  {
    assert TruncToInt(1.0 / 0.6) == 1;
    assert TruncToInt(1.0 / 0.49) == 2;
    assert TruncToInt(1.0 / 0.24) == 4;
    assert TruncToInt(1.0 / 0.1) == 10;
  }

  // ---------------------------------------------------------------------------
  // The planner as a whole

  /** Upscaling a raster image never calls the decoder and changes nothing. */
  lemma UpscaleNeverLoadsRaster(
    ctx: PipelineContext, imgdata: Option<ImageData>, disableShrinkOnLoad: bool,
    decode: Decoder, pixelScale: PixelScale)
    requires !ctx.imgtype.Svg? && Prescale(ctx) >= 1.0
    ensures ScaleOnLoad(ctx, imgdata, disableShrinkOnLoad, decode, pixelScale) == Outcome(ctx, None, None)
  {}

  /** A format without decode-time shrinking behaves as an upscale does,
      whatever its scales. */
  lemma OtherFormatsNeverLoad(
    ctx: PipelineContext, imgdata: Option<ImageData>, disableShrinkOnLoad: bool,
    decode: Decoder, pixelScale: PixelScale)
    requires ctx.imgtype.Other? && Prescale(ctx) != 0.0
    ensures ScaleOnLoad(ctx, imgdata, disableShrinkOnLoad, decode, pixelScale) == Outcome(ctx, None, None)
  {}

  /** The switch decides nothing for SVG, and for a raster format it turns
      every run into a no-op. */
  lemma DisableSwitchEffect(
    ctx: PipelineContext, imgdata: Option<ImageData>, decode: Decoder, pixelScale: PixelScale)
    requires Prescale(ctx) != 0.0
    ensures ctx.imgtype.Svg? ==>
              ScaleOnLoad(ctx, imgdata, true, decode, pixelScale) == ScaleOnLoad(ctx, imgdata, false, decode, pixelScale)
    ensures !ctx.imgtype.Svg? ==> ScaleOnLoad(ctx, imgdata, true, decode, pixelScale) == Outcome(ctx, None, None)
  {}

  /** The invariant a residual scale keeps after a reduced decode: applied to
      the decoded dimension it gives exactly the requested target
      `src * scale`, unless it was snapped to 1.0 because the pixel scaling
      function reproduces the source dimension with the unsnapped value. */
  ghost predicate ReachesTarget(src: Pixels, scale: real, decoded: Pixels, residual: real, pixelScale: PixelScale)
  {
    || residual * decoded as real == src as real * scale
    || (residual == 1.0 && pixelScale(src, src as real * scale / decoded as real) == src)
  }

  /** Every residual scale keeps that invariant. */
  lemma ResidualCases(src: Pixels, scale: real, decoded: Pixels, pixelScale: PixelScale)
    ensures ReachesTarget(src, scale, decoded, ResidualScale(src, scale, decoded, pixelScale), pixelScale)
  {}

  /** After a successful reduced decode, both axes keep the invariant, and no
      error is returned. */
  lemma ResidualReachesTarget(ctx: PipelineContext, out: LoadOutcome, pixelScale: PixelScale)
    requires out.Loaded?
    ensures Reconcile(ctx, out, pixelScale).1.None?
    ensures ReachesTarget(ctx.srcWidth, ctx.wscale, out.width, Reconcile(ctx, out, pixelScale).0.wscale, pixelScale)
    ensures ReachesTarget(ctx.srcHeight, ctx.hscale, out.height, Reconcile(ctx, out, pixelScale).0.hscale, pixelScale)
  {
    ResidualCases(ctx.srcWidth, ctx.wscale, out.width, pixelScale);
    ResidualCases(ctx.srcHeight, ctx.hscale, out.height, pixelScale);
  }

  /** When the decoder hits the requested target exactly, the residual is 1.0,
      whether or not the snap applies. */
  lemma ExactDecodeLeavesNoResidual(src: Pixels, scale: real, decoded: Pixels, pixelScale: PixelScale)
    requires decoded as real == src as real * scale
    ensures ResidualScale(src, scale, decoded, pixelScale) == 1.0
  {}

  /** The width residual depends only on the source width, the width scale
      and the decoded width; the height residual only on their height
      counterparts. */
  lemma AxesReconciledIndependently(
    ctx1: PipelineContext, out1: LoadOutcome, ctx2: PipelineContext, out2: LoadOutcome, pixelScale: PixelScale)
    requires out1.Loaded? && out2.Loaded?
    ensures ctx1.srcWidth == ctx2.srcWidth && ctx1.wscale == ctx2.wscale && out1.width == out2.width ==>
              Reconcile(ctx1, out1, pixelScale).0.wscale == Reconcile(ctx2, out2, pixelScale).0.wscale
    ensures ctx1.srcHeight == ctx2.srcHeight && ctx1.hscale == ctx2.hscale && out1.height == out2.height ==>
              Reconcile(ctx1, out1, pixelScale).0.hscale == Reconcile(ctx2, out2, pixelScale).0.hscale
  {}

  // ---------------------------------------------------------------------------
  // Scenarios

  /** A 4000x3000 JPEG at scale 0.1 is decoded with divisor 8; if the decoder
      answers 500x375, both residual scales are 0.8 unless the pixel scaling
      function snaps them. */
  lemma JpegTenthScenario(decode: Decoder, pixelScale: PixelScale)
    requires decode(ImageData([]), 8, 0.1) == Loaded(500, 375)
    requires pixelScale(4000, 0.8) != 4000 && pixelScale(3000, 0.8) != 3000
    ensures var ctx := PipelineContext(Jpeg, false, 4000, 3000, 0.1, 0.1);
            var r := ScaleOnLoad(ctx, Some(ImageData([])), false, decode, pixelScale);
            && r.request == Some(LoadRequest(ImageData([]), 8, 0.1))
            && r.err.None?
            && r.ctx == ctx.(wscale := 0.8, hscale := 0.8)
  {
    StaircaseSamples();
    var ctx := PipelineContext(Jpeg, false, 4000, 3000, 0.1, 0.1);
    assert 4000 as real * 0.1 / 500 as real == 0.8;
    assert 3000 as real * 0.1 / 375 as real == 0.8;
  }

  /** A JPEG at scale 0.9 would be decoded with divisor 1, so the planner
      skips the decode altogether. */
  lemma JpegNearOneScenario(decode: Decoder, pixelScale: PixelScale)
    ensures var ctx := PipelineContext(Jpeg, false, 4000, 3000, 0.9, 0.9);
            ScaleOnLoad(ctx, Some(ImageData([])), false, decode, pixelScale) == Outcome(ctx, None, None)
  {
    assert TruncToInt(1.0 / 0.9) == 1;
  }

  /** An SVG upscaled by 2 is still rasterised by the decoder, with divisor 1
      and the scale 2 as hint, even with the switch on. When the decoder
      renders it at exactly twice its size, both residual scales settle to 1.0. */
  lemma SvgUpscaleScenario(decode: Decoder, pixelScale: PixelScale)
    requires decode(ImageData([]), 1, 2.0) == Loaded(200, 100)
    ensures var ctx := PipelineContext(Svg, false, 100, 50, 2.0, 2.0);
            var r := ScaleOnLoad(ctx, Some(ImageData([])), true, decode, pixelScale);
            && r.request == Some(LoadRequest(ImageData([]), 1, 2.0))
            && r.err.None?
            && r.ctx == ctx.(wscale := 1.0, hscale := 1.0)
  {
    assert TruncToInt(1.0 / 2.0) == 0;
    ExactDecodeLeavesNoResidual(100, 2.0, 200, pixelScale);
    ExactDecodeLeavesNoResidual(50, 2.0, 100, pixelScale);
  }

}
