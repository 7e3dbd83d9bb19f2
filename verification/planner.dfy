/**
 The shrink-on-load planner of processing/scale_on_load.go.

 Before an image is decoded, the planner decides whether the decoder can be
 asked for an already reduced raster, and by which divisor; after such a
 reduced decode it recomputes the per-axis residual scale that the resize
 stage must still apply. Floating-point values are modelled as `real`, Go's
 `int(x)` conversion as truncation toward zero, the decoder and the pixel
 rounding function `imath.Scale` as function parameters.
 */
module Planner {
  import opened ImageTypes

  datatype Option<T> = None | Some(value: T)

  /** A pixel dimension: a positive number of pixels. */
  type Pixels = n: int | n > 0 witness 1

  /** The undecoded source bytes; their contents are only passed through. */
  datatype ImageData = ImageData(bytes: seq<bv8>)

  /** The one error kind of this core: the decoder could not produce a raster. */
  datatype LoadError = LoadError(message: string)

  /** What the decoder reports: the dimensions of the decoded raster after
      orientation is normalised, or the failure it raised. */
  datatype LoadOutcome = Loaded(width: Pixels, height: Pixels) | LoadFailed(error: LoadError)

  /** The arguments of one call into the decoder: the bytes, the shrink divisor
      and the scale hint (the dominant scale). */
  datatype LoadRequest = LoadRequest(data: ImageData, shrink: int, scale: real)

  /** The decoder, `img.Load` followed by reading the decoded dimensions back. */
  type Decoder = (ImageData, int, real) -> LoadOutcome

  /** The pipeline's pixel-scaling function `imath.Scale`: the dimension that a
      source dimension becomes under a scale. Nothing is assumed about it. */
  type PixelScale = (int, real) -> int

  /** The part of the per-request pipeline context that the planner reads or
      writes. `wscale` and `hscale` are the scales still to be applied to the
      source width and height. */
  datatype PipelineContext = PipelineContext(
    imgtype: ImageType,
    trimmed: bool,
    srcWidth: Pixels,
    srcHeight: Pixels,
    wscale: real,
    hscale: real
  )

  /** The effect of one run of the planner: the context afterwards, the error
      it returns, and the decoder call it made, if any. */
  datatype Outcome = Outcome(ctx: PipelineContext, err: Option<LoadError>, request: Option<LoadRequest>)

  /** The divisors a decoder can shrink by. */
  const Divisors: set<int> := {1, 2, 4, 8}

  /** The dominant scale, `math.Max(wscale, hscale)`. */
  function Prescale(ctx: PipelineContext): (m: real)
    ensures m >= ctx.wscale && m >= ctx.hscale
    ensures m == ctx.wscale || m == ctx.hscale
  {
    if ctx.wscale >= ctx.hscale then ctx.wscale else ctx.hscale
  }

  /** Whether the image may be decoded at a reduced size: SVG always; JPEG and
      WebP only for a downscale and while the global switch is off; nothing else. */
  function CanScaleOnLoad(t: ImageType, scale: real, disableShrinkOnLoad: bool): (r: bool)
    ensures t.Svg? ==> r
    ensures !t.Svg? && (disableShrinkOnLoad || scale >= 1.0) ==> !r
    ensures !t.Svg? && !disableShrinkOnLoad && scale < 1.0 ==> (r <==> t.Jpeg? || t.Webp?)
  {
    if t.Svg? then true
    else if disableShrinkOnLoad || scale >= 1.0 then false
    else t.Jpeg? || t.Webp?
  }

  /** Go's conversion of a float to an integer: truncation toward zero. */
  function TruncToInt(x: real): (n: int)
    ensures 0.0 <= x ==> 0 <= n && n as real <= x < n as real + 1.0
    ensures x < 0.0 ==> n <= 0 && n as real - 1.0 < x <= n as real
  {
    if x >= 0.0 then x.Floor else -((-x).Floor)
  }

  /** `d` is the largest divisor not above `raw`, or 1 when no divisor but 1 is. */
  ghost predicate IsLargestDivisorWithin(d: int, raw: int)
  {
    && d in Divisors
    && (d == 1 || d <= raw)
    && forall e :: e in Divisors && e <= raw ==> e <= d
  }

  /** The decoder shrink divisor for a scale: `int(1/scale)` snapped down to
      the staircase 8, 4, 2, 1. */
  function CalcJpegShrink(scale: real): (shrink: int)
    requires scale != 0.0
    ensures shrink in Divisors
    ensures IsLargestDivisorWithin(shrink, TruncToInt(1.0 / scale))
  {
    var raw := TruncToInt(1.0 / scale);
    if raw >= 8 then 8
    else if raw >= 4 then 4
    else if raw >= 2 then 2
    else 1
  }

  /** The residual scale for one axis after the decoder produced `decoded`
      pixels from `src`: the scale that takes the decoded dimension to the
      requested target `src * scale`, snapped to exactly 1.0 when the pixel
      scaling function says it would leave the source dimension unchanged. */
  function ResidualScale(src: Pixels, scale: real, decoded: Pixels, pixelScale: PixelScale): (r: real)
    ensures pixelScale(src, src as real * scale / decoded as real) == src ==> r == 1.0
    ensures pixelScale(src, src as real * scale / decoded as real) != src ==>
              r * decoded as real == src as real * scale
  {
    var residual := src as real * scale / decoded as real;
    if pixelScale(src, residual) == src then 1.0 else residual
  }

  /** Lines 42-52 of `scaleOnLoad`: the early returns, and otherwise the
      decoder call to make. */
  function PlanLoad(ctx: PipelineContext, imgdata: Option<ImageData>, disableShrinkOnLoad: bool): (plan: Option<LoadRequest>)
    requires Prescale(ctx) != 0.0
    // the skip conditions
    ensures ctx.trimmed ==> plan.None?
    ensures Prescale(ctx) == 1.0 ==> plan.None?
    ensures imgdata.None? ==> plan.None?
    ensures !CanScaleOnLoad(ctx.imgtype, Prescale(ctx), disableShrinkOnLoad) ==> plan.None?
    ensures ctx.imgtype.Jpeg? && CalcJpegShrink(Prescale(ctx)) == 1 ==> plan.None?
    // and the decoder is called whenever none of them holds
    ensures plan.Some? <==>
              && !ctx.trimmed
              && Prescale(ctx) != 1.0
              && imgdata.Some?
              && CanScaleOnLoad(ctx.imgtype, Prescale(ctx), disableShrinkOnLoad)
              && !(ctx.imgtype.Jpeg? && CalcJpegShrink(Prescale(ctx)) == 1)
    // with the dominant scale as hint and a divisor that never overshoots it
    ensures plan.Some? ==>
              && imgdata.Some?
              && plan.value == LoadRequest(imgdata.value, CalcJpegShrink(Prescale(ctx)), Prescale(ctx))
              && plan.value.shrink in Divisors
              && (ctx.imgtype.Jpeg? ==> plan.value.shrink >= 2)
              && (!ctx.imgtype.Svg? ==> plan.value.shrink as real * plan.value.scale <= 1.0)
  {
    var prescale := Prescale(ctx);
    if ctx.trimmed || prescale == 1.0 || imgdata.None? || !CanScaleOnLoad(ctx.imgtype, prescale, disableShrinkOnLoad) then
      None
    else
      var jpegShrink := CalcJpegShrink(prescale);
      if ctx.imgtype.Jpeg? && jpegShrink == 1 then
        None
      else
        ShrinkNeverOvershootsBelowOne(ctx.imgtype, prescale, disableShrinkOnLoad);
        Some(LoadRequest(imgdata.value, jpegShrink, prescale))
  }

  /** Lines 54-69 of `scaleOnLoad`: what the context and the returned error
      become once the decoder has answered. */
  function Reconcile(ctx: PipelineContext, outcome: LoadOutcome, pixelScale: PixelScale): (r: (PipelineContext, Option<LoadError>))
    // only the two scales can change
    ensures r.0 == ctx.(wscale := r.0.wscale, hscale := r.0.hscale)
    // a decoder failure is returned verbatim and leaves the context alone
    ensures outcome.LoadFailed? ==> r == (ctx, Some(outcome.error))
    // a successful decode reconciles each axis from its own dimensions only
    ensures outcome.Loaded? ==>
              && r.1.None?
              && r.0.wscale == ResidualScale(ctx.srcWidth, ctx.wscale, outcome.width, pixelScale)
              && r.0.hscale == ResidualScale(ctx.srcHeight, ctx.hscale, outcome.height, pixelScale)
  {
    match outcome
    case LoadFailed(e) => (ctx, Some(e))
    case Loaded(newWidth, newHeight) =>
      var wscale := ResidualScale(ctx.srcWidth, ctx.wscale, newWidth, pixelScale);
      var hscale := ResidualScale(ctx.srcHeight, ctx.hscale, newHeight, pixelScale);
      (ctx.(wscale := wscale, hscale := hscale), None)
  }

  /** One run of `scaleOnLoad`: plan, call the decoder if the plan says so,
      and reconcile the scales with what it produced. */
  function ScaleOnLoad(
    ctx: PipelineContext,
    imgdata: Option<ImageData>,
    disableShrinkOnLoad: bool,
    decode: Decoder,
    pixelScale: PixelScale
  ): (r: Outcome)
    requires Prescale(ctx) != 0.0
    // only the two scales can ever change, and neither changes on an error
    ensures r.ctx == ctx.(wscale := r.ctx.wscale, hscale := r.ctx.hscale)
    ensures r.err.Some? ==> r.request.Some? && r.ctx == ctx
    // the decoder is called exactly as planned
    ensures r.request == PlanLoad(ctx, imgdata, disableShrinkOnLoad)
    // no call: no error and nothing changed
    ensures r.request.None? ==> r.ctx == ctx && r.err.None?
    // a call: the context and the error follow from the decoder's answer alone
    ensures r.request.Some? ==>
              (r.ctx, r.err) == Reconcile(ctx, decode(r.request.value.data, r.request.value.shrink, r.request.value.scale), pixelScale)
  {
    match PlanLoad(ctx, imgdata, disableShrinkOnLoad)
    case None => Outcome(ctx, None, None)
    case Some(request) =>
      var (ctx', err) := Reconcile(ctx, decode(request.data, request.shrink, request.scale), pixelScale);
      Outcome(ctx', err, Some(request))
  }

  /** `a <= b` is kept by multiplying both sides with a positive factor. */
  lemma MulMonotone(a: real, b: real, s: real)
    requires a <= b && 0.0 < s
    ensures a * s <= b * s
  {}

  /** The divisor never asks for more shrink than the scale allows: it is at
      most `int(1/scale)`, so the decoded raster is never smaller than the
      requested target. */
  lemma ShrinkNeverOvershoots(scale: real)
    requires scale != 0.0 && scale <= 1.0
    ensures 0.0 < scale ==> CalcJpegShrink(scale) <= TruncToInt(1.0 / scale)
    ensures CalcJpegShrink(scale) as real * scale <= 1.0
  {
    var shrink := CalcJpegShrink(scale);
    if scale > 0.0 {
      var inv := 1.0 / scale;
      assert inv * scale == 1.0;
      assert 1.0 <= inv by {
        if inv < 1.0 {
          MulMonotone(inv, 1.0, scale);
        }
      }
      var raw := TruncToInt(inv);
      assert shrink as real <= inv;
      MulMonotone(shrink as real, inv, scale);
    }
  }

  /** For a raster format, being eligible means the dominant scale is below 1,
      so the divisor chosen for it never overshoots. */
  lemma ShrinkNeverOvershootsBelowOne(t: ImageType, scale: real, disableShrinkOnLoad: bool)
    requires scale != 0.0 && CanScaleOnLoad(t, scale, disableShrinkOnLoad)
    ensures !t.Svg? ==> CalcJpegShrink(scale) as real * scale <= 1.0
  {
    if !t.Svg? {
      ShrinkNeverOvershoots(scale);
    }
  }
}
