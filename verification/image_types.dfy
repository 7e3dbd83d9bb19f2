/**
 The image formats as far as the shrink-on-load planner tells them apart,
 and the decoder capabilities that make a format eligible for decode-time
 shrinking.
 */
module ImageTypes {

  /** JPEG and WebP are the raster formats whose decoders shrink by an integer
      divisor; SVG is rasterised at any scale; every other format (PNG, GIF,
      HEIC, ...) is `Other` and carries its name only for readability. */
  datatype ImageType = Jpeg | Webp | Svg | Other(name: string)

  /** A vector decoder renders directly at the requested scale, so decoding at
      a reduced (or enlarged) size introduces no quantisation. */
  predicate DecodesAtAnyScale(t: ImageType)
  {
    t.Svg?
  }

  /** A raster decoder that can shrink by a power-of-two divisor while decoding. */
  predicate ShrinksOnDecode(t: ImageType)
  {
    t.Jpeg? || t.Webp?
  }
}
