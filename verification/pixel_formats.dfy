/** The FFmpeg side of a decoded picture: its pixel format and that format's descriptor. */
module AV {

  /**
   * The pixel formats icon loading distinguishes. The twelve named ones are
   * the packed RGB layouts it can hand to SDL; every other member of
   * FFmpeg's `enum AVPixelFormat` (YUV, planar RGB, palettes, little-endian
   * 16-bit RGB, ...) is `Other`, told apart by its numeric value. An
   * `Other` never stands for one of the twelve named formats: its `id` is
   * the value of a format outside them.
   */
  datatype PixelFormat =
    | Rgb24 | Bgr24
    | Argb | Rgba | Abgr | Bgra
    | Rgb565Be | Rgb555Be | Bgr565Be | Bgr555Be | Rgb444Be | Bgr444Be
    | Other(id: int)

  /**
   * What icon loading reads from `AVPixFmtDescriptor`: the RGB and PLANAR
   * flags and the bit count `av_get_bits_per_pixel` derives from it.
   */
  datatype Descriptor = Descriptor(name: string, rgb: bool, planar: bool, bitsPerPixel: int)
}

/** The SDL side: the pixel formats an SDL surface can be created with. */
module SDL {

  datatype PixelFormat =
    | Unknown
    | Rgb24 | Bgr24
    | Argb32 | Rgba32 | Abgr32 | Bgra32
    | Rgb565 | Rgb555 | Bgr565 | Bgr555 | Rgb444 | Bgr444
}
