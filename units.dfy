/** The unit of length the model works in. The source measures radii, widths
    and speeds in pixels, with a per-frame speed increment of 0.1 pixel; the
    model measures them in tenths of a pixel so that all of its arithmetic is
    on integers. */
module Units {

  /** Tenths of a pixel per pixel. */
  const Tenths: int := 10
}
