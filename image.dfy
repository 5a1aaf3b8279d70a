/** The surface the shapes are drawn on. Only the part of `raster::Image` that
    the drawing core uses is modelled: `display(x, y, color)` is a pixel write,
    and the image keeps the log of every write in call order. Clipping of
    out-of-range coordinates is the image's business and is not modelled. */
module Raster {
  import opened Geometry

  class Image {
    /** Every `display` call so far, oldest first. */
    var writes: seq<Pixel>

    constructor ()
      ensures writes == []
    {
      writes := [];
    }

    /** `Displayable::display`: record one write. */
    method Display(x: I32, y: I32, color: Color)
      modifies this
      ensures writes == old(writes) + [Pixel(x, y, color)]
    {
      writes := writes + [Pixel(x, y, color)];
    }
  }
}
