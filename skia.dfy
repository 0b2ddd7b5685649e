/** The SkiaSharp values the renderer and the texture loader pass around, reduced to what the model observes. */
module Skia {

  datatype AlphaType = UnknownAlpha | Opaque | Premul | Unpremul

  /** A decoded SKBitmap. `id` stands for the object's identity: two bitmaps are the same object iff they are equal. */
  datatype SKBitmap = SKBitmap(id: nat, width: int, height: int, alphaType: AlphaType)

  /** An SKImage; `disposed` records whether Dispose was called on it. */
  class SKImage {
    var disposed: bool

    constructor ()
      ensures !disposed
    {
      disposed := false;
    }
  }

  /** What an atlas page's `rendererObject` (typed `object`) can hold. */
  datatype PageObject = NoObject | BitmapObject(bitmap: SKBitmap) | ImageObject(image: SKImage) | OtherObject

  datatype SKBlendMode = SrcOver | Plus | Multiply | Screen

  /** SKColorF, with exact arithmetic in place of float. */
  datatype ColorF = ColorF(r: real, g: real, b: real, a: real)

  datatype SKPoint = SKPoint(x: real, y: real)
}
