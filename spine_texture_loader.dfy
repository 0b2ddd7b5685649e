/**
 * The texture loader the atlas calls for each page: it stores the decoded bitmap on the page
 * and back-fills page sizes that old atlas files leave at zero.
 */
module SpineTextureLoader {
  import opened Wrappers
  import opened Exceptions
  import opened Skia

  /** The fields of a Spine atlas page that Load writes. */
  class AtlasPage {
    var name: string
    var rendererObject: PageObject
    var width: int
    var height: int

    constructor (name: string, width: int, height: int)
      ensures this.name == name && rendererObject == NoObject
      ensures this.width == width && this.height == height
    {
      this.name := name;
      rendererObject := NoObject;
      this.width := width;
      this.height := height;
    }
  }

  /**
   * The page size after Load: the bitmap's size when either recorded dimension is zero (both are
   * replaced, the non-zero one too), otherwise the recorded size.
   */
  function BackFilledSize(width: int, height: int, bitmap: SKBitmap): (size: (int, int))
    ensures width == 0 || height == 0 ==> size == (bitmap.width, bitmap.height)
    ensures width != 0 && height != 0 ==> size == (width, height)
    ensures bitmap.width != 0 && bitmap.height != 0 ==> size.0 != 0 && size.1 != 0
  {
    if width == 0 || height == 0 then (bitmap.width, bitmap.height) else (width, height)
  }

  /** Back-filling a second time with the same bitmap changes nothing. */
  lemma BackFillIdempotent(width: int, height: int, bitmap: SKBitmap)
    requires bitmap.width != 0 && bitmap.height != 0
    ensures var s := BackFilledSize(width, height, bitmap); BackFilledSize(s.0, s.1, bitmap) == s
  {
  }

  /**
   * `openResult` is the outcome of File.OpenRead on `path`, `decoded` what SKBitmap.Decode returned
   * for the stream (None for null). Either failure throws before the page is touched.
   */
  method Load(page: AtlasPage, path: string, openResult: Outcome<Error>, decoded: Option<SKBitmap>) returns (outcome: Outcome<Error>)
    modifies page
    ensures openResult.Fail? ==> outcome == openResult && unchanged(page)
    ensures openResult.Pass? && decoded.None? ==> outcome == Fail(InvalidOperation) && unchanged(page)
    ensures openResult.Pass? && decoded.Some? ==> outcome == Pass && page.rendererObject == BitmapObject(decoded.value)
    ensures openResult.Pass? && decoded.Some? ==>
      (page.width, page.height) == BackFilledSize(old(page.width), old(page.height), decoded.value)
    ensures page.name == old(page.name)
  {
    if openResult.Fail? {
      return openResult;
    }
    if decoded.None? {
      return Fail(InvalidOperation);
    }
    var bitmap := decoded.value;
    page.rendererObject := BitmapObject(bitmap);
    if page.width == 0 || page.height == 0 {
      page.width := bitmap.width;
      page.height := bitmap.height;
    }
    outcome := Pass;
  }

  /** The objects Unload may change: the image itself when the texture is an SKImage, otherwise none. */
  function UnloadFootprint(texture: PageObject): (objs: set<object>)
    ensures texture.ImageObject? <==> objs != {}
    ensures texture.ImageObject? ==> objs == {texture.image}
  {
    if texture.ImageObject? then {texture.image} else {}
  }

  /** Disposes the texture only when it is an SKImage; the SKBitmap that Load stores is left alone. */
  method Unload(texture: PageObject)
    modifies UnloadFootprint(texture)
    ensures texture.ImageObject? ==> texture.image.disposed
  {
    if texture.ImageObject? {
      texture.image.disposed := true;
    }
  }
}
