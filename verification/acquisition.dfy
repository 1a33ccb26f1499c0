/** Image acquisition (`loadBitmapFromUrl`): the image loader's result becomes a raster
    bitmap, or `null` when nothing usable came back. */
module Acquisition {
  import opened Wrappers

  /** Size used for a drawable that reports no intrinsic size on an axis. */
  const FALLBACK_SIZE: int := 800

  /** A raster bitmap. Pixel data is not modelled; `pixels` only names what was rendered. */
  datatype Bitmap = Bitmap(width: int, height: int, pixels: string)

  /** What the image loader can hand back. */
  datatype Drawable =
    | BitmapDrawable(bitmap: Bitmap)
    | OtherDrawable(intrinsicWidth: int, intrinsicHeight: int, art: string)

  /** Outcome of executing the image request: it threw, it yielded no drawable, or it yielded one. */
  datatype LoadOutcome = LoadThrows | NoDrawable | Loaded(drawable: Drawable)

  /** Android never hands out a bitmap with a non-positive side. */
  predicate WellFormedLoad(o: LoadOutcome) {
    o.Loaded? && o.drawable.BitmapDrawable? ==>
      o.drawable.bitmap.width > 0 && o.drawable.bitmap.height > 0
  }

  /** `intrinsicWidth.takeIf { it > 0 } ?: 800`. */
  function FallbackDimension(n: int): (r: int)
    ensures r > 0
    ensures n > 0 ==> r == n
    ensures n <= 0 ==> r == FALLBACK_SIZE
  {
    if n > 0 then n else FALLBACK_SIZE
  }

  /** `loadBitmapFromUrl`: a bitmap drawable is used as is, any other drawable is rendered
      into a fresh bitmap of its intrinsic size (800 on an axis without one); an exception
      or a missing drawable yields `null`. */
  function LoadBitmapFromUrl(o: LoadOutcome): (r: Option<Bitmap>)
    ensures r.None? <==> !o.Loaded?
    ensures o.Loaded? && o.drawable.BitmapDrawable? ==> r == Some(o.drawable.bitmap)
    ensures o.Loaded? && o.drawable.OtherDrawable? ==>
              r.value.width > 0 && r.value.height > 0 && r.value.pixels == o.drawable.art
    ensures o.Loaded? && o.drawable.OtherDrawable? && o.drawable.intrinsicWidth > 0 ==>
              r.value.width == o.drawable.intrinsicWidth
    ensures o.Loaded? && o.drawable.OtherDrawable? && o.drawable.intrinsicHeight > 0 ==>
              r.value.height == o.drawable.intrinsicHeight
    ensures WellFormedLoad(o) && r.Some? ==> r.value.width > 0 && r.value.height > 0
    ensures o.Loaded? && o.drawable.OtherDrawable? ==>
              r.value.width == FallbackDimension(o.drawable.intrinsicWidth) &&
              r.value.height == FallbackDimension(o.drawable.intrinsicHeight)
  {
    match o
    case LoadThrows => None
    case NoDrawable => None
    case Loaded(BitmapDrawable(b)) => Some(b)
    case Loaded(OtherDrawable(w, h, art)) =>
      Some(Bitmap(FallbackDimension(w), FallbackDimension(h), art))
  }

  /** A drawable with no intrinsic size is rendered at 800 x 800. */
  lemma SizelessDrawableIs800(w: int, h: int, art: string)
    requires w <= 0 && h <= 0
    ensures LoadBitmapFromUrl(Loaded(OtherDrawable(w, h, art))) ==
            Some(Bitmap(FALLBACK_SIZE, FALLBACK_SIZE, art))
  {
  }
}
