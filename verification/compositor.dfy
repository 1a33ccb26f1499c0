/** The compositor shared by the save and share paths: a fresh canvas the size of the base
    bitmap, the base drawn at the origin, then one text draw per box in list order. The
    canvas is modelled as the list of draw commands it receives. */
module Compositor {
  import opened TextBoxes
  import opened Acquisition
  import opened Letterbox

  /** The `Paint` a text is drawn with. Alignment is always left, bold is always faked and
      anti-aliasing is always on; only colour and size vary per box. */
  datatype TextPaint = TextPaint(color: Argb, textSize: real, leftAligned: bool, fakeBold: bool, antiAlias: bool)

  datatype DrawCommand =
    | DrawBitmap(bitmap: Bitmap, left: real, top: real)
    | DrawText(text: string, x: real, y: real, paint: TextPaint)

  /** A bitmap created by `createBitmap(width, height)` together with what was drawn on it. */
  datatype Canvas = Canvas(width: int, height: int, commands: seq<DrawCommand>)

  /** `paint.textSize = fontSize * density * scale`: the letterbox scale plays no part. */
  function TextSize(t: TextBox, density: real): (size: real)
    ensures t.scale == 1.0 ==> size == t.fontSize * density
  {
    t.fontSize * density * t.scale
  }

  /** A visible box (positive font size and scale) gets a positive text size. */
  lemma TextSizePositive(t: TextBox, density: real)
    requires t.fontSize > 0.0 && density > 0.0 && t.scale > 0.0
    ensures TextSize(t, density) > 0.0
  {
    assert t.fontSize * density > 0.0;
  }

  /** The draw for one box: paint set from the box, position mapped into bitmap pixels. */
  function DrawBox(t: TextBox, f: Fit, density: real): (c: DrawCommand)
    requires f.scale > 0.0
    ensures c.DrawText? && c.text == t.text
    ensures c.paint == TextPaint(t.color, TextSize(t, density), true, true, true)
    ensures c.x * f.scale + f.xOffset == t.x * density
    ensures c.y * f.scale + f.yOffset == t.y * density
  {
    DrawText(t.text,
             ToImage(t.x, density, f.xOffset, f.scale),
             ToImage(t.y, density, f.yOffset, f.scale),
             TextPaint(t.color, TextSize(t, density), true, true, true))
  }

  /** The `texts.forEach { .. drawText .. }` loop: one draw per box, in list order. */
  function TextCommands(texts: seq<TextBox>, f: Fit, density: real): (cs: seq<DrawCommand>)
    requires f.scale > 0.0
    ensures |cs| == |texts|
    ensures forall i :: 0 <= i < |texts| ==> cs[i] == DrawBox(texts[i], f, density)
  {
    if texts == [] then []
    else [DrawBox(texts[0], f, density)] + TextCommands(texts[1..], f, density)
  }

  /** Composition of the boxes onto a copy of `base`, for boxes placed on viewport `v`. */
  function Compose(base: Bitmap, texts: seq<TextBox>, v: Viewport): (c: Canvas)
    requires base.width > 0 && base.height > 0 && ValidViewport(v)
    ensures c.width == base.width && c.height == base.height
    ensures |c.commands| == |texts| + 1
    ensures c.commands[0] == DrawBitmap(base, 0.0, 0.0)
    ensures forall i :: 0 <= i < |texts| ==>
              c.commands[i + 1] == DrawBox(texts[i], AspectFit(v, base.width, base.height), v.density)
  {
    var f := AspectFit(v, base.width, base.height);
    Canvas(base.width, base.height, [DrawBitmap(base, 0.0, 0.0)] + TextCommands(texts, f, v.density))
  }

  /** The draw loop over a concatenation is the loop over each part in turn. */
  lemma {:induction false} TextCommandsAppend(a: seq<TextBox>, b: seq<TextBox>, f: Fit, density: real)
    requires f.scale > 0.0
    ensures TextCommands(a + b, f, density) == TextCommands(a, f, density) + TextCommands(b, f, density)
  {
    if a == [] {
      assert a + b == b;
    } else {
      assert (a + b)[0] == a[0];
      assert (a + b)[1..] == a[1..] + b;
      TextCommandsAppend(a[1..], b, f, density);
    }
  }

  /** Boxes appended later are drawn after every earlier draw, so they paint over them. */
  lemma ComposeAppend(base: Bitmap, a: seq<TextBox>, b: seq<TextBox>, v: Viewport)
    requires base.width > 0 && base.height > 0 && ValidViewport(v)
    ensures Compose(base, a + b, v).commands ==
            Compose(base, a, v).commands + TextCommands(b, AspectFit(v, base.width, base.height), v.density)
  {
    TextCommandsAppend(a, b, AspectFit(v, base.width, base.height), v.density);
  }

  /** The text size depends on the box and the density only: two bases of different
      size give the same sizes, while positions follow each base's letterbox. */
  lemma TextSizeIgnoresLetterbox(b1: Bitmap, b2: Bitmap, texts: seq<TextBox>, v: Viewport, i: int)
    requires b1.width > 0 && b1.height > 0 && b2.width > 0 && b2.height > 0 && ValidViewport(v)
    requires 0 <= i < |texts|
    ensures Compose(b1, texts, v).commands[i + 1].paint.textSize ==
            Compose(b2, texts, v).commands[i + 1].paint.textSize ==
            texts[i].fontSize * v.density * texts[i].scale
  {
    var t := texts[i];
    var c1 := DrawBox(t, AspectFit(v, b1.width, b1.height), v.density);
    var c2 := DrawBox(t, AspectFit(v, b2.width, b2.height), v.density);
    assert Compose(b1, texts, v).commands[i + 1] == c1;
    assert Compose(b2, texts, v).commands[i + 1] == c2;
    assert c1.paint.textSize == c2.paint.textSize == TextSize(t, v.density);
  }
}
