/** The drag/pinch handler of one on-screen text box (`DraggableEditableText`): the box keeps
    its own position, scale and text, clamps them on every gesture event and reports the box
    back to the store as a copy. */
module Gesture {
  import opened TextBoxes
  import opened EditorStore

  /** Margin kept free at the right and bottom edges of the displayed image. */
  const EDGE_MARGIN: real := 50.0
  const MIN_SCALE: real := 0.5
  const MAX_SCALE: real := 3.0

  /** Kotlin `coerceIn(lo, hi)` on floats; it throws when `lo > hi`, hence the requires. */
  function CoerceIn(v: real, lo: real, hi: real): (r: real)
    requires lo <= hi
    ensures lo <= r <= hi
    ensures lo <= v <= hi ==> r == v
    ensures v < lo ==> r == lo
    ensures hi < v ==> r == hi
  {
    if v < lo then lo else if hi < v then hi else v
  }

  /** The state the composable remembers for its box. */
  datatype DragState = DragState(x: real, y: real, scale: real, text: string)

  /** The remembered state starts from the box it was composed for. */
  function Remembered(tb: TextBox): (st: DragState)
    ensures st.x == tb.x && st.y == tb.y && st.scale == tb.scale && st.text == tb.text
  {
    DragState(tb.x, tb.y, tb.scale, tb.text)
  }

  /** One `detectTransformGestures` event with pan `(panX, panY)` and zoom factor `zoom`,
      inside a displayed image of `imageWidth` by `imageHeight` layout pixels. */
  function TransformStep(st: DragState, imageWidth: int, imageHeight: int,
                         panX: real, panY: real, zoom: real): (r: DragState)
    requires imageWidth as real >= EDGE_MARGIN && imageHeight as real >= EDGE_MARGIN
    ensures 0.0 <= r.x <= imageWidth as real - EDGE_MARGIN
    ensures 0.0 <= r.y <= imageHeight as real - EDGE_MARGIN
    ensures MIN_SCALE <= r.scale <= MAX_SCALE
    ensures 0.0 <= st.x + panX <= imageWidth as real - EDGE_MARGIN ==> r.x == st.x + panX
    ensures 0.0 <= st.y + panY <= imageHeight as real - EDGE_MARGIN ==> r.y == st.y + panY
    ensures MIN_SCALE <= st.scale * zoom <= MAX_SCALE ==> r.scale == st.scale * zoom
    ensures r.text == st.text
    // out of range, each coordinate lands on the nearer bound
    ensures r.x == CoerceIn(st.x + panX, 0.0, imageWidth as real - EDGE_MARGIN)
    ensures r.y == CoerceIn(st.y + panY, 0.0, imageHeight as real - EDGE_MARGIN)
    ensures r.scale == CoerceIn(st.scale * zoom, MIN_SCALE, MAX_SCALE)
  {
    DragState(
      CoerceIn(st.x + panX, 0.0, imageWidth as real - EDGE_MARGIN),
      CoerceIn(st.y + panY, 0.0, imageHeight as real - EDGE_MARGIN),
      CoerceIn(st.scale * zoom, MIN_SCALE, MAX_SCALE),
      st.text)
  }

  /** `tb.copy(x = .., y = .., scale = .., text = ..)`, sent to the store after a gesture
      event and on "Done". */
  function Emit(tb: TextBox, st: DragState): (u: TextBox)
    ensures u.id == tb.id && u.fontSize == tb.fontSize && u.color == tb.color
    ensures u.x == st.x && u.y == st.y && u.scale == st.scale && u.text == st.text
  {
    tb.(x := st.x, y := st.y, scale := st.scale, text := st.text)
  }

  /** A gesture event reported to the store keeps ids distinct, and every box carrying the
      dragged box's id ends up inside the image, at a clamped scale, with its id, font size
      and colour unchanged. */
  lemma GestureUpdateKeepsStoreValid(s: seq<TextBox>, tb: TextBox, st: DragState, w: int, h: int,
                                     panX: real, panY: real, zoom: real)
    requires UniqueIds(s)
    requires w as real >= EDGE_MARGIN && h as real >= EDGE_MARGIN
    ensures var r := UpdateTextBox(s, Emit(tb, TransformStep(st, w, h, panX, panY, zoom)));
            UniqueIds(r) &&
            forall i :: 0 <= i < |s| && s[i].id == tb.id ==>
              && 0.0 <= r[i].x <= w as real - EDGE_MARGIN
              && 0.0 <= r[i].y <= h as real - EDGE_MARGIN
              && MIN_SCALE <= r[i].scale <= MAX_SCALE
              && r[i].id == tb.id && r[i].fontSize == tb.fontSize && r[i].color == tb.color
  {
    UpdatePreservesUniqueIds(s, Emit(tb, TransformStep(st, w, h, panX, panY, zoom)));
  }

  /** For a composable whose state was remembered from this same box, pressing "Done"
      without any edit or gesture reports the box unchanged, so the store (with distinct
      ids) stays as it was. */
  lemma DoneWithoutEditKeepsStore(s: seq<TextBox>, tb: TextBox)
    requires UniqueIds(s) && tb in s
    ensures Emit(tb, Remembered(tb)) == tb
    ensures UpdateTextBox(s, Emit(tb, Remembered(tb))) == s
  {
    assert Emit(tb, Remembered(tb)) == tb;
    UpdateWithStoredBoxIsNoOp(s, tb);
  }

  /** An event that moves nothing and zooms by 1 leaves an in-range state unchanged. */
  lemma StillGestureIsIdentity(st: DragState, w: int, h: int)
    requires w as real >= EDGE_MARGIN && h as real >= EDGE_MARGIN
    requires 0.0 <= st.x <= w as real - EDGE_MARGIN && 0.0 <= st.y <= h as real - EDGE_MARGIN
    requires MIN_SCALE <= st.scale <= MAX_SCALE
    ensures TransformStep(st, w, h, 0.0, 0.0, 1.0) == st
  {
  }

  /** Pinching past the limits stores the limit: zoom 5 from scale 1 gives 3, zoom 0.1 gives 0.5. */
  lemma PinchIsClamped(st: DragState, w: int, h: int)
    requires w as real >= EDGE_MARGIN && h as real >= EDGE_MARGIN
    requires st.scale == 1.0
    ensures TransformStep(st, w, h, 0.0, 0.0, 5.0).scale == 3.0
    ensures TransformStep(st, w, h, 0.0, 0.0, 0.1).scale == 0.5
  {
  }
}
