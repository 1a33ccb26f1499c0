/** The editor's text-box store (`EditorViewModel`): an ordered list of boxes and the
    four list transformations the screen calls. Every operation returns the new list. */
module EditorStore {
  import opened Wrappers
  import opened TextBoxes

  /** Defaults given to a freshly added box. */
  const DEFAULT_FONT_SIZE: real := 32.0
  const DEFAULT_SCALE: real := 1.0
  /** Position used on an axis whose measured size is not positive. */
  const FALLBACK_POSITION: real := 100.0
  /** How far left of the horizontal centre a new box starts. */
  const CENTRE_SHIFT: real := 100.0

  /** No two boxes of the list share an id. */
  predicate UniqueIds(s: seq<TextBox>) {
    forall i, j :: 0 <= i < j < |s| ==> s[i].id != s[j].id
  }

  /** Some box of the list carries `id`. */
  predicate HasId(s: seq<TextBox>, id: int) {
    exists i :: 0 <= i < |s| && s[i].id == id
  }

  /** `maxOfOrNull { it.id }`: the largest id, or `None` for the empty list. */
  function MaxId(s: seq<TextBox>): (m: Option<Int32>)
    ensures m.None? <==> s == []
    ensures m.Some? ==> HasId(s, m.value)
    ensures m.Some? ==> forall i :: 0 <= i < |s| ==> s[i].id <= m.value
  {
    if s == [] then None
    else
      var rest := MaxId(s[1..]);
      if rest.None? || s[0].id >= rest.value then Some(s[0].id) else rest
  }

  /** Kotlin `Int` addition wraps modulo 2^32 into the signed range. */
  function Wrap32(x: int): (r: Int32)
    ensures INT_MIN <= x <= INT_MAX ==> r == x
    ensures x == INT_MAX + 1 ==> r == INT_MIN
  {
    (x - INT_MIN) % 0x1_0000_0000 + INT_MIN
  }

  /** `(maxOfOrNull { it.id } ?: 0) + 1`, with the `Int` overflow written out. */
  function NextId(s: seq<TextBox>): (id: Int32)
    ensures s == [] ==> id == 1
    // strictly above every id present, as long as no id sits at Int.MAX_VALUE
    ensures (forall i :: 0 <= i < |s| ==> s[i].id < INT_MAX) ==>
              forall i :: 0 <= i < |s| ==> s[i].id < id
    // and exactly one above the largest: the id just below it is taken (or the list is empty)
    ensures (forall i :: 0 <= i < |s| ==> s[i].id < INT_MAX) ==> s == [] || HasId(s, id - 1)
    // overflow: once Int.MAX_VALUE is in use the next id wraps to Int.MIN_VALUE
    ensures HasId(s, INT_MAX) ==> id == INT_MIN
  {
    match MaxId(s)
    case None => 1
    case Some(m) => Wrap32(m + 1)
  }

  /** `addTextBox(text, imageWidth, imageHeight)`: appends a box with the next id at the
      default position, scale 1, font size 32 and colour white. */
  function AddTextBox(s: seq<TextBox>, text: string, imageWidth: int, imageHeight: int): (r: seq<TextBox>)
    ensures |r| == |s| + 1
    ensures r[..|s|] == s
    ensures r[|s|].id == NextId(s)
    ensures (forall i :: 0 <= i < |s| ==> s[i].id < INT_MAX) ==>
              forall i :: 0 <= i < |s| ==> s[i].id < r[|s|].id
    ensures r[|s|].text == text
    ensures imageWidth > 0 ==> r[|s|].x == imageWidth as real / 2.0 - CENTRE_SHIFT
    ensures imageWidth <= 0 ==> r[|s|].x == FALLBACK_POSITION
    ensures imageHeight > 0 ==> r[|s|].y == imageHeight as real / 2.0
    ensures imageHeight <= 0 ==> r[|s|].y == FALLBACK_POSITION
    ensures r[|s|].scale == DEFAULT_SCALE && r[|s|].fontSize == DEFAULT_FONT_SIZE
    ensures r[|s|].color == WHITE
  {
    var centreX := if imageWidth > 0 then imageWidth as real / 2.0 - CENTRE_SHIFT else FALLBACK_POSITION;
    var centreY := if imageHeight > 0 then imageHeight as real / 2.0 else FALLBACK_POSITION;
    s + [TextBox(NextId(s), text, centreX, centreY, DEFAULT_FONT_SIZE, WHITE, DEFAULT_SCALE)]
  }

  /** `updateTextBox(updated)`: every box whose id matches is replaced by `updated`;
      nothing is clamped or validated. */
  function UpdateTextBox(s: seq<TextBox>, updated: TextBox): (r: seq<TextBox>)
    ensures |r| == |s|
    ensures forall i :: 0 <= i < |s| && s[i].id == updated.id ==> r[i] == updated
    ensures forall i :: 0 <= i < |s| && s[i].id != updated.id ==> r[i] == s[i]
    ensures forall i :: 0 <= i < |s| ==> r[i].id == s[i].id
  {
    seq(|s|, i requires 0 <= i < |s| => if s[i].id == updated.id then updated else s[i])
  }

  /** `removeTextBox(id)`: `filterNot { it.id == id }`. */
  function RemoveTextBox(s: seq<TextBox>, id: int): (r: seq<TextBox>)
    ensures forall b :: b in r <==> b in s && b.id != id
    ensures |r| <= |s|
    ensures !HasId(s, id) ==> r == s
    ensures UniqueIds(s) ==> UniqueIds(r)
  {
    if s == [] then []
    else if s[0].id == id then RemoveTextBox(s[1..], id)
    else [s[0]] + RemoveTextBox(s[1..], id)
  }

  /** `clear()`. */
  function Clear(): (r: seq<TextBox>)
    ensures |r| == 0
  {
    []
  }

  /** After a clear, the next box starts again at id 1. */
  lemma ClearRestartsIds(text: string, w: int, h: int)
    ensures UniqueIds(Clear())
    ensures AddTextBox(Clear(), text, w, h)[0].id == 1
  {
  }

  /** Adding keeps ids pairwise distinct while no id has reached `Int.MAX_VALUE`. */
  lemma AddPreservesUniqueIds(s: seq<TextBox>, text: string, w: int, h: int)
    requires UniqueIds(s)
    requires forall i :: 0 <= i < |s| ==> s[i].id < INT_MAX
    ensures UniqueIds(AddTextBox(s, text, w, h))
  {
    var r := AddTextBox(s, text, w, h);
    forall i, j | 0 <= i < j < |r|
      ensures r[i].id != r[j].id
    {
      if j < |s| {
        assert r[i] == s[i] && r[j] == s[j];
      } else {
        assert r[i] == s[i];
      }
    }
  }

  /** At `Int.MAX_VALUE` the id wraps to `Int.MIN_VALUE`, which then no longer lies above
      the ids already present. */
  lemma AddWrapsAtIntMax(s: seq<TextBox>, text: string, w: int, h: int)
    requires HasId(s, INT_MAX)
    ensures AddTextBox(s, text, w, h)[|s|].id == INT_MIN
    ensures exists i :: 0 <= i < |s| && s[i].id > AddTextBox(s, text, w, h)[|s|].id
  {
    var i :| 0 <= i < |s| && s[i].id == INT_MAX;
    assert s[i].id > INT_MIN;
  }

  /** Updating never changes the multiset of ids, so it keeps them distinct. */
  lemma UpdatePreservesUniqueIds(s: seq<TextBox>, updated: TextBox)
    requires UniqueIds(s)
    ensures UniqueIds(UpdateTextBox(s, updated))
  {
  }

  /** Update with an id nobody carries leaves the list as it was. */
  lemma UpdateAbsentIsNoOp(s: seq<TextBox>, updated: TextBox)
    requires !HasId(s, updated.id)
    ensures UpdateTextBox(s, updated) == s
  {
    var r := UpdateTextBox(s, updated);
    forall i | 0 <= i < |s|
      ensures r[i] == s[i]
    {
      assert s[i].id != updated.id;
    }
  }

  /** Update does no clamping: the stored box is `updated` itself, whatever its scale. */
  lemma UpdateStoresScaleUnclamped(s: seq<TextBox>, updated: TextBox)
    requires HasId(s, updated.id)
    requires updated.scale == 5.0
    ensures exists i :: 0 <= i < |s| && UpdateTextBox(s, updated)[i].scale == 5.0
  {
    var i :| 0 <= i < |s| && s[i].id == updated.id;
    assert UpdateTextBox(s, updated)[i] == updated;
  }

  /** Updating with a box already stored, in a list with distinct ids, changes nothing. */
  lemma UpdateWithStoredBoxIsNoOp(s: seq<TextBox>, tb: TextBox)
    requires UniqueIds(s) && tb in s
    ensures UpdateTextBox(s, tb) == s
  {
    var k :| 0 <= k < |s| && s[k] == tb;
    var r := UpdateTextBox(s, tb);
    forall i | 0 <= i < |s|
      ensures r[i] == s[i]
    {
      if s[i].id == tb.id {
        assert i == k;
      }
    }
  }

  /** Update is idempotent. */
  lemma UpdateIdempotent(s: seq<TextBox>, updated: TextBox)
    ensures UpdateTextBox(UpdateTextBox(s, updated), updated) == UpdateTextBox(s, updated)
  {
  }

  /** Removal distributes over concatenation: the surviving boxes keep their relative order. */
  lemma {:induction false} RemoveConcat(a: seq<TextBox>, b: seq<TextBox>, id: int)
    ensures RemoveTextBox(a + b, id) == RemoveTextBox(a, id) + RemoveTextBox(b, id)
  {
    if a == [] {
      assert a + b == b;
    } else {
      assert (a + b)[0] == a[0];
      assert (a + b)[1..] == a[1..] + b;
      RemoveConcat(a[1..], b, id);
    }
  }

  /** Removal is idempotent. */
  lemma {:induction false} RemoveIdempotent(s: seq<TextBox>, id: int)
    ensures RemoveTextBox(RemoveTextBox(s, id), id) == RemoveTextBox(s, id)
  {
    var r := RemoveTextBox(s, id);
    assert !HasId(r, id) by {
      forall i | 0 <= i < |r|
        ensures r[i].id != id
      {
        assert r[i] in r;
      }
    }
  }

  /** Ids are not monotone across removals: removing the box with the largest id lets the
      next add hand out an id no larger than the one removed. */
  lemma RemoveMaxThenAddReusesIds(s: seq<TextBox>, text: string, w: int, h: int)
    requires s != []
    requires forall i :: 0 <= i < |s| ==> 1 <= s[i].id
    ensures var m := MaxId(s).value;
            var r := AddTextBox(RemoveTextBox(s, m), text, w, h);
            r[|r| - 1].id <= m
  {
    var m := MaxId(s).value;
    var rest := RemoveTextBox(s, m);
    forall i | 0 <= i < |rest|
      ensures rest[i].id < m
    {
      assert rest[i] in rest;
      assert rest[i] in s;
    }
    assert forall i :: 0 <= i < |rest| ==> rest[i].id < INT_MAX;
    if rest != [] {
      var k :| 0 <= k < |rest| && rest[k].id == NextId(rest) - 1;
    }
  }

  /** The concrete reuse: add twice, remove the second box, add again — the third box gets
      id 2 once more. */
  lemma IdReusedAfterRemovingLast()
    ensures var s := AddTextBox(AddTextBox([], "a", 0, 0), "b", 0, 0);
            var r := AddTextBox(RemoveTextBox(s, 2), "c", 0, 0);
            s[1].id == 2 && r[|r| - 1].id == 2
  {
    var s0 := AddTextBox([], "a", 0, 0);
    assert s0[0].id == 1;
    var s := AddTextBox(s0, "b", 0, 0);
    assert s[1].id == 2;
    var t := RemoveTextBox(s, 2);
    assert s[1..][1..] == [];
    assert RemoveTextBox(s[1..], 2) == [];
    assert t == [s[0]];
  }
}
