/** The fixed folders and the time-stamped file names of the two export paths. */
module FileNames {
  import opened Decimal

  /** `Environment.DIRECTORY_PICTURES`. */
  const DIRECTORY_PICTURES: string := "Pictures"
  /** The gallery album, `RELATIVE_PATH` of every gallery entry. */
  const ALBUM_PATH: string := DIRECTORY_PICTURES + "/CreateYourMeme"
  /** The cache sub-folder holding images staged for sharing. */
  const SHARED_IMAGES: string := "shared_images"

  const GALLERY_PREFIX: string := "meme_"
  const GALLERY_SUFFIX: string := ".jpg"
  const SHARE_PREFIX: string := "share_meme_"
  const SHARE_SUFFIX: string := ".png"

  /** `File(parent, child).path`. */
  function ChildPath(dir: string, name: string): string {
    dir + "/" + name
  }

  /** A child path is its folder, one separator and the child's name, so the name can be
      read back from it. */
  lemma ChildPathSplits(dir: string, name: string)
    ensures |ChildPath(dir, name)| == |dir| + 1 + |name|
    ensures ChildPath(dir, name)[..|dir|] == dir && ChildPath(dir, name)[|dir|] == '/'
    ensures ChildPath(dir, name)[|dir| + 1..] == name
  {
  }

  /** Within one folder, distinct names give distinct paths. */
  lemma ChildPathInjective(dir: string, a: string, b: string)
    requires ChildPath(dir, a) == ChildPath(dir, b)
    ensures a == b
  {
    ChildPathSplits(dir, a);
    ChildPathSplits(dir, b);
  }

  /** `"meme_${System.currentTimeMillis()}.jpg"`. */
  function GalleryFileName(millis: int): (name: string)
    ensures |name| > |GALLERY_PREFIX| + |GALLERY_SUFFIX|
    ensures name[..|GALLERY_PREFIX|] == GALLERY_PREFIX
    ensures name[|name| - |GALLERY_SUFFIX|..] == GALLERY_SUFFIX
    ensures name[|GALLERY_PREFIX|..|name| - |GALLERY_SUFFIX|] == LongToString(millis)
  {
    GALLERY_PREFIX + LongToString(millis) + GALLERY_SUFFIX
  }

  /** `"share_meme_${System.currentTimeMillis()}.png"`. */
  function ShareFileName(millis: int): (name: string)
    ensures |name| > |SHARE_PREFIX| + |SHARE_SUFFIX|
    ensures name[..|SHARE_PREFIX|] == SHARE_PREFIX
    ensures name[|name| - |SHARE_SUFFIX|..] == SHARE_SUFFIX
    ensures name[|SHARE_PREFIX|..|name| - |SHARE_SUFFIX|] == LongToString(millis)
  {
    SHARE_PREFIX + LongToString(millis) + SHARE_SUFFIX
  }

  /** A fixed prefix and suffix around a middle part can be peeled off again. */
  lemma AffixCancels(p: string, a: string, b: string, q: string)
    requires p + a + q == p + b + q
    ensures a == b
  {
    var s := p + a + q;
    assert s[|p|..|s| - |q|] == a;
    assert (p + b + q)[|p|..|s| - |q|] == b;
  }

  /** Exports at distinct instants get distinct gallery names. */
  lemma GalleryFileNamesDistinct(a: int, b: int)
    requires a != b
    ensures GalleryFileName(a) != GalleryFileName(b)
  {
    if GalleryFileName(a) == GalleryFileName(b) {
      AffixCancels(GALLERY_PREFIX, LongToString(a), LongToString(b), GALLERY_SUFFIX);
      LongToStringInjective(a, b);
    }
  }

  /** Shares at distinct instants get distinct cache names. */
  lemma ShareFileNamesDistinct(a: int, b: int)
    requires a != b
    ensures ShareFileName(a) != ShareFileName(b)
  {
    if ShareFileName(a) == ShareFileName(b) {
      AffixCancels(SHARE_PREFIX, LongToString(a), LongToString(b), SHARE_SUFFIX);
      LongToStringInjective(a, b);
    }
  }
}
