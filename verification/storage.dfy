/** The persistence collaborators of the export paths: the gallery (a MediaStore-like
    content resolver with the pending-entry protocol), plain files, and the cache folder
    used for sharing. Each collaborator call is made at most once per run, so its outcome
    is a fixed field of an environment record; a run returns the trace of the calls made,
    the one that threw included, and its result. */
module Storage {
  import opened Wrappers
  import opened FileNames
  import opened Compositor

  /** Full encoder quality, as passed to every `compress` call. */
  const QUALITY: int := 100
  const JPEG_MIME: string := "image/jpeg"

  /** A content URI handed out by the resolver or the file provider. */
  datatype Uri = Uri(text: string)

  /** Outcome of one collaborator call: it returned a value or threw an exception. */
  datatype Call<+T> = Returns(value: T) | Throws(message: string)

  datatype Format = Jpeg | Png

  /** Where an encoder writes: a gallery entry's output stream or a file. */
  datatype Target = Entry(uri: Uri) | File(path: string)

  /** One storage call. */
  datatype StorageOp =
    | Insert(displayName: string, mimeType: string, relativePath: string, isPending: int)
    | OpenOutputStream(uri: Uri)
    | Compress(target: Target, format: Format, quality: int, image: Canvas)
    | Update(uri: Uri, isPending: int)
    | MakeDirs(path: string)
    | GetUriForFile(authority: string, path: string)

  /** What the content resolver does on this run: `insert` yields a URI or `null`,
      `openOutputStream` yields a stream (`true`) or `null` (`false`), `compress` yields
      its (ignored) success flag, `update` its (ignored) row count. */
  datatype MediaStore = MediaStore(
    insert: Call<Option<Uri>>,
    openOutputStream: Call<bool>,
    compress: Call<bool>,
    update: Call<int>
  )

  /** The cache side: its root folder, the app's package name, and what `mkdirs`, the
      PNG write and `FileProvider.getUriForFile` do on this run. */
  datatype CacheDir = CacheDir(
    root: string,
    packageName: string,
    mkdirs: Call<bool>,
    write: Call<bool>,
    provider: Call<Uri>
  )

  datatype Run<+T> = Run(trace: seq<StorageOp>, result: T)

  /** End of a sequence of calls: all returned, or one threw with this message. */
  datatype Status = Done | Failed(message: string)

  /** The reservation of a gallery entry: shown as pending until finalised. */
  function PendingEntry(name: string): (e: StorageOp)
    ensures e == Insert(name, "image/jpeg", "Pictures/CreateYourMeme", 1)
  {
    assert ALBUM_PATH == "Pictures/CreateYourMeme";
    Insert(name, JPEG_MIME, ALBUM_PATH, 1)
  }

  /** No gallery entry is finalised before, or without, the write into it: every entry
      write precedes every finalise. */
  predicate FinaliseAfterWrite(trace: seq<StorageOp>) {
    forall i, j ::
      (0 <= i < |trace| && 0 <= j < |trace| && trace[i].Update? &&
       trace[j].Compress? && trace[j].target.Entry?) ==> j < i
  }

  /** The trace holds a finalise (`IS_PENDING = 0`) call. */
  predicate Finalises(trace: seq<StorageOp>) {
    exists i :: 0 <= i < |trace| && trace[i].Update?
  }

  /** The trace holds an encoder write (attempted, at least) into a gallery entry. */
  predicate WritesEntry(trace: seq<StorageOp>) {
    exists i :: 0 <= i < |trace| && trace[i].Compress? && trace[i].target.Entry?
  }

  /** A reservation in front of a trace adds no entry write and no finalise. */
  lemma ReserveKeepsMarks(reserve: StorageOp, t: seq<StorageOp>)
    requires reserve.Insert?
    ensures WritesEntry([reserve] + t) <==> WritesEntry(t)
    ensures Finalises([reserve] + t) <==> Finalises(t)
  {
    var s := [reserve] + t;
    if WritesEntry(t) {
      var i :| 0 <= i < |t| && t[i].Compress? && t[i].target.Entry?;
      assert s[i + 1] == t[i];
    }
    if WritesEntry(s) {
      var i :| 0 <= i < |s| && s[i].Compress? && s[i].target.Entry?;
      assert t[i - 1] == s[i];
    }
    if Finalises(t) {
      var i :| 0 <= i < |t| && t[i].Update?;
      assert s[i + 1] == t[i];
    }
    if Finalises(s) {
      var i :| 0 <= i < |s| && s[i].Update?;
      assert t[i - 1] == s[i];
    }
  }

  /** Every call after the reservation succeeds: the stream opens (or is `null`), the
      write (when there is a stream) returns, and the finalising update returns. */
  predicate PublishSucceeds(ms: MediaStore) {
    && ms.openOutputStream.Returns?
    && (ms.openOutputStream.value ==> ms.compress.Returns?)
    && ms.update.Returns?
  }

  /** The part after a successful `insert`: `openOutputStream(uri)?.use { compress }`, then
      the update that clears `IS_PENDING`. An exception stops the sequence where it occurs. */
  function Publish(ms: MediaStore, uri: Uri, image: Canvas): (r: Run<Status>)
    ensures |r.trace| >= 1 && r.trace[0] == OpenOutputStream(uri)
    ensures r.result == Done <==> PublishSucceeds(ms)
    ensures r.result.Failed? ==> !Finalises(r.trace) || r.trace[|r.trace| - 1] == Update(uri, 0)
    ensures r.result == Done ==> r.trace[|r.trace| - 1] == Update(uri, 0)
    ensures Finalises(r.trace) ==> PublishSucceeds(ms) || ms.update.Throws?
    ensures WritesEntry(r.trace) <==> ms.openOutputStream == Returns(true)
    ensures FinaliseAfterWrite(r.trace)
    ensures forall i :: 0 <= i < |r.trace| && r.trace[i].Compress? ==>
              r.trace[i] == Compress(Entry(uri), Jpeg, QUALITY, image)
    ensures forall i :: 0 <= i < |r.trace| && r.trace[i].Update? ==> r.trace[i] == Update(uri, 0)
    // each outcome fixes the trace, which ends at the call that threw, and the message
    ensures ms.openOutputStream.Throws? ==>
              r == Run([OpenOutputStream(uri)], Failed(ms.openOutputStream.message))
    ensures ms.openOutputStream == Returns(true) && ms.compress.Throws? ==>
              r == Run([OpenOutputStream(uri), Compress(Entry(uri), Jpeg, QUALITY, image)],
                       Failed(ms.compress.message))
    ensures ms.openOutputStream.Returns? && !(ms.openOutputStream.value && ms.compress.Throws?) ==>
              r.trace == [OpenOutputStream(uri)]
                         + (if ms.openOutputStream.value then [Compress(Entry(uri), Jpeg, QUALITY, image)] else [])
                         + [Update(uri, 0)]
    ensures (ms.openOutputStream.Returns? && !(ms.openOutputStream.value && ms.compress.Throws?) &&
             ms.update.Throws?) ==> r.result == Failed(ms.update.message)
  {
    var streamed := [OpenOutputStream(uri)];
    match ms.openOutputStream
    case Throws(m) => Run(streamed, Failed(m))
    case Returns(stream) =>
      var written := streamed + (if stream then [Compress(Entry(uri), Jpeg, QUALITY, image)] else []);
      assert stream ==> written[1].Compress? && written[1].target.Entry?;
      if stream && ms.compress.Throws? then
        Run(written, Failed(ms.compress.message))
      else
        var finalised := written + [Update(uri, 0)];
        assert stream ==> finalised[1] == written[1];
        match ms.update
        case Throws(m) => Run(finalised, Failed(m))
        case Returns(_) => Run(finalised, Done)
  }

  /** A successful `insert` of the pending entry `name` at `uri`, followed by `Publish`. */
  function ReserveAndPublish(name: string, ms: MediaStore, uri: Uri, image: Canvas): (r: Run<Status>)
    ensures |r.trace| >= 2 && r.trace[0] == PendingEntry(name)
    ensures r.result == Done <==> PublishSucceeds(ms)
    ensures r.result == Done ==> r.trace[|r.trace| - 1] == Update(uri, 0)
    ensures r.result.Failed? ==> !Finalises(r.trace) || r.trace[|r.trace| - 1] == Update(uri, 0)
    ensures WritesEntry(r.trace) <==> ms.openOutputStream == Returns(true)
    ensures FinaliseAfterWrite(r.trace)
    ensures forall i :: 0 <= i < |r.trace| && r.trace[i].Compress? ==>
              r.trace[i] == Compress(Entry(uri), Jpeg, QUALITY, image)
    ensures ms.openOutputStream.Throws? ==>
              r == Run([PendingEntry(name), OpenOutputStream(uri)], Failed(ms.openOutputStream.message))
    ensures ms.openOutputStream == Returns(true) && ms.compress.Throws? ==>
              r == Run([PendingEntry(name), OpenOutputStream(uri), Compress(Entry(uri), Jpeg, QUALITY, image)],
                       Failed(ms.compress.message))
    ensures ms.openOutputStream.Returns? && !(ms.openOutputStream.value && ms.compress.Throws?) ==>
              r.trace == [PendingEntry(name), OpenOutputStream(uri)]
                         + (if ms.openOutputStream.value then [Compress(Entry(uri), Jpeg, QUALITY, image)] else [])
                         + [Update(uri, 0)]
    ensures (ms.openOutputStream.Returns? && !(ms.openOutputStream.value && ms.compress.Throws?) &&
             ms.update.Throws?) ==> r.result == Failed(ms.update.message)
  {
    var reserve := PendingEntry(name);
    var p := Publish(ms, uri, image);
    ReserveKeepsMarks(reserve, p.trace);
    Run([reserve] + p.trace, p.result)
  }

  /** `saveBitmapToGallery`: reserve a pending entry, write it, finalise it; `false` when
      `insert` yields `null` or any call throws. */
  function SaveBitmapToGallery(ms: MediaStore, millis: int, image: Canvas): (r: Run<bool>)
    ensures |r.trace| >= 1 && r.trace[0] == PendingEntry(GalleryFileName(millis))
    ensures ms.insert == Returns(None) ==> r.trace == [r.trace[0]] && !r.result
    ensures r.result <==> ms.insert.Returns? && ms.insert.value.Some? && PublishSucceeds(ms)
    ensures r.result ==> r.trace[|r.trace| - 1] == Update(ms.insert.value.value, 0)
    ensures Finalises(r.trace) ==> ms.insert.Returns? && ms.insert.value.Some?
    ensures FinaliseAfterWrite(r.trace)
    // the entry is written exactly when a URI came back and its stream is non-null
    ensures WritesEntry(r.trace) <==>
              ms.insert.Returns? && ms.insert.value.Some? && ms.openOutputStream == Returns(true)
    // each outcome fixes the trace: reserve, open, write (with a stream), finalise, cut
    // short at the call that threw
    ensures ms.insert.Throws? ==> r == Run([PendingEntry(GalleryFileName(millis))], false)
    ensures ms.insert.Returns? && ms.insert.value.Some? && ms.openOutputStream.Throws? ==>
              r.trace == [PendingEntry(GalleryFileName(millis)), OpenOutputStream(ms.insert.value.value)]
    ensures (ms.insert.Returns? && ms.insert.value.Some? &&
             ms.openOutputStream == Returns(true) && ms.compress.Throws?) ==>
              r.trace == [PendingEntry(GalleryFileName(millis)), OpenOutputStream(ms.insert.value.value),
                          Compress(Entry(ms.insert.value.value), Jpeg, QUALITY, image)]
    ensures (ms.insert.Returns? && ms.insert.value.Some? && ms.openOutputStream.Returns? &&
             !(ms.openOutputStream.value && ms.compress.Throws?)) ==>
              r.trace == [PendingEntry(GalleryFileName(millis)), OpenOutputStream(ms.insert.value.value)]
                         + (if ms.openOutputStream.value
                            then [Compress(Entry(ms.insert.value.value), Jpeg, QUALITY, image)] else [])
                         + [Update(ms.insert.value.value, 0)]
  {
    var reserve := PendingEntry(GalleryFileName(millis));
    match ms.insert
    case Throws(_) => Run([reserve], false)
    case Returns(None) => Run([reserve], false)
    case Returns(Some(uri)) =>
      var p := ReserveAndPublish(GalleryFileName(millis), ms, uri, image);
      Run(p.trace, p.result == Done)
  }

  /** `"${packageName}.provider"`. */
  function ProviderAuthority(packageName: string): (a: string)
    ensures |a| == |packageName| + |".provider"|
    ensures a[..|packageName|] == packageName && a[|packageName|..] == ".provider"
  {
    packageName + ".provider"
  }

  /** The folder and file a share is staged in. */
  function SharedDir(c: CacheDir): string {
    ChildPath(c.root, SHARED_IMAGES)
  }

  function SharedFile(c: CacheDir, millis: int): string {
    ChildPath(SharedDir(c), ShareFileName(millis))
  }

  /** `saveBitmapToCache`: `mkdirs` on the shared-images folder, a lossless PNG write of the
      image into a time-stamped file there, then a content URI for it; `null` when any of
      those throws. */
  function SaveBitmapToCache(c: CacheDir, millis: int, image: Canvas): (r: Run<Option<Uri>>)
    ensures r.result.Some? <==> c.mkdirs.Returns? && c.write.Returns? && c.provider.Returns?
    ensures r.result.Some? ==>
              r.result.value == c.provider.value &&
              r.trace == [MakeDirs(SharedDir(c)),
                          Compress(File(SharedFile(c, millis)), Png, QUALITY, image),
                          GetUriForFile(ProviderAuthority(c.packageName), SharedFile(c, millis))]
    ensures forall i :: 0 <= i < |r.trace| ==> !r.trace[i].Insert? && !r.trace[i].Update?
    ensures forall i :: 0 <= i < |r.trace| && r.trace[i].Compress? ==>
              r.trace[i] == Compress(File(SharedFile(c, millis)), Png, QUALITY, image)
    // one `try` covers all three calls: an exception ends the trace at the call that threw
    ensures c.mkdirs.Throws? ==> r == Run([MakeDirs(SharedDir(c))], None)
    ensures c.mkdirs.Returns? && c.write.Throws? ==>
              r == Run([MakeDirs(SharedDir(c)), Compress(File(SharedFile(c, millis)), Png, QUALITY, image)], None)
    ensures c.mkdirs.Returns? && c.write.Returns? && c.provider.Throws? ==>
              r == Run([MakeDirs(SharedDir(c)), Compress(File(SharedFile(c, millis)), Png, QUALITY, image),
                        GetUriForFile(ProviderAuthority(c.packageName), SharedFile(c, millis))], None)
  {
    var made := [MakeDirs(SharedDir(c))];
    if c.mkdirs.Throws? then Run(made, None)
    else
      var file := SharedFile(c, millis);
      var written := made + [Compress(File(file), Png, QUALITY, image)];
      if c.write.Throws? then Run(written, None)
      else
        var granted := written + [GetUriForFile(ProviderAuthority(c.packageName), file)];
        match c.provider
        case Throws(_) => Run(granted, None)
        case Returns(uri) => Run(granted, Some(uri))
  }

  /** Shares at distinct instants stage distinct files, so one never overwrites another. */
  lemma CacheFilesDistinct(c: CacheDir, a: int, b: int, image: Canvas)
    requires a != b
    requires c.mkdirs.Returns?
    ensures |SaveBitmapToCache(c, a, image).trace| >= 2 && |SaveBitmapToCache(c, b, image).trace| >= 2
    ensures SaveBitmapToCache(c, a, image).trace[1] != SaveBitmapToCache(c, b, image).trace[1]
  {
    if SharedFile(c, a) == SharedFile(c, b) {
      ChildPathInjective(SharedDir(c), ShareFileName(a), ShareFileName(b));
      ShareFileNamesDistinct(a, b);
    }
  }

  /** The boolean `compress` returns plays no part: a failed encode is still finalised
      and reported as saved. */
  lemma GalleryIgnoresCompressResult(ms: MediaStore, millis: int, image: Canvas)
    requires ms.compress.Returns?
    ensures SaveBitmapToGallery(ms, millis, image) ==
            SaveBitmapToGallery(ms.(compress := Returns(!ms.compress.value)), millis, image)
  {
  }

  /** A `null` output stream means nothing is written, yet the entry is still finalised and
      the call reports success. */
  lemma GalleryNullStreamStillSaved(ms: MediaStore, uri: Uri, millis: int, image: Canvas)
    requires ms.insert == Returns(Some(uri)) && ms.openOutputStream == Returns(false)
    requires ms.update.Returns?
    ensures var r := SaveBitmapToGallery(ms, millis, image);
            r.result && !WritesEntry(r.trace) && Finalises(r.trace)
  {
    var r := SaveBitmapToGallery(ms, millis, image);
    assert r.trace[|r.trace| - 1].Update?;
  }
}
