/** The two export paths, `saveComposedImage` and `shareComposedImage`, each run once,
    sequentially, over a snapshot of the box list: load the base bitmap, compose, then
    persist or stage for sharing, and end with one report to the user. */
module Export {
  import opened Wrappers
  import opened TextBoxes
  import opened Acquisition
  import opened Letterbox
  import opened Compositor
  import opened FileNames
  import opened Storage

  const ACTION_SEND: string := "android.intent.action.SEND"
  const PNG_MIME: string := "image/png"
  const CHOOSER_TITLE: string := "Share meme"

  /** The final report of a save. */
  datatype SaveReport =
    | LoadFailed
    | SavedToAppFolder(path: string)
    | SavedToGallery
    | SaveFailed(message: string)

  /** `Intent(ACTION_SEND)` with its type, `EXTRA_STREAM` and the read-URI grant flag. */
  datatype Intent = Intent(action: string, mimeType: string, stream: Uri, grantReadUriPermission: bool)

  /** The final report of a share: a toast, or the chooser started with an intent. */
  datatype ShareReport =
    | ShareLoadFailed
    | ShareFailed
    | Chooser(intent: Intent, title: string)

  /** The app-private fallback: `getExternalFilesDir(DIRECTORY_PICTURES)` and what the
      JPEG write into a file there does on this run. */
  datatype AppFolder = AppFolder(picturesDir: string, write: Call<bool>)

  /** The toast each save report shows. */
  function SaveToast(r: SaveReport): (t: string)
    ensures |t| >= 1
    ensures t[0] == '✅' <==> r.SavedToAppFolder? || r.SavedToGallery?
    ensures t[0] == '❌' <==> r.LoadFailed? || r.SaveFailed?
    ensures r.SavedToAppFolder? ==> t == "✅ Saved to app folder: " + r.path
    ensures r.SaveFailed? ==> t == "❌ Save failed: " + r.message
  {
    match r
    case LoadFailed => "❌ Failed to load base image"
    case SavedToAppFolder(path) => "✅ Saved to app folder: " + path
    case SavedToGallery => "✅ Meme saved to gallery"
    case SaveFailed(message) => "❌ Save failed: " + message
  }

  /** The toast a share report shows; none when the chooser opens. */
  function ShareToast(r: ShareReport): (t: Option<string>)
    ensures t.None? <==> r.Chooser?
    ensures t.Some? ==> |t.value| >= 1 && t.value[0] == '❌'
  {
    match r
    case ShareLoadFailed => Some("❌ Failed to load image")
    case ShareFailed => Some("❌ Share failed")
    case Chooser(_, _) => None
  }

  /** The base bitmap loaded, so composition and storage take place. */
  predicate BaseLoads(load: LoadOutcome) {
    LoadBitmapFromUrl(load).Some?
  }

  /** The image both export paths hand to storage. */
  function ComposedImage(texts: seq<TextBox>, v: Viewport, load: LoadOutcome): (c: Canvas)
    requires ValidViewport(v) && WellFormedLoad(load) && BaseLoads(load)
    ensures c.width == LoadBitmapFromUrl(load).value.width
    ensures c.height == LoadBitmapFromUrl(load).value.height
    ensures |c.commands| == |texts| + 1
  {
    Compose(LoadBitmapFromUrl(load).value, texts, v)
  }

  /** Distinct save reports show distinct toasts, so the user can tell every outcome apart. */
  lemma SaveToastInjective(a: SaveReport, b: SaveReport)
    requires SaveToast(a) == SaveToast(b)
    ensures a == b
  {
    var t := SaveToast(a);
    if a.SavedToAppFolder? && b.SavedToAppFolder? {
      assert a.path == t[|"✅ Saved to app folder: "|..];
      assert b.path == t[|"✅ Saved to app folder: "|..];
    } else if a.SaveFailed? && b.SaveFailed? {
      assert a.message == t[|"❌ Save failed: "|..];
      assert b.message == t[|"❌ Save failed: "|..];
    } else if a != b {
      SaveToastsDiffer(a, b);
    }
  }

  /** Reports of different kinds show different toasts. */
  lemma SaveToastsDiffer(a: SaveReport, b: SaveReport)
    requires a != b
    requires !(a.SavedToAppFolder? && b.SavedToAppFolder?) && !(a.SaveFailed? && b.SaveFailed?)
    ensures SaveToast(a) != SaveToast(b)
  {
    var ta, tb := SaveToast(a), SaveToast(b);
    if (a.LoadFailed? && b.SaveFailed?) || (a.SaveFailed? && b.LoadFailed?) {
      assert ta[2] != tb[2];
    } else if (a.SavedToAppFolder? && b.SavedToGallery?) || (a.SavedToGallery? && b.SavedToAppFolder?) {
      assert ta[2] != tb[2];
    }
  }

  /** The two share failures show different toasts. */
  lemma ShareToastsDistinct()
    ensures ShareToast(ShareLoadFailed) != ShareToast(ShareFailed)
    ensures ShareToast(ShareLoadFailed).Some? && ShareToast(ShareFailed).Some?
  {
    assert ShareToast(ShareLoadFailed).value[2] != ShareToast(ShareFailed).value[2];
  }

  /** Every encoder write in the trace writes `image`. */
  predicate WritesOnly(trace: seq<StorageOp>, image: Canvas) {
    forall i :: 0 <= i < |trace| && trace[i].Compress? ==> trace[i].image == image
  }

  /** The part of `saveComposedImage` after composition: reserve a pending gallery entry
      named `name`; on a `null` URI write a JPEG of the same name into the app folder,
      otherwise write the entry and clear its pending flag. Any exception ends the run with
      "Save failed" and its message. */
  function StoreComposed(image: Canvas, name: string, ms: MediaStore, app: AppFolder): (r: Run<SaveReport>)
    // the run starts by reserving a pending entry, and writes only the composed image
    ensures |r.trace| >= 1 && r.trace[0] == PendingEntry(name)
    ensures WritesOnly(r.trace, image)
    ensures r.result != LoadFailed
    // the pending flag is never cleared before the write into the entry
    ensures FinaliseAfterWrite(r.trace)
    // gallery success: a URI came back and no later call threw (a null stream included)
    ensures r.result == SavedToGallery <==>
              ms.insert.Returns? && ms.insert.value.Some? && PublishSucceeds(ms)
    ensures r.result == SavedToGallery ==> r.trace[|r.trace| - 1] == Update(ms.insert.value.value, 0)
    // fallback: a null URI sends the same file name to the app folder, with no finalise
    ensures r.result.SavedToAppFolder? <==> ms.insert == Returns(None) && app.write.Returns?
    ensures ms.insert == Returns(None) ==>
              !Finalises(r.trace) &&
              r.trace == [PendingEntry(name), Compress(File(ChildPath(app.picturesDir, name)), Jpeg, QUALITY, image)]
    ensures r.result.SavedToAppFolder? ==> r.result.path == ChildPath(app.picturesDir, name)
    // an exception skips every later step: the finalise only appears as the call that threw
    ensures r.result.SaveFailed? ==> !Finalises(r.trace) || r.trace[|r.trace| - 1].Update?
    ensures r.result.SaveFailed? <==>
              ms.insert.Throws? ||
              (ms.insert == Returns(None) && app.write.Throws?) ||
              (ms.insert.Returns? && ms.insert.value.Some? && !PublishSucceeds(ms))
    // the image goes into the entry exactly when a URI and a stream came back
    ensures WritesEntry(r.trace) <==>
              ms.insert.Returns? && ms.insert.value.Some? && ms.openOutputStream == Returns(true)
    // each exception ends the run at the call that threw and reports its message
    ensures ms.insert.Throws? ==> r == Run([PendingEntry(name)], SaveFailed(ms.insert.message))
    ensures ms.insert == Returns(None) && app.write.Throws? ==> r.result == SaveFailed(app.write.message)
    ensures (ms.insert.Returns? && ms.insert.value.Some? && ms.openOutputStream.Throws?) ==>
              r == Run([PendingEntry(name), OpenOutputStream(ms.insert.value.value)],
                       SaveFailed(ms.openOutputStream.message))
    ensures (ms.insert.Returns? && ms.insert.value.Some? &&
             ms.openOutputStream == Returns(true) && ms.compress.Throws?) ==>
              r == Run([PendingEntry(name), OpenOutputStream(ms.insert.value.value),
                        Compress(Entry(ms.insert.value.value), Jpeg, QUALITY, image)],
                       SaveFailed(ms.compress.message))
    // otherwise the entry is opened, written when there is a stream, then finalised
    ensures (ms.insert.Returns? && ms.insert.value.Some? &&
             ms.openOutputStream.Returns? && !(ms.openOutputStream.value && ms.compress.Throws?)) ==>
              && r.trace == [PendingEntry(name), OpenOutputStream(ms.insert.value.value)]
                            + (if ms.openOutputStream.value
                               then [Compress(Entry(ms.insert.value.value), Jpeg, QUALITY, image)] else [])
                            + [Update(ms.insert.value.value, 0)]
              && r.result == (if ms.update.Throws? then SaveFailed(ms.update.message) else SavedToGallery)
  {
    var reserve := PendingEntry(name);
    match ms.insert
    case Throws(m) => Run([reserve], SaveFailed(m))
    case Returns(None) =>
      var fallback := ChildPath(app.picturesDir, name);
      var trace := [reserve, Compress(File(fallback), Jpeg, QUALITY, image)];
      assert !Finalises(trace) && !WritesEntry(trace) by {
        assert forall i :: 0 <= i < |trace| ==> !trace[i].Update? && !(trace[i].Compress? && trace[i].target.Entry?);
      }
      (match app.write
       case Throws(m) => Run(trace, SaveFailed(m))
       case Returns(_) => Run(trace, SavedToAppFolder(fallback)))
    case Returns(Some(uri)) =>
      var p := ReserveAndPublish(name, ms, uri, image);
      Run(p.trace, if p.result == Done then SavedToGallery else SaveFailed(p.result.message))
  }

  /** `saveComposedImage`, with the base load, the clock, the resolver and the app folder
      as given outcomes. Inside one `try`: load (a `null` bitmap ends the run with its own
      report), compose, then store the composition under `meme_<millis>.jpg`. */
  function SaveComposedImage(texts: seq<TextBox>, v: Viewport, load: LoadOutcome, millis: int,
                             ms: MediaStore, app: AppFolder): (r: Run<SaveReport>)
    requires ValidViewport(v) && WellFormedLoad(load)
    // a failed load is reported and nothing is composed or stored
    ensures r.result == LoadFailed <==> !BaseLoads(load)
    ensures r.result == LoadFailed ==> r.trace == []
    // otherwise the composed image is stored under the time-stamped gallery name
    ensures BaseLoads(load) ==>
              r == StoreComposed(ComposedImage(texts, v, load), GalleryFileName(millis), ms, app)
    ensures BaseLoads(load) ==> |r.trace| >= 1 && r.trace[0] == PendingEntry(GalleryFileName(millis))
    ensures BaseLoads(load) ==> WritesOnly(r.trace, ComposedImage(texts, v, load))
    ensures FinaliseAfterWrite(r.trace)
    ensures r.result == SavedToGallery <==>
              BaseLoads(load) && ms.insert.Returns? && ms.insert.value.Some? && PublishSucceeds(ms)
    ensures WritesEntry(r.trace) <==>
              BaseLoads(load) && ms.insert.Returns? && ms.insert.value.Some? &&
              ms.openOutputStream == Returns(true)
    ensures r.result.SaveFailed? <==>
              BaseLoads(load) &&
              (ms.insert.Throws? ||
               (ms.insert == Returns(None) && app.write.Throws?) ||
               (ms.insert.Returns? && ms.insert.value.Some? && !PublishSucceeds(ms)))
  {
    match LoadBitmapFromUrl(load)
    case None => Run([], LoadFailed)
    case Some(base) => StoreComposed(Compose(base, texts, v), GalleryFileName(millis), ms, app)
  }

  /** `shareComposedImage`: load (a `null` bitmap ends the run), compose, stage a PNG in
      the cache, then open the chooser with one `ACTION_SEND` intent, or report failure. */
  function ShareComposedImage(texts: seq<TextBox>, v: Viewport, load: LoadOutcome, millis: int,
                              cache: CacheDir): (r: Run<ShareReport>)
    requires ValidViewport(v) && WellFormedLoad(load)
    ensures r.result == ShareLoadFailed <==> !BaseLoads(load)
    ensures r.result == ShareLoadFailed ==> r.trace == []
    ensures r.result == ShareFailed <==>
              BaseLoads(load) && !(cache.mkdirs.Returns? && cache.write.Returns? && cache.provider.Returns?)
    ensures r.result.Chooser? ==>
              r.result.intent == Intent(ACTION_SEND, PNG_MIME, cache.provider.value, true) &&
              r.result.title == CHOOSER_TITLE
    ensures r.result.Chooser? ==>
              r.trace == [MakeDirs(SharedDir(cache)),
                          Compress(File(SharedFile(cache, millis)), Png, QUALITY, ComposedImage(texts, v, load)),
                          GetUriForFile(ProviderAuthority(cache.packageName), SharedFile(cache, millis))]
    // sharing never touches the gallery
    ensures forall i :: 0 <= i < |r.trace| ==> !r.trace[i].Insert? && !r.trace[i].Update?
    ensures BaseLoads(load) ==> WritesOnly(r.trace, ComposedImage(texts, v, load))
    // the storage calls are exactly those of staging the composed image
    ensures BaseLoads(load) ==> r.trace == SaveBitmapToCache(cache, millis, ComposedImage(texts, v, load)).trace
  {
    match LoadBitmapFromUrl(load)
    case None => Run([], ShareLoadFailed)
    case Some(base) =>
      var staged := SaveBitmapToCache(cache, millis, Compose(base, texts, v));
      match staged.result
      case None => Run(staged.trace, ShareFailed)
      case Some(uri) =>
        Run(staged.trace, Chooser(Intent(ACTION_SEND, PNG_MIME, uri, true), CHOOSER_TITLE))
  }

  /** With a stream that comes back `null` nothing is written into the entry, yet the
      pending flag is cleared and the save is reported as a gallery success. */
  lemma NullStreamStillReportsSaved(texts: seq<TextBox>, v: Viewport, load: LoadOutcome, millis: int,
                                    ms: MediaStore, app: AppFolder, uri: Uri)
    requires ValidViewport(v) && WellFormedLoad(load) && BaseLoads(load)
    requires ms.insert == Returns(Some(uri)) && ms.openOutputStream == Returns(false)
    requires ms.update.Returns?
    ensures var r := SaveComposedImage(texts, v, load, millis, ms, app);
            r.result == SavedToGallery && !WritesEntry(r.trace) && Finalises(r.trace)
  {
    var r := SaveComposedImage(texts, v, load, millis, ms, app);
    assert r.trace == [PendingEntry(GalleryFileName(millis)), OpenOutputStream(uri), Update(uri, 0)];
    assert r.trace[2].Update?;
  }

  /** A failing write into the entry skips the finalise: the entry stays pending. */
  lemma FailedWriteLeavesEntryPending(texts: seq<TextBox>, v: Viewport, load: LoadOutcome, millis: int,
                                      ms: MediaStore, app: AppFolder, uri: Uri)
    requires ValidViewport(v) && WellFormedLoad(load) && BaseLoads(load)
    requires ms.insert == Returns(Some(uri)) && ms.openOutputStream == Returns(true)
    requires ms.compress.Throws?
    ensures var r := SaveComposedImage(texts, v, load, millis, ms, app);
            r.result == SaveFailed(ms.compress.message) && !Finalises(r.trace)
  {
    var r := SaveComposedImage(texts, v, load, millis, ms, app);
    assert r.trace[|r.trace| - 1].Compress?;
  }

  /** For the same snapshot, viewport and load, saving and sharing write the same
      composed image. */
  lemma SaveAndShareWriteSameImage(texts: seq<TextBox>, v: Viewport, load: LoadOutcome, millis: int,
                                   ms: MediaStore, app: AppFolder, cache: CacheDir)
    requires ValidViewport(v) && WellFormedLoad(load)
    ensures var s := SaveComposedImage(texts, v, load, millis, ms, app).trace;
            var h := ShareComposedImage(texts, v, load, millis, cache).trace;
            forall i, j :: 0 <= i < |s| && 0 <= j < |h| && s[i].Compress? && h[j].Compress? ==>
              s[i].image == h[j].image
  {
  }
}
