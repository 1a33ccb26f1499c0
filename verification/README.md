# CreateYourMeme editor core, modelled in Dafny

CreateYourMeme is an Android app. The user puts freely placed, pinch-scaled text boxes over a
meme template image. The app then flattens them onto the full-size image, and either saves
the result to the gallery or stages it for sharing. This project models the three pieces of
sequential logic inside that app and proves properties about them:

- **The text-box store** (`EditorViewModel`) is an ordered list of `TextBoxState` records.
  It supports add (the new id is the largest id plus one, at a default position), update
  (replace by id), remove (filter by id) and clear. Module `Gesture` holds the drag/pinch
  step of `DraggableEditableText`, which clamps position and scale before reporting a copy
  of the box.
- **The letterbox transform and compositor.** The displayed image was fitted into the
  viewport (aspect-fit), so each box's on-screen position is mapped into bitmap pixels with
  the smaller of the two axis ratios and the centring offsets. The canvas is a fresh bitmap
  the size of the base. It receives the base at the origin, then one text draw per box, in
  list order. Image acquisition (`loadBitmapFromUrl`) belongs with this part: a drawable
  without an intrinsic size is rendered at 800 pixels on that axis.
- **The export control flow** (`saveComposedImage`, `shareComposedImage`,
  `saveBitmapToGallery`, `saveBitmapToCache`). Every collaborator call's outcome is an input:
  returned (with its value) or threw. Each run yields the trace of storage calls it made
  and its final report to the user.

Floats are `real`. Kotlin `Int` ids are 32-bit, and the wrap-around at `Int.MAX_VALUE` is
written out. A canvas is the list of draw commands it received. The encoders (JPEG, PNG),
the content resolver, the file system and the image loader are abstract outcomes.

Modules: `Wrappers`, `TextBoxes`, `EditorStore`, `Gesture`, `Acquisition`, `Letterbox`,
`Compositor`, `Decimal`, `FileNames`, `Storage`, `Export`, one per file.

The letterbox and drawing code appears four times with the same text:
`ui/screens/EditorScreen.kt` (save and share) and `data/repository/MemeEditorRepository.kt`
(save and share). `loadBitmapFromUrl` and `saveBitmapToCache` appear in both files as well.
Each is modelled once, and the table cites one copy; the screen's copies are the ones its
buttons run.

### Behaviour kept as the code has it
- Ids are reused. Removing the box with the largest id lowers the maximum, so the next add
  can hand out that id again. The model proves this instead of a "never reused" rule.
- Scale is clamped only in the gesture step. `updateTextBox` stores whatever it is given.
- No error result exists for zero-sized images or viewports. The transform would divide by
  zero, so positive sizes and a positive density are preconditions.
- When `insert` yields `null`, the save writes a JPEG with the same file name into the app's
  pictures folder and reports success there. If that fallback write throws, the outer `catch`
  reports "Save failed". No separate persistence error exists.
- A `null` output stream writes nothing. The pending flag is still cleared and the save is
  still reported as a gallery success. The boolean `compress` returns is ignored.
- Box positions and the displayed size are already layout pixels, yet the export multiplies
  them by the density once more. For positions the density cancels (`ImagePositionIgnoresDensity`).
- The text size is `fontSize * density * boxScale`. Positions are divided by the letterbox
  scale, but the text size is not.

## Model

| member | source | states |
|---|---|---|
| `EditorStore.MaxId` | app/src/main/java/com/example/createyourmeme/ui/viewmodel/EditorViewModel.kt:33 | `maxOfOrNull` on ids: `None` exactly for the empty list; otherwise an id that is present and at least every id in the list |
| `EditorStore.Wrap32` | app/src/main/java/com/example/createyourmeme/ui/viewmodel/EditorViewModel.kt:33 | Kotlin `Int` addition: the identity inside the 32-bit range, and `Int.MAX_VALUE + 1` wraps to `Int.MIN_VALUE` |
| `EditorStore.NextId` | app/src/main/java/com/example/createyourmeme/ui/viewmodel/EditorViewModel.kt:33 | the new id is 1 for an empty list. While no id is `Int.MAX_VALUE`, it is strictly above every present id and exactly one above the largest. Once `Int.MAX_VALUE` is present, it wraps to `Int.MIN_VALUE` |
| `EditorStore.AddTextBox` | app/src/main/java/com/example/createyourmeme/ui/viewmodel/EditorViewModel.kt:28-48 | appends one box and keeps the old list as a prefix. The new box has the next id and the given text. x is W/2−100 when W>0, else 100; y is H/2 when H>0, else 100. Scale is 1, font size 32, colour white |
| `EditorStore.AddPreservesUniqueIds` | app/src/main/java/com/example/createyourmeme/ui/viewmodel/EditorViewModel.kt:33-47 | adding keeps ids pairwise distinct, provided no id has reached `Int.MAX_VALUE` |
| `EditorStore.AddWrapsAtIntMax` | app/src/main/java/com/example/createyourmeme/ui/viewmodel/EditorViewModel.kt:33 | with `Int.MAX_VALUE` present, the new id is `Int.MIN_VALUE`, which lies below an existing id |
| `EditorStore.UpdateTextBox` | app/src/main/java/com/example/createyourmeme/ui/viewmodel/EditorViewModel.kt:50-52 | keeps the length and every id position by position. Boxes with the updated id become `updated`, unclamped; all other boxes stay as they were |
| `EditorStore.UpdatePreservesUniqueIds` | app/src/main/java/com/example/createyourmeme/ui/viewmodel/EditorViewModel.kt:51 | update keeps ids pairwise distinct |
| `EditorStore.UpdateAbsentIsNoOp` | app/src/main/java/com/example/createyourmeme/ui/viewmodel/EditorViewModel.kt:51 | update with an id nobody carries returns the list unchanged |
| `EditorStore.UpdateStoresScaleUnclamped` | app/src/main/java/com/example/createyourmeme/ui/viewmodel/EditorViewModel.kt:51 | an update carrying scale 5 is stored with scale 5: the store itself does no clamping |
| `EditorStore.UpdateIdempotent` | app/src/main/java/com/example/createyourmeme/ui/viewmodel/EditorViewModel.kt:51 | updating twice with the same box equals updating once |
| `EditorStore.UpdateWithStoredBoxIsNoOp` | app/src/main/java/com/example/createyourmeme/ui/viewmodel/EditorViewModel.kt:50-52 | updating with a box already in the list (ids distinct) returns the list unchanged |
| `EditorStore.RemoveTextBox` | app/src/main/java/com/example/createyourmeme/ui/viewmodel/EditorViewModel.kt:54-56 | a box survives exactly when it was present and has another id. Length never grows. The call is a no-op when the id is absent, and it keeps ids distinct |
| `EditorStore.RemoveConcat` | app/src/main/java/com/example/createyourmeme/ui/viewmodel/EditorViewModel.kt:55 | removal distributes over concatenation, so the surviving boxes keep their relative order |
| `EditorStore.RemoveIdempotent` | app/src/main/java/com/example/createyourmeme/ui/viewmodel/EditorViewModel.kt:55 | removing the same id twice equals removing it once |
| `EditorStore.RemoveMaxThenAddReusesIds` | app/src/main/java/com/example/createyourmeme/ui/viewmodel/EditorViewModel.kt:33-56 | ids are not monotone: after removing the largest id, the next add's id is no larger than the removed one (for any non-empty list with ids ≥ 1) |
| `EditorStore.IdReusedAfterRemovingLast` | app/src/main/java/com/example/createyourmeme/ui/viewmodel/EditorViewModel.kt:28-56 | add, add, remove id 2, add: the third box gets id 2 again |
| `EditorStore.Clear` | app/src/main/java/com/example/createyourmeme/ui/viewmodel/EditorViewModel.kt:58-60 | clear yields the empty list |
| `EditorStore.ClearRestartsIds` | app/src/main/java/com/example/createyourmeme/ui/viewmodel/EditorViewModel.kt:33-60 | the cleared list has distinct ids, and the next add gives id 1 |
| `Gesture.CoerceIn` | app/src/main/java/com/example/createyourmeme/ui/screens/EditorScreen.kt:181-183 | `coerceIn(lo, hi)` on a non-empty range: the result is inside the range, equals the input when the input is inside, and is the nearer bound otherwise |
| `Gesture.Remembered` | app/src/main/java/com/example/createyourmeme/ui/screens/EditorScreen.kt:170-173 | the remembered x, y, scale and text start as the box's own values |
| `Gesture.TransformStep` | app/src/main/java/com/example/createyourmeme/ui/screens/EditorScreen.kt:180-183 | one gesture event (needs W, H ≥ 50): x, y and scale are `coerceIn` of the panned x, the panned y and the zoomed scale into [0, W−50], [0, H−50] and [0.5, 3]. Each lies in its range, equals the unclamped value when that is in range, and is the nearer bound otherwise. The text is kept |
| `Gesture.Emit` | app/src/main/java/com/example/createyourmeme/ui/screens/EditorScreen.kt:184-198 | the copy sent to the store after a gesture and on "Done" keeps id, font size and colour, and takes x, y, scale and text from the gesture state |
| `Gesture.DoneWithoutEditKeepsStore` | app/src/main/java/com/example/createyourmeme/ui/screens/EditorScreen.kt:170-198 | for a composable whose state was remembered from this same box: pressing "Done" with no edit or gesture reports the box itself, and the store (ids distinct) stays as it was |
| `Gesture.StillGestureIsIdentity` | app/src/main/java/com/example/createyourmeme/ui/screens/EditorScreen.kt:180-184 | zero pan and zoom 1 leave an in-range state unchanged |
| `Gesture.GestureUpdateKeepsStoreValid` | app/src/main/java/com/example/createyourmeme/ui/screens/EditorScreen.kt:180-184 | reporting a gesture step to the store keeps ids distinct, and every box with the dragged id lands inside the image, at a clamped scale, with id, font size and colour unchanged |
| `Gesture.PinchIsClamped` | app/src/main/java/com/example/createyourmeme/ui/screens/EditorScreen.kt:183 | from scale 1, zoom 5 stores 3 and zoom 0.1 stores 0.5 |
| `Acquisition.FallbackDimension` | app/src/main/java/com/example/createyourmeme/ui/screens/EditorScreen.kt:229-230 | a non-positive intrinsic dimension becomes 800 and a positive one is kept, so the result is always positive |
| `Acquisition.LoadBitmapFromUrl` | app/src/main/java/com/example/createyourmeme/ui/screens/EditorScreen.kt:218-241 | `null` exactly when the request threw or gave no drawable. A bitmap drawable is used as is. Any other drawable is rendered at `FallbackDimension` of each intrinsic side: the side itself when positive, 800 otherwise. A well-formed load never yields a side ≤ 0 |
| `Acquisition.SizelessDrawableIs800` | app/src/main/java/com/example/createyourmeme/ui/screens/EditorScreen.kt:228-236 | a drawable without intrinsic size is rendered into an 800 × 800 bitmap |
| `Letterbox.FitScale` | app/src/main/java/com/example/createyourmeme/ui/screens/EditorScreen.kt:275-278 | the letterbox scale is positive, equals one of the two axis ratios and is at most both, so it is their minimum |
| `Letterbox.FitScaleFits` | app/src/main/java/com/example/createyourmeme/ui/screens/EditorScreen.kt:275-278 | bw·scale ≤ dw·d and bh·scale ≤ dh·d, with equality on at least one axis |
| `Letterbox.FitScaleIsLargest` | app/src/main/java/com/example/createyourmeme/ui/screens/EditorScreen.kt:275-278 | any scale that fits on both axes is at most the letterbox scale: no crop and no smaller fit |
| `Letterbox.AspectFit` | app/src/main/java/com/example/createyourmeme/ui/screens/EditorScreen.kt:275-280 | the offsets centre the fitted image (equal margins on each axis). Both are ≥ 0 and at least one is 0 |
| `Letterbox.ToImage` | app/src/main/java/com/example/createyourmeme/ui/screens/EditorScreen.kt:285-286 | the mapped coordinate q satisfies q·scale + offset = p·density |
| `Letterbox.ToScreen` | app/src/main/java/com/example/createyourmeme/ui/screens/EditorScreen.kt:285-286 | the inverse map: p·density = q·scale + offset |
| `Letterbox.ImageScreenRoundTrip` | app/src/main/java/com/example/createyourmeme/ui/screens/EditorScreen.kt:285-286 | screen → image → screen and image → screen → image are both the identity |
| `Letterbox.LetterboxScalesWithDensity` | app/src/main/java/com/example/createyourmeme/ui/screens/EditorScreen.kt:275-280 | the scale and both offsets are density times their values at density 1 |
| `Letterbox.ImagePositionIgnoresDensity` | app/src/main/java/com/example/createyourmeme/ui/screens/EditorScreen.kt:275-286 | density cancels: a box's bitmap coordinates are the same at every density |
| `Letterbox.LetterboxExample` | app/src/main/java/com/example/createyourmeme/ui/screens/EditorScreen.kt:275-286 | viewport 1000×800 at density 1 with a 500×400 image gives scale 2 and offsets 0, and (100, 100) maps to (50, 50) |
| `Compositor.DrawBox` | app/src/main/java/com/example/createyourmeme/data/repository/MemeEditorRepository.kt:150-155 | one text draw with the box's text and colour. The paint is left-aligned, fake-bold and anti-aliased, with size fontSize·d·boxScale. The position satisfies x·scale + xOffset = box.x·d, and likewise for y |
| `Compositor.TextSize` | app/src/main/java/com/example/createyourmeme/ui/screens/EditorScreen.kt:284 | a box at scale 1 gets size fontSize·density |
| `Compositor.TextSizePositive` | app/src/main/java/com/example/createyourmeme/ui/screens/EditorScreen.kt:284 | a box with positive font size and scale gets a positive text size |
| `Compositor.TextCommands` | app/src/main/java/com/example/createyourmeme/data/repository/MemeEditorRepository.kt:150-156 | exactly one draw per box, and draw i belongs to box i |
| `Compositor.Compose` | app/src/main/java/com/example/createyourmeme/data/repository/MemeEditorRepository.kt:134-156 | the canvas has the base's width and height. The base is drawn first at (0, 0), then box i is drawn as command i+1 with the base's letterbox |
| `Compositor.TextCommandsAppend` | app/src/main/java/com/example/createyourmeme/data/repository/MemeEditorRepository.kt:150-156 | the draw loop over a + b is the loop over a followed by the loop over b |
| `Compositor.ComposeAppend` | app/src/main/java/com/example/createyourmeme/data/repository/MemeEditorRepository.kt:134-156 | boxes later in the list are drawn after all earlier draws, so they paint over them |
| `Compositor.TextSizeIgnoresLetterbox` | app/src/main/java/com/example/createyourmeme/data/repository/MemeEditorRepository.kt:152 | text size does not depend on the base's size (the letterbox scale): two bases give the same size fontSize·d·boxScale |
| `Decimal.NatToString` | app/src/main/java/com/example/createyourmeme/data/repository/MemeEditorRepository.kt:159 | decimal rendering: non-empty, digits only, no leading zero |
| `Decimal.LongToString` | app/src/main/java/com/example/createyourmeme/data/repository/MemeEditorRepository.kt:159 | `Long` rendering: starts with '-' exactly for negative values, and the remaining characters are digits that read back as \|n\|, with no leading zero unless the number is 0 |
| `Decimal.ParseNatToString` | app/src/main/java/com/example/createyourmeme/data/repository/MemeEditorRepository.kt:159 | reading the digits back gives the number (round trip) |
| `Decimal.NatToStringInjective` | app/src/main/java/com/example/createyourmeme/data/repository/MemeEditorRepository.kt:159 | equal renderings come from equal naturals |
| `Decimal.LongToStringInjective` | app/src/main/java/com/example/createyourmeme/data/repository/MemeEditorRepository.kt:159 | equal renderings come from equal `Long` values |
| `FileNames.GalleryFileName` | app/src/main/java/com/example/createyourmeme/data/repository/MemeEditorRepository.kt:159 | the gallery name is `meme_`, then the decimal rendering of the timestamp, then `.jpg` |
| `FileNames.ShareFileName` | app/src/main/java/com/example/createyourmeme/data/repository/MemeEditorRepository.kt:38 | the share name is `share_meme_`, then the decimal rendering of the timestamp, then `.png` |
| `FileNames.GalleryFileNamesDistinct` | app/src/main/java/com/example/createyourmeme/data/repository/MemeEditorRepository.kt:159 | distinct timestamps give distinct gallery names |
| `FileNames.ShareFileNamesDistinct` | app/src/main/java/com/example/createyourmeme/data/repository/MemeEditorRepository.kt:38 | distinct timestamps give distinct share names |
| `FileNames.ChildPathSplits` | app/src/main/java/com/example/createyourmeme/ui/screens/EditorScreen.kt:302 | `File(parent, child)`: the path is the folder, one `/` and the name, so the name can be read back |
| `FileNames.ChildPathInjective` | app/src/main/java/com/example/createyourmeme/ui/screens/EditorScreen.kt:302 | within one folder, equal paths come from equal names |
| `Storage.PendingEntry` | app/src/main/java/com/example/createyourmeme/ui/screens/EditorScreen.kt:291-299 | the reservation inserts the given display name with MIME type `image/jpeg`, relative path `Pictures/CreateYourMeme` and `IS_PENDING = 1` |
| `Storage.Publish` | app/src/main/java/com/example/createyourmeme/ui/screens/EditorScreen.kt:312-318 | opens the entry's stream first and writes exactly when the stream is non-null. It succeeds exactly when no later call throws, and then ends with `IS_PENDING = 0`; every write precedes the finalise. For each outcome the trace is fixed: it stops at the call that threw (open, or write with a stream) and carries that call's message; otherwise it is open, the optional write, then the finalise, and a throwing finalise gives its message |
| `Storage.ReserveAndPublish` | app/src/main/java/com/example/createyourmeme/ui/screens/EditorScreen.kt:299-318 | after a successful insert of the pending entry: the same outcomes as `Publish`, with the reservation first. The exact trace per outcome starts with the reservation and ends at the call that threw, or at the finalise |
| `Storage.SaveBitmapToGallery` | app/src/main/java/com/example/createyourmeme/ui/screens/EditorScreen.kt:395-428 | reserves a pending `meme_<millis>.jpg` entry first. A throwing or `null` insert gives false with no further call. True exactly when a URI came back and nothing later threw. The entry is written exactly when a URI and a stream came back. The exact trace per outcome: reserve, open, the write when there is a stream, then the finalise, cut short at the call that threw |
| `Storage.SaveBitmapToCache` | app/src/main/java/com/example/createyourmeme/ui/screens/EditorScreen.kt:430-443 | yields a URI exactly when `mkdirs`, the PNG write and the provider all return. The trace is then mkdirs of `shared_images`, a PNG write at quality 100 to `share_meme_<millis>.png`, then the provider grant. One `try` covers all three, so an exception ends the trace at the call that threw and yields `null`. The gallery is never touched |
| `Storage.ProviderAuthority` | app/src/main/java/com/example/createyourmeme/ui/screens/EditorScreen.kt:438 | the file-provider authority is the package name followed by `.provider` |
| `Storage.CacheFilesDistinct` | app/src/main/java/com/example/createyourmeme/ui/screens/EditorScreen.kt:432-437 | shares at distinct instants write distinct cache files, so one never overwrites another |
| `Storage.GalleryIgnoresCompressResult` | app/src/main/java/com/example/createyourmeme/ui/screens/EditorScreen.kt:413-422 | flipping the boolean `compress` returns changes neither the trace nor the result |
| `Storage.GalleryNullStreamStillSaved` | app/src/main/java/com/example/createyourmeme/ui/screens/EditorScreen.kt:410-422 | a `null` stream: nothing is written, the entry is finalised, and the result is true |
| `Export.SaveComposedImage` | app/src/main/java/com/example/createyourmeme/ui/screens/EditorScreen.kt:245-332 | If the load fails: "failed to load", and no storage call at all. Otherwise the run is exactly `StoreComposed` of the composed image under the time-stamped name. Gallery success, the entry write and "Save failed" each hold exactly when the stated collaborator outcomes occur |
| `Export.StoreComposed` | app/src/main/java/com/example/createyourmeme/ui/screens/EditorScreen.kt:291-330 | starts with the pending insert and writes only the composed image. A `null` URI writes the same name to the app folder, with no finalise, and reports that path. Gallery success holds exactly when a URI came back and nothing later threw. The entry is written exactly when a URI and a stream came back. Every exception (insert, fallback write, open, write, finalise) ends the trace at that call and reports "Save failed" with its message |
| `Export.ShareComposedImage` | app/src/main/java/com/example/createyourmeme/ui/screens/EditorScreen.kt:335-392 | If the load fails: a failure report and no cache write. Otherwise the storage calls are exactly those of staging the composed image. "Share failed" happens exactly when staging yields `null`. Otherwise there is one `ACTION_SEND` chooser of type `image/png` with the staged URI and the read grant, and the gallery is never touched |
| `Export.SaveToast` | app/src/main/java/com/example/createyourmeme/ui/screens/EditorScreen.kt:261-328 | the save toast starts with ✅ exactly for the two successes and with ❌ exactly for the two failures. The app-folder toast carries the path, and "❌ Save failed: " is followed by the exception message |
| `Export.SaveToastInjective` | app/src/main/java/com/example/createyourmeme/ui/screens/EditorScreen.kt:261-328 | distinct save reports show distinct toasts: gallery and app-folder successes, load failure and "Save failed" can all be told apart, including the path and the message |
| `Export.ShareToast` | app/src/main/java/com/example/createyourmeme/ui/screens/EditorScreen.kt:349-388 | no toast exactly when the chooser opens; both failure toasts start with ❌ |
| `Export.ShareToastsDistinct` | app/src/main/java/com/example/createyourmeme/ui/screens/EditorScreen.kt:349-388 | the load failure and the staging failure of a share show different toasts |
| `Export.NullStreamStillReportsSaved` | app/src/main/java/com/example/createyourmeme/data/repository/MemeEditorRepository.kt:194-205 | with a `null` stream, nothing is written into the entry, yet the pending flag is cleared and "saved to gallery" is reported |
| `Export.FailedWriteLeavesEntryPending` | app/src/main/java/com/example/createyourmeme/data/repository/MemeEditorRepository.kt:194-212 | a throwing write reports "Save failed" with its message and never clears the pending flag |
| `Export.SaveAndShareWriteSameImage` | app/src/main/java/com/example/createyourmeme/data/repository/MemeEditorRepository.kt:134-156 | for the same snapshot, viewport and load, every save write and every share write carry the same composed image |

## Left out
- The Compose UI and layout are not modelled, and neither is how composables keep state
  across list changes. This changes what reaches the store.
  - `textBoxes.forEach` has no `key`, so the state `DraggableEditableText` remembers belongs
    to a list position. After a box is removed, the composable at its position keeps the
    removed box's text, position, scale and editing flag. Its "Done" then stores that text
    and position under the next box's id.
  - `pointerInput(Unit)` keeps the box of its first composition. Later drags send a stale id,
    or the old fields under a live id.
  - In those cases the store, and so the export, can differ from the screen. The gesture
    lemmas speak of a composable whose state was remembered from the box it reports.
- Network fetching (Coil, Retrofit) is not modelled. The image loader's result is the
  `LoadOutcome` input: it threw, no drawable, or a drawable.
- Coroutines and dispatchers are not modelled. The screen's Save and Share buttons call
  `saveComposedImage`/`shareComposedImage` in `EditorScreen.kt` with the collected
  `textBoxes` list (lines 84 and 98). Each export is one sequential run over that list
  value, so later edits cannot reach a running export. The repository's copies are reached
  only through `SaveMemeUseCase`/`ShareMemeUseCase`, which only `EditorViewModel.saveMeme`/`shareMeme`
  call, and nothing calls those. `saveBitmapToGallery` (EditorScreen.kt:395) has no caller
  at all.
- `coerceIn` throws when the range is empty, which happens when the displayed image is
  narrower or shorter than 50 pixels. The gesture step requires W, H ≥ 50 and does not model
  that exception.
- Pixel buffers, glyph rasterisation, anti-aliasing and JPEG/PNG encoding are not modelled.
  Drawing is a list of commands, and encoding is a `Compress` call with its format and
  quality.
- IEEE float rounding, NaN and infinity are not modelled. Floats are reals, which is why
  positive sizes and density are preconditions.
- Permission checks (`ensureStoragePermission`) depend on the SDK version and OS state, so
  they are left out.
- Toast display, `Log` calls and `startActivity` are left out. The report datatypes and
  `SaveToast`/`ShareToast` give the texts shown.
- Exceptions from `createBitmap`, drawing or `startActivity` are not modelled. On the share
  path nothing catches them, and the model assumes these calls return. Stream close
  failures count as part of the write's outcome.
- A file write (`AppFolder.write`, `CacheDir.write`) stands for the whole
  `FileOutputStream(file).use { compress }` block, so the trace records a `Compress` even when
  the `FileOutputStream` constructor itself threw and `compress` never ran.
- `getExternalFilesDir` may return `null`. The app's pictures folder is taken as a given
  string.
- The use-case wrappers, the catalogue search filter and the details-screen share are not
  part of this model.
- EditorStore.NextId: "strictly greater than every id" is stated only while no id equals
  `Int.MAX_VALUE`. At that value the Kotlin addition wraps, which `AddWrapsAtIntMax` shows.
- EditorStore.AddPreservesUniqueIds: assumes no id equals `Int.MAX_VALUE`, for the same
  wrap-around reason.
