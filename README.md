# Gallery block tool: state reconciliation

A model of the state that the gallery block tool keeps between its
controller (`src/index.js`) and its view (`src/ui.js`), and of the `save`
operation that reconciles the two.

- The controller owns the persisted data object `data`, the upload ledger
  `dirtyData.images` and the tune flags stored on `data`. `dirtyData` is
  `data` itself when `data.images` is a non-empty array, otherwise a fresh
  `{images: []}`. Both are `DataObject` references, so the aliasing is kept.
- Ledger records are `ImageRecord` objects. `save` overwrites their captions
  in place and can put the same record into its result several times.
- The view's list node is a sequence of children: the add-button block
  first, then one block per gallery item. Items are inserted before
  `this.addButton`. That field is never assigned, so items land after the
  button. Each item is a `Slot` value: url input text, media, caption input,
  remove-button visibility, preloader background and the item-empty marker.
  The wrapper's status classes and the list's tune classes are sets.
- `save` is a nested-loop join. For each item in document order, it takes
  every ledger record whose `file.name` equals the item's url text, in ledger
  order. `Reconcile.Join` gives the ledger positions it collects, and
  `Reconcile.FinalCaption` gives the caption each record ends with. The
  lemmas in `Reconcile` state the join's ordering, multiplicity and caption
  properties.

The model keeps the source's quirks:
- `onUpload` stores the return value of `uploadFile`, which is nothing. The
  new record's `file` is therefore `undefined`. Once the view has an item,
  `save` reads `.name` of that missing file and throws a TypeError. The
  captions overwritten before the throw stay overwritten (`SaveThrew`).
- `render` reads `load.url`, which persisted `{file, caption}` records do not
  have. Their items get the url text `"undefined"` and a preloader.
- As a consequence, `render` then `save` on persisted records whose file names
  are not `"undefined"` returns `data` with an empty `images` array. Since the
  ledger is `data` itself, the ledger is emptied too, and the records are lost
  (`SaveAfterRenderDropsPersisted`).
- When the ledger is `data` itself, `save` is not idempotent. Two items with
  the same url text that matches every record make each `save` return every
  record twice, and the next `save` scans that doubled ledger
  (`Gallery.SaveDoublesWhenAliased`, `Gallery.SaveNotIdempotentWhenAliased`).
- `save` joins on `file.name`, but `uploadFile` writes `file.url` into the
  url input.
- Text inputs remove carriage returns and line feeds from the value they are
  given, so an item's url text never holds a line break. A record whose
  `file.name` holds one is never matched by any item
  (`LineBreakNameNeverMatches`).
- `uploadFile` with no item in the list reaches the add-button block. The
  model assumes that the button's second child node is not an element, so
  the call throws before anything changes. The icon markup that decides this
  (`svg/button-icon.svg`) is not part of this model.

Modules: `Js` (the JavaScript value semantics used), `GalleryRecords` (the
data object and ledger records), `GalleryUi` (the view), `Reconcile` (the
join), `GalleryTool` (the controller).

## Model

| member | source | states |
|---|---|---|
| Js.StripLineBreaks | src/ui.js:307 | A text input's value sanitization: the result has no carriage return or line feed, is no longer than the input, and is the input itself when that has no line break. It is empty exactly when the input is all line breaks. |
| Js.StripLineBreaksKeeps | src/ui.js:307 | Sanitizing keeps every character other than CR and LF exactly as often as it occurs in the input. |
| Js.StripLineBreaksSnoc | src/ui.js:307 | Sanitizing a string with one more character appends that character, unless it is a line break. So the kept characters stay in their original order. |
| Js.InputText | src/ui.js:307 | The text of a text input after its value is set. It never holds a line break. A string shows sanitized, so a string without CR/LF shows as itself. `null` shows as "" and `undefined` as "undefined". The text is empty exactly for `null` and for a string made only of line breaks (including ""). |
| Js.LooseEquals | src/index.js:134 | `imageName == rawData.file.name` with a string on the left: it holds only for a string name, and then exactly when the two texts are equal. A nullish name never matches. |
| Js.TuneValue | src/index.js:102-105 | A tune starts on exactly when its stored value is boolean `true` or the string `'true'`. An absent value or any other value gives off. An on value is always truthy. |
| GalleryRecords.ImageRecord.constructor | src/index.js:154-157 | A new ledger record holds the given `file` and `caption` and has no top-level `url` key. |
| GalleryRecords.DataObject.constructor | src/index.js:47-49 | A new plain object holds the given `images` and other keys. |
| GalleryUi.SavedCaption | src/index.js:131 | The caption `save` reads from an item: the caption input's text when the item has one, otherwise `undefined`. It is never `null`. |
| GalleryUi.CreateImage | src/ui.js:347-361 | Appends one image with the given url and a caption input. The caption input holds the sanitized caption only if the caption is truthy, and `""` otherwise. A caption of only line breaks is truthy but shows as `""`. The remove button becomes visible. The url input, preloader and marker are unchanged. |
| GalleryUi.NewItem | src/ui.js:299-327 | The url input shows the url as a text input would (line breaks removed, `undefined` becomes the text "undefined", `null` becomes ""). The caption input shows the sanitized caption. A truthy url gives a populated item with exactly that image and no preloader. Otherwise the item is waiting: no media, no caption input, hidden remove button, an empty preloader, and `save` reads its caption as `undefined`. |
| GalleryUi.PreviewItem | src/ui.js:165-167 | The preloader item has an empty url input and no media. Its preloader background is `url(<src>)`. |
| GalleryUi.Uploaded | src/ui.js:329-334 | The filled last item gets one more image for `file.url`, an empty caption input and the url input set to `file.url` with its line breaks removed. Its preloader background is cleared if it has one. It is marked empty and its remove button is visible. |
| GalleryUi.MediaFor | src/ui.js:183-218 | The tag is VIDEO exactly when the url ends in `.mp4`. A video is autoplay, loop, muted and playsinline, and waits for `loadeddata`. An image has none of these flags and waits for `load`. The src is the url. |
| GalleryUi.RenderedBlocks | src/ui.js:113-117 | One item block per record. |
| GalleryUi.RenderedBlocksAt | src/ui.js:113-117 | Blocks follow record order: block k is the new item for record k's `url` and `caption`. |
| GalleryUi.Ui.constructor | src/ui.js:18-49 | The list holds only the add-button block. No status or tune class is set. |
| GalleryUi.Ui.GetImages | src/ui.js:98-100 | The items of the list in document order. There is one item for every child after the add-button block, and item k is the slot of child k+1. |
| GalleryUi.Ui.Render | src/ui.js:108-122 | If `images` is absent or empty, the list is unchanged and the status is exactly EMPTY. Otherwise the rendered blocks for the records are appended in record order and the status is exactly UPLOADING. Tune classes are untouched. |
| GalleryUi.Ui.ShowPreloader | src/ui.js:165-171 | Appends exactly one child, the preview item, at the end of the list. |
| GalleryUi.Ui.UploadFile | src/ui.js:329-334 | Succeeds exactly when the list has an item. On success only the last child changes, and it becomes the uploaded item. On failure nothing changes. |
| GalleryUi.Ui.RemoveBlock | src/ui.js:309-311 | Removing an item block deletes exactly that child and keeps the rest in order. |
| GalleryUi.Ui.ToggleStatus | src/ui.js:262-269 | Afterwards the status set is exactly the given status. The other two are cleared. |
| GalleryUi.Ui.ApplyTune | src/ui.js:278-280 | The tune class for the name is set exactly when the flag is on. Every other tune class is unchanged. |
| Reconcile.Matches | src/index.js:134 | A record matches an item exactly when it has a `file` whose name is a string equal to the item's url text. A record without `file` never matches. |
| Reconcile.MatchesOf | src/index.js:132-139 | The positions one item's ledger scan collects. Each is a position inside the ledger. |
| Reconcile.MatchesOfSound | src/index.js:132-139 | Every collected position holds a record whose `file.name` loosely equals the url text. |
| Reconcile.MatchesOfComplete | src/index.js:132-139 | The scan misses no matching record, and it lists positions in strictly increasing ledger order. |
| Reconcile.Join | src/index.js:128-140 | The concatenation, over items in view order, of each item's matches. Every position is in the ledger. |
| Reconcile.Pick | src/index.js:136 | The records at the collected positions, in the order collected. |
| Reconcile.Throws | src/index.js:128-134 | `save` throws exactly when the view has an item and some ledger record has no `file`. With no item, or with every record having a `file`, it does not. |
| Reconcile.FinalCaption | src/index.js:128-135 | A record's caption changes only if some item matches it, and it never changes to `null`. |
| Reconcile.FirstFileless | src/index.js:132-134 | The first ledger record without a `file`, where the scan throws. Every record before it has one. |
| Reconcile.MatchesOfMultiplicity | src/index.js:132-139 | Within one item's scan, each record is collected once if it matches and never otherwise. |
| Reconcile.JoinAppend | src/index.js:128-140 | The join of two item lists placed one after the other is the join of the first followed by the join of the second. |
| Reconcile.JoinMultiplicity | src/index.js:128-140 | A record appears in the output once per matching item, so duplicate names all match. It appears at all if and only if some item matches it. |
| Reconcile.CountMatchingPositive | src/index.js:128-134 | A record has a positive match count if and only if some item's url text matches its file name. |
| Reconcile.JoinFollowsViewOrder | src/index.js:128-140 | When every item matches exactly one record, the output has one record per item, and entry i matches item i. |
| Reconcile.JoinSplit | src/index.js:128-140 | The output splits around any item into the items before it, its own matches, and the items after it. |
| Reconcile.JoinOrphan | src/index.js:128-140 | Editing an item's url text to a name no record has drops exactly that item's matches from the output. |
| Reconcile.FinalCaptionIsLastMatch | src/index.js:128-135 | A record no item matches keeps its caption. A matched record ends with the caption of the last matching item in view order. |
| Reconcile.FinalCaptionIdempotent | src/index.js:128-135 | Overwriting the captions a second time with the same items changes nothing. |
| Reconcile.FinalCaptionForgetsPrior | src/index.js:128-135 | Once some item matches a record, its final caption does not depend on the caption it had before. |
| Reconcile.JoinNone | src/index.js:128-140 | When no item's url text matches any record, `save` collects nothing. |
| Reconcile.MatchesOfAll | src/index.js:132-139 | When every record matches an item, that item's scan collects every record's position, and as many positions as the ledger has records. |
| Reconcile.JoinRepeatedItem | src/index.js:128-140 | Two items with the same url text, matching every record, collect twice as many records as the ledger holds. |
| Reconcile.NoItemMatches | src/index.js:128-140 | When every item shows the same url text and every record has a `file` with another name, `save` does not throw, collects nothing, and matches no record. |
| Reconcile.LineBreakNameNeverMatches | src/index.js:134 | An item whose url text has no line break, as every text input's value has none, never matches a record whose `file.name` contains a line break. |
| GalleryTool.FilesOf | src/index.js:134 | The `file` of each ledger record, one per record, in ledger order. |
| GalleryTool.Toggled | src/index.js:208-211 | The toggled tune becomes the boolean negation of its stored value's truthiness. Every other key reads as before. |
| GalleryTool.ToggleTwiceRestores | src/index.js:208-211 | Toggling a tune that holds a boolean twice restores the stored keys exactly. |
| GalleryTool.Gallery.constructor | src/index.js:40-106 | The ledger is `data` itself exactly when `data.images` is a non-empty array. Otherwise it is a fresh `{images: []}`. Each configured tune is stored as the boolean `TuneValue` of its old value, and the other keys are unchanged. The view's tune classes are exactly the tunes stored as `true`. |
| GalleryTool.Gallery.Render | src/index.js:114-116 | The view renders `data` (as `Ui.Render`) and the controller's invariant holds. |
| GalleryTool.Gallery.SetTune | src/index.js:220-224 | Stores the boolean under the name and applies the same flag to the view. Nothing else changes, and the controller's invariant is kept. |
| GalleryTool.Gallery.TuneToggled | src/index.js:208-211 | The stored keys become `Toggled` of the old ones. The view's class for the tune is the negation of the old value's truthiness. The invariant that view classes mirror stored tunes is kept. |
| GalleryTool.Gallery.ToggleTwice | src/index.js:208-211 | Two toggles of a configured tune restore both the stored keys and the view's tune classes, and keep the invariant. |
| GalleryTool.Gallery.OnUpload | src/index.js:151-162 | The failure path runs if and only if `success` is falsy or `file` is missing. It shows the fixed error notice and changes nothing. Otherwise, when the view has an item, the last item is filled and exactly one fresh record with no `file`, a `null` caption and no top-level `url` is appended to the ledger. With no item, the view's throw leaves both unchanged. |
| GalleryTool.Gallery.UploadingFailed | src/index.js:170-177 | Shows the fixed notice "Can not upload an image, try another" in the error style and changes no state. |
| GalleryTool.Gallery.Save | src/index.js:119-143 | Throws if and only if the view has an item and the ledger has a record without `file`. Otherwise `data.images` becomes the records at `Join(items, ledger files)`, in that order, and `data` is returned. Each ledger record's caption is then the last matching item's caption, or is unchanged. When it throws, `data.images` is unchanged and only the first item's matches before the fileless record got its caption. Files are never changed. A ledger separate from `data` is never replaced. When the ledger is `data`, the ledger becomes the result. |
| GalleryTool.Gallery.SaveWhenNothingMatches | src/index.js:119-143 | When no item matches any record, `save` returns `data` with empty `images`, keeps every caption, and empties a ledger that is `data` itself. |
| GalleryTool.Gallery.SaveDoublesWhenAliased | src/index.js:119-143 | With the ledger aliased to `data` and two items whose url text matches every record, `save` returns and the ledger becomes a sequence twice as long, made of the same records, which still match. |
| GalleryTool.Gallery.SaveNotIdempotentWhenAliased | src/index.js:119-143 | Under the same conditions, two saves make the ledger four times as long: `save` is not idempotent. |
| GalleryTool.RenderPersisted | src/ui.js:108-117 | Constructing on records without a top-level `url` and rendering makes the ledger `data` itself and gives every item the url text "undefined". |
| GalleryTool.SaveAfterRenderDropsPersisted | src/index.js:114-143 | `render` then `save` on persisted records whose file names are not "undefined" returns `data` with empty `images`, empties the aliased ledger, and keeps every caption. |
| GalleryTool.Gallery.CollectMatches | src/index.js:128-140 | The outer loop: the collection is `Pick(ledger, Join(items, files))` and captions are `FinalCaption`. It throws exactly when `Throws`, and then only the first item's scan before the fileless record has overwritten captions. |
| GalleryTool.Gallery.ScanLedger | src/index.js:132-139 | The inner loop for one item: it throws exactly when a record has no `file`. Otherwise it collects `Pick(ledger, MatchesOf(name, files))`. Every matching record scanned before any throw gets the item's caption, and no other record changes. |

## Left out

- DOM construction (`make`, `innerHTML`, SVG icons, class strings, inline styles) beyond the abstract slot fields. It is presentation only.
- Event listeners and their wiring: the add button's click, the load listener in `fillImage`, the remove button's click. Removal is modelled only as `Ui.RemoveBlock`.
- The Uploader and Tunes modules are not part of this model. Neither are network transport, blob previews and the `additionalRequest*` settings. The list of tune names is a constructor parameter.
- The notifier, i18n and `console.log` calls. `UploadingFailed` returns the notice it would show, and the logged error text is ignored.
- `createFileButton`, `appendCallback`, `fillCaption` and the element-building part of `fillImage`. They reference nodes that are never created, so only the tag and attribute choice (`MediaFor`) is modelled.
- `readOnly`, `isReadOnlySupported`, `toolbox`, `renderSettings` and the `CSS`/`status` getters. They are constants or delegation to code outside this model.
- GalleryUi.Ui.UploadFile: on a list holding only the add button, the model assumes the button's second child node is not an element, so `uploadFile` throws before any change. `svg/button-icon.svg` is not part of this model. If that node were the `<svg>` element, `_createImage` would append into the add button and the throw would come later, at `src/ui.js:331`. A custom `buttonContent` can change the markup the same way.
- Js.LooseEquals: `==` is modelled only between a string and a string or nullish value. `FileDesc.name`, `ImageRecord.caption` and `ImageRecord.url` are typed as string, `null` or `undefined`. A numeric `file.name` such as 5 would equal the text "5" in the source, and a numeric `url` would be truthy. The model does not cover these coercions.
- GalleryTool.Gallery.constructor: a present but `null` or non-array `images` key is not distinguished from a missing one. The source would throw or misbehave on it.
- Properties of the data object other than `images` and the tune keys are an opaque map. Their values matter only through truthiness and strict equality.
- GalleryTool.Gallery.Save: `save` and its loops are split into `Save`, `CollectMatches` and `ScanLedger`. Together they do exactly what the one source method does, in the same order.
