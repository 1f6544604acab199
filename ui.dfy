/**
 * The view of the gallery (src/ui.js) with the DOM reduced to data: the list
 * node is a sequence of children, each gallery item a `Slot` record, and the
 * CSS classes that carry state (wrapper status, list tunes, the item-empty
 * marker) are sets and booleans.
 */
module GalleryUi {
  import opened Js
  import opened GalleryRecords

  /** The values of `Ui.status`. */
  datatype Status = Empty | Uploading | Filled

  /** The keys of `Ui.status` in the order `for ... in` visits them. */
  const Statuses: seq<Status> := [Empty, Uploading, Filled]

  /**
   * One gallery item (the `gallery-item` div inside its block):
   * - `urlField`: the text of the url input, the item's first child;
   * - `images`: the `src` of every `<img>` appended to the item, in order;
   * - `captionField`: the text of the last caption input, `None` if there is none;
   * - `removeVisible`: the remove button is shown (`display: flex`, not `none`);
   * - `preloader`: the preloader div's background image, `None` if the item has no preloader;
   * - `markedEmpty`: the item carries the `gallery-item--empty` class.
   */
  datatype Slot = Slot(
    urlField: string,
    images: seq<string>,
    captionField: Option<string>,
    removeVisible: bool,
    preloader: Option<string>,
    markedEmpty: bool)

  /** A child of the list node: the block holding the add button, or the block of one item. */
  datatype Child = AddButton | Block(slot: Slot)

  /** An item waiting for its upload: no media, no caption input, hidden remove button, a preloader. */
  ghost predicate Preloading(s: Slot)
  {
    s.images == [] && s.captionField.None? && !s.removeVisible && s.preloader.Some?
  }

  /** An item showing media: at least one image, a caption input and a visible remove button. */
  ghost predicate Populated(s: Slot)
  {
    s.images != [] && s.captionField.Some? && s.removeVisible
  }

  /**
   * `item.lastChild.value`: the last caption input's text, or `undefined` when
   * the item's last child is its preloader div.
   */
  function SavedCaption(s: Slot): (c: NullableString)
    ensures c != Null
    ensures c.Str? <==> s.captionField.Some?
    ensures c.Str? ==> c.s == s.captionField.value
  {
    if s.captionField.Some? then Str(s.captionField.value) else Undefined
  }

  /**
   * `_createImage(url, item, captionText, removeBtn)`: appends an image and a
   * caption input (pre-filled only with a truthy caption) and shows the
   * remove button.
   */
  function CreateImage(s: Slot, url: string, captionText: NullableString): (r: Slot)
    ensures Populated(r)
    ensures r.images == s.images + [url]
    ensures SavedCaption(r) == Str(if Truthy(captionText) then InputText(captionText) else "")
    ensures r.urlField == s.urlField && r.preloader == s.preloader && r.markedEmpty == s.markedEmpty
  {
    var text := if Truthy(captionText) then InputText(captionText) else "";
    s.(images := s.images + [url], captionField := Some(text), removeVisible := true)
  }

  /**
   * `creteNewItem(url, caption)`: a populated item when `url` is truthy,
   * otherwise an item with an empty preloader and a hidden remove button.
   */
  function NewItem(url: NullableString, caption: NullableString): (r: Slot)
    ensures r.urlField == InputText(url) && !r.markedEmpty
    ensures Truthy(url) ==> Populated(r) && r.images == [url.s] && r.preloader == None
    ensures Truthy(url) ==> SavedCaption(r) == Str(if Truthy(caption) then InputText(caption) else "")
    ensures !Truthy(url) ==> Preloading(r) && r.preloader == Some("") && SavedCaption(r) == Undefined
  {
    var bare := Slot(InputText(url), [], None, false, None, false);
    if Truthy(url) then CreateImage(bare, url.s, caption) else bare.(preloader := Some(""))
  }

  /** The item `showPreloader(src)` appends: an empty item whose preloader shows the preview. */
  function PreviewItem(src: string): (r: Slot)
    ensures Preloading(r) && r.urlField == "" && !r.markedEmpty
    ensures r.preloader == Some("url(" + src + ")")
    ensures SavedCaption(r) == Undefined
  {
    NewItem(Str(""), Str("")).(preloader := Some("url(" + src + ")"))
  }

  /**
   * What `uploadFile(file)` makes of the last item: media and a caption input
   * for `file.url`, the url input set to `file.url` (sanitized), the preloader background
   * cleared (the item's third child is its preloader only when it has one) and
   * the item-empty marker added.
   */
  function Uploaded(s: Slot, url: string): (r: Slot)
    ensures Populated(r) && r.urlField == InputText(Str(url)) && r.markedEmpty
    ensures r.images == s.images + [url] && SavedCaption(r) == Str("")
    ensures r.preloader == if s.preloader.Some? then Some("") else None
  {
    var filled := CreateImage(s, url, Str(""));
    var cleared := if filled.preloader.Some? then filled.(preloader := Some("")) else filled;
    cleared.(urlField := InputText(Str(url)), markedEmpty := true)
  }

  datatype Tag = Img | Video

  /** The element `fillImage(url)` would compose: its tag, attributes and the load event it waits for. */
  datatype Media = Media(
    tag: Tag, src: string,
    autoplay: bool, loop: bool, muted: bool, playsinline: bool,
    loadEvent: string)

  /** The tag and attribute choice of `fillImage`: a muted looping inline video for `.mp4`, an image otherwise. */
  function MediaFor(url: string): (m: Media)
    ensures m.src == url
    ensures m.tag == Video <==> exists k :: 0 <= k <= |url| && url[k..] == ".mp4"
    ensures m.tag == Video ==> m.autoplay && m.loop && m.muted && m.playsinline && m.loadEvent == "loadeddata"
    ensures m.tag == Img ==> !m.autoplay && !m.loop && !m.muted && !m.playsinline && m.loadEvent == "load"
  {
    if EndsInMp4(url) then
      Media(Video, url, true, true, true, true, "loadeddata")
    else
      assert forall k :: 0 <= k <= |url| && url[k..] == ".mp4" ==> k == |url| - 4;
      Media(Img, url, false, false, false, false, "load")
  }

  /** The blocks `render` inserts for the given records, reading `load.url` and `load.caption`. */
  ghost function RenderedBlocks(records: seq<ImageRecord>): (r: seq<Child>)
    reads records
    ensures |r| == |records|
    ensures forall k :: 0 <= k < |r| ==> r[k].Block?
  {
    seq(|records|, k requires 0 <= k < |records| reads records => Block(NewItem(records[k].url, records[k].caption)))
  }

  /** The block rendered for record `k` is the item `creteNewItem(load.url, load.caption)` builds. */
  lemma RenderedBlocksAt(records: seq<ImageRecord>, k: nat)
    requires k < |records|
    ensures RenderedBlocks(records)[k] == Block(NewItem(records[k].url, records[k].caption))
  {
  }

  /** Rendering one more record appends exactly its block. */
  lemma RenderedBlocksStep(records: seq<ImageRecord>, k: nat)
    requires k < |records|
    ensures RenderedBlocks(records[..k + 1]) ==
      RenderedBlocks(records[..k]) + [Block(NewItem(records[k].url, records[k].caption))]
  {
    var longer, shorter := RenderedBlocks(records[..k + 1]), RenderedBlocks(records[..k]);
    var block := Block(NewItem(records[k].url, records[k].caption));
    forall i | 0 <= i <= k
      ensures longer[i] == (shorter + [block])[i]
    {
      assert records[..k + 1][i] == records[i];
      if i < k {
        assert records[..k][i] == records[i];
      }
    }
  }

  /** The items held by a run of item blocks. */
  function SlotsOf(blocks: seq<Child>): (items: seq<Slot>)
    requires forall k :: 0 <= k < |blocks| ==> blocks[k].Block?
    ensures |items| == |blocks|
    ensures forall k :: 0 <= k < |blocks| ==> blocks[k] == Block(items[k])
  {
    seq(|blocks|, k requires 0 <= k < |blocks| => blocks[k].slot)
  }

  class Ui {
    /** The children of the list node, in document order. */
    var children: seq<Child>
    /** The status classes `gallery-wrapper--<status>` set on the wrapper. */
    var statusFlags: set<Status>
    /** The tune classes `gallery-list--<name>` set on the list node. */
    var tuneFlags: set<string>

    /**
     * The add-button block is the first child of the list and the only one
     * that is not an item: items are inserted before `this.addButton`, a
     * field that is never assigned, so they are appended after the button.
     */
    ghost predicate Valid()
      reads this`children
    {
      |children| >= 1 && children[0] == AddButton &&
      forall k :: 1 <= k < |children| ==> children[k].Block?
    }

    /** The constructor: a list holding only the add-button block, inside the wrapper. */
    constructor ()
      ensures Valid()
      ensures children == [AddButton] && statusFlags == {} && tuneFlags == {}
    {
      children := [AddButton];
      statusFlags := {};
      tuneFlags := {};
    }

    /** `getImages()`: the `gallery-item` elements of the list in document order. */
    function GetImages(): (items: seq<Slot>)
      reads this`children
      requires Valid()
      ensures |items| == |children| - 1
      ensures forall k :: 0 <= k < |items| ==> children[k + 1] == Block(items[k])
    {
      SlotsOf(children[1..])
    }

    /** `render(toolData)`: the empty status without images, else one item per record and the uploading status. */
    method Render(toolData: DataObject)
      requires Valid()
      modifies this`children, this`statusFlags
      ensures Valid() && tuneFlags == old(tuneFlags)
      ensures toolData.images.None? || toolData.images.value == [] ==>
        children == old(children) && statusFlags == {Empty}
      ensures toolData.images.Some? && toolData.images.value != [] ==>
        children == old(children) + RenderedBlocks(toolData.images.value) && statusFlags == {Uploading}
    {
      if toolData.images.None? || |toolData.images.value| == 0 {
        ToggleStatus(Empty);
      } else {
        var records := toolData.images.value;
        for k := 0 to |records|
          invariant children == old(children) + RenderedBlocks(records[..k])
          invariant Valid()
        {
          RenderedBlocksStep(records, k);
          var item := NewItem(records[k].url, records[k].caption);
          ghost var before := RenderedBlocks(records[..k]);
          children := children + [Block(item)];
          assert children == old(children) + (before + [Block(item)]);
        }
        assert records[..|records|] == records;
        ToggleStatus(Uploading);
      }
    }

    /** `showPreloader(src)`: appends one empty item showing the preview. */
    method ShowPreloader(src: string)
      requires Valid()
      modifies this`children
      ensures Valid()
      ensures children == old(children) + [Block(PreviewItem(src))]
    {
      children := children + [Block(PreviewItem(src))];
    }

    /**
     * `uploadFile(file)`: fills the last child of the list. With no item in
     * the list the last child is the add-button block, whose markup lacks the
     * item's children, and the call throws before changing anything.
     */
    method UploadFile(file: FileDesc) returns (ok: bool)
      requires Valid()
      modifies this`children
      ensures Valid()
      ensures ok <==> |old(children)| > 1
      ensures !ok ==> children == old(children)
      ensures ok ==> |children| == |old(children)|
      ensures ok ==> children[..|children| - 1] == old(children)[..|children| - 1]
      ensures ok ==> children[|children| - 1] == Block(Uploaded(old(children)[|children| - 1].slot, file.url))
    {
      var n := |children|;
      ok := n > 1;
      if ok {
        children := children[n - 1 := Block(Uploaded(children[n - 1].slot, file.url))];
      }
    }

    /** The remove button's click handler: `block.remove()` detaches one item block. */
    method RemoveBlock(k: nat)
      requires Valid() && 1 <= k < |children|
      modifies this`children
      ensures Valid()
      ensures children == old(children[..k] + children[k + 1..])
    {
      children := children[..k] + children[k + 1..];
    }

    /** `toggleStatus(status)`: each status class is switched on exactly when it is `status`. */
    method ToggleStatus(status: Status)
      modifies this`statusFlags
      ensures statusFlags == {status}
    {
      for i := 0 to |Statuses|
        invariant forall t :: t in Statuses[..i] ==> (t in statusFlags <==> t == status)
        invariant forall t :: t !in Statuses[..i] ==> (t in statusFlags <==> t in old(statusFlags))
      {
        var t := Statuses[i];
        if t == status {
          statusFlags := statusFlags + {t};
        } else {
          statusFlags := statusFlags - {t};
        }
      }
      assert Statuses[..|Statuses|] == Statuses;
      forall t: Status ensures t in statusFlags <==> t == status {
        assert t == Statuses[0] || t == Statuses[1] || t == Statuses[2];
      }
    }

    /** `applyTune(name, on)`: the class `gallery-list--<name>` is set exactly when `on`. */
    method ApplyTune(name: string, on: bool)
      modifies this`tuneFlags
      ensures forall t :: t in tuneFlags <==> if t == name then on else t in old(tuneFlags)
    {
      if on {
        tuneFlags := tuneFlags + {name};
      } else {
        tuneFlags := tuneFlags - {name};
      }
    }
  }
}
