/**
 * The gallery tool's controller (src/index.js): the persisted data object,
 * the upload ledger `dirtyData.images`, the tune flags, and `save`, which
 * reconciles the items of the view with the ledger.
 */
module GalleryTool {
  import opened Js
  import opened GalleryRecords
  import opened GalleryUi
  import opened Reconcile

  /** What the uploader hands to `onUpload`: `{success, file}`, either of which may be missing. */
  datatype UploadResponse = UploadResponse(success: JsValue, file: Option<FileDesc>)

  /** A notifier message (its i18n key) and style. */
  datatype Notice = Notice(message: string, style: string)

  /** How `onUpload` ended: a record appended, the failure path taken, or an exception from the view. */
  datatype UploadOutcome = Appended | Rejected(notice: Notice) | UploadThrew

  /** How `save` ended: the data object returned, or a TypeError thrown by `rawData.file.name`. */
  datatype SaveOutcome = Saved(data: DataObject) | SaveThrew

  /** The `file` of every ledger record, in ledger order. */
  function FilesOf(ledger: seq<ImageRecord>): (files: seq<Option<FileDesc>>)
    reads ledger
    ensures |files| == |ledger|
    ensures forall j :: 0 <= j < |ledger| ==> files[j] == ledger[j].file
  {
    seq(|ledger|, j requires 0 <= j < |ledger| reads ledger => ledger[j].file)
  }

  /** The stored tunes after `tuneToggled(name)`: the flag becomes the negation of its truthiness. */
  function Toggled(props: map<string, JsValue>, name: string): (r: map<string, JsValue>)
    ensures Lookup(r, name) == BoolValue(!IsTruthy(Lookup(props, name)))
    ensures forall t :: t != name ==> Lookup(r, t) == Lookup(props, t)
  {
    props[name := BoolValue(!IsTruthy(Lookup(props, name)))]
  }

  /** Toggling a tune that already holds a boolean twice restores the stored data exactly. */
  lemma ToggleTwiceRestores(props: map<string, JsValue>, name: string)
    requires Lookup(props, name).BoolValue?
    ensures Toggled(Toggled(props, name), name) == props
  {
    assert name in props;
  }

  /** The `file` fields of the ledger are as they were. */
  lemma FilesUnchanged(ledger: seq<ImageRecord>, files: seq<Option<FileDesc>>)
    requires |files| == |ledger| && forall j :: 0 <= j < |ledger| ==> ledger[j].file == files[j]
    ensures FilesOf(ledger) == files
  {
  }

  /** A record is among the first `j + 1` exactly when it is among the first `j` or is the next one. */
  lemma PrefixGrows(ledger: seq<ImageRecord>, j: nat, o: ImageRecord)
    requires j < |ledger|
    ensures o in ledger[..j + 1] <==> o in ledger[..j] || o == ledger[j]
  {
    assert ledger[..j + 1] == ledger[..j] + [ledger[j]];
  }

  class Gallery {
    /** The data object the host passed in, mutated in place and returned by `save`. */
    var data: DataObject
    /** The object whose `images` array is the upload ledger: `data` itself, or a fresh object. */
    var dirtyData: DataObject
    var ui: Ui
    /** The names of the configured tunes (`Tunes.tunes`). */
    const tuneNames: seq<string>

    /**
     * The ledger exists, the view is well formed, and every configured tune
     * holds a boolean that the list's tune class mirrors.
     */
    ghost predicate Valid()
      reads this, data`props, dirtyData`images, ui`children, ui`tuneFlags
    {
      ui.Valid() && dirtyData.images.Some? &&
      forall t :: t in tuneNames ==>
        Lookup(data.props, t).BoolValue? && (t in ui.tuneFlags <==> Lookup(data.props, t).b)
    }

    /** `this.dirtyData.images`. */
    function Ledger(): seq<ImageRecord>
      reads this, dirtyData
      requires dirtyData.images.Some?
    {
      dirtyData.images.value
    }

    /**
     * The constructor: the ledger is `data` itself when `data.images` is a
     * non-empty array, otherwise a fresh `{images: []}`; then every configured
     * tune is parsed from `data` and set on both the data and the view.
     */
    constructor (d: DataObject, tuneNames: seq<string>)
      modifies d
      ensures Valid() && data == d && this.tuneNames == tuneNames && fresh(ui)
      ensures d.images == old(d.images)
      ensures old(d.images).Some? && |old(d.images).value| > 0 ==> dirtyData == d
      ensures !(old(d.images).Some? && |old(d.images).value| > 0) ==>
        fresh(dirtyData) && dirtyData.images == Some([]) && dirtyData.props == map[]
      ensures forall t :: t in tuneNames ==> Lookup(d.props, t) == BoolValue(TuneValue(old(Lookup(d.props, t))))
      ensures forall t :: t !in tuneNames ==> Lookup(d.props, t) == old(Lookup(d.props, t))
      ensures ui.children == [AddButton] && ui.statusFlags == {}
      ensures forall t :: t in ui.tuneFlags <==> t in tuneNames && Lookup(d.props, t) == BoolValue(true)
    {
      data := d;
      if d.images.Some? && |d.images.value| > 0 {
        dirtyData := d;
      } else {
        dirtyData := new DataObject(Some([]), map[]);
      }
      ui := new Ui();
      this.tuneNames := tuneNames;
      new;
      ghost var props0 := d.props;
      for i := 0 to |tuneNames|
        invariant data == d && fresh(ui) && ui.Valid() && ui.children == [AddButton] && ui.statusFlags == {}
        invariant d.images == old(d.images) && dirtyData.images.Some?
        invariant old(d.images).Some? && |old(d.images).value| > 0 ==> dirtyData == d
        invariant !(old(d.images).Some? && |old(d.images).value| > 0) ==>
          fresh(dirtyData) && dirtyData.images == Some([]) && dirtyData.props == map[]
        invariant forall t :: t in tuneNames[..i] ==> Lookup(d.props, t) == BoolValue(TuneValue(Lookup(props0, t)))
        invariant forall t :: t !in tuneNames[..i] ==> Lookup(d.props, t) == Lookup(props0, t)
        invariant forall t :: t in ui.tuneFlags <==> t in tuneNames[..i] && TuneValue(Lookup(props0, t))
      {
        var tune := tuneNames[i];
        assert tuneNames[..i + 1] == tuneNames[..i] + [tune];
        var value := TuneValue(Lookup(data.props, tune));
        SetTune(tune, value);
      }
      assert tuneNames[..|tuneNames|] == tuneNames;
    }

    /** `render()`: the view renders the data object. */
    method Render()
      requires Valid()
      modifies ui`children, ui`statusFlags
      ensures Valid()
      ensures data.images.None? || data.images.value == [] ==>
        ui.children == old(ui.children) && ui.statusFlags == {Empty}
      ensures data.images.Some? && data.images.value != [] ==>
        ui.children == old(ui.children) + RenderedBlocks(data.images.value) && ui.statusFlags == {Uploading}
    {
      ui.Render(data);
    }

    /** `setTune(name, value)`: stores the boolean in `data` and applies the same flag to the view. */
    method SetTune(name: string, value: bool)
      modifies data`props, ui`tuneFlags
      ensures old(Valid()) ==> Valid()
      ensures data.props == old(data.props)[name := BoolValue(value)]
      ensures forall t :: t in ui.tuneFlags <==> if t == name then value else t in old(ui.tuneFlags)
    {
      data.props := data.props[name := BoolValue(value)];
      ui.ApplyTune(name, value);
    }

    /** `tuneToggled(name)`: sets the tune to the negation of its stored value. */
    method TuneToggled(name: string)
      requires Valid()
      modifies data`props, ui`tuneFlags
      ensures Valid()
      ensures data.props == Toggled(old(data.props), name)
      ensures forall t :: t in ui.tuneFlags <==>
        if t == name then !IsTruthy(Lookup(old(data.props), name)) else t in old(ui.tuneFlags)
    {
      SetTune(name, !IsTruthy(Lookup(data.props, name)));
    }

    /** Two clicks on a configured tune restore both the stored data and the view's classes. */
    method ToggleTwice(name: string)
      requires Valid() && name in tuneNames
      modifies data`props, ui`tuneFlags
      ensures Valid()
      ensures data.props == old(data.props) && ui.tuneFlags == old(ui.tuneFlags)
    {
      TuneToggled(name);
      TuneToggled(name);
      ToggleTwiceRestores(old(data.props), name);
      assert forall t :: t in ui.tuneFlags <==> t in old(ui.tuneFlags);
    }

    /**
     * `onUpload(response)`: with a truthy `success` and a `file`, the view
     * fills its last item and the ledger gets one record. The record's `file`
     * is what `uploadFile` returns, which is nothing, so it is `undefined`.
     * Otherwise the failure path runs and nothing changes.
     */
    method OnUpload(response: UploadResponse) returns (outcome: UploadOutcome)
      requires Valid()
      modifies dirtyData`images, ui`children
      ensures Valid()
      ensures outcome.Rejected? <==> !(IsTruthy(response.success) && response.file.Some?)
      ensures outcome.Appended? <==> IsTruthy(response.success) && response.file.Some? && |old(ui.children)| > 1
      ensures outcome.Rejected? ==> outcome.notice == Notice("Can not upload an image, try another", "error")
      ensures !outcome.Appended? ==> dirtyData.images == old(dirtyData.images) && ui.children == old(ui.children)
      ensures outcome.Appended? ==>
        |Ledger()| == |old(Ledger())| + 1 && Ledger()[..|old(Ledger())|] == old(Ledger()) &&
        fresh(Ledger()[|old(Ledger())|]) &&
        Ledger()[|old(Ledger())|].file == None && Ledger()[|old(Ledger())|].caption == Null &&
        Ledger()[|old(Ledger())|].url == Undefined
      ensures outcome.Appended? ==>
        var last := |ui.children| - 1;
        |ui.children| == |old(ui.children)| &&
        ui.children == old(ui.children)[last := Block(Uploaded(old(ui.children)[last].slot, response.file.value.url))]
    {
      if IsTruthy(response.success) && response.file.Some? {
        var ok := ui.UploadFile(response.file.value);
        if !ok {
          outcome := UploadThrew;
          return;
        }
        var record := new ImageRecord(None, Null);
        dirtyData.images := Some(dirtyData.images.value + [record]);
        outcome := Appended;
      } else {
        var notice := UploadingFailed("incorrect response");
        outcome := Rejected(notice);
      }
    }

    /** `uploadingFailed(errorText)`: logs the error and shows a fixed notification; no state changes. */
    method UploadingFailed(errorText: string) returns (notice: Notice)
      ensures notice.message == "Can not upload an image, try another" && notice.style == "error"
    {
      notice := Notice("Can not upload an image, try another", "error");
    }

    /**
     * `save()`: for each item of the view in document order, every ledger
     * record whose `file.name` equals the item's url text, in ledger order,
     * each with its caption overwritten in place by the item's caption; the
     * collection becomes `data.images`, and `data` is returned. Reading
     * `.name` of a record without `file` throws, after the captions matched
     * so far have been overwritten.
     */
    method Save() returns (outcome: SaveOutcome)
      requires Valid()
      modifies data`images, Ledger()`caption
      ensures Valid()
      ensures forall o :: o in old(Ledger()) ==> o.file == old(o.file) && o.url == old(o.url)
      ensures outcome.Saved? <==> !Throws(ui.GetImages(), FilesOf(old(Ledger())))
      ensures outcome.Saved? ==>
        outcome.data == data &&
        data.images == Some(Pick(old(Ledger()), Join(ui.GetImages(), FilesOf(old(Ledger())))))
      ensures outcome.Saved? ==>
        forall o :: o in old(Ledger()) ==> o.caption == FinalCaption(ui.GetImages(), o.file, old(o.caption))
      ensures outcome.SaveThrew? ==> data.images == old(data.images)
      ensures outcome.SaveThrew? ==>
        var stop := FirstFileless(FilesOf(old(Ledger())));
        forall o :: o in old(Ledger()) ==>
          o.caption == if o in old(Ledger())[..stop] && Matches(ui.GetImages()[0].urlField, o.file)
                       then SavedCaption(ui.GetImages()[0]) else old(o.caption)
      ensures dirtyData != data ==> dirtyData.images == old(dirtyData.images)
      ensures dirtyData == data && outcome.Saved? ==> Ledger() == outcome.data.images.value
    {
      var images := ui.GetImages();
      ghost var ledger := Ledger();
      ghost var files := FilesOf(ledger);
      var cleanData, threw := CollectMatches(images, Ledger());
      FilesUnchanged(ledger, files);
      if threw {
        outcome := SaveThrew;
        return;
      }
      data.images := Some(cleanData);
      outcome := Saved(data);
    }

    /**
     * `save()` when no item matches any ledger record: `data.images` becomes
     * empty, every caption is kept, and a ledger that is `data` itself is
     * emptied with it.
     */
    method SaveWhenNothingMatches() returns (outcome: SaveOutcome)
      requires Valid()
      requires !Throws(ui.GetImages(), FilesOf(Ledger())) && Join(ui.GetImages(), FilesOf(Ledger())) == []
      requires forall j :: 0 <= j < |Ledger()| ==> CountMatching(ui.GetImages(), Ledger()[j].file) == 0
      modifies data`images, Ledger()`caption
      ensures Valid() && outcome.Saved? && data.images == Some([])
      ensures forall o :: o in old(Ledger()) ==> o.caption == old(o.caption)
      ensures dirtyData == data ==> Ledger() == []
    {
      ghost var ledger := Ledger();
      ghost var files := FilesOf(ledger);
      ghost var items := ui.GetImages();
      outcome := Save();
      FilesUnchanged(ledger, files);
      forall o | o in ledger
        ensures o.caption == old(o.caption)
      {
        var j :| 0 <= j < |ledger| && ledger[j] == o;
        FinalCaptionIsLastMatch(items, files[j], old(o.caption));
      }
    }

    /**
     * With the ledger aliased to `data`, two items with the same url text that
     * matches every record make `save` return every record twice, and that
     * result becomes the ledger: one save doubles it. The records keep
     * matching the items, so the situation repeats.
     */
    method SaveDoublesWhenAliased() returns (outcome: SaveOutcome)
      requires Valid() && dirtyData == data
      requires |ui.GetImages()| == 2 && ui.GetImages()[0] == ui.GetImages()[1]
      requires forall o :: o in Ledger() ==> Matches(ui.GetImages()[0].urlField, o.file)
      modifies data`images, Ledger()`caption
      ensures Valid() && outcome.Saved?
      ensures |Ledger()| == 2 * |old(Ledger())|
      ensures forall o :: o in Ledger() ==> o in old(Ledger())
      ensures forall o :: o in Ledger() ==> Matches(ui.GetImages()[0].urlField, o.file)
    {
      ghost var ledger := Ledger();
      ghost var files := FilesOf(ledger);
      var item := ui.GetImages()[0];
      assert ui.GetImages() == [item, item];
      JoinRepeatedItem(item, files);
      outcome := Save();
      FilesUnchanged(ledger, files);
    }

    /**
     * `save` is not idempotent when the ledger is `data`: under the
     * conditions of `SaveDoublesWhenAliased`, a second save doubles the
     * ledger again.
     */
    method SaveNotIdempotentWhenAliased() returns (first: SaveOutcome, second: SaveOutcome)
      requires Valid() && dirtyData == data
      requires |ui.GetImages()| == 2 && ui.GetImages()[0] == ui.GetImages()[1]
      requires forall o :: o in Ledger() ==> Matches(ui.GetImages()[0].urlField, o.file)
      modifies data`images, (set o | o in Ledger())`caption
      ensures Valid() && first.Saved? && second.Saved?
      ensures |Ledger()| == 4 * |old(Ledger())|
    {
      first := SaveDoublesWhenAliased();
      second := SaveDoublesWhenAliased();
    }

    /**
     * The outer loop of `save`: the items of the view in document order, each
     * followed by a scan of the ledger; the collection is what the scans
     * matched, in that order, unless a scan throws.
     */
    method CollectMatches(images: seq<Slot>, ghost ledger: seq<ImageRecord>)
      returns (cleanData: seq<ImageRecord>, threw: bool)
      requires dirtyData.images == Some(ledger)
      modifies ledger`caption
      ensures threw <==> Throws(images, old(FilesOf(ledger)))
      ensures !threw ==> cleanData == Pick(ledger, Join(images, old(FilesOf(ledger))))
      ensures !threw ==> forall o :: o in ledger ==> o.caption == FinalCaption(images, o.file, old(o.caption))
      ensures threw ==>
        var stop := FirstFileless(old(FilesOf(ledger)));
        forall o :: o in ledger ==>
          o.caption == if o in ledger[..stop] && Matches(images[0].urlField, o.file)
                       then SavedCaption(images[0]) else old(o.caption)
    {
      cleanData := [];
      ghost var files := FilesOf(ledger);
      ghost var acc: seq<nat> := [];
      for i := 0 to |images|
        invariant forall o :: o in ledger ==> o.caption == FinalCaption(images[..i], o.file, old(o.caption))
        invariant i > 0 ==> forall j :: 0 <= j < |files| ==> files[j].Some?
        invariant acc == Join(images[..i], files)
        invariant cleanData == Pick(ledger, acc)
      {
        var imageName := images[i].urlField;
        var caption := SavedCaption(images[i]);
        FilesUnchanged(ledger, files);
        var matched, scanThrew := ScanLedger(imageName, caption, ledger, files);
        if scanThrew {
          threw := true;
          return;
        }
        FilesUnchanged(ledger, files);
        PickConcat(ledger, acc, MatchesOf(imageName, files));
        acc := acc + MatchesOf(imageName, files);
        cleanData := cleanData + matched;
        JoinStep(images, i, files);
        forall o | o in ledger
          ensures o.caption == FinalCaption(images[..i + 1], o.file, old(o.caption))
        {
          FinalCaptionStep(images, i, o.file, old(o.caption));
        }
      }
      threw := false;
      assert images[..|images|] == images;
    }

    /**
     * The inner loop of `save` for one item: every ledger record whose
     * `file.name` equals `imageName`, in ledger order, each with its caption
     * overwritten by `caption`. Reading `.name` of a record without `file`
     * throws, after the records before it have been handled.
     */
    method ScanLedger(imageName: string, caption: NullableString,
                      ghost ledger: seq<ImageRecord>, ghost files: seq<Option<FileDesc>>)
      returns (matched: seq<ImageRecord>, threw: bool)
      requires dirtyData.images == Some(ledger) && files == FilesOf(ledger)
      modifies ledger`caption
      ensures threw <==> exists j :: 0 <= j < |files| && files[j].None?
      ensures !threw ==> matched == Pick(ledger, MatchesOf(imageName, files))
      ensures forall o :: o in ledger ==>
        o.caption == if (!threw || o in ledger[..FirstFileless(files)]) && Matches(imageName, o.file)
                     then caption else old(o.caption)
    {
      matched := [];
      for j := 0 to |dirtyData.images.value|
        invariant forall o :: o in ledger ==>
          o.caption == (if o in ledger[..j] && Matches(imageName, o.file) then caption else old(o.caption))
        invariant forall k :: 0 <= k < j ==> files[k].Some?
        invariant matched == Pick(ledger, MatchesOf(imageName, files[..j]))
      {
        var rawData := dirtyData.images.value[j];
        ScanStep(ledger, imageName, files, j);
        if rawData.file.None? {
          threw := true;
          assert files[j].None? && FirstFileless(files) == j;
          return;
        }
        if LooseEquals(imageName, rawData.file.value.name) {
          rawData.caption := caption;
          matched := matched + [rawData];
        }
        forall o | o in ledger
          ensures o.caption == (if o in ledger[..j + 1] && Matches(imageName, o.file) then caption else old(o.caption))
        {
          PrefixGrows(ledger, j, o);
          assert o == rawData ==> (Matches(imageName, o.file) <==> LooseEquals(imageName, rawData.file.value.name));
        }
      }
      threw := false;
      assert files[..|files|] == files && ledger[..|ledger|] == ledger;
    }
  }

  /**
   * A tool constructed on persisted records (no top-level `url`) and
   * rendered: the ledger is `data` itself and every item's url text is
   * "undefined".
   */
  method RenderPersisted(d: DataObject, tuneNames: seq<string>) returns (g: Gallery)
    requires d.images.Some? && d.images.value != []
    requires forall r :: r in d.images.value ==> r.url == Undefined
    modifies d
    ensures g.Valid() && g.data == d && g.dirtyData == d && d.images == old(d.images)
    ensures |g.ui.GetImages()| == |d.images.value|
    ensures forall i :: 0 <= i < |g.ui.GetImages()| ==> g.ui.GetImages()[i].urlField == "undefined"
  {
    ghost var records := d.images.value;
    g := new Gallery(d, tuneNames);
    g.Render();
    var items := g.ui.GetImages();
    ghost var blocks := RenderedBlocks(records);
    assert g.ui.children == [AddButton] + blocks;
    forall i | 0 <= i < |items|
      ensures items[i].urlField == "undefined"
    {
      assert Block(items[i]) == g.ui.children[i + 1] == blocks[i];
      assert records[i] in records;
    }
  }

  /**
   * `render()` followed by `save()` on persisted records: `render` reads the
   * records' missing top-level `url`, so every item's url text is
   * "undefined"; no record's file bears that name, so `save` collects
   * nothing, and since the ledger is `data` itself, the records are dropped
   * from both. Their captions are untouched.
   */
  method SaveAfterRenderDropsPersisted(d: DataObject, tuneNames: seq<string>)
    returns (g: Gallery, outcome: SaveOutcome)
    requires d.images.Some? && d.images.value != []
    requires forall r :: r in d.images.value ==>
      r.url == Undefined && r.file.Some? && r.file.value.name != Str("undefined")
    modifies d, d.images.value
    ensures g.data == d && g.dirtyData == d
    ensures outcome.Saved? && d.images == Some([]) && g.Ledger() == []
    ensures forall r :: r in old(d.images.value) ==> r.caption == old(r.caption)
  {
    ghost var records := d.images.value;
    ghost var files := FilesOf(records);
    assert forall j :: 0 <= j < |files| ==> files[j].Some? && files[j].value.name != Str("undefined") by {
      forall j | 0 <= j < |files|
        ensures files[j].Some? && files[j].value.name != Str("undefined")
      {
        assert records[j] in records;
      }
    }
    g := RenderPersisted(d, tuneNames);
    NoItemMatches(g.ui.GetImages(), "undefined", files);
    outcome := g.SaveWhenNothingMatches();
  }
}
