/**
 * The shapes the tool shares with its host editor: the persisted data object
 * and the image records in it. Both are plain JavaScript objects, so both are
 * classes here: the controller may hold the very same data object twice, and
 * `save` overwrites a record's caption in place.
 */
module GalleryRecords {
  import opened Js

  /** The upload descriptor the backend returns: `url` is always present, `name` may not be. */
  datatype FileDesc = FileDesc(url: string, name: NullableString)

  /** One `{file, caption}` record, persisted or in the upload ledger. */
  class ImageRecord {
    /** `None` stands for `undefined`: records appended after an upload carry no file. */
    var file: Option<FileDesc>
    var caption: NullableString
    /**
     * A top-level `url` key. Records of the persisted shape have none, so it
     * reads as `Undefined`; it matters only because the view reads `load.url`.
     */
    var url: NullableString

    constructor (file: Option<FileDesc>, caption: NullableString)
      ensures this.file == file && this.caption == caption && url == Undefined
    {
      this.file := file;
      this.caption := caption;
      url := Undefined;
    }
  }

  /** A plain object with an optional `images` array and any other keys (the tunes among them). */
  class DataObject {
    /** `None` when the object has no `images` key. */
    var images: Option<seq<ImageRecord>>
    var props: map<string, JsValue>

    constructor (images: Option<seq<ImageRecord>>, props: map<string, JsValue>)
      ensures this.images == images && this.props == props
    {
      this.images := images;
      this.props := props;
    }
  }
}
