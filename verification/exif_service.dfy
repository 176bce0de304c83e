/** The queries ExifService (core/exif_service.py) answers about a record
    dict: its GPS pair, whether it holds any tag, and how many. */
module ExifService {
  import opened Values
  import opened Dicts
  import opened ExifParser
  import opened ImageExtraction

  /** The entries of a record dict the service reads; each may be missing. */
  datatype RecordView = RecordView(
    cameraInfo: Option<Dict<Value, Value>>,
    settingsInfo: Option<Dict<Value, Value>>,
    gpsInfo: Option<Dict<Value, Value>>,
    rawExif: Option<Dict<Value, Value>>,
    gpsCoords: Option<(Option<real>, Option<real>)>)

  /** The view of a record built by the image extractor: every entry is set. */
  function ViewOf(m: ImageMetadata): (v: RecordView)
    ensures v.cameraInfo.Some? && v.settingsInfo.Some? && v.gpsInfo.Some? && v.rawExif.Some? && v.gpsCoords.Some?
  {
    RecordView(Some(m.cameraInfo), Some(m.settingsInfo), Some(m.gpsInfo), Some(m.rawExif), Some(m.gpsCoords))
  }

  /** metadata.get('gps_coords', (None, None)) */
  function ExtractGpsCoordinates(v: RecordView): (r: (Option<real>, Option<real>))
    ensures v.gpsCoords.None? ==> r == (None, None)
    ensures v.gpsCoords.Some? ==> r == v.gpsCoords.value
  {
    match v.gpsCoords
    case None => (None, None)
    case Some(pair) => pair
  }

  /** bool(metadata.get(name)) for a dict-valued entry. */
  predicate Filled(d: Option<Dict<Value, Value>>) {
    d.Some? && d.value != []
  }

  /** has_metadata */
  predicate HasMetadata(v: RecordView)
    ensures !HasMetadata(v) ==> SizeOf(v.cameraInfo) == 0 && SizeOf(v.settingsInfo) == 0 && SizeOf(v.rawExif) == 0
  {
    Filled(v.cameraInfo) || Filled(v.settingsInfo) || Filled(v.rawExif)
  }

  /** len(metadata.get(name, {})) */
  function SizeOf(d: Option<Dict<Value, Value>>): nat {
    if d.None? then 0 else |d.value|
  }

  /** count_tags */
  function CountTags(v: RecordView): (c: nat)
    ensures c > 0 <==> HasMetadata(v)
  {
    SizeOf(v.cameraInfo) + SizeOf(v.settingsInfo) + SizeOf(v.rawExif)
  }

  /** A record has metadata exactly when it counts at least one tag; the
      GPS entries take part in neither. */
  lemma CountTagsMatchesHasMetadata(v: RecordView, gpsInfo: Option<Dict<Value, Value>>,
                                    gpsCoords: Option<(Option<real>, Option<real>)>)
    ensures CountTags(v) > 0 <==> HasMetadata(v)
    ensures CountTags(v.(gpsInfo := gpsInfo, gpsCoords := gpsCoords)) == CountTags(v)
    ensures HasMetadata(v.(gpsInfo := gpsInfo, gpsCoords := gpsCoords)) == HasMetadata(v)
  {
  }

  /** For a record the image extractor built, the count is the number of
      distinct non-GPS tag names, and the coordinates are the ones it
      stored. */
  lemma ExtractedRecordCount(metadata: ImageMetadata, exif: Dict<Value, Value>, tags: map<int, string>,
                             gpsTags: map<int, string>, py: Builtins)
    requires ExifRecord(metadata, exif, tags, gpsTags, py).Ok?
    ensures var m := ExifRecord(metadata, exif, tags, gpsTags, py).value;
      && CountTags(ViewOf(m)) == |SplitGps(tags, exif).0|
      && ExtractGpsCoordinates(ViewOf(m)) == m.gpsCoords
  {
    ExifRecordSpec(metadata, exif, tags, gpsTags, py);
    SelectSizes(SplitGps(tags, exif).0);
  }

  /** A record built without EXIF data has no metadata and no coordinates. */
  lemma NoExifNothingToShow(fileName: string, image: ImageFile, exif: Option<Dict<Value, Value>>,
                            size: int, tags: map<int, string>, gpsTags: map<int, string>, py: Builtins)
    requires exif.None? || exif.value == []
    ensures var r := ExtractedRecord(fileName, image, exif, Ok(size), tags, gpsTags, py);
      && r.Ok?
      && !HasMetadata(ViewOf(r.value))
      && CountTags(ViewOf(r.value)) == 0
      && ExtractGpsCoordinates(ViewOf(r.value)) == (None, None)
  {
    NoExifGivesDefaultRecord(fileName, image, exif, size, tags, gpsTags, py);
  }
}
