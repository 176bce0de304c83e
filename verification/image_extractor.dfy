/** Record assembly for images (ImageExtractor in
    extractors/image_extractor.py). The image library's results (the opened
    image and its EXIF dict, the file size from stat) and the TAGS/GPSTAGS
    tables are parameters. */
module ImageExtraction {
  import opened Values
  import opened Dicts
  import opened Text
  import opened ExifParser
  import GpsParser
  import Helpers

  /** What the image library yields for an opened file; `exif` is the
      result of `_getexif()`, which may itself raise. */
  datatype ImageFile = ImageFile(
    format: Option<string>, mode: string, width: int, height: int,
    exif: Result<Option<Dict<Value, Value>>>)

  datatype BasicInfo = BasicInfo(
    fileName: string, fileSize: string, format: Option<string>, mode: string,
    width: int, height: int, dimensions: string)

  datatype ImageMetadata = ImageMetadata(
    basicInfo: BasicInfo,
    cameraInfo: Dict<Value, Value>,
    settingsInfo: Dict<Value, Value>,
    gpsInfo: Dict<Value, Value>,
    gpsCoords: (Option<real>, Option<real>),
    rawExif: Dict<Value, Value>)

  /** The record `extract` starts from before any tag is parsed. */
  function DefaultMetadata(basic: BasicInfo): (m: ImageMetadata)
    ensures m.basicInfo == basic
    ensures m.cameraInfo == [] && m.settingsInfo == [] && m.gpsInfo == [] && m.rawExif == []
    ensures m.gpsCoords == (None, None)
  {
    ImageMetadata(basic, [], [], [], (None, None), [])
  }

  /** f"{width} x {height}" */
  function Dimensions(width: int, height: int, py: Builtins): string {
    StrOf(Int(width), py) + " x " + StrOf(Int(height), py)
  }

  function BasicInfoOf(fileName: string, size: int, image: ImageFile, py: Builtins): (b: BasicInfo)
    ensures b.dimensions == StrOf(Int(image.width), py) + " x " + StrOf(Int(image.height), py)
    ensures b.fileSize == Helpers.FileSizeText(size, py)
    ensures b.fileName == fileName && b.width == image.width && b.height == image.height
  {
    BasicInfo(fileName, Helpers.FileSizeText(size, py), image.format, image.mode,
              image.width, image.height, Dimensions(image.width, image.height, py))
  }

  const GpsInfoTag: Value := Str("GPSInfo")

  /** The loop of _parse_exif over the EXIF dict: every resolved tag goes
      into the tag dict except "GPSInfo", whose value is put aside (the
      last one wins). */
  function SplitGps(tags: map<int, string>, d: Dict<Value, Value>): (r: (Dict<Value, Value>, Option<Value>))
    ensures |r.0| <= |d|
    decreases |d|
  {
    if d == [] then ([], None)
    else
      var n := |d| - 1;
      var (rest, gps) := SplitGps(tags, d[..n]);
      var tag := GpsParser.Resolve(tags, d[n].0);
      if tag == GpsInfoTag then (rest, Some(d[n].1)) else (Set(rest, tag, d[n].1), gps)
  }

  /** The tag dict holds no "GPSInfo" and no key twice; every other name
      holds the value of the last id resolving to it (an unknown id keeps
      its raw id as key); the GPS value is that of the last "GPSInfo". */
  lemma {:induction false} SplitGpsSpec(tags: map<int, string>, d: Dict<Value, Value>)
    ensures GpsInfoTag !in Keys(SplitGps(tags, d).0)
    ensures DistinctKeys(SplitGps(tags, d).0)
    ensures forall k :: k != GpsInfoTag ==> Get(SplitGps(tags, d).0, k) == GpsParser.LastResolvingTo(tags, d, k)
    ensures SplitGps(tags, d).1 == GpsParser.LastResolvingTo(tags, d, GpsInfoTag)
    decreases |d|
  {
    if d != [] {
      var n := |d| - 1;
      SplitGpsSpec(tags, d[..n]);
      SetGet(SplitGps(tags, d[..n]).0, GpsParser.Resolve(tags, d[n].0), d[n].1);
    }
  }

  /** What _parse_exif leaves in `metadata`, or the exception it raises:
      the GPS value, when truthy, must be a dict (`.items()` is called on
      it). */
  function ExifRecord(metadata: ImageMetadata, exif: Dict<Value, Value>, tags: map<int, string>,
                      gpsTags: map<int, string>, py: Builtins): (r: Result<ImageMetadata>)
    ensures r.Ok? ==> r.value.basicInfo == metadata.basicInfo
    ensures r.Err? ==> SplitGps(tags, exif).1.Some?
  {
    var (exifDict, gpsData) := SplitGps(tags, exif);
    var categorized := metadata.(cameraInfo := Select(exifDict, Camera),
                                 settingsInfo := Select(exifDict, Settings),
                                 rawExif := Select(exifDict, Other));
    if gpsData.Some? && Truthy(gpsData.value) then
      if gpsData.value.Mapping? then
        match GpsParser.ReadCoordinates(GpsParser.DecodeTags(gpsTags, gpsData.value.entries), py)
        case Err(e) => Err(e)
        case Ok(g) => Ok(categorized.(gpsInfo := g.info, gpsCoords := (g.lat, g.lon)))
      else Err(NoAttribute(gpsData.value, "items"))
    else Ok(categorized)
  }

  /** "GPSInfo" never reaches camera_info, settings_info or raw_exif; the
      three equal the categorisation of the non-GPS tags; the basic info is
      untouched; and without truthy GPS data the GPS fields keep what they
      held. */
  lemma ExifRecordSpec(metadata: ImageMetadata, exif: Dict<Value, Value>, tags: map<int, string>,
                       gpsTags: map<int, string>, py: Builtins)
    ensures var r := ExifRecord(metadata, exif, tags, gpsTags, py);
      r.Ok? ==>
        && r.value.basicInfo == metadata.basicInfo
        && r.value.cameraInfo == Select(SplitGps(tags, exif).0, Camera)
        && r.value.settingsInfo == Select(SplitGps(tags, exif).0, Settings)
        && r.value.rawExif == Select(SplitGps(tags, exif).0, Other)
        && GpsInfoTag !in Keys(r.value.cameraInfo)
        && GpsInfoTag !in Keys(r.value.settingsInfo)
        && GpsInfoTag !in Keys(r.value.rawExif)
    ensures var gps := SplitGps(tags, exif).1;
      !(gps.Some? && Truthy(gps.value)) ==>
        && ExifRecord(metadata, exif, tags, gpsTags, py).Ok?
        && ExifRecord(metadata, exif, tags, gpsTags, py).value.gpsInfo == metadata.gpsInfo
        && ExifRecord(metadata, exif, tags, gpsTags, py).value.gpsCoords == metadata.gpsCoords
  {
    var exifDict := SplitGps(tags, exif).0;
    SplitGpsSpec(tags, exif);
    SelectKeys(exifDict, Camera);
    SelectKeys(exifDict, Settings);
    SelectKeys(exifDict, Other);
  }

  /** With truthy GPS data: a dict is parsed, and its decoded tags and the
      two coordinates replace the GPS fields, or the parser's exception is
      raised; anything else raises AttributeError on `.items()`. */
  lemma ExifRecordGps(metadata: ImageMetadata, exif: Dict<Value, Value>, tags: map<int, string>,
                      gpsTags: map<int, string>, py: Builtins)
    requires SplitGps(tags, exif).1.Some? && Truthy(SplitGps(tags, exif).1.value)
    ensures var gps := SplitGps(tags, exif).1.value;
      var r := ExifRecord(metadata, exif, tags, gpsTags, py);
      gps.Mapping? ==>
        var g := GpsParser.ReadCoordinates(GpsParser.DecodeTags(gpsTags, gps.entries), py);
        && (g.Err? ==> r == Err(g.error))
        && (g.Ok? ==> r.Ok? && r.value.gpsInfo == g.value.info && r.value.gpsCoords == (g.value.lat, g.value.lon))
    ensures var gps := SplitGps(tags, exif).1.value;
      !gps.Mapping? ==> ExifRecord(metadata, exif, tags, gpsTags, py) == Err(NoAttribute(gps, "items"))
  {
  }

  /** The exception mapping of `extract`: the two decoder errors pass
      through, anything else is re-raised with a prefix. */
  function ImageError(e: PyException): (r: PyException)
    ensures e.kind == FileNotFoundError || e.kind == UnidentifiedImageError ==> r == e
    ensures !(e.kind == FileNotFoundError || e.kind == UnidentifiedImageError) ==>
      r.kind == Exception && r.message == "Error extracting image metadata: " + e.message
  {
    if e.kind == FileNotFoundError || e.kind == UnidentifiedImageError then e
    else PyException(Exception, "Error extracting image metadata: " + e.message)
  }

  function MapImageError(r: Result<ImageMetadata>): Result<ImageMetadata> {
    match r
    case Ok(m) => Ok(m)
    case Err(e) => Err(ImageError(e))
  }

  /** What `extract` returns once the image is open and `_getexif()` has
      answered `exif`. */
  function ExtractedRecord(fileName: string, image: ImageFile, exif: Option<Dict<Value, Value>>,
                           statSize: Result<int>, tags: map<int, string>,
                           gpsTags: map<int, string>, py: Builtins): (r: Result<ImageMetadata>)
    ensures statSize.Err? ==> r == Err(ImageError(statSize.error))
    ensures r.Ok? ==> r.value.basicInfo == BasicInfoOf(fileName, statSize.value, image, py)
  {
    match statSize
    case Err(e) => Err(ImageError(e))
    case Ok(size) =>
      var base := DefaultMetadata(BasicInfoOf(fileName, size, image, py));
      if exif.Some? && exif.value != [] then MapImageError(ExifRecord(base, exif.value, tags, gpsTags, py))
      else Ok(base)
  }

  /** Without EXIF data the record is the default one: empty tag dicts,
      no GPS data and no coordinates. */
  lemma NoExifGivesDefaultRecord(fileName: string, image: ImageFile, exif: Option<Dict<Value, Value>>,
                                 size: int, tags: map<int, string>, gpsTags: map<int, string>, py: Builtins)
    requires exif.None? || exif.value == []
    ensures var r := ExtractedRecord(fileName, image, exif, Ok(size), tags, gpsTags, py);
      && r.Ok?
      && r.value.cameraInfo == [] && r.value.settingsInfo == [] && r.value.gpsInfo == [] && r.value.rawExif == []
      && r.value.gpsCoords == (None, None)
      && r.value.basicInfo.dimensions == StrOf(Int(image.width), py) + " x " + StrOf(Int(image.height), py)
  {
  }

  class ImageExtractor {
    var filePath: string
    var image: Option<ImageFile>
    var exifData: Option<Dict<Value, Value>>

    constructor (filePath: string)
      ensures this.filePath == filePath && image == None && exifData == None
    {
      this.filePath := filePath;
      image := None;
      exifData := None;
    }

    /** _get_basic_info */
    method GetBasicInfo(statSize: Result<int>, py: Builtins) returns (r: Result<BasicInfo>)
      requires image.Some?
      ensures statSize.Err? ==> r == Err(statSize.error)
      ensures statSize.Ok? ==> r == Ok(BasicInfoOf(BaseName(filePath), statSize.value, image.value, py))
    {
      if statSize.Err? {
        return Err(statSize.error);
      }
      var fileSize := Helpers.FormatFileSize(statSize.value, py);
      var img := image.value;
      r := Ok(BasicInfo(BaseName(filePath), fileSize, img.format, img.mode, img.width, img.height,
                        StrOf(Int(img.width), py) + " x " + StrOf(Int(img.height), py)));
    }

    /** _parse_exif: the record it is given comes back updated. */
    method ParseExif(metadata: ImageMetadata, tags: map<int, string>, gpsTags: map<int, string>, py: Builtins)
      returns (r: Result<ImageMetadata>)
      requires exifData.Some?
      ensures r == ExifRecord(metadata, exifData.value, tags, gpsTags, py)
    {
      var exif := exifData.value;
      var exifDict: Dict<Value, Value> := [];
      var gpsData: Option<Value> := None;
      for i := 0 to |exif|
        invariant (exifDict, gpsData) == SplitGps(tags, exif[..i])
      {
        var (tagId, value) := exif[i];
        assert exif[..i + 1][..i] == exif[..i];
        var tag := GpsParser.Resolve(tags, tagId);
        if tag == GpsInfoTag {
          gpsData := Some(value);
        } else {
          exifDict := Set(exifDict, tag, value);
        }
      }
      assert exif[..|exif|] == exif;
      SplitGpsSpec(tags, exif);
      var cameraInfo, settingsInfo, rawExif := CategorizeTags(exifDict);
      var result := metadata.(cameraInfo := cameraInfo, settingsInfo := settingsInfo, rawExif := rawExif);
      if gpsData.Some? && Truthy(gpsData.value) {
        if !gpsData.value.Mapping? {
          return Err(NoAttribute(gpsData.value, "items"));
        }
        var parsed := GpsParser.Parse(gpsData.value.entries, gpsTags, py);
        if parsed.Err? {
          return Err(parsed.error);
        }
        result := result.(gpsInfo := parsed.value.info, gpsCoords := (parsed.value.lat, parsed.value.lon));
      }
      r := Ok(result);
    }

    /** extract: opens the image, keeps it and its EXIF dict in the
        object's fields, and assembles the record. */
    method Extract(opening: Result<ImageFile>, statSize: Result<int>, tags: map<int, string>,
                   gpsTags: map<int, string>, py: Builtins) returns (r: Result<ImageMetadata>)
      modifies this
      ensures filePath == old(filePath)
      ensures opening.Err? ==>
        image == old(image) && exifData == old(exifData) && r == Err(ImageError(opening.error))
      ensures opening.Ok? ==> image == Some(opening.value)
      ensures opening.Ok? && opening.value.exif.Err? ==>
        exifData == old(exifData) && r == Err(ImageError(opening.value.exif.error))
      ensures opening.Ok? && opening.value.exif.Ok? ==>
        exifData == opening.value.exif.value &&
        r == ExtractedRecord(BaseName(filePath), opening.value, opening.value.exif.value, statSize, tags, gpsTags, py)
    {
      if opening.Err? {
        return Err(ImageError(opening.error));
      }
      image := Some(opening.value);
      if opening.value.exif.Err? {
        return Err(ImageError(opening.value.exif.error));
      }
      exifData := opening.value.exif.value;
      var basic := GetBasicInfo(statSize, py);
      if basic.Err? {
        return Err(ImageError(basic.error));
      }
      var metadata := DefaultMetadata(basic.value);
      if exifData.Some? && exifData.value != [] {
        var parsed := ParseExif(metadata, tags, gpsTags, py);
        return MapImageError(parsed);
      }
      r := Ok(metadata);
    }
  }
}
