/** The GPS converter (GPSParser in parsers/gps_parser.py): tag-id
    resolution, degrees/minutes/seconds to signed decimal degrees after the
    Exif GPS attribute tags (CIPA DC-008, section 4.6.6), and the map link. */
module GpsParser {
  import opened Values
  import opened Dicts

  /** table.get(key, key): an integer id the table knows becomes its name,
      anything else is kept as it is. */
  function Resolve(table: map<int, string>, key: Value): (r: Value)
    ensures key.Int? && key.i in table ==> r == Str(table[key.i])
    ensures !(key.Int? && key.i in table) ==> r == key
  {
    if key.Int? && key.i in table then Str(table[key.i]) else key
  }

  /** The dict built by `info[table.get(k, k)] = v` over `d`, in order. */
  function DecodeTags(table: map<int, string>, d: Dict<Value, Value>): (r: Dict<Value, Value>)
    ensures |r| <= |d|
    decreases |d|
  {
    if d == [] then []
    else
      var n := |d| - 1;
      Set(DecodeTags(table, d[..n]), Resolve(table, d[n].0), d[n].1)
  }

  /** The value of the last entry of `d` whose id resolves to `name`. */
  function LastResolvingTo(table: map<int, string>, d: Dict<Value, Value>, name: Value): Option<Value>
    decreases |d|
  {
    if d == [] then None
    else
      var n := |d| - 1;
      if Resolve(table, d[n].0) == name then Some(d[n].1) else LastResolvingTo(table, d[..n], name)
  }

  /** Decoding renames each id and keeps every value: a name is present
      exactly when some id resolves to it, it holds the value of the last
      such id, and no name occurs twice. */
  lemma DecodeTagsLaterWins(table: map<int, string>, d: Dict<Value, Value>, name: Value)
    ensures Get(DecodeTags(table, d), name) == LastResolvingTo(table, d, name)
    ensures name in Keys(DecodeTags(table, d)) <==> exists i :: 0 <= i < |d| && Resolve(table, d[i].0) == name
    ensures DistinctKeys(DecodeTags(table, d))
  {
    DecodeTagsGet(table, d, name);
    LastResolvingToExists(table, d, name);
    DecodeTagsDistinct(table, d);
  }

  lemma {:induction false} DecodeTagsGet(table: map<int, string>, d: Dict<Value, Value>, name: Value)
    ensures Get(DecodeTags(table, d), name) == LastResolvingTo(table, d, name)
    decreases |d|
  {
    if d != [] {
      var n := |d| - 1;
      DecodeTagsGet(table, d[..n], name);
      SetGet(DecodeTags(table, d[..n]), Resolve(table, d[n].0), d[n].1);
    }
  }

  lemma {:induction false} DecodeTagsDistinct(table: map<int, string>, d: Dict<Value, Value>)
    ensures DistinctKeys(DecodeTags(table, d))
    decreases |d|
  {
    if d != [] {
      DecodeTagsDistinct(table, d[..|d| - 1]);
    }
  }

  lemma {:induction false} LastResolvingToExists(table: map<int, string>, d: Dict<Value, Value>, name: Value)
    ensures LastResolvingTo(table, d, name).Some? <==> exists i :: 0 <= i < |d| && Resolve(table, d[i].0) == name
    decreases |d|
  {
    if d != [] {
      var n := |d| - 1;
      LastResolvingToExists(table, d[..n], name);
      if Resolve(table, d[n].0) != name {
        if exists i :: 0 <= i < |d| && Resolve(table, d[i].0) == name {
          var i :| 0 <= i < |d| && Resolve(table, d[i].0) == name;
          assert i < n && d[..n][i] == d[i];
        }
        if exists i :: 0 <= i < n && Resolve(table, d[..n][i].0) == name {
          var i :| 0 <= i < n && Resolve(table, d[..n][i].0) == name;
          assert d[..n][i] == d[i];
        }
      }
    }
  }

  /** x[i] as convert_dms_to_dd evaluates it: Ok(None) where the
      interpreter raises an exception the conversion catches (IndexError,
      TypeError), Err for the KeyError a dict raises, which is not caught. */
  function Subscript(x: Value, i: nat): Result<Option<Value>>
  {
    match x
    case Tuple(items) => Ok(if i < |items| then Some(items[i]) else None)
    case List(items) => Ok(if i < |items| then Some(items[i]) else None)
    case Str(s) => Ok(if i < |s| then Some(Str([s[i]])) else None)
    case Bytes(data) => Ok(if i < |data| then Some(Int(data[i] as int)) else None)
    case Mapping(entries) =>
      var v := Get(entries, Int(i));
      if v.Some? then Ok(Some(v.value)) else Err(PyException(KeyError, IntText(i)))
    case _ => Ok(None)
  }

  /** float(dms[i]) */
  function Component(dms: Value, i: nat, py: Builtins): Result<Option<real>>
  {
    match Subscript(dms, i)
    case Err(e) => Err(e)
    case Ok(None) => Ok(None)
    case Ok(Some(x)) => Ok(FloatOf(x, py))
  }

  /** The southern and western hemispheres count negative; the comparison
      is case-sensitive. */
  predicate IsNegativeRef(ref: Value) {
    ref == Str("S") || ref == Str("W")
  }

  function Sexagesimal(degrees: real, minutes: real, seconds: real): real {
    degrees + minutes / 60.0 + seconds / 3600.0
  }

  /** The unsigned part of convert_dms_to_dd: reads degrees, minutes and
      seconds in that order and stops at the first one that is missing or
      not a number. Only a dict-shaped value can raise, with the KeyError
      the `except` clause does not catch. */
  function Magnitude(dms: Value, py: Builtins): (r: Result<Option<real>>)
    ensures r.Err? ==> dms.Mapping? && r.error.kind == KeyError
  {
    match Component(dms, 0, py)
    case Err(e) => Err(e)
    case Ok(None) => Ok(None)
    case Ok(Some(degrees)) =>
      match Component(dms, 1, py)
      case Err(e) => Err(e)
      case Ok(None) => Ok(None)
      case Ok(Some(minutes)) =>
        match Component(dms, 2, py)
        case Err(e) => Err(e)
        case Ok(None) => Ok(None)
        case Ok(Some(seconds)) => Ok(Some(Sexagesimal(degrees, minutes, seconds)))
  }

  /** convert_dms_to_dd: the magnitude, negated for "S" and "W". */
  function ConvertDmsToDd(dms: Value, ref: Value, py: Builtins): (r: Result<Option<real>>)
    ensures r.Err? ==> dms.Mapping? && r.error.kind == KeyError
    ensures r.Ok? <==> Magnitude(dms, py).Ok?
  {
    match Magnitude(dms, py)
    case Ok(Some(dd)) => Ok(Some(if IsNegativeRef(ref) then -dd else dd))
    case other => other
  }

  /** For a tuple or a list: fewer than three elements, or one of the first
      three not convertible to a float, gives None and never raises;
      otherwise the first three give d + m/60 + s/3600 and the rest are
      ignored. */
  lemma ConvertSequence(items: seq<Value>, isTuple: bool, ref: Value, py: Builtins)
    ensures var dms := if isTuple then Tuple(items) else List(items);
      ConvertDmsToDd(dms, ref, py) ==
        if |items| < 3 || FloatOf(items[0], py).None? || FloatOf(items[1], py).None? || FloatOf(items[2], py).None?
        then Ok(None)
        else
          var dd := Sexagesimal(FloatOf(items[0], py).value, FloatOf(items[1], py).value, FloatOf(items[2], py).value);
          Ok(Some(if IsNegativeRef(ref) then -dd else dd))
  {
  }

  /** The result with ref "S" or "W" is the negation of the result with any
      other ref, for the same dms. */
  function Negated(r: Result<Option<real>>): Result<Option<real>> {
    if r.Ok? && r.value.Some? then Ok(Some(-r.value.value)) else r
  }

  lemma SouthWestNegates(dms: Value, ref: Value, py: Builtins)
    requires !IsNegativeRef(ref)
    ensures ConvertDmsToDd(dms, Str("S"), py) == Negated(ConvertDmsToDd(dms, ref, py))
    ensures ConvertDmsToDd(dms, Str("W"), py) == Negated(ConvertDmsToDd(dms, ref, py))
    ensures ConvertDmsToDd(dms, Str("s"), py) == ConvertDmsToDd(dms, ref, py)
  {
  }

  /** One coordinate: converted only when both the DMS tag and its ref tag
      are present. */
  function Axis(info: Dict<Value, Value>, dmsName: string, refName: string, py: Builtins): Result<Option<real>>
  {
    var dms := Get(info, Str(dmsName));
    var ref := Get(info, Str(refName));
    if dms.Some? && ref.Some? then ConvertDmsToDd(dms.value, ref.value, py) else Ok(None)
  }

  /** Setting any tag other than the two an axis reads leaves that axis as
      it was: latitude and longitude are computed independently. */
  lemma AxisIndependent(info: Dict<Value, Value>, k: Value, v: Value, dmsName: string, refName: string, py: Builtins)
    requires k != Str(dmsName) && k != Str(refName)
    ensures Axis(Set(info, k, v), dmsName, refName, py) == Axis(info, dmsName, refName, py)
  {
    SetGet(info, k, v);
  }

  /** A missing tag leaves the coordinate None without raising. */
  lemma AxisNeedsBothTags(info: Dict<Value, Value>, dmsName: string, refName: string, py: Builtins)
    ensures Str(dmsName) !in Keys(info) || Str(refName) !in Keys(info) ==> Axis(info, dmsName, refName, py) == Ok(None)
    ensures Axis(info, dmsName, refName, py).Ok? && Axis(info, dmsName, refName, py).value.Some? ==>
      Str(dmsName) in Keys(info) && Str(refName) in Keys(info)
  {
  }

  datatype GpsReading = GpsReading(info: Dict<Value, Value>, lat: Option<real>, lon: Option<real>)

  /** What parse returns for the decoded dict `info`: latitude first, so
      its exception wins over one from the longitude. */
  function ReadCoordinates(info: Dict<Value, Value>, py: Builtins): (r: Result<GpsReading>)
    ensures r.Ok? <==> Axis(info, "GPSLatitude", "GPSLatitudeRef", py).Ok? && Axis(info, "GPSLongitude", "GPSLongitudeRef", py).Ok?
    ensures r.Ok? ==> r.value.info == info
    ensures r.Ok? ==>
      (&& r.value.lat == Axis(info, "GPSLatitude", "GPSLatitudeRef", py).value
       && r.value.lon == Axis(info, "GPSLongitude", "GPSLongitudeRef", py).value)
    ensures Axis(info, "GPSLatitude", "GPSLatitudeRef", py).Err? ==>
      r == Err(Axis(info, "GPSLatitude", "GPSLatitudeRef", py).error)
    ensures Axis(info, "GPSLatitude", "GPSLatitudeRef", py).Ok? && Axis(info, "GPSLongitude", "GPSLongitudeRef", py).Err? ==>
      r == Err(Axis(info, "GPSLongitude", "GPSLongitudeRef", py).error)
  {
    match Axis(info, "GPSLatitude", "GPSLatitudeRef", py)
    case Err(e) => Err(e)
    case Ok(lat) =>
      match Axis(info, "GPSLongitude", "GPSLongitudeRef", py)
      case Err(e) => Err(e)
      case Ok(lon) => Ok(GpsReading(info, lat, lon))
  }

  /** parse: decode the ids in a loop, then read both coordinates. */
  method Parse(gpsData: Dict<Value, Value>, gpsTags: map<int, string>, py: Builtins) returns (r: Result<GpsReading>)
    ensures r == ReadCoordinates(DecodeTags(gpsTags, gpsData), py)
  {
    var gpsInfo: Dict<Value, Value> := [];
    for i := 0 to |gpsData|
      invariant gpsInfo == DecodeTags(gpsTags, gpsData[..i])
    {
      var (tag, value) := gpsData[i];
      assert gpsData[..i + 1][..i] == gpsData[..i];
      var decoded := Resolve(gpsTags, tag);
      gpsInfo := Set(gpsInfo, decoded, value);
    }
    assert gpsData[..|gpsData|] == gpsData;
    var lat: Option<real> := None;
    var lon: Option<real> := None;
    var latDms, latRef := Get(gpsInfo, Str("GPSLatitude")), Get(gpsInfo, Str("GPSLatitudeRef"));
    if latDms.Some? && latRef.Some? {
      var converted := ConvertDmsToDd(latDms.value, latRef.value, py);
      if converted.Err? {
        return Err(converted.error);
      }
      lat := converted.value;
    }
    var lonDms, lonRef := Get(gpsInfo, Str("GPSLongitude")), Get(gpsInfo, Str("GPSLongitudeRef"));
    if lonDms.Some? && lonRef.Some? {
      var converted := ConvertDmsToDd(lonDms.value, lonRef.value, py);
      if converted.Err? {
        return Err(converted.error);
      }
      lon := converted.value;
    }
    r := Ok(GpsReading(gpsInfo, lat, lon));
  }

  const MapsPrefix := "https://www.google.com/maps?q="

  /** get_maps_link: a link exactly when both coordinates are known. */
  function GetMapsLink(lat: Option<real>, lon: Option<real>, py: Builtins): (r: Option<string>)
    ensures r.Some? <==> lat.Some? && lon.Some?
    ensures r.Some? ==> r.value == MapsPrefix + py.floatRepr(lat.value) + "," + py.floatRepr(lon.value)
  {
    if lat.Some? && lon.Some? then Some(MapsPrefix + py.floatRepr(lat.value) + "," + py.floatRepr(lon.value))
    else None
  }
}
