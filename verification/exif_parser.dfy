/** The EXIF tag categoriser and the display formatter for raw tag values
    (ExifParser in parsers/exif_parser.py). */
module ExifParser {
  import opened Values
  import opened Dicts

  const CameraTags: seq<string> := ["Make", "Model", "LensMake", "LensModel", "Software"]

  const SettingsTags: seq<string> := [
    "DateTime", "DateTimeOriginal", "DateTimeDigitized",
    "ExposureTime", "FNumber", "ISO", "ISOSpeedRatings",
    "FocalLength", "Flash", "WhiteBalance", "ExposureMode",
    "MeteringMode", "ExposureProgram"
  ]

  /** `key in CAMERA_TAGS`: only a string can equal a listed name. */
  predicate IsCameraTag(key: Value) {
    key.Str? && key.s in CameraTags
  }

  predicate IsSettingsTag(key: Value) {
    key.Str? && key.s in SettingsTags
  }

  datatype Category = Camera | Settings | Other

  /** Where a tag lands: the camera list is consulted first. */
  function CategoryOf(key: Value): Category {
    if IsCameraTag(key) then Camera
    else if IsSettingsTag(key) then Settings
    else Other
  }

  /** The entries of `d` in category `c`, in iteration order. */
  function Select(d: Dict<Value, Value>, c: Category): (r: Dict<Value, Value>)
    ensures |r| <= |d|
    decreases |d|
  {
    if d == [] then []
    else
      var n := |d| - 1;
      Select(d[..n], c) + (if CategoryOf(d[n].0) == c then [d[n]] else [])
  }

  /** `a` is `b` with some entries deleted (greedy match from the end). */
  predicate Subsequence<T(==)>(a: seq<T>, b: seq<T>)
    decreases |b|
  {
    a == [] ||
    (b != [] &&
     if a[|a| - 1] == b[|b| - 1] then Subsequence(a[..|a| - 1], b[..|b| - 1])
     else Subsequence(a, b[..|b| - 1]))
  }

  lemma {:induction false} SelectMembers(d: Dict<Value, Value>, c: Category)
    ensures forall e :: e in Select(d, c) <==> e in d && CategoryOf(e.0) == c
    decreases |d|
  {
    if d != [] {
      var n := |d| - 1;
      SelectMembers(d[..n], c);
      assert d == d[..n] + [d[n]];
    }
  }

  lemma SelectKeys(d: Dict<Value, Value>, c: Category)
    ensures forall k :: k in Keys(Select(d, c)) ==> k in Keys(d) && CategoryOf(k) == c
  {
    SelectMembers(d, c);
    forall k | k in Keys(Select(d, c)) ensures k in Keys(d) && CategoryOf(k) == c {
      var i :| 0 <= i < |Select(d, c)| && Keys(Select(d, c))[i] == k;
      var e := Select(d, c)[i];
      assert e in Select(d, c);
      var j :| 0 <= j < |d| && d[j] == e;
      assert Keys(d)[j] == k;
    }
  }

  /** categorize_tags: one pass over the tag dict, filling three dicts. */
  method CategorizeTags(exif: Dict<Value, Value>)
    returns (cameraInfo: Dict<Value, Value>, settingsInfo: Dict<Value, Value>, otherTags: Dict<Value, Value>)
    requires DistinctKeys(exif)
    ensures cameraInfo == Select(exif, Camera)
    ensures settingsInfo == Select(exif, Settings)
    ensures otherTags == Select(exif, Other)
  {
    cameraInfo, settingsInfo, otherTags := [], [], [];
    for i := 0 to |exif|
      invariant cameraInfo == Select(exif[..i], Camera)
      invariant settingsInfo == Select(exif[..i], Settings)
      invariant otherTags == Select(exif[..i], Other)
    {
      var (key, value) := exif[i];
      assert exif[..i + 1][..i] == exif[..i] && exif[..i + 1][i] == exif[i];
      assert key !in Keys(exif[..i]) by {
        forall j | 0 <= j < i ensures Keys(exif[..i])[j] != key {
          assert exif[..i][j] == exif[j];
        }
      }
      SelectKeys(exif[..i], Camera);
      SelectKeys(exif[..i], Settings);
      SelectKeys(exif[..i], Other);
      if IsCameraTag(key) {
        cameraInfo := Set(cameraInfo, key, value);
      } else if IsSettingsTag(key) {
        settingsInfo := Set(settingsInfo, key, value);
      } else {
        otherTags := Set(otherTags, key, value);
      }
    }
    assert exif[..|exif|] == exif;
  }

  /** Every entry lands in exactly one of the three dicts with its value
      unchanged, the three key sets are pairwise disjoint, and the sizes
      add up to the size of the input. */
  lemma {:induction false} CategorizeIsPartition(d: Dict<Value, Value>)
    ensures forall e :: e in d <==> e in Select(d, Camera) || e in Select(d, Settings) || e in Select(d, Other)
    ensures forall e :: e in d && CategoryOf(e.0) == Camera ==> e in Select(d, Camera) && e !in Select(d, Settings) && e !in Select(d, Other)
    ensures forall e :: e in d && CategoryOf(e.0) == Settings ==> e in Select(d, Settings) && e !in Select(d, Camera) && e !in Select(d, Other)
    ensures forall e :: e in d && CategoryOf(e.0) == Other ==> e in Select(d, Other) && e !in Select(d, Camera) && e !in Select(d, Settings)
    ensures forall k :: k in Keys(Select(d, Camera)) ==> k !in Keys(Select(d, Settings)) && k !in Keys(Select(d, Other))
    ensures forall k :: k in Keys(Select(d, Settings)) ==> k !in Keys(Select(d, Other))
    ensures |Select(d, Camera)| + |Select(d, Settings)| + |Select(d, Other)| == |d|
  {
    SelectMembers(d, Camera);
    SelectMembers(d, Settings);
    SelectMembers(d, Other);
    SelectKeys(d, Camera);
    SelectKeys(d, Settings);
    SelectKeys(d, Other);
    SelectSizes(d);
  }

  lemma {:induction false} SelectSizes(d: Dict<Value, Value>)
    ensures |Select(d, Camera)| + |Select(d, Settings)| + |Select(d, Other)| == |d|
    decreases |d|
  {
    if d != [] {
      SelectSizes(d[..|d| - 1]);
    }
  }

  /** Each of the three dicts keeps the relative order of the input, and
      keeps its keys distinct. */
  lemma {:induction false} CategorizeKeepsOrder(d: Dict<Value, Value>, c: Category)
    requires DistinctKeys(d)
    ensures Subsequence(Select(d, c), d)
    ensures DistinctKeys(Select(d, c))
    decreases |d|
  {
    if d != [] {
      var n := |d| - 1;
      var s := Select(d[..n], c);
      assert DistinctKeys(d[..n]) by {
        forall i, j | 0 <= i < j < n ensures d[..n][i].0 != d[..n][j].0 {
          assert d[..n][i] == d[i] && d[..n][j] == d[j];
        }
      }
      CategorizeKeepsOrder(d[..n], c);
      SelectKeys(d[..n], c);
      assert d[n].0 !in Keys(d[..n]) by {
        forall j | 0 <= j < n ensures Keys(d[..n])[j] != d[n].0 {
          assert d[..n][j] == d[j];
        }
      }
      if CategoryOf(d[n].0) == c {
        assert Select(d, c) == s + [d[n]];
        assert (s + [d[n]])[..|s|] == s;
        assert Keys(s + [d[n]]) == Keys(s) + [d[n].0];
      } else {
        assert Select(d, c) == s;
        if s != [] {
          assert s[|s| - 1].0 == Keys(s)[|s| - 1];
          assert s[|s| - 1] != d[n];
        }
      }
    }
  }

  /** The empty tag dict gives three empty dicts. */
  lemma CategorizeEmpty()
    ensures Select([], Camera) == [] && Select([], Settings) == [] && Select([], Other) == []
  {
  }

  /** value_str[:97] + "..." once the text exceeds 100 characters. */
  function Truncate(s: string): (r: string)
    ensures |r| <= 100
    ensures |s| <= 100 ==> r == s
    ensures |s| > 100 ==> |r| == 100 && r[..97] == s[..97] && r[97..] == "..."
  {
    if |s| > 100 then s[..97] + "..." else s
  }

  /** isinstance(value, tuple) and len(value) == 2: a list never qualifies. */
  predicate IsPair(value: Value) {
    value.Tuple? && |value.items| == 2
  }

  /** value[0] / value[1] for a non-zero denominator. */
  function Divide(a: Value, b: Value): (r: Result<real>)
    requires NonZero(b)
    ensures r.Ok? <==> IsNumber(a) && IsNumber(b)
    ensures r.Ok? ==> r.value * NumberOf(b) == NumberOf(a)
    ensures r.Err? ==> r.error.kind == TypeError
  {
    if IsNumber(a) && IsNumber(b) then Ok(NumberOf(a) / NumberOf(b))
    else Err(PyException(TypeError,
      "unsupported operand type(s) for /: '" + TypeName(a) + "' and '" + TypeName(b) + "'"))
  }

  /** A pair of numbers whose denominator is non-zero. */
  predicate NumericRatio(value: Value) {
    IsPair(value) && IsNumber(value.items[0]) && IsNumber(value.items[1]) && NumberOf(value.items[1]) != 0.0
  }

  /** The three rational rules at the head of format_value: ExposureTime
      takes any pair, FNumber and FocalLength only a pair whose
      denominator is non-zero. */
  predicate RationalRuleApplies(key: Value, value: Value) {
    (key == Str("ExposureTime") && IsPair(value)) ||
    ((key == Str("FNumber") || key == Str("FocalLength")) && IsPair(value) && NonZero(value.items[1]))
  }

  /** format_value: first matching rule wins. */
  function FormatValue(key: Value, value: Value, py: Builtins): (r: Result<string>)
    ensures key == Str("ExposureTime") && IsPair(value) ==>
      r == Ok(StrOf(value.items[0], py) + "/" + StrOf(value.items[1], py) + " sec")
    ensures key == Str("FNumber") && NumericRatio(value) ==>
      r == Ok("f/" + py.fixed1(NumberOf(value.items[0]) / NumberOf(value.items[1])))
    ensures key == Str("FocalLength") && NumericRatio(value) ==>
      r == Ok(py.fixed1(NumberOf(value.items[0]) / NumberOf(value.items[1])) + " mm")
    ensures value.Bytes? ==> r == Ok(py.decodeUtf8(value.data))
    ensures !RationalRuleApplies(key, value) && !value.Bytes? ==> r == Ok(Truncate(StrOf(value, py)))
    ensures r.Err? <==> RationalRuleApplies(key, value) && key != Str("ExposureTime")
                        && !(IsNumber(value.items[0]) && IsNumber(value.items[1]))
  {
    if key == Str("ExposureTime") && IsPair(value) then
      Ok(StrOf(value.items[0], py) + "/" + StrOf(value.items[1], py) + " sec")
    else if key == Str("FNumber") && IsPair(value) && NonZero(value.items[1]) then
      match Divide(value.items[0], value.items[1])
      case Err(e) => Err(e)
      case Ok(q) => Ok("f/" + py.fixed1(q))
    else if key == Str("FocalLength") && IsPair(value) && NonZero(value.items[1]) then
      match Divide(value.items[0], value.items[1])
      case Err(e) => Err(e)
      case Ok(q) => Ok(py.fixed1(q) + " mm")
    else if value.Bytes? then
      // errors='ignore' never raises, so the "<binary data: n bytes>" fallback is dead
      Ok(py.decodeUtf8(value.data))
    else if value.Tuple? || value.List? || value.Mapping? then
      Ok(Truncate(StrOf(value, py)))
    else
      Ok(Truncate(StrOf(value, py)))
  }

  /** A zero denominator sends FNumber and FocalLength to the generic
      rendering, truncated like any other tuple. */
  lemma ZeroDenominatorFallsThrough(key: Value, n: Value, d: Value, py: Builtins)
    requires key == Str("FNumber") || key == Str("FocalLength")
    requires IsNumber(d) && NumberOf(d) == 0.0
    ensures FormatValue(key, Tuple([n, d]), py) == Ok(Truncate(StrOf(Tuple([n, d]), py)))
    ensures |FormatValue(key, Tuple([n, d]), py).value| <= 100
  {
  }
}
