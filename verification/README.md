# Metadata normalisation pipeline — a Dafny model

This project models the core of Metadata-info, a command-line tool that reads
image and PDF files and prints and saves their metadata. The model covers:

- **Input validation.** `FileReader` checks that a path exists and carries one of
  the six supported image extensions. Case does not matter. It also lists the
  supported files of a folder in sorted order.
- **Tag categorisation.** `ExifParser` splits a raw EXIF tag dict into camera,
  settings and other tags. It also renders tag values for display: rationals,
  byte strings, and truncation to 100 characters.
- **GPS conversion.** `GPSParser` resolves GPS tag ids and converts
  degrees/minutes/seconds to signed decimal degrees. It also builds the map link.
- **Record assembly.** `ImageExtractor` and `PDFExtractor` assemble the
  per-file metadata record. They model the exceptions each operation raises, and how `extract` re-raises them.
  For PDFs this includes the eight document-information fields of
  ISO 32000-1, section 14.3.3, and the date layout of section 7.9.4.
- **Record queries.** `ExifService` answers queries on a record: its
  coordinates, whether it has metadata, and how many tags it has.
- **Configuration.** `AnalysisConfig` is built from parsed options.
- **Formatting helpers.** The file-size, HTML-escape and PDF-date helpers.
- **Report buffer.** `OutputFormatter` keeps the lines of the report.

Python values are modelled by the closed datatype `Values.Value`. A Python
dict is a sequence of key/value pairs in insertion order (`Dicts.Dict`).
`Dicts.Set` is the assignment `d[k] = v`. Exceptions are the `Err` case of
`Values.Result` and carry the exception class and its message.

Text that Python builds from floats and containers is a parameter of type
`Values.Builtins`: `str()` of a float, list or dict, the `.1f`/`.2f` formats,
the float `repr`, UTF-8 decoding and `float()` parsing. `Values.StrOf` gives
the exact text for `None`, booleans, integers and strings.

The host gives some facts, and these are parameters too:
- whether a path exists;
- its size;
- the directory listing;
- the opened image or PDF document;
- the PIL `TAGS`/`GPSTAGS` tables.

Behaviour of the code that a reader might not expect, and that the model keeps:

- `format_value` raises `TypeError` for an `FNumber` or `FocalLength` pair whose
  denominator compares unequal to 0 and one of whose two parts is not a number,
  such as `("a", 2)`. A pair whose denominator is 0, such as `("a", 0)`, takes
  the generic rendering instead. `ExifParser.FormatValue` models both
  (`ExifParser.ZeroDenominatorFallsThrough`).
- `convert_dms_to_dd` catches `TypeError`, `ValueError` and `IndexError` only.
  A dict-shaped DMS value without the key `0`, `1` or `2` raises a `KeyError`
  that escapes it (`GpsParser.Magnitude`, `GpsParser.ConvertDmsToDd`).
- `_get_pdf_metadata` stores the known fields first and then assigns every
  other key with `metadata[key] = ...`. A document key spelled like a label,
  such as `Title`, therefore overwrites that label's entry in place
  (`PdfExtraction.LabelCollision`).
- `PDFExtractor.extract` wraps every failure. Unlike the image extractor, it
  does not let decoder errors through unchanged.
- `_parse_exif` updates the record it is given in place, and the model returns
  the updated record.
- `OutputFormatter` reads `self.typing_effect` and `self._print_slow`, and the
  class defines neither. Every print method therefore records its lines and then
  raises `AttributeError`.

## Model

| member | source | states |
|---|---|---|
| Values.StrOf | utils/helpers.py:20-21 | `str(v)`: a string is returned unchanged; an integer gives its decimal text |
| Dicts.Set | parsers/exif_parser.py:19 | `d[k] = v`: an existing key keeps its position (the key order is unchanged), a new one is appended; keys stay distinct |
| Dicts.SetGet | parsers/exif_parser.py:19 | after `d[k] = v`, looking up k gives v and every other key gives what it gave before |
| Dicts.GetMember | extractors/pdf_extractor.py:62-64 | in a dict with distinct keys, an entry's key reads as that entry's value |
| Dicts.SetAllKeepsKeys | extractors/pdf_extractor.py:62-64 | assigning keys in a loop never moves a key already present: the old keys stay a prefix, in their order |
| Dicts.SetAllGet | extractors/pdf_extractor.py:62-64 | after assigning entries with distinct keys in a loop, each assigned key reads as its entry's value and every other key reads as before |
| ExifParser.CategorizeTags | parsers/exif_parser.py:12-25 | the loop fills camera, settings and other dicts equal to the three category selections of the input |
| ExifParser.Select | parsers/exif_parser.py:17-23 | one category's dict, keeping the input order; it is never longer than the input (membership and keys: `ExifParser.SelectMembers`, `ExifParser.SelectKeys`) |
| ExifParser.CategorizeIsPartition | parsers/exif_parser.py:12-25 | every entry lands in exactly one of the three dicts with its value unchanged; the key sets are disjoint; the sizes add up to the input size |
| ExifParser.SelectMembers | parsers/exif_parser.py:17-23 | an entry is in a category's dict iff it is in the input and its key belongs to that category |
| ExifParser.SelectKeys | parsers/exif_parser.py:17-23 | every key of a category's dict is an input key of that category |
| ExifParser.SelectSizes | parsers/exif_parser.py:12-25 | the three sizes sum to the input size |
| ExifParser.CategorizeKeepsOrder | parsers/exif_parser.py:17-25 | each output dict is a subsequence of the input (its order is preserved) and has distinct keys |
| ExifParser.CategorizeEmpty | parsers/exif_parser.py:12-25 | the empty dict gives three empty dicts |
| ExifParser.Truncate | parsers/exif_parser.py:46-56 | the result is at most 100 long; texts up to 100 are unchanged; longer ones keep 97 characters followed by "..." |
| ExifParser.Divide | parsers/exif_parser.py:34 | division succeeds iff both operands are numbers, and then quotient × denominator = numerator; a failure is a TypeError |
| ExifParser.FormatValue | parsers/exif_parser.py:28-56 | the first matching rule wins (ExposureTime pair, FNumber/FocalLength numeric ratio, bytes, generic truncated text); raises iff FNumber/FocalLength has a pair with a non-zero denominator but non-numeric parts |
| ExifParser.ZeroDenominatorFallsThrough | parsers/exif_parser.py:32-38 | a zero denominator falls through to the generic truncated rendering |
| GpsParser.Resolve | parsers/gps_parser.py:26 | `gps_tags.get(tag, tag)`: a known id becomes its name, anything else stays itself |
| GpsParser.DecodeTagsLaterWins | parsers/gps_parser.py:25-27 | the decoded dict has a name iff some id resolves to it, holds the value of the last such id, and has no duplicate name |
| GpsParser.DecodeTags | parsers/gps_parser.py:25-27 | the decoded dict is never longer than the raw one (which names it holds and their values: `GpsParser.DecodeTagsLaterWins`) |
| GpsParser.DecodeTagsGet | parsers/gps_parser.py:25-27 | a lookup in the decoded dict gives the value of the last id resolving to the name |
| GpsParser.DecodeTagsDistinct | parsers/gps_parser.py:25-27 | the decoded dict has distinct keys |
| GpsParser.LastResolvingToExists | parsers/gps_parser.py:25-27 | a last resolving entry exists iff some id resolves to the name |
| GpsParser.ConvertSequence | parsers/gps_parser.py:4-18 | for a tuple or list: fewer than three items or a non-numeric one among the first three gives None; otherwise d + m/60 + s/3600, negated for S/W |
| GpsParser.Magnitude | parsers/gps_parser.py:6-11 | degrees, minutes and seconds in that order; the only exception that escapes is a KeyError, and only for a dict-shaped value |
| GpsParser.ConvertDmsToDd | parsers/gps_parser.py:4-18 | succeeds exactly when the magnitude does; any exception it lets out is a KeyError from a dict-shaped value |
| GpsParser.SouthWestNegates | parsers/gps_parser.py:13-14 | the result for "S" or "W" is the negation of the result for any other ref; the comparison is case-sensitive |
| GpsParser.AxisIndependent | parsers/gps_parser.py:29-42 | changing a tag other than an axis's two tags leaves that axis's coordinate unchanged |
| GpsParser.AxisNeedsBothTags | parsers/gps_parser.py:29-42 | a coordinate is None when either of its two tags is missing; a known coordinate implies that both tags are present |
| GpsParser.Parse | parsers/gps_parser.py:21-44 | the decoding loop and both conversions equal reading coordinates from the decoded dict; a latitude error takes precedence over a longitude error |
| GpsParser.ReadCoordinates | parsers/gps_parser.py:29-44 | succeeds exactly when both axes convert without raising, and then returns the decoded dict it was given with the latitude and longitude of the two axes; a latitude error is raised in preference to a longitude error |
| GpsParser.GetMapsLink | parsers/gps_parser.py:47-51 | a link exists iff both coordinates are known, and it is the maps prefix followed by "lat,lon" |
| Helpers.UnitIndex | utils/helpers.py:6-13 | the unit index is at most 4 (TB); it is the largest i with size ≥ 1024^i, below the next power unless capped |
| Helpers.UnitIndexUnique | utils/helpers.py:6-13 | only one index satisfies those bounds |
| Helpers.FormatFileSize | utils/helpers.py:1-15 | the division loop ends on the unit index, with the size divided by 1024^i; zero gives "0 Bytes" |
| Helpers.FileSizeUnits | utils/helpers.py:3-13 | zero gives "0 Bytes"; non-zero sizes below 1024 use Bytes; 1024 up to 1024² uses KB; from 1024⁴ on, TB |
| Helpers.EscapeText | utils/helpers.py:23-31 | escaped text has no <, >, " or '; it is at least as long as the input |
| Helpers.EscapePlainText | utils/helpers.py:23-31 | text without any of the five special characters is unchanged |
| Helpers.EscapeHtml | utils/helpers.py:18-31 | `str()` of the value, escaped: no <, >, " or ' is left, and the text never gets shorter |
| Helpers.EscapeTextConcat | utils/helpers.py:31 | escaping works character by character, so it distributes over concatenation |
| Helpers.UnescapeEscapedChar | utils/helpers.py:23-31 | each escaped character reads back as itself |
| Helpers.UnescapeEscape | utils/helpers.py:18-31 | escaping is lossless: unescaping the escaped text gives the input back |
| Helpers.FormatPdfDate | utils/helpers.py:34-51 | falsy gives "N/A"; a non-empty string without the "D:" prefix and 16 characters is unchanged; raises iff the value is truthy and not a string |
| Helpers.FormatPdfDateLayout | utils/helpers.py:39-47 | "D:" followed by at least 14 characters gives the 16-character YYYY-MM-DD HH:MM, each field from its fixed position |
| ImageExtraction.DefaultMetadata | extractors/image_extractor.py:20-27 | the starting record has empty tag dicts and (None, None) coordinates |
| ImageExtraction.BasicInfoOf | extractors/image_extractor.py:41-50 | file name, formatted size, width, height and the "W x H" dimensions |
| ImageExtraction.SplitGpsSpec | extractors/image_extractor.py:56-62 | the tag dict has no "GPSInfo" key and no duplicate key; each name holds the last value resolving to it; the GPS value is that of the last "GPSInfo" |
| ImageExtraction.SplitGps | extractors/image_extractor.py:53-62 | the tag dict is never longer than the raw EXIF dict (its keys and values: `ImageExtraction.SplitGpsSpec`) |
| ImageExtraction.ExifRecord | extractors/image_extractor.py:52-73 | the basic info is left alone, and a failure can only come from GPS data being present |
| ImageExtraction.ExifRecordSpec | extractors/image_extractor.py:52-73 | the three category dicts are the categorisation of the non-GPS tags; none holds "GPSInfo"; basic info is unchanged; without truthy GPS data the GPS fields keep their values |
| ImageExtraction.ExifRecordGps | extractors/image_extractor.py:70-73 | with truthy GPS data: a dict is parsed, and its decoded tags and (lat, lon) replace the GPS fields, or the parser's exception is raised; any other value raises AttributeError on `.items()` |
| ImageExtraction.ImageError | extractors/image_extractor.py:34-39 | FileNotFoundError and UnidentifiedImageError pass through; anything else becomes Exception with the prefixed message |
| ImageExtraction.NoExifGivesDefaultRecord | extractors/image_extractor.py:20-32 | without EXIF data the record is the default one |
| ImageExtraction.ExtractedRecord | extractors/image_extractor.py:15-39 | a stat failure is mapped like any other exception; a record that is returned carries the basic info of the opened image |
| ImageExtraction.ImageExtractor.constructor | extractors/image_extractor.py:10-12 | path stored; no image and no EXIF data yet |
| ImageExtraction.ImageExtractor.GetBasicInfo | extractors/image_extractor.py:41-50 | a stat failure propagates; otherwise the basic info of the opened image |
| ImageExtraction.ImageExtractor.ParseExif | extractors/image_extractor.py:52-73 | the loop and the calls it makes give exactly the record specified by ExifRecord |
| ImageExtraction.ImageExtractor.Extract | extractors/image_extractor.py:15-39 | the image and EXIF fields are updated before any later failure; the result is the extracted record or the mapped exception |
| PdfExtraction.DateLabelsOnly | extractors/pdf_extractor.py:40-58 | of the eight labels, only "Creation Date" and "Modification Date" contain "Date" |
| PdfExtraction.CommonFieldsDistinct | extractors/pdf_extractor.py:40-49 | the eight keys are pairwise distinct, and so are the eight labels |
| PdfExtraction.Shown | extractors/pdf_extractor.py:57-58 | a date label stores the formatted date, or raises when the date formatter raises; any other label stores the raw value |
| PdfExtraction.PresentLabelsSpec | extractors/pdf_extractor.py:53-54 | a label is listed iff its row was visited and the document has its key |
| PdfExtraction.KnownFields | extractors/pdf_extractor.py:53-60 | the first loop after its first n rows; its keys, values and failures are stated by `PdfExtraction.KnownFieldsKeys`, `PdfExtraction.KnownFieldsValues` and `PdfExtraction.KnownFieldsFails` |
| PdfExtraction.KnownFieldsKeys | extractors/pdf_extractor.py:53-60 | the first loop's keys are the present labels in table order, with none repeated |
| PdfExtraction.KnownFieldsValues | extractors/pdf_extractor.py:53-60 | each present row's label holds the shown value of its key |
| PdfExtraction.KnownFieldsNext | extractors/pdf_extractor.py:53-60 | one row of the first loop: an absent key leaves the dict unchanged; otherwise the shown value is stored under the label, or its error is raised |
| PdfExtraction.KnownFieldsStepFails | extractors/pdf_extractor.py:53-60 | after rows that all succeeded, the next row raises iff it fails |
| PdfExtraction.KnownFieldsRowRaises | extractors/pdf_extractor.py:53-60 | a failing row makes the whole loop raise |
| PdfExtraction.KnownFieldsRowRaisesAt | extractors/pdf_extractor.py:53-60 | the loop has raised once it has passed a failing row |
| PdfExtraction.KnownFieldsNoRowOk | extractors/pdf_extractor.py:53-60 | with no failing row among those visited, the loop does not raise |
| PdfExtraction.KnownFieldsRaiseHasRow | extractors/pdf_extractor.py:53-60 | a raise of the loop comes from some failing row |
| PdfExtraction.KnownFieldsFails | extractors/pdf_extractor.py:53-60 | the first loop raises iff some visited present row cannot be shown |
| PdfExtraction.KnownFieldsErrors | extractors/pdf_extractor.py:53-60 | for the real table, only a present date field with a truthy non-string value raises |
| PdfExtraction.KnownFieldsAbsent | extractors/pdf_extractor.py:54 | rows whose key is absent add nothing |
| PdfExtraction.KnownFieldsErrPersists | extractors/pdf_extractor.py:53-60 | once the loop has raised, later rows do not change the outcome |
| PdfExtraction.UnknownEntries | extractors/pdf_extractor.py:62-64 | every added key comes from the document and is not one of the table's keys (that every such key is added, in order: `PdfExtraction.UnknownEntriesMembers`, `PdfExtraction.UnknownEntriesOrder`) |
| PdfExtraction.UnknownEntriesDistinct | extractors/pdf_extractor.py:62-64 | the added keys are distinct when the document's keys are |
| PdfExtraction.UnknownEntriesStep | extractors/pdf_extractor.py:62-64 | one more document entry adds only itself, as str() of its value, at the end, and only when its key is outside the table |
| PdfExtraction.UnknownEntriesMembers | extractors/pdf_extractor.py:62-64 | an entry is added exactly for every document key outside the table, with str() of its value |
| PdfExtraction.UnknownEntriesOrder | extractors/pdf_extractor.py:62-64 | two document keys outside the table are added in document order |
| PdfExtraction.UnknownEntriesGet | extractors/pdf_extractor.py:62-64 | a document key outside the table reads, among the added entries, as str() of its value |
| PdfExtraction.PdfMetadata | extractors/pdf_extractor.py:34-38 | an absent or empty information dict gives {} |
| PdfExtraction.UnknownFollowKnown | extractors/pdf_extractor.py:53-66 | when no document key equals a label: known fields in table order, then unknown keys in source order, with no key repeated |
| PdfExtraction.LabelCollision | extractors/pdf_extractor.py:53-66 | for any document with distinct keys that has both a row's key and a key spelled like that row's label: every label keeps its position, and that label holds str() of the colliding key's value |
| PdfExtraction.LabelCollisionExample | extractors/pdf_extractor.py:53-66 | a worked instance: "/Title" = "A" then "Title" = "B" gives {"Title": "B"} |
| PdfExtraction.LabelsAreNotKeys | extractors/pdf_extractor.py:40-49 | no label is spelled like a key of the table |
| PdfExtraction.KnownLabelPresent | extractors/pdf_extractor.py:53-60 | the label of a row whose key the document has is a key of the first loop's result |
| PdfExtraction.PdfError | extractors/pdf_extractor.py:24-25 | every failure becomes Exception("Error extracting PDF metadata: " + message) |
| PdfExtraction.PdfRecordOf | extractors/pdf_extractor.py:13-32 | every failure is an Exception whose message starts with "Error extracting PDF metadata: "; a stat failure comes first, then a page-count failure; a returned record holds the name, the size text, the page count and the metadata of both passes |
| PdfExtraction.PdfExtractor.constructor | extractors/pdf_extractor.py:9-11 | path stored; no reader yet |
| PdfExtraction.PdfExtractor.GetPdfMetadata | extractors/pdf_extractor.py:34-66 | the two loops give exactly the mapping specified by PdfMetadata |
| PdfExtraction.PdfExtractor.GetBasicInfo | extractors/pdf_extractor.py:27-32 | stat is called first, then the page count; the first failure propagates; otherwise name, size text and page count |
| PdfExtraction.PdfExtractor.Extract | extractors/pdf_extractor.py:13-25 | the reader field is set once the document opens; the result is the PDF record or the wrapped exception |
| PdfExtraction.AddKnownFields | extractors/pdf_extractor.py:53-60 | the first loop computes the known fields of every row and stops at the first raise |
| PdfExtraction.AddUnknownFields | extractors/pdf_extractor.py:62-64 | the second loop equals assigning the added entries in order; with `PdfExtraction.UnknownEntriesMembers` and `PdfExtraction.UnknownEntriesOrder`, every key outside the table is assigned str() of its value, in document order |
| ExifService.ExtractGpsCoordinates | core/exif_service.py:19-20 | the stored pair, or (None, None) when the record has none |
| ExifService.HasMetadata | core/exif_service.py:22-27 | without metadata, the camera, settings and raw dicts are all empty |
| ExifService.CountTags | core/exif_service.py:29-34 | the count is positive exactly when the record has metadata |
| ExifService.CountTagsMatchesHasMetadata | core/exif_service.py:22-34 | the tag count is positive iff the record has metadata; the GPS entries affect neither |
| ExifService.ExtractedRecordCount | core/exif_service.py:29-34 | for an extracted record the count equals the number of distinct non-GPS tag names, and its coordinates are the ones stored |
| ExifService.NoExifNothingToShow | core/exif_service.py:19-34 | a record built without EXIF data has no metadata, a count of 0 and no coordinates |
| Reader.NameSuffix | core/reader.py:24 | the suffix of a final component is empty, or a dot followed by at least one character with no further dot, taken from the end of the name |
| Reader.NameSuffixLower | core/reader.py:24 | lower-casing the name and taking the suffix give the same result in either order |
| Reader.Suffix | core/reader.py:24 | the suffix is empty, or a dot followed by at least one character with no further dot or slash, taken from the end of the base name |
| Reader.SuffixLower | core/reader.py:24 | lower-casing the path and taking the suffix give the same result in either order |
| Reader.UnsupportedMessageNames | core/reader.py:16-19 | the message names the offending extension and the comma-separated list of supported formats |
| Reader.FileReader.Validate | core/reader.py:12-21 | valid iff the file exists and is supported; existence is checked first; each failure has its message |
| Reader.FileReader.IsSupportedFormat | core/reader.py:23-24 | the lower-cased suffix is one of the six formats (case does not matter: `Reader.SupportedIgnoresCase`) |
| Reader.FileReader.FileInfo | core/reader.py:26-32 | path, base name, lower-cased suffix, and the size, which is 0 for a missing file |
| Reader.SupportedIgnoresCase | core/reader.py:23-24 | paths that are equal up to ASCII case are accepted or refused together |
| Reader.SupportedEntries | core/reader.py:41-43 | a path is kept iff its entry is a regular file with a supported suffix |
| Reader.SupportedEntriesStep | core/reader.py:41-43 | one more listing entry adds its path exactly when it is a supported regular file, at the end |
| Reader.InsertSorted | core/reader.py:45 | inserting into a sorted list keeps it sorted |
| Reader.SortPaths | core/reader.py:45 | the result is exactly as long as the input (sorted and a permutation: `Reader.SortPathsSpec`) |
| Reader.SortPathsSpec | core/reader.py:45 | the result is sorted and is a permutation of the input |
| Reader.GetSupportedFiles | core/reader.py:34-45 | nothing for a missing path or a non-directory; otherwise the supported files of the listing, sorted |
| Reader.SupportedFilesSpec | core/reader.py:34-45 | the returned list is sorted and holds exactly the supported regular files |
| Config.OptionalText | config.py:27-29 | Some iff the attribute exists and is a non-empty string |
| Config.FromArgs | config.py:19-34 | quiet mode turns off typing and the banner; saving follows --no-save alone; the save directory is fixed; the file path falls back to "" |
| Config.QuietSilences | config.py:20-23 | quiet silences typing and the banner regardless of other flags, and does not affect saving |
| Config.Interactive | config.py:37-46 | the given path with all defaults |
| Config.InteractiveIsDefaultArgs | config.py:19-46 | the interactive configuration equals the one parsed from a flagless command line |
| Formatter.HeaderLines | output/formatter.py:9-13 | three lines: the title between two identical rules of 70 '=' |
| Formatter.SectionLines | output/formatter.py:20-22 | the title on a new line, then a rule of 70 '-' |
| Formatter.ItemLine | output/formatter.py:29 | the key left-aligned in 30 columns and never cut, then " : ", then the value's text |
| Formatter.OutputFormatter.constructor | output/formatter.py:6-7 | starts with no lines |
| Formatter.OutputFormatter.PrintHeader | output/formatter.py:9-18 | appends the header lines, then raises AttributeError for typing_effect |
| Formatter.OutputFormatter.PrintSection | output/formatter.py:20-26 | appends the section lines, then raises AttributeError for _print_slow |
| Formatter.OutputFormatter.PrintItem | output/formatter.py:28-34 | appends the item line, which does not depend on highlight, then raises |
| Formatter.OutputFormatter.PrintWarning | output/formatter.py:36-38 | appends the text, then raises |
| Formatter.OutputFormatter.PrintError | output/formatter.py:40-42 | appends the text after one space, then raises |
| Formatter.OutputFormatter.PrintSuccess | output/formatter.py:44-46 | appends the text after one space, then raises |
| Formatter.OutputFormatter.GetOutputLines | output/formatter.py:48-50 | the recorded lines |
| Formatter.OutputFormatter.Clear | output/formatter.py:52-53 | no lines are left |

## Left out

- Floating-point text: the `.1f` and `.2f` formats, the float `repr` and IEEE rounding are fields of `Builtins`. Arithmetic is on exact reals.
- `str()` of floats, bytes, tuples, lists and dicts, and UTF-8 decoding with `errors='ignore'`, are `Builtins` fields and are not modelled further.
- `float()` is a parameter: string parsing, overflow and non-finite values are not modelled.
- Python's key unification (`1 == 1.0 == True` as dict keys) is not modelled: keys compare as `Value`s.
- Path handling: `pathlib` normalisation in `str(Path)` and Unicode `lower()` beyond ASCII are not modelled. The path text is used as given.
- The order of `sorted()` on `Path` objects is modelled as code-point order on their texts. All entries share the folder prefix.
- The file system, PIL, PyPDF2 and `stat` are parameters: existence, is-dir, the directory listing, the opened image or document, and the size.
- The PIL `TAGS`/`GPSTAGS` tables are parameters (`map<int, string>`) rather than their published contents.
- `ExifService.extract_metadata` and `ExifService.__init__` are not modelled: they only construct the extractor and forward its result (`ImageExtraction.ImageExtractor.Extract`).
- `has_metadata` and `count_tags` are modelled on record entries that are dicts: other entry types are not modelled.
- `format_value`'s `"<binary data: …>"` fallback is dead code: decoding with `errors='ignore'` never raises.
- Console output, colours, `print` and `time.sleep` are not modelled. Only the recorded report lines are.
- `print_item` is modelled for string keys only: the `:30` format spec on non-string keys is not modelled.
- `get_output_lines` returns the list itself in Python, so later appends are visible through it. The model returns a value, so this aliasing is not captured.
- `_parse_exif` mutates the metadata dict it is given. The model takes the record and returns the updated record.
- `main.py`, `core/metadata_analyzer.py`, `output/console_writer.py`, `output/file_saver.py` and the package `__init__` re-exports are not part of this model.
- Helpers.FormatFileSize: the text depends on `Builtins.fixed2`, so the contract fixes the unit and the divided value, not the digits printed.
- ExifParser.FormatValue: the FNumber and FocalLength texts depend on `Builtins.fixed1`, so only the quotient passed to it is fixed.
- GpsParser.GetMapsLink: the coordinates' text is `Builtins.floatRepr`, so the contract fixes the link's layout, not its digits.
