/** Record assembly for PDF files (PDFExtractor in
    extractors/pdf_extractor.py): the document-information dictionary of
    ISO 32000-1, section 14.3.3, mapped to display labels. The parsed
    document (page count, information dictionary) and the file size from
    stat are parameters. */
module PdfExtraction {
  import opened Values
  import opened Dicts
  import opened Text
  import Helpers

  /** common_fields, in its iteration order: document-information key and label. */
  const CommonFields: seq<(string, string)> := [
    ("/Title", "Title"),
    ("/Author", "Author"),
    ("/Subject", "Subject"),
    ("/Creator", "Creator"),
    ("/Producer", "Producer"),
    ("/CreationDate", "Creation Date"),
    ("/ModDate", "Modification Date"),
    ("/Keywords", "Keywords")
  ]

  /** The second element of each row. */
  function Captions(table: seq<(string, string)>): (r: seq<string>)
    ensures |r| == |table|
    ensures forall i :: 0 <= i < |table| ==> r[i] == table[i].1
  {
    seq(|table|, i requires 0 <= i < |table| => table[i].1)
  }

  predicate DistinctCaptions(table: seq<(string, string)>) {
    forall i, j :: 0 <= i < j < |table| ==> table[i].1 != table[j].1
  }

  /** 'Date' in caption */
  predicate IsDateLabel(caption: string) {
    Contains(caption, "Date")
  }

  lemma NotDateLabel(caption: string)
    requires 'D' !in caption
    ensures !IsDateLabel(caption)
  {
    forall i: nat ensures !OccursAt(caption, "Date", i) {
      if i + 4 <= |caption| {
        assert caption[i..i + 4][0] == caption[i];
      }
    }
  }

  /** Only "Creation Date" and "Modification Date" go through the date
      formatter. */
  lemma DateLabelsOnly()
    ensures forall i :: 0 <= i < |CommonFields| ==> (IsDateLabel(CommonFields[i].1) <==> i == 5 || i == 6)
  {
    forall i | 0 <= i < |CommonFields| ensures IsDateLabel(CommonFields[i].1) <==> i == 5 || i == 6 {
      var caption := CommonFields[i].1;
      if i == 5 {
        assert OccursAt(caption, "Date", 9);
      } else if i == 6 {
        assert OccursAt(caption, "Date", 13);
      } else {
        NotDateLabel(caption);
      }
    }
  }

  /** The eight keys, and the eight labels, are pairwise different. */
  lemma CommonFieldsDistinct()
    ensures DistinctKeys(CommonFields)
    ensures DistinctCaptions(CommonFields)
  {
    forall i, j | 0 <= i < j < |CommonFields| ensures CommonFields[i].0 != CommonFields[j].0 {
      if |CommonFields[i].0| == |CommonFields[j].0| {
        assert CommonFields[i].0[1] != CommonFields[j].0[1];
      }
    }
    forall i, j | 0 <= i < j < |CommonFields| ensures CommonFields[i].1 != CommonFields[j].1 {
      if |CommonFields[i].1| == |CommonFields[j].1| {
        assert CommonFields[i].1[0] != CommonFields[j].1[0];
      }
    }
  }

  /** The value stored under a known label: the date formatter's text for
      the two date labels, the raw value otherwise. */
  function Shown(caption: string, value: Value): (r: Result<Value>)
    ensures !IsDateLabel(caption) ==> r == Ok(value)
    ensures IsDateLabel(caption) ==>
      (r.Ok? <==> Helpers.FormatPdfDate(value).Ok?) &&
      (r.Ok? ==> r.value == Str(Helpers.FormatPdfDate(value).value))
  {
    if IsDateLabel(caption) then
      match Helpers.FormatPdfDate(value)
      case Err(e) => Err(e)
      case Ok(s) => Ok(Str(s))
    else Ok(value)
  }

  /** The dict after the first loop has visited the first `n` rows of `table`. */
  function KnownFields(table: seq<(string, string)>, info: Dict<string, Value>, n: nat): (r: Result<Dict<string, Value>>)
    requires n <= |table|
  {
    if n == 0 then Ok([])
    else
      match KnownFields(table, info, n - 1)
      case Err(e) => Err(e)
      case Ok(m) =>
        var (key, caption) := table[n - 1];
        var v := Get(info, key);
        if v.None? then Ok(m)
        else
          match Shown(caption, v.value)
          case Err(e) => Err(e)
          case Ok(x) => Ok(Set(m, caption, x))
  }

  /** The labels of the first `n` rows whose key the document has, in table order. */
  function PresentLabels(table: seq<(string, string)>, info: Dict<string, Value>, n: nat): seq<string>
    requires n <= |table|
  {
    if n == 0 then []
    else PresentLabels(table, info, n - 1) + (if table[n - 1].0 in Keys(info) then [table[n - 1].1] else [])
  }

  /** A label is listed exactly when its row was visited and its key is present. */
  lemma {:induction false} PresentLabelsSpec(table: seq<(string, string)>, info: Dict<string, Value>, n: nat)
    requires n <= |table| && DistinctCaptions(table)
    ensures forall i :: 0 <= i < |table| ==>
      (table[i].1 in PresentLabels(table, info, n) <==> i < n && table[i].0 in Keys(info))
    ensures forall l :: l in PresentLabels(table, info, n) ==> l in Captions(table)
  {
    if n > 0 {
      PresentLabelsSpec(table, info, n - 1);
      assert Captions(table)[n - 1] == table[n - 1].1;
    }
  }

  /** The first loop's keys: the present labels in table order, none twice. */
  lemma {:induction false} KnownFieldsKeys(table: seq<(string, string)>, info: Dict<string, Value>, n: nat)
    requires n <= |table| && DistinctCaptions(table)
    ensures KnownFields(table, info, n).Ok? ==>
      Keys(KnownFields(table, info, n).value) == PresentLabels(table, info, n) &&
      DistinctKeys(KnownFields(table, info, n).value)
  {
    if n > 0 {
      KnownFieldsKeys(table, info, n - 1);
      var (key, caption) := table[n - 1];
      var prev := KnownFields(table, info, n - 1);
      if prev.Ok? && key in Keys(info) && Shown(caption, Get(info, key).value).Ok? {
        PresentLabelsSpec(table, info, n - 1);
        assert caption !in Keys(prev.value);
        var x := Shown(caption, Get(info, key).value).value;
        assert Keys(prev.value + [(caption, x)]) == Keys(prev.value) + [caption];
      }
    }
  }

  /** The first loop's values: each present row's label holds the shown
      value of its key, the raw value or, for a date label, the formatted
      date. */
  lemma {:induction false} KnownFieldsValues(table: seq<(string, string)>, info: Dict<string, Value>, n: nat)
    requires n <= |table| && DistinctCaptions(table)
    ensures KnownFields(table, info, n).Ok? ==>
      forall i :: 0 <= i < n && table[i].0 in Keys(info) ==>
        Get(KnownFields(table, info, n).value, table[i].1).Some? &&
        Shown(table[i].1, Get(info, table[i].0).value) == Ok(Get(KnownFields(table, info, n).value, table[i].1).value)
  {
    if n > 0 {
      KnownFieldsValues(table, info, n - 1);
      var prev := KnownFields(table, info, n - 1);
      if prev.Ok? {
        var m := prev.value;
        var (key, caption) := table[n - 1];
        KnownFieldsNext(table, info, n - 1, m);
        var got := Get(info, key);
        if got.Some? && Shown(caption, got.value).Ok? {
          var x := Shown(caption, got.value).value;
          SetGet(m, caption, x);
          forall i | 0 <= i < n - 1 && table[i].0 in Keys(info)
            ensures Get(Set(m, caption, x), table[i].1) == Get(m, table[i].1)
          {
            assert table[i].1 != caption;
          }
        }
      }
    }
  }

  /** Row `i` of the table raises: the document has its key and its value
      cannot be shown. */
  predicate RowFails(table: seq<(string, string)>, info: Dict<string, Value>, i: nat)
    requires i < |table|
  {
    table[i].0 in Keys(info) && Shown(table[i].1, Get(info, table[i].0).value).Err?
  }

  /** After rows that all succeeded, the next row raises exactly when it fails. */
  lemma KnownFieldsStepFails(table: seq<(string, string)>, info: Dict<string, Value>, i: nat)
    requires i < |table| && KnownFields(table, info, i).Ok?
    ensures KnownFields(table, info, i + 1).Err? <==> RowFails(table, info, i)
  {
  }

  /** A failing row makes the whole loop raise. */
  lemma KnownFieldsRowRaises(table: seq<(string, string)>, info: Dict<string, Value>, n: nat, i: nat)
    requires i < n <= |table| && RowFails(table, info, i)
    ensures KnownFields(table, info, n).Err?
  {
    KnownFieldsRowRaisesAt(table, info, i);
    KnownFieldsErrPersists(table, info, i + 1, n);
  }

  /** The loop has raised once it is past a failing row. */
  lemma KnownFieldsRowRaisesAt(table: seq<(string, string)>, info: Dict<string, Value>, i: nat)
    requires i < |table| && RowFails(table, info, i)
    ensures KnownFields(table, info, i + 1).Err?
  {
    if KnownFields(table, info, i).Ok? {
      KnownFieldsStepFails(table, info, i);
    }
  }

  /** With no failing row among the first `n`, the loop does not raise. */
  lemma {:induction false} KnownFieldsNoRowOk(table: seq<(string, string)>, info: Dict<string, Value>, n: nat)
    requires n <= |table|
    requires forall i :: 0 <= i < n ==> !RowFails(table, info, i)
    ensures KnownFields(table, info, n).Ok?
  {
    if n > 0 {
      KnownFieldsNoRowOk(table, info, n - 1);
      assert !RowFails(table, info, n - 1);
      KnownFieldsStepFails(table, info, n - 1);
    }
  }

  /** A raise of the loop comes from a failing row. */
  lemma KnownFieldsRaiseHasRow(table: seq<(string, string)>, info: Dict<string, Value>, n: nat)
    requires n <= |table| && KnownFields(table, info, n).Err?
    ensures exists i :: 0 <= i < n && RowFails(table, info, i)
  {
    if forall i :: 0 <= i < n ==> !RowFails(table, info, i) {
      KnownFieldsNoRowOk(table, info, n);
    }
  }

  /** The first loop raises exactly when some visited, present row's value
      cannot be shown. */
  lemma KnownFieldsFails(table: seq<(string, string)>, info: Dict<string, Value>, n: nat)
    requires n <= |table|
    ensures KnownFields(table, info, n).Err? <==> exists i :: 0 <= i < n && RowFails(table, info, i)
  {
    if KnownFields(table, info, n).Err? {
      KnownFieldsRaiseHasRow(table, info, n);
    }
    forall i | 0 <= i < n && RowFails(table, info, i) ensures KnownFields(table, info, n).Err? {
      KnownFieldsRowRaises(table, info, n, i);
    }
  }

  /** Only a present date field whose value is truthy but not a string can
      make the first loop raise. */
  lemma KnownFieldsErrors(info: Dict<string, Value>)
    ensures KnownFields(CommonFields, info, |CommonFields|).Err? <==>
      (exists i :: 5 <= i <= 6 && CommonFields[i].0 in Keys(info) &&
        Truthy(Get(info, CommonFields[i].0).value) && !Get(info, CommonFields[i].0).value.Str?)
  {
    KnownFieldsFails(CommonFields, info, |CommonFields|);
    DateLabelsOnly();
    forall i | 0 <= i < |CommonFields|
      ensures RowFails(CommonFields, info, i) <==>
        5 <= i <= 6 && CommonFields[i].0 in Keys(info) &&
        Truthy(Get(info, CommonFields[i].0).value) && !Get(info, CommonFields[i].0).value.Str?
    {
    }
    if KnownFields(CommonFields, info, |CommonFields|).Err? {
      var i :| 0 <= i < |CommonFields| && RowFails(CommonFields, info, i);
      assert 5 <= i <= 6;
    } else {
      assert !RowFails(CommonFields, info, 5) && !RowFails(CommonFields, info, 6);
    }
  }

  /** The entries the second loop adds: every key outside the table, with
      str() of its value, in source order. */
  function UnknownEntries(table: seq<(string, string)>, info: Dict<string, Value>, py: Builtins): (r: Dict<string, Value>)
    ensures |r| <= |info|
    ensures forall k :: k in Keys(r) ==> k in Keys(info) && k !in Keys(table)
    decreases |info|
  {
    if info == [] then []
    else
      var n := |info| - 1;
      var (key, value) := info[n];
      var prev := UnknownEntries(table, info[..n], py);
      assert forall k :: k in Keys(info[..n]) ==> k in Keys(info) by {
        forall k | k in Keys(info[..n]) ensures k in Keys(info) {
          var j :| 0 <= j < n && Keys(info[..n])[j] == k;
          assert Keys(info)[j] == k;
        }
      }
      if key in Keys(table) then prev
      else
        assert Keys(info)[n] == key;
        prev + [(key, Str(StrOf(value, py)))]
  }

  lemma {:induction false} UnknownEntriesDistinct(table: seq<(string, string)>, info: Dict<string, Value>, py: Builtins)
    requires DistinctKeys(info)
    ensures DistinctKeys(UnknownEntries(table, info, py))
    decreases |info|
  {
    if info != [] {
      var n := |info| - 1;
      assert DistinctKeys(info[..n]) by {
        forall i, j | 0 <= i < j < n ensures info[..n][i].0 != info[..n][j].0 {
          assert info[..n][i] == info[i] && info[..n][j] == info[j];
        }
      }
      UnknownEntriesDistinct(table, info[..n], py);
      var prev := UnknownEntries(table, info[..n], py);
      forall i | 0 <= i < |prev| ensures prev[i].0 != info[n].0 {
        assert Keys(prev)[i] == prev[i].0;
        assert prev[i].0 in Keys(info[..n]);
        var j :| 0 <= j < |Keys(info[..n])| && Keys(info[..n])[j] == prev[i].0;
        assert info[..n][j] == info[j];
      }
    }
  }

  /** One more document entry adds at most its own key. */
  lemma UnknownEntriesStep(table: seq<(string, string)>, info: Dict<string, Value>, i: nat, py: Builtins)
    requires i < |info|
    ensures info[i].0 in Keys(table) ==> UnknownEntries(table, info[..i + 1], py) == UnknownEntries(table, info[..i], py)
    ensures info[i].0 !in Keys(table) ==>
      UnknownEntries(table, info[..i + 1], py) == UnknownEntries(table, info[..i], py) + [(info[i].0, Str(StrOf(info[i].1, py)))]
  {
    assert info[..i + 1][..i] == info[..i];
  }

  /** An entry is added exactly for each document key outside the table,
      with str() of its value. */
  lemma {:induction false} UnknownEntriesMembers(table: seq<(string, string)>, info: Dict<string, Value>, py: Builtins)
    ensures forall e :: e in UnknownEntries(table, info, py) <==>
      exists i :: 0 <= i < |info| && info[i].0 !in Keys(table) && e == (info[i].0, Str(StrOf(info[i].1, py)))
    decreases |info|
  {
    if info != [] {
      var n := |info| - 1;
      UnknownEntriesMembers(table, info[..n], py);
      assert forall i :: 0 <= i < n ==> info[..n][i] == info[i];
    }
  }

  /** Two document keys outside the table are added in document order. */
  lemma {:induction false} UnknownEntriesOrder(table: seq<(string, string)>, info: Dict<string, Value>, py: Builtins, i: nat, j: nat)
    requires i < j < |info|
    requires info[i].0 !in Keys(table) && info[j].0 !in Keys(table)
    ensures exists p, q ::
              && 0 <= p < q < |UnknownEntries(table, info, py)|
              && UnknownEntries(table, info, py)[p] == (info[i].0, Str(StrOf(info[i].1, py)))
              && UnknownEntries(table, info, py)[q] == (info[j].0, Str(StrOf(info[j].1, py)))
    decreases |info|
  {
    var n := |info| - 1;
    var prev := UnknownEntries(table, info[..n], py);
    var r := UnknownEntries(table, info, py);
    var ei := (info[i].0, Str(StrOf(info[i].1, py)));
    var ej := (info[j].0, Str(StrOf(info[j].1, py)));
    assert info[..n][i] == info[i];
    if j == n {
      UnknownEntriesMembers(table, info[..n], py);
      assert ei in prev;
      var p :| 0 <= p < |prev| && prev[p] == ei;
      assert r == prev + [ej];
      assert r[p] == ei && r[|prev|] == ej;
    } else {
      assert info[..n][j] == info[j];
      UnknownEntriesOrder(table, info[..n], py, i, j);
      var p, q :| 0 <= p < q < |prev| && prev[p] == ei && prev[q] == ej;
      assert r[p] == ei && r[q] == ej;
    }
  }

  /** _get_pdf_metadata: an empty or absent information dict gives {};
      otherwise the known fields, then the unknown keys folded in with
      `metadata[key] = ...`. */
  function PdfMetadata(info: Option<Dict<string, Value>>, py: Builtins): (r: Result<Dict<string, Value>>)
    ensures info.None? || info.value == [] ==> r == Ok([])
  {
    if info.None? || info.value == [] then Ok([])
    else
      match KnownFields(CommonFields, info.value, |CommonFields|)
      case Err(e) => Err(e)
      case Ok(known) => Ok(SetAll(known, UnknownEntries(CommonFields, info.value, py)))
  }

  /** When no key of the document equals a label, the unknown entries
      follow all known fields, in source order, and no key repeats. */
  lemma UnknownFollowKnown(info: Dict<string, Value>, py: Builtins)
    requires DistinctKeys(info)
    requires forall k :: k in Keys(info) ==> k !in Captions(CommonFields)
    requires KnownFields(CommonFields, info, |CommonFields|).Ok?
    ensures PdfMetadata(Some(info), py) ==
      Ok(KnownFields(CommonFields, info, |CommonFields|).value + UnknownEntries(CommonFields, info, py))
    ensures DistinctKeys(PdfMetadata(Some(info), py).value)
  {
    var known := KnownFields(CommonFields, info, |CommonFields|).value;
    var unknown := UnknownEntries(CommonFields, info, py);
    CommonFieldsDistinct();
    KnownFieldsKeys(CommonFields, info, |CommonFields|);
    PresentLabelsSpec(CommonFields, info, |CommonFields|);
    if info == [] {
      KnownFieldsAbsent(CommonFields, info, 0, |CommonFields|);
    } else {
      UnknownEntriesDistinct(CommonFields, info, py);
      DistinctConcat(known, unknown);
      SetAllAppends(known, unknown);
    }
  }

  /** No label is spelled like a key of the table: keys start with '/'. */
  lemma LabelsAreNotKeys()
    ensures forall c :: 0 <= c < |CommonFields| ==> CommonFields[c].1 !in Keys(CommonFields)
  {
    forall c, m | 0 <= c < |CommonFields| && 0 <= m < |CommonFields|
      ensures CommonFields[c].1 != Keys(CommonFields)[m]
    {
      assert Keys(CommonFields)[m][0] == '/' && CommonFields[c].1[0] != '/';
    }
  }

  /** A document key outside the table reads, among the unknown entries,
      as str() of its value. */
  lemma UnknownEntriesGet(table: seq<(string, string)>, info: Dict<string, Value>, py: Builtins, k: string)
    requires DistinctKeys(info) && k in Keys(info) && k !in Keys(table)
    ensures k in Keys(UnknownEntries(table, info, py))
    ensures Get(UnknownEntries(table, info, py), k) == Some(Str(StrOf(Get(info, k).value, py)))
  {
    var unknown := UnknownEntries(table, info, py);
    var v := Get(info, k).value;
    var i :| 0 <= i < |info| && info[i] == (k, v);
    UnknownEntriesMembers(table, info, py);
    UnknownEntriesDistinct(table, info, py);
    var e := (k, Str(StrOf(v, py)));
    assert e in unknown;
    GetMember(unknown, k, e.1);
  }

  /** The label of a row whose key the document has is a key of the known pass. */
  lemma KnownLabelPresent(info: Dict<string, Value>, c: nat)
    requires c < |CommonFields| && CommonFields[c].0 in Keys(info)
    requires KnownFields(CommonFields, info, |CommonFields|).Ok?
    ensures CommonFields[c].1 in Keys(KnownFields(CommonFields, info, |CommonFields|).value)
  {
    CommonFieldsDistinct();
    KnownFieldsKeys(CommonFields, info, |CommonFields|);
    PresentLabelsSpec(CommonFields, info, |CommonFields|);
  }

  /** A document key spelled like the label of a row the document has
      takes that label's place: every label keeps its position, and this
      one now holds str() of that key's value. */
  lemma LabelCollision(info: Dict<string, Value>, py: Builtins, c: nat)
    requires DistinctKeys(info)
    requires c < |CommonFields| && CommonFields[c].0 in Keys(info) && CommonFields[c].1 in Keys(info)
    requires KnownFields(CommonFields, info, |CommonFields|).Ok?
    ensures PdfMetadata(Some(info), py).Ok?
    ensures CommonFields[c].1 in Keys(KnownFields(CommonFields, info, |CommonFields|).value)
    ensures var known := KnownFields(CommonFields, info, |CommonFields|).value;
      |PdfMetadata(Some(info), py).value| >= |known| &&
      Keys(PdfMetadata(Some(info), py).value)[..|known|] == Keys(known)
    ensures Get(PdfMetadata(Some(info), py).value, CommonFields[c].1) ==
      Some(Str(StrOf(Get(info, CommonFields[c].1).value, py)))
  {
    var caption := CommonFields[c].1;
    var known := KnownFields(CommonFields, info, |CommonFields|).value;
    var unknown := UnknownEntries(CommonFields, info, py);
    assert PdfMetadata(Some(info), py) == Ok(SetAll(known, unknown));
    KnownLabelPresent(info, c);
    LabelsAreNotKeys();
    UnknownEntriesGet(CommonFields, info, py, caption);
    UnknownEntriesDistinct(CommonFields, info, py);
    SetAllKeepsKeys(known, unknown);
    SetAllGet(known, unknown, caption);
  }

  /** A worked instance: "/Title" gives "Title", then the raw "Title"
      entry overwrites it. */
  lemma LabelCollisionExample(py: Builtins)
    ensures PdfMetadata(Some([("/Title", Str("A")), ("Title", Str("B"))]), py) ==
      Ok([("Title", Str("B"))])
  {
    var info := [("/Title", Str("A")), ("Title", Str("B"))];
    CollisionKnown(info);
    CollisionUnknown(info, py);
    CollisionOverwrite();
  }

  lemma CollisionOverwrite()
    ensures SetAll([("Title", Str("A"))], [("Title", Str("B"))]) == [("Title", Str("B"))]
  {
    var x := Str("B");
    assert Set([("Title", Str("A"))], "Title", x) == [("Title", x)] by {
      var r := Set([("Title", Str("A"))], "Title", x);
      assert |Keys(r)| == 1 && Keys(r)[0] == "Title";
      assert ("Title", x) in r;
    }
    assert [("Title", x)][..0] == [];
  }

  lemma CollisionKnown(info: Dict<string, Value>)
    requires info == [("/Title", Str("A")), ("Title", Str("B"))]
    ensures KnownFields(CommonFields, info, |CommonFields|) == Ok([("Title", Str("A"))])
  {
    assert Keys(info) == ["/Title", "Title"];
    assert !IsDateLabel("Title") by {
      NotDateLabel("Title");
    }
    assert Get(info, "/Title") == Some(Str("A"));
    assert KnownFields(CommonFields, info, 0) == Ok([]);
    assert Set([], "Title", Str("A")) == [("Title", Str("A"))];
    assert KnownFields(CommonFields, info, 1) == Ok([("Title", Str("A"))]);
    KnownFieldsAbsent(CommonFields, info, 1, |CommonFields|);
  }

  lemma CollisionUnknown(info: Dict<string, Value>, py: Builtins)
    requires info == [("/Title", Str("A")), ("Title", Str("B"))]
    ensures UnknownEntries(CommonFields, info, py) == [("Title", Str("B"))]
  {
    assert "/Title" in Keys(CommonFields) by {
      assert Keys(CommonFields)[0] == "/Title";
    }
    assert info[..1] == [("/Title", Str("A"))];
    assert info[..1][..0] == [];
    assert UnknownEntries(CommonFields, info[..1], py) == [];
  }

  /** Rows whose key the document lacks add nothing. */
  lemma {:induction false} KnownFieldsAbsent(table: seq<(string, string)>, info: Dict<string, Value>, n: nat, m: nat)
    requires n <= m <= |table|
    requires forall i :: n <= i < m ==> table[i].0 !in Keys(info)
    ensures KnownFields(table, info, m) == KnownFields(table, info, n)
    decreases m - n
  {
    if n < m {
      KnownFieldsAbsent(table, info, n + 1, m);
    }
  }

  datatype PdfDocument = PdfDocument(numPages: Result<nat>, info: Option<Dict<string, Value>>)

  datatype PdfBasicInfo = PdfBasicInfo(fileName: string, fileSize: string, numPages: nat)

  datatype PdfRecord = PdfRecord(basicInfo: PdfBasicInfo, pdfMetadata: Dict<string, Value>)

  /** Every failure is re-raised as a plain Exception with a prefix. */
  function PdfError(e: PyException): (r: PyException)
    ensures r.kind == Exception
    ensures r.message == "Error extracting PDF metadata: " + e.message
  {
    PyException(Exception, "Error extracting PDF metadata: " + e.message)
  }

  /** What `extract` returns once the document is parsed: the basic info
      (stat before the page count), then the metadata. */
  function PdfRecordOf(fileName: string, doc: PdfDocument, statSize: Result<int>, py: Builtins): (r: Result<PdfRecord>)
    ensures r.Err? ==> r.error.kind == Exception && "Error extracting PDF metadata: " <= r.error.message
    ensures statSize.Err? ==> r == Err(PdfError(statSize.error))
    ensures statSize.Ok? && doc.numPages.Err? ==> r == Err(PdfError(doc.numPages.error))
    ensures r.Ok? ==>
      (&& statSize.Ok? && doc.numPages.Ok?
       && r.value.basicInfo == PdfBasicInfo(fileName, Helpers.FileSizeText(statSize.value, py), doc.numPages.value)
       && PdfMetadata(doc.info, py) == Ok(r.value.pdfMetadata))
  {
    if statSize.Err? then Err(PdfError(statSize.error))
    else if doc.numPages.Err? then Err(PdfError(doc.numPages.error))
    else
      match PdfMetadata(doc.info, py)
      case Err(e) => Err(PdfError(e))
      case Ok(m) =>
        Ok(PdfRecord(PdfBasicInfo(fileName, Helpers.FileSizeText(statSize.value, py), doc.numPages.value), m))
  }

  class PdfExtractor {
    var filePath: string
    var reader: Option<PdfDocument>

    constructor (filePath: string)
      ensures this.filePath == filePath && reader == None
    {
      this.filePath := filePath;
      reader := None;
    }

    /** _get_pdf_metadata */
    method GetPdfMetadata(py: Builtins) returns (r: Result<Dict<string, Value>>)
      requires reader.Some?
      ensures r == PdfMetadata(reader.value.info, py)
    {
      var info := reader.value.info;
      if info.None? || info.value == [] {
        return Ok([]);
      }
      var known := AddKnownFields(CommonFields, info.value);
      if known.Err? {
        return Err(known.error);
      }
      var metadata := AddUnknownFields(CommonFields, known.value, info.value, py);
      r := Ok(metadata);
    }
    /** _get_basic_info */
    method GetBasicInfo(statSize: Result<int>, py: Builtins) returns (r: Result<PdfBasicInfo>)
      requires reader.Some?
      ensures statSize.Err? ==> r == Err(statSize.error)
      ensures statSize.Ok? && reader.value.numPages.Err? ==> r == Err(reader.value.numPages.error)
      ensures statSize.Ok? && reader.value.numPages.Ok? ==>
        r == Ok(PdfBasicInfo(BaseName(filePath), Helpers.FileSizeText(statSize.value, py), reader.value.numPages.value))
    {
      if statSize.Err? {
        return Err(statSize.error);
      }
      var fileSize := Helpers.FormatFileSize(statSize.value, py);
      if reader.value.numPages.Err? {
        return Err(reader.value.numPages.error);
      }
      r := Ok(PdfBasicInfo(BaseName(filePath), fileSize, reader.value.numPages.value));
    }

    /** extract: keeps the parsed document in `reader` and wraps every
        failure. */
    method Extract(opening: Result<PdfDocument>, statSize: Result<int>, py: Builtins) returns (r: Result<PdfRecord>)
      modifies this
      ensures filePath == old(filePath)
      ensures opening.Err? ==> reader == old(reader) && r == Err(PdfError(opening.error))
      ensures opening.Ok? ==>
        reader == Some(opening.value) && r == PdfRecordOf(BaseName(filePath), opening.value, statSize, py)
    {
      if opening.Err? {
        return Err(PdfError(opening.error));
      }
      reader := Some(opening.value);
      var basic := GetBasicInfo(statSize, py);
      if basic.Err? {
        return Err(PdfError(basic.error));
      }
      var metadata := GetPdfMetadata(py);
      if metadata.Err? {
        return Err(PdfError(metadata.error));
      }
      r := Ok(PdfRecord(basic.value, metadata.value));
    }
  }

  /** A failure in the first loop is the failure of the whole loop. */
  lemma {:induction false} KnownFieldsErrPersists(table: seq<(string, string)>, info: Dict<string, Value>, n: nat, m: nat)
    requires n <= m <= |table|
    requires KnownFields(table, info, n).Err?
    ensures KnownFields(table, info, m) == KnownFields(table, info, n)
    decreases m - n
  {
    if n < m {
      KnownFieldsErrPersists(table, info, n + 1, m);
    }
  }

  /** One row of the first loop: an absent key leaves the dict alone,
      otherwise the shown value is stored under the label or its error
      is raised. */
  lemma KnownFieldsNext(table: seq<(string, string)>, info: Dict<string, Value>, i: nat, m: Dict<string, Value>)
    requires i < |table| && KnownFields(table, info, i) == Ok(m)
    ensures Get(info, table[i].0).None? ==> KnownFields(table, info, i + 1) == Ok(m)
    ensures Get(info, table[i].0).Some? ==>
      var shown := Shown(table[i].1, Get(info, table[i].0).value);
      KnownFields(table, info, i + 1) == if shown.Err? then Err(shown.error) else Ok(Set(m, table[i].1, shown.value))
  {
  }

  /** The first loop of _get_pdf_metadata: the table rows in order, each
      present key stored under its label. */
  method AddKnownFields(table: seq<(string, string)>, pdfMeta: Dict<string, Value>) returns (r: Result<Dict<string, Value>>)
    ensures r == KnownFields(table, pdfMeta, |table|)
  {
    var metadata: Dict<string, Value> := [];
    for i := 0 to |table|
      invariant KnownFields(table, pdfMeta, i) == Ok(metadata)
    {
      var (key, caption) := table[i];
      KnownFieldsNext(table, pdfMeta, i, metadata);
      var v := Get(pdfMeta, key);
      if v.Some? {
        var value := v.value;
        if IsDateLabel(caption) {
          var formatted := Helpers.FormatPdfDate(value);
          if formatted.Err? {
            KnownFieldsErrPersists(table, pdfMeta, i + 1, |table|);
            return Err(formatted.error);
          }
          value := Str(formatted.value);
        }
        metadata := Set(metadata, caption, value);
      }
    }
    r := Ok(metadata);
  }

  /** The second loop of _get_pdf_metadata: every key outside the table,
      with str() of its value. */
  method AddUnknownFields(table: seq<(string, string)>, known: Dict<string, Value>, pdfMeta: Dict<string, Value>, py: Builtins)
    returns (metadata: Dict<string, Value>)
    ensures metadata == SetAll(known, UnknownEntries(table, pdfMeta, py))
  {
    metadata := known;
    for i := 0 to |pdfMeta|
      invariant metadata == SetAll(known, UnknownEntries(table, pdfMeta[..i], py))
    {
      var (key, value) := pdfMeta[i];
      UnknownEntriesStep(table, pdfMeta, i, py);
      if key !in Keys(table) {
        SetAllSnoc(known, UnknownEntries(table, pdfMeta[..i], py), (key, Str(StrOf(value, py))));
        metadata := Set(metadata, key, Str(StrOf(value, py)));
      }
    }
    assert pdfMeta[..|pdfMeta|] == pdfMeta;
  }
}
