/** Input validation and folder listing (FileReader in core/reader.py).
    Whether a path exists or is a directory, its size and the directory
    listing are parameters. */
module Reader {
  import opened Values
  import opened Text

  const SupportedFormats: seq<string> := [".jpg", ".jpeg", ".png", ".tiff", ".bmp", ".gif"]

  /** The suffix of a final component: from its last dot on, when that dot
      is neither its first nor its last character; "" otherwise. */
  function NameSuffix(name: string): (r: string)
    ensures r == [] || (|r| >= 2 && r[0] == '.' && '.' !in r[1..])
    ensures |r| <= |name| && name[|name| - |r|..] == r
  {
    var i := LastIndexOf(name, '.');
    if 0 < i < |name| - 1 then
      name[i..]
    else ""
  }

  /** Path(path).suffix: the suffix of the final component. */
  function Suffix(path: string): (r: string)
    ensures r == [] || (|r| >= 2 && r[0] == '.' && '.' !in r[1..] && '/' !in r)
    ensures |r| <= |BaseName(path)| && BaseName(path)[|BaseName(path)| - |r|..] == r
  {
    var name := BaseName(path);
    var r := NameSuffix(name);
    assert forall j :: 0 <= j < |r| ==> r[j] == name[|name| - |r| + j];
    r
  }

  lemma NameSuffixLower(name: string)
    ensures NameSuffix(Lower(name)) == Lower(NameSuffix(name))
  {
    LastIndexOfLower(name, '.');
    var i := LastIndexOf(name, '.');
    if 0 < i < |name| - 1 {
      LowerSuffix(name, i);
    }
  }

  /** Lower-casing the path first gives the lower-cased suffix. */
  lemma SuffixLower(path: string)
    ensures Suffix(Lower(path)) == Lower(Suffix(path))
  {
    BaseNameLower(path);
    NameSuffixLower(BaseName(path));
  }

  /** The message for a file type not in the list. */
  function UnsupportedMessage(ext: string): string {
    "Unsupported file type: " + ext + "\nSupported formats: " + Join(", ", SupportedFormats)
  }

  /** The message names the offending extension and the comma-joined
      list of supported ones. */
  lemma UnsupportedMessageNames(ext: string)
    ensures Contains(UnsupportedMessage(ext), ext)
    ensures Contains(UnsupportedMessage(ext), Join(", ", SupportedFormats))
  {
    var joined := Join(", ", SupportedFormats);
    assert UnsupportedMessage(ext) == "Unsupported file type: " + ext + ("\nSupported formats: " + joined);
    OccursBetween("Unsupported file type: ", ext, "\nSupported formats: " + joined);
    assert UnsupportedMessage(ext) == "Unsupported file type: " + ext + "\nSupported formats: " + joined + "";
    OccursBetween("Unsupported file type: " + ext + "\nSupported formats: ", joined, "");
  }

  /** A FileReader holds the path it was built with. */
  datatype FileReader = FileReader(filePath: string) {

    /** is_supported_format */
    predicate IsSupportedFormat() {
      Lower(Suffix(filePath)) in SupportedFormats
    }

    /** validate: the existence check comes before the extension check. */
    function Validate(fileExists: bool): (r: (bool, Option<string>))
      ensures r.0 <==> fileExists && IsSupportedFormat()
      ensures r.0 ==> r.1 == None
      ensures !fileExists ==> r.1 == Some("File not found: " + filePath)
      ensures fileExists && !IsSupportedFormat() ==> r.1 == Some(UnsupportedMessage(Lower(Suffix(filePath))))
    {
      if !fileExists then (false, Some("File not found: " + filePath))
      else if !IsSupportedFormat() then (false, Some(UnsupportedMessage(Lower(Suffix(filePath)))))
      else (true, None)
    }

    /** get_file_info: a missing file has size 0 and is never stat'ed. */
    function FileInfo(fileExists: bool, statSize: int): (r: FileDetails)
      ensures r.path == filePath && r.name == BaseName(filePath)
      ensures r.extension == Lower(Suffix(filePath))
      ensures r.size == if fileExists then statSize else 0
    {
      FileDetails(filePath, BaseName(filePath), Lower(Suffix(filePath)), if fileExists then statSize else 0)
    }
  }

  datatype FileDetails = FileDetails(path: string, name: string, extension: string, size: int)

  /** The extension check ignores case: paths equal up to ASCII case are
      accepted or refused together. */
  lemma SupportedIgnoresCase(p: string, q: string)
    requires Lower(p) == Lower(q)
    ensures FileReader(p).IsSupportedFormat() == FileReader(q).IsSupportedFormat()
  {
    SuffixLower(p);
    SuffixLower(q);
    LowerIdempotent(Suffix(p));
    LowerIdempotent(Suffix(q));
  }

  /** An entry of the directory listing: its path and whether it is a
      regular file. */
  datatype DirEntry = DirEntry(path: string, isFile: bool)

  /** The listing's supported regular files, in listing order. */
  function SupportedEntries(listing: seq<DirEntry>): (r: seq<string>)
    ensures forall p :: p in r <==> exists e :: e in listing && e.isFile && FileReader(e.path).IsSupportedFormat() && e.path == p
  {
    if listing == [] then []
    else
      var n := |listing| - 1;
      var e := listing[n];
      assert forall x :: x in listing <==> x in listing[..n] || x == e by {
        assert listing == listing[..n] + [e];
      }
      SupportedEntries(listing[..n]) + (if e.isFile && FileReader(e.path).IsSupportedFormat() then [e.path] else [])
  }

  /** Extending the listing by one entry extends the selection by at most
      that entry's path. */
  lemma SupportedEntriesStep(listing: seq<DirEntry>, i: nat)
    requires i < |listing|
    ensures SupportedEntries(listing[..i + 1]) == SupportedEntries(listing[..i]) +
      (if listing[i].isFile && FileReader(listing[i].path).IsSupportedFormat() then [listing[i].path] else [])
  {
    assert listing[..i + 1][..i] == listing[..i];
  }

  /** Pairwise ordered by code points. */
  predicate Sorted(s: seq<string>) {
    forall i, j :: 0 <= i < j < |s| ==> LessEq(s[i], s[j])
  }

  function Insert(x: string, s: seq<string>): (r: seq<string>)
    ensures |r| == |s| + 1
  {
    if s == [] then [x]
    else if LessEq(x, s[0]) then [x] + s
    else [s[0]] + Insert(x, s[1..])
  }

  /** sorted() on the listed paths. They share the folder as prefix, so
      the order of Path objects is the order of their texts. */
  function SortPaths(s: seq<string>): (r: seq<string>)
    ensures |r| == |s|
  {
    if s == [] then [] else Insert(s[0], SortPaths(s[1..]))
  }

  /** Prepending an element no greater than any other keeps the order. */
  lemma SortedCons(y: string, t: seq<string>)
    requires Sorted(t)
    requires forall k :: 0 <= k < |t| ==> LessEq(y, t[k])
    ensures Sorted([y] + t)
  {
    var r := [y] + t;
    forall i, j | 0 <= i < j < |r| ensures LessEq(r[i], r[j]) {
      if i == 0 {
        assert r[j] == t[j - 1];
      } else {
        assert r[i] == t[i - 1] && r[j] == t[j - 1];
      }
    }
  }

  lemma SortedTail(s: seq<string>)
    requires s != [] && Sorted(s)
    ensures Sorted(s[1..])
  {
    var rest := s[1..];
    forall i, j | 0 <= i < j < |rest| ensures LessEq(rest[i], rest[j]) {
      assert rest[i] == s[i + 1] && rest[j] == s[j + 1];
    }
  }

  lemma {:induction false} InsertMultiset(x: string, s: seq<string>)
    ensures multiset(Insert(x, s)) == multiset(s) + multiset{x}
  {
    if s != [] && !LessEq(x, s[0]) {
      InsertMultiset(x, s[1..]);
      assert s == [s[0]] + s[1..];
    }
  }

  lemma {:induction false} InsertSorted(x: string, s: seq<string>)
    requires Sorted(s)
    ensures Sorted(Insert(x, s))
  {
    if s == [] {
    } else if LessEq(x, s[0]) {
      forall j | 0 <= j < |s| ensures LessEq(x, s[j]) {
        if j > 0 {
          LessEqTransitive(x, s[0], s[j]);
        }
      }
      SortedCons(x, s);
    } else {
      LessEqTotal(x, s[0]);
      var rest := s[1..];
      SortedTail(s);
      InsertSorted(x, rest);
      InsertMultiset(x, rest);
      var t := Insert(x, rest);
      forall k | 0 <= k < |t| ensures LessEq(s[0], t[k]) {
        assert t[k] in multiset(t);
        if t[k] != x {
          assert t[k] in multiset(rest);
          var m :| 0 <= m < |rest| && rest[m] == t[k];
          assert s[m + 1] == t[k];
        }
      }
      SortedCons(s[0], t);
    }
  }

  /** Sorting orders the paths and keeps each of them, as often as it occurs. */
  lemma {:induction false} SortPathsSpec(s: seq<string>)
    ensures Sorted(SortPaths(s))
    ensures multiset(SortPaths(s)) == multiset(s)
  {
    if s != [] {
      SortPathsSpec(s[1..]);
      InsertSorted(s[0], SortPaths(s[1..]));
      InsertMultiset(s[0], SortPaths(s[1..]));
      assert s == [s[0]] + s[1..];
    }
  }

  /** get_supported_files: nothing for a missing folder or a non-directory,
      otherwise the supported regular files of the listing, sorted. */
  method GetSupportedFiles(fileExists: bool, isDir: bool, listing: seq<DirEntry>) returns (files: seq<string>)
    ensures files == if !fileExists || !isDir then [] else SortPaths(SupportedEntries(listing))
  {
    if !fileExists || !isDir {
      return [];
    }
    files := [];
    for i := 0 to |listing|
      invariant files == SupportedEntries(listing[..i])
    {
      var entry := listing[i];
      SupportedEntriesStep(listing, i);
      if entry.isFile && Lower(Suffix(entry.path)) in SupportedFormats {
        files := files + [entry.path];
      }
    }
    assert listing[..|listing|] == listing;
    files := SortPaths(files);
  }

  /** The listing returned is sorted, and a path is in it exactly when
      the listing has it as a regular file with a supported suffix. */
  lemma SupportedFilesSpec(listing: seq<DirEntry>)
    ensures Sorted(SortPaths(SupportedEntries(listing)))
    ensures forall p :: p in SortPaths(SupportedEntries(listing)) <==>
      exists e :: e in listing && e.isFile && FileReader(e.path).IsSupportedFormat() && e.path == p
  {
    SortPathsSpec(SupportedEntries(listing));
    forall p ensures p in SortPaths(SupportedEntries(listing)) <==> p in SupportedEntries(listing) {
      assert p in multiset(SortPaths(SupportedEntries(listing))) <==> p in multiset(SupportedEntries(listing));
    }
  }
}
