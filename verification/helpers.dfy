/** String helpers of utils/helpers.py: the file-size unit, HTML escaping
    and the PDF date layout of ISO 32000-1, section 7.9.4. */
module Helpers {
  import opened Values

  const Units: seq<string> := ["Bytes", "KB", "MB", "GB", "TB"]

  function Pow1024(e: nat): (p: nat)
    ensures p >= 1
  {
    if e == 0 then 1 else 1024 * Pow1024(e - 1)
  }

  /** The unit index: the largest i <= 4 with size >= 1024^i, and 0 for a
      size below 1024 (zero and negative sizes included). */
  function UnitIndex(size: int): (i: nat)
    ensures i <= 4
    ensures 0 < i ==> size >= Pow1024(i)
    ensures i < 4 ==> size < Pow1024(i + 1)
  {
    if size >= Pow1024(4) then 4
    else if size >= Pow1024(3) then 3
    else if size >= Pow1024(2) then 2
    else if size >= Pow1024(1) then 1
    else 0
  }

  lemma {:induction false} Pow1024Monotone(a: nat, b: nat)
    requires a <= b
    ensures Pow1024(a) <= Pow1024(b)
    decreases b
  {
    if a < b {
      Pow1024Monotone(a, b - 1);
    }
  }

  /** Any index with the characterising bounds is the unit index. */
  lemma UnitIndexUnique(size: int, i: nat)
    requires i <= 4
    requires 0 < i ==> size >= Pow1024(i)
    requires i < 4 ==> size < Pow1024(i + 1)
    ensures i == UnitIndex(size)
  {
    var j := UnitIndex(size);
    if i < j {
      Pow1024Monotone(i + 1, j);
    } else if j < i {
      Pow1024Monotone(j + 1, i);
    }
  }

  /** The text format_file_size returns. */
  function FileSizeText(size: int, py: Builtins): string
  {
    if size == 0 then "0 Bytes"
    else
      var i := UnitIndex(size);
      py.fixed2(size as real / Pow1024(i) as real) + " " + Units[i]
  }

  /** One division step keeps `size * 1024^i` equal to the byte count. */
  lemma DivideStep(size: real, i: nat, total: real)
    requires size * Pow1024(i) as real == total
    ensures (size / 1024.0) * Pow1024(i + 1) as real == total
  {
    assert Pow1024(i + 1) as real == 1024.0 * Pow1024(i) as real;
  }

  /** Comparing `size` with 1024 compares the byte count with the next power. */
  lemma CompareStep(size: real, i: nat, total: real)
    requires size * Pow1024(i) as real == total
    ensures size >= 1024.0 <==> total >= Pow1024(i + 1) as real
  {
    Pow1024Next(i);
    ScaleCompare(size, 1024.0, Pow1024(i) as real);
  }

  lemma Pow1024Next(i: nat)
    ensures Pow1024(i + 1) as real == 1024.0 * Pow1024(i) as real
    ensures Pow1024(i) as real > 0.0
  {
  }

  /** Scaling by a positive factor keeps the order. */
  lemma ScaleCompare(a: real, b: real, p: real)
    requires p > 0.0
    ensures a >= b <==> a * p >= b * p
  {
    if a >= b {
      assert (a - b) * p >= 0.0;
    } else {
      assert (b - a) * p > 0.0;
    }
  }

  lemma Quotient(size: real, p: real, total: real)
    requires p > 0.0 && size * p == total
    ensures size == total / p
  {
  }

  /** format_file_size: divides by 1024 while the value is at least 1024
      and a larger unit is left. */
  method FormatFileSize(bytesSize: int, py: Builtins) returns (s: string)
    ensures s == FileSizeText(bytesSize, py)
  {
    if bytesSize == 0 {
      return "0 Bytes";
    }
    var k := 1024;
    var i := 0;
    var size: real := bytesSize as real;
    while size >= k as real && i < |Units| - 1
      invariant 0 <= i <= 4
      invariant size * Pow1024(i) as real == bytesSize as real
      invariant 0 < i ==> bytesSize as real >= Pow1024(i) as real
    {
      CompareStep(size, i, bytesSize as real);
      DivideStep(size, i, bytesSize as real);
      size := size / k as real;
      i := i + 1;
    }
    CompareStep(size, i, bytesSize as real);
    UnitIndexUnique(bytesSize, i);
    Quotient(size, Pow1024(i) as real, bytesSize as real);
    s := py.fixed2(size) + " " + Units[i];
  }

  /** A non-zero size below 1024 is shown in Bytes, and the unit index is
      the number of times 1024 fits before the TB cap. */
  lemma FileSizeUnits(size: int, py: Builtins)
    ensures FileSizeText(0, py) == "0 Bytes"
    ensures size != 0 && size < 1024 ==> UnitIndex(size) == 0
    ensures 1024 <= size < 1048576 ==> UnitIndex(size) == 1
    ensures size >= 1099511627776 ==> UnitIndex(size) == 4
  {
  }

  /** html_escape_table.get(c, c) */
  function EscapeChar(c: char): string {
    if c == '&' then "&amp;"
    else if c == '"' then "&quot;"
    else if c == '\'' then "&apos;"
    else if c == '>' then "&gt;"
    else if c == '<' then "&lt;"
    else [c]
  }

  predicate IsSpecial(c: char) {
    c == '&' || c == '"' || c == '\'' || c == '>' || c == '<'
  }

  /** "".join(html_escape_table.get(c, c) for c in text) */
  function EscapeText(s: string): (r: string)
    ensures '<' !in r && '>' !in r && '"' !in r && '\'' !in r
    ensures |r| >= |s|
  {
    if s == [] then []
    else EscapeChar(s[0]) + EscapeText(s[1..])
  }

  /** Text without any of the five special characters is left as it is. */
  lemma {:induction false} EscapePlainText(s: string)
    requires forall i :: 0 <= i < |s| ==> !IsSpecial(s[i])
    ensures EscapeText(s) == s
  {
    if s != [] {
      assert !IsSpecial(s[0]);
      assert forall i :: 0 <= i < |s[1..]| ==> s[1..][i] == s[i + 1];
      EscapePlainText(s[1..]);
    }
  }

  /** escape_html: a value that is not a string goes through str() first. */
  function EscapeHtml(text: Value, py: Builtins): (r: string)
    ensures '<' !in r && '>' !in r && '"' !in r && '\'' !in r
    ensures |r| >= |StrOf(text, py)|
  {
    EscapeText(StrOf(text, py))
  }

  /** Escaping is character by character: it distributes over concatenation. */
  lemma {:induction false} EscapeTextConcat(a: string, b: string)
    ensures EscapeText(a + b) == EscapeText(a) + EscapeText(b)
  {
    if a == [] {
      assert a + b == b;
    } else {
      assert (a + b)[1..] == a[1..] + b;
      EscapeTextConcat(a[1..], b);
    }
  }

  /** The inverse of escaping: each of the five entities becomes its
      character again. */
  function Unescape(s: string): string
  {
    if s == [] then []
    else if "&amp;" <= s then "&" + Unescape(s[5..])
    else if "&quot;" <= s then "\"" + Unescape(s[6..])
    else if "&apos;" <= s then "'" + Unescape(s[6..])
    else if "&gt;" <= s then ">" + Unescape(s[4..])
    else if "&lt;" <= s then "<" + Unescape(s[4..])
    else [s[0]] + Unescape(s[1..])
  }

  /** Unescaping reads an escaped character back and moves on. */
  lemma UnescapeEscapedChar(c: char, t: string)
    ensures Unescape(EscapeChar(c) + t) == [c] + Unescape(t)
  {
    var e := EscapeChar(c) + t;
    assert e[..|EscapeChar(c)|] == EscapeChar(c);
    if c == '&' {
      assert "&amp;" <= e && e[5..] == t;
    } else if c == '"' {
      assert e[1] == 'q';
      assert !("&amp;" <= e) && "&quot;" <= e && e[6..] == t;
    } else if c == '\'' {
      assert e[1] == 'a' && e[2] == 'p';
      assert !("&amp;" <= e) && !("&quot;" <= e) && "&apos;" <= e && e[6..] == t;
    } else if c == '>' {
      assert e[1] == 'g';
      assert !("&amp;" <= e) && !("&quot;" <= e) && !("&apos;" <= e) && "&gt;" <= e && e[4..] == t;
    } else if c == '<' {
      assert e[1] == 'l';
      assert !("&amp;" <= e) && !("&quot;" <= e) && !("&apos;" <= e) && !("&gt;" <= e) && "&lt;" <= e && e[4..] == t;
    } else {
      assert e[0] == c && e[1..] == t;
      assert !("&amp;" <= e) && !("&quot;" <= e) && !("&apos;" <= e) && !("&gt;" <= e) && !("&lt;" <= e);
    }
  }

  /** Escaping loses nothing: unescaping gives back the text. */
  lemma {:induction false} UnescapeEscape(s: string)
    ensures Unescape(EscapeText(s)) == s
  {
    if s != [] {
      UnescapeEscape(s[1..]);
      UnescapeEscapedChar(s[0], EscapeText(s[1..]));
      assert [s[0]] + s[1..] == s;
    }
  }

  /** format_pdf_date. `D:YYYYMMDDHHmm...` of at least 16 characters
      becomes `YYYY-MM-DD HH:MM` (no digit check); any other non-empty
      string is kept; a falsy value gives "N/A"; any other value raises on
      the `startswith` call. */
  function FormatPdfDate(date: Value): (r: Result<string>)
    ensures !Truthy(date) ==> r == Ok("N/A")
    ensures date.Str? && date.s != [] && !("D:" <= date.s && |date.s| >= 16) ==> r == Ok(date.s)
    ensures r.Err? <==> Truthy(date) && !date.Str?
  {
    if !Truthy(date) then Ok("N/A")
    else if date.Str? then
      var s := date.s;
      if "D:" <= s && |s| >= 16 then
        Ok(s[2..6] + "-" + s[6..8] + "-" + s[8..10] + " " + s[10..12] + ":" + s[12..14])
      else Ok(s)
    else if date.Bytes? then
      Err(PyException(TypeError, "startswith first arg must be bytes or a tuple of bytes, not str"))
    else
      Err(NoAttribute(date, "startswith"))
  }

  /** A PDF date string `D:YYYYMMDDHHmm...` of at least 16 characters is
      laid out as `YYYY-MM-DD HH:MM`, each field taken from its fixed
      position. */
  lemma FormatPdfDateLayout(s: string)
    requires "D:" <= s && |s| >= 16
    ensures var r := FormatPdfDate(Str(s));
      && r.Ok? && |r.value| == 16
      && r.value[..4] == s[2..6] && r.value[4] == '-'
      && r.value[5..7] == s[6..8] && r.value[7] == '-'
      && r.value[8..10] == s[8..10] && r.value[10] == ' '
      && r.value[11..13] == s[10..12] && r.value[13] == ':'
      && r.value[14..] == s[12..14]
  {
  }
}
