/** The report line buffer (OutputFormatter in output/formatter.py). Every
    print method records its line first; the console step that follows
    reads an attribute the class never defines, so each call then raises
    AttributeError, which the methods return. */
module Formatter {
  import opened Values
  import opened Text

  const RuleWidth := 70
  const KeyWidth := 30

  /** The exception raised by a lookup of an attribute the formatter lacks. */
  function MissingAttribute(name: string): PyException {
    PyException(AttributeError, "'OutputFormatter' object has no attribute '" + name + "'")
  }

  /** The three lines of a header: the title between two rules of 70 '='. */
  function HeaderLines(text: string): (r: seq<string>)
    ensures |r| == 3 && r[1] == text && r[0] == r[2]
    ensures |r[0]| == RuleWidth && forall i :: 0 <= i < |r[0]| ==> r[0][i] == '='
  {
    [Repeat('=', RuleWidth), text, Repeat('=', RuleWidth)]
  }

  /** The two lines of a section: the title on a new line, then a rule of 70 '-'. */
  function SectionLines(title: string): (r: seq<string>)
    ensures |r| == 2 && r[0] == "\n" + title
    ensures |r[1]| == RuleWidth && forall i :: 0 <= i < |r[1]| ==> r[1][i] == '-'
  {
    ["\n" + title, Repeat('-', RuleWidth)]
  }

  /** f"{key:30} : {value}" for a string key: the key, left-aligned and
      padded with spaces to 30 columns but never cut, then " : ", then
      the value's text. */
  function ItemLine(key: string, value: Value, py: Builtins): (r: string)
    ensures var w := if |key| < KeyWidth then KeyWidth else |key|;
      && |r| == w + 3 + |StrOf(value, py)|
      && r[..|key|] == key
      && (forall i :: |key| <= i < w ==> r[i] == ' ')
      && r[w..w + 3] == " : "
      && r[w + 3..] == StrOf(value, py)
  {
    var padded := PadRight(key, KeyWidth);
    var r := padded + " : " + StrOf(value, py);
    assert r[..|padded|] == padded;
    r
  }

  class OutputFormatter {
    var outputLines: seq<string>

    constructor ()
      ensures outputLines == []
    {
      outputLines := [];
    }

    /** print_header: the three lines go in, then `self.typing_effect` raises. */
    method PrintHeader(text: string) returns (raised: PyException)
      modifies this
      ensures outputLines == old(outputLines) + HeaderLines(text)
      ensures raised == MissingAttribute("typing_effect")
    {
      var line := Repeat('=', RuleWidth);
      outputLines := outputLines + [line];
      outputLines := outputLines + [text];
      outputLines := outputLines + [line];
      raised := MissingAttribute("typing_effect");
    }

    /** print_section: two lines, then `self._print_slow` raises. */
    method PrintSection(title: string) returns (raised: PyException)
      modifies this
      ensures outputLines == old(outputLines) + SectionLines(title)
      ensures raised == MissingAttribute("_print_slow")
    {
      outputLines := outputLines + ["\n" + title];
      outputLines := outputLines + [Repeat('-', RuleWidth)];
      raised := MissingAttribute("_print_slow");
    }

    /** print_item: the line does not depend on `highlight`, which only
        picks the console colour. */
    method PrintItem(key: string, value: Value, highlight: bool, py: Builtins) returns (raised: PyException)
      modifies this
      ensures outputLines == old(outputLines) + [ItemLine(key, value, py)]
      ensures raised == MissingAttribute("_print_slow")
    {
      outputLines := outputLines + [PadRight(key, KeyWidth) + " : " + StrOf(value, py)];
      raised := MissingAttribute("_print_slow");
    }

    method PrintWarning(text: string) returns (raised: PyException)
      modifies this
      ensures outputLines == old(outputLines) + [text]
      ensures raised == MissingAttribute("_print_slow")
    {
      outputLines := outputLines + [text];
      raised := MissingAttribute("_print_slow");
    }

    method PrintError(text: string) returns (raised: PyException)
      modifies this
      ensures outputLines == old(outputLines) + [" " + text]
      ensures raised == MissingAttribute("_print_slow")
    {
      outputLines := outputLines + [" " + text];
      raised := MissingAttribute("_print_slow");
    }

    method PrintSuccess(text: string) returns (raised: PyException)
      modifies this
      ensures outputLines == old(outputLines) + [" " + text]
      ensures raised == MissingAttribute("_print_slow")
    {
      outputLines := outputLines + [" " + text];
      raised := MissingAttribute("_print_slow");
    }

    /** get_output_lines */
    method GetOutputLines() returns (lines: seq<string>)
      ensures lines == outputLines
    {
      lines := outputLines;
    }

    method Clear()
      modifies this
      ensures outputLines == []
    {
      outputLines := [];
    }
  }
}
