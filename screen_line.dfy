/** One logical line together with its rows (src/core/screen_line.rs).
    Here the line is always wrapped, and the gutter width and the terminal
    width are 16-bit numbers. */
module ScreenLines {
  import opened Common
  import opened LineNumbering
  import opened ScreenText

  datatype ScreenLine = ScreenLine(
    fmtLines: seq<string>,
    origText: string,
    lineNumber: nat,
    fmtLinesCount: nat,
    terminated: bool)

  /** The cached fields of a screen line agree with its rows and text. */
  predicate Consistent(sl: ScreenLine)
  {
    sl.fmtLinesCount == |sl.fmtLines| && (sl.terminated <==> EndsWith(sl.origText, '\n'))
  }

  /** `ScreenLine::new`. */
  function NewScreenLine(fmtLines: seq<string>, origText: string, lineNumber: nat): (r: ScreenLine)
    ensures Consistent(r)
    ensures r.fmtLines == fmtLines && r.origText == origText && r.lineNumber == lineNumber
  {
    ScreenLine(fmtLines, origText, lineNumber, |fmtLines|, EndsWith(origText, '\n'))
  }

  /** Whether the 16-bit sums `len_line_number + EXTRA_PADDING + 1` (always
      computed) and `padding + 2` (computed when numbers are shown)
      overflow; an overflow panics. */
  predicate PaddingOverflows(lenLineNumber: nat, lineNumbers: LineNumbers)
  {
    Padding(lenLineNumber) > U16_MAX || (ShowsNumbers(lineNumbers) && Padding(lenLineNumber) + 2 > U16_MAX)
  }

  /** `formatted_line` of this module: the rows of the line, always
      wrapped to the width left by the gutter. */
  function FormattedLine(line: string, lenLineNumber: nat, lineNumber: nat, lineNumbers: LineNumbers,
                         cols: nat, wrap: Wrapper): (r: Result<Rows>)
    requires lenLineNumber <= U16_MAX && cols <= U16_MAX
    ensures r.Panic? <==> '\n' in line || PaddingOverflows(lenLineNumber, lineNumbers)
  {
    if '\n' in line || PaddingOverflows(lenLineNumber, lineNumbers) then Panic
    else Ok(LineRows(line, lenLineNumber, lineNumber, Config(lineNumbers, cols, true, wrap)))
  }

  /** Layout of the rows: without numbers they are the rows `wrap` makes of
      the line at the full width; with numbers, the line is wrapped to
      `cols - (padding + 2)` (saturating), the first row is "n." right-aligned
      in `padding` columns, a space and the first wrapped row, and every
      later row is a blank field of the same width, a space and its wrapped
      row. */
  lemma FormattedLineLayout(line: string, lenLineNumber: nat, lineNumber: nat, lineNumbers: LineNumbers,
                            cols: nat, wrap: Wrapper)
    requires lenLineNumber <= U16_MAX && cols <= U16_MAX
    requires FormattedLine(line, lenLineNumber, lineNumber, lineNumbers, cols, wrap).Ok?
    ensures var r := FormattedLine(line, lenLineNumber, lineNumber, lineNumbers, cols, wrap).value;
            var padding := lenLineNumber + EXTRA_PADDING + 1;
            var g, n := Gutter(lineNumber, lenLineNumber), NatToString(lineNumber + 1) + ".";
            && (!ShowsNumbers(lineNumbers) ==> r == wrap(line, cols))
            && (ShowsNumbers(lineNumbers) ==>
                  var w := wrap(line, SatSub(cols, padding + 2));
                  && |r| == |w|
                  && r[0] == g + " " + w[0]
                  && g[|g| - |n|..] == n
                  && (forall i :: 0 <= i < |g| - |n| ==> g[i] == ' ')
                  && (Digits(lineNumber + 1) <= lenLineNumber ==> |g| == padding)
                  && (forall i :: 1 <= i < |r| ==> r[i] == Spaces(padding) + " " + w[i]))
  {
    GutterLayout(line, lenLineNumber, lineNumber, Config(lineNumbers, cols, true, wrap));
    GutterWidth(lineNumber, lenLineNumber);
  }

  /** `ScreenLine::new_from_string`: formats the text as one line. */
  function NewFromString(text: string, cols: nat, lineNumber: nat, lineNumbers: LineNumbers,
                         lenLineNumber: nat, wrap: Wrapper): (r: Result<ScreenLine>)
    requires lenLineNumber <= U16_MAX && cols <= U16_MAX
    ensures r.Ok? ==> Consistent(r.value) && r.value.origText == text && r.value.lineNumber == lineNumber
  {
    match FormattedLine(text, lenLineNumber, lineNumber, lineNumbers, cols, wrap)
    case Panic => Panic
    case Ok(rows) => Ok(NewScreenLine(rows, text, lineNumber))
  }

  /** A line built from a string is never terminated: a text ending in a
      newline makes `formatted_line` panic first. */
  lemma NewFromStringNeverTerminated(text: string, cols: nat, lineNumber: nat, lineNumbers: LineNumbers,
                                     lenLineNumber: nat, wrap: Wrapper)
    requires lenLineNumber <= U16_MAX && cols <= U16_MAX
    ensures var r := NewFromString(text, cols, lineNumber, lineNumbers, lenLineNumber, wrap);
            r.Ok? ==> !r.value.terminated && r.value.fmtLinesCount >= 1
  {
    if text != [] && text[|text| - 1] == '\n' {
      assert '\n' in text;
    }
  }
}
