/** The text model of the pager (src/screen/mod.rs): a text block is split
    into lines, every line is wrapped into rows, optionally behind a
    line-number gutter, and the screen keeps the formatted rows together
    with the bookkeeping that lets a later append rewrite only the last,
    unterminated line. */
module ScreenText {
  import opened Common
  import opened LineNumbering
  import opened Blocks

  /** Columns the gutter reserves besides the digits and the dot. */
  const EXTRA_PADDING: nat := 5

  /** The terminal and user settings that formatting depends on. */
  datatype Config = Config(lineNumbers: LineNumbers, cols: nat, lineWrapping: bool, wrap: Wrapper)

  /** Width of the gutter field the number is right-aligned in. */
  function Padding(lenLineNumber: nat): nat
  {
    lenLineNumber + EXTRA_PADDING + 1
  }

  /** Columns left for the text of a row. */
  function WrapWidth(lenLineNumber: nat, cfg: Config): nat
  {
    if ShowsNumbers(cfg.lineNumbers) then SatSub(cfg.cols, Padding(lenLineNumber) + 2) else cfg.cols
  }

  /** The line cut into rows, or left whole when wrapping is off. */
  function Wrapped(line: string, lenLineNumber: nat, cfg: Config): Rows
  {
    if cfg.lineWrapping then cfg.wrap(line, WrapWidth(lenLineNumber, cfg)) else [line]
  }

  /** The gutter of a line's first row: "idx+1." right-aligned. */
  function Gutter(idx: nat, lenLineNumber: nat): string
  {
    PadLeft(NatToString(idx + 1) + ".", Padding(lenLineNumber))
  }

  /** The rows after the first of a numbered line: a blank gutter, a space
      and the wrapped row. */
  function LaterRows(w: seq<string>, padding: nat): (r: seq<string>)
    ensures |r| == |w|
  {
    if w == [] then [] else [Spaces(padding) + " " + w[0]] + LaterRows(w[1..], padding)
  }

  lemma {:induction false} LaterRowsAt(w: seq<string>, padding: nat)
    ensures forall i :: 0 <= i < |w| ==> LaterRows(w, padding)[i] == Spaces(padding) + " " + w[i]
  {
    if w != [] {
      LaterRowsAt(w[1..], padding);
    }
  }

  /** The rows `formatted_line` produces for a line without a newline. */
  function LineRows(line: string, lenLineNumber: nat, idx: nat, cfg: Config): (r: Rows)
    ensures |r| == |Wrapped(line, lenLineNumber, cfg)|
  {
    var w := Wrapped(line, lenLineNumber, cfg);
    if ShowsNumbers(cfg.lineNumbers) then
      [Gutter(idx, lenLineNumber) + " " + w[0]] + LaterRows(w[1..], Padding(lenLineNumber))
    else w
  }

  /** `formatted_line`: panics when the line holds a newline. */
  function FormattedLine(line: string, lenLineNumber: nat, idx: nat, cfg: Config): (r: Result<Rows>)
    ensures r.Panic? <==> '\n' in line
    ensures r.Ok? ==> r.value == LineRows(line, lenLineNumber, idx, cfg)
  {
    if '\n' in line then Panic else Ok(LineRows(line, lenLineNumber, idx, cfg))
  }

  /** Layout of a formatted line. Without numbers the rows are the wrapped
      rows; without wrapping there is exactly one row. With numbers, the
      first row is the gutter "idx+1.", a space and the first wrapped row,
      and every later row is a blank gutter of the same field width, a
      space and its wrapped row. */
  lemma GutterLayout(line: string, lenLineNumber: nat, idx: nat, cfg: Config)
    ensures var r, w := LineRows(line, lenLineNumber, idx, cfg), Wrapped(line, lenLineNumber, cfg);
            && (!ShowsNumbers(cfg.lineNumbers) ==> r == w)
            && (!cfg.lineWrapping ==> |r| == 1 && w == [line])
            && (ShowsNumbers(cfg.lineNumbers) ==>
                  && r[0] == Gutter(idx, lenLineNumber) + " " + w[0]
                  && (forall i :: 1 <= i < |r| ==> r[i] == Spaces(Padding(lenLineNumber)) + " " + w[i]))
  {
    var w := Wrapped(line, lenLineNumber, cfg);
    if ShowsNumbers(cfg.lineNumbers) {
      LaterRowsAt(w[1..], Padding(lenLineNumber));
    }
  }

  /** The gutter is the number right-aligned in a field of `Padding` columns:
      when the number has at most `lenLineNumber` digits the gutter is
      exactly that wide, blank up to the digits and ending in "idx+1.". */
  lemma GutterWidth(idx: nat, lenLineNumber: nat)
    ensures var g, n := Gutter(idx, lenLineNumber), NatToString(idx + 1) + ".";
            && g[|g| - |n|..] == n
            && (forall i :: 0 <= i < |g| - |n| ==> g[i] == ' ')
            && (Digits(idx + 1) <= lenLineNumber ==> |g| == Padding(lenLineNumber))
  {
    PadLeftBlank(NatToString(idx + 1) + ".", Padding(lenLineNumber));
  }

  /** `formatted_line` as the per-line formatter of a block whose gutter
      holds `lenLineNumber` digits. */
  function Formatter(lenLineNumber: nat, cfg: Config): LineFormatter
  {
    (line: string, idx: nat) => LineRows(line, lenLineNumber, idx, cfg)
  }

  // ---------------------------------------------------------------------------
  // format_text_block
  // ---------------------------------------------------------------------------

  /** What `format_text_block` reports besides the rows it appends. */
  datatype FormatResult = FormatResult(
    linesFormatted: nat,
    rowsFormatted: nat,
    numUnterminated: nat,
    linesToRowMap: seq<nat>,
    maxLineLength: nat,
    cleanAppend: bool)

  /** The text actually formatted: the attachment glued in front of the text. */
  function ToFormat(text: string, attachment: Option<string>): (r: string)
    ensures attachment.None? ==> r == text
    ensures attachment.Some? ==> r == attachment.value + text
  {
    match attachment
    case Some(a) => a + text
    case None => text
  }

  /** Line number of the first formatted line: the attached line keeps the
      number of the last line already present. */
  function StartLine(linesCount: nat, attachment: Option<string>): (r: nat)
    ensures attachment.Some? && linesCount > 0 ==> r + 1 == linesCount
    ensures attachment.None? || linesCount == 0 ==> r == linesCount
  {
    if attachment.Some? then SatSub(linesCount, 1) else linesCount
  }

  /** Row index of the first formatted row: the attached line's old rows are
      rewritten. */
  function StartRow(formattedLinesCount: nat, prevUnterminated: nat, attachment: Option<string>): (r: nat)
    ensures attachment.Some? && prevUnterminated <= formattedLinesCount ==> r + prevUnterminated == formattedLinesCount
    ensures attachment.Some? && prevUnterminated > formattedLinesCount ==> r == 0
    ensures attachment.None? ==> r == formattedLinesCount
  {
    if attachment.Some? then SatSub(formattedLinesCount, prevUnterminated) else formattedLinesCount
  }

  /** Gutter width used for the block: the digits of the line number one
      past the block. */
  function BlockDigits(text: string, attachment: Option<string>, linesCount: nat): nat
  {
    Digits(StartLine(linesCount, attachment) + |Lines(ToFormat(text, attachment))|)
  }

  /** The per-line formatter of the block. */
  function BlockFormatter(text: string, attachment: Option<string>, linesCount: nat, cfg: Config): LineFormatter
  {
    Formatter(BlockDigits(text, attachment, linesCount), cfg)
  }

  /** The rows `format_text_block` appends to its buffer. */
  function BlockRows(text: string, attachment: Option<string>, linesCount: nat, cfg: Config): seq<string>
  {
    RowsOf(Lines(ToFormat(text, attachment)), StartLine(linesCount, attachment),
           BlockFormatter(text, attachment, linesCount, cfg))
  }

  /** The rows of the last formatted line, which stay open for the next
      append unless the text ends with a newline. */
  function LastLineRows(text: string, attachment: Option<string>, linesCount: nat, cfg: Config): nat
  {
    var ls := Lines(ToFormat(text, attachment));
    if ls == [] then 0
    else |BlockFormatter(text, attachment, linesCount, cfg)(ls[|ls| - 1], StartLine(linesCount, attachment) + |ls| - 1)|
  }

  /** The report of `format_text_block` for these arguments: with no line
      to format, nothing but the number of lines is touched and the open
      rows stay as they were. */
  function BlockReport(text: string, attachment: Option<string>, linesCount: nat,
                       formattedLinesCount: nat, prevUnterminated: nat, cfg: Config): FormatResult
  {
    var ls := Lines(ToFormat(text, attachment));
    FormatResult(
      |ls|,
      |BlockRows(text, attachment, linesCount, cfg)|,
      if ls == [] then prevUnterminated
      else if EndsWith(text, '\n') then 0
      else LastLineRows(text, attachment, linesCount, cfg),
      StartsOf(ls, StartLine(linesCount, attachment), StartRow(formattedLinesCount, prevUnterminated, attachment),
               BlockFormatter(text, attachment, linesCount, cfg)),
      MaxLen(ls),
      attachment.None?)
  }

  /** The row map a block reports is the row starts of its lines. */
  lemma BlockReportMap(text: string, attachment: Option<string>, linesCount: nat,
                       formattedLinesCount: nat, prevUnterminated: nat, cfg: Config)
    ensures BlockReport(text, attachment, linesCount, formattedLinesCount, prevUnterminated, cfg).linesToRowMap
            == StartsOf(Lines(ToFormat(text, attachment)), StartLine(linesCount, attachment),
                        StartRow(formattedLinesCount, prevUnterminated, attachment),
                        BlockFormatter(text, attachment, linesCount, cfg))
  {
  }

  /** The formatting part of `format_text_block`: formats every line with
      `fmt` (`formatted_line` at the block's gutter width), the last line
      after the others, records where each line's first row lands, and
      tracks the longest line. */
  method FormatLinesFrom(lines: seq<string>, lc: nat, flc: nat, fmt: LineFormatter)
    returns (appended: seq<string>, rowMap: seq<nat>, maxLen: nat, lastRows: nat)
    requires lines != []
    ensures appended == RowsOf(lines, lc, fmt)
    ensures rowMap == StartsOf(lines, lc, flc, fmt)
    ensures maxLen == MaxLen(lines)
    ensures lastRows == |fmt(lines[|lines| - 1], lc + |lines| - 1)|
  {
    var size := |lines|;
    var count := flc;
    appended, rowMap, maxLen := [], [], 0;
    var k := 0;
    while k < size - 1
      invariant 0 <= k <= size - 1
      invariant FormattedUpTo(lines, k, lc, flc, fmt, appended, rowMap, maxLen)
      invariant count == flc + |appended|
    {
      var rows := fmt(lines[k], lc + k);
      FormatStep(lines, k, lc, flc, fmt, appended, rowMap, maxLen);
      rowMap := rowMap + [count];
      count := count + |rows|;
      var len := Utf8Len(lines[k]);
      if len > maxLen {
        maxLen := len;
      }
      appended := appended + rows;
      k := k + 1;
    }
    var lastLine := fmt(lines[size - 1], lc + size - 1);
    FormatStep(lines, size - 1, lc, flc, fmt, appended, rowMap, maxLen);
    rowMap := rowMap + [count];
    var len := Utf8Len(lines[size - 1]);
    if len > maxLen {
      maxLen := len;
    }
    lastRows := |lastLine|;
    appended := appended + lastLine;
    assert lines[..size] == lines;
  }

  /** `format_text_block`: formats the lines of the (attached) text and
      returns the rows to append together with the tracking counters. */
  method FormatTextBlock(text: string, attachment: Option<string>, linesCount: nat,
                         formattedLinesCount: nat, prevUnterminated: nat, cfg: Config)
    returns (appended: seq<string>, fr: FormatResult)
    ensures appended == BlockRows(text, attachment, linesCount, cfg)
    ensures fr == BlockReport(text, attachment, linesCount, formattedLinesCount, prevUnterminated, cfg)
  {
    var lc := StartLine(linesCount, attachment);
    var flc := StartRow(formattedLinesCount, prevUnterminated, attachment);
    var toFormat := ToFormat(text, attachment);
    var lines := Lines(toFormat);
    var size := |lines|;
    var digits := Digits(lc + size);
    fr := FormatResult(size, 0, prevUnterminated, [], 0, attachment.None?);
    appended := [];
    if size == 0 {
      return;
    }
    var rowMap, maxLen, lastRows;
    appended, rowMap, maxLen, lastRows := FormatLinesFrom(lines, lc, flc, Formatter(digits, cfg));
    var numUnterminated := if EndsWith(text, '\n') then 0 else lastRows;
    fr := FormatResult(size, |appended|, numUnterminated, rowMap, maxLen, attachment.None?);
  }

  /** `make_format_lines`: the whole text formatted from line 0 and row 0. */
  method MakeFormatLines(text: string, cfg: Config) returns (rows: seq<string>, fr: FormatResult)
    ensures rows == RowsOf(Lines(text), 0, Formatter(Digits(|Lines(text)|), cfg))
    ensures fr.linesToRowMap == StartsOf(Lines(text), 0, 0, Formatter(Digits(|Lines(text)|), cfg))
    ensures fr.linesFormatted == |Lines(text)| && fr.rowsFormatted == |rows|
    ensures EndsWith(text, '\n') || text == [] <==> fr.numUnterminated == 0
    ensures !EndsWith(text, '\n') && text != [] ==> fr.numUnterminated == LastLineRows(text, None, 0, cfg) <= |rows|
  {
    rows, fr := FormatTextBlock(text, None, 0, 0, 0, cfg);
    LinesEmpty(text);
    if text != [] {
      var ls := Lines(text);
      RowsOfLast(ls, 0, Formatter(Digits(|ls|), cfg));
    }
  }

  /** The open rows the block reports are its trailing rows: cutting them off
      leaves the rows of all lines but the last. */
  lemma UnterminatedIsLastLine(text: string, attachment: Option<string>, linesCount: nat, cfg: Config)
    requires Lines(ToFormat(text, attachment)) != []
    ensures var ls, rows := Lines(ToFormat(text, attachment)), BlockRows(text, attachment, linesCount, cfg);
            var u := LastLineRows(text, attachment, linesCount, cfg);
            && 1 <= u <= |rows|
            && rows[..|rows| - u] == RowsOf(ls[..|ls| - 1], StartLine(linesCount, attachment),
                                            BlockFormatter(text, attachment, linesCount, cfg))
  {
    var ls := Lines(ToFormat(text, attachment));
    RowsOfLast(ls, StartLine(linesCount, attachment), BlockFormatter(text, attachment, linesCount, cfg));
  }

  /** Every recorded row start of a block points, within the buffer the
      block is appended to, at the first row of its line. */
  lemma BlockMapPointsAtFirstRows(text: string, attachment: Option<string>, linesCount: nat,
                                  kept: seq<string>, cfg: Config, k: nat)
    requires k < |Lines(ToFormat(text, attachment))|
    ensures var ls, buf := Lines(ToFormat(text, attachment)), kept + BlockRows(text, attachment, linesCount, cfg);
            var starts := StartsOf(ls, StartLine(linesCount, attachment), |kept|,
                                   BlockFormatter(text, attachment, linesCount, cfg));
            && |kept| <= starts[k] < |buf|
            && buf[starts[k]] == LineRows(ls[k], BlockDigits(text, attachment, linesCount),
                                          StartLine(linesCount, attachment) + k, cfg)[0]
  {
    StartIndexesBuffer(Lines(ToFormat(text, attachment)), k, StartLine(linesCount, attachment), kept,
                       BlockFormatter(text, attachment, linesCount, cfg));
  }

  // ---------------------------------------------------------------------------
  // The longest-line counter as the source computes it
  // ---------------------------------------------------------------------------

  /** The rest-lines loop's update of `max_line_length` as written: the guard
      compares the number of lines, not the length of the line. */
  function RestMaxAsWritten(rest: seq<string>, lineCount: nat, m: nat): nat
  {
    if rest == [] then m
    else RestMaxAsWritten(rest[1..], lineCount, if lineCount > m then Utf8Len(rest[0]) else m)
  }

  /** `max_line_length` as `format_text_block` computes it. */
  function MaxLineLengthAsWritten(ls: seq<string>): nat
  {
    if ls == [] then 0
    else
      var m := RestMaxAsWritten(ls[..|ls| - 1], |ls|, 0);
      if Utf8Len(ls[|ls| - 1]) > m then Utf8Len(ls[|ls| - 1]) else m
  }

  /** With three lines of lengths 4, 8 and 1 the longest line is 8 long, but
      the counter as written stops at 4; the corrected counter used by
      `FormatTextBlock` reports 8. */
  lemma MaxLineLengthCounterexample()
    ensures MaxLineLengthAsWritten(["aaaa", "bbbbbbbb", "c"]) == 4
    ensures MaxLen(["aaaa", "bbbbbbbb", "c"]) == 8
  {
    var ls := ["aaaa", "bbbbbbbb", "c"];
    Utf8LenBounds("aaaa");
    Utf8LenBounds("bbbbbbbb");
    Utf8LenBounds("c");
    assert ls[..|ls| - 1] == ["aaaa", "bbbbbbbb"];
    assert ["aaaa", "bbbbbbbb"][1..] == ["bbbbbbbb"];
    assert ["bbbbbbbb"][1..] == [];
    assert RestMaxAsWritten(["bbbbbbbb"], 3, 4) == 4;
    assert RestMaxAsWritten(["aaaa", "bbbbbbbb"], 3, 0) == 4;
    assert ls[..2] == ["aaaa", "bbbbbbbb"];
    assert ls[..2][..1] == ["aaaa"];
    assert ls[..2][..1][..0] == [];
  }

  /** The counter is in bytes, as `str::len` is: the one-character line "é"
      is two bytes long in UTF-8. */
  lemma MaxLenCountsBytes()
    ensures MaxLen(["\U{E9}"]) == 2
  {
    assert "\U{E9}"[..0] == [];
    assert ["\U{E9}"][..0] == [];
  }

  // ---------------------------------------------------------------------------
  // Screen
  // ---------------------------------------------------------------------------

  /** `orig_text.ends_with('\n') || orig_text.is_empty()`: a push starts a
      new line. */
  predicate Clean(s: string)
  {
    s == [] || EndsWith(s, '\n')
  }

  /** The open last line a push continues, if any. */
  function Attachment(s: string): (r: Option<string>)
    ensures r.Some? <==> !Clean(s)
    ensures r.Some? ==> Lines(s) != [] && r.value == Lines(s)[|Lines(s)| - 1]
  {
    LinesEmpty(s);
    if Clean(s) then None else LastLine(s)
  }

  /** The counters of a screen agree with its text and rows: a terminated
      (or empty) text leaves no open rows, the open rows are rows of the
      buffer, and the line count is the number of lines. */
  ghost predicate Tracks(origText: string, rowCount: nat, lineCount: nat, unterminated: nat)
  {
    && (Clean(origText) ==> unterminated == 0)
    && unterminated <= rowCount
    && lineCount == |Lines(origText)|
  }

  /** The text received so far and its formatted rows. */
  class Screen {
    var origText: string
    var formattedLines: seq<string>
    var lineCount: nat
    var maxLineLength: nat
    /** Rows at the end of `formattedLines` that belong to the last line
        while it is not yet terminated by a newline. */
    var unterminated: nat
    var lineWrapping: bool

    ghost predicate Valid()
      reads this
    {
      Tracks(origText, |formattedLines|, lineCount, unterminated)
    }

    /** `Screen::default()`. */
    constructor ()
      ensures Valid()
      ensures origText == [] && formattedLines == [] && lineCount == 0
      ensures maxLineLength == 0 && unterminated == 0 && lineWrapping
    {
      origText := [];
      formattedLines := [];
      lineCount := 0;
      maxLineLength := 0;
      unterminated := 0;
      lineWrapping := true;
      LinesEmpty([]);
    }

    /** `get_formatted_lines_with_bounds`: the window `Common.WithBounds`,
        which `PagerState` and the older `Pager` read their rows through
        too. */
    function GetFormattedLinesWithBounds(start: nat, end: nat): (r: seq<string>)
      reads this
      ensures IsWindow(formattedLines, start, end, r)
    {
      WithBoundsIsWindow(formattedLines, start, end);
      WithBounds(formattedLines, start, end)
    }

    /** `push_screen_buf`, carried out by `PushOnto` on the screen's values. */
    method PushScreenBuf(text: string, lineNumbers: LineNumbers, cols: nat, wrap: Wrapper)
      returns (fr: FormatResult)
      requires Valid()
      modifies this`origText, this`formattedLines, this`lineCount, this`maxLineLength, this`unterminated
      ensures Valid()
      ensures var cfg, attachment := Config(lineNumbers, cols, old(lineWrapping), wrap), Attachment(old(origText));
              fr == BlockReport(text, attachment, old(lineCount), old(|formattedLines|), old(unterminated), cfg)
      ensures origText == old(origText) + text
      ensures formattedLines == PushedRows(old(formattedLines), old(unterminated), text, Attachment(old(origText)),
                                           old(lineCount), Config(lineNumbers, cols, old(lineWrapping), wrap))
      ensures lineCount == old(lineCount) + SatSub(fr.linesFormatted, if Clean(old(origText)) then 0 else 1)
      ensures maxLineLength == Max(old(maxLineLength), fr.maxLineLength)
      ensures unterminated == fr.numUnterminated
    {
      var t, rows, lines, longest, open;
      t, rows, lines, longest, open, fr :=
        PushOnto(origText, formattedLines, lineCount, maxLineLength, unterminated,
                 Config(lineNumbers, cols, lineWrapping, wrap), text);
      origText, formattedLines, lineCount, maxLineLength, unterminated := t, rows, lines, longest, open;
    }
  }

  /** The rows after a push: the rows before the open last line, then the
      block's rows; when the block has no line at all, the rows as they
      were. */
  function PushedRows(formattedLines: seq<string>, unterminated: nat, text: string, attachment: Option<string>,
                      linesCount: nat, cfg: Config): seq<string>
    requires unterminated <= |formattedLines|
  {
    if Lines(ToFormat(text, attachment)) == [] then formattedLines
    else formattedLines[..|formattedLines| - unterminated] + BlockRows(text, attachment, linesCount, cfg)
  }

  /** `push_screen_buf` on the values of a screen: drops the rows of the open
      last line, formats the attached text from there, appends the text and
      updates the counters. Two hand-overs differ from the source: the row
      count given to the formatter is the one before the open rows are
      dropped (the formatter subtracts them itself, see
      `PushRowStartAsWritten`), and the open rows are only dropped when the
      block has a line to put in their place (see `PushAsWritten`). */
  method PushOnto(origText: string, formattedLines: seq<string>, lineCount: nat, maxLineLength: nat,
                  unterminated: nat, cfg: Config, text: string)
    returns (origText': string, formattedLines': seq<string>, lineCount': nat, maxLineLength': nat,
             unterminated': nat, fr: FormatResult)
    requires Tracks(origText, |formattedLines|, lineCount, unterminated)
    ensures Tracks(origText', |formattedLines'|, lineCount', unterminated')
    ensures fr == BlockReport(text, Attachment(origText), lineCount, |formattedLines|, unterminated, cfg)
    ensures origText' == origText + text
    ensures formattedLines' == PushedRows(formattedLines, unterminated, text, Attachment(origText), lineCount, cfg)
    ensures lineCount' == lineCount + SatSub(fr.linesFormatted, if Clean(origText) then 0 else 1)
    ensures maxLineLength' == Max(maxLineLength, fr.maxLineLength)
    ensures unterminated' == fr.numUnterminated
  {
    var clean := Clean(origText);
    var attachment := if clean then None else LastLine(origText);
    assert attachment == Attachment(origText);
    var appended;
    appended, fr := FormatTextBlock(text, attachment, lineCount, |formattedLines|, unterminated, cfg);
    PushKeepsValid(origText, text, lineCount, |formattedLines|, unterminated, cfg, appended, fr);
    if fr.linesFormatted == 0 {
      formattedLines' := formattedLines;
    } else {
      formattedLines' := formattedLines[..|formattedLines| - unterminated] + appended;
    }
    origText' := origText + text;
    lineCount' := lineCount + SatSub(fr.linesFormatted, if clean then 0 else 1);
    maxLineLength' := Max(maxLineLength, fr.maxLineLength);
    unterminated' := fr.numUnterminated;
  }

  /** The facts about one push that keep the screen valid. */
  lemma PushKeepsValid(a: string, b: string, linesCount: nat, rowCount: nat, prevUnterminated: nat,
                       cfg: Config, appended: seq<string>, fr: FormatResult)
    requires Tracks(a, rowCount, linesCount, prevUnterminated)
    requires appended == BlockRows(b, Attachment(a), linesCount, cfg)
    requires fr == BlockReport(b, Attachment(a), linesCount, rowCount, prevUnterminated, cfg)
    ensures fr.linesFormatted == 0 ==> b == [] && appended == [] && fr.numUnterminated == prevUnterminated
    ensures Tracks(a + b, if fr.linesFormatted == 0 then rowCount else rowCount - prevUnterminated + |appended|,
                   linesCount + SatSub(fr.linesFormatted, if Clean(a) then 0 else 1), fr.numUnterminated)
    ensures StartRow(rowCount, prevUnterminated, Attachment(a)) == rowCount - prevUnterminated
  {
    PushKeepsLineCount(a, b);
    var ls := Lines(ToFormat(b, Attachment(a)));
    LinesEmpty(ToFormat(b, Attachment(a)));
    if ls == [] {
      assert a + b == a;
    }
    if ls != [] && !EndsWith(b, '\n') {
      UnterminatedIsLastLine(b, Attachment(a), linesCount, cfg);
    }
    if Clean(a + b) {
      PushCleanEnds(a, b);
    }
  }


  /** The line count the screen keeps is the line count of the whole text:
      a push onto a terminated text adds its lines, a push onto an open line
      adds the lines of the glued text minus the line it continues. */
  lemma PushKeepsLineCount(a: string, b: string)
    ensures |Lines(a + b)|
            == |Lines(a)| + SatSub(|Lines(ToFormat(b, Attachment(a)))|, if Clean(a) then 0 else 1)
  {
    if Clean(a) {
      LinesAppendClean(a, b);
    } else {
      LinesCountAttached(a, b);
    }
  }

  /** A push that leaves the whole text terminated either pushed a
      terminated text with at least one line, or pushed nothing onto a
      terminated text. */
  lemma PushCleanEnds(a: string, b: string)
    requires Clean(a + b)
    ensures b == [] ==> Clean(a) && ToFormat(b, Attachment(a)) == []
    ensures b != [] ==> EndsWith(b, '\n') && Lines(ToFormat(b, Attachment(a))) != []
  {
    if b != [] {
      assert (a + b)[|a + b| - 1] == b[|b| - 1];
      LinesEmpty(ToFormat(b, Attachment(a)));
    } else {
      assert a + b == a;
    }
  }

  /** Line count of a text continued on its open last line. */
  lemma LinesCountAttached(a: string, b: string)
    requires a != [] && !EndsWith(a, '\n')
    ensures Lines(a) != []
    ensures |Lines(a + b)| == |Lines(a)| - 1 + Max(1, |Lines(Lines(a)[|Lines(a)| - 1] + b)|)
  {
    LinesEmpty(a);
    var pa, pb := SplitNl(a), SplitNl(b);
    var last := pa[|pa| - 1];
    LastPieceEnd(a);
    AttachedPieces(a, b);
    var last' := Lines(a)[|Lines(a)| - 1];
    LinesNoNewline(a);
    assert last' == StripCr(last) by {
      assert Terminated(a) == pa;
      StripAllAt(pa);
    }
    PieceCount(last', b);
    GluedCount(last, last', pb);
  }

  lemma AttachedPieces(a: string, b: string)
    requires a != [] && !EndsWith(a, '\n')
    ensures var pa := SplitNl(a);
            && pa[|pa| - 1] != []
            && |Lines(a)| == |pa|
            && |Lines(a + b)| == |pa| - 1 + |DropEmptyLast(Glue([pa[|pa| - 1]], SplitNl(b)))|
  {
    var pa, pb := SplitNl(a), SplitNl(b);
    LastPieceEnd(a);
    assert Terminated(a) == pa;
    SplitNlAppend(a, b);
    GlueLast(pa, pb);
    DropEmptyLastAppend(pa[..|pa| - 1], Glue([pa[|pa| - 1]], pb));
  }

  lemma PieceCount(l: string, b: string)
    requires '\n' !in l
    ensures |Lines(l + b)| == |DropEmptyLast(Glue([l], SplitNl(b)))|
  {
    SplitNlAppend(l, b);
    SplitNlNoNl(l);
  }

  lemma GluedCount(last: string, last': string, pb: seq<string>)
    requires last != [] && |pb| >= 1
    ensures |DropEmptyLast(Glue([last], pb))| == Max(1, |DropEmptyLast(Glue([last'], pb))|)
  {
    var g1, g2 := Glue([last], pb), Glue([last'], pb);
    assert |g1| == |g2| == |pb|;
    if |pb| >= 2 {
      assert g1[|g1| - 1] == pb[|pb| - 1] == g2[|g2| - 1];
    } else {
      assert g1 == [last + pb[0]];
      assert g1[0] != [];
    }
  }

  /** The row index the source hands the formatter for an attached push: the
      open rows are cut off the buffer and then subtracted once more. */
  function PushRowStartAsWritten(rowCount: nat, unterminated: nat): nat
    requires unterminated <= rowCount
  {
    StartRow(rowCount - unterminated, unterminated, Some(""))
  }

  /** With rows ["x", "ab"] where "ab" is the open line (one row), appending
      "c\n" rewrites "abc" at row 1, yet the recorded first row as written
      is 0; the corrected hand-over used by `PushScreenBuf` gives 1. */
  lemma PushRowStartCounterexample()
    ensures PushRowStartAsWritten(2, 1) == 0
    ensures StartRow(2, 1, Some("ab")) == |["x", "ab"][..2 - 1]| == 1
  {
  }

  /** For every attached push, the first row handed over as written lies
      below the row where the rewritten line starts by the open-row count,
      or by all of that row when the open rows are more than the rest. */
  lemma PushRowStartShifted(rowCount: nat, unterminated: nat, attachment: string)
    requires unterminated <= rowCount
    ensures PushRowStartAsWritten(rowCount, unterminated) + Min(unterminated, rowCount - unterminated)
            == StartRow(rowCount, unterminated, Some(attachment))
    ensures 0 < unterminated <= rowCount - unterminated
            ==> PushRowStartAsWritten(rowCount, unterminated) < StartRow(rowCount, unterminated, Some(attachment))
  {
  }

  /** The rows and open-row count a push leaves as the source writes it:
      the open rows are cut before formatting, whether or not the block has
      a line to put in their place. */
  function PushAsWritten(formattedLines: seq<string>, unterminated: nat, appended: seq<string>, fr: FormatResult)
    : (seq<string>, nat)
    requires unterminated <= |formattedLines|
  {
    (formattedLines[..|formattedLines| - unterminated] + appended, fr.numUnterminated)
  }

  /** "\r" is one empty line, left open. Pushing "" onto it reopens that
      line, cuts its rows and formats nothing (the glued text "" has no
      line), yet reports the old open rows again: as written the screen
      is left with more open rows than rows, and the next push underflows
      `formatted_lines.len() - unterminated`. `PushOnto` keeps the rows. */
  lemma PushAsWrittenCounterexample(cfg: Config, rows1: seq<string>, fr1: FormatResult,
                                    rows2: seq<string>, fr2: FormatResult)
    requires rows1 == BlockRows("\r", None, 0, cfg) && fr1 == BlockReport("\r", None, 0, 0, 0, cfg)
    requires rows2 == BlockRows("", Attachment("\r"), fr1.linesFormatted, cfg)
    requires fr2 == BlockReport("", Attachment("\r"), fr1.linesFormatted, |rows1|, fr1.numUnterminated, cfg)
    ensures fr1.linesFormatted == 1 && 1 <= fr1.numUnterminated <= |rows1|
    ensures var (rows, open) := PushAsWritten(rows1, fr1.numUnterminated, rows2, fr2);
            rows == [] && open == fr1.numUnterminated > |rows|
  {
    var cr := "\r";
    assert cr[0] == '\r' && cr[1..] == [];
    assert SplitNl(cr[1..]) == [[]];
    assert SplitNl(cr) == [[cr[0]] + []];
    assert [cr[0]] + [] == cr;
    assert Lines(cr) == [[]];
    var fmt := BlockFormatter(cr, None, 0, cfg);
    assert rows1 == RowsOf([[]], 0, fmt) == fmt([], 0) by {
      RowsOfSingle([], 0, fmt);
    }
    assert Attachment(cr) == Some([]);
    assert ToFormat("", Some([])) == [];
    LinesEmpty([]);
  }
}
