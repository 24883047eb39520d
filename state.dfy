/** The pager state of src/state.rs: the whole text, its formatted rows,
    the rows of the open last line, the line-to-row map and the prompt
    line. Text arrives in fragments through `append_str`; the invariant
    `Shows` says that the rows, the open-row count and the map are always
    those of formatting the whole text at once. */
module PagerStates {
  import opened Common
  import opened Blocks
  import opened LineNumbering
  import opened ScreenText

  // ---------------------------------------------------------------------------
  // The open tail of a text
  // ---------------------------------------------------------------------------

  /** The characters after the last newline: the part of the last line a
      following fragment continues. */
  function OpenPiece(s: string): (r: string)
    ensures |r| <= |s| && '\n' !in r
  {
    if s == [] || s[|s| - 1] == '\n' then [] else OpenPiece(s[..|s| - 1]) + [s[|s| - 1]]
  }

  /** The text up to and including its last newline. */
  function Settled(s: string): string
  {
    s[..|s| - |OpenPiece(s)|]
  }

  /** A text is its settled part followed by its open piece; the settled
      part is empty or ends in a newline, and the open piece is empty
      exactly when the whole text is. */
  lemma {:induction false} SettledSplit(s: string)
    ensures s == Settled(s) + OpenPiece(s)
    ensures Clean(Settled(s))
    ensures OpenPiece(s) == [] <==> Clean(s)
  {
    if s != [] && s[|s| - 1] != '\n' {
      var s' := s[..|s| - 1];
      SettledSplit(s');
      assert Settled(s) == Settled(s');
      assert s == s' + [s[|s| - 1]];
    }
  }

  /** A non-empty piece without a newline is one line, stripped of a
      trailing carriage return. */
  lemma LinesOfPiece(p: string)
    requires p != [] && '\n' !in p
    ensures Lines(p) == [StripCr(p)]
  {
    SplitNlNoNl(p);
    assert Terminated(p) == [p];
    assert StripAll([p]) == [StripCr(p)] + StripAll([]);
  }

  /** The lines of a text are those of its settled part, then its open
      piece as one line. */
  lemma LinesAtOpenPiece(a: string)
    ensures var p := OpenPiece(a);
            Lines(a) == Lines(Settled(a)) + (if p == [] then [] else [StripCr(p)])
  {
    var h, p := Settled(a), OpenPiece(a);
    SettledSplit(a);
    LinesAppendClean(h, p);
    if p == [] {
      LinesEmpty(p);
    } else {
      LinesOfPiece(p);
    }
  }

  /** The lines of a text continued by `b` are those of its settled part,
      then those of its open piece continued by `b`. */
  lemma LinesContinued(a: string, b: string)
    ensures Lines(a + b) == Lines(Settled(a)) + Lines(OpenPiece(a) + b)
  {
    var h, p := Settled(a), OpenPiece(a);
    SettledSplit(a);
    LinesAfterClean(h, p, b);
  }

  lemma LinesAfterClean(h: string, p: string, b: string)
    requires Clean(h)
    ensures Lines(h + p + b) == Lines(h) + Lines(p + b)
  {
    assert h + p + b == h + (p + b);
    LinesAppendClean(h, p + b);
  }

  /** What a fragment continues: nothing after a newline-terminated or
      empty text, else the open piece exactly as it stands. */
  function OpenAttachment(s: string): (r: Option<string>)
    ensures r.Some? <==> !Clean(s)
    ensures r.Some? ==> r.value == OpenPiece(s) && r.value != []
    ensures ToFormat([], r) == OpenPiece(s)
  {
    SettledSplit(s);
    if Clean(s) then None else Some(OpenPiece(s))
  }

  // ---------------------------------------------------------------------------
  // Formatting the whole text at once
  // ---------------------------------------------------------------------------

  /** `n.ilog10() + 1`, or 0 for no line: the gutter width `append_str`
      compares before and after an append. */
  function LenLineNumber(n: nat): (r: nat)
    ensures n > 0 ==> r == Digits(n) && Pow10(r - 1) <= n < Pow10(r)
    ensures n == 0 <==> r == 0
  {
    if n == 0 then 0 else DigitsBounds(n); Digits(n)
  }

  /** The formatter for the whole text: the gutter is as wide as the
      decimal length of the line count. */
  function WholeFormatter(s: string, cfg: Config): LineFormatter
  {
    Formatter(Digits(|Lines(s)|), cfg)
  }

  /** The rows of formatting the whole text from line 0. */
  function WholeRows(s: string, cfg: Config): seq<string>
  {
    RowsOf(Lines(s), 0, WholeFormatter(s, cfg))
  }

  /** The rows of the last line while the text does not end in a newline. */
  function OpenRows(s: string, cfg: Config): nat
  {
    var ls := Lines(s);
    if Clean(s) then 0
    else LinesEmpty(s); |WholeFormatter(s, cfg)(ls[|ls| - 1], |ls| - 1)|
  }

  /** The map with key `first + i` bound to `s[i]`. */
  function MapFrom(first: nat, s: seq<nat>): map<nat, nat>
  {
    map k | first <= k < first + |s| :: Entry(first, s, k)
  }

  function Entry(first: nat, s: seq<nat>, k: nat): nat
    requires first <= k < first + |s|
  {
    s[k - first]
  }

  /** The keys of `MapFrom(first, s)` are `first` up to `first + |s|`, and
      key `first + i` reads `s[i]`. */
  lemma MapFromAt(first: nat, s: seq<nat>)
    ensures forall k :: k in MapFrom(first, s) <==> first <= k < first + |s|
    ensures forall k :: k in MapFrom(first, s) ==> MapFrom(first, s)[k] == s[k - first]
  {
  }

  /** Line `i` mapped to the index of its first row, for the whole text. */
  function WholeMap(s: string, cfg: Config): map<nat, nat>
  {
    MapFrom(0, StartsOf(Lines(s), 0, 0, WholeFormatter(s, cfg)))
  }

  /** The formatted state shows the text: rows, open rows and line map are
      those of formatting the whole text at once. */
  ghost predicate Shows(s: string, rows: seq<string>, unterminated: nat, rowMap: map<nat, nat>, cfg: Config)
  {
    View(rows, unterminated, rowMap) == WholeView(s, cfg)
  }

  /** The rows, the open-row count and the line map of a pager state. */
  datatype View = View(rows: seq<string>, unterminated: nat, rowMap: map<nat, nat>)

  /** The view of a text formatted at once. */
  ghost function WholeView(s: string, cfg: Config): View
  {
    View(WholeRows(s, cfg), OpenRows(s, cfg), WholeMap(s, cfg))
  }

  /** Whether `append_str` reformats everything: the gutter width changes
      and there were lines before. */
  predicate Redraws(prevLineCount: nat, newLineCount: nat)
  {
    LenLineNumber(newLineCount) != LenLineNumber(prevLineCount) && LenLineNumber(prevLineCount) != 0
  }

  // ---------------------------------------------------------------------------
  // Appending keeps the formatting of the whole text
  // ---------------------------------------------------------------------------

  lemma MapFromAppend(first: nat, s: seq<nat>, t: seq<nat>)
    ensures MapFrom(first, s + t) == MapFrom(first, s) + MapFrom(first + |s|, t)
  {
    var l, r := MapFrom(first, s + t), MapFrom(first, s) + MapFrom(first + |s|, t);
    MapFromAt(first, s + t);
    MapFromAt(first, s);
    MapFromAt(first + |s|, t);
    assert forall k :: k in l <==> k in r;
    forall k | k in l
      ensures l[k] == r[k]
    {
      if k >= first + |s| {
        assert (s + t)[k - first] == t[k - (first + |s|)];
      }
    }
  }

  /** Binding a key again keeps only the later binding. */
  lemma MapFromOverwrite(m: map<nat, nat>, first: nat, e: nat, t: seq<nat>)
    requires t != []
    ensures m + MapFrom(first, [e]) + MapFrom(first, t) == m + MapFrom(first, t)
  {
    var l, r := m + MapFrom(first, [e]) + MapFrom(first, t), m + MapFrom(first, t);
    MapFromAt(first, [e]);
    MapFromAt(first, t);
    assert forall k :: k in l <==> k in r;
  }

  /** Continuing lines `lh + open` (`open` the open last line, if any) with
      the lines `lx`: dropping the open line's rows and appending the rows
      of `lx`, numbered from `|lh|`, gives the rows of `lh + lx`. */
  lemma ContinueRows(lh: seq<string>, open: seq<string>, lx: seq<string>, fmt: LineFormatter,
                     rows: seq<string>, unterminated: nat)
    requires |open| <= 1
    requires rows == RowsOf(lh + open, 0, fmt)
    requires unterminated == (if open == [] then 0 else |fmt(open[0], |lh|)|)
    ensures unterminated <= |rows| && |rows| - unterminated == |RowsOf(lh, 0, fmt)|
    ensures rows[..|rows| - unterminated] + RowsOf(lx, |lh|, fmt) == RowsOf(lh + lx, 0, fmt)
  {
    RowsOfAppend(lh, open, 0, fmt);
    if open != [] {
      RowsOfSingle(open[0], |lh|, fmt);
    } else {
      assert RowsOf(open, |lh|, fmt) == [];
    }
    assert rows[..|rows| - unterminated] == RowsOf(lh, 0, fmt);
    RowsOfAppend(lh, lx, 0, fmt);
  }

  /** The same continuation on the line map: the open line's entry is
      overwritten by the first entry of `lx`. */
  lemma ContinueMap(lh: seq<string>, open: seq<string>, lx: seq<string>, fmt: LineFormatter,
                    rowMap: map<nat, nat>)
    requires |open| <= 1 && (open != [] ==> lx != [])
    requires rowMap == MapFrom(0, StartsOf(lh + open, 0, 0, fmt))
    ensures rowMap + MapFrom(|lh|, StartsOf(lx, |lh|, |RowsOf(lh, 0, fmt)|, fmt))
            == MapFrom(0, StartsOf(lh + lx, 0, 0, fmt))
  {
    var start := |RowsOf(lh, 0, fmt)|;
    var sh, so, sx := StartsOf(lh, 0, 0, fmt), StartsOf(open, |lh|, start, fmt), StartsOf(lx, |lh|, start, fmt);
    assert StartsOf(lh + lx, 0, 0, fmt) == sh + sx by {
      StartsOfAppend(lh, lx, 0, 0, fmt);
    }
    assert rowMap == MapFrom(0, sh + so) by {
      StartsOfAppend(lh, open, 0, 0, fmt);
    }
    MapContinue(sh, so, sx, rowMap);
    assert |sh| == |lh|;
  }

  /** Entries `sh + so` continued by `sx`, where `sx` rebinds the key of the
      one entry of `so`, if any. */
  lemma MapContinue(sh: seq<nat>, so: seq<nat>, sx: seq<nat>, rowMap: map<nat, nat>)
    requires |so| <= 1 && (so != [] ==> sx != [])
    requires rowMap == MapFrom(0, sh + so)
    ensures rowMap + MapFrom(|sh|, sx) == MapFrom(0, sh + sx)
  {
    var m := MapFrom(0, sh);
    if so != [] {
      calc {
        rowMap + MapFrom(|sh|, sx);
        { MapFromAppend(0, sh, so); assert so == [so[0]]; }
        m + MapFrom(|sh|, [so[0]]) + MapFrom(|sh|, sx);
        { MapFromOverwrite(m, |sh|, so[0], sx); }
        m + MapFrom(|sh|, sx);
        { MapFromAppend(0, sh, sx); }
        MapFrom(0, sh + sx);
      }
    } else {
      assert sh + so == sh;
      MapFromAppend(0, sh, sx);
    }
  }

  /** How a fragment `b` lands after the text `a`: the text formatted is
      the open piece continued by `b`, its lines are numbered from the
      settled lines on, and they end where the lines of the whole new text
      end. */
  lemma AppendText(a: string, b: string)
    ensures var att, lc := OpenAttachment(a), |Lines(a)|;
            && ToFormat(b, att) == OpenPiece(a) + b
            && StartLine(lc, att) == |Lines(Settled(a))|
            && StartLine(lc, att) + |Lines(ToFormat(b, att))| == |Lines(a + b)|
  {
    var att := OpenAttachment(a);
    SettledSplit(a);
    LinesAtOpenPiece(a);
    LinesContinued(a, b);
    if att.None? {
      assert OpenPiece(a) + b == b;
    }
  }

  /** The block's gutter is that of the whole new text. */
  lemma AppendShape(a: string, b: string, cfg: Config)
    ensures var att, lc := OpenAttachment(a), |Lines(a)|;
            && ToFormat(b, att) == OpenPiece(a) + b
            && StartLine(lc, att) == |Lines(Settled(a))|
            && BlockFormatter(b, att, lc, cfg) == WholeFormatter(a + b, cfg)
  {
    AppendText(a, b);
  }

  /** Without a redraw the whole text keeps its gutter width, so the rows
      already shown are formatted as the new whole text would format them. */
  lemma KeptFormatter(a: string, b: string, cfg: Config)
    requires a != [] && !Redraws(|Lines(a)|, |Lines(a + b)|)
    ensures WholeFormatter(a, cfg) == WholeFormatter(a + b, cfg)
  {
    LinesEmpty(a);
    LinesEmpty(a + b);
    assert a + b != [] by {
      assert |a + b| >= |a|;
    }
  }

  /** Whether the text is terminated after an append: it stays as it was
      when nothing at all is formatted, it is terminated when the fragment
      ends in a newline, and open otherwise. */
  lemma CleanAfter(a: string, b: string)
    ensures OpenPiece(a) + b == [] ==> a + b == a && Clean(a)
    ensures EndsWith(b, '\n') ==> Clean(a + b)
    ensures OpenPiece(a) + b != [] && !EndsWith(b, '\n') ==> !Clean(a + b)
  {
    SettledSplit(a);
    var ab := a + b;
    if b == [] {
      assert ab == a;
    } else {
      assert ab[|ab| - 1] == b[|b| - 1];
    }
  }

  /** The open rows `format_text_block` reports, read off the block. */
  lemma BlockOpenRows(text: string, att: Option<string>, lc: nat, rowCount: nat, u: nat, cfg: Config)
    ensures var ls := Lines(ToFormat(text, att));
            BlockReport(text, att, lc, rowCount, u, cfg).numUnterminated
            == if ls == [] then u
               else if EndsWith(text, '\n') then 0
               else |BlockFormatter(text, att, lc, cfg)(ls[|ls| - 1], StartLine(lc, att) + |ls| - 1)|
  {
  }

  /** The rows left open after an append are those of the whole new text. */
  lemma AppendOpenRows(a: string, b: string, rowCount: nat, cfg: Config)
    ensures var att, lc := OpenAttachment(a), |Lines(a)|;
            BlockReport(b, att, lc, rowCount, OpenRows(a, cfg), cfg).numUnterminated == OpenRows(a + b, cfg)
  {
    var att, lc := OpenAttachment(a), |Lines(a)|;
    var lh, lx := Lines(Settled(a)), Lines(OpenPiece(a) + b);
    AppendShape(a, b, cfg);
    LinesContinued(a, b);
    CleanAfter(a, b);
    LinesEmpty(OpenPiece(a) + b);
    BlockOpenRows(b, att, lc, rowCount, OpenRows(a, cfg), cfg);
    if lx != [] {
      LastOfAppend(lh, lx);
    }
  }

  lemma LastOfAppend(lh: seq<string>, lx: seq<string>)
    requires lx != []
    ensures var l := lh + lx; l[|l| - 1] == lx[|lx| - 1] && |l| - 1 == |lh| + |lx| - 1
  {
  }

  /** The open line of a text as a list of at most one line. */
  function OpenLine(a: string): (r: seq<string>)
    ensures |r| <= 1
  {
    var p := OpenPiece(a);
    if p == [] then [] else [StripCr(p)]
  }

  /** A shown text, read in terms of its settled lines, its open line and
      the formatter of the text after an append that does not redraw. */
  lemma ShownBeforeAppend(a: string, b: string, rows: seq<string>, u: nat, m: map<nat, nat>, cfg: Config)
    requires Shows(a, rows, u, m, cfg)
    requires !Redraws(|Lines(a)|, |Lines(a + b)|)
    ensures var lh, open, f := Lines(Settled(a)), OpenLine(a), WholeFormatter(a + b, cfg);
            && rows == RowsOf(lh + open, 0, f)
            && m == MapFrom(0, StartsOf(lh + open, 0, 0, f))
            && u == (if open == [] then 0 else |f(open[0], |lh|)|)
  {
    var lh, open := Lines(Settled(a)), OpenLine(a);
    LinesAtOpenPiece(a);
    SettledSplit(a);
    if a == [] {
      LinesEmpty(a);
      assert lh + open == [];
    } else {
      KeptFormatter(a, b, cfg);
      if open != [] {
        LastOfAppend(lh, open);
      }
    }
  }

  /** Without a redraw, dropping the open rows and appending the block's
      rows gives the rows of the whole new text. */
  lemma AppendKeepsRows(a: string, b: string, rows: seq<string>, u: nat, m: map<nat, nat>, cfg: Config)
    requires Shows(a, rows, u, m, cfg)
    requires !Redraws(|Lines(a)|, |Lines(a + b)|)
    ensures u <= |rows|
    ensures rows[..|rows| - u] + BlockRows(b, OpenAttachment(a), |Lines(a)|, cfg) == WholeRows(a + b, cfg)
  {
    var lh, open, lx := Lines(Settled(a)), OpenLine(a), Lines(OpenPiece(a) + b);
    ShownBeforeAppend(a, b, rows, u, m, cfg);
    LinesContinued(a, b);
    AppendShape(a, b, cfg);
    ContinueRows(lh, open, lx, WholeFormatter(a + b, cfg), rows, u);
  }

  /** Without a redraw, extending the map with the block's entries gives
      the map of the whole new text. */
  lemma AppendKeepsMap(a: string, b: string, rows: seq<string>, u: nat, m: map<nat, nat>, cfg: Config)
    requires Shows(a, rows, u, m, cfg)
    requires !Redraws(|Lines(a)|, |Lines(a + b)|)
    ensures var att, lc := OpenAttachment(a), |Lines(a)|;
            m + MapFrom(StartLine(lc, att), BlockReport(b, att, lc, |rows|, u, cfg).linesToRowMap) == WholeMap(a + b, cfg)
  {
    var att, lc := OpenAttachment(a), |Lines(a)|;
    AppendKeepsStarts(a, b, rows, u, m, cfg);
    BlockReportMap(b, att, lc, |rows|, u, cfg);
  }

  /** `AppendKeepsMap` stated over the row starts of the block. */
  lemma AppendKeepsStarts(a: string, b: string, rows: seq<string>, u: nat, m: map<nat, nat>, cfg: Config)
    requires Shows(a, rows, u, m, cfg)
    requires !Redraws(|Lines(a)|, |Lines(a + b)|)
    ensures var att, lc := OpenAttachment(a), |Lines(a)|;
            m + MapFrom(StartLine(lc, att), StartsOf(Lines(ToFormat(b, att)), StartLine(lc, att),
                                                     StartRow(|rows|, u, att), BlockFormatter(b, att, lc, cfg)))
            == WholeMap(a + b, cfg)
  {
    var lh, open, lx := Lines(Settled(a)), OpenLine(a), Lines(OpenPiece(a) + b);
    ShownBeforeAppend(a, b, rows, u, m, cfg);
    LinesContinued(a, b);
    AppendShape(a, b, cfg);
    LinesEmpty(OpenPiece(a) + b);
    ContinueRows(lh, open, lx, WholeFormatter(a + b, cfg), rows, u);
    ContinueMap(lh, open, lx, WholeFormatter(a + b, cfg), m);
  }

  /** Appending a fragment without a redraw keeps the state showing the
      whole text: dropping the open rows and appending the block's rows,
      taking the block's open-row count and extending the map with the
      block's entries give exactly the formatting of the whole new text.
      This is what makes appending in fragments equal to formatting the
      concatenation at once. */
  lemma AppendKeepsShows(a: string, b: string, rows: seq<string>, u: nat, m: map<nat, nat>, cfg: Config)
    requires Shows(a, rows, u, m, cfg)
    requires !Redraws(|Lines(a)|, |Lines(a + b)|)
    ensures var att, lc := OpenAttachment(a), |Lines(a)|;
            var fr := BlockReport(b, att, lc, |rows|, u, cfg);
            && u <= |rows|
            && Shows(a + b, rows[..|rows| - u] + BlockRows(b, att, lc, cfg), fr.numUnterminated,
                     m + MapFrom(StartLine(lc, att), fr.linesToRowMap), cfg)
  {
    AppendKeepsRows(a, b, rows, u, m, cfg);
    AppendKeepsMap(a, b, rows, u, m, cfg);
    AppendOpenRows(a, b, |rows|, cfg);
  }

  /** Reformatting the whole text from line 0 and row 0, as `format_lines`
      does, shows it, provided a text without lines had no open rows. */
  lemma FormatAllShows(s: string, u: nat, cfg: Config)
    requires s != [] || u == 0
    ensures var fr := BlockReport(s, None, 0, 0, u, cfg);
            Shows(s, BlockRows(s, None, 0, cfg), fr.numUnterminated, MapFrom(0, fr.linesToRowMap), cfg)
  {
    var ls := Lines(s);
    LinesEmpty(s);
    if ls != [] {
      RowsOfLast(ls, 0, WholeFormatter(s, cfg));
    }
  }

  /** The gutter width `append_str` hands to the formatter, the decimal
      length of the new line count, is the width of the block's gutter
      whenever the block has lines to format. */
  lemma BlockGutterIsNewWidth(a: string, b: string)
    requires Lines(ToFormat(b, OpenAttachment(a))) != []
    ensures BlockDigits(b, OpenAttachment(a), |Lines(a)|) == LenLineNumber(|Lines(a + b)|)
  {
    AppendText(a, b);
  }

  /** The empty text is shown by no rows, no open rows and an empty map. */
  lemma ShowsEmpty(cfg: Config)
    ensures Shows([], [], 0, map[], cfg)
  {
    LinesEmpty([]);
    MapFromAt(0, []);
  }

  // ---------------------------------------------------------------------------
  // The attachment as written
  // ---------------------------------------------------------------------------

  /** The attachment `append_str` computes as written: the last item of
      `lines()`, which drops a bare '\r' at the end of the text. */
  function AttachmentAsWritten(s: string): (r: Option<string>)
    ensures r.Some? <==> !Clean(s)
  {
    Attachment(s)
  }

  /** After "a\r", appending "b" formats the line "ab" as written, while the
      line of the whole text is "a\rb"; the open piece "a\r" gives that
      line. */
  lemma AttachmentAsWrittenCounterexample()
    ensures AttachmentAsWritten("a\r") == Some("a")
    ensures Lines(ToFormat("b", AttachmentAsWritten("a\r"))) == ["ab"]
    ensures Lines("a\r" + "b") == ["a\rb"]
    ensures Lines(ToFormat("b", OpenAttachment("a\r"))) == ["a\rb"]
  {
    assert '\n' !in "a\r" && '\n' !in "ab" && '\n' !in "a\rb";
    LinesOfPiece("a\r");
    LinesOfPiece("ab");
    LinesOfPiece("a\rb");
    assert StripCr("a\r") == "a";
    assert "a" + "b" == "ab" && "a\r" + "b" == "a\rb";
    assert OpenPiece("a") == "a";
    assert OpenPiece("a\r") == "a\r";
  }

  // ---------------------------------------------------------------------------
  // The prompt line
  // ---------------------------------------------------------------------------

  const ESC: char := '\U{1B}'
  /** Colour escape in front of the search indicator. */
  const SEARCH_BG: string := [ESC] + "[34m"
  /** Colour escape in front of the typed count prefix. */
  const INPUT_BG: string := [ESC] + "[33m"

  /** " mark/matches " for the match in focus, empty when nothing matched. */
  function SearchIndicator(matches: nat, mark: nat): (r: string)
    ensures r == [] <==> matches == 0
    ensures r != [] ==> r[0] == ' ' && r[|r| - 1] == ' '
  {
    if matches == 0 then [] else " " + NatToString(mark + 1) + "/" + NatToString(matches) + " "
  }

  /** " prefix " for the typed count, empty when nothing was typed. */
  function PrefixIndicator(prefixNum: string): (r: string)
    ensures r == [] <==> prefixNum == []
    ensures r != [] ==> |r| == |prefixNum| + 2 && r[1..|r| - 1] == prefixNum
  {
    if prefixNum == [] then [] else " " + prefixNum + " "
  }

  /** The message shown instead of the prompt while there is one. */
  function PromptText(prompt: string, message: Option<string>): (r: string)
    ensures message.Some? ==> r == message.value
    ensures message.None? ==> r == prompt
  {
    match message
    case Some(m) => m
    case None => prompt
  }

  /** The coloured indicators at the right of the prompt line. */
  function Indicators(search: string, prefix: string): string
  {
    (if prefix == [] then [] else INPUT_BG + prefix) + (if search == [] then [] else SEARCH_BG + search)
  }

  /** The prompt line `format_prompt` builds: the text, cut to the room the
      indicators leave or padded with blanks up to it, then the indicators.
      When the indicators alone are wider than the terminal the cut
      underflows and panics. */
  function DisplayedPrompt(text: string, search: string, prefix: string, cols: nat): (r: Result<string>)
    ensures r.Panic? <==> cols < |search| + |prefix|
  {
    var extra := SatSub(cols, |search| + |prefix| + |text|);
    if extra == 0 && cols < |search| + |prefix| then Panic
    else
      var shown := if extra == 0 then text[..cols - |search| - |prefix|] else text;
      Ok(shown + Spaces(extra) + Indicators(search, prefix))
  }

  /** The prompt line of a pager whose prompt, message, match count,
      match in focus, typed count and width are these. */
  function PromptOf(prompt: string, message: Option<string>, matches: nat, mark: nat, prefixNum: string,
                    cols: nat): (r: Result<string>)
    ensures r.Panic? <==> cols < |SearchIndicator(matches, mark)| + |PrefixIndicator(prefixNum)|
  {
    DisplayedPrompt(PromptText(prompt, message), SearchIndicator(matches, mark), PrefixIndicator(prefixNum), cols)
  }

  /** The prompt line is exactly as wide as the terminal once the colour
      escapes are set aside: it starts with as much of the text as fits in
      the room the indicators leave, fills the rest of that room with
      blanks and ends with the indicators. */
  lemma PromptLayout(text: string, search: string, prefix: string, cols: nat)
    requires |search| + |prefix| <= cols
    ensures var r := DisplayedPrompt(text, search, prefix, cols).value;
            var room := cols - |search| - |prefix|;
            var shown := Min(|text|, room);
            && |r| == cols + (if prefix == [] then 0 else |INPUT_BG|) + (if search == [] then 0 else |SEARCH_BG|)
            && r[..shown] == text[..shown]
            && (forall i :: shown <= i < room ==> r[i] == ' ')
            && r[room..] == Indicators(search, prefix)
  {
    var extra := SatSub(cols, |search| + |prefix| + |text|);
    var room := cols - |search| - |prefix|;
    var shown := if extra == 0 then text[..room] else text;
    var r := shown + Spaces(extra) + Indicators(search, prefix);
    assert |shown| + extra == room;
    SpacesBlank(extra);
    assert forall i :: |shown| <= i < room ==> r[i] == Spaces(extra)[i - |shown|];
    assert r[room..] == Indicators(search, prefix);
    assert r[..|shown|] == shown;
  }

  /** The body of `format_prompt` on the values it reads; `ok` is false
      where the source panics. */
  method BuildPrompt(prompt: string, message: Option<string>, matches: nat, mark: nat, prefixNum: string,
                     cols: nat)
    returns (ok: bool, line: string)
    ensures var d := PromptOf(prompt, message, matches, mark, prefixNum, cols);
            && (ok <==> d.Ok?)
            && (ok ==> line == d.value)
  {
    var searchStr := [];
    if matches != 0 {
      searchStr := " " + NatToString(mark + 1) + "/" + NatToString(matches) + " ";
    }
    var prefixStr := [];
    if prefixNum != [] {
      prefixStr := " " + prefixNum + " ";
    }
    var promptStr := if message.Some? then message.value else prompt;
    assert searchStr == SearchIndicator(matches, mark) && prefixStr == PrefixIndicator(prefixNum);
    assert promptStr == PromptText(prompt, message);
    var searchLen, prefixLen := |searchStr|, |prefixStr|;
    var extraSpace := SatSub(cols, searchLen + prefixLen + |promptStr|);
    if extraSpace == 0 && cols < searchLen + prefixLen {
      return false, [];
    }
    var dspPrompt := if extraSpace == 0 then promptStr[..cols - searchLen - prefixLen] else promptStr;
    var indicators := [];
    if prefixLen > 0 {
      indicators := INPUT_BG + prefixStr;
    }
    if searchLen > 0 {
      indicators := indicators + (SEARCH_BG + searchStr);
    }
    assert indicators == Indicators(searchStr, prefixStr);
    line := dspPrompt + Spaces(extraSpace) + indicators;
    assert DisplayedPrompt(promptStr, searchStr, prefixStr, cols) == Ok(line);
    ok := true;
  }

  /** The view `format_lines` computes: the whole text formatted from
      line 0 and row 0. A text without lines keeps the open-row count. */
  function Reformatted(text: string, unterminated: nat, cfg: Config): View
  {
    var fr := BlockReport(text, None, 0, 0, unterminated, cfg);
    View(BlockRows(text, None, 0, cfg), fr.numUnterminated, MapFrom(0, fr.linesToRowMap))
  }

  /** `format_lines` on the values it reads and writes, without the
      prompt. */
  method FormatAll(text: string, unterminated: nat, cfg: Config) returns (v: View)
    ensures v == Reformatted(text, unterminated, cfg)
  {
    var rows, fr := FormatTextBlock(text, None, 0, 0, unterminated, cfg);
    v := View(rows, fr.numUnterminated, MapFrom(0, fr.linesToRowMap));
  }

  /** Reformatting shows the text, provided a text without lines had no
      open rows. */
  lemma ReformattedShows(text: string, unterminated: nat, cfg: Config)
    requires text != [] || unterminated == 0
    ensures Reformatted(text, unterminated, cfg) == WholeView(text, cfg)
  {
    FormatAllShows(text, unterminated, cfg);
  }

  /** What `append_str` returns and leaves behind. */
  datatype AppendOutcome = AppendOutcome(style: Result<AppendStyle>, view: View)

  /** `append_str` on the text `lines` and the view `v` (without the prompt
      a full redraw rebuilds): a full redraw when the gutter gets wider
      after there were lines, else the open rows replaced by the block's
      rows, or `Panic` where dropping the open rows underflows. The map is
      extended with the block's entries before the paths part. */
  function AppendView(lines: string, v: View, cfg: Config, text: string): (r: AppendOutcome)
    ensures Redraws(|Lines(lines)|, |Lines(lines + text)|) ==>
              r == AppendOutcome(Ok(FullRedraw), Reformatted(lines + text, v.unterminated, cfg))
    ensures !Redraws(|Lines(lines)|, |Lines(lines + text)|) ==>
              && (r.style.Panic? <==> v.unterminated > |v.rows|)
              && (r.style.Ok? ==> r.style.value.PartialUpdate? && r.view.rows == v.rows[..|v.rows| - v.unterminated] + r.style.value.rows)
  {
    var att, lc := OpenAttachment(lines), |Lines(lines)|;
    var fr := BlockReport(text, att, lc, |v.rows|, v.unterminated, cfg);
    var rowMap := v.rowMap + MapFrom(StartLine(lc, att), fr.linesToRowMap);
    if Redraws(lc, |Lines(lines + text)|) then
      AppendOutcome(Ok(FullRedraw), Reformatted(lines + text, v.unterminated, cfg))
    else if v.unterminated > |v.rows| then
      AppendOutcome(Panic, View(v.rows, v.unterminated, rowMap))
    else
      var block := BlockRows(text, att, lc, cfg);
      AppendOutcome(Ok(PartialUpdate(block)),
                    View(v.rows[..|v.rows| - v.unterminated] + block, fr.numUnterminated, rowMap))
  }

  /** From a view that shows its text, `append_str` never panics on the
      rows, and the view it leaves shows the new text: appending fragments
      one by one gives the rows, open-row count and map of formatting their
      concatenation at once. */
  lemma AppendViewKeepsShows(lines: string, v: View, cfg: Config, text: string)
    requires v == WholeView(lines, cfg)
    ensures var r := AppendView(lines, v, cfg, text);
            r.style.Ok? && r.view == WholeView(lines + text, cfg)
  {
    if Redraws(|Lines(lines)|, |Lines(lines + text)|) {
      AppendViewRedraws(lines, v, cfg, text);
    } else {
      AppendViewContinues(lines, v, cfg, text);
    }
  }

  /** `AppendViewKeepsShows` when the gutter width changes. */
  lemma AppendViewRedraws(lines: string, v: View, cfg: Config, text: string)
    requires v == WholeView(lines, cfg)
    requires Redraws(|Lines(lines)|, |Lines(lines + text)|)
    ensures var r := AppendView(lines, v, cfg, text);
            r.style.Ok? && r.view == WholeView(lines + text, cfg)
  {
    LinesEmpty(lines);
    ReformattedShows(lines + text, v.unterminated, cfg);
  }

  /** `AppendViewKeepsShows` when the block is appended to the kept rows. */
  lemma AppendViewContinues(lines: string, v: View, cfg: Config, text: string)
    requires v == WholeView(lines, cfg)
    requires !Redraws(|Lines(lines)|, |Lines(lines + text)|)
    ensures var r := AppendView(lines, v, cfg, text);
            r.style.Ok? && r.view == WholeView(lines + text, cfg)
  {
    AppendKeepsShows(lines, text, v.rows, v.unterminated, v.rowMap, cfg);
    AppendViewKept(lines, v, cfg, text);
  }

  /** Without a redraw and with the open rows inside the buffer, the view
      after the append keeps the settled rows and adds the block's. */
  lemma AppendViewKept(lines: string, v: View, cfg: Config, text: string)
    requires !Redraws(|Lines(lines)|, |Lines(lines + text)|)
    requires v.unterminated <= |v.rows|
    ensures var att, lc := OpenAttachment(lines), |Lines(lines)|;
            var fr := BlockReport(text, att, lc, |v.rows|, v.unterminated, cfg);
            var block := BlockRows(text, att, lc, cfg);
            AppendView(lines, v, cfg, text)
            == AppendOutcome(Ok(PartialUpdate(block)),
                             View(v.rows[..|v.rows| - v.unterminated] + block, fr.numUnterminated,
                                  v.rowMap + MapFrom(StartLine(lc, att), fr.linesToRowMap)))
  {
  }

  /** Without a redraw and with more open rows than rows, the append panics
      after extending the map. */
  lemma AppendViewPanics(lines: string, v: View, cfg: Config, text: string)
    requires !Redraws(|Lines(lines)|, |Lines(lines + text)|)
    requires v.unterminated > |v.rows|
    ensures var att, lc := OpenAttachment(lines), |Lines(lines)|;
            var fr := BlockReport(text, att, lc, |v.rows|, v.unterminated, cfg);
            AppendView(lines, v, cfg, text)
            == AppendOutcome(Panic, View(v.rows, v.unterminated, v.rowMap + MapFrom(StartLine(lc, att), fr.linesToRowMap)))
  {
  }

  /** `append_str` on the values it reads and writes, step by step as the
      source does it. */
  method AppendOnto(lines: string, v: View, cfg: Config, text: string)
    returns (r: Result<AppendStyle>, lines': string, v': View)
    ensures lines' == lines + text
    ensures AppendOutcome(r, v') == AppendView(lines, v, cfg, text)
  {
    var append := EndsWith(lines, '\n') || lines == [];
    var attachment := if append then None else Some(OpenPiece(lines));
    assert attachment == OpenAttachment(lines);
    var prevLineCount := |Lines(lines)|;
    var oldLenLineNumber := LenLineNumber(prevLineCount);
    lines' := lines + text;
    var newLineCount := |Lines(lines')|;
    var newLenLineNumber := LenLineNumber(newLineCount);
    var fmtLine, fr := FormatTextBlock(text, attachment, prevLineCount, |v.rows|, v.unterminated, cfg);
    var rowMap := v.rowMap + MapFrom(StartLine(prevLineCount, attachment), fr.linesToRowMap);
    if newLenLineNumber != oldLenLineNumber && oldLenLineNumber != 0 {
      v' := FormatAll(lines', v.unterminated, cfg);
      return Ok(FullRedraw), lines', v';
    }
    if v.unterminated > |v.rows| {
      AppendViewPanics(lines, v, cfg, text);
      return Panic, lines', View(v.rows, v.unterminated, rowMap);
    }
    var rows := v.rows[..|v.rows| - v.unterminated] + fmtLine;
    v' := View(rows, fr.numUnterminated, rowMap);
    r := Ok(PartialUpdate(fmtLine));
    AppendViewKept(lines, v, cfg, text);
  }

  // ---------------------------------------------------------------------------
  // PagerState
  // ---------------------------------------------------------------------------

  /** The prompt step of `append_str`: after a full redraw the prompt is
      laid out again, and a prompt that does not fit turns the redraw into
      a panic; after a partial update the displayed prompt is kept. */
  function AfterRedraw(style: Result<AppendStyle>, p: Result<string>, shown: string): (Result<AppendStyle>, string)
  {
    if style == Ok(FullRedraw) then
      match p
      case Panic => (Panic, shown)
      case Ok(line) => (style, line)
    else (style, shown)
  }

  /** The prompt step of `append_str` on the values it reads. */
  method PromptAfter(style: Result<AppendStyle>, prompt: string, message: Option<string>, matches: nat,
                     mark: nat, prefixNum: string, cols: nat, shown: string)
    returns (r: Result<AppendStyle>, displayed: string)
    ensures (r, displayed) == AfterRedraw(style, PromptOf(prompt, message, matches, mark, prefixNum, cols), shown)
  {
    r, displayed := style, shown;
    if style == Ok(FullRedraw) {
      var ok, line := BuildPrompt(prompt, message, matches, mark, prefixNum, cols);
      if !ok {
        r := Panic;
      } else {
        displayed := line;
      }
    }
  }

  /** How the screen has to be brought up to date after an append. */
  datatype AppendStyle = FullRedraw | PartialUpdate(rows: seq<string>)

  /** The state of the pager. The terminal size, the prompt and the wrapping
      function are given to the constructor; the search term, the exit
      strategy, the input classifier and the exit callbacks are not part of
      this model. */
  class PagerState {
    /** The whole text received so far. */
    var lines: string
    var formattedLines: seq<string>
    var lineNumbers: LineNumbers
    /** Rows at the end of `formattedLines` that belong to the last line
        while it is not yet terminated by a newline. */
    var unterminated: nat
    var prompt: string
    var message: Option<string>
    var displayedPrompt: string
    var upperMark: nat
    /** Lines with a search match, in ascending order (a `BTreeSet`). */
    var searchIdx: seq<nat>
    /** Index of the match in focus. */
    var searchMark: nat
    var rows: nat
    var cols: nat
    /** Digits typed before a movement key. */
    var prefixNum: string
    /** Line number to the index of its first row in `formattedLines`. */
    var linesToRowMap: map<nat, nat>
    /** `textwrap::wrap`. */
    const wrap: Wrapper

    /** The rows, the open-row count and the line map are those of
        formatting the whole text at once. */
    ghost predicate Valid()
      reads this`lines, this`formattedLines, this`unterminated, this`linesToRowMap, this`lineNumbers, this`cols
    {
      View(formattedLines, unterminated, linesToRowMap) == WholeView(lines, Config(lineNumbers, cols, true, wrap))
    }

    /** `PagerState::new`, with the terminal size and the prompt given. */
    constructor (rows: nat, cols: nat, prompt: string, wrap: Wrapper)
      ensures Valid()
      ensures lines == [] && formattedLines == [] && unterminated == 0 && linesToRowMap == map[]
      ensures lineNumbers == Disabled && upperMark == 0 && message == None
      ensures searchIdx == [] && searchMark == 0 && prefixNum == []
      ensures this.rows == rows && this.cols == cols && this.prompt == prompt && this.wrap == wrap
      ensures PromptOf(prompt, None, 0, 0, [], cols) == Ok(displayedPrompt)
    {
      this.lines := [];
      this.formattedLines := [];
      this.lineNumbers := Disabled;
      this.unterminated := 0;
      this.prompt := prompt;
      this.message := None;
      this.upperMark := 0;
      this.searchIdx := [];
      this.searchMark := 0;
      this.rows := rows;
      this.cols := cols;
      this.prefixNum := [];
      this.linesToRowMap := map[];
      this.wrap := wrap;
      ShowsEmpty(Config(Disabled, cols, true, wrap));
      var ok, line := BuildPrompt(prompt, None, 0, 0, [], cols);
      this.displayedPrompt := line;
    }

    /** `num_lines`: the number of rows. */
    function NumLines(): (r: nat)
      reads this`formattedLines
      ensures r == |formattedLines|
    {
      |formattedLines|
    }

    /** `get_formatted_lines_with_bounds`: the rows from `start` up to
        `end`, clipped to the rows there are. */
    function GetFormattedLinesWithBounds(start: nat, end: nat): (r: seq<string>)
      reads this`formattedLines
      ensures IsWindow(formattedLines, start, end, r)
    {
      WithBoundsIsWindow(formattedLines, start, end);
      if start >= NumLines() || start > end then []
      else if end >= NumLines() then formattedLines[start..]
      else formattedLines[start..end]
    }

    /** `format_prompt`; `ok` is false where the source panics. */
    method FormatPrompt() returns (ok: bool)
      modifies this`displayedPrompt
      ensures var p := PromptOf(prompt, message, |searchIdx|, searchMark, prefixNum, cols);
              && (ok <==> p.Ok?)
              && (ok ==> displayedPrompt == p.value)
              && (!ok ==> displayedPrompt == old(displayedPrompt))
    {
      var line;
      ok, line := BuildPrompt(prompt, message, |searchIdx|, searchMark, prefixNum, cols);
      if ok {
        displayedPrompt := line;
      }
    }

    /** `format_lines`: formats the whole text again from line 0 and row 0
        and rebuilds the prompt. */
    method FormatLines() returns (ok: bool)
      modifies this`formattedLines, this`linesToRowMap, this`unterminated, this`displayedPrompt
      ensures View(formattedLines, unterminated, linesToRowMap)
              == Reformatted(lines, old(unterminated), Config(lineNumbers, cols, true, wrap))
      ensures lines != [] || old(unterminated) == 0 ==> Valid()
      ensures var p := old(PromptOf(prompt, message, |searchIdx|, searchMark, prefixNum, cols));
              && (ok <==> p.Ok?)
              && (ok ==> displayedPrompt == p.value)
              && (!ok ==> displayedPrompt == old(displayedPrompt))
    {
      var cfg := Config(lineNumbers, cols, true, wrap);
      var v := FormatAll(lines, unterminated, cfg);
      if lines != [] || unterminated == 0 {
        ReformattedShows(lines, unterminated, cfg);
      }
      var line;
      ok, line := BuildPrompt(prompt, message, |searchIdx|, searchMark, prefixNum, cols);
      formattedLines, unterminated, linesToRowMap := v.rows, v.unterminated, v.rowMap;
      if ok {
        displayedPrompt := line;
      }
      assert lines == old(lines) && Config(lineNumbers, cols, true, wrap) == cfg;
      assert View(formattedLines, unterminated, linesToRowMap) == v;
    }

    /** `append_str`: appends the text, formats it continuing the open last
        line, and either reformats everything and rebuilds the prompt (the
        gutter got wider) or replaces the open rows with the block's rows.
        The attachment is the open piece of the text as it is (see
        `AttachmentAsWritten`). */
    method AppendStr(text: string) returns (r: Result<AppendStyle>)
      modifies this`lines, this`formattedLines, this`linesToRowMap, this`unterminated, this`displayedPrompt
      ensures var out := AppendView(old(lines), old(View(formattedLines, unterminated, linesToRowMap)),
                                    old(Config(lineNumbers, cols, true, wrap)), text);
              var p := old(PromptOf(prompt, message, |searchIdx|, searchMark, prefixNum, cols));
              && View(formattedLines, unterminated, linesToRowMap) == out.view
              && (r, displayedPrompt) == AfterRedraw(out.style, p, old(displayedPrompt))
      ensures lines == old(lines) + text
      ensures old(Valid()) ==>
                && AppendView(old(lines), old(View(formattedLines, unterminated, linesToRowMap)),
                              old(Config(lineNumbers, cols, true, wrap)), text).style.Ok?
                && Valid()
    {
      var cfg := Config(lineNumbers, cols, true, wrap);
      var v := View(formattedLines, unterminated, linesToRowMap);
      if v == WholeView(lines, cfg) {
        AppendViewKeepsShows(lines, v, cfg, text);
      }
      var style, newLines, newView := AppendOnto(lines, v, cfg, text);
      var shown;
      r, shown := PromptAfter(style, prompt, message, |searchIdx|, searchMark, prefixNum, cols, displayedPrompt);
      lines, formattedLines, unterminated, linesToRowMap := newLines, newView.rows, newView.unterminated, newView.rowMap;
      displayedPrompt := shown;
      assert Config(lineNumbers, cols, true, wrap) == cfg;
      assert View(formattedLines, unterminated, linesToRowMap) == newView;
    }
  }
}
