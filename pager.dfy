/** The older pager configuration (src/lib.rs): the text is kept as wrapped
    lines plus a pending fragment that has not been ended by a newline yet,
    and flattened into the rows shown, with a number gutter on every row of
    a line when numbers are on. */
module LegacyPager {
  import opened Common
  import opened LineNumbering
  import opened ScreenText
  import opened PagerStates

  /** What quitting the pager does. */
  datatype ExitStrategy = ProcessQuit | PagerQuit

  /** `wrap_str` applied to every line. */
  function WrapAll(ls: seq<string>, cols: nat, wrap: Wrapper): (r: seq<seq<string>>)
    ensures |r| == |ls| && forall i :: 0 <= i < |ls| ==> r[i] == WrapStr(ls[i], cols, wrap)
  {
    if ls == [] then [] else WrapAll(ls[..|ls| - 1], cols, wrap) + [WrapStr(ls[|ls| - 1], cols, wrap)]
  }

  lemma WrapAllAppend(a: seq<string>, b: seq<string>, cols: nat, wrap: Wrapper)
    ensures WrapAll(a + b, cols, wrap) == WrapAll(a, cols, wrap) + WrapAll(b, cols, wrap)
  {
  }

  /** `wrap_str`: the rows `textwrap::wrap` makes of a line, never none. */
  function WrapStr(line: string, cols: nat, wrap: Wrapper): (r: seq<string>)
    ensures |r| >= 1
  {
    wrap(line, cols)
  }

  /** `rewrap`: the rows of a line joined by spaces and wrapped again. */
  function Rewrap(line: seq<string>, cols: nat, wrap: Wrapper): (r: seq<string>)
    ensures |r| >= 1
  {
    WrapStr(Join(line, " "), cols, wrap)
  }

  /** The message after `format_lines`: rewrapped when there is one. */
  function RewrapMessage(message: Option<seq<string>>, cols: nat, wrap: Wrapper): (r: Option<seq<string>>)
    ensures r.Some? <==> message.Some?
  {
    if message.Some? then Some(Rewrap(message.value, cols, wrap)) else None
  }

  /** A line of one row is rewrapped as that row is wrapped. */
  lemma RewrapOneRow(row: string, cols: nat, wrap: Wrapper)
    ensures Rewrap([row], cols, wrap) == WrapStr(row, cols, wrap)
  {
  }

  // ---------------------------------------------------------------------------
  // push_str
  // ---------------------------------------------------------------------------

  /** `push_str` as written on the wrapped lines and the pending fragment:
      a string ending in a newline completes the fragment; a string with a
      newline elsewhere adds its complete lines without the fragment, which
      then grows by the string's last line; any other string grows the
      fragment. */
  function PushStepAsWritten(wrapLines: seq<seq<string>>, pending: string, s: string, cols: nat, wrap: Wrapper)
    : (r: (seq<seq<string>>, string))
    ensures '\n' !in s ==> r == (wrapLines, pending + s)
  {
    if EndsWith(s, '\n') then (wrapLines + WrapAll(Lines(pending + s), cols, wrap), [])
    else if '\n' in s then
      var ls := Lines(s);
      (wrapLines + WrapAll(ls[..|ls| - 1], cols, wrap), pending + ls[|ls| - 1])
    else (wrapLines, pending + s)
  }

  /** `push_str` with the fragment continued by the string in every case:
      the lines completed by the string are the lines of the fragment and
      the string up to its last newline, and what follows that newline is
      the new fragment. */
  function PushStep(wrapLines: seq<seq<string>>, pending: string, s: string, cols: nat, wrap: Wrapper)
    : (r: (seq<seq<string>>, string))
    ensures '\n' !in pending ==> '\n' !in r.1
    ensures '\n' !in s ==> r == (wrapLines, pending + s)
  {
    if EndsWith(s, '\n') then (wrapLines + WrapAll(Lines(pending + s), cols, wrap), [])
    else if '\n' in s then
      var all := pending + s;
      (wrapLines + WrapAll(Lines(Settled(all)), cols, wrap), OpenPiece(all))
    else (wrapLines, pending + s)
  }

  /** The text after the last newline of a string with no newline is the
      whole string. */
  lemma {:induction false} OpenPieceNoNewline(s: string)
    requires '\n' !in s
    ensures OpenPiece(s) == s
  {
    if s != [] {
      assert '\n' !in s[..|s| - 1];
      OpenPieceNoNewline(s[..|s| - 1]);
    }
  }

  /** The text after the last newline of `a + s` is that of `a`'s own open
      piece continued by `s`. */
  lemma {:induction false} OpenPieceAppend(a: string, s: string)
    ensures OpenPiece(a + s) == OpenPiece(OpenPiece(a) + s)
  {
    if s == [] {
      assert a + s == a;
      assert OpenPiece(a) + s == OpenPiece(a);
      OpenPieceNoNewline(OpenPiece(a));
    } else {
      var s' := s[..|s| - 1];
      assert (a + s)[..|a + s| - 1] == a + s';
      assert (OpenPiece(a) + s)[..|OpenPiece(a) + s| - 1] == OpenPiece(a) + s';
      OpenPieceAppend(a, s');
    }
  }

  /** The settled part of `a + s` is the settled part of `a` followed by the
      settled part of `a`'s open piece continued by `s`. */
  lemma SettledAppend(a: string, s: string)
    ensures Settled(a + s) == Settled(a) + Settled(OpenPiece(a) + s)
  {
    var h, p := Settled(a), OpenPiece(a);
    SettledSplit(a);
    OpenPieceAppend(a, s);
    SettledSplit(p + s);
    var q, o := Settled(p + s), OpenPiece(p + s);
    calc {
      a + s;
      (h + p) + s;
      { Assoc(h, p, s); }
      h + (p + s);
      h + (q + o);
      { Assoc(h, q, o); }
      (h + q) + o;
    }
    PrefixOfConcat(h + q, o);
  }

  lemma Assoc(x: string, y: string, z: string)
    ensures (x + y) + z == x + (y + z)
  {
  }

  lemma PrefixOfConcat(x: string, o: string)
    ensures (x + o)[..|x + o| - |o|] == x
  {
  }

  /** With a fragment free of newlines, every step of the corrected
      `push_str` adds the lines the fragment and the string settle and keeps
      what follows the last newline. */
  lemma PushStepSettles(wrapLines: seq<seq<string>>, pending: string, s: string, cols: nat, wrap: Wrapper)
    requires '\n' !in pending
    ensures PushStep(wrapLines, pending, s, cols, wrap)
            == (wrapLines + WrapAll(Lines(Settled(pending + s)), cols, wrap), OpenPiece(pending + s))
  {
    var all := pending + s;
    if EndsWith(s, '\n') {
      assert all[|all| - 1] == '\n';
      assert OpenPiece(all) == [];
      assert Settled(all) == all;
    } else if '\n' !in s {
      NoNewlineInConcat(pending, s);
      OpenPieceNoNewline(all);
      assert Settled(all) == [];
      LinesEmpty([]);
      assert wrapLines + [] == wrapLines;
    }
  }

  lemma NoNewlineInConcat(a: string, b: string)
    requires '\n' !in a && '\n' !in b
    ensures '\n' !in a + b
  {
    assert forall i :: 0 <= i < |a + b| ==> (a + b)[i] == if i < |a| then a[i] else b[i - |a|];
  }

  /** The state a run of `push_str` calls leaves behind, from no line and an
      empty fragment. */
  function PushAll(fragments: seq<string>, cols: nat, wrap: Wrapper): (r: (seq<seq<string>>, string))
  {
    if fragments == [] then ([], [])
    else
      var prev := PushAll(fragments[..|fragments| - 1], cols, wrap);
      PushStep(prev.0, prev.1, fragments[|fragments| - 1], cols, wrap)
  }

  /** All the fragments, one after the other. */
  function Concat(fragments: seq<string>): string
  {
    if fragments == [] then [] else Concat(fragments[..|fragments| - 1]) + fragments[|fragments| - 1]
  }

  /** Pushing text in fragments is pushing it at once: the wrapped lines
      are those of the whole text up to its last newline, and the fragment
      is what follows that newline. */
  lemma {:induction false} PushAllIsWhole(fragments: seq<string>, cols: nat, wrap: Wrapper)
    ensures PushAll(fragments, cols, wrap)
            == (WrapAll(Lines(Settled(Concat(fragments))), cols, wrap), OpenPiece(Concat(fragments)))
  {
    if fragments == [] {
      SettledSplit([]);
      LinesEmpty([]);
    } else {
      var init, s := fragments[..|fragments| - 1], fragments[|fragments| - 1];
      var a := Concat(init);
      PushAllIsWhole(init, cols, wrap);
      PushStepSettles(WrapAll(Lines(Settled(a)), cols, wrap), OpenPiece(a), s, cols, wrap);
      SettledAppend(a, s);
      OpenPieceAppend(a, s);
      SettledSplit(a);
      LinesAppendClean(Settled(a), Settled(OpenPiece(a) + s));
      WrapAllAppend(Lines(Settled(a)), Lines(Settled(OpenPiece(a) + s)), cols, wrap);
    }
  }

  /** Pushing "ab" and then "c\nd": as written the fragment "ab" is kept
      back and ends up in front of "d", so the first line reads "c"; the
      corrected step completes the line "abc" and keeps "d". */
  lemma PushAsWrittenCounterexample()
    ensures var wrap: Wrapper := (l: string, c: nat) => [l];
            && PushStepAsWritten([], "ab", "c\nd", 80, wrap) == ([["c"]], "abd")
            && PushStep([], "ab", "c\nd", 80, wrap) == ([["abc"]], "d")
  {
    var wrap: Wrapper := (l: string, c: nat) => [l];
    AsWrittenPushesC(wrap);
    CorrectedPushesAbc(wrap);
  }

  lemma AsWrittenPushesC(wrap: Wrapper)
    requires forall l, c :: wrap(l, c) == [l]
    ensures PushStepAsWritten([], "ab", "c\nd", 80, wrap) == ([["c"]], "abd")
  {
    LinesOfTerminatedPiece("c");
    LinesOfPiece("d");
    assert "c\nd" == "c\n" + "d";
    LinesAppendClean("c\n", "d");
    var ls := Lines("c\nd");
    assert ls == ["c", "d"];
    assert WrapAll(ls[..1], 80, wrap) == [WrapStr("c", 80, wrap)] == [["c"]];
    assert "ab" + ls[1] == "abd";
  }

  lemma CorrectedPushesAbc(wrap: Wrapper)
    requires forall l, c :: wrap(l, c) == [l]
    ensures PushStep([], "ab", "c\nd", 80, wrap) == ([["abc"]], "d")
  {
    LinesOfTerminatedPiece("abc");
    var all := "ab" + "c\nd";
    assert all[..4] == "abc\n";
    assert OpenPiece(all[..4]) == [];
    assert OpenPiece(all) == "d";
    assert Settled(all) == "abc\n";
    assert StripCr("abc") == "abc";
    assert "abc" + "\n" == "abc\n";
    var ls := Lines(Settled(all));
    assert ls == ["abc"];
    var w := WrapAll(ls, 80, wrap);
    assert |w| == 1 && w[0] == WrapStr(ls[0], 80, wrap) == ["abc"];
    assert w == [w[0]];
  }

  /** A line ended by a newline is that one line, without a carriage
      return at its end. */
  lemma LinesOfTerminatedPiece(x: string)
    requires '\n' !in x
    ensures Lines(x + "\n") == [StripCr(x)]
  {
    SplitNlNoNl(x);
    SplitNlAppend(x, "\n");
    assert "\n"[1..] == [];
    assert SplitNl("\n") == [[], []];
    assert x + [] == x;
    assert SplitNl(x + "\n") == [x, []];
    assert Terminated(x + "\n") == [x];
  }

  // ---------------------------------------------------------------------------
  // format_lines
  // ---------------------------------------------------------------------------

  /** The gutter of the rows of line `idx`: a space, the 1-based number
      right-aligned in `len` columns, a dot and a space. */
  function NumberGutter(idx: nat, len: nat): string
  {
    " " + PadLeft(NatToString(idx + 1), len) + ". "
  }

  /** The gutters of a text are as wide as one another: every line number
      has at most as many digits as the line count. */
  lemma GutterWidth(idx: nat, lineCount: nat)
    requires idx < lineCount
    ensures |NumberGutter(idx, Digits(lineCount))| == Digits(lineCount) + 3
    ensures var g := NumberGutter(idx, Digits(lineCount)); g[|g| - 2 - Digits(idx + 1)..|g| - 2] == NatToString(idx + 1)
  {
    NatToStringDigits(idx + 1);
    DigitsMonotone(idx + 1, lineCount);
  }

  /** The rows of line `idx` after `format_lines`: with numbers, the line is
      wrapped to the width left by the gutter and every row gets the
      gutter; without, it is wrapped to the full width. */
  function LineRowsOf(line: seq<string>, idx: nat, numbered: bool, len: nat, cols: nat, wrap: Wrapper): (r: seq<string>)
    ensures |r| >= 1
  {
    if numbered then
      Prefixed(NumberGutter(idx, len), Rewrap(line, SatSub(cols, len + 3), wrap))
    else Rewrap(line, cols, wrap)
  }

  /** Every row behind the same gutter. */
  function Prefixed(g: string, w: seq<string>): (r: seq<string>)
    ensures |r| == |w|
  {
    if w == [] then [] else [g + w[0]] + Prefixed(g, w[1..])
  }

  lemma {:induction false} PrefixedAt(g: string, w: seq<string>)
    ensures forall i :: 0 <= i < |w| ==> Prefixed(g, w)[i] == g + w[i]
  {
    if w != [] {
      PrefixedAt(g, w[1..]);
    }
  }

  /** The rows of lines numbered from `first`, the gutter `len` wide. */
  function FormatRowsFrom(ls: seq<seq<string>>, first: nat, numbered: bool, len: nat, cols: nat, wrap: Wrapper)
    : seq<string>
  {
    if ls == [] then []
    else FormatRowsFrom(ls[..|ls| - 1], first, numbered, len, cols, wrap)
         + LineRowsOf(ls[|ls| - 1], first + |ls| - 1, numbered, len, cols, wrap)
  }

  /** The rows `format_lines` builds: the gutter, when numbers are on, is
      as wide as the line count has digits. */
  function FormatRows(wrapLines: seq<seq<string>>, lineNumbers: LineNumbers, cols: nat, wrap: Wrapper): seq<string>
  {
    FormatRowsFrom(wrapLines, 0, ShowsNumbers(lineNumbers), Digits(|wrapLines|), cols, wrap)
  }

  /** Every line gives at least one row, so there are at least as many rows
      as lines. */
  lemma {:induction false} FormatRowsAtLeastLines(wrapLines: seq<seq<string>>, first: nat, numbered: bool, len: nat, cols: nat, wrap: Wrapper)
    ensures |FormatRowsFrom(wrapLines, first, numbered, len, cols, wrap)| >= |wrapLines|
  {
    if wrapLines != [] {
      FormatRowsAtLeastLines(wrapLines[..|wrapLines| - 1], first, numbered, len, cols, wrap);
    }
  }

  /** The rows of a text are the rows of its first lines followed by those
      of the rest, numbered on. */
  lemma {:induction false} FormatRowsAppend(a: seq<seq<string>>, b: seq<seq<string>>, numbered: bool, len: nat, cols: nat, wrap: Wrapper)
    ensures FormatRowsFrom(a + b, 0, numbered, len, cols, wrap)
            == FormatRowsFrom(a, 0, numbered, len, cols, wrap) + FormatRowsFrom(b, |a|, numbered, len, cols, wrap)
  {
    if b == [] {
      assert a + b == a;
    } else {
      var b' := b[..|b| - 1];
      assert (a + b)[..|a + b| - 1] == a + b';
      assert (a + b)[|a + b| - 1] == b[|b| - 1];
      assert 0 + |a + b| - 1 == |a| + |b| - 1;
      FormatRowsAppend(a, b', numbered, len, cols, wrap);
    }
  }

  /** With numbers on, every row, not only a line's first, carries the
      line's number, and all the gutters have the same width. */
  lemma EveryRowNumbered(line: seq<string>, idx: nat, lineCount: nat, cols: nat, wrap: Wrapper)
    requires idx < lineCount
    ensures var rs := LineRowsOf(line, idx, true, Digits(lineCount), cols, wrap);
            var g := NumberGutter(idx, Digits(lineCount));
            && |g| == Digits(lineCount) + 3
            && forall i :: 0 <= i < |rs| ==> |rs[i]| >= |g| && rs[i][..|g|] == g
  {
    GutterWidth(idx, lineCount);
    PrefixedAt(NumberGutter(idx, Digits(lineCount)), Rewrap(line, SatSub(cols, Digits(lineCount) + 3), wrap));
  }

  // ---------------------------------------------------------------------------
  // The pager
  // ---------------------------------------------------------------------------

  class Pager {
    /** The text, every line wrapped to the terminal width. */
    var wrapLines: seq<seq<string>>
    /** The rows shown. */
    var formattedLines: seq<string>
    var lineNumbers: LineNumbers
    /** The prompt, wrapped. */
    var prompt: seq<string>
    /** The text pushed after the last newline (`lines`). */
    var pending: string
    /** The input handler, as an opaque id. */
    var inputClassifier: nat
    /** The callbacks to run on exit, as opaque ids. */
    var exitCallbacks: seq<nat>
    var exitStrategy: ExitStrategy
    var endStream: bool
    /** The message shown at the prompt, wrapped, and whether it changed
        since it was last shown. */
    var message: Option<seq<string>>
    var messageChanged: bool
    var upperMark: nat
    var runNoOverflow: bool
    var rows: nat
    var cols: nat
    /** `textwrap::wrap`. */
    const wrap: Wrapper

    /** `Pager::new` for a terminal of the given size: no text, numbers
        disabled, the prompt "minus". */
    constructor(rows: nat, cols: nat, wrap: Wrapper)
      ensures this.rows == rows && this.cols == cols && this.wrap == wrap
      ensures wrapLines == [] && formattedLines == [] && pending == [] && upperMark == 0
      ensures lineNumbers == Disabled && prompt == WrapStr("minus", cols, wrap)
      ensures exitStrategy == ProcessQuit && exitCallbacks == [] && !runNoOverflow && !endStream
      ensures message == None && !messageChanged && inputClassifier == 0
    {
      this.rows, this.cols, this.wrap := rows, cols, wrap;
      wrapLines, formattedLines, pending, upperMark := [], [], [], 0;
      lineNumbers, prompt := Disabled, WrapStr("minus", cols, wrap);
      exitStrategy, exitCallbacks, runNoOverflow, endStream := ProcessQuit, [], false, false;
      message, messageChanged, inputClassifier := None, false, 0;
    }

    /** `format_lines`: rebuilds the rows from the wrapped lines and
        rewraps the message and the prompt. */
    method FormatLines()
      modifies this`formattedLines, this`message, this`prompt
      ensures formattedLines == FormatRows(wrapLines, lineNumbers, cols, wrap)
      ensures message == RewrapMessage(old(message), cols, wrap)
      ensures prompt == Rewrap(old(prompt), cols, wrap)
    {
      formattedLines := BuildRows(wrapLines, ShowsNumbers(lineNumbers), Digits(|wrapLines|), cols, wrap);
      message := RewrapMessage(message, cols, wrap);
      prompt := Rewrap(prompt, cols, wrap);
    }

    /** `set_text`: one wrapped line per line of the text, then the rows. */
    method SetText(text: string)
      modifies this`wrapLines, this`formattedLines, this`message, this`prompt
      ensures wrapLines == WrapAll(Lines(text), cols, wrap)
      ensures formattedLines == FormatRows(wrapLines, lineNumbers, cols, wrap)
      ensures message == RewrapMessage(old(message), cols, wrap)
      ensures prompt == Rewrap(old(prompt), cols, wrap)
    {
      wrapLines := WrapAll(Lines(text), cols, wrap);
      FormatLines();
    }

    /** `set_line_numbers`. */
    method SetLineNumbers(l: LineNumbers)
      modifies this`lineNumbers, this`formattedLines, this`message, this`prompt
      ensures lineNumbers == l
      ensures formattedLines == FormatRows(wrapLines, l, cols, wrap)
      ensures message == RewrapMessage(old(message), cols, wrap)
      ensures prompt == Rewrap(old(prompt), cols, wrap)
    {
      lineNumbers := l;
      FormatLines();
    }

    /** `push_str`, with the pending fragment continued by the string, then
        `format_lines`. */
    method PushStr(s: string)
      modifies this`wrapLines, this`pending, this`formattedLines, this`message, this`prompt
      ensures (wrapLines, pending) == PushStep(old(wrapLines), old(pending), s, cols, wrap)
      ensures formattedLines == FormatRows(wrapLines, lineNumbers, cols, wrap)
      ensures message == RewrapMessage(old(message), cols, wrap)
      ensures prompt == Rewrap(old(prompt), cols, wrap)
    {
      if EndsWith(s, '\n') {
        var all := pending + s;
        wrapLines := wrapLines + WrapAll(Lines(all), cols, wrap);
        pending := [];
      } else if '\n' in s {
        var all := pending + s;
        wrapLines := wrapLines + WrapAll(Lines(Settled(all)), cols, wrap);
        pending := OpenPiece(all);
      } else {
        pending := pending + s;
      }
      FormatLines();
    }

    /** `send_message`: panics (`ok` is false) on a newline; otherwise the
        message is wrapped and marked as changed. */
    method SendMessage(text: string) returns (ok: bool)
      modifies this`message, this`messageChanged
      ensures ok <==> '\n' !in text
      ensures ok ==> message == Some(WrapStr(text, cols, wrap)) && messageChanged
      ensures !ok ==> message == old(message) && messageChanged == old(messageChanged)
    {
      if '\n' in text {
        return false;
      }
      message := Some(WrapStr(text, cols, wrap));
      messageChanged := true;
      ok := true;
    }

    /** `set_prompt`: panics (`ok` is false) on a newline; otherwise the
        prompt is the text wrapped. */
    method SetPrompt(text: string) returns (ok: bool)
      modifies this`prompt
      ensures ok <==> '\n' !in text
      ensures ok ==> prompt == WrapStr(text, cols, wrap)
      ensures !ok ==> prompt == old(prompt)
    {
      if '\n' in text {
        return false;
      }
      prompt := WrapStr(text, cols, wrap);
      ok := true;
    }

    /** `set_exit_strategy`. */
    method SetExitStrategy(strategy: ExitStrategy)
      modifies this`exitStrategy
      ensures exitStrategy == strategy
    {
      exitStrategy := strategy;
    }

    /** `set_run_no_overflow`. */
    method SetRunNoOverflow(value: bool)
      modifies this`runNoOverflow
      ensures runNoOverflow == value
    {
      runNoOverflow := value;
    }

    /** `end_data_stream`. */
    method EndDataStream()
      modifies this`endStream
      ensures endStream
    {
      endStream := true;
    }

    /** `set_input_handler`. */
    method SetInputHandler(handler: nat)
      modifies this`inputClassifier
      ensures inputClassifier == handler
    {
      inputClassifier := handler;
    }

    /** `add_exit_callback`. */
    method AddExitCallback(cb: nat)
      modifies this`exitCallbacks
      ensures exitCallbacks == old(exitCallbacks) + [cb]
    {
      exitCallbacks := exitCallbacks + [cb];
    }

    /** `exit`: runs the callbacks; the result is the order they ran in,
        which is the order they were added. */
    method Exit() returns (ran: seq<nat>)
      ensures ran == exitCallbacks
    {
      ran := [];
      var i := 0;
      while i < |exitCallbacks|
        invariant 0 <= i <= |exitCallbacks|
        invariant ran == exitCallbacks[..i]
      {
        ran := ran + [exitCallbacks[i]];
        i := i + 1;
      }
    }

    /** `get_flattened_lines_with_bounds`: the window `Common.WithBounds`,
        as in `Screen` and `PagerState`. */
    function GetFlattenedLinesWithBounds(start: nat, end: nat): (r: seq<string>)
      reads this`formattedLines
      ensures IsWindow(formattedLines, start, end, r)
    {
      WithBoundsIsWindow(formattedLines, start, end);
      WithBounds(formattedLines, start, end)
    }

    /** `num_lines`: the number of rows, as in `PagerState`. */
    function NumLines(): (r: nat)
      reads this`formattedLines
      ensures r == |formattedLines|
    {
      |formattedLines|
    }
  }

  /** The loop of `format_lines`: the rows of every line, in order. */
  method BuildRows(wrapLines: seq<seq<string>>, numbered: bool, len: nat, cols: nat, wrap: Wrapper)
    returns (rows: seq<string>)
    ensures rows == FormatRowsFrom(wrapLines, 0, numbered, len, cols, wrap)
  {
    rows := [];
    var idx := 0;
    while idx < |wrapLines|
      invariant 0 <= idx <= |wrapLines|
      invariant rows == FormatRowsFrom(wrapLines[..idx], 0, numbered, len, cols, wrap)
    {
      assert wrapLines[..idx + 1][..idx] == wrapLines[..idx];
      rows := rows + LineRowsOf(wrapLines[idx], idx, numbered, len, cols, wrap);
      idx := idx + 1;
    }
    assert wrapLines[..|wrapLines|] == wrapLines;
  }
}
