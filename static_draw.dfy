/** The first static pager's drawing (src/utils.rs): the text itself is
    split into lines, no wrapping is done, and a window of lines starting
    at the upper mark is written, numbered when the setting says so. Its
    `usize` sums are not saturating, so an overflow or underflow panics,
    as it does in a debug build. */
module StaticDraw {
  import opened Common

  /** The line-number setting of this version: `Enabled`/`Disabled` are
      locked in by the application, `Yes`/`No` may be toggled. */
  datatype LineNumbers = Enabled | Yes | No | Disabled

  /** `!ln`: swaps `Yes` and `No`, keeps the locked settings. */
  function Not(ln: LineNumbers): (r: LineNumbers)
    ensures ln == Yes <==> r == No
    ensures ln == No <==> r == Yes
    ensures ln == Enabled <==> r == Enabled
    ensures ln == Disabled <==> r == Disabled
  {
    if ln == Yes then No else if ln == No then Yes else ln
  }

  /** Toggling twice gives the setting back; toggling switches the numbers
      on or off unless the setting is locked. */
  lemma NotInvolution(ln: LineNumbers)
    ensures Not(Not(ln)) == ln
    ensures Numbered(Not(ln)) != Numbered(ln) <==> ln == Yes || ln == No
  {
  }

  predicate Numbered(ln: LineNumbers)
  {
    ln == Yes || ln == Enabled
  }

  /** The lines `[upper, lower)` that are written. */
  datatype Window = Window(upper: nat, lower: nat)

  /** The window of `write_lines` for a text of `lineCount` lines, ending in
      a newline or not, on `rows` rows from the mark `upper`: the end is
      `upper + rows`, less one after a final newline; an end past the last
      line is cut to it and the mark moved to the last page, or the top
      when the text is shorter than the terminal. Each unchecked
      subtraction or sum out of `usize` range panics. */
  function WindowFor(lineCount: nat, endsWithNewline: bool, rows: nat, upper: nat): (r: Result<Window>)
    requires IsUsize(lineCount) && IsUsize(rows) && IsUsize(upper)
    ensures r.Ok? ==> r.value.upper <= r.value.lower <= lineCount
    ensures r.Ok? ==> r.value.lower - r.value.upper <= rows
    ensures r.Ok? && upper + rows - (if endsWithNewline then 1 else 0) <= lineCount ==> r.value.upper == upper
  {
    var e := if endsWithNewline then 1 else 0;
    if upper + rows > USIZE_MAX || upper + rows < e then Panic
    else
      var lower := upper + rows - e;
      if lower > lineCount then
        Ok(Window(if lineCount < rows then 0 else lineCount - rows, lineCount))
      else if lower < upper then Panic
      else Ok(Window(upper, lower))
  }

  /** The panics of the window: a sum past `usize`, or no rows at all
      after a final newline, where the end falls before the mark unless it was cut to the last
      line. */
  lemma WindowPanics(lineCount: nat, endsWithNewline: bool, rows: nat, upper: nat)
    requires IsUsize(lineCount) && IsUsize(rows) && IsUsize(upper)
    ensures WindowFor(lineCount, endsWithNewline, rows, upper).Panic?
            <==> upper + rows > USIZE_MAX || (endsWithNewline && rows == 0 && upper <= lineCount + 1)
  {
  }

  /** A row written with numbers: the 1-based number right-aligned in
      `len` columns, a dot, a space and the line. */
  function NumberedRow(n: nat, len: nat, line: string): string
  {
    "\r" + PadLeft(NatToString(n), len) + ". " + line + "\n"
  }

  /** What `write_lines` writes for `shown`, the first of which is line
      `upper` (0-based). */
  function Output(shown: seq<string>, numbered: bool, upper: nat, len: nat): string
  {
    if shown == [] then []
    else
      var k := |shown| - 1;
      Output(shown[..k], numbered, upper, len)
      + (if numbered then NumberedRow(upper + k + 1, len, shown[k]) else "\r" + shown[k] + "\n")
  }

  /** `write_lines`: the text's lines in the window, and the new mark; in
      numbered mode the width of the number is that of `lower + upper + 1`,
      a sum that panics past `usize`. */
  method WriteLines(text: string, rows: nat, upperMark: nat, ln: LineNumbers)
    returns (r: Result<(nat, string)>)
    requires IsUsize(|Lines(text)|) && IsUsize(rows) && IsUsize(upperMark)
    ensures var w := WindowFor(|Lines(text)|, EndsWith(text, '\n'), rows, upperMark);
            && (r.Ok? <==> w.Ok? && !(Numbered(ln) && w.value.lower + w.value.upper + 1 > USIZE_MAX))
            && (r.Ok? ==> r.value.0 == w.value.upper
                          && r.value.1 == Output(Lines(text)[w.value.upper..w.value.lower], Numbered(ln), w.value.upper,
                                                 Digits(w.value.lower + w.value.upper + 1)))
  {
    var all := Lines(text);
    var window := WindowFor(|all|, EndsWith(text, '\n'), rows, upperMark);
    if window.Panic? {
      return Panic;
    }
    var upper, lower := window.value.upper, window.value.lower;
    var shown := all[upper..lower];
    var numbered := Numbered(ln);
    if numbered && lower + upper + 1 > USIZE_MAX {
      return Panic;
    }
    var out := WriteRows(shown, numbered, upper, Digits(lower + upper + 1));
    r := Ok((upper, out));
  }

  /** The loop of `write_lines`: each shown line as a row, numbered from
      `upper + 1` when asked to. */
  method WriteRows(shown: seq<string>, numbered: bool, upper: nat, len: nat) returns (out: string)
    ensures out == Output(shown, numbered, upper, len)
  {
    out := [];
    var idx := 0;
    while idx < |shown|
      invariant 0 <= idx <= |shown|
      invariant out == Output(shown[..idx], numbered, upper, len)
    {
      assert shown[..idx + 1][..idx] == shown[..idx];
      if numbered {
        out := out + NumberedRow(upper + idx + 1, len, shown[idx]);
      } else {
        out := out + "\r" + shown[idx] + "\n";
      }
      idx := idx + 1;
    }
    assert shown[..|shown|] == shown;
  }

  /** The numbers line up: every number written, `upper + 1` to `lower`,
      fits in the width, so every row's number field is exactly `len`
      wide and ends with the number. */
  lemma NumbersAligned(upper: nat, lower: nat, idx: nat)
    requires upper + idx < lower
    ensures var f := PadLeft(NatToString(upper + idx + 1), Digits(lower + upper + 1));
            && |f| == Digits(lower + upper + 1)
            && f[|f| - Digits(upper + idx + 1)..] == NatToString(upper + idx + 1)
  {
    DigitsMonotone(upper + idx + 1, lower + upper + 1);
  }
}
