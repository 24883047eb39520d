/** Drawing the older pager (src/utils/mod.rs): the page of rows at the
    upper mark, and the prompt line below it unless the text fits on the
    terminal and the pager is not asked to run anyway. */
module LegacyDraw {
  import opened Common
  import opened Display
  import opened LegacyPager

  /** `write_lines`: pulls the mark back so that the page is full, and
      writes the page, rows separated by a newline and a carriage return,
      ended by a newline. The new mark is the clamp `Display` uses; the
      rows are taken up to the lower mark computed before it. */
  method WriteLines(p: Pager) returns (out: string)
    modifies p`upperMark
    ensures p.upperMark == ClampUpper(old(p.upperMark), SatSub(p.rows, 1), |p.formattedLines|)
    ensures IsUsize(|p.formattedLines|) ==> out == "\r" + Join(Page(p.formattedLines, p.upperMark, SatSub(p.rows, 1)), "\n\r") + "\n"
  {
    var lineCount := p.NumLines();
    var rows := SatSub(p.rows, 1);
    var lowerMark := LowerBound(p.upperMark, rows, lineCount);
    if lowerMark > lineCount {
      p.upperMark := if lineCount < p.rows then 0 else SatSub(lineCount, rows);
    }
    var displayed := p.GetFlattenedLinesWithBounds(p.upperMark, lowerMark);
    out := "\r" + Join(displayed, "\n\r") + "\n";
  }

  /** What `draw` puts on the terminal: only the page, the page and the
      first row of the prompt or message, or a panic. */
  datatype Screen = PageOnly(text: string) | WithPrompt(text: string, promptRow: string) | Panicked

  /** The wrapped text shown on the prompt line: the message when there is
      one, else the prompt. */
  function PromptShown(message: Option<seq<string>>, prompt: seq<string>): seq<string>
  {
    if message.Some? then message.value else prompt
  }

  /** `draw`: when the rows fit on the terminal and the pager is not asked
      to run regardless, only the page is written; otherwise the terminal
      is cleared, the page written, and the first row of the message or
      prompt shown on the last line. The row number is a `u16` and the
      prompt's first row must exist, or the call panics. */
  method Draw(p: Pager) returns (r: Screen)
    modifies p`upperMark
    ensures p.upperMark == ClampUpper(old(p.upperMark), SatSub(p.rows, 1), |p.formattedLines|)
    ensures r.PageOnly? <==> !p.runNoOverflow && |p.formattedLines| <= p.rows
    ensures var shown := PromptShown(p.message, p.prompt);
            !r.PageOnly? ==> (r.Panicked? <==> p.rows > U16_MAX || shown == [])
                             && (r.WithPrompt? ==> r.promptRow == shown[0])
    ensures !r.Panicked? && IsUsize(|p.formattedLines|) ==>
              r.text == "\r" + Join(Page(p.formattedLines, p.upperMark, SatSub(p.rows, 1)), "\n\r") + "\n"
  {
    if !p.runNoOverflow && p.NumLines() <= p.rows {
      var out := WriteLines(p);
      return PageOnly(out);
    }
    var out := WriteLines(p);
    var prompt := PromptShown(p.message, p.prompt);
    if p.rows > U16_MAX || prompt == [] {
      return Screen.Panicked;
    }
    r := WithPrompt(out, prompt[0]);
  }

  /** What the prompt-less draw shows of a text that fits in `rows`
      rows: all of it from the top when it is shorter than the terminal,
      but one row fewer when it is exactly as tall, since a row is still
      kept back for the prompt that is not drawn. */
  lemma PageOnlyDraw(formatted: seq<string>, rows: nat, upper: nat)
    requires 0 < |formatted| <= rows && |formatted| < USIZE_MAX
    ensures var c := ClampUpper(upper, rows - 1, |formatted|);
            && |Page(formatted, c, rows - 1)| == |formatted| - (if |formatted| == rows then 1 else 0)
            && (|formatted| < rows ==> c == 0 && Page(formatted, c, rows - 1) == formatted)
  {
    var n, w := |formatted|, rows - 1;
    var c := ClampUpper(upper, w, n);
    assert LowerBound(c, w, n) == c + Min(w, n) <= n;
    if n == rows {
      assert |Page(formatted, c, w)| == w;
    } else {
      assert c == 0;
      assert Page(formatted, c, w) == formatted[0..n];
    }
  }
}
