/** What the pager repaints when the view moves (src/core/utils/display/mod.rs).
    One terminal row is kept for the prompt, so a page is `rows - 1` rows
    (saturating) of the formatted text, starting at the upper mark. Moving
    the view scrolls the terminal and writes only the rows that come into
    sight. The terminal is not modelled: what is kept is the rows written,
    the upper mark and the panics of the 16-bit terminal coordinates. */
module Display {
  import opened Common
  import opened PagerStates

  /** `a.abs_diff(b)`. */
  function AbsDiff(a: nat, b: nat): nat
  {
    if a >= b then a - b else b - a
  }

  /** One past the last row of the page at `upper`: `writable` rows on, or
      all the rows there are when they are fewer (saturating). */
  function LowerBound(upper: nat, writable: nat, lineCount: nat): nat
  {
    SatAdd(upper, Min(writable, lineCount))
  }

  /** The upper mark after the check `draw_for_change`, `write_text_checked`
      and `write_from_pagerstate` share: a page that would run past the last
      row is pulled back to the last full page. */
  function ClampUpper(upper: nat, writable: nat, lineCount: nat): (r: nat)
    ensures LowerBound(r, writable, lineCount) <= lineCount
    ensures LowerBound(upper, writable, lineCount) <= lineCount ==> r == upper
  {
    if LowerBound(upper, writable, lineCount) > lineCount then SatSub(lineCount, writable) else upper
  }

  /** The clamped mark is the smaller of the mark asked for and the mark of
      the last full page. */
  lemma ClampIsLastFullPage(upper: nat, writable: nat, lineCount: nat)
    requires lineCount < USIZE_MAX
    ensures ClampUpper(upper, writable, lineCount) == Min(upper, SatSub(lineCount, writable))
  {
    var m := Min(writable, lineCount);
    if upper + m <= USIZE_MAX {
      assert LowerBound(upper, writable, lineCount) == upper + m;
      if writable <= lineCount {
        assert SatSub(lineCount, writable) == lineCount - m;
      }
    }
  }

  /** The rows of the page at `upper`. */
  function Page(rs: seq<string>, upper: nat, writable: nat): seq<string>
  {
    WithBounds(rs, upper, LowerBound(upper, writable, |rs|))
  }

  /** A page at a clamped mark is full: `writable` rows, or every row when
      there are fewer. */
  lemma ClampedPageIsFull(rs: seq<string>, upper: nat, writable: nat)
    requires |rs| < USIZE_MAX
    ensures |Page(rs, ClampUpper(upper, writable, |rs|), writable)| == Min(writable, |rs|)
  {
    var r, m := ClampUpper(upper, writable, |rs|), Min(writable, |rs|);
    assert LowerBound(r, writable, |rs|) == r + m;
  }

  // ---------------------------------------------------------------------------
  // draw_for_change
  // ---------------------------------------------------------------------------

  /** A move of the view: nothing to do, or the new upper mark, whether the
      view moves down (the terminal scrolls up), by how many rows the
      terminal scrolls, and the rows `[start, end)` written into the gap. */
  datatype Change = Unmoved | Moved(upper: nat, down: bool, scroll: nat, start: nat, end: nat)

  /** The range arithmetic of `draw_for_change` for `lineCount` rows of
      text, `rows` terminal rows, the mark `upper` and the mark asked for. */
  function ChangeFor(lineCount: nat, rows: nat, upper: nat, target: nat): (c: Change)
    ensures var t := ClampUpper(target, SatSub(rows, 1), lineCount);
            && (c.Unmoved? <==> t == upper)
            && (c.Moved? ==> c.upper == t && (c.down <==> t > upper) && c.scroll <= SatSub(rows, 1))
  {
    var writable := SatSub(rows, 1);
    var lower := LowerBound(upper, writable, lineCount);
    var newLower := LowerBound(target, writable, lineCount);
    var t := if newLower > lineCount then SatSub(lineCount, writable) else target;
    var delta := AbsDiff(t, upper);
    var k := Min(delta, writable);
    if t == upper then Unmoved
    else if t > upper then
      if delta < writable then Moved(t, true, k, lower, newLower)
      else Moved(t, true, k, t, SatAdd(t, k))
    else Moved(t, false, k, t, SatAdd(t, k))
  }

  /** The text rows of the terminal after it scrolled by `k` rows and
      `painted` was written into the gap: at the bottom when the view moves
      down, at the top when it moves up. */
  function Scrolled(screen: seq<string>, down: bool, k: nat, painted: seq<string>): seq<string>
    requires k <= |screen|
  {
    if down then screen[k..] + painted else painted + screen[..|screen| - k]
  }

  /** The partial redraw is right: when the terminal showed the full page at
      `upper`, scrolling it and writing the chosen rows into the gap leaves
      exactly the page at the new mark on the terminal. */
  lemma PartialRedrawShowsPage(rs: seq<string>, rows: nat, upper: nat, target: nat)
    requires |rs| < USIZE_MAX
    requires LowerBound(upper, SatSub(rows, 1), |rs|) <= |rs|
    ensures var w, c := SatSub(rows, 1), ChangeFor(|rs|, rows, upper, target);
            c.Moved? ==>
              && c.scroll <= |Page(rs, upper, w)|
              && Scrolled(Page(rs, upper, w), c.down, c.scroll, WithBounds(rs, c.start, c.end)) == Page(rs, c.upper, w)
  {
    var w, n := SatSub(rows, 1), |rs|;
    var c := ChangeFor(n, rows, upper, target);
    var m := Min(w, n);
    if c.Moved? {
      var t := c.upper;
      assert LowerBound(upper, w, n) == upper + m;
      assert LowerBound(t, w, n) == t + m;
      assert c.down && t - upper < m ==> Min(c.end, n) == t + m by {
        if LowerBound(target, w, n) <= n {
          assert target == t;
        }
      }
      var screen := Page(rs, upper, w);
      assert screen == rs[upper..upper + m];
      assert Page(rs, t, w) == rs[t..t + m];
      assert m == w;
      if c.down {
        ScrollDownShowsPage(rs, upper, t, m, c.scroll, c.start, c.end);
      } else {
        ScrollUpShowsPage(rs, upper, t, m, c.scroll);
      }
    }
  }

  /** Moving the view down by `t - upper` rows: the rows still in sight move
      up and the rows `[start, end)`, clipped to the text, fill the gap. */
  lemma ScrollDownShowsPage(rs: seq<string>, upper: nat, t: nat, m: nat, k: nat, start: nat, end: nat)
    requires upper < t && t + m <= |rs| && upper + m <= |rs|
    requires k == Min(t - upper, m)
    requires (t - upper < m && start == upper + m && Min(end, |rs|) == t + m) || (t - upper >= m && start == t && end == t + m)
    ensures k <= |rs[upper..upper + m]|
    ensures rs[upper..upper + m][k..] + WithBounds(rs, start, end) == rs[t..t + m]
  {
    if t - upper < m {
      assert WithBounds(rs, start, end) == rs[upper + m..t + m];
    } else if start < |rs| {
      assert WithBounds(rs, start, end) == rs[t..t + m];
    }
  }

  /** Moving the view up by `upper - t` rows: the rows still in sight move
      down and the rows from `t` on fill the gap at the top. */
  lemma ScrollUpShowsPage(rs: seq<string>, upper: nat, t: nat, m: nat, k: nat)
    requires t < upper && upper + m <= |rs|
    requires k == Min(upper - t, m)
    ensures k <= |rs[upper..upper + m]|
    ensures WithBounds(rs, t, t + k) + rs[upper..upper + m][..m - k] == rs[t..t + m]
  {
    assert WithBounds(rs, t, t + k) == rs[t..t + k];
  }

  /** `draw_for_change` on the five moves of the source's own examples: a
      hundred rows on a ten-row terminal, and five rows where any move is
      pulled back to the top. */
  lemma ChangeForExamples()
    ensures ChangeFor(100, 10, 0, 3) == Moved(3, true, 3, 9, 12)
    ensures ChangeFor(100, 10, 0, 50) == Moved(50, true, 9, 50, 59)
    ensures ChangeFor(5, 10, 0, 10) == Unmoved
    ensures ChangeFor(100, 10, 80, 20) == Moved(20, false, 9, 20, 29)
    ensures ChangeFor(100, 10, 60, 50) == Moved(50, false, 9, 50, 59)
  {
  }

  /** `draw_for_change`: moves the view of `p` towards `target`. The new
      mark is the target after the clamp; when it differs from the current
      mark the terminal is scrolled, the rows coming into sight are written,
      the mark is stored and the prompt is redrawn, which panics when the
      terminal height does not fit in 16 bits (`ok` is false then). */
  method DrawForChange(p: PagerState, target: nat) returns (ok: bool, newTarget: nat, painted: seq<string>)
    modifies p`upperMark
    ensures newTarget == ClampUpper(target, SatSub(p.rows, 1), |p.formattedLines|)
    ensures p.upperMark == newTarget
    ensures var c := ChangeFor(|p.formattedLines|, p.rows, old(p.upperMark), target);
            && (ok <==> c.Unmoved? || p.rows <= U16_MAX)
            && painted == (if c.Unmoved? then [] else WithBounds(p.formattedLines, c.start, c.end))
  {
    var lineCount := p.NumLines();
    var writableRows := SatSub(p.rows, 1);
    var lowerBound := LowerBound(p.upperMark, writableRows, lineCount);
    var newLowerBound := LowerBound(target, writableRows, lineCount);
    newTarget := target;
    if newLowerBound > lineCount {
      newTarget := SatSub(lineCount, writableRows);
    }
    var delta := AbsDiff(newTarget, p.upperMark);
    var normalizedDelta := Min(delta, writableRows);
    if newTarget > p.upperMark {
      if delta < writableRows {
        painted := p.GetFormattedLinesWithBounds(lowerBound, newLowerBound);
      } else {
        painted := p.GetFormattedLinesWithBounds(newTarget, SatAdd(newTarget, normalizedDelta));
      }
    } else if newTarget < p.upperMark {
      painted := p.GetFormattedLinesWithBounds(newTarget, SatAdd(newTarget, normalizedDelta));
    } else {
      return true, newTarget, [];
    }
    p.upperMark := newTarget;
    ok := p.rows <= U16_MAX;
  }

  // ---------------------------------------------------------------------------
  // Full pages
  // ---------------------------------------------------------------------------

  /** What `write_lines` writes: every line, in order, after `initial` and
      followed by a newline. */
  function Emitted(lines: seq<string>, initial: string): (r: string)
  {
    if lines == [] then [] else Emitted(lines[..|lines| - 1], initial) + initial + lines[|lines| - 1] + "\n"
  }

  /** The output of a list of lines is the output of its parts in order. */
  lemma {:induction false} EmittedAppend(a: seq<string>, b: seq<string>, initial: string)
    ensures Emitted(a + b, initial) == Emitted(a, initial) + Emitted(b, initial)
  {
    if b != [] {
      assert (a + b)[..|a + b| - 1] == a + b[..|b| - 1];
      EmittedAppend(a, b[..|b| - 1], initial);
    } else {
      assert a + b == a;
    }
  }

  /** `write_lines`: writes the lines one by one. */
  method WriteLines(lines: seq<string>, initial: Option<string>) returns (out: string)
    ensures out == Emitted(lines, if initial.Some? then initial.value else "")
  {
    var prefix := if initial.Some? then initial.value else "";
    out := [];
    var i := 0;
    while i < |lines|
      invariant 0 <= i <= |lines|
      invariant out == Emitted(lines[..i], prefix)
    {
      assert lines[..i + 1][..i] == lines[..i];
      out := out + prefix + lines[i] + "\n";
      i := i + 1;
    }
    assert lines[..|lines|] == lines;
  }

  /** `write_text_checked`: clamps the mark and writes the page of `lines`
      at it, each row after a carriage return. The slice never panics. */
  method WriteTextChecked(lines: seq<string>, rows: nat, upperMark: nat) returns (newUpperMark: nat, out: string)
    requires IsUsize(upperMark)
    ensures newUpperMark == ClampUpper(upperMark, SatSub(rows, 1), |lines|)
    ensures var lower := LowerBound(newUpperMark, SatSub(rows, 1), |lines|);
            newUpperMark <= lower <= |lines| && out == Emitted(lines[newUpperMark..lower], "\r")
  {
    var lineCount := |lines|;
    var writableRows := SatSub(rows, 1);
    var lowerMark := LowerBound(upperMark, writableRows, lineCount);
    newUpperMark := upperMark;
    if lowerMark > lineCount {
      newUpperMark := SatSub(lineCount, writableRows);
      lowerMark := LowerBound(newUpperMark, writableRows, lineCount);
    }
    var displayLines := lines[newUpperMark..lowerMark];
    out := WriteLines(displayLines, Some("\r"));
  }

  /** `write_from_pagerstate`: clamps the mark of `p` and returns the rows
      of the page there. The rows are taken up to the lower mark computed
      before the clamp, which is past the last row whenever the clamp
      applies, so they are the whole page at the new mark. */
  method WriteFromPagerState(p: PagerState) returns (painted: seq<string>)
    modifies p`upperMark
    ensures p.upperMark == ClampUpper(old(p.upperMark), SatSub(p.rows, 1), |p.formattedLines|)
    ensures IsUsize(|p.formattedLines|) ==> painted == Page(p.formattedLines, p.upperMark, SatSub(p.rows, 1))
  {
    var lineCount := p.NumLines();
    var writableRows := SatSub(p.rows, 1);
    var lowerMark := LowerBound(p.upperMark, writableRows, lineCount);
    if lowerMark > lineCount {
      p.upperMark := SatSub(lineCount, writableRows);
    }
    painted := p.GetFormattedLinesWithBounds(p.upperMark, lowerMark);
  }

  /** What drawing produced: the text rows written, an error returned for a
      terminal height that does not fit in 16 bits, or a panic. */
  datatype Drawn = Wrote(rows: seq<string>) | ConversionError | Panicked

  /** `draw_full`: redraws the page at the clamped mark of `p`, then the
      prompt; a terminal taller than 16 bits can address is an error. */
  method DrawFull(p: PagerState) returns (r: Drawn)
    modifies p`upperMark
    ensures p.upperMark == ClampUpper(old(p.upperMark), SatSub(p.rows, 1), |p.formattedLines|)
    ensures r.Wrote? <==> p.rows <= U16_MAX
    ensures !r.Panicked?
    ensures r.Wrote? && IsUsize(|p.formattedLines|) ==> r.rows == Page(p.formattedLines, p.upperMark, SatSub(p.rows, 1))
  {
    var painted := WriteFromPagerState(p);
    if p.rows > U16_MAX {
      return ConversionError;
    }
    r := Wrote(painted);
  }

  /** The rows of an appended block `draw_append_text` writes below the
      `prev` rows shown before, `prevUnterminated` of which were open and
      are overwritten: as many as fit above the prompt row, and none when
      the earlier rows already filled the terminal. */
  function AppendedRows(prev: nat, prevUnterminated: nat, rows: nat, block: seq<string>): (r: seq<string>)
    ensures prev >= rows ==> r == []
    ensures prev < rows && IsUsize(rows) ==> |r| <= |block| && SatSub(prev, prevUnterminated) + |r| <= rows - 1
  {
    if prev < rows then
      var available := SatSub(rows, SatAdd(SatSub(prev, prevUnterminated), 1));
      block[..Min(|block|, available)]
    else []
  }

  /** An append that fits: the rows kept from before and the rows written
      after them are the first page of the new formatted text. */
  lemma AppendedRowsFillFirstPage(kept: seq<string>, block: seq<string>, rows: nat, prev: nat, prevUnterminated: nat)
    requires IsUsize(rows) && prev < rows && prevUnterminated <= prev && |kept| == prev - prevUnterminated
    ensures kept + AppendedRows(prev, prevUnterminated, rows, block) == Page(kept + block, 0, rows - 1)
  {
    var written := AppendedRows(prev, prevUnterminated, rows, block);
    var all := kept + block;
    assert |written| == Min(|block|, rows - 1 - |kept|);
    if all != [] {
      assert kept + written == all[..Min(rows - 1, |all|)];
    }
  }

  /** `draw_append_text`: a full redraw draws the whole page again; a
      partial update writes the new rows below the kept ones, moving the
      cursor there first, which panics when that row does not fit in 16
      bits. */
  method DrawAppendText(p: PagerState, prevUnterminated: nat, prevFmtLinesCount: nat, style: AppendStyle)
    returns (r: Drawn)
    modifies p`upperMark
    ensures style.FullRedraw? ==> p.upperMark == ClampUpper(old(p.upperMark), SatSub(p.rows, 1), |p.formattedLines|)
    ensures style.FullRedraw? ==> (r.Wrote? <==> p.rows <= U16_MAX) && !r.Panicked?
    ensures style.PartialUpdate? ==>
              && p.upperMark == old(p.upperMark)
              && (r.Panicked? <==> prevFmtLinesCount < p.rows && SatSub(prevFmtLinesCount, prevUnterminated) > U16_MAX)
              && (!r.Panicked? ==> r == Wrote(AppendedRows(prevFmtLinesCount, prevUnterminated, p.rows, style.rows)))
  {
    if style.FullRedraw? {
      r := DrawFull(p);
      return;
    }
    var fmtText := style.rows;
    if prevFmtLinesCount < p.rows {
      if SatSub(prevFmtLinesCount, prevUnterminated) > U16_MAX {
        return Panicked;
      }
      var availableRows := SatSub(p.rows, SatAdd(SatSub(prevFmtLinesCount, prevUnterminated), 1));
      var numAppendable := Min(|fmtText|, availableRows);
      r := Wrote(fmtText[0..numAppendable]);
    } else {
      r := Wrote([]);
    }
  }
}
