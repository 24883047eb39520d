/** The older drawing routines of the core (src/core/display/mod.rs):
    `draw2` moves the view by scrolling the terminal, `write_lines` and
    `draw` repaint the whole page. They share the page arithmetic of
    `Display`; the rows are read through the state's bounded view of its
    formatted rows. */
module CoreDraw {
  import opened Common
  import opened PagerStates
  import opened Display

  /** The plan of `draw2` as written for `lineCount` rows of text, `rows`
      terminal rows, the mark `upper` and the mark asked for. The distance
      of the move is measured to the mark asked for, before it is clamped
      to the last full page. Moving up scrolls the terminal by that whole
      distance, a `u16`, so a jump of more than 65535 rows panics whatever
      the terminal's size. */
  function Draw2PlanAsWritten(lineCount: nat, rows: nat, upper: nat, target: nat): (r: Result<Change>)
    ensures r.Panic? <==> rows > U16_MAX || (ClampUpper(target, SatSub(rows, 1), lineCount) < upper && AbsDiff(target, upper) > U16_MAX)
    ensures r.Ok? && r.value.Moved? ==> r.value.scroll == if r.value.down then Min(AbsDiff(target, upper), SatSub(rows, 1)) else AbsDiff(target, upper)
  {
    var t := ClampUpper(target, SatSub(rows, 1), lineCount);
    var delta := AbsDiff(target, upper);
    if t < upper && delta > U16_MAX then Panic
    else if rows > U16_MAX then Panic
    else Ok(Draw2Moves(lineCount, rows, upper, target, delta, delta))
  }

  /** The plan of `draw2` with the distance measured to the clamped mark and
      the terminal scrolled up by at most a page, as `draw_for_change` does:
      it panics only when the terminal height does not fit in 16 bits. */
  function Draw2Plan(lineCount: nat, rows: nat, upper: nat, target: nat): (r: Result<Change>)
    ensures r.Panic? <==> rows > U16_MAX
    ensures r.Ok? && r.value.Moved? ==> r.value.scroll == Min(AbsDiff(r.value.upper, upper), SatSub(rows, 1))
  {
    if rows > U16_MAX then Panic
    else
      var writable := SatSub(rows, 1);
      var delta := AbsDiff(ClampUpper(target, writable, lineCount), upper);
      Ok(Draw2Moves(lineCount, rows, upper, target, delta, Min(delta, writable)))
  }

  /** The rows `draw2` writes for a move of `delta` rows, the terminal
      scrolling up by a page at most and down by `upScroll` rows: moving
      down, the rows from the old page's end to the new unclamped page's
      end; moving up, the rows from the new mark on, a page at most. */
  function Draw2Moves(lineCount: nat, rows: nat, upper: nat, target: nat, delta: nat, upScroll: nat): (c: Change)
    ensures c.Unmoved? <==> ClampUpper(target, SatSub(rows, 1), lineCount) == upper
    ensures c.Moved? ==> c.upper == ClampUpper(target, SatSub(rows, 1), lineCount) && (c.down <==> c.upper > upper)
    ensures c.Moved? ==> c.scroll == if c.down then Min(delta, SatSub(rows, 1)) else upScroll
  {
    var writable := SatSub(rows, 1);
    var lower := LowerBound(upper, writable, lineCount);
    var newLower := LowerBound(target, writable, lineCount);
    var t := ClampUpper(target, writable, lineCount);
    var k := Min(delta, writable);
    if t > upper then
      if k < rows then Moved(t, true, k, lower, newLower)
      else Moved(t, true, k, t, SatAdd(t, k))
    else if t < upper then Moved(t, false, upScroll, t, SatAdd(t, k))
    else Unmoved
  }

  /** A jump up of 70000 rows on a ten-row terminal: as written it panics,
      the corrected plan writes the page at the new mark. */
  lemma Draw2AsWrittenCounterexample()
    ensures Draw2PlanAsWritten(100000, 10, 70000, 0).Panic?
    ensures Draw2Plan(100000, 10, 70000, 0) == Ok(Moved(0, false, 9, 0, 9))
  {
  }

  /** 100 rows of text on a ten-row terminal. From the mark 90, asking for
      95 moves to the last full page at 91: as written the terminal scrolls
      five rows and one row is written, so only the rows 95 to 99 are in
      sight; the corrected plan scrolls one row and shows the page at 91.
      From the mark 95, past the last full page, asking for 93 writes only
      the rows 91 and 92 above the old ones, and asking for 200000 panics
      on a scroll of 199905 rows. */
  lemma Draw2ClampCounterexample(rs: seq<string>)
    requires |rs| == 100
    ensures Draw2PlanAsWritten(100, 10, 90, 95) == Ok(Moved(91, true, 5, 99, 104))
    ensures Draw2Plan(100, 10, 90, 95) == Ok(Moved(91, true, 1, 99, 104))
    ensures |Page(rs, 90, 9)[5..] + WithBounds(rs, 99, 104)| == 5 < |Page(rs, 91, 9)| == 9
    ensures Draw2PlanAsWritten(100, 10, 95, 93) == Ok(Moved(91, false, 2, 91, 93))
    ensures Draw2Plan(100, 10, 95, 93) == Ok(Moved(91, false, 4, 91, 95))
    ensures Draw2PlanAsWritten(100, 10, 95, 200000).Panic?
    ensures Draw2Plan(100, 10, 95, 200000) == Ok(Moved(91, false, 4, 91, 95))
  {
    assert WithBounds(rs, 99, 104) == rs[99..];
  }

  /** Where the as-written plan does not panic, both plans move to the same
      mark in the same direction. They write the same rows when the old page
      was a full page of the text or the view moves down, and differ in the
      terminal's scroll alone; when the mark asked for needs no clamping,
      the view moving down scrolls alike too. */
  lemma Draw2PlansAgree(lineCount: nat, rows: nat, upper: nat, target: nat)
    ensures var a, b := Draw2PlanAsWritten(lineCount, rows, upper, target), Draw2Plan(lineCount, rows, upper, target);
            a.Ok? ==> && b.Ok?
                      && (a.value.Moved? <==> b.value.Moved?)
                      && (a.value.Moved? && (a.value.down || LowerBound(upper, SatSub(rows, 1), lineCount) <= lineCount) ==>
                            a.value.(scroll := b.value.scroll) == b.value)
                      && (a.value.Moved? && ClampUpper(target, SatSub(rows, 1), lineCount) == target ==>
                            a.value.(scroll := b.value.scroll) == b.value && (a.value.down ==> a.value.scroll == b.value.scroll))
  {
  }

  /** Moving up, `draw2` leaves the page at the new mark on the terminal:
      the rows written and the old rows still in sight are that page. */
  lemma Draw2UpShowsPage(rs: seq<string>, rows: nat, upper: nat, target: nat)
    requires |rs| < USIZE_MAX
    requires LowerBound(upper, SatSub(rows, 1), |rs|) <= |rs|
    ensures var w, r := SatSub(rows, 1), Draw2Plan(|rs|, rows, upper, target);
            r.Ok? && r.value.Moved? && !r.value.down ==>
              && r.value.scroll <= |Page(rs, upper, w)|
              && Scrolled(Page(rs, upper, w), false, r.value.scroll, WithBounds(rs, r.value.start, r.value.end))
                 == Page(rs, r.value.upper, w)
  {
    var r := Draw2Plan(|rs|, rows, upper, target);
    if r.Ok? && r.value.Moved? && !r.value.down {
      ShortMoveIsChange(|rs|, rows, upper, target);
      PartialRedrawShowsPage(rs, rows, upper, target);
    }
  }

  /** Moving down, the old rows still in sight followed by the rows
      `draw2` writes end with the page at the new mark, and are exactly
      that page when the move is shorter than a page. */
  lemma Draw2DownShowsPage(rs: seq<string>, rows: nat, upper: nat, target: nat)
    requires |rs| < USIZE_MAX
    requires LowerBound(upper, SatSub(rows, 1), |rs|) <= |rs|
    ensures var w, r := SatSub(rows, 1), Draw2Plan(|rs|, rows, upper, target);
            r.Ok? && r.value.Moved? && r.value.down ==>
              var new_ := Page(rs, r.value.upper, w);
              && r.value.scroll <= |Page(rs, upper, w)|
              && var s := Page(rs, upper, w)[r.value.scroll..] + WithBounds(rs, r.value.start, r.value.end);
                 && |new_| <= |s| && s[|s| - |new_|..] == new_
                 && (r.value.upper - upper < w ==> s == new_)
  {
    var w, n := SatSub(rows, 1), |rs|;
    var r := Draw2Plan(n, rows, upper, target);
    if r.Ok? && r.value.Moved? && r.value.down {
      var c := r.value;
      var m := Min(w, n);
      var t := c.upper;
      assert c == Draw2Moves(n, rows, upper, target, t - upper, Min(t - upper, w));
      assert LowerBound(upper, w, n) == upper + m;
      assert LowerBound(t, w, n) == t + m;
      assert m == w;
      if t - upper < w {
        ShortMoveIsChange(n, rows, upper, target);
        PartialRedrawShowsPage(rs, rows, upper, target);
      } else {
        assert m == 0 || Min(c.end, n) == t + m by {
          if m > 0 && LowerBound(target, w, n) <= n {
            assert target == t;
          }
        }
        LongMoveDownEndsWithPage(rs, upper, t, m, c.start, c.end);
      }
    }
  }

  /** A move up, or down by less than a page, is the move `draw_for_change`
      makes. */
  lemma ShortMoveIsChange(lineCount: nat, rows: nat, upper: nat, target: nat)
    requires Draw2Plan(lineCount, rows, upper, target).Ok?
    requires var c := Draw2Plan(lineCount, rows, upper, target).value;
             c.Moved? && (!c.down || c.upper - upper < SatSub(rows, 1))
    ensures Draw2Plan(lineCount, rows, upper, target).value == ChangeFor(lineCount, rows, upper, target)
  {
  }

  /** Moving down by a page or more: nothing of the old page stays, and the
      rows written run up to the end of the new page. */
  lemma LongMoveDownEndsWithPage(rs: seq<string>, upper: nat, t: nat, m: nat, start: nat, end: nat)
    requires upper + m <= t && t + m <= |rs|
    requires m == 0 || (start == upper + m && Min(end, |rs|) == t + m)
    ensures var s := rs[upper..upper + m][m..] + WithBounds(rs, start, end);
            m <= |s| && s[|s| - m..] == rs[t..t + m]
  {
    if m > 0 && start < |rs| {
      assert WithBounds(rs, start, end) == rs[start..t + m];
    }
  }

  /** `draw2` as written: the mark asked for is clamped and handed back,
      the state is left as it is, and the rows written into the gap are
      returned. The distance of the move is taken before the clamp; a move
      up farther than 16 bits can count, or a terminal too tall for them,
      panics. */
  method Draw2(p: PagerState, newUpperMark: nat) returns (r: Result<seq<string>>, clamped: nat)
    ensures clamped == ClampUpper(newUpperMark, SatSub(p.rows, 1), |p.formattedLines|)
    ensures var plan := Draw2PlanAsWritten(|p.formattedLines|, p.rows, p.upperMark, newUpperMark);
            && (r.Panic? <==> plan.Panic?)
            && (r.Ok? ==> r.value == if plan.value.Moved? then WithBounds(p.formattedLines, plan.value.start, plan.value.end) else [])
  {
    var lineCount := p.NumLines();
    var writableRows := SatSub(p.rows, 1);
    var delta := AbsDiff(newUpperMark, p.upperMark);
    var lowerBound := LowerBound(p.upperMark, writableRows, lineCount);
    var newLowerBound := LowerBound(newUpperMark, writableRows, lineCount);
    clamped := newUpperMark;
    if newLowerBound > lineCount {
      clamped := SatSub(lineCount, writableRows);
    }
    var normalizedDelta := Min(delta, writableRows);
    var lines: seq<string>;
    if clamped > p.upperMark {
      if normalizedDelta < p.rows {
        lines := p.GetFormattedLinesWithBounds(lowerBound, newLowerBound);
      } else {
        lines := p.GetFormattedLinesWithBounds(clamped, SatAdd(clamped, normalizedDelta));
      }
    } else if clamped < p.upperMark {
      if delta > U16_MAX {
        return Panic, clamped;
      }
      lines := p.GetFormattedLinesWithBounds(clamped, SatAdd(clamped, normalizedDelta));
    } else {
      lines := [];
    }
    if p.rows > U16_MAX {
      return Panic, clamped;
    }
    r := Ok(lines);
  }

  /** `write_lines`: pulls the mark of `p` back so the page is full, and
      writes the page, the rows separated by a newline and a carriage
      return. The two-way choice of the new mark is the clamp `Display`
      uses; the rows are taken up to the lower mark computed before it. */
  method WriteLines(p: PagerState) returns (out: string)
    modifies p`upperMark
    ensures p.upperMark == ClampUpper(old(p.upperMark), SatSub(p.rows, 1), |p.formattedLines|)
    ensures IsUsize(|p.formattedLines|) ==> out == "\r" + Join(Page(p.formattedLines, p.upperMark, SatSub(p.rows, 1)), "\n\r")
  {
    var lineCount := p.NumLines();
    var rows := SatSub(p.rows, 1);
    var lowerMark := LowerBound(p.upperMark, rows, lineCount);
    if lowerMark > lineCount {
      p.upperMark := if lineCount < p.rows then 0 else SatSub(lineCount, rows);
    }
    var displayed := p.GetFormattedLinesWithBounds(p.upperMark, lowerMark);
    out := "\r" + Join(displayed, "\n\r");
  }

  /** `draw`: clears the terminal, writes the page and then the prompt; a
      terminal taller than 16 bits can address is an error, after the page
      was written. */
  method Draw(p: PagerState) returns (r: Drawn)
    modifies p`upperMark
    ensures p.upperMark == ClampUpper(old(p.upperMark), SatSub(p.rows, 1), |p.formattedLines|)
    ensures r.Wrote? <==> p.rows <= U16_MAX
    ensures !r.Panicked?
    ensures r.Wrote? && IsUsize(|p.formattedLines|) ==> r.rows == Page(p.formattedLines, p.upperMark, SatSub(p.rows, 1))
  {
    var lineCount := p.NumLines();
    var rows := SatSub(p.rows, 1);
    var lowerMark := LowerBound(p.upperMark, rows, lineCount);
    var _ := WriteLines(p);
    var page := p.GetFormattedLinesWithBounds(p.upperMark, lowerMark);
    if p.rows > U16_MAX {
      return ConversionError;
    }
    r := Wrote(page);
  }
}
