/** The event handler of the command loop (src/core/ev_handler.rs):
    `handle_event` applies one `Command` to the pager state of its
    generation (with a `screen` and a `search_state`), and may append
    follow-up commands to the command queue. Terminal output is not
    modelled; the effects delegated to code outside this model (laying
    out the text, appending to it, and choosing the next match) are
    parameters. The `Search` arm reads a query from the terminal and is
    left out. */
module CoreEventHandler {
  import opened Common
  import opened LineNumbering
  import I = Inputs
  import LP = LegacyPager
  import D = Display
  import SM = Search
  import opened Commands

  /** The screen fields the handler reads and writes. */
  datatype Screen = Screen(
    origText: string, formattedLines: seq<string>, lineCount: nat, maxLineLength: nat, lineWrapping: bool)

  /** The search state: `term` stands for the compiled regular expression,
      `idx` lists the lines with a match in ascending order, and the
      incremental-search condition is a numbered closure. */
  datatype SearchState = SearchState(term: Option<nat>, idx: seq<nat>, mark: nat, incrementalCondition: nat)

  /** The fields set by the application; closures are numbered. */
  datatype Settings = Settings(
    exitStrategy: LP.ExitStrategy, runNoOverflow: bool, inputClassifier: nat,
    exitCallbacks: seq<nat>, showPrompt: bool)

  /** The pager state, grouped as above; `running` is whether the pager
      has started, and `callbacksRun` records the exit callbacks in the
      order they were called. */
  datatype State = State(
    screen: Screen,
    search: SearchState,
    upperMark: nat,
    leftMark: nat,
    rows: nat,
    cols: nat,
    lineNumbers: LineNumbers,
    message: Option<string>,
    prompt: string,
    followOutput: bool,
    running: bool,
    settings: Settings,
    callbacksRun: seq<nat>)

  /** Everything one call changes: the pager state, the command queue and
      the shared exit flag. */
  datatype Snap = Snap(p: State, queue: seq<Command>, exited: bool)

  /** The effects taken from outside the handler: the rows `format_lines`
      lays the text out in (from the text, the line number setting, the
      width and whether lines wrap); `append_str`, giving the new screen
      and whether a full redraw is needed; and `next_nth_match`, giving
      the position in the match index of the n-th match after a line. */
  datatype Env = Env(
    format: (string, LineNumbers, nat, bool) -> seq<string>,
    append: (Screen, string) -> (Screen, bool),
    nextNth: (seq<nat>, nat, nat) -> Option<nat>)

  function FormattedCount(p: State): nat
  {
    |p.screen.formattedLines|
  }

  /** `format_lines`. */
  function Reformat(p: State, env: Env): State
  {
    p.(screen := p.screen.(formattedLines := env.format(p.screen.origText, p.lineNumbers, p.cols, p.screen.lineWrapping)))
  }

  /** The rows are the layout of the current text. */
  predicate Formatted(p: State, env: Env)
  {
    p.screen.formattedLines == env.format(p.screen.origText, p.lineNumbers, p.cols, p.screen.lineWrapping)
  }

  function Enqueue(s: Snap, cs: seq<Command>): Snap
  {
    s.(queue := s.queue + cs)
  }

  function WithMark(p: State, mark: nat): State
  {
    p.(search := p.search.(mark := mark))
  }

  /** A page starting at `upper` ends within the text plus the prompt row. */
  predicate Fits(upper: nat, rows: nat, count: nat)
  {
    SatAdd(upper, rows) <= SatAdd(count, 1)
  }

  /** The search mark `MoveToNextMatch(n)` settles on: from the chosen
      match, step back to earlier matches while the page starting at the
      match would run past the end of the text, stopping at the first
      match. */
  function Settle(idx: seq<nat>, mark: nat, rows: nat, count: nat): (r: nat)
    requires mark < |idx|
    ensures r <= mark
    ensures r == 0 || Fits(idx[r], rows, count)
    ensures forall j :: r < j <= mark ==> !Fits(idx[j], rows, count)
  {
    if mark == 0 || Fits(idx[mark], rows, count) then mark
    else Settle(idx, mark - 1, rows, count)
  }

  /** The loop of the `MoveToNextMatch(n)` arm, stepping the mark back. */
  method SettleMark(idx: seq<nat>, start: nat, rows: nat, count: nat) returns (m: nat)
    requires start < |idx|
    ensures m == Settle(idx, start, rows, count)
  {
    m := start;
    while m > 0 && !Fits(idx[m], rows, count)
      invariant m <= start
      invariant Settle(idx, start, rows, count) == Settle(idx, m, rows, count)
    {
      m := m - 1;
    }
  }

  /** The `NextMatch` and `MoveToNextMatch(1)` arm: the mark goes to the
      chosen match, and moving the page to that match and redrawing the
      prompt are queued; a position outside the index panics. */
  function NextOne(s: Snap, env: Env): Result<Snap>
  {
    var idx := s.p.search.idx;
    match env.nextNth(idx, s.p.upperMark, 1)
    case None => Ok(s)
    case Some(pnm) =>
      if pnm >= |idx| then Panic
      else Ok(Enqueue(s.(p := WithMark(s.p, pnm)), [UserInput(I.UpdateUpperMark(idx[pnm])), FormatRedrawPrompt]))
  }

  /** The `MoveToNextMatch(n)` arm for n other than 1, with the loop
      settling on a match whose page fits (see `Settle`). */
  function NextN(s: Snap, n: nat, env: Env): Result<Snap>
  {
    var idx := s.p.search.idx;
    match env.nextNth(idx, s.p.upperMark, n)
    case None => Ok(s)
    case Some(pnm) =>
      if pnm >= |idx| then Panic
      else
        var m := Settle(idx, pnm, s.p.rows, FormattedCount(s.p));
        Ok(Enqueue(s.(p := WithMark(s.p, m)), [UserInput(I.UpdateUpperMark(idx[m])), FormatRedrawPrompt]))
  }

  /** The `PrevMatch` and `MoveToPrevMatch(1)` arm: with matches, the mark
      steps back one, and when that match lies above the page the page
      moves there and redrawing the prompt and the move are queued. */
  function PrevOne(s: Snap): Snap
  {
    var idx := s.p.search.idx;
    if idx == [] then s
    else
      var m := SatSub(s.p.search.mark, 1);
      var q := s.(p := WithMark(s.p, m));
      if m < |idx| && idx[m] < s.p.upperMark then
        Enqueue(q.(p := q.p.(upperMark := idx[m])), [FormatRedrawPrompt, UserInput(I.UpdateUpperMark(idx[m]))])
      else q
  }

  /** The `MoveToPrevMatch(n)` arm for n other than 1: the mark steps back
      n, and only a move to a match above the page is queued. */
  function PrevN(s: Snap, n: nat): Snap
  {
    var idx := s.p.search.idx;
    if idx == [] then s
    else
      var m := SatSub(s.p.search.mark, n);
      var q := s.(p := WithMark(s.p, m));
      if m < |idx| && idx[m] < s.p.upperMark then
        Enqueue(q, [UserInput(I.UpdateUpperMark(idx[m])), FormatRedrawPrompt])
      else q
  }

  /** `FollowOutput(b)`, as a command or as user input. */
  function Follow(s: Snap, b: bool): Snap
  {
    Enqueue(s.(p := s.p.(followOutput := b)), [UserInput(I.UpdateUpperMark(FormattedCount(s.p))), FormatRedrawPrompt])
  }

  /** The match-navigation inputs. */
  predicate Navigation(input: I.InputEvent)
  {
    input.NextMatch? || input.PrevMatch? || input.MoveToNextMatch? || input.MoveToPrevMatch?
  }

  /** The match-navigation arms, taken only with a search term. */
  function Navigate(s: Snap, input: I.InputEvent, env: Env): Result<Snap>
    requires Navigation(input)
  {
    if s.p.search.term.None? then Ok(s)
    else if input.NextMatch? || input == I.MoveToNextMatch(1) then NextOne(s, env)
    else if input.PrevMatch? || input == I.MoveToPrevMatch(1) then Ok(PrevOne(s))
    else if input.MoveToNextMatch? then NextN(s, input.count, env)
    else Ok(PrevN(s, input.count))
  }

  /** The final upper mark of `UpdateUpperMark(um)`: the target as
      `draw_for_change` clamps it to the last full page. */
  function ClampedMark(p: State, um: nat): nat
  {
    D.ClampUpper(um, SatSub(p.rows, 1), FormattedCount(p))
  }

  /** What `draw_full` does to the state: it pulls the upper mark back so
      the page does not run past the last row. */
  function Redrawn(p: State): (r: State)
    ensures D.LowerBound(r.upperMark, SatSub(p.rows, 1), FormattedCount(p)) <= FormattedCount(p)
    ensures D.LowerBound(p.upperMark, SatSub(p.rows, 1), FormattedCount(p)) <= FormattedCount(p) ==> r == p
    ensures r.(upperMark := p.upperMark) == p
  {
    p.(upperMark := ClampedMark(p, p.upperMark))
  }

  /** The user-input arms, other than `Search`. */
  function Input(s: Snap, input: I.InputEvent, env: Env): Result<Snap>
    requires !input.Search?
  {
    var p := s.p;
    match input
    case Exit => Ok(Snap(p.(callbacksRun := p.callbacksRun + p.settings.exitCallbacks), s.queue, true))
    case UpdateUpperMark(um) =>
      if ClampedMark(p, um) != ClampedMark(p, p.upperMark) && p.rows > U16_MAX then Panic
      else Ok(s.(p := p.(upperMark := ClampedMark(p, um))))
    case UpdateLeftMark(lm) =>
      if p.screen.lineWrapping || (SatAdd(lm, p.cols) > p.screen.maxLineLength && lm > p.leftMark) then Ok(s)
      else Ok(s.(p := Redrawn(p.(leftMark := lm))))
    case RestorePrompt => Ok(Enqueue(s.(p := p.(message := None)), [FormatRedrawPrompt]))
    case UpdateTermArea(c, r) => Ok(Enqueue(s.(p := p.(rows := r, cols := c)), [FormatRedrawDisplay]))
    case UpdateLineNumber(l) => Ok(Enqueue(s.(p := p.(lineNumbers := l)), [FormatRedrawDisplay]))
    case NextMatch => Navigate(s, input, env)
    case PrevMatch => Navigate(s, input, env)
    case MoveToNextMatch(_) => Navigate(s, input, env)
    case MoveToPrevMatch(_) => Navigate(s, input, env)
    case HorizontalScroll(on) =>
      Ok(Enqueue(s.(p := p.(screen := p.screen.(lineWrapping := on))), [FormatRedrawDisplay]))
    case FollowOutput(b) => Ok(Follow(s, b))
    case _ => Ok(s)
  }

  /** `AppendData`: the text is appended; when the pager runs, a full
      redraw pulls the mark back, and otherwise, when output is followed,
      a move to the new end is queued. */
  function Append(s: Snap, text: string, env: Env): Snap
  {
    var (screen, fullRedraw) := env.append(s.p.screen, text);
    var q := s.(p := s.p.(screen := screen));
    if s.p.running && fullRedraw then q.(p := Redrawn(q.p))
    else if s.p.running && s.p.followOutput then Enqueue(q, [UserInput(I.UpdateUpperMark(|screen.formattedLines|))])
    else q
  }

  /** `handle_event`, one arm per command. */
  function Step(s: Snap, ev: Command, env: Env): Result<Snap>
    requires !(ev.UserInput? && ev.input.Search?)
  {
    var p := s.p;
    match ev
    case SetData(text) =>
      var f := Reformat(p.(screen := p.screen.(origText := text)), env);
      var g := f.(screen := f.screen.(lineCount := |Lines(text)|));
      Ok(s.(p := if p.running then Redrawn(g) else g))
    case UserInput(input) => Input(s, input, env)
    case FormatRedrawDisplay => Ok(s.(p := Redrawn(Reformat(p, env))))
    case AppendData(text) => Ok(Append(s, text, env))
    case SetPrompt(text) => Ok(s.(p := p.(prompt := text)))
    case SendMessage(text) => Ok(s.(p := p.(message := Some(text))))
    case SetLineNumbers(ln) => Ok(s.(p := Reformat(p.(lineNumbers := ln), env)))
    case FormatRedrawPrompt => Ok(s)
    case SetExitStrategy(es) => Ok(s.(p := p.(settings := p.settings.(exitStrategy := es))))
    case LineWrapping(on) => Ok(s.(p := Reformat(p.(screen := p.screen.(lineWrapping := on)), env)))
    case SetRunNoOverflow(v) => Ok(s.(p := p.(settings := p.settings.(runNoOverflow := v))))
    case IncrementalSearchCondition(c) => Ok(s.(p := p.(search := p.search.(incrementalCondition := c))))
    case SetInputClassifier(c) => Ok(s.(p := p.(settings := p.settings.(inputClassifier := c))))
    case AddExitCallback(cb) => Ok(s.(p := p.(settings := p.settings.(exitCallbacks := p.settings.exitCallbacks + [cb]))))
    case ShowPrompt(show) => Ok(s.(p := p.(settings := p.settings.(showPrompt := show))))
    case FollowOutput(b) => Ok(Follow(s, b))
  }

  // ---------------------------------------------------------------------
  // Properties of the transitions

  /** The page moves to the target clamped to the last full page: the
      smaller of the target and the start of the last full page, so the
      page never runs past the text; a second identical move changes
      nothing, and nothing else changes. A move on a terminal taller than
      16 bits can address panics. */
  lemma UpperMarkClamped(s: Snap, um: nat, env: Env)
    requires FormattedCount(s.p) < USIZE_MAX
    ensures Step(s, UserInput(I.UpdateUpperMark(um)), env).Panic?
            <==> s.p.rows > U16_MAX && ClampedMark(s.p, um) != ClampedMark(s.p, s.p.upperMark)
    ensures var r := Step(s, UserInput(I.UpdateUpperMark(um)), env);
            r.Ok? ==>
            && r.value.p.upperMark == Min(um, SatSub(FormattedCount(s.p), SatSub(s.p.rows, 1)))
            && D.LowerBound(r.value.p.upperMark, SatSub(s.p.rows, 1), FormattedCount(s.p)) <= FormattedCount(s.p)
            && r.value.(p := r.value.p.(upperMark := s.p.upperMark)) == s
            && Step(r.value, UserInput(I.UpdateUpperMark(um)), env) == r
  {
    D.ClampIsLastFullPage(um, SatSub(s.p.rows, 1), FormattedCount(s.p));
  }

  /** With wrapping on the left mark never moves; with wrapping off a move
      is refused exactly when it goes right and the page would run past
      the longest line, and is otherwise taken as given, the full redraw
      pulling the upper mark back to the last full page. */
  lemma LeftMarkMoves(s: Snap, lm: nat, env: Env)
    ensures var r := Step(s, UserInput(I.UpdateLeftMark(lm)), env);
            && r.Ok?
            && (s.p.screen.lineWrapping ==> r.value == s)
            && (!s.p.screen.lineWrapping ==>
                  (r.value.p.leftMark == lm <==> lm == s.p.leftMark || SatAdd(lm, s.p.cols) <= s.p.screen.maxLineLength || lm <= s.p.leftMark))
    ensures var r := Step(s, UserInput(I.UpdateLeftMark(lm)), env);
            var taken := !s.p.screen.lineWrapping && !(SatAdd(lm, s.p.cols) > s.p.screen.maxLineLength && lm > s.p.leftMark);
            && (taken ==> r.value == s.(p := s.p.(leftMark := lm, upperMark := ClampedMark(s.p, s.p.upperMark))))
            && (!taken ==> r.value == s)
  {
  }

  /** Restoring the prompt drops the message and queues a prompt redraw. */
  lemma RestoreClearsMessage(s: Snap, env: Env)
    ensures Step(s, UserInput(I.RestorePrompt), env) == Ok(Snap(s.p.(message := None), s.queue + [FormatRedrawPrompt], s.exited))
  {
  }

  /** A resize, a line-number change and a wrapping change each set their
      field and queue a full redraw; running that redraw lays the text out
      for the new setting. */
  lemma LayoutChangesQueueRedraw(s: Snap, c: nat, r: nat, l: LineNumbers, on: bool, env: Env)
    ensures var t := Step(s, UserInput(I.UpdateTermArea(c, r)), env);
            t.Ok? && t.value.p.rows == r && t.value.p.cols == c && t.value.queue == s.queue + [FormatRedrawDisplay]
            && RedrawnLayout(t.value, env)
            && Step(t.value, FormatRedrawDisplay, env).value.p.cols == c
    ensures var t := Step(s, UserInput(I.UpdateLineNumber(l)), env);
            t.Ok? && t.value.p.lineNumbers == l && t.value.queue == s.queue + [FormatRedrawDisplay]
            && RedrawnLayout(t.value, env)
    ensures var t := Step(s, UserInput(I.HorizontalScroll(on)), env);
            t.Ok? && t.value.p.screen.lineWrapping == on && t.value.queue == s.queue + [FormatRedrawDisplay]
            && RedrawnLayout(t.value, env)
  {
    RedrawLaysOut(Step(s, UserInput(I.UpdateTermArea(c, r)), env).value, env);
    RedrawLaysOut(Step(s, UserInput(I.UpdateLineNumber(l)), env).value, env);
    RedrawLaysOut(Step(s, UserInput(I.HorizontalScroll(on)), env).value, env);
  }

  /** `FormatRedrawDisplay` never fails, and leaves the laid-out state of
      `RedrawnLayout`. */
  lemma RedrawLaysOut(t: Snap, env: Env)
    ensures Step(t, FormatRedrawDisplay, env).Ok? && RedrawnLayout(t, env)
  {
  }

  /** After `FormatRedrawDisplay` from `t` the rows are the layout of the
      text, the upper mark is the old one pulled back to the last full
      page of that layout, and nothing else changes. */
  predicate RedrawnLayout(t: Snap, env: Env)
    requires !(Step(t, FormatRedrawDisplay, env).Panic?)
  {
    var q := Step(t, FormatRedrawDisplay, env).value;
    && Formatted(q.p, env)
    && q.p.upperMark == ClampedMark(q.p, t.p.upperMark)
    && D.LowerBound(q.p.upperMark, SatSub(q.p.rows, 1), FormattedCount(q.p)) <= FormattedCount(q.p)
    && q == t.(p := q.p) && q.p.(upperMark := t.p.upperMark, screen := t.p.screen) == t.p
  }

  /** Without a search term no match-navigation input does anything. */
  lemma NoTermNoNavigation(s: Snap, n: nat, env: Env)
    requires s.p.search.term.None?
    ensures Step(s, UserInput(I.NextMatch), env) == Ok(s)
    ensures Step(s, UserInput(I.PrevMatch), env) == Ok(s)
    ensures Step(s, UserInput(I.MoveToNextMatch(n)), env) == Ok(s)
    ensures Step(s, UserInput(I.MoveToPrevMatch(n)), env) == Ok(s)
  {
  }

  /** `MoveToPrevMatch(n)` with n other than 1: with no matches nothing
      happens; otherwise the mark steps back n, stopping at zero, the page
      itself stays, and a move followed by a prompt redraw is queued
      exactly when that match lies above the page. */
  lemma PrevNMoves(s: Snap, n: nat, env: Env)
    requires s.p.search.term.Some? && n != 1
    ensures var r := Step(s, UserInput(I.MoveToPrevMatch(n)), env);
            && r.Ok?
            && (s.p.search.idx == [] ==> r.value == s)
            && (s.p.search.idx != [] ==>
                  var m := SatSub(s.p.search.mark, n);
                  && r.value.p == WithMark(s.p, m)
                  && r.value.exited == s.exited
                  && (m < |s.p.search.idx| && s.p.search.idx[m] < s.p.upperMark
                      ==> r.value.queue == s.queue + [UserInput(I.UpdateUpperMark(s.p.search.idx[m])), FormatRedrawPrompt])
                  && (!(m < |s.p.search.idx| && s.p.search.idx[m] < s.p.upperMark) ==> r.value.queue == s.queue))
  {
  }

  /** `PrevMatch` moves the page itself up to the match it lands on, and
      queues the prompt redraw before the move. */
  lemma PrevOneMoves(s: Snap, env: Env)
    requires s.p.search.term.Some? && s.p.search.idx != []
    requires SatSub(s.p.search.mark, 1) < |s.p.search.idx|
    ensures var r := Step(s, UserInput(I.PrevMatch), env);
            var y := s.p.search.idx[SatSub(s.p.search.mark, 1)];
            && r.Ok?
            && r.value.p.search.mark == SatSub(s.p.search.mark, 1)
            && r.value.p.upperMark == Min(s.p.upperMark, y)
            && r.value.queue == s.queue + (if y < s.p.upperMark then [FormatRedrawPrompt, UserInput(I.UpdateUpperMark(y))] else [])
  {
  }

  /** `NextMatch` panics exactly when the chosen position lies outside the
      index; otherwise the mark goes to that position and a move to its
      line is queued before the prompt redraw. */
  lemma NextOneMoves(s: Snap, env: Env)
    requires s.p.search.term.Some?
    ensures var r := Step(s, UserInput(I.NextMatch), env);
            var pos := env.nextNth(s.p.search.idx, s.p.upperMark, 1);
            && (r.Panic? <==> pos.Some? && pos.value >= |s.p.search.idx|)
            && (pos.None? ==> r == Ok(s))
            && (r.Ok? && pos.Some? ==>
                  && r.value.p == WithMark(s.p, pos.value)
                  && r.value.queue == s.queue + [UserInput(I.UpdateUpperMark(s.p.search.idx[pos.value])), FormatRedrawPrompt])
  {
  }

  /** The position `next_nth_match` chooses in the search model: the
      n-th match after the line, else the last match; none when there are
      no matches. */
  function SearchPosition(idx: seq<nat>, upper: nat, n: nat): Option<nat>
  {
    if idx == [] then None else Some(SM.NthMark(idx, upper, n))
  }

  /** With that choice `NextMatch` never panics. */
  lemma SearchPositionInside(idx: seq<nat>, upper: nat, n: nat)
    ensures SearchPosition(idx, upper, n).Some? <==> idx != []
    ensures SearchPosition(idx, upper, n).Some? ==> SearchPosition(idx, upper, n).value < |idx|
  {
  }

  /** `MoveToNextMatch(n)` for n other than 1 settles on a match whose
      page fits, or on the first match, never after the chosen one, and
      queues a move to its line before the prompt redraw. */
  lemma NextNSettles(s: Snap, n: nat, env: Env)
    requires s.p.search.term.Some? && n != 1
    requires var pos := env.nextNth(s.p.search.idx, s.p.upperMark, n); pos.Some? && pos.value < |s.p.search.idx|
    ensures var r := Step(s, UserInput(I.MoveToNextMatch(n)), env);
            var pos := env.nextNth(s.p.search.idx, s.p.upperMark, n).value;
            var m := r.value.p.search.mark;
            && r.Ok?
            && m <= pos
            && (m == 0 || Fits(s.p.search.idx[m], s.p.rows, FormattedCount(s.p)))
            && (Fits(s.p.search.idx[pos], s.p.rows, FormattedCount(s.p)) ==> m == pos)
            && r.value.p == WithMark(s.p, m)
            && r.value.queue == s.queue + [UserInput(I.UpdateUpperMark(s.p.search.idx[m])), FormatRedrawPrompt]
  {
  }

  /** `FollowOutput` sets the flag and queues a move to the end of the text
      and then a prompt redraw, the same as a command or as user input. */
  lemma FollowQueuesMove(s: Snap, b: bool, env: Env)
    ensures var r := Step(s, FollowOutput(b), env);
            && r.Ok?
            && r.value.p == s.p.(followOutput := b)
            && r.value.queue == s.queue + [UserInput(I.UpdateUpperMark(FormattedCount(s.p))), FormatRedrawPrompt]
            && r == Step(s, UserInput(I.FollowOutput(b)), env)
  {
  }

  /** New text is laid out afresh and its lines counted; when the pager
      runs, the full redraw pulls the upper mark back to the last full page
      of the new layout. */
  lemma SetDataLaysOut(s: Snap, text: string, env: Env)
    ensures var r := Step(s, SetData(text), env);
            r.Ok? && r.value.p.screen.origText == text && r.value.p.screen.lineCount == |Lines(text)|
            && Formatted(r.value.p, env) && r.value.queue == s.queue
            && r.value.p.upperMark == (if s.p.running then ClampedMark(r.value.p, s.p.upperMark) else s.p.upperMark)
            && (s.p.running ==> D.LowerBound(r.value.p.upperMark, SatSub(s.p.rows, 1), FormattedCount(r.value.p)) <= FormattedCount(r.value.p))
            && r.value.p.(upperMark := s.p.upperMark, screen := s.p.screen) == s.p
  {
  }

  /** Appending queues a move to the new end exactly when the pager runs,
      no full redraw is needed and output is followed; a full redraw while
      the pager runs pulls the upper mark back to the last full page. */
  lemma AppendFollows(s: Snap, text: string, env: Env)
    ensures var r := Step(s, AppendData(text), env);
            var (screen, full) := env.append(s.p.screen, text);
            && r.Ok?
            && r.value.p == (if s.p.running && full then Redrawn(s.p.(screen := screen)) else s.p.(screen := screen))
            && (s.p.running && !full && s.p.followOutput ==> r.value.queue == s.queue + [UserInput(I.UpdateUpperMark(|screen.formattedLines|))])
            && (!(s.p.running && !full && s.p.followOutput) ==> r.value.queue == s.queue)
  {
  }

  /** Setting the exit strategy or adding an exit callback changes that
      field alone; exiting then runs the callbacks in the order added and
      raises the exit flag. */
  lemma SettingsAndExit(s: Snap, es: LP.ExitStrategy, cb: nat, env: Env)
    ensures Step(s, SetExitStrategy(es), env) == Ok(s.(p := s.p.(settings := s.p.settings.(exitStrategy := es))))
    ensures var a := Step(s, AddExitCallback(cb), env);
            && a.Ok?
            && a.value.p.settings.exitCallbacks == s.p.settings.exitCallbacks + [cb]
            && a.value.(p := a.value.p.(settings := s.p.settings)) == s
            && var e := Step(a.value, UserInput(I.Exit), env);
               e.Ok? && e.value.exited && e.value.p.callbacksRun == s.p.callbacksRun + s.p.settings.exitCallbacks + [cb]
  {
  }

  /** Commands that only redraw change no state. */
  lemma RedrawPromptIsPure(s: Snap, env: Env)
    ensures Step(s, FormatRedrawPrompt, env) == Ok(s)
  {
  }

  // ---------------------------------------------------------------------
  // The loop of the `MoveToNextMatch(n)` arm as written

  /** The loop as written tests the current upper mark rather than the
      chosen match, and at the first match it stays put: `None` when it
      never ends, otherwise the final search mark and upper mark. */
  function SettleAsWritten(idx: seq<nat>, mark: nat, upper: nat, rows: nat, count: nat): (r: Option<(nat, nat)>)
    requires mark < |idx|
    ensures r.Some? ==> r.value.0 <= mark && Fits(r.value.1, rows, count)
    decreases mark, if mark == 0 && upper == idx[0] then 0 else 1
  {
    if Fits(upper, rows, count) then Some((mark, upper))
    else if mark == 0 && upper == idx[0] then None
    else SettleAsWritten(idx, SatSub(mark, 1), idx[SatSub(mark, 1)], rows, count)
  }

  /** The loop as written never ends exactly when neither the current
      page nor the page at any match up to the chosen one fits. */
  lemma {:induction false} SettleAsWrittenHangs(idx: seq<nat>, mark: nat, upper: nat, rows: nat, count: nat)
    requires mark < |idx|
    ensures SettleAsWritten(idx, mark, upper, rows, count).None?
            <==> !Fits(upper, rows, count) && forall j :: 0 <= j <= SatSub(mark, 1) ==> !Fits(idx[j], rows, count)
    decreases mark, if mark == 0 && upper == idx[0] then 0 else 1
  {
    if Fits(upper, rows, count) {
    } else if mark == 0 && upper == idx[0] {
    } else {
      SettleAsWrittenHangs(idx, SatSub(mark, 1), idx[SatSub(mark, 1)], rows, count);
    }
  }

  /** So on a text with fewer rows than the screen less one, no page fits
      and the loop never ends, whatever the matches. */
  lemma ShortTextHangs(idx: seq<nat>, mark: nat, upper: nat, rows: nat, count: nat)
    requires mark < |idx| && count + 1 < rows <= USIZE_MAX
    ensures SettleAsWritten(idx, mark, upper, rows, count).None?
  {
    forall u: nat
      ensures !Fits(u, rows, count)
    {
      assert SatAdd(u, rows) >= rows;
    }
    SettleAsWrittenHangs(idx, mark, upper, rows, count);
  }

  /** The `MoveToNextMatch(n)` arm as written, with `None` for a call that
      never returns: the loop moves the search mark and the upper mark,
      while the move queued is to the match chosen before the loop. */
  function NextNAsWritten(s: Snap, n: nat, env: Env): Option<Result<Snap>>
  {
    var idx := s.p.search.idx;
    match env.nextNth(idx, s.p.upperMark, n)
    case None => Some(Ok(s))
    case Some(pnm) =>
      if pnm >= |idx| then Some(Panic)
      else
        match SettleAsWritten(idx, pnm, s.p.upperMark, s.p.rows, FormattedCount(s.p))
        case None => None
        case Some((m, u)) =>
          Some(Ok(Enqueue(s.(p := WithMark(s.p, m).(upperMark := u)),
                          [UserInput(I.UpdateUpperMark(idx[pnm])), FormatRedrawPrompt])))
  }

  /** A two-row text on a ten-row screen with one match, on line 1: after
      `2n` the arm as written never returns, while the settled arm marks
      that match and queues a move to it. */
  lemma MoveToNextMatchHangs(s: Snap, env: Env)
    requires s.p.search.idx == [1] && s.p.search.term.Some? && s.p.rows == 10 && FormattedCount(s.p) == 2
    requires env.nextNth([1], s.p.upperMark, 2) == Some(0)
    ensures NextNAsWritten(s, 2, env).None?
    ensures Step(s, UserInput(I.MoveToNextMatch(2)), env)
            == Ok(Snap(WithMark(s.p, 0), s.queue + [UserInput(I.UpdateUpperMark(1)), FormatRedrawPrompt], s.exited))
  {
    ShortTextHangs([1], 0, s.p.upperMark, 10, 2);
  }

  // ---------------------------------------------------------------------
  // The mutable state

  /** The pager state `handle_event` mutates, its fields grouped as in
      `State`. */
  class PagerState {
    var screen: Screen
    var search: SearchState
    var upperMark: nat
    var leftMark: nat
    var rows: nat
    var cols: nat
    var lineNumbers: LineNumbers
    var message: Option<string>
    var prompt: string
    var followOutput: bool
    var running: bool
    var settings: Settings
    var callbacksRun: seq<nat>

    function Value(): State
      reads this
    {
      State(screen, search, upperMark, leftMark, rows, cols, lineNumbers, message, prompt,
            followOutput, running, settings, callbacksRun)
    }

    constructor(s: State)
      ensures Value() == s
    {
      screen, search, upperMark, leftMark, rows, cols := s.screen, s.search, s.upperMark, s.leftMark, s.rows, s.cols;
      lineNumbers, message, prompt, followOutput := s.lineNumbers, s.message, s.prompt, s.followOutput;
      running, settings, callbacksRun := s.running, s.settings, s.callbacksRun;
    }

    /** The state change of `draw_full`: `write_from_pagerstate` pulls the
        upper mark back to the last full page. */
    method DrawFull()
      modifies this`upperMark
      ensures Value() == Redrawn(old(Value()))
    {
      var lineCount := |screen.formattedLines|;
      var writable := SatSub(rows, 1);
      var lowerMark := SatAdd(upperMark, Min(writable, lineCount));
      if lowerMark > lineCount {
        upperMark := SatSub(lineCount, writable);
      }
    }

    /** `format_lines`. */
    method FormatLines(env: Env)
      modifies this`screen
      ensures screen == old(screen).(formattedLines := env.format(screen.origText, lineNumbers, cols, screen.lineWrapping))
    {
      screen := screen.(formattedLines := env.format(screen.origText, lineNumbers, cols, screen.lineWrapping));
    }
  }

  /** The queue of commands still to be handled. */
  class CommandQueue {
    var commands: seq<Command>

    constructor()
      ensures commands == []
    {
      commands := [];
    }

    /** `push_back` and `push_back_unchecked`. */
    method PushBack(c: Command)
      modifies this
      ensures commands == old(commands) + [c]
    {
      commands := commands + [c];
    }
  }

  /** The flag telling the other threads that the pager has exited. */
  class ExitFlag {
    var raised: bool

    constructor()
      ensures !raised
    {
      raised := false;
    }
  }

  function SnapOf(p: PagerState, queue: CommandQueue, exited: ExitFlag): Snap
    reads p, queue, exited
  {
    Snap(p.Value(), queue.commands, exited.raised)
  }

  /** `handle_event`: `ok` is false where the source panics. */
  method HandleEvent(ev: Command, p: PagerState, queue: CommandQueue, exited: ExitFlag, env: Env) returns (ok: bool)
    requires !(ev.UserInput? && ev.input.Search?)
    modifies p, queue, exited
    ensures ok <==> Step(old(SnapOf(p, queue, exited)), ev, env).Ok?
    ensures ok ==> SnapOf(p, queue, exited) == Step(old(SnapOf(p, queue, exited)), ev, env).value
  {
    ok := true;
    match ev {
      case UserInput(input) =>
        ok := HandleInput(input, p, queue, exited, env);
      case FollowOutput(b) =>
        FollowArm(b, p, queue);
      case AppendData(text) =>
        var wasRunning := p.running;
        var (screen, fullRedraw) := env.append(p.screen, text);
        p.screen := screen;
        if wasRunning && fullRedraw {
          p.DrawFull();
        } else if wasRunning && p.followOutput {
          queue.PushBack(UserInput(I.UpdateUpperMark(|p.screen.formattedLines|)));
        }
      case _ =>
        Configure(ev, p, queue.commands, exited.raised, env);
    }
  }

  /** The commands that lay the text out again. */
  predicate Relayout(ev: Command)
  {
    ev.SetData? || ev.FormatRedrawDisplay? || ev.SetLineNumbers? || ev.LineWrapping?
  }

  /** The commands that change the pager state alone. */
  method Configure(ev: Command, p: PagerState, ghost queue: seq<Command>, ghost exited: bool, env: Env)
    requires !ev.UserInput? && !ev.FollowOutput? && !ev.AppendData?
    modifies p
    ensures Step(Snap(old(p.Value()), queue, exited), ev, env) == Ok(Snap(p.Value(), queue, exited))
  {
    if Relayout(ev) {
      RelayoutArm(ev, p, queue, exited, env);
    } else {
      SettingArm(ev, p, queue, exited, env);
    }
  }

  /** The arms that lay the text out again. */
  method RelayoutArm(ev: Command, p: PagerState, ghost queue: seq<Command>, ghost exited: bool, env: Env)
    requires Relayout(ev)
    modifies p`screen, p`lineNumbers, p`upperMark
    ensures Step(Snap(old(p.Value()), queue, exited), ev, env) == Ok(Snap(p.Value(), queue, exited))
  {
    match ev {
      case SetData(text) =>
        p.screen := p.screen.(origText := text);
        p.FormatLines(env);
        p.screen := p.screen.(lineCount := |Lines(text)|);
        if p.running {
          p.DrawFull();
        }
      case FormatRedrawDisplay =>
        p.FormatLines(env);
        p.DrawFull();
      case SetLineNumbers(ln) =>
        p.lineNumbers := ln;
        p.FormatLines(env);
      case LineWrapping(on) =>
        p.screen := p.screen.(lineWrapping := on);
        p.FormatLines(env);
    }
  }

  /** The arms that set one field. */
  method SettingArm(ev: Command, p: PagerState, ghost queue: seq<Command>, ghost exited: bool, env: Env)
    requires !ev.UserInput? && !ev.FollowOutput? && !ev.AppendData? && !Relayout(ev)
    modifies p`prompt, p`message, p`settings, p`search
    ensures Step(Snap(old(p.Value()), queue, exited), ev, env) == Ok(Snap(p.Value(), queue, exited))
  {
    match ev {
      case SetPrompt(text) =>
        p.prompt := text;
      case SendMessage(text) =>
        p.message := Some(text);
      case FormatRedrawPrompt =>
      case SetExitStrategy(es) =>
        p.settings := p.settings.(exitStrategy := es);
      case SetRunNoOverflow(v) =>
        p.settings := p.settings.(runNoOverflow := v);
      case IncrementalSearchCondition(c) =>
        p.search := p.search.(incrementalCondition := c);
      case SetInputClassifier(c) =>
        p.settings := p.settings.(inputClassifier := c);
      case AddExitCallback(cb) =>
        p.settings := p.settings.(exitCallbacks := p.settings.exitCallbacks + [cb]);
      case ShowPrompt(show) =>
        p.settings := p.settings.(showPrompt := show);
    }
  }

  /** The `FollowOutput` arm. */
  method FollowArm(b: bool, p: PagerState, queue: CommandQueue)
    modifies p`followOutput, queue
    ensures p.followOutput == b
    ensures queue.commands == old(queue.commands) + [UserInput(I.UpdateUpperMark(|p.screen.formattedLines|)), FormatRedrawPrompt]
  {
    p.followOutput := b;
    queue.PushBack(UserInput(I.UpdateUpperMark(|p.screen.formattedLines|)));
    queue.PushBack(FormatRedrawPrompt);
  }

  /** The user-input arms. */
  method HandleInput(input: I.InputEvent, p: PagerState, queue: CommandQueue, exited: ExitFlag, env: Env) returns (ok: bool)
    requires !input.Search?
    modifies p, queue, exited
    ensures ok <==> Input(old(SnapOf(p, queue, exited)), input, env).Ok?
    ensures ok ==> SnapOf(p, queue, exited) == Input(old(SnapOf(p, queue, exited)), input, env).value
  {
    ok := true;
    if Navigation(input) {
      if p.search.term.Some? {
        ok := NavigateArm(input, p, queue, exited.raised, env);
      }
    } else if QueuesRedraw(input) {
      RedrawInput(input, p, queue, exited.raised, env);
    } else if input.Exit? {
      p.callbacksRun := p.callbacksRun + p.settings.exitCallbacks;
      exited.raised := true;
    } else if input.UpdateUpperMark? {
      ok := UpperMarkArm(input.mark, p);
    } else if input.UpdateLeftMark? {
      var lm := input.mark;
      if !p.screen.lineWrapping && !(SatAdd(lm, p.cols) > p.screen.maxLineLength && lm > p.leftMark) {
        p.leftMark := lm;
        p.DrawFull();
      }
    }
  }

  /** The inputs whose arm queues a redraw. */
  predicate QueuesRedraw(input: I.InputEvent)
  {
    input.RestorePrompt? || input.UpdateTermArea? || input.UpdateLineNumber? || input.HorizontalScroll? || input.FollowOutput?
  }

  /** The arms that change a setting and queue a redraw. */
  method RedrawInput(input: I.InputEvent, p: PagerState, queue: CommandQueue, ghost exited: bool, env: Env)
    requires QueuesRedraw(input)
    modifies p`message, p`rows, p`cols, p`lineNumbers, p`screen, p`followOutput, queue
    ensures Input(Snap(old(p.Value()), old(queue.commands), exited), input, env) == Ok(Snap(p.Value(), queue.commands, exited))
  {
    match input {
      case RestorePrompt =>
        p.message := None;
        queue.PushBack(FormatRedrawPrompt);
      case UpdateTermArea(c, r) =>
        p.rows, p.cols := r, c;
        queue.PushBack(FormatRedrawDisplay);
      case UpdateLineNumber(l) =>
        p.lineNumbers := l;
        queue.PushBack(FormatRedrawDisplay);
      case HorizontalScroll(on) =>
        p.screen := p.screen.(lineWrapping := on);
        queue.PushBack(FormatRedrawDisplay);
      case FollowOutput(b) =>
        FollowArm(b, p, queue);
    }
  }

  /** The `UpdateUpperMark` arm: the current mark is first pulled back to
      the last full page, then the target, as `draw_for_change` clamps it,
      becomes the mark. When the view moves, `draw_for_change` redraws the
      prompt at a row that must fit in 16 bits, so a terminal taller than
      that panics (`ok` is false then). */
  method UpperMarkArm(um: nat, p: PagerState) returns (ok: bool)
    modifies p`upperMark
    ensures ok <==> ClampedMark(old(p.Value()), um) == ClampedMark(old(p.Value()), old(p.upperMark)) || p.rows <= U16_MAX
    ensures ok ==> p.upperMark == ClampedMark(p.Value(), um)
  {
    var lineCount := |p.screen.formattedLines|;
    var writable := SatSub(p.rows, 1);
    var lower := SatAdd(p.upperMark, Min(writable, lineCount));
    if lower > lineCount {
      p.upperMark := SatSub(lineCount, writable);
    }
    var target := D.ClampUpper(um, writable, lineCount);
    if target != p.upperMark && p.rows > U16_MAX {
      return false;
    }
    p.upperMark := target;
    ok := true;
  }

  /** The match-navigation arms with a search term. */
  method NavigateArm(input: I.InputEvent, p: PagerState, queue: CommandQueue, ghost exited: bool, env: Env) returns (ok: bool)
    requires Navigation(input) && p.search.term.Some?
    modifies p`search, p`upperMark, queue
    ensures var r := Navigate(Snap(old(p.Value()), old(queue.commands), exited), input, env);
            (ok <==> r.Ok?) && (ok ==> Snap(p.Value(), queue.commands, exited) == r.value)
  {
    ok := true;
    if input.NextMatch? || input == I.MoveToNextMatch(1) {
      ok := NextArm(1, p, queue, exited, env);
    } else if input.PrevMatch? || input == I.MoveToPrevMatch(1) {
      PrevArm(1, p, queue, exited);
    } else if input.MoveToNextMatch? {
      ok := NextArm(input.count, p, queue, exited, env);
    } else {
      PrevArm(input.count, p, queue, exited);
    }
  }

  /** The `NextMatch` and `MoveToNextMatch(n)` arms; for n other than 1
      the mark is settled by the loop. */
  method NextArm(n: nat, p: PagerState, queue: CommandQueue, ghost exited: bool, env: Env) returns (ok: bool)
    modifies p`search, queue
    ensures var s := Snap(old(p.Value()), old(queue.commands), exited);
            var r := if n == 1 then NextOne(s, env) else NextN(s, n, env);
            (ok <==> r.Ok?) && (ok ==> Snap(p.Value(), queue.commands, exited) == r.value)
  {
    var idx := p.search.idx;
    var position := env.nextNth(idx, p.upperMark, n);
    if position.None? {
      return true;
    }
    var pnm := position.value;
    if pnm >= |idx| {
      return false;
    }
    var m := pnm;
    if n != 1 {
      m := SettleMark(idx, pnm, p.rows, |p.screen.formattedLines|);
    }
    p.search := p.search.(mark := m);
    queue.PushBack(UserInput(I.UpdateUpperMark(idx[m])));
    queue.PushBack(FormatRedrawPrompt);
    ok := true;
  }

  /** The `PrevMatch` and `MoveToPrevMatch(n)` arms. */
  method PrevArm(n: nat, p: PagerState, queue: CommandQueue, ghost exited: bool)
    modifies p`search, p`upperMark, queue
    ensures var s := Snap(old(p.Value()), old(queue.commands), exited);
            Snap(p.Value(), queue.commands, exited) == if n == 1 then PrevOne(s) else PrevN(s, n)
  {
    var idx := p.search.idx;
    if idx == [] {
      return;
    }
    p.search := p.search.(mark := SatSub(p.search.mark, n));
    var m := p.search.mark;
    if m < |idx| && idx[m] < p.upperMark {
      if n == 1 {
        p.upperMark := idx[m];
        queue.PushBack(FormatRedrawPrompt);
        queue.PushBack(UserInput(I.UpdateUpperMark(p.upperMark)));
      } else {
        queue.PushBack(UserInput(I.UpdateUpperMark(idx[m])));
        queue.PushBack(FormatRedrawPrompt);
      }
    }
  }
}
