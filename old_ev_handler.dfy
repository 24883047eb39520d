/** The older event handler (src/utils/ev_handler.rs): `handle_event`
    applies one `Event` to the pager state of its own generation, a layout
    with the unwrapped text in `lines`, the prompt and message already
    wrapped into rows, and the search index as a vector. The effects the
    handler delegates to code outside this model (formatting, appending,
    reading a search query, `search::next_match`) are parameters. */
module OldEventHandler {
  import opened Common
  import opened LineNumbering
  import I = Inputs
  import SM = Search
  import LP = LegacyPager
  import opened PagerEvents

  /** The text and its layout. */
  datatype Text = Text(lines: string, formattedLines: seq<string>, lineNumbers: LineNumbers)

  /** The search fields: `term` stands for the compiled regular
      expression. */
  datatype SearchFields = SearchFields(term: Option<nat>, mode: SM.SearchMode, idx: seq<nat>, mark: nat)

  /** The fields set once by the application; closures are numbered. */
  datatype Settings = Settings(
    exitStrategy: LP.ExitStrategy, runNoOverflow: bool, inputClassifier: nat, exitCallbacks: seq<nat>)

  /** The state `handle_event` reads and writes, grouped as above. The
      message is the pair of the wrapped message and whether it changed
      since it was last shown; `callbacksRun` records the exit callbacks
      in the order they were called, and `exited` is the caller's
      `is_exitted` flag. */
  datatype State = State(
    text: Text,
    prompt: seq<string>,
    message: (Option<seq<string>>, bool),
    upperMark: nat,
    rows: nat,
    cols: nat,
    search: SearchFields,
    settings: Settings,
    callbacksRun: seq<nat>,
    exited: bool)

  /** The effects taken from outside the handler: the rows `format_lines`
      lays the text out in, the text wrapper behind `wrap_str`,
      `append_str`, the query reading and indexing of the `Search` arm,
      and `search::next_match`. */
  datatype Env = Env(
    format: (string, LineNumbers, nat) -> seq<string>,
    wrap: Wrapper,
    append: (State, string) -> State,
    search: State -> State,
    nextMatch: State -> State)

  /** `format_lines`: the rows are laid out again from the text, the line
      number setting and the width. */
  function Reformat(s: State, env: Env): State
  {
    s.(text := s.text.(formattedLines := env.format(s.text.lines, s.text.lineNumbers, s.cols)))
  }

  /** The rows are the layout of the current text. */
  predicate Formatted(s: State, env: Env)
  {
    s.text.formattedLines == env.format(s.text.lines, s.text.lineNumbers, s.cols)
  }

  /** The search fields with a new mark. */
  function WithMark(s: State, mark: nat): State
  {
    s.(search := s.search.(mark := mark))
  }

  /** The `NextMatch` arm before `next_match`: the search mark steps forward
      while it is below the last match and the page does not yet reach the
      end; `upper_mark + rows` overflows, and panics, past `usize::MAX`. */
  function NextMark(s: State): Result<State>
  {
    if s.search.mark < SatSub(|s.search.idx|, 1) then
      if s.upperMark + s.rows > USIZE_MAX then Panic
      else if s.upperMark + s.rows < |s.text.formattedLines| then Ok(WithMark(s, s.search.mark + 1))
      else Ok(s)
    else Ok(s)
  }

  /** The `PrevMatch` arm: the mark steps back and the page moves up to
      that match when it lies above; indexing past the vector panics. */
  function PrevMark(s: State): Result<State>
  {
    if s.search.idx == [] then Ok(s)
    else
      var m := SatSub(s.search.mark, 1);
      if m >= |s.search.idx| then Panic
      else
        var y := s.search.idx[m];
        Ok(WithMark(s, m).(upperMark := if y < s.upperMark then y else s.upperMark))
  }

  /** The user-input arms of `handle_event`. */
  function Input(s: State, input: I.InputEvent, env: Env): Result<State>
  {
    match input
    case Exit => Ok(s.(callbacksRun := s.callbacksRun + s.settings.exitCallbacks, exited := true))
    case UpdateUpperMark(um) => Ok(s.(upperMark := um))
    case RestorePrompt => Ok(Reformat(s.(message := (None, false)), env))
    case UpdateTermArea(c, r) => Ok(Reformat(s.(rows := r, cols := c), env))
    case UpdateLineNumber(l) => Ok(Reformat(s.(text := s.text.(lineNumbers := l)), env))
    case Search(m) => Ok(Reformat(env.search(s.(search := s.search.(mode := m))), env))
    case NextMatch =>
      if s.search.term.None? then Ok(s)
      else (match NextMark(s) case Ok(t) => Ok(env.nextMatch(t)) case Panic => Panic)
    case PrevMatch => if s.search.term.None? then Ok(s) else PrevMark(s)
    case _ => Ok(s)
  }

  /** `handle_event`, one arm per event. `IncrementalSearchCondition` has
      no arm in this handler and changes nothing. */
  function Step(s: State, ev: Event, env: Env): Result<State>
  {
    match ev
    case SetData(text) => Ok(Reformat(s.(text := s.text.(lines := text)), env))
    case UserInput(input) => Input(s, input, env)
    case AppendData(text) => Ok(env.append(s, text))
    case SetPrompt(text) => Ok(s.(prompt := LP.WrapStr(text, s.cols, env.wrap)))
    case SendMessage(text) => Ok(s.(message := (Some(LP.WrapStr(text, s.cols, env.wrap)), true)))
    case SetLineNumbers(ln) => Ok(Reformat(s.(text := s.text.(lineNumbers := ln)), env))
    case SetExitStrategy(es) => Ok(s.(settings := s.settings.(exitStrategy := es)))
    case SetRunNoOverflow(v) => Ok(s.(settings := s.settings.(runNoOverflow := v)))
    case SetInputClassifier(c) => Ok(s.(settings := s.settings.(inputClassifier := c)))
    case AddExitCallback(cb) => Ok(s.(settings := s.settings.(exitCallbacks := s.settings.exitCallbacks + [cb])))
    case IncrementalSearchCondition(_) => Ok(s)
  }

  /** The events whose effect is wholly defined here: all but appending,
      searching and moving to the next match. */
  predicate Local(ev: Event)
  {
    !ev.AppendData? && !(ev.UserInput? && (ev.input.Search? || ev.input.NextMatch?))
  }

  /** Every locally defined event keeps the rows the layout of the text,
      and none panics but `PrevMatch`. */
  lemma StepKeepsFormatted(s: State, ev: Event, env: Env)
    requires Local(ev) && Formatted(s, env)
    ensures Step(s, ev, env).Ok? ==> Formatted(Step(s, ev, env).value, env)
    ensures !(ev.UserInput? && ev.input.PrevMatch?) ==> Step(s, ev, env).Ok?
  {
  }

  /** `UpdateUpperMark` moves the page to exactly the mark asked for, even
      past the end of the text, and changes nothing else. */
  lemma UpperMarkUnclamped(s: State, um: nat, env: Env)
    ensures var r := Step(s, UserInput(I.UpdateUpperMark(um)), env);
            r.Ok? && r.value.upperMark == um && r.value.(upperMark := s.upperMark) == s
  {
  }

  /** A message is shown wrapped and flagged as new; restoring the prompt
      drops it and its flag, so a message followed by a restore leaves the
      state a restore alone leaves. */
  lemma MessageThenRestore(s: State, text: string, env: Env)
    ensures var m := Step(s, SendMessage(text), env);
            m.Ok? && m.value.message == (Some(LP.WrapStr(text, s.cols, env.wrap)), true)
    ensures var m := Step(s, SendMessage(text), env).value;
            var r := Step(m, UserInput(I.RestorePrompt), env);
            r.Ok? && r.value.message == (None, false) && r == Step(s, UserInput(I.RestorePrompt), env)
  {
  }

  /** A new terminal size is taken as given, the text is laid out for the
      new width, and a second identical resize changes nothing more. */
  lemma TermAreaIdempotent(s: State, c: nat, r: nat, env: Env)
    ensures var t := Step(s, UserInput(I.UpdateTermArea(c, r)), env);
            t.Ok? && t.value.rows == r && t.value.cols == c && Formatted(t.value, env)
            && Step(t.value, UserInput(I.UpdateTermArea(c, r)), env) == t
  {
  }

  /** Toggling line numbers twice restores a formatted state exactly. */
  lemma ToggleTwice(s: State, env: Env)
    requires Formatted(s, env)
    ensures var t := Step(s, UserInput(I.UpdateLineNumber(Not(s.text.lineNumbers))), env);
            t.Ok? && t.value.text.lineNumbers == Not(s.text.lineNumbers)
            && Step(t.value, UserInput(I.UpdateLineNumber(Not(t.value.text.lineNumbers))), env) == Ok(s)
  {
    NotInvolution(s.text.lineNumbers);
  }

  /** The search mark steps forward exactly when it is below the last
      match and the page ends before the text does; only the mark
      changes, and it stays inside the index. */
  lemma NextMarkSteps(s: State)
    ensures NextMark(s).Panic? <==> s.search.mark < SatSub(|s.search.idx|, 1) && s.upperMark + s.rows > USIZE_MAX
    ensures NextMark(s).Ok? ==> WithMark(NextMark(s).value, s.search.mark) == s
    ensures NextMark(s).Ok? ==>
              (NextMark(s).value.search.mark == s.search.mark + 1
               <==> s.search.mark < |s.search.idx| - 1 && s.upperMark + s.rows < |s.text.formattedLines|)
    ensures NextMark(s).Ok? ==> NextMark(s).value.search.mark in {s.search.mark, s.search.mark + 1}
    ensures NextMark(s).Ok? && s.search.mark < |s.search.idx| ==> NextMark(s).value.search.mark < |s.search.idx|
  {
  }

  /** The mark steps back by one, stopping at zero, and the page moves up
      to the match it lands on, never down; with no matches nothing
      happens, and a mark more than one past the index panics. */
  lemma PrevMarkSteps(s: State)
    ensures s.search.idx == [] ==> PrevMark(s) == Ok(s)
    ensures PrevMark(s).Panic? <==> s.search.idx != [] && SatSub(s.search.mark, 1) >= |s.search.idx|
    ensures PrevMark(s).Ok? && s.search.idx != [] ==>
              var t := PrevMark(s).value;
              t.search.mark == SatSub(s.search.mark, 1)
              && t.upperMark == Min(s.upperMark, s.search.idx[t.search.mark])
              && WithMark(t, s.search.mark).(upperMark := s.upperMark) == s
  {
  }

  /** A step back undoes a step forward of the search mark. */
  lemma PrevUndoesNext(s: State)
    requires NextMark(s).Ok? && NextMark(s).value.search.mark == s.search.mark + 1
    ensures PrevMark(NextMark(s).value).Ok?
    ensures PrevMark(NextMark(s).value).value.search.mark == s.search.mark
  {
  }

  /** Without a search term neither match key does anything. */
  lemma NoTermNoNavigation(s: State, env: Env)
    requires s.search.term.None?
    ensures Step(s, UserInput(I.NextMatch), env) == Ok(s)
    ensures Step(s, UserInput(I.PrevMatch), env) == Ok(s)
  {
  }

  /** Exiting runs the exit callbacks in the order they were added, the
      latest one last, and raises the exit flag. */
  lemma ExitRunsCallbacks(s: State, cb: nat, env: Env)
    ensures var a := Step(s, AddExitCallback(cb), env).value;
            var e := Step(a, UserInput(I.Exit), env);
            e.Ok? && e.value.exited && e.value.callbacksRun == s.callbacksRun + s.settings.exitCallbacks + [cb]
            && e.value.(callbacksRun := s.callbacksRun, exited := s.exited) == a
  {
  }

  /** The pager state `handle_event` mutates, its fields grouped as in
      `State`. */
  class PagerState {
    var text: Text
    var prompt: seq<string>
    var message: (Option<seq<string>>, bool)
    var upperMark: nat
    var rows: nat
    var cols: nat
    var search: SearchFields
    var settings: Settings
    var callbacksRun: seq<nat>
    var exited: bool

    function Value(): State
      reads this
    {
      State(text, prompt, message, upperMark, rows, cols, search, settings, callbacksRun, exited)
    }

    constructor(s: State)
      ensures Value() == s
    {
      text, prompt, message, upperMark, rows := s.text, s.prompt, s.message, s.upperMark, s.rows;
      cols, search, settings, callbacksRun, exited := s.cols, s.search, s.settings, s.callbacksRun, s.exited;
    }

    /** Takes over a whole state computed outside the handler. */
    method Load(s: State)
      modifies this
      ensures Value() == s
    {
      text, prompt, message, upperMark, rows := s.text, s.prompt, s.message, s.upperMark, s.rows;
      cols, search, settings, callbacksRun, exited := s.cols, s.search, s.settings, s.callbacksRun, s.exited;
    }

    /** `format_lines`. */
    method FormatLines(env: Env)
      modifies this`text
      ensures text == old(text).(formattedLines := env.format(text.lines, text.lineNumbers, cols))
    {
      text := text.(formattedLines := env.format(text.lines, text.lineNumbers, cols));
    }

    /** `handle_event`: `ok` is false where the source panics. */
    method HandleEvent(ev: Event, env: Env) returns (ok: bool)
      modifies this
      ensures ok <==> Step(old(Value()), ev, env).Ok?
      ensures ok ==> Value() == Step(old(Value()), ev, env).value
    {
      ok := true;
      match ev {
        case SetData(t) =>
          text := text.(lines := t);
          FormatLines(env);
        case UserInput(input) =>
          ok := HandleInput(input, env);
        case AppendData(t) =>
          Load(env.append(Value(), t));
        case SetPrompt(t) =>
          prompt := LP.WrapStr(t, cols, env.wrap);
        case SendMessage(t) =>
          message := (Some(LP.WrapStr(t, cols, env.wrap)), true);
        case SetLineNumbers(ln) =>
          text := text.(lineNumbers := ln);
          FormatLines(env);
        case SetExitStrategy(es) =>
          settings := settings.(exitStrategy := es);
        case SetRunNoOverflow(v) =>
          settings := settings.(runNoOverflow := v);
        case SetInputClassifier(c) =>
          settings := settings.(inputClassifier := c);
        case AddExitCallback(cb) =>
          settings := settings.(exitCallbacks := settings.exitCallbacks + [cb]);
        case IncrementalSearchCondition(_) =>
      }
    }

    /** The user-input arms. */
    method HandleInput(input: I.InputEvent, env: Env) returns (ok: bool)
      modifies this
      ensures ok <==> Input(old(Value()), input, env).Ok?
      ensures ok ==> Value() == Input(old(Value()), input, env).value
    {
      ok := true;
      if input.RestorePrompt? || input.UpdateTermArea? || input.UpdateLineNumber? || input.Search? {
        LayoutInput(input, env);
      } else if input.Exit? || input.UpdateUpperMark? || input.NextMatch? || input.PrevMatch? {
        ok := MarkInput(input, env);
      }
    }

    /** The arms after which the text is laid out again. */
    method LayoutInput(input: I.InputEvent, env: Env)
      requires input.RestorePrompt? || input.UpdateTermArea? || input.UpdateLineNumber? || input.Search?
      modifies this
      ensures Input(old(Value()), input, env) == Ok(Value())
    {
      match input {
        case RestorePrompt =>
          message := (None, false);
        case UpdateTermArea(c, r) =>
          rows, cols := r, c;
        case UpdateLineNumber(l) =>
          text := text.(lineNumbers := l);
        case Search(m) =>
          search := search.(mode := m);
          Load(env.search(Value()));
      }
      FormatLines(env);
    }

    /** The arms that exit or move the marks. */
    method MarkInput(input: I.InputEvent, env: Env) returns (ok: bool)
      requires input.Exit? || input.UpdateUpperMark? || input.NextMatch? || input.PrevMatch?
      modifies this
      ensures ok <==> Input(old(Value()), input, env).Ok?
      ensures ok ==> Value() == Input(old(Value()), input, env).value
    {
      ok := true;
      match input {
        case Exit =>
          callbacksRun := callbacksRun + settings.exitCallbacks;
          exited := true;
        case UpdateUpperMark(um) =>
          upperMark := um;
        case NextMatch =>
          if search.term.Some? {
            ok := NextMatchArm(env);
          }
        case PrevMatch =>
          if search.term.Some? {
            ok := PrevMatchArm();
          }
      }
    }

    /** The `NextMatch` arm with a search term. */
    method NextMatchArm(env: Env) returns (ok: bool)
      modifies this
      ensures ok <==> NextMark(old(Value())).Ok?
      ensures ok ==> Value() == env.nextMatch(NextMark(old(Value())).value)
    {
      if search.mark < SatSub(|search.idx|, 1) {
        if upperMark + rows > USIZE_MAX {
          return false;
        }
        if upperMark + rows < |text.formattedLines| {
          search := search.(mark := search.mark + 1);
        }
      }
      Load(env.nextMatch(Value()));
      ok := true;
    }

    /** The `PrevMatch` arm with a search term. */
    method PrevMatchArm() returns (ok: bool)
      modifies this`search, this`upperMark
      ensures ok <==> PrevMark(old(Value())).Ok?
      ensures ok ==> Value() == PrevMark(old(Value())).value
    {
      if search.idx == [] {
        return true;
      }
      search := search.(mark := SatSub(search.mark, 1));
      if search.mark >= |search.idx| {
        return false;
      }
      var y := search.idx[search.mark];
      if y < upperMark {
        upperMark := y;
      }
      ok := true;
    }
  }
}
