/** The input handler of the older API (src/input.rs): one `match` from a
    terminal event and a few pieces of pager state to the input event the
    pager should act on, if any. Its `crossterm` version compares key
    events field by field with only a code and modifiers, so the kind and
    state of a `Terminal.KeyEvent` play no part here, and no case
    normalisation happens. */
module InputHandler {
  import opened Common
  import opened Terminal
  import opened LineNumbering
  import opened SM = Search

  /** `InputEvent` of the older API. */
  datatype InputEvent =
    | Exit
    | UpdateTermArea(cols: nat, rows: nat)
    | UpdateUpperMark(mark: nat)
    | UpdateLineNumber(lineNumbers: LineNumbers)
    | Search(mode: SearchMode)
    | NextMatch
    | PrevMatch

  /** `DefaultInputHandler::handle_input`, its arms tried in order. The
      half-screen moves ask the terminal for its height, given here as
      `termRows`; when that query fails the handler gives no event. The
      page moves compute `rows - 1`, which overflows, and so panics, when
      `rows` is 0. */
  function HandleInput(ev: Event, upperMark: nat, searchMode: SearchMode, ln: LineNumbers, rows: nat, termRows: Option<nat>)
    : Result<Option<InputEvent>>
  {
    match ev
    case Key(k) =>
      var c := k.code;
      var m := k.modifiers;
      if m == NONE && (c == Up || c == Char('k')) then Ok(Some(UpdateUpperMark(SatSub(upperMark, 1))))
      else if m == NONE && (c == Down || c == Char('j')) then Ok(Some(UpdateUpperMark(SatAdd(upperMark, 1))))
      else if c == Char('u') && (m == CONTROL || m == NONE) then
        (match termRows
         case None => Ok(None)
         case Some(t) => Ok(Some(UpdateUpperMark(SatSub(upperMark, t / 2)))))
      else if c == Char('d') && (m == CONTROL || m == NONE) then
        (match termRows
         case None => Ok(None)
         case Some(t) => Ok(Some(UpdateUpperMark(SatAdd(upperMark, t / 2)))))
      else if c == Char('g') && m == NONE then Ok(Some(UpdateUpperMark(0)))
      else if (c == Char('g') && m == SHIFT) || (c == Char('G') && (m == SHIFT || m == NONE)) then
        Ok(Some(UpdateUpperMark(USIZE_MAX)))
      else if c == PageUp && m == NONE then
        if rows == 0 then Panic else Ok(Some(UpdateUpperMark(SatSub(upperMark, rows - 1))))
      else if c == PageDown && m == NONE then
        if rows == 0 then Panic else Ok(Some(UpdateUpperMark(SatAdd(upperMark, rows - 1))))
      else if c == Char('l') && m == CONTROL then Ok(Some(UpdateLineNumber(Not(ln))))
      else if (c == Char('q') && m == NONE) || (c == Char('c') && m == CONTROL) then Ok(Some(Exit))
      else if c == Char('/') && m == NONE then Ok(Some(Search(Forward)))
      else if c == Char('?') && m == NONE then Ok(Some(Search(Reverse)))
      else if c == Char('n') && m == NONE then
        if SM.Eq(searchMode, Reverse) then Ok(Some(PrevMatch)) else Ok(Some(NextMatch))
      else if c == Char('p') && m == NONE then
        if SM.Eq(searchMode, Reverse) then Ok(Some(NextMatch)) else Ok(Some(PrevMatch))
      else Ok(None)
    case Mouse(me) =>
      if me.kind == ScrollUp then Ok(Some(UpdateUpperMark(SatSub(upperMark, 5))))
      else if me.kind == ScrollDown then Ok(Some(UpdateUpperMark(SatAdd(upperMark, 5))))
      else Ok(None)
    case Resize(cols, r) => Ok(Some(UpdateTermArea(cols, r)))
    case _ => Ok(None)
  }

  /** A plain key press of the older API. */
  function Plain(c: KeyCode): Event
  {
    Key(KeyEvent(c, NONE, Press, 0))
  }

  /** The mark an event moves to, when it moves the mark. */
  function MarkOf(r: Result<Option<InputEvent>>): (m: Option<nat>)
    ensures m.Some? <==> r.Ok? && r.value.Some? && r.value.value.UpdateUpperMark?
  {
    if r.Ok? && r.value.Some? && r.value.value.UpdateUpperMark? then Some(r.value.value.mark) else None
  }

  /** `up`/`k` and `down`/`j` move the mark by one line, saturating, and
      undo each other away from the ends. */
  lemma LineMovesInverse(u: nat, s: SearchMode, ln: LineNumbers, rows: nat, t: Option<nat>)
    requires u <= USIZE_MAX
    ensures MarkOf(HandleInput(Plain(Up), u, s, ln, rows, t)) == MarkOf(HandleInput(Plain(Char('k')), u, s, ln, rows, t))
              == Some(if u == 0 then 0 else u - 1)
    ensures MarkOf(HandleInput(Plain(Down), u, s, ln, rows, t)) == MarkOf(HandleInput(Plain(Char('j')), u, s, ln, rows, t))
              == Some(if u == USIZE_MAX then USIZE_MAX else u + 1)
    ensures 0 < u ==> MarkOf(HandleInput(Plain(Down), u - 1, s, ln, rows, t)) == Some(u)
    ensures u < USIZE_MAX ==> MarkOf(HandleInput(Plain(Up), u + 1, s, ln, rows, t)) == Some(u)
  {
  }

  /** The mouse wheel moves the mark by five lines, saturating, and the
      two directions undo each other away from the ends, wherever the
      mouse is and whatever is held. */
  lemma WheelInverse(u: nat, column: nat, row: nat, mods: Modifiers, s: SearchMode, ln: LineNumbers, rows: nat, t: Option<nat>)
    requires u <= USIZE_MAX
    ensures var up := Mouse(MouseEvent(ScrollUp, column, row, mods));
            var down := Mouse(MouseEvent(ScrollDown, column, row, mods));
            MarkOf(HandleInput(up, u, s, ln, rows, t)) == Some(if u < 5 then 0 else u - 5) &&
            MarkOf(HandleInput(down, u, s, ln, rows, t)) == Some(if USIZE_MAX - 5 < u then USIZE_MAX else u + 5) &&
            (5 <= u ==> MarkOf(HandleInput(down, u - 5, s, ln, rows, t)) == Some(u)) &&
            (u <= USIZE_MAX - 5 ==> MarkOf(HandleInput(up, u + 5, s, ln, rows, t)) == Some(u))
  {
  }

  /** `g` goes to the top; `g` with Shift, `G` and `G` with Shift go to
      the bottom, whatever the state. */
  lemma TopAndBottom(u: nat, s: SearchMode, ln: LineNumbers, rows: nat, t: Option<nat>)
    ensures MarkOf(HandleInput(Plain(Char('g')), u, s, ln, rows, t)) == Some(0)
    ensures MarkOf(HandleInput(Key(KeyEvent(Char('g'), SHIFT, Press, 0)), u, s, ln, rows, t)) == Some(USIZE_MAX)
    ensures MarkOf(HandleInput(Plain(Char('G')), u, s, ln, rows, t)) == Some(USIZE_MAX)
    ensures MarkOf(HandleInput(Key(KeyEvent(Char('G'), SHIFT, Press, 0)), u, s, ln, rows, t)) == Some(USIZE_MAX)
  {
  }

  /** Page up and page down move the mark by one line less than the
      screen, saturating, and undo each other away from the ends; with
      no rows they panic. */
  lemma PageMovesInverse(u: nat, s: SearchMode, ln: LineNumbers, rows: nat, t: Option<nat>)
    requires u <= USIZE_MAX
    ensures rows == 0 ==> HandleInput(Plain(PageUp), u, s, ln, rows, t).Panic? && HandleInput(Plain(PageDown), u, s, ln, rows, t).Panic?
    ensures rows > 0 ==> MarkOf(HandleInput(Plain(PageUp), u, s, ln, rows, t)) == Some(if u < rows - 1 then 0 else u - (rows - 1))
    ensures rows > 0 ==>
              MarkOf(HandleInput(Plain(PageDown), u, s, ln, rows, t)) == Some(if USIZE_MAX - (rows - 1) < u then USIZE_MAX else u + (rows - 1))
    ensures rows > 0 && rows - 1 <= u ==> MarkOf(HandleInput(Plain(PageDown), u - (rows - 1), s, ln, rows, t)) == Some(u)
  {
  }

  /** The example of the handler's tests: mark 12 on a screen of 5 rows
      pages up to 8 and down to 16. */
  lemma PageExample(s: SearchMode, t: Option<nat>)
    ensures HandleInput(Plain(PageUp), 12, s, Enabled, 5, t) == Ok(Some(UpdateUpperMark(8)))
    ensures HandleInput(Plain(PageDown), 12, s, Enabled, 5, t) == Ok(Some(UpdateUpperMark(16)))
  {
  }

  /** `u` and `d`, plain or with Control, move the mark by half the
      terminal's height; when the height cannot be read there is no
      event. */
  lemma HalfScreen(u: nat, s: SearchMode, ln: LineNumbers, rows: nat, t: Option<nat>, mods: Modifiers)
    requires u <= USIZE_MAX
    requires mods == NONE || mods == CONTROL
    ensures var up := Key(KeyEvent(Char('u'), mods, Press, 0));
            var down := Key(KeyEvent(Char('d'), mods, Press, 0));
            (t.None? ==> HandleInput(up, u, s, ln, rows, t) == Ok(None) && HandleInput(down, u, s, ln, rows, t) == Ok(None)) &&
            (t.Some? ==> MarkOf(HandleInput(up, u, s, ln, rows, t)) == Some(SatSub(u, t.value / 2))) &&
            (t.Some? && t.value / 2 <= u ==> MarkOf(HandleInput(down, u - t.value / 2, s, ln, rows, t)) == Some(u))
  {
  }

  /** Control-`l` inverts the line numbers, so pressing it twice
      restores them; `q` and Control-`c` quit. */
  lemma ToggleAndQuit(u: nat, s: SearchMode, ln: LineNumbers, rows: nat, t: Option<nat>)
    ensures var cl := Key(KeyEvent(Char('l'), CONTROL, Press, 0));
            HandleInput(cl, u, s, ln, rows, t) == Ok(Some(UpdateLineNumber(Not(ln)))) &&
            HandleInput(cl, u, s, Not(ln), rows, t) == Ok(Some(UpdateLineNumber(ln)))
    ensures HandleInput(Plain(Char('q')), u, s, ln, rows, t) == Ok(Some(Exit))
    ensures HandleInput(Key(KeyEvent(Char('c'), CONTROL, Press, 0)), u, s, ln, rows, t) == Ok(Some(Exit))
  {
    NotInvolution(ln);
  }

  /** `n` and `p` are mirror images: in reverse mode `n` goes to the
      previous match and `p` to the next, in every other mode the other
      way round. */
  lemma SearchNavigation(u: nat, s: SearchMode, ln: LineNumbers, rows: nat, t: Option<nat>)
    ensures HandleInput(Plain(Char('n')), u, s, ln, rows, t) == Ok(Some(PrevMatch)) <==> s == Reverse
    ensures HandleInput(Plain(Char('p')), u, s, ln, rows, t) == Ok(Some(NextMatch)) <==> s == Reverse
    ensures HandleInput(Plain(Char('n')), u, s, ln, rows, t) == Ok(Some(NextMatch)) <==> s != Reverse
    ensures HandleInput(Plain(Char('p')), u, s, ln, rows, t) == Ok(Some(PrevMatch)) <==> s != Reverse
  {
  }

  /** A resize reports both new dimensions. */
  lemma ResizeReported(cols: nat, r: nat, u: nat, s: SearchMode, ln: LineNumbers, rows: nat, t: Option<nat>)
    ensures HandleInput(Resize(cols, r), u, s, ln, rows, t) == Ok(Some(UpdateTermArea(cols, r)))
  {
  }

  /** A plain character with no binding, such as `a`, gives no event,
      and neither does any key held with Alt. */
  lemma UnboundKeys(k: KeyEvent, u: nat, s: SearchMode, ln: LineNumbers, rows: nat, t: Option<nat>)
    ensures k.code.Char? && k.code.c !in "kjudgGlqc/?np" ==> HandleInput(Key(k), u, s, ln, rows, t) == Ok(None)
    ensures k.modifiers.alt ==> HandleInput(Key(k), u, s, ln, rows, t) == Ok(None)
  {
  }
}
