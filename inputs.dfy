/** The input events of the pager and the default reactions to key and
    mouse events (src/input/mod.rs): the callbacks that
    `generate_default_bindings` registers, and the legacy
    `DefaultInputClassifier`. Both only read the pager state; they are
    functions of the few fields they look at, gathered in a `View`. */
module Inputs {
  import opened Common
  import opened Terminal
  import opened LineNumbering
  import opened SM = Search

  /** `InputEvent`: what a key or mouse event asks the pager to do. */
  datatype InputEvent =
    | Exit
    | UpdateTermArea(cols: nat, rows: nat)
    | UpdateUpperMark(mark: nat)
    | UpdateLineNumber(lineNumbers: LineNumbers)
    | Number(digit: char)
    | RestorePrompt
    | HorizontalScroll(on: bool)
    | UpdateLeftMark(mark: nat)
    | Ignore
    | Search(mode: SearchMode)
    | NextMatch
    | PrevMatch
    | MoveToNextMatch(count: nat)
    | MoveToPrevMatch(count: nat)
    | FollowOutput(on: bool)

  /** The fields of `PagerState` the default reactions read: the typed
      count prefix, the upper and left marks, the number of rows, whether
      output is followed, whether a message replaces the prompt, the line
      number setting, whether lines wrap, the search mode and the map from
      line numbers to the first row of each line. */
  datatype View = View(
    prefixNum: string,
    upperMark: nat,
    leftMark: nat,
    rows: nat,
    followOutput: bool,
    hasMessage: bool,
    lineNumbers: LineNumbers,
    lineWrapping: bool,
    searchMode: SearchMode,
    rowMap: map<nat, nat>)

  /** The count typed before a command: `prefix_num.parse::<usize>()`,
      or 1 when it does not parse. */
  function Count(v: View): (r: nat)
    ensures 1 <= r <= USIZE_MAX || (r == 0 && ParseUsize(v.prefixNum) == Some(0))
  {
    match ParseUsize(v.prefixNum)
    case Some(n) => n
    case None => 1
  }

  /** A count prefix that is a printed number is that number; an empty
      prefix counts as 1. */
  lemma CountOfPrinted(v: View, n: nat)
    requires n <= USIZE_MAX && v.prefixNum == NatToString(n)
    ensures Count(v) == n
  {
    ParsePrinted(n);
  }

  lemma CountOfEmpty(v: View)
    requires v.prefixNum == []
    ensures Count(v) == 1
  {
  }

  /** The default callbacks, one per group of descriptions that
      `generate_default_bindings` binds together. */
  datatype Action =
    | OnQuit          // "q", "c-c"
    | OnUp            // "up", "k"
    | OnDown          // "down", "j"
    | OnFollow        // "c-f"
    | OnEnter         // "enter"
    | OnHalfUp        // "u", "c-u"
    | OnHalfDown      // "d", "c-d"
    | OnTop           // "g"
    | OnBottom        // "s-g", "G"
    | OnPageUp        // "pageup"
    | OnPageDown      // "pagedown", "space"
    | OnLineNumbers   // "c-l"
    | OnSearchForward // "/"
    | OnSearchReverse // "?"
    | OnNext          // "n"
    | OnPrev          // "p"
    | OnScrollUp      // mouse "scroll:up"
    | OnScrollDown    // mouse "scroll:down"
    | OnWrap          // "c-s-h", "c-h"
    | OnLeft          // "h", "left"
    | OnRight         // "l", "right"
    | OnResize        // the resize slot
    | OnWild          // the wildcard matcher

  /** The row `G` jumps to: the line given by the count, 1-based, looked
      up in the row map, or `usize::MAX - 1` when the map has no such line.
      With no count it looks up line `usize::MAX - 1`, and with a count of
      0 or 1 line `usize::MAX`. */
  function BottomRow(v: View): nat
  {
    var n := match ParseUsize(v.prefixNum) case Some(n) => n case None => USIZE_MAX;
    var p := SatSub(n, 1);
    var position := if p == 0 then USIZE_MAX else p;
    if position in v.rowMap then v.rowMap[position] else USIZE_MAX - 1
  }

  /** What a default callback returns for event `ev` in state `v`. The
      page moves compute `rows - 1` unchecked and so panic with no rows;
      the resize callback panics on any event but a resize. */
  function Run(a: Action, ev: Event, v: View): Result<InputEvent>
  {
    match a
    case OnQuit => Ok(Exit)
    case OnUp => Ok(UpdateUpperMark(SatSub(v.upperMark, Count(v))))
    case OnDown => Ok(UpdateUpperMark(SatAdd(v.upperMark, Count(v))))
    case OnFollow => Ok(FollowOutput(!v.followOutput))
    case OnEnter =>
      if v.hasMessage then Ok(RestorePrompt) else Ok(UpdateUpperMark(SatAdd(v.upperMark, Count(v))))
    case OnHalfUp => Ok(UpdateUpperMark(SatSub(v.upperMark, v.rows / 2)))
    case OnHalfDown => Ok(UpdateUpperMark(SatAdd(v.upperMark, v.rows / 2)))
    case OnTop => Ok(UpdateUpperMark(0))
    case OnBottom => Ok(UpdateUpperMark(BottomRow(v)))
    case OnPageUp => if v.rows == 0 then Panic else Ok(UpdateUpperMark(SatSub(v.upperMark, v.rows - 1)))
    case OnPageDown => if v.rows == 0 then Panic else Ok(UpdateUpperMark(SatAdd(v.upperMark, v.rows - 1)))
    case OnLineNumbers => Ok(UpdateLineNumber(Not(v.lineNumbers)))
    case OnSearchForward => Ok(Search(Forward))
    case OnSearchReverse => Ok(Search(Reverse))
    case OnNext =>
      if SM.Eq(v.searchMode, Forward) then Ok(MoveToNextMatch(Count(v)))
      else if SM.Eq(v.searchMode, Reverse) then Ok(MoveToPrevMatch(Count(v)))
      else Ok(Ignore)
    case OnPrev =>
      if SM.Eq(v.searchMode, Forward) then Ok(MoveToPrevMatch(Count(v)))
      else if SM.Eq(v.searchMode, Reverse) then Ok(MoveToNextMatch(Count(v)))
      else Ok(Ignore)
    case OnScrollUp => Ok(UpdateUpperMark(SatSub(v.upperMark, 5)))
    case OnScrollDown => Ok(UpdateUpperMark(SatAdd(v.upperMark, 5)))
    case OnWrap => Ok(HorizontalScroll(!v.lineWrapping))
    case OnLeft => Ok(UpdateLeftMark(SatSub(v.leftMark, Count(v))))
    case OnRight => Ok(UpdateLeftMark(SatAdd(v.leftMark, Count(v))))
    case OnResize =>
      (match ev
       case Resize(cols, rows) => Ok(UpdateTermArea(cols, rows))
       case _ => Panic)
    case OnWild =>
      if ev.Key? && ev.key.code.Char? && ev.key.modifiers == NONE && IsAsciiDigit(ev.key.code.c) then
        Ok(Number(ev.key.code.c))
      else Ok(Ignore)
  }

  // ---------------------------------------------------------------------------
  // Properties of the default callbacks
  // ---------------------------------------------------------------------------

  /** Moving by `n` and back: a saturating step down is undone by the same
      step up unless it hit `usize::MAX`, and the step up by the same step
      down unless it hit 0. */
  lemma SatInverse(a: nat, n: nat)
    requires a <= USIZE_MAX
    ensures SatAdd(a, n) <= USIZE_MAX && SatSub(a, n) <= a
    ensures a + n <= USIZE_MAX ==> SatSub(SatAdd(a, n), n) == a
    ensures n <= a ==> SatAdd(SatSub(a, n), n) == a
    ensures a + n > USIZE_MAX <==> SatAdd(a, n) == USIZE_MAX && n > 0 && a + n != USIZE_MAX
    ensures n > a <==> SatSub(a, n) == 0 && a != n
  {
  }

  /** The view with the upper mark moved to `m`. */
  function WithUpper(v: View, m: nat): View { v.(upperMark := m) }

  /** `up` undoes `down` and `down` undoes `up`, by the same count, as
      long as neither saturated; each moves by exactly the count
      otherwise clamped at 0 and `usize::MAX`. */
  lemma UpDownInverse(ev: Event, v: View)
    requires v.upperMark <= USIZE_MAX
    ensures var d := Run(OnDown, ev, v).value.mark;
            v.upperMark + Count(v) <= USIZE_MAX ==> d == v.upperMark + Count(v) && Run(OnUp, ev, WithUpper(v, d)) == Ok(UpdateUpperMark(v.upperMark))
    ensures var u := Run(OnUp, ev, v).value.mark;
            Count(v) <= v.upperMark ==> u == v.upperMark - Count(v) && Run(OnDown, ev, WithUpper(v, u)) == Ok(UpdateUpperMark(v.upperMark))
    ensures v.upperMark + Count(v) > USIZE_MAX ==> Run(OnDown, ev, v) == Ok(UpdateUpperMark(USIZE_MAX))
    ensures Count(v) > v.upperMark ==> Run(OnUp, ev, v) == Ok(UpdateUpperMark(0))
  {
    SatInverse(v.upperMark, Count(v));
  }

  /** Half-page moves go by `rows / 2` and undo each other away from
      the limits. */
  lemma HalfPageInverse(ev: Event, v: View)
    requires v.upperMark <= USIZE_MAX
    ensures var d := Run(OnHalfDown, ev, v).value.mark;
            v.upperMark + v.rows / 2 <= USIZE_MAX ==> d == v.upperMark + v.rows / 2 && Run(OnHalfUp, ev, WithUpper(v, d)) == Ok(UpdateUpperMark(v.upperMark))
    ensures Run(OnHalfUp, ev, v).value.mark <= v.upperMark <= Run(OnHalfDown, ev, v).value.mark
  {
    SatInverse(v.upperMark, v.rows / 2);
  }

  /** Page moves go by `rows - 1`, which panics with no rows, and undo
      each other away from the limits. */
  lemma PageInverse(ev: Event, v: View)
    requires v.upperMark <= USIZE_MAX
    ensures Run(OnPageUp, ev, v).Panic? <==> v.rows == 0
    ensures Run(OnPageDown, ev, v).Panic? <==> v.rows == 0
    ensures v.rows > 0 && v.upperMark + v.rows - 1 <= USIZE_MAX ==>
              Run(OnPageDown, ev, v) == Ok(UpdateUpperMark(v.upperMark + v.rows - 1)) &&
              Run(OnPageUp, ev, WithUpper(v, v.upperMark + v.rows - 1)) == Ok(UpdateUpperMark(v.upperMark))
  {
    if v.rows > 0 {
      SatInverse(v.upperMark, v.rows - 1);
    }
  }

  /** Mouse scrolling moves by 5 lines, and the two directions undo each
      other away from the limits. */
  lemma ScrollInverse(ev: Event, v: View)
    requires v.upperMark <= USIZE_MAX
    ensures var d := Run(OnScrollDown, ev, v).value.mark;
            v.upperMark + 5 <= USIZE_MAX ==> d == v.upperMark + 5 && Run(OnScrollUp, ev, WithUpper(v, d)) == Ok(UpdateUpperMark(v.upperMark))
    ensures Run(OnScrollUp, ev, v) == Ok(UpdateUpperMark(if v.upperMark >= 5 then v.upperMark - 5 else 0))
  {
    SatInverse(v.upperMark, 5);
  }

  /** The worked example of the default bindings: with the upper mark at
      12 and 5 rows, page up goes to 8, page down to 16, half pages to 10
      and 14; at `usize::MAX` and at 0 the moves stay put. */
  lemma PageExample(ev: Event, v: View)
    requires v.upperMark == 12 && v.rows == 5
    ensures Run(OnPageUp, ev, v) == Ok(UpdateUpperMark(8))
    ensures Run(OnPageDown, ev, v) == Ok(UpdateUpperMark(16))
    ensures Run(OnHalfUp, ev, v) == Ok(UpdateUpperMark(10))
    ensures Run(OnHalfDown, ev, v) == Ok(UpdateUpperMark(14))
    ensures Run(OnPageDown, ev, WithUpper(v, USIZE_MAX)) == Ok(UpdateUpperMark(USIZE_MAX))
    ensures Run(OnPageUp, ev, WithUpper(v, 0)) == Ok(UpdateUpperMark(0))
  {
  }

  /** Enter restores the prompt when a message replaces it, and otherwise
      is the same as `down`. */
  lemma EnterIsDownOrRestore(ev: Event, v: View)
    ensures v.hasMessage ==> Run(OnEnter, ev, v) == Ok(RestorePrompt)
    ensures !v.hasMessage ==> Run(OnEnter, ev, v) == Run(OnDown, ev, v)
  {
  }

  /** `h` and `l` move the left mark by the count, and undo each other
      away from the limits. */
  lemma LeftRightInverse(ev: Event, v: View)
    requires v.leftMark <= USIZE_MAX
    ensures var r := Run(OnRight, ev, v).value.mark;
            v.leftMark + Count(v) <= USIZE_MAX ==> Run(OnLeft, ev, v.(leftMark := r)) == Ok(UpdateLeftMark(v.leftMark))
    ensures Run(OnLeft, ev, v).value.mark <= v.leftMark <= Run(OnRight, ev, v).value.mark
  {
    SatInverse(v.leftMark, Count(v));
  }

  /** `G` with no count looks up line `usize::MAX - 1`, with a count of 0
      or 1 line `usize::MAX`, and with a count `n` of at least 2 line
      `n - 1`; a line missing from the row map gives `usize::MAX - 1`. */
  lemma BottomRowByCount(ev: Event, v: View)
    ensures var position :=
              match ParseUsize(v.prefixNum)
              case Some(n) => if n <= 1 then USIZE_MAX else n - 1
              case None => USIZE_MAX - 1;
            Run(OnBottom, ev, v) == Ok(UpdateUpperMark(if position in v.rowMap then v.rowMap[position] else USIZE_MAX - 1))
  {
  }

  /** With a printed count of at least 2, `G` goes to the row of line
      `n - 1` when the map has it, and to `usize::MAX - 1` otherwise. */
  lemma BottomRowOfPrinted(ev: Event, v: View, n: nat)
    requires 2 <= n <= USIZE_MAX && v.prefixNum == NatToString(n)
    ensures n - 1 in v.rowMap ==> Run(OnBottom, ev, v) == Ok(UpdateUpperMark(v.rowMap[n - 1]))
    ensures n - 1 !in v.rowMap ==> Run(OnBottom, ev, v) == Ok(UpdateUpperMark(USIZE_MAX - 1))
  {
    ParsePrinted(n);
    BottomRowByCount(ev, v);
  }

  /** `n` and `p` mirror each other: in a forward search `n` moves to
      the next match and `p` to the previous one, a reverse search swaps
      them, and with no search running both are ignored. */
  function Mirror(e: InputEvent): InputEvent
  {
    match e
    case MoveToNextMatch(c) => MoveToPrevMatch(c)
    case MoveToPrevMatch(c) => MoveToNextMatch(c)
    case _ => e
  }

  lemma NextPrevMirror(ev: Event, v: View)
    ensures Run(OnPrev, ev, v).Ok? && Run(OnNext, ev, v).Ok?
    ensures Run(OnPrev, ev, v).value == Mirror(Run(OnNext, ev, v).value)
    ensures v.searchMode == Forward <==> Run(OnNext, ev, v) == Ok(MoveToNextMatch(Count(v)))
    ensures v.searchMode == Reverse <==> Run(OnNext, ev, v) == Ok(MoveToPrevMatch(Count(v)))
    ensures v.searchMode == Unknown <==> Run(OnNext, ev, v) == Ok(Ignore)
  {
  }

  /** The wildcard reports an unmodified ASCII digit key as a number and
      ignores every other event. */
  lemma WildDigits(ev: Event, v: View)
    ensures Run(OnWild, ev, v).Ok?
    ensures Run(OnWild, ev, v).value.Number? <==>
              ev.Key? && ev.key.code.Char? && ev.key.modifiers == NONE && IsAsciiDigit(ev.key.code.c)
    ensures Run(OnWild, ev, v).value.Number? ==> Run(OnWild, ev, v).value.digit == ev.key.code.c
    ensures !Run(OnWild, ev, v).value.Number? ==> Run(OnWild, ev, v).value == Ignore
  {
  }

  /** The resize callback passes the new size on, and is only ever meant
      for resize events. */
  lemma ResizePassesSize(ev: Event, v: View)
    ensures Run(OnResize, ev, v).Ok? <==> ev.Resize?
    ensures ev.Resize? ==> Run(OnResize, ev, v).value == UpdateTermArea(ev.cols, ev.rows)
  {
  }

  /** Toggles: `c-f`, `c-l` and `c-h` ask for the opposite of the current
      setting, so asking twice restores it. */
  lemma TogglesInvert(ev: Event, v: View)
    ensures Run(OnFollow, ev, v) == Ok(FollowOutput(!v.followOutput))
    ensures Run(OnWrap, ev, v) == Ok(HorizontalScroll(!v.lineWrapping))
    ensures var ln := Run(OnLineNumbers, ev, v).value.lineNumbers;
            Run(OnLineNumbers, ev, v.(lineNumbers := ln)) == Ok(UpdateLineNumber(v.lineNumbers))
  {
    NotInvolution(v.lineNumbers);
  }

  /** No default callback reads the event, except the resize callback and
      the wildcard. */
  lemma CallbacksIgnoreEvent(a: Action, e1: Event, e2: Event, v: View)
    requires a != OnResize && a != OnWild
    ensures Run(a, e1, v) == Run(a, e2, v)
  {
  }

  // ---------------------------------------------------------------------------
  // The legacy classifier
  // ---------------------------------------------------------------------------

  /** A successful reaction, or none. */
  function Found(r: Result<InputEvent>): Result<Option<InputEvent>>
  {
    match r
    case Ok(e) => Ok(Some(e))
    case Panic => Panic
  }

  /** The reaction of `DefaultInputClassifier` to a key, arm by arm in
      the order of the source; `wrapMods` are the modifiers its
      horizontal-scroll arm compares with. */
  function ClassifyKey(wrapMods: Modifiers, code: KeyCode, mods: Modifiers, v: View): Result<Option<InputEvent>>
  {
    if mods == NONE && (code == Up || code == Char('k')) then Ok(Some(UpdateUpperMark(SatSub(v.upperMark, Count(v)))))
    else if mods == NONE && (code == Down || code == Char('j')) then Ok(Some(UpdateUpperMark(SatAdd(v.upperMark, Count(v)))))
    else if mods == CONTROL && code == Char('f') then Ok(Some(FollowOutput(!v.followOutput)))
    else if mods == NONE && code.Char? && IsAsciiDigit(code.c) then Ok(Some(Number(code.c)))
    else if mods == NONE && code == Enter then
      (if v.hasMessage then Ok(Some(RestorePrompt)) else Ok(Some(UpdateUpperMark(SatAdd(v.upperMark, Count(v))))))
    else if code == Char('u') && (mods == CONTROL || mods == NONE) then Ok(Some(UpdateUpperMark(SatSub(v.upperMark, v.rows / 2))))
    else if code == Char('d') && (mods == CONTROL || mods == NONE) then Ok(Some(UpdateUpperMark(SatAdd(v.upperMark, v.rows / 2))))
    else if code == Char('g') && mods == NONE then Ok(Some(UpdateUpperMark(0)))
    else if (code == Char('g') && mods == SHIFT) || (code == Char('G') && (mods == SHIFT || mods == NONE)) then
      var n := match ParseUsize(v.prefixNum) case Some(n) => n case None => USIZE_MAX;
      var p := SatSub(n, 1);
      Ok(Some(UpdateUpperMark(if p == 0 then USIZE_MAX else p)))
    else if code == PageUp && mods == NONE then
      (if v.rows == 0 then Panic else Ok(Some(UpdateUpperMark(SatSub(v.upperMark, v.rows - 1)))))
    else if mods == NONE && (code == PageDown || code == Char(' ')) then
      (if v.rows == 0 then Panic else Ok(Some(UpdateUpperMark(SatAdd(v.upperMark, v.rows - 1)))))
    else if code == Char('l') && mods == CONTROL then Ok(Some(UpdateLineNumber(Not(v.lineNumbers))))
    else if (code == Char('q') && mods == NONE) || (code == Char('c') && mods == CONTROL) then Ok(Some(Exit))
    else if code == Char('h') && mods == wrapMods then Ok(Some(HorizontalScroll(!v.lineWrapping)))
    else if mods == NONE && (code == Char('h') || code == Left) then Ok(Some(UpdateLeftMark(SatSub(v.leftMark, 1))))
    else if mods == NONE && (code == Char('l') || code == Right) then Ok(Some(UpdateLeftMark(SatAdd(v.leftMark, 1))))
    else if code == Char('/') && mods == NONE then Ok(Some(Search(Forward)))
    else if code == Char('?') && mods == NONE then Ok(Some(Search(Reverse)))
    else if code == Char('n') && mods == NONE then
      (if SM.Eq(v.searchMode, Reverse) then Ok(Some(MoveToPrevMatch(Count(v)))) else Ok(Some(MoveToNextMatch(Count(v)))))
    else if code == Char('p') && mods == NONE then
      (if SM.Eq(v.searchMode, Reverse) then Ok(Some(MoveToNextMatch(Count(v)))) else Ok(Some(MoveToPrevMatch(Count(v)))))
    else Ok(None)
  }

  /** `DefaultInputClassifier::classify_input` with the horizontal-scroll
      arm comparing against `wrapMods`. */
  function ClassifyWith(wrapMods: Modifiers, ev: Event, v: View): Result<Option<InputEvent>>
  {
    match ev
    case Key(k) => ClassifyKey(wrapMods, k.code, k.modifiers, v)
    case Mouse(m) =>
      if m.kind == ScrollUp then Ok(Some(UpdateUpperMark(SatSub(v.upperMark, 5))))
      else if m.kind == ScrollDown then Ok(Some(UpdateUpperMark(SatAdd(v.upperMark, 5))))
      else Ok(None)
    case Resize(cols, rows) => Ok(Some(UpdateTermArea(cols, rows)))
    case _ => Ok(None)
  }

  /** The classifier as written: its horizontal-scroll arm compares with
      `CONTROL.intersection(SHIFT)`, which holds no flag at all. */
  function ClassifyAsWritten(ev: Event, v: View): Result<Option<InputEvent>>
  {
    ClassifyWith(Intersection(CONTROL, SHIFT), ev, v)
  }

  /** The classifier with the horizontal-scroll arm on `c-s-h`, the
      flags `CONTROL | SHIFT`, as the default bindings have it. */
  function Classify(ev: Event, v: View): Result<Option<InputEvent>>
  {
    ClassifyWith(Union(CONTROL, SHIFT), ev, v)
  }

  /** As written, a plain `h` toggles horizontal scrolling, so the arm
      that should move the left mark on `h` never sees it, and `c-s-h`
      does nothing. */
  lemma PlainHScrollsAsWritten(k: KeyEvent, v: View)
    requires k.code == Char('h')
    ensures k.modifiers == NONE ==> ClassifyAsWritten(Key(k), v) == Ok(Some(HorizontalScroll(!v.lineWrapping)))
    ensures k.modifiers == Union(CONTROL, SHIFT) ==> ClassifyAsWritten(Key(k), v) == Ok(None)
    ensures forall m :: ClassifyAsWritten(Key(k.(modifiers := m)), v) != Ok(Some(UpdateLeftMark(SatSub(v.leftMark, 1))))
  {
    assert Intersection(CONTROL, SHIFT) == NONE;
  }

  /** Corrected, `h` moves the left mark one column left and `c-s-h`
      toggles horizontal scrolling; every other event is classified as
      before. */
  lemma PlainHMovesLeft(k: KeyEvent, v: View)
    requires k.code == Char('h')
    ensures k.modifiers == NONE ==> Classify(Key(k), v) == Ok(Some(UpdateLeftMark(SatSub(v.leftMark, 1))))
    ensures k.modifiers == Union(CONTROL, SHIFT) ==> Classify(Key(k), v) == Ok(Some(HorizontalScroll(!v.lineWrapping)))
  {
  }

  lemma CorrectionOnlyOnH(ev: Event, v: View)
    requires !(ev.Key? && ev.key.code == Char('h'))
    ensures Classify(ev, v) == ClassifyAsWritten(ev, v)
  {
  }

  /** For the movement keys both know, the classifier reacts as the
      default callbacks do. */
  lemma ClassifierAgreesOnMovement(k: KeyEvent, v: View)
    ensures k.modifiers == NONE && (k.code == Up || k.code == Char('k')) ==> Classify(Key(k), v) == Found(Run(OnUp, Key(k), v))
    ensures k.modifiers == NONE && (k.code == Down || k.code == Char('j')) ==> Classify(Key(k), v) == Found(Run(OnDown, Key(k), v))
    ensures k.modifiers == NONE && k.code == Enter ==> Classify(Key(k), v) == Found(Run(OnEnter, Key(k), v))
    ensures k.modifiers == NONE && k.code == Char('u') ==> Classify(Key(k), v) == Found(Run(OnHalfUp, Key(k), v))
    ensures k.modifiers == NONE && k.code == Char('d') ==> Classify(Key(k), v) == Found(Run(OnHalfDown, Key(k), v))
    ensures k.modifiers == NONE && k.code == Char('g') ==> Classify(Key(k), v) == Found(Run(OnTop, Key(k), v))
    ensures k.modifiers == NONE && k.code == PageUp ==> Classify(Key(k), v) == Found(Run(OnPageUp, Key(k), v))
    ensures k.modifiers == NONE && k.code == PageDown ==> Classify(Key(k), v) == Found(Run(OnPageDown, Key(k), v))
  {
  }

  /** So it does for the other keys both know: following the output,
      line numbers, quitting, the searches and the count digits. */
  lemma ClassifierAgreesOnCommands(k: KeyEvent, v: View)
    ensures k.modifiers == CONTROL && k.code == Char('f') ==> Classify(Key(k), v) == Found(Run(OnFollow, Key(k), v))
    ensures k.modifiers == CONTROL && k.code == Char('l') ==> Classify(Key(k), v) == Found(Run(OnLineNumbers, Key(k), v))
    ensures k.modifiers == NONE && k.code == Char('q') ==> Classify(Key(k), v) == Found(Run(OnQuit, Key(k), v))
    ensures k.modifiers == NONE && k.code == Char('/') ==> Classify(Key(k), v) == Found(Run(OnSearchForward, Key(k), v))
    ensures k.modifiers == NONE && k.code == Char('?') ==> Classify(Key(k), v) == Found(Run(OnSearchReverse, Key(k), v))
    ensures k.modifiers == NONE && k.code.Char? && IsAsciiDigit(k.code.c) ==> Classify(Key(k), v) == Found(Run(OnWild, Key(k), v))
  {
  }

  /** Where the classifier differs from the callbacks: `G` never reads
      the row map, `h` and `l` move by one whatever the count, and `n`
      with no search running moves to the next match instead of being
      ignored. */
  lemma ClassifierIgnoresRowMap(ev: Event, v: View, rowMap: map<nat, nat>)
    ensures Classify(ev, v) == Classify(ev, v.(rowMap := rowMap))
    ensures ClassifyAsWritten(ev, v) == ClassifyAsWritten(ev, v.(rowMap := rowMap))
  {
    if ev.Key? {
      KeyIgnoresRowMap(Union(CONTROL, SHIFT), ev.key, v, rowMap);
      KeyIgnoresRowMap(Intersection(CONTROL, SHIFT), ev.key, v, rowMap);
    }
  }

  lemma KeyIgnoresRowMap(wrapMods: Modifiers, k: KeyEvent, v: View, rowMap: map<nat, nat>)
    ensures ClassifyKey(wrapMods, k.code, k.modifiers, v) == ClassifyKey(wrapMods, k.code, k.modifiers, v.(rowMap := rowMap))
  {
  }

  lemma ClassifierBottom(k: KeyEvent, v: View)
    requires k.code == Char('G') && k.modifiers == NONE
    ensures ParseUsize(v.prefixNum).None? ==> Classify(Key(k), v) == Ok(Some(UpdateUpperMark(USIZE_MAX - 1)))
    ensures ParseUsize(v.prefixNum) == Some(1) ==> Classify(Key(k), v) == Ok(Some(UpdateUpperMark(USIZE_MAX)))
  {
  }

  lemma ClassifierNextWithoutSearch(k: KeyEvent, v: View)
    requires k.code == Char('n') && k.modifiers == NONE && v.searchMode == Unknown
    ensures Classify(Key(k), v) == Ok(Some(MoveToNextMatch(Count(v))))
    ensures Run(OnNext, Key(k), v) == Ok(Ignore)
  {
  }

  /** Events no arm names give no reaction: focus changes, pastes, mouse
      events other than scrolling, and keys held with Alt. */
  lemma ClassifierUnmatched(ev: Event, v: View)
    ensures ev.FocusGained? || ev.FocusLost? || ev.Paste? ==> Classify(ev, v) == Ok(None)
    ensures ev.Mouse? && ev.mouse.kind != ScrollUp && ev.mouse.kind != ScrollDown ==> Classify(ev, v) == Ok(None)
    ensures ev.Key? && ev.key.modifiers.alt ==> Classify(ev, v) == Ok(None)
  {
  }
}
