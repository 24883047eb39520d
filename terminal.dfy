/** The terminal events the pager receives, as the `crossterm` crate
    delivers them: key presses, mouse actions and resizes. Only the parts
    the pager looks at are kept. */
module Terminal {

  /** The keys a binding can name. */
  datatype KeyCode =
    | Backspace | Enter | Left | Right | Up | Down | Home | End | PageUp | PageDown
    | Tab | BackTab | Delete | Insert | F(n: nat) | Char(c: char) | Null | Esc

  /** The modifier flags `SHIFT`, `CONTROL` and `ALT` held with a key or a
      mouse action. */
  datatype Modifiers = Modifiers(shift: bool, control: bool, alt: bool)

  const NONE: Modifiers := Modifiers(false, false, false)
  const SHIFT: Modifiers := Modifiers(true, false, false)
  const CONTROL: Modifiers := Modifiers(false, true, false)
  const ALT: Modifiers := Modifiers(false, false, true)

  /** `a | b`, the flags held in either. */
  function Union(a: Modifiers, b: Modifiers): (r: Modifiers)
    ensures r.shift == (a.shift || b.shift) && r.control == (a.control || b.control) && r.alt == (a.alt || b.alt)
  {
    Modifiers(a.shift || b.shift, a.control || b.control, a.alt || b.alt)
  }

  /** `a & b`, the flags held in both. */
  function Intersection(a: Modifiers, b: Modifiers): (r: Modifiers)
    ensures r.shift == (a.shift && b.shift) && r.control == (a.control && b.control) && r.alt == (a.alt && b.alt)
  {
    Modifiers(a.shift && b.shift, a.control && b.control, a.alt && b.alt)
  }

  /** `a.contains(b)`: every flag of `b` is held in `a`. */
  predicate Contains(a: Modifiers, b: Modifiers)
  {
    (b.shift ==> a.shift) && (b.control ==> a.control) && (b.alt ==> a.alt)
  }

  /** Whether a key was pressed, held or released. */
  datatype KeyEventKind = Press | Repeat | Release

  /** A key event; `state` stands for `crossterm`'s `KeyEventState` flags,
      `0` being `NONE`. */
  datatype KeyEvent = KeyEvent(code: KeyCode, modifiers: Modifiers, kind: KeyEventKind, state: nat)

  datatype MouseButton = LeftButton | RightButton | MiddleButton

  datatype MouseEventKind =
    | ButtonDown(button: MouseButton) | ButtonUp(button: MouseButton) | ButtonDrag(button: MouseButton)
    | Moved | ScrollDown | ScrollUp

  /** A mouse event, with the cell it happened at. */
  datatype MouseEvent = MouseEvent(kind: MouseEventKind, column: nat, row: nat, modifiers: Modifiers)

  /** An event read from the terminal; `Resize` carries the new columns
      and rows. */
  datatype Event =
    | FocusGained | FocusLost
    | Key(key: KeyEvent)
    | Mouse(mouse: MouseEvent)
    | Paste(text: string)
    | Resize(cols: nat, rows: nat)

  /** A key press as the binding parser produces it. */
  function Pressed(code: KeyCode, modifiers: Modifiers): KeyEvent
  {
    KeyEvent(code, modifiers, Press, 0)
  }

  /** Whether `c` is an ASCII decimal digit. */
  predicate IsAsciiDigit(c: char)
  {
    '0' <= c <= '9'
  }

  /** `to_ascii_lowercase`: ASCII capitals become small letters, every
      other character is kept. */
  function Lower(s: string): (r: string)
    ensures |r| == |s|
    ensures forall i :: 0 <= i < |s| ==> r[i] == (if 'A' <= s[i] <= 'Z' then s[i] - 'A' + 'a' else s[i])
  {
    if s == [] then []
    else
      var c := s[0];
      [if 'A' <= c <= 'Z' then c - 'A' + 'a' else c] + Lower(s[1..])
  }
}
