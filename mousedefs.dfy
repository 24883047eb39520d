/** The mouse-binding parser (src/input/definitions/mousedefs.rs): turns a
    description such as `c-scroll:up` into the mouse event it names. Unlike
    keys, every single character must be a modifier, and the action is
    always a named one. */
module MouseDefs {
  import opened Common
  import opened Terminal
  import opened Tokens
  import opened KeyDefs

  /** `MOUSE_ACTIONS`: the mouse actions, by their lower-case name. */
  const MOUSE_ACTIONS: map<string, MouseEventKind> := map[
    "left:down" := ButtonDown(LeftButton), "right:down" := ButtonDown(RightButton),
    "mid:down" := ButtonDown(MiddleButton),
    "left:up" := ButtonUp(LeftButton), "right:up" := ButtonUp(RightButton),
    "mid:up" := ButtonUp(MiddleButton),
    "left:drag" := ButtonDrag(LeftButton), "right:drag" := ButtonDrag(RightButton),
    "mid:drag" := ButtonDrag(MiddleButton),
    "move" := Moved, "scroll:up" := ScrollUp, "scroll:down" := ScrollDown]

  /** The action and modifiers read so far. */
  datatype MouseSeq = MouseSeq(kind: Option<MouseEventKind>, modifiers: Modifiers)

  /** The loop of `gen_mouse_event_from_tokenlist` over the tokens left:
      - a separator is skipped, but one followed by another panics;
      - a single character must be a modifier followed by a separator, and
        the modifier must not be held already;
      - a longer run is looked up in lower case, must name an action, and
        there may be only one. */
  function MouseFrom(ts: seq<Token>, ms: MouseSeq, actions: map<string, MouseEventKind>): (r: Result<MouseSeq>)
    decreases |ts|
  {
    if ts == [] then Ok(ms)
    else
      match ts[0]
      case Separator =>
        if |ts| > 1 && ts[1] == Separator then Panic else MouseFrom(ts[1..], ms, actions)
      case SingleChar(c) =>
        var m := ModifierOf(c);
        if m.None? || |ts| == 1 || ts[1] != Separator || Contains(ms.modifiers, m.value) then Panic
        else MouseFrom(ts[2..], ms.(modifiers := Union(ms.modifiers, m.value)), actions)
      case MultipleChar(s) =>
        var name := Lower(s);
        if name !in actions || ms.kind.Some? then Panic
        else MouseFrom(ts[1..], ms.(kind := Some(actions[name])), actions)
  }

  /** The mouse event the loop's result stands for, at cell `(0, 0)`; no
      action panics. */
  function FinishMouse(r: Result<MouseSeq>): Result<MouseEvent>
  {
    if r.Panic? || r.value.kind.None? then Panic
    else Ok(MouseEvent(r.value.kind.value, 0, 0, r.value.modifiers))
  }

  /** `parse_mouse_event` with the table `actions`. */
  function MouseOf(text: string, actions: map<string, MouseEventKind>): Result<MouseEvent>
  {
    if !AllAscii(text) || Trim(text) == [] then Panic
    else FinishMouse(MouseFrom(Tokenize(Trim(text)), MouseSeq(None, NONE), actions))
  }

  /** `gen_mouse_event_from_tokenlist`. */
  method GenMouseEvent(ts: seq<Token>, actions: map<string, MouseEventKind>) returns (r: Result<MouseEvent>)
    ensures r == FinishMouse(MouseFrom(ts, MouseSeq(None, NONE), actions))
  {
    var ms := MouseSeq(None, NONE);
    var i := 0;
    while i < |ts|
      invariant 0 <= i <= |ts|
      invariant MouseFrom(ts[i..], ms, actions) == MouseFrom(ts, MouseSeq(None, NONE), actions)
      decreases |ts| - i
    {
      var rest := ts[i..];
      assert rest[0] == ts[i];
      match ts[i]
      case Separator =>
        if i + 1 < |ts| && ts[i + 1] == Separator {
          return Panic;
        }
        assert rest[1..] == ts[i + 1..];
        i := i + 1;
      case SingleChar(c) =>
        var m := ModifierOf(c);
        if m.None? {
          return Panic;
        }
        if i + 1 == |ts| || ts[i + 1] != Separator {
          return Panic;
        }
        if Contains(ms.modifiers, m.value) {
          return Panic;
        }
        assert rest[2..] == ts[i + 2..];
        ms := ms.(modifiers := Union(ms.modifiers, m.value));
        i := i + 2;
      case MultipleChar(s) =>
        var name := Lower(s);
        if name !in actions || ms.kind.Some? {
          return Panic;
        }
        ms := ms.(kind := Some(actions[name]));
        assert rest[1..] == ts[i + 1..];
        i := i + 1;
    }
    if ms.kind.None? {
      return Panic;
    }
    r := Ok(MouseEvent(ms.kind.value, 0, 0, ms.modifiers));
  }

  /** `parse_mouse_event`. */
  method ParseMouseEvent(text: string) returns (r: Result<MouseEvent>)
    ensures r == MouseOf(text, MOUSE_ACTIONS)
  {
    var ts := ParseTokens(text);
    if ts.Panic? {
      return Panic;
    }
    r := GenMouseEvent(ts.value, MOUSE_ACTIONS);
  }

  /** A single character that is not a modifier panics. */
  lemma NonModifierPanics(c: char, rest: seq<Token>, ms: MouseSeq, actions: map<string, MouseEventKind>)
    requires c != 'c' && c != 'm' && c != 's'
    ensures MouseFrom([SingleChar(c)] + rest, ms, actions) == Panic
  {
    assert ([SingleChar(c)] + rest)[0] == SingleChar(c);
  }

  /** A second action panics. */
  lemma SecondActionPanics(s: string, rest: seq<Token>, ms: MouseSeq, actions: map<string, MouseEventKind>)
    requires ms.kind.Some?
    ensures MouseFrom([MultipleChar(s)] + rest, ms, actions) == Panic
  {
    assert ([MultipleChar(s)] + rest)[0] == MultipleChar(s);
  }

  /** One modifier letter and its separator add the modifier. */
  lemma MouseModifierStep(c: char, rest: seq<Token>, ms: MouseSeq, actions: map<string, MouseEventKind>)
    requires ModifierOf(c).Some? && !Contains(ms.modifiers, ModifierOf(c).value)
    ensures MouseFrom([SingleChar(c), Separator] + rest, ms, actions)
            == MouseFrom(rest, ms.(modifiers := Union(ms.modifiers, ModifierOf(c).value)), actions)
  {
    var ts := [SingleChar(c), Separator] + rest;
    assert ts[0] == SingleChar(c) && ts[1] == Separator && ts[2..] == rest;
  }

  /** Reading the modifier prefix collects exactly its modifiers. */
  lemma ReadMousePrefix(m: Modifiers, rest: seq<Token>, actions: map<string, MouseEventKind>)
    ensures MouseFrom(ModifierTokens(m) + rest, MouseSeq(None, NONE), actions) == MouseFrom(rest, MouseSeq(None, m), actions)
  {
    var c := if m.control then [SingleChar('c'), Separator] else [];
    var a := if m.alt then [SingleChar('m'), Separator] else [];
    var s := if m.shift then [SingleChar('s'), Separator] else [];
    var m1 := Modifiers(false, m.control, false);
    var m2 := Modifiers(false, m.control, m.alt);
    assert ModifierTokens(m) + rest == c + (a + (s + rest));
    assert MouseFrom(c + (a + (s + rest)), MouseSeq(None, NONE), actions) == MouseFrom(a + (s + rest), MouseSeq(None, m1), actions) by {
      if m.control {
        MouseModifierStep('c', a + (s + rest), MouseSeq(None, NONE), actions);
      } else {
        assert c + (a + (s + rest)) == a + (s + rest);
      }
    }
    assert MouseFrom(a + (s + rest), MouseSeq(None, m1), actions) == MouseFrom(s + rest, MouseSeq(None, m2), actions) by {
      if m.alt {
        MouseModifierStep('m', s + rest, MouseSeq(None, m1), actions);
      } else {
        assert a + (s + rest) == s + rest;
      }
    }
    assert MouseFrom(s + rest, MouseSeq(None, m2), actions) == MouseFrom(rest, MouseSeq(None, m), actions) by {
      if m.shift {
        MouseModifierStep('s', rest, MouseSeq(None, m2), actions);
      } else {
        assert s + rest == rest;
      }
    }
  }

  /** A description that needs no trimming is read from its tokens. */
  lemma MouseOfTokens(d: string, ts: seq<Token>, actions: map<string, MouseEventKind>)
    requires d != [] && AllAscii(d) && Trim(d) == d && Tokenize(d) == ts
    ensures MouseOf(d, actions) == FinishMouse(MouseFrom(ts, MouseSeq(None, NONE), actions))
  {
  }

  /** A named action with modifiers: `<prefix><name>` for a lower-case
      name in the table parses to that action with exactly those
      modifiers. */
  lemma MouseRoundTrip(m: Modifiers, name: string, actions: map<string, MouseEventKind>)
    requires name in actions && Lower(name) == name
    requires |name| >= 2 && '-' !in name && AllAscii(name)
    requires !IsWhitespace(name[0]) && !IsWhitespace(name[|name| - 1])
    ensures MouseOf(ModifierPrefix(m) + name, actions) == Ok(MouseEvent(actions[name], 0, 0, m))
  {
    var d := ModifierPrefix(m) + name;
    var last := MultipleChar(name);
    calc {
      MouseOf(d, actions);
      { DescriptionTokens(m, last); MouseOfTokens(d, ModifierTokens(m) + [last], actions); }
      FinishMouse(MouseFrom(ModifierTokens(m) + [last], MouseSeq(None, NONE), actions));
      { ReadMousePrefix(m, [last], actions); }
      FinishMouse(MouseFrom([last], MouseSeq(None, m), actions));
      { assert [last][1..] == []; }
      FinishMouse(Ok(MouseSeq(Some(actions[name]), m)));
    }
  }

  /** A modifier prefix on its own needs no trimming and reads back as
      its tokens. */
  lemma PrefixTokens(m: Modifiers)
    requires m != NONE
    ensures var d := ModifierPrefix(m);
            d != [] && AllAscii(d) && Trim(d) == d && Tokenize(d) == ModifierTokens(m)
  {
    PrefixTrimmed(m);
    PrefixTokenized(m);
  }

  lemma PrefixTrimmed(m: Modifiers)
    requires m != NONE
    ensures var d := ModifierPrefix(m);
            d != [] && AllAscii(d) && Trim(d) == d
  {
    var d := ModifierPrefix(m);
    assert forall i :: 0 <= i < |d| ==> d[i] in "cms-";
    assert AllAscii(d);
    assert d[|d| - 1] == '-' && d[0] != '-';
    TrimKeeps(d);
  }

  lemma PrefixTokenized(m: Modifiers)
    ensures Tokenize(ModifierPrefix(m)) == ModifierTokens(m)
  {
    PrefixText(m);
    assert WellFormed(ModifierTokens(m));
    TokenizeText(ModifierTokens(m));
  }

  /** Modifiers without an action panic: `c-` names no mouse event. */
  lemma PrefixOnlyPanics(m: Modifiers, actions: map<string, MouseEventKind>)
    requires m != NONE
    ensures MouseOf(ModifierPrefix(m), actions) == Panic
  {
    var ts := ModifierTokens(m);
    calc {
      MouseOf(ModifierPrefix(m), actions);
      { PrefixTokens(m); MouseOfTokens(ModifierPrefix(m), ts, actions); }
      FinishMouse(MouseFrom(ts, MouseSeq(None, NONE), actions));
      { assert ts + [] == ts; ReadMousePrefix(m, [], actions); }
      FinishMouse(MouseFrom([], MouseSeq(None, m), actions));
    }
  }

  /** The parser's own examples: `left:down`, ... */
  lemma ParseLeftDown(actions: map<string, MouseEventKind>)
    requires "left:down" in actions
    ensures MouseOf("left:down", actions) == Ok(MouseEvent(actions["left:down"], 0, 0, NONE))
  {
    calc {
      MouseOf("left:down", actions);
      { assert ModifierPrefix(NONE) + "left:down" == "left:down"; }
      MouseOf(ModifierPrefix(NONE) + "left:down", actions);
      { assert PlainName("left:down"); PlainNameFacts("left:down"); MouseRoundTrip(NONE, "left:down", actions); }
      Ok(MouseEvent(actions["left:down"], 0, 0, NONE));
    }
  }

  /** ... `m-left:down` with Alt held, ... */
  lemma ParseAltLeftDown(actions: map<string, MouseEventKind>)
    requires "left:down" in actions
    ensures MouseOf("m-left:down", actions) == Ok(MouseEvent(actions["left:down"], 0, 0, ALT))
  {
    calc {
      MouseOf("m-left:down", actions);
      { assert ModifierPrefix(ALT) + "left:down" == "m-left:down"; }
      MouseOf(ModifierPrefix(ALT) + "left:down", actions);
      { assert PlainName("left:down"); PlainNameFacts("left:down"); MouseRoundTrip(ALT, "left:down", actions); }
      Ok(MouseEvent(actions["left:down"], 0, 0, ALT));
    }
  }

  /** ... and `c-scroll:up` with Control held. */
  lemma ParseCtrlScrollUp(actions: map<string, MouseEventKind>)
    requires "scroll:up" in actions
    ensures MouseOf("c-scroll:up", actions) == Ok(MouseEvent(actions["scroll:up"], 0, 0, CONTROL))
  {
    calc {
      MouseOf("c-scroll:up", actions);
      { assert ModifierPrefix(CONTROL) + "scroll:up" == "c-scroll:up"; }
      MouseOf(ModifierPrefix(CONTROL) + "scroll:up", actions);
      { assert PlainName("scroll:up"); PlainNameFacts("scroll:up"); MouseRoundTrip(CONTROL, "scroll:up", actions); }
      Ok(MouseEvent(actions["scroll:up"], 0, 0, CONTROL));
    }
  }

  /** The table holds the names the examples use. */
  lemma ExampleActions()
    ensures "left:down" in MOUSE_ACTIONS && MOUSE_ACTIONS["left:down"] == ButtonDown(LeftButton)
    ensures "scroll:up" in MOUSE_ACTIONS && MOUSE_ACTIONS["scroll:up"] == ScrollUp
  {
  }
}
