/** The key-binding parser (src/input/definitions/keydefs.rs): turns a
    description such as `c-s-h` or `pagedown` into the key event it names,
    and panics on a malformed one. */
module KeyDefs {
  import opened Common
  import opened Terminal
  import opened Tokens

  /** `SPECIAL_KEYS`: the named keys, looked up by their lower-case name. */
  const SPECIAL_KEYS: map<string, KeyCode> := map[
    "enter" := Enter, "tab" := Tab, "backtab" := BackTab, "backspace" := Backspace,
    "up" := Up, "down" := Down, "right" := Right, "left" := Left,
    "pageup" := PageUp, "pagedown" := PageDown, "home" := Home, "end" := End,
    "insert" := Insert, "delete" := Delete, "esc" := Esc,
    "f1" := F(1), "f2" := F(2), "f3" := F(3), "f4" := F(4), "f5" := F(5), "f6" := F(6),
    "f7" := F(7), "f8" := F(8), "f9" := F(9), "f10" := F(10), "f11" := F(11), "f12" := F(12),
    "dash" := Char('-'), "space" := Char(' ')]

  /** The key and modifiers read so far. */
  datatype KeySeq = KeySeq(code: Option<KeyCode>, modifiers: Modifiers)

  /** The loop of `gen_keyevent_from_tokenlist` over the tokens left,
      with `names` the table of named keys:
      - a separator is skipped, but one followed by another panics;
      - a modifier letter takes the next token along; a separator there
        adds the modifier, which must not be held already; otherwise the
        letter is the key;
      - any other single character is the key;
      - a longer run is looked up in lower case, and must name a key;
      - a second key panics. */
  function GenFrom(ts: seq<Token>, ks: KeySeq, names: map<string, KeyCode>): (r: Result<KeySeq>)
    decreases |ts|
  {
    if ts == [] then Ok(ks)
    else
      match ts[0]
      case Separator =>
        if |ts| > 1 && ts[1] == Separator then Panic else GenFrom(ts[1..], ks, names)
      case SingleChar(c) =>
        var m := ModifierOf(c);
        if m.Some? && |ts| > 1 && ts[1] == Separator then
          if Contains(ks.modifiers, m.value) then Panic
          else GenFrom(ts[2..], ks.(modifiers := Union(ks.modifiers, m.value)), names)
        else if ks.code.Some? then Panic
        else GenFrom(if m.Some? && |ts| > 1 then ts[2..] else ts[1..], ks.(code := Some(Char(c))), names)
      case MultipleChar(s) =>
        var name := Lower(s);
        if name !in names || ks.code.Some? then Panic
        else GenFrom(ts[1..], ks.(code := Some(names[name])), names)
  }

  /** The key event the loop's result stands for: no key is `Null`. */
  function Finish(r: Result<KeySeq>): Result<KeyEvent>
  {
    if r.Panic? then Panic
    else Ok(Pressed(if r.value.code.Some? then r.value.code.value else Null, r.value.modifiers))
  }

  predicate AllAscii(text: string)
  {
    forall i :: 0 <= i < |text| ==> IsAscii(text[i])
  }

  /** `parse_key_event` with the table `names`: tokenize, then read the
      tokens. */
  function KeyOf(text: string, names: map<string, KeyCode>): Result<KeyEvent>
  {
    if !AllAscii(text) || Trim(text) == [] then Panic
    else Finish(GenFrom(Tokenize(Trim(text)), KeySeq(None, NONE), names))
  }

  /** `gen_keyevent_from_tokenlist`. */
  method GenKeyEvent(ts: seq<Token>, names: map<string, KeyCode>) returns (r: Result<KeyEvent>)
    ensures r == Finish(GenFrom(ts, KeySeq(None, NONE), names))
  {
    var ks := KeySeq(None, NONE);
    var i := 0;
    while i < |ts|
      invariant 0 <= i <= |ts|
      invariant GenFrom(ts[i..], ks, names) == GenFrom(ts, KeySeq(None, NONE), names)
      decreases |ts| - i
    {
      var rest := ts[i..];
      assert rest[0] == ts[i];
      match ts[i]
      case Separator =>
        if i + 1 < |ts| && ts[i + 1] == Separator {
          return Panic;
        }
        assert rest[1..] == ts[i + 1..];
        i := i + 1;
      case SingleChar(c) =>
        var m := ModifierOf(c);
        if m.Some? && i + 1 < |ts| && ts[i + 1] == Separator {
          if Contains(ks.modifiers, m.value) {
            return Panic;
          }
          assert rest[2..] == ts[i + 2..];
          ks := ks.(modifiers := Union(ks.modifiers, m.value));
          i := i + 2;
        } else {
          if ks.code.Some? {
            return Panic;
          }
          ks := ks.(code := Some(Char(c)));
          if m.Some? && i + 1 < |ts| {
            assert rest[2..] == ts[i + 2..];
            i := i + 2;
          } else {
            assert rest[1..] == ts[i + 1..];
            i := i + 1;
          }
        }
      case MultipleChar(s) =>
        var name := Lower(s);
        if name !in names || ks.code.Some? {
          return Panic;
        }
        ks := ks.(code := Some(names[name]));
        assert rest[1..] == ts[i + 1..];
        i := i + 1;
    }
    r := Finish(Ok(ks));
  }

  /** `parse_key_event` of src/input/definitions/keydefs.rs; the older
      parser of src/input/input-parser/mod.rs repeats it over its own table
      (`InputParser.ParseKeyEvent`). */
  method ParseKeyEvent(text: string) returns (r: Result<KeyEvent>)
    ensures r == KeyOf(text, SPECIAL_KEYS)
  {
    var ts := ParseTokens(text);
    if ts.Panic? {
      return Panic;
    }
    r := GenKeyEvent(ts.value, SPECIAL_KEYS);
  }

  /** Separators next to each other panic where the loop reaches them. */
  lemma DoubleSeparatorPanics(rest: seq<Token>, ks: KeySeq, names: map<string, KeyCode>)
    ensures GenFrom([Separator, Separator] + rest, ks, names) == Panic
  {
  }

  /** A modifier given twice panics. */
  lemma RepeatedModifierPanics(c: char, rest: seq<Token>, ks: KeySeq, names: map<string, KeyCode>)
    requires ModifierOf(c).Some? && Contains(ks.modifiers, ModifierOf(c).value)
    ensures GenFrom([SingleChar(c), Separator] + rest, ks, names) == Panic
  {
  }

  /** A second key panics, whether a character or a name. */
  lemma SecondKeyPanics(k: Token, rest: seq<Token>, ks: KeySeq, names: map<string, KeyCode>)
    requires ks.code.Some? && IsRun(k)
    requires k.SingleChar? && ModifierOf(k.c).Some? ==> rest == [] || rest[0] != Separator
    ensures GenFrom([k] + rest, ks, names) == Panic
  {
  }

  /** The modifier prefix `c-`, `m-`, `s-` of a description. */
  function ModifierPrefix(m: Modifiers): string
  {
    (if m.control then "c-" else "") + (if m.alt then "m-" else "") + (if m.shift then "s-" else "")
  }

  lemma PrefixText(m: Modifiers)
    ensures Text(ModifierTokens(m)) == ModifierPrefix(m)
  {
    var c := if m.control then [SingleChar('c'), Separator] else [];
    var a := if m.alt then [SingleChar('m'), Separator] else [];
    var s := if m.shift then [SingleChar('s'), Separator] else [];
    TextAppend(c + a, s);
    TextAppend(c, a);
    assert Text([SingleChar('c'), Separator]) == "c-";
    assert Text([SingleChar('m'), Separator]) == "m-";
    assert Text([SingleChar('s'), Separator]) == "s-";
  }

  /** One modifier letter and its separator add the modifier. */
  lemma ModifierStep(c: char, rest: seq<Token>, ks: KeySeq, names: map<string, KeyCode>)
    requires ModifierOf(c).Some? && !Contains(ks.modifiers, ModifierOf(c).value)
    ensures GenFrom([SingleChar(c), Separator] + rest, ks, names)
            == GenFrom(rest, ks.(modifiers := Union(ks.modifiers, ModifierOf(c).value)), names)
  {
    var ts := [SingleChar(c), Separator] + rest;
    assert ts[0] == SingleChar(c) && ts[1] == Separator && ts[2..] == rest;
  }

  /** Reading the modifier prefix collects exactly its modifiers. */
  lemma ReadPrefix(m: Modifiers, rest: seq<Token>, names: map<string, KeyCode>)
    ensures GenFrom(ModifierTokens(m) + rest, KeySeq(None, NONE), names) == GenFrom(rest, KeySeq(None, m), names)
  {
    var c := if m.control then [SingleChar('c'), Separator] else [];
    var a := if m.alt then [SingleChar('m'), Separator] else [];
    var s := if m.shift then [SingleChar('s'), Separator] else [];
    var m1 := Modifiers(false, m.control, false);
    var m2 := Modifiers(false, m.control, m.alt);
    assert ModifierTokens(m) + rest == c + (a + (s + rest));
    assert GenFrom(c + (a + (s + rest)), KeySeq(None, NONE), names) == GenFrom(a + (s + rest), KeySeq(None, m1), names) by {
      if m.control {
        ModifierStep('c', a + (s + rest), KeySeq(None, NONE), names);
      } else {
        assert c + (a + (s + rest)) == a + (s + rest);
      }
    }
    assert GenFrom(a + (s + rest), KeySeq(None, m1), names) == GenFrom(s + rest, KeySeq(None, m2), names) by {
      if m.alt {
        ModifierStep('m', s + rest, KeySeq(None, m1), names);
      } else {
        assert a + (s + rest) == s + rest;
      }
    }
    assert GenFrom(s + rest, KeySeq(None, m2), names) == GenFrom(rest, KeySeq(None, m), names) by {
      if m.shift {
        ModifierStep('s', rest, KeySeq(None, m2), names);
      } else {
        assert s + rest == rest;
      }
    }
  }

  /** `Trim` keeps a text with no whitespace at either end. */
  lemma TrimKeeps(s: string)
    requires s != [] && !IsWhitespace(s[0]) && !IsWhitespace(s[|s| - 1])
    ensures Trim(s) == s
  {
  }

  /** A description made of a modifier prefix and a run is ASCII, has no
      whitespace to trim, and reads back as the tokens that spell it. */
  lemma DescriptionTokens(m: Modifiers, last: Token)
    requires IsRun(last) && AllAscii(TokenText(last))
    requires !IsWhitespace(TokenText(last)[0]) && !IsWhitespace(TokenText(last)[|TokenText(last)| - 1])
    ensures var d := ModifierPrefix(m) + TokenText(last);
            AllAscii(d) && Trim(d) == d && Tokenize(d) == ModifierTokens(m) + [last]
  {
    var p, w := ModifierPrefix(m), TokenText(last);
    var d := p + w;
    assert AllAscii(p);
    assert AllAscii(d) by {
      forall i | 0 <= i < |d|
        ensures IsAscii(d[i])
      {
        if i >= |p| {
          assert d[i] == w[i - |p|];
        }
      }
    }
    assert d[|d| - 1] == w[|w| - 1];
    assert p == [] || p[0] == 'c' || p[0] == 'm' || p[0] == 's';
    assert d[0] == if p == [] then w[0] else p[0];
    TrimKeeps(d);
    TokensOfDescription(m, last);
  }

  lemma TokensOfDescription(m: Modifiers, last: Token)
    requires IsRun(last)
    ensures Tokenize(ModifierPrefix(m) + TokenText(last)) == ModifierTokens(m) + [last]
  {
    ModifierTokensWellFormed(m, last);
    TextAppend(ModifierTokens(m), [last]);
    assert Text([last]) == TokenText(last) by {
      assert [last][1..] == [];
    }
    PrefixText(m);
    TokenizeText(ModifierTokens(m) + [last]);
  }

  /** A description that needs no trimming is read from its tokens. */
  lemma KeyOfTokens(d: string, ts: seq<Token>, names: map<string, KeyCode>)
    requires d != [] && AllAscii(d) && Trim(d) == d && Tokenize(d) == ts
    ensures KeyOf(d, names) == Finish(GenFrom(ts, KeySeq(None, NONE), names))
  {
  }

  /** The key that ends a description after its modifiers. */
  lemma LastKey(last: Token, m: Modifiers, names: map<string, KeyCode>)
    requires last.SingleChar? || (last.MultipleChar? && Lower(last.s) in names)
    ensures GenFrom([last], KeySeq(None, m), names)
            == Ok(KeySeq(Some(if last.SingleChar? then Char(last.c) else names[Lower(last.s)]), m))
  {
    assert [last][1..] == [];
  }

  /** A description of a prefix and a run reads as the run's key with the
      prefix's modifiers. */
  lemma DescriptionKey(m: Modifiers, last: Token, names: map<string, KeyCode>)
    requires IsRun(last) && AllAscii(TokenText(last))
    requires !IsWhitespace(TokenText(last)[0]) && !IsWhitespace(TokenText(last)[|TokenText(last)| - 1])
    requires last.SingleChar? || Lower(last.s) in names
    ensures KeyOf(ModifierPrefix(m) + TokenText(last), names)
            == Ok(Pressed(if last.SingleChar? then Char(last.c) else names[Lower(last.s)], m))
  {
    var d := ModifierPrefix(m) + TokenText(last);
    calc {
      KeyOf(d, names);
      { DescriptionTokens(m, last); KeyOfTokens(d, ModifierTokens(m) + [last], names); }
      Finish(GenFrom(ModifierTokens(m) + [last], KeySeq(None, NONE), names));
      { ReadPrefix(m, [last], names); }
      Finish(GenFrom([last], KeySeq(None, m), names));
      { LastKey(last, m, names); }
      Finish(Ok(KeySeq(Some(if last.SingleChar? then Char(last.c) else names[Lower(last.s)]), m)));
    }
  }

  /** A named key with modifiers: the description `<prefix><name>` of a
      lower-case name in the table parses to that key with exactly those
      modifiers. */
  lemma NamedKeyRoundTrip(m: Modifiers, name: string, names: map<string, KeyCode>)
    requires name in names && Lower(name) == name
    requires |name| >= 2 && '-' !in name && AllAscii(name)
    requires !IsWhitespace(name[0]) && !IsWhitespace(name[|name| - 1])
    ensures KeyOf(ModifierPrefix(m) + name, names) == Ok(Pressed(names[name], m))
  {
    DescriptionKey(m, MultipleChar(name), names);
  }

  /** A character key with modifiers: `<prefix><c>` parses to `Char(c)`
      with exactly those modifiers, a modifier letter included. */
  lemma CharKeyRoundTrip(m: Modifiers, c: char, names: map<string, KeyCode>)
    requires c != '-' && IsAscii(c) && !IsWhitespace(c)
    ensures KeyOf(ModifierPrefix(m) + [c], names) == Ok(Pressed(Char(c), m))
  {
    DescriptionKey(m, SingleChar(c), names);
  }

  /** A table name: small letters, digits and colons only. */
  predicate PlainName(s: string)
  {
    s == [] || (('a' <= s[0] <= 'z' || '0' <= s[0] <= '9' || s[0] == ':') && PlainName(s[1..]))
  }

  /** A table name is ASCII, has no separator or whitespace, and is its
      own lower case. */
  lemma {:induction false} PlainNameFacts(s: string)
    requires PlainName(s)
    ensures AllAscii(s) && '-' !in s && Lower(s) == s
    ensures forall i :: 0 <= i < |s| ==> !IsWhitespace(s[i])
  {
    if s != [] {
      PlainNameFacts(s[1..]);
      assert s == [s[0]] + s[1..];
    }
  }

  /** The parser's own examples: `c-s-h` is Ctrl+Shift+h, ... */
  lemma ParseCtrlShift()
    ensures KeyOf("c-s-h", SPECIAL_KEYS) == Ok(Pressed(Char('h'), Modifiers(true, true, false)))
  {
    assert ModifierPrefix(Modifiers(true, true, false)) + ['h'] == "c-s-h";
    CharKeyRoundTrip(Modifiers(true, true, false), 'h', SPECIAL_KEYS);
  }

  /** ... `s-g` is Shift+g, ... */
  lemma ParseShift()
    ensures KeyOf("s-g", SPECIAL_KEYS) == Ok(Pressed(Char('g'), SHIFT))
  {
    assert ModifierPrefix(SHIFT) + ['g'] == "s-g";
    CharKeyRoundTrip(SHIFT, 'g', SPECIAL_KEYS);
  }

  /** ... `G` is a capital G without modifiers, ... */
  lemma ParseCapital()
    ensures KeyOf("G", SPECIAL_KEYS) == Ok(Pressed(Char('G'), NONE))
  {
    assert ModifierPrefix(NONE) + ['G'] == "G";
    CharKeyRoundTrip(NONE, 'G', SPECIAL_KEYS);
  }

  /** ... and `up` is the Up key. */
  lemma ParseNamed(names: map<string, KeyCode>)
    requires "up" in names && names["up"] == Up
    ensures KeyOf("up", names) == Ok(Pressed(Up, NONE))
  {
    assert ModifierPrefix(NONE) + "up" == "up";
    assert PlainName("up");
    PlainNameFacts("up");
    NamedKeyRoundTrip(NONE, "up", names);
  }

  lemma UpIsNamed()
    ensures "up" in SPECIAL_KEYS && SPECIAL_KEYS["up"] == Up
  {
  }

  /** A doubled separator right after a modifier is taken by the modifier
      and the check for doubled separators does not see it: `c--x` is
      read as Ctrl+x. */
  lemma SeparatorAfterModifierAccepted()
    ensures GenFrom([SingleChar('c'), Separator, Separator, SingleChar('x')], KeySeq(None, NONE), SPECIAL_KEYS)
            == Ok(KeySeq(Some(Char('x')), CONTROL))
  {
  }
}
