/** The older key-binding parser (src/input/input-parser/mod.rs). It reads
    a description exactly as the newer one in `KeyDefs` does, with its own
    tokenizer inlined, but its table of named keys has no `space` and
    spells the delete key `Delete`. Since names are looked up after being
    lower-cased, that entry can never be found: no description parses to
    the delete key. The corrected table spells it `delete`, as the newer
    parser's table does. */
module InputParser {
  import opened Common
  import opened Terminal
  import opened Tokens
  import opened KeyDefs

  /** `SPECIAL_KEYS` as written, with the capitalised `Delete`. */
  const SPECIAL_KEYS_AS_WRITTEN: map<string, KeyCode> := map[
    "enter" := Enter, "tab" := Tab, "backtab" := BackTab, "backspace" := Backspace,
    "up" := Up, "down" := Down, "right" := Right, "left" := Left,
    "pageup" := PageUp, "pagedown" := PageDown, "home" := Home, "end" := End,
    "insert" := Insert, "Delete" := Delete, "esc" := Esc,
    "f1" := F(1), "f2" := F(2), "f3" := F(3), "f4" := F(4), "f5" := F(5), "f6" := F(6),
    "f7" := F(7), "f8" := F(8), "f9" := F(9), "f10" := F(10), "f11" := F(11), "f12" := F(12),
    "dash" := Char('-')]

  /** The table with the delete key under its lower-case name. */
  const SPECIAL_KEYS: map<string, KeyCode> := SPECIAL_KEYS_AS_WRITTEN - {"Delete"} + map["delete" := Delete]

  /** `parse_key_event` with the table as written. */
  method ParseKeyEventAsWritten(text: string) returns (r: Result<KeyEvent>)
    ensures r == KeyOf(text, SPECIAL_KEYS_AS_WRITTEN)
  {
    var ts := ParseTokens(text);
    if ts.Panic? {
      return Panic;
    }
    r := GenKeyEvent(ts.value, SPECIAL_KEYS_AS_WRITTEN);
  }

  /** `parse_key_event` with the corrected table; the same parser as
      `KeyDefs.ParseKeyEvent`, which the source keeps as a second copy. */
  method ParseKeyEvent(text: string) returns (r: Result<KeyEvent>)
    ensures r == KeyOf(text, SPECIAL_KEYS)
  {
    var ts := ParseTokens(text);
    if ts.Panic? {
      return Panic;
    }
    r := GenKeyEvent(ts.value, SPECIAL_KEYS);
  }

  /** A lower-cased name never has a capital letter. */
  lemma LowerHasNoCapital(s: string)
    ensures forall i :: 0 <= i < |Lower(s)| ==> !('A' <= Lower(s)[i] <= 'Z')
  {
  }

  /** Where every name of a key has a capital letter, reading tokens never
      produces that key: lookups are made with lower-cased names. */
  lemma {:induction false} GenFromAvoids(ts: seq<Token>, ks: KeySeq, names: map<string, KeyCode>, key: KeyCode)
    requires !key.Char?
    requires forall name :: name in names && names[name] == key ==> exists i :: 0 <= i < |name| && 'A' <= name[i] <= 'Z'
    requires ks.code != Some(key)
    ensures GenFrom(ts, ks, names).Ok? ==> GenFrom(ts, ks, names).value.code != Some(key)
    decreases |ts|
  {
    if ts != [] {
      match ts[0]
      case Separator =>
        GenFromAvoids(ts[1..], ks, names, key);
      case SingleChar(c) =>
        var m := ModifierOf(c);
        if m.Some? && |ts| > 1 && ts[1] == Separator {
          GenFromAvoids(ts[2..], ks.(modifiers := Union(ks.modifiers, m.value)), names, key);
        } else if ks.code.None? {
          GenFromAvoids(if m.Some? && |ts| > 1 then ts[2..] else ts[1..], ks.(code := Some(Char(c))), names, key);
        }
      case MultipleChar(s) =>
        var name := Lower(s);
        if name in names && ks.code.None? {
          LowerHasNoCapital(s);
          assert names[name] != key;
          GenFromAvoids(ts[1..], ks.(code := Some(names[name])), names, key);
        }
    }
  }

  /** In the table as written the delete key's only name, `Delete`, has a
      capital letter. */
  lemma AsWrittenDeleteCapitalised()
    ensures forall name :: name in SPECIAL_KEYS_AS_WRITTEN && SPECIAL_KEYS_AS_WRITTEN[name] == Delete
              ==> exists i :: 0 <= i < |name| && 'A' <= name[i] <= 'Z'
  {
    forall name | name in SPECIAL_KEYS_AS_WRITTEN && SPECIAL_KEYS_AS_WRITTEN[name] == Delete
      ensures exists i :: 0 <= i < |name| && 'A' <= name[i] <= 'Z'
    {
      assert name == "Delete";
      assert 'A' <= name[0] <= 'Z';
    }
  }

  /** With a table whose names of the delete key all have a capital
      letter, as the table as written has, no description parses to the
      delete key. */
  lemma DeleteUnreachable(text: string, names: map<string, KeyCode>)
    requires forall name :: name in names && names[name] == Delete ==> exists i :: 0 <= i < |name| && 'A' <= name[i] <= 'Z'
    ensures KeyOf(text, names).Ok? ==> KeyOf(text, names).value.code != Delete
  {
    if AllAscii(text) && Trim(text) != [] {
      GenFromAvoids(Tokenize(Trim(text)), KeySeq(None, NONE), names, Delete);
    }
  }

  /** The description `delete` shows the difference: with the table as
      written it does not give the delete key, with the corrected table it
      does. */
  lemma DeleteCounterexample()
    ensures KeyOf("delete", SPECIAL_KEYS_AS_WRITTEN) != Ok(Pressed(Delete, NONE))
    ensures KeyOf("delete", SPECIAL_KEYS) == Ok(Pressed(Delete, NONE))
  {
    AsWrittenDeleteCapitalised();
    DeleteUnreachable("delete", SPECIAL_KEYS_AS_WRITTEN);
    DeleteParses(NONE);
    assert ModifierPrefix(NONE) + "delete" == "delete";
  }

  /** With the corrected table, `delete` with any modifiers parses to the
      delete key. */
  lemma DeleteParses(m: Modifiers)
    ensures KeyOf(ModifierPrefix(m) + "delete", SPECIAL_KEYS) == Ok(Pressed(Delete, m))
  {
    assert "delete" in SPECIAL_KEYS && SPECIAL_KEYS["delete"] == Delete;
    assert PlainName("delete");
    PlainNameFacts("delete");
    NamedKeyRoundTrip(m, "delete", SPECIAL_KEYS);
  }

  /** The correction changes only the delete key's entry. */
  lemma CorrectionOnlyRenames()
    ensures SPECIAL_KEYS.Keys == SPECIAL_KEYS_AS_WRITTEN.Keys - {"Delete"} + {"delete"}
    ensures forall name :: name in SPECIAL_KEYS && name != "delete" ==> SPECIAL_KEYS[name] == SPECIAL_KEYS_AS_WRITTEN[name]
  {
  }
}
