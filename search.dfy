/** Searching (src/core/search.rs): the search mode, moving to the n-th
    next match, and the line editor of the search prompt. */
module Search {
  import opened Common
  import opened Terminal
  import opened PagerStates

  /** The direction of a search; `Unknown` when none is running. */
  datatype SearchMode = Forward | Reverse | Unknown

  /** `SearchMode::default()`. */
  const DEFAULT_MODE: SearchMode := Unknown

  function Discriminant(m: SearchMode): nat
  {
    match m
    case Forward => 0
    case Reverse => 1
    case Unknown => 2
  }

  /** `PartialEq` compares the discriminants only; for these variants,
      which carry nothing, that is equality. */
  function Eq(a: SearchMode, b: SearchMode): (r: bool)
    ensures r <==> a == b
  {
    Discriminant(a) == Discriminant(b)
  }

  predicate StrictlyAscending(s: seq<nat>)
  {
    forall i, j :: 0 <= i < j < |s| ==> s[i] < s[j]
  }

  /** The index of the first match at or after `i` below the upper mark. */
  function PositionFrom(idx: seq<nat>, upper: nat, i: nat): (r: Option<nat>)
    requires i <= |idx|
    ensures r.Some? ==> i <= r.value < |idx| && idx[r.value] > upper && forall j :: i <= j < r.value ==> idx[j] <= upper
    ensures r.None? ==> forall j :: i <= j < |idx| ==> idx[j] <= upper
    decreases |idx| - i
  {
    if i == |idx| then None
    else if idx[i] > upper then Some(i)
    else PositionFrom(idx, upper, i + 1)
  }

  /** `iter().position(|i| *i > upper)`: the index of the first match
      below the upper mark. */
  function Position(idx: seq<nat>, upper: nat): (r: Option<nat>)
    ensures r.Some? ==> r.value < |idx| && idx[r.value] > upper && forall j :: 0 <= j < r.value ==> idx[j] <= upper
    ensures r.None? ==> forall j :: 0 <= j < |idx| ==> idx[j] <= upper
  {
    PositionFrom(idx, upper, 0)
  }

  /** The search mark `next_nth_match` chooses: `n - 1` matches past the
      first one below the upper mark, but no further than the last match;
      the last match when none is below the mark; `0` when there are no
      matches. */
  function NthMark(idx: seq<nat>, upper: nat, n: nat): (r: nat)
    ensures idx == [] ==> r == 0
    ensures idx != [] ==> r < |idx|
  {
    var last := SatSub(|idx|, 1);
    match Position(idx, upper)
    case Some(i) => Min(SatSub(SatAdd(i, n), 1), last)
    case None => last
  }

  /** `next_nth_match`: moves the search mark to the match chosen by
      `NthMark` and the upper mark to that match's line. */
  method NextNthMatch(ps: PagerState, n: nat)
    modifies ps`searchMark, ps`upperMark
    ensures ps.searchMark == NthMark(ps.searchIdx, old(ps.upperMark), n)
    ensures ps.upperMark == if ps.searchMark < |ps.searchIdx| then ps.searchIdx[ps.searchMark] else old(ps.upperMark)
    ensures ps.searchIdx == [] ==> ps.searchMark == 0 && ps.upperMark == old(ps.upperMark)
  {
    var nearest := Position(ps.searchIdx, ps.upperMark);
    if nearest.Some? {
      ps.searchMark := SatSub(SatAdd(nearest.value, n), 1);
      if ps.searchMark > SatSub(|ps.searchIdx|, 1) {
        ps.searchMark := SatSub(|ps.searchIdx|, 1);
      }
    } else {
      ps.searchMark := SatSub(|ps.searchIdx|, 1);
    }
    if ps.searchMark < |ps.searchIdx| {
      ps.upperMark := ps.searchIdx[ps.searchMark];
    }
  }

  /** Seen from a match, the first match below it is the next one. */
  lemma PositionAfter(idx: seq<nat>, k: nat)
    requires StrictlyAscending(idx) && k < |idx|
    ensures Position(idx, idx[k]) == if k + 1 < |idx| then Some(k + 1) else None
  {
    assert k + 1 < |idx| ==> idx[k] < idx[k + 1];
  }

  /** From the line of match `k`, moving `n` matches on lands on match
      `k + n`, or on the last match. */
  lemma NextFromMatch(idx: seq<nat>, k: nat, n: nat)
    requires StrictlyAscending(idx) && k < |idx| && IsUsize(|idx|)
    ensures NthMark(idx, idx[k], n) == Min(k + n, |idx| - 1)
  {
    PositionAfter(idx, k);
  }

  /** From an upper mark above the first match, moving `n` matches on
      lands on match `n - 1`, or on the last match; with `NextFromMatch`,
      repeated calls with `n = 1` visit the matches in ascending order. */
  lemma FromAboveFirst(idx: seq<nat>, upper: nat, n: nat)
    requires idx != [] && upper < idx[0] && 1 <= n && IsUsize(n)
    ensures NthMark(idx, upper, n) == Min(n - 1, |idx| - 1)
  {
    assert Position(idx, upper) == Some(0);
  }

  // The line editor of the search prompt.

  /** How the `WORD` pattern sorts characters: runs of word characters
      and runs of punctuation are one match each, every other character is
      a match of its own. */
  datatype CharClass = WordChar | Punct | Other

  function ClassOf(ch: char): CharClass
  {
    if 'a' <= ch <= 'z' || 'A' <= ch <= 'Z' || '0' <= ch <= '9' || ch == '_' then WordChar
    else
      match ch
      case '-' | '?' | '~' | '@' | '#' | '!' | '$' | '%' | '^' | '&' | '*' | '(' | ')' | '+' | '='
         | '{' | '}' | '[' | ']' | ':' | ';' | '\\' | '|' | '\'' | '/' | '<' | '>' | '.' | ',' | '"' => Punct
      case _ => Other
  }

  /** Whether a match of `WORD` starts at `i`. */
  predicate StartsMatch(s: string, i: nat)
    requires i < |s|
  {
    i == 0 || ClassOf(s[i]) == Other || ClassOf(s[i]) != ClassOf(s[i - 1])
  }

  /** One more than the start of each match at or after `i`. */
  function WordStartsFrom(s: string, i: nat): (r: seq<nat>)
    requires i <= |s|
    ensures forall k :: 0 <= k < |r| ==> i + 1 <= r[k] <= |s|
    ensures StrictlyAscending(r)
    decreases |s| - i
  {
    if i == |s| then []
    else (if StartsMatch(s, i) then [i + 1] else []) + WordStartsFrom(s, i + 1)
  }

  /** Exactly the starts of matches are listed. */
  lemma {:induction false} WordStartsExact(s: string, i: nat)
    requires i <= |s|
    ensures forall j :: i <= j < |s| ==> (StartsMatch(s, j) <==> j + 1 in WordStartsFrom(s, i))
    decreases |s| - i
  {
    if i < |s| {
      WordStartsExact(s, i + 1);
      var head, rest := if StartsMatch(s, i) then [i + 1] else [], WordStartsFrom(s, i + 1);
      assert WordStartsFrom(s, i) == head + rest;
      assert i + 1 !in rest;
      forall j | i <= j < |s|
        ensures StartsMatch(s, j) <==> j + 1 in head + rest
      {
        if j > i {
          assert j + 1 !in head;
        }
      }
    }
  }

  /** `populate_word_index`: one more than the start of each match of
      `WORD` in the text, in ascending order. */
  function WordIndex(s: string): (r: seq<nat>)
    ensures forall k :: 0 <= k < |r| ==> 1 <= r[k] <= |s|
    ensures StrictlyAscending(r)
    ensures forall j :: 0 <= j < |s| ==> (StartsMatch(s, j) <==> j + 1 in r)
  {
    WordStartsExact(s, 0);
    WordStartsFrom(s, 0)
  }

  /** `iter().rfind(|w| w < c)`. */
  function LastBelow(ws: seq<nat>, c: nat): (r: Option<nat>)
    ensures r.Some? ==> r.value in ws && r.value < c
    ensures r.None? ==> forall k :: 0 <= k < |ws| ==> ws[k] >= c
    ensures r.Some? && StrictlyAscending(ws) ==> forall k :: 0 <= k < |ws| && ws[k] < c ==> ws[k] <= r.value
  {
    if ws == [] then None
    else if ws[|ws| - 1] < c then Some(ws[|ws| - 1])
    else LastBelow(ws[..|ws| - 1], c)
  }

  /** `iter().find(|w| w > c)`. */
  function FirstAbove(ws: seq<nat>, c: nat): (r: Option<nat>)
    ensures r.Some? ==> r.value in ws && r.value > c
    ensures r.None? ==> forall k :: 0 <= k < |ws| ==> ws[k] <= c
    ensures r.Some? && StrictlyAscending(ws) ==> forall k :: 0 <= k < |ws| && ws[k] > c ==> ws[k] >= r.value
  {
    if ws == [] then None
    else if ws[0] > c then Some(ws[0])
    else FirstAbove(ws[1..], c)
  }

  /** `u16::saturating_add(1)`. */
  function Inc16(c: nat): nat
  {
    Min(c + 1, U16_MAX)
  }

  /** What the prompt editor keeps: the text typed, the 1-based cursor
      column and whether input is over. */
  datatype Prompt = Prompt(text: string, cursor: nat, done: bool)

  /** Esc and Enter, which end input. */
  predicate IsFinish(k: KeyEvent)
  {
    k.modifiers == NONE && (k.code == Esc || k.code == Enter)
  }

  /** Backspace and Delete, and any character key whatever its modifiers:
      the keys that edit the text. */
  predicate IsEdit(k: KeyEvent)
  {
    (k.modifiers == NONE && (k.code == Backspace || k.code == Delete)) || k.code.Char?
  }

  /** Left, Right, Home and End, and Left and Right with Control: the keys
      that move the cursor. */
  predicate IsMove(k: KeyEvent)
  {
    (k.modifiers == NONE && (k.code == Left || k.code == Right || k.code == Home || k.code == End))
    || (k.modifiers == CONTROL && (k.code == Left || k.code == Right))
  }

  /** Backspace removes the character before the cursor and steps back,
      Delete removes the one under it; both are refused at column 1, and
      Delete also past the end. A character is inserted at the cursor.
      Removing or inserting out of range panics. */
  function EditKey(p: Prompt, k: KeyEvent): Result<Prompt>
    requires IsEdit(k)
  {
    var c, t := p.cursor, p.text;
    if k.code == Backspace then
      if c == 1 then Ok(p)
      else
        var at := SatSub(SatSub(c, 1), 1);
        if at >= |t| then Panic else Ok(p.(text := t[..at] + t[at + 1..], cursor := SatSub(c, 1)))
    else if k.code == Delete then
      if c == 1 || c > |t| then Ok(p)
      else
        var at := SatSub(c, 1);
        if at >= |t| then Panic else Ok(p.(text := t[..at] + t[at + 1..], cursor := Inc16(at)))
    else
      var at := SatSub(c, 1);
      if at > |t| then Panic else Ok(p.(text := t[..at] + [k.code.c] + t[at..], cursor := Inc16(c)))
  }

  /** Left and Right step, refused at the ends; with Control they jump to
      the nearest word start in `ws`, or stay where there is none. Home and
      End go to the first column and past the last one. A column that does
      not fit in a `u16` panics. */
  function MoveKey(p: Prompt, k: KeyEvent, ws: seq<nat>): Result<Prompt>
    requires IsMove(k)
  {
    var c, t := p.cursor, p.text;
    if k.code == Left && k.modifiers == NONE then
      if c == 1 then Ok(p) else Ok(p.(cursor := SatSub(c, 1)))
    else if k.code == Left then
      var v := match LastBelow(ws, c) case Some(w) => w case None => c;
      if v > U16_MAX then Panic else Ok(p.(cursor := v))
    else if k.code == Right && k.modifiers == NONE then
      if c > |t| then Ok(p) else Ok(p.(cursor := Inc16(c)))
    else if k.code == Right then
      var v := match FirstAbove(ws, c) case Some(w) => w case None => c;
      if v > U16_MAX then Panic else Ok(p.(cursor := v))
    else if k.code == Home then Ok(p.(cursor := 1))
    else
      if SatAdd(|t|, 1) > U16_MAX then Panic else Ok(p.(cursor := SatAdd(|t|, 1)))
  }

  /** What `handle_key_press` does with one event, given the word index
      `ws`: Esc and Enter end input, the editing and moving keys act as
      `EditKey` and `MoveKey` say, and anything else changes nothing. */
  function KeyStep(p: Prompt, ev: Event, ws: seq<nat>): Result<Prompt>
  {
    if !ev.Key? then Ok(p)
    else if IsFinish(ev.key) then Ok(p.(done := true))
    else if IsEdit(ev.key) then EditKey(p, ev.key)
    else if IsMove(ev.key) then MoveKey(p, ev.key, ws)
    else Ok(p)
  }

  /** The editor's invariant: the cursor is on the text or just after it,
      and fits in a `u16`. */
  predicate InRange(p: Prompt)
  {
    1 <= p.cursor <= |p.text| + 1 && p.cursor <= U16_MAX
  }

  function Press(code: KeyCode, m: Modifiers): Event
  {
    Key(Pressed(code, m))
  }

  lemma EditKeepsRange(p: Prompt, k: KeyEvent)
    requires InRange(p) && IsEdit(k)
    ensures EditKey(p, k).Ok? && InRange(EditKey(p, k).value)
  {
  }

  lemma MoveKeepsRange(p: Prompt, k: KeyEvent, ws: seq<nat>)
    requires InRange(p) && IsMove(k) && ws == WordIndex(p.text)
    ensures MoveKey(p, k, ws).Ok? ==> InRange(MoveKey(p, k, ws).value)
    ensures MoveKey(p, k, ws).Panic? ==> |p.text| >= U16_MAX
  {
  }

  /** Every event keeps the invariant, and the only panics come from a
      text too long for a `u16` column. */
  lemma KeyStepKeepsRange(p: Prompt, ev: Event, ws: seq<nat>)
    requires InRange(p) && ws == WordIndex(p.text)
    ensures KeyStep(p, ev, ws).Ok? ==> InRange(KeyStep(p, ev, ws).value)
    ensures KeyStep(p, ev, ws).Panic? ==> |p.text| >= U16_MAX
  {
    if ev.Key? && !IsFinish(ev.key) {
      if IsEdit(ev.key) {
        EditKeepsRange(p, ev.key);
      } else if IsMove(ev.key) {
        MoveKeepsRange(p, ev.key, ws);
      }
    }
  }

  /** Typing a character and then Backspace gives the prompt back. */
  lemma InsertThenBackspace(p: Prompt, ch: char, ws: seq<nat>)
    requires InRange(p) && p.cursor < U16_MAX
    ensures var q := KeyStep(p, Press(Char(ch), NONE), ws);
            q.Ok? && KeyStep(q.value, Press(Backspace, NONE), ws) == Ok(p)
  {
    var t, at := p.text, p.cursor - 1;
    var u := t[..at] + [ch] + t[at..];
    assert u[..at] + u[at + 1..] == t by {
      assert u[..at] == t[..at] && u[at + 1..] == t[at..];
    }
  }

  /** Backspace and then typing the character it removed gives the prompt
      back. */
  lemma BackspaceThenInsert(p: Prompt, ws: seq<nat>)
    requires InRange(p) && p.cursor > 1
    ensures var q := KeyStep(p, Press(Backspace, NONE), ws);
            q.Ok? && KeyStep(q.value, Press(Char(p.text[p.cursor - 2]), NONE), ws) == Ok(p)
  {
    var t, at := p.text, p.cursor - 2;
    var u := t[..at] + t[at + 1..];
    assert u[..at] + [t[at]] + u[at..] == t by {
      assert u[..at] == t[..at] && u[at..] == t[at + 1..];
    }
  }

  /** Delete removes the character under the cursor and keeps the cursor;
      at column 1 or past the end it is refused. */
  lemma DeleteUnderCursor(p: Prompt, ws: seq<nat>)
    requires InRange(p)
    ensures var r := KeyStep(p, Press(Delete, NONE), ws);
            if 1 < p.cursor <= |p.text|
            then r == Ok(p.(text := p.text[..p.cursor - 1] + p.text[p.cursor..]))
            else r == Ok(p)
  {
  }

  /** Left undoes Right and Right undoes Left, away from the ends. */
  lemma LeftRightInverse(p: Prompt, ws: seq<nat>)
    requires InRange(p)
    ensures p.cursor <= |p.text| && p.cursor < U16_MAX ==>
              KeyStep(KeyStep(p, Press(Right, NONE), ws).value, Press(Left, NONE), ws) == Ok(p)
    ensures p.cursor > 1 ==>
              KeyStep(KeyStep(p, Press(Left, NONE), ws).value, Press(Right, NONE), ws) == Ok(p)
  {
  }

  /** Control-Left goes to the nearest word start before the cursor, or
      stays where there is none. */
  lemma CtrlLeftNearestWord(p: Prompt)
    requires InRange(p)
    ensures var ws := WordIndex(p.text);
            var r := KeyStep(p, Press(Left, CONTROL), ws);
            r.Ok? && r.value.text == p.text
            && (r.value.cursor == p.cursor ==> forall k :: 0 <= k < |ws| ==> ws[k] >= p.cursor)
            && (r.value.cursor != p.cursor ==>
                  r.value.cursor in ws && r.value.cursor < p.cursor
                  && forall k :: 0 <= k < |ws| && ws[k] < p.cursor ==> ws[k] <= r.value.cursor)
  {
  }

  /** Control-Right goes to the nearest word start after the cursor, or
      stays where there is none. */
  lemma CtrlRightNearestWord(p: Prompt)
    requires InRange(p) && |p.text| <= U16_MAX
    ensures var ws := WordIndex(p.text);
            var r := KeyStep(p, Press(Right, CONTROL), ws);
            r.Ok? && r.value.text == p.text
            && (r.value.cursor == p.cursor ==> forall k :: 0 <= k < |ws| ==> ws[k] <= p.cursor)
            && (r.value.cursor != p.cursor ==>
                  r.value.cursor in ws && r.value.cursor > p.cursor
                  && forall k :: 0 <= k < |ws| && ws[k] > p.cursor ==> ws[k] >= r.value.cursor)
  {
  }

  /** Esc and Enter end input and keep the text; Home and End go to the
      first column and past the last one. */
  lemma EndsAndFinish(p: Prompt, ws: seq<nat>)
    requires InRange(p) && |p.text| < U16_MAX
    ensures KeyStep(p, Press(Esc, NONE), ws) == Ok(Prompt(p.text, p.cursor, true))
    ensures KeyStep(p, Press(Enter, NONE), ws) == Ok(Prompt(p.text, p.cursor, true))
    ensures KeyStep(p, Press(Home, NONE), ws) == Ok(p.(cursor := 1))
    ensures KeyStep(p, Press(End, NONE), ws) == Ok(p.(cursor := |p.text| + 1))
  {
  }

  /** `SearchOpts`: the state of the search prompt while a query is
      typed. */
  class SearchOpts {
    var ev: Option<Event>
    var text: string
    var inputDone: bool
    var cursor: nat
    var wordIndex: seq<nat>
    const searchChar: char
    const rows: nat

    ghost predicate Valid()
      reads this`text, this`cursor, this`wordIndex
    {
      InRange(Prompt(text, cursor, false)) && wordIndex == WordIndex(text)
    }

    /** The options `fetch_input` starts with: `/` for a forward search,
        `?` otherwise, an empty text and the cursor in column 1. */
    constructor (mode: SearchMode, rows: nat)
      ensures Valid()
      ensures ev == None && text == [] && !inputDone && cursor == 1
      ensures searchChar == (if Eq(mode, Forward) then '/' else '?') && this.rows == rows
    {
      ev := None;
      text := [];
      inputDone := false;
      cursor := 1;
      wordIndex := [];
      searchChar := if Eq(mode, Forward) then '/' else '?';
      this.rows := rows;
    }

    /** `handle_key_press`; `ok` is false where the source panics, and then
        nothing has changed. The word index is rebuilt whenever the text
        changes. */
    method HandleKeyPress() returns (ok: bool)
      modifies this`text, this`cursor, this`inputDone, this`wordIndex
      ensures ev.None? ==> ok && text == old(text) && cursor == old(cursor) && inputDone == old(inputDone)
      ensures ev.Some? ==>
                var r := KeyStep(old(Prompt(text, cursor, inputDone)), ev.value, old(wordIndex));
                && (ok <==> r.Ok?)
                && (ok ==> Prompt(text, cursor, inputDone) == r.value)
      ensures !ok ==> text == old(text) && cursor == old(cursor) && inputDone == old(inputDone)
      ensures wordIndex == if text == old(text) then old(wordIndex) else WordIndex(text)
      ensures old(Valid()) ==> (ok ==> Valid()) && (!ok ==> |text| >= U16_MAX)
    {
      if ev.None? || !ev.value.Key? {
        return true;
      }
      var p := Prompt(text, cursor, inputDone);
      var r := KeyStep(p, ev.value, wordIndex);
      if Valid() {
        KeyStepKeepsRange(p, ev.value, wordIndex);
      }
      if r.Panic? {
        return false;
      }
      if r.value.text != text {
        wordIndex := WordIndex(r.value.text);
      }
      text, cursor, inputDone := r.value.text, r.value.cursor, r.value.done;
      ok := true;
    }
  }
}
