/** The tokenizer of binding descriptions (src/input/definitions/mod.rs):
    a description such as `c-s-pageup` is trimmed and cut at every `-`
    into separators and runs of other characters. */
module Tokens {
  import opened Common
  import opened Terminal

  datatype Token = Separator | SingleChar(c: char) | MultipleChar(s: string)

  predicate IsAscii(c: char)
  {
    c < 128 as char
  }

  /** `char::is_whitespace` on ASCII characters: tab, line feed, vertical
      tab, form feed, carriage return and space. */
  predicate IsWhitespace(c: char)
  {
    '\t' <= c <= '\r' || c == ' '
  }

  function TrimStart(s: string): (r: string)
    ensures |r| <= |s| && r == s[|s| - |r|..]
    ensures r == [] || !IsWhitespace(r[0])
  {
    if s != [] && IsWhitespace(s[0]) then TrimStart(s[1..]) else s
  }

  function TrimEnd(s: string): (r: string)
    ensures |r| <= |s| && r == s[..|r|]
    ensures r == [] || !IsWhitespace(r[|r| - 1])
  {
    if s != [] && IsWhitespace(s[|s| - 1]) then TrimEnd(s[..|s| - 1]) else s
  }

  /** `str::trim`: the text without its leading and trailing whitespace. */
  function Trim(s: string): (r: string)
    ensures r == [] || (!IsWhitespace(r[0]) && !IsWhitespace(r[|r| - 1]))
    ensures exists i, j :: 0 <= i <= j <= |s| && r == s[i..j]
  {
    var t := TrimStart(s);
    var r := TrimEnd(t);
    assert r == s[|s| - |t|..|s| - |t| + |r|];
    r
  }

  /** The token a run of characters between separators makes: none for an
      empty run, a `SingleChar` for one character, else a `MultipleChar`. */
  function Flush(run: string): (r: seq<Token>)
    ensures |r| <= 1 && (r == [] <==> run == [])
  {
    if |run| == 0 then []
    else if |run| == 1 then [SingleChar(run[0])]
    else [MultipleChar(run)]
  }

  /** The tokens of `t`, with `run` the characters read since the last
      separator: each `-` flushes the run and adds a `Separator`, every
      other character grows the run, and the end flushes it. */
  function TokenizeWith(t: string, run: string): seq<Token>
  {
    if t == [] then Flush(run)
    else if t[0] == '-' then Flush(run) + [Separator] + TokenizeWith(t[1..], [])
    else TokenizeWith(t[1..], run + [t[0]])
  }

  function Tokenize(t: string): seq<Token>
  {
    TokenizeWith(t, [])
  }

  /** The text a token stands for. */
  function TokenText(k: Token): string
  {
    match k
    case Separator => "-"
    case SingleChar(c) => [c]
    case MultipleChar(s) => s
  }

  function Text(ts: seq<Token>): string
  {
    if ts == [] then [] else TokenText(ts[0]) + Text(ts[1..])
  }

  predicate IsRun(k: Token)
  {
    match k
    case Separator => false
    case SingleChar(c) => c != '-'
    case MultipleChar(s) => |s| >= 2 && '-' !in s
  }

  /** What the tokenizer can produce: separators and runs without `-`,
      multi-character runs at least two long, and never two runs in a
      row. */
  predicate WellFormed(ts: seq<Token>)
  {
    && (forall i :: 0 <= i < |ts| ==> ts[i] == Separator || IsRun(ts[i]))
    && (forall i :: 0 <= i < |ts| - 1 ==> ts[i] == Separator || ts[i + 1] == Separator)
  }

  /** `parse_tokens`: a description with a character outside ASCII, or
      with nothing but whitespace, panics; otherwise the trimmed text is
      read character by character into tokens. */
  method ParseTokens(text: string) returns (r: Result<seq<Token>>)
    ensures r.Panic? <==> (exists i :: 0 <= i < |text| && !IsAscii(text[i])) || Trim(text) == []
    ensures r.Ok? ==> r.value == Tokenize(Trim(text))
  {
    var i := 0;
    while i < |text|
      invariant 0 <= i <= |text|
      invariant forall j :: 0 <= j < i ==> IsAscii(text[j])
    {
      if !IsAscii(text[i]) {
        return Panic;
      }
      i := i + 1;
    }
    var t := Trim(text);
    if t == [] {
      return Panic;
    }
    var tokens := [];
    var run := [];
    i := 0;
    while i < |t|
      invariant 0 <= i <= |t|
      invariant tokens + TokenizeWith(t[i..], run) == Tokenize(t)
    {
      assert t[i..][1..] == t[i + 1..];
      if t[i] == '-' {
        tokens := tokens + Flush(run) + [Separator];
        run := [];
      } else {
        run := run + [t[i]];
      }
      i := i + 1;
    }
    tokens := tokens + Flush(run);
    r := Ok(tokens);
  }

  lemma {:induction false} TextAppend(a: seq<Token>, b: seq<Token>)
    ensures Text(a + b) == Text(a) + Text(b)
  {
    if a == [] {
      assert a + b == b;
    } else {
      calc {
        Text(a + b);
        { assert (a + b)[0] == a[0] && (a + b)[1..] == a[1..] + b; }
        TokenText(a[0]) + Text(a[1..] + b);
        { TextAppend(a[1..], b); }
        TokenText(a[0]) + (Text(a[1..]) + Text(b));
        Text(a) + Text(b);
      }
    }
  }

  lemma FlushText(run: string)
    ensures Text(Flush(run)) == run
  {
    if |run| == 1 {
      assert run == [run[0]];
    }
  }

  /** The tokens spell out the text they were read from. */
  lemma {:induction false} TokenizeWithText(t: string, run: string)
    ensures Text(TokenizeWith(t, run)) == run + t
  {
    if t == [] {
      FlushText(run);
      assert run + t == run;
    } else if t[0] == '-' {
      var rest := TokenizeWith(t[1..], []);
      calc {
        Text(TokenizeWith(t, run));
        Text(Flush(run) + [Separator] + rest);
        { TextAppend(Flush(run) + [Separator], rest); TextAppend(Flush(run), [Separator]); }
        Text(Flush(run)) + Text([Separator]) + Text(rest);
        { FlushText(run); TokenizeWithText(t[1..], []); assert Text([Separator]) == "-"; }
        run + "-" + ([] + t[1..]);
        { assert t == "-" + t[1..]; }
        run + t;
      }
    } else {
      calc {
        Text(TokenizeWith(t, run));
        Text(TokenizeWith(t[1..], run + [t[0]]));
        { TokenizeWithText(t[1..], run + [t[0]]); }
        run + [t[0]] + t[1..];
        { assert t == [t[0]] + t[1..]; }
        run + t;
      }
    }
  }

  /** The tokenizer's output is well formed. */
  lemma {:induction false} TokenizeWithWellFormed(t: string, run: string)
    requires '-' !in run
    ensures WellFormed(TokenizeWith(t, run))
  {
    if t != [] {
      if t[0] == '-' {
        TokenizeWithWellFormed(t[1..], []);
        var rest := TokenizeWith(t[1..], []);
        assert TokenizeWith(t, run) == Flush(run) + [Separator] + rest;
      } else {
        TokenizeWithWellFormed(t[1..], run + [t[0]]);
      }
    }
  }

  /** Characters without `-` only grow the run. */
  lemma {:induction false} RunAccumulates(w: string, u: string, run: string)
    requires '-' !in w
    ensures TokenizeWith(w + u, run) == TokenizeWith(u, run + w)
  {
    if w == [] {
      assert w + u == u && run + w == run;
    } else {
      assert (w + u)[0] == w[0] && (w + u)[1..] == w[1..] + u;
      RunAccumulates(w[1..], u, run + [w[0]]);
      assert run + [w[0]] + w[1..] == run + w;
    }
  }

  /** The tokens are determined by their text: reading back the text of
      well-formed tokens gives those tokens. */
  lemma {:induction false} TokenizeText(ts: seq<Token>)
    requires WellFormed(ts)
    ensures Tokenize(Text(ts)) == ts
  {
    if ts != [] {
      if ts[0] == Separator {
        TokenizeText(ts[1..]);
        assert Text(ts) == "-" + Text(ts[1..]);
      } else {
        var w := TokenText(ts[0]);
        assert '-' !in w;
        RunAccumulates(w, Text(ts[1..]), []);
        assert [] + w == w;
        if |ts| == 1 {
          assert Text(ts[1..]) == [];
        } else {
          assert ts[1] == Separator;
          TokenizeText(ts[2..]);
          assert Text(ts[1..]) == "-" + Text(ts[2..]);
          assert ts == [ts[0]] + [Separator] + ts[2..];
        }
      }
    }
  }

  /** `MODIFIERS`: `m` is Alt, `c` is Control, `s` is Shift, and no other
      letter is a modifier. */
  function ModifierOf(c: char): (r: Option<Modifiers>)
    ensures r.Some? <==> c == 'm' || c == 'c' || c == 's'
    ensures r.Some? ==> r.value == if c == 'm' then ALT else if c == 'c' then CONTROL else SHIFT
  {
    if c == 'm' then Some(ALT)
    else if c == 'c' then Some(CONTROL)
    else if c == 's' then Some(SHIFT)
    else None
  }

  /** The modifier prefix of a binding description, `c-`, `m-` and `s-`
      in that order for the flags held. */
  function ModifierTokens(m: Modifiers): (r: seq<Token>)
  {
    (if m.control then [SingleChar('c'), Separator] else [])
    + (if m.alt then [SingleChar('m'), Separator] else [])
    + (if m.shift then [SingleChar('s'), Separator] else [])
  }

  /** A modifier prefix followed by one run is well formed. */
  lemma ModifierTokensWellFormed(m: Modifiers, last: Token)
    requires IsRun(last)
    ensures WellFormed(ModifierTokens(m) + [last])
  {
  }
}
