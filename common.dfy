/** Vocabulary shared by every part of the model: Rust's `usize` saturation,
    Rust's `str::lines`, decimal digit counts, the decimal rendering and
    parsing of numbers, and the stand-in for `textwrap::wrap`. */
module Common {

  /** Largest value of a 64-bit `usize`. */
  const USIZE_MAX: nat := 0xFFFF_FFFF_FFFF_FFFF

  /** Largest value of a `u16`, the type of terminal coordinates. */
  const U16_MAX: nat := 0xFFFF

  datatype Option<T> = None | Some(value: T)

  /** The value a Rust function returns, or the panic it raises instead. */
  datatype Result<T> = Ok(value: T) | Panic

  /** `a.saturating_add(b)` on `usize` operands. */
  function SatAdd(a: nat, b: nat): nat
  {
    if a + b <= USIZE_MAX then a + b else USIZE_MAX
  }

  /** `a.saturating_sub(b)` on `usize` operands. */
  function SatSub(a: nat, b: nat): nat
  {
    if a >= b then a - b else 0
  }

  function Min(a: nat, b: nat): nat
  {
    if a <= b then a else b
  }

  function Max(a: nat, b: nat): nat
  {
    if a >= b then a else b
  }

  predicate IsUsize(n: nat)
  {
    n <= USIZE_MAX
  }

  /** The rows a line is wrapped into; `textwrap::wrap` always gives at least one. */
  type Rows = r: seq<string> | |r| >= 1 witness [""]

  /** `textwrap::wrap(line, width)`, an opaque function whose only known
      property is that it returns at least one row. */
  type Wrapper = (string, nat) -> Rows

  // ---------------------------------------------------------------------------
  // Strings
  // ---------------------------------------------------------------------------

  predicate EndsWith(s: string, c: char)
  {
    |s| > 0 && s[|s| - 1] == c
  }

  /** `char::len_utf8`: the number of bytes of the character's UTF-8 encoding. */
  function Utf8Width(c: char): nat
  {
    if c as int < 0x80 then 1
    else if c as int < 0x800 then 2
    else if c as int < 0x1_0000 then 3
    else 4
  }

  /** `str::len`: the length of a string in UTF-8 bytes. */
  function Utf8Len(s: string): nat
  {
    if s == [] then 0 else Utf8Len(s[..|s| - 1]) + Utf8Width(s[|s| - 1])
  }

  /** Every character takes one to four bytes, and a string is as many bytes
      long as it has characters exactly when all of them are ASCII. */
  lemma {:induction false} Utf8LenBounds(s: string)
    ensures |s| <= Utf8Len(s) <= 4 * |s|
    ensures Utf8Len(s) == |s| <==> forall i :: 0 <= i < |s| ==> s[i] as int < 0x80
  {
    if s != [] {
      var s' := s[..|s| - 1];
      Utf8LenBounds(s');
      assert forall i :: 0 <= i < |s'| ==> s'[i] == s[i];
    }
  }

  function Spaces(n: nat): (r: string)
    ensures |r| == n
  {
    if n == 0 then "" else Spaces(n - 1) + " "
  }

  lemma {:induction false} SpacesBlank(n: nat)
    ensures forall i :: 0 <= i < n ==> Spaces(n)[i] == ' '
  {
    if n > 0 {
      SpacesBlank(n - 1);
    }
  }

  /** `format!("{s: >w}")`: right-aligned in `w` columns, never truncated. */
  function PadLeft(s: string, w: nat): (r: string)
    ensures |r| == Max(|s|, w)
    ensures r[|r| - |s|..] == s
  {
    if |s| >= w then s else Spaces(w - |s|) + s
  }

  /** The columns in front of the padded text are blank. */
  lemma PadLeftBlank(s: string, w: nat)
    ensures var r := PadLeft(s, w); forall i :: 0 <= i < |r| - |s| ==> r[i] == ' '
  {
    if |s| < w {
      SpacesBlank(w - |s|);
    }
  }

  /** All the rows of `rows`, one after the other. */
  function Flatten(rows: seq<seq<string>>): (r: seq<string>)
  {
    if rows == [] then [] else rows[0] + Flatten(rows[1..])
  }

  lemma {:induction false} FlattenAppend(a: seq<seq<string>>, b: seq<seq<string>>)
    ensures Flatten(a + b) == Flatten(a) + Flatten(b)
  {
    if a == [] {
      assert a + b == b;
    } else {
      assert (a + b)[1..] == a[1..] + b;
      FlattenAppend(a[1..], b);
    }
  }

  lemma FlattenOne(a: seq<string>)
    ensures Flatten([a]) == a
  {
    assert [a][1..] == [];
  }

  /** `rows[start..end]` as the `get_*_lines_with_bounds` accessors compute
      it: empty when `start` is past the end or after `end`, cut at the end
      of `rows` when `end` is past it. */
  function WithBounds(rows: seq<string>, start: nat, end: nat): seq<string>
  {
    if start >= |rows| || start > end then []
    else if end >= |rows| then rows[start..]
    else rows[start..end]
  }

  /** `r` holds exactly the rows of `rows` whose index lies in `[start, end)`, in order. */
  ghost predicate IsWindow(rows: seq<string>, start: nat, end: nat, r: seq<string>)
  {
    |r| == SatSub(Min(end, |rows|), start)
    && forall j :: 0 <= j < |r| ==> r[j] == rows[start + j]
  }

  lemma WithBoundsIsWindow(rows: seq<string>, start: nat, end: nat)
    ensures IsWindow(rows, start, end, WithBounds(rows, start, end))
  {
  }

  /** `rows.join(sep)`. */
  function Join(rows: seq<string>, sep: string): string
  {
    if rows == [] then ""
    else if |rows| == 1 then rows[0]
    else rows[0] + sep + Join(rows[1..], sep)
  }

  // ---------------------------------------------------------------------------
  // Rust's str::lines
  // ---------------------------------------------------------------------------

  /** The pieces of `s` between `'\n'` characters (`s.split('\n')`). */
  function SplitNl(s: string): (r: seq<string>)
    ensures |r| >= 1
  {
    if s == [] then [[]]
    else
      var rest := SplitNl(s[1..]);
      if s[0] == '\n' then [[]] + rest
      else [[s[0]] + rest[0]] + rest[1..]
  }

  /** No piece contains a newline. */
  lemma {:induction false} SplitNlNoNewline(s: string)
    ensures forall i :: 0 <= i < |SplitNl(s)| ==> '\n' !in SplitNl(s)[i]
  {
    if s != [] {
      SplitNlNoNewline(s[1..]);
    }
  }

  /** `l.strip_suffix('\r').unwrap_or(l)`. */
  function StripCr(l: string): (r: string)
    ensures '\n' !in l ==> '\n' !in r
  {
    if EndsWith(l, '\r') then l[..|l| - 1] else l
  }

  function StripAll(p: seq<string>): (r: seq<string>)
    ensures |r| == |p|
  {
    if p == [] then [] else [StripCr(p[0])] + StripAll(p[1..])
  }

  /** Every line is its piece with the carriage return stripped. */
  lemma {:induction false} StripAllAt(p: seq<string>)
    ensures forall i :: 0 <= i < |p| ==> StripAll(p)[i] == StripCr(p[i])
  {
    if p != [] {
      StripAllAt(p[1..]);
    }
  }

  /** Drops the empty piece a final `'\n'` leaves behind. */
  function DropEmptyLast(p: seq<string>): seq<string>
    requires |p| >= 1
  {
    if p[|p| - 1] == [] then p[..|p| - 1] else p
  }

  /** The pieces `s.lines()` is built from (`s.split_terminator('\n')`). */
  function Terminated(s: string): seq<string>
  {
    DropEmptyLast(SplitNl(s))
  }

  /** Rust's `s.lines()`: split at `'\n'`, drop one trailing `'\r'` from
      every line, and no empty last line after a final `'\n'`. */
  function Lines(s: string): seq<string>
  {
    StripAll(Terminated(s))
  }

  /** `s.lines().last()`. */
  function LastLine(s: string): Option<string>
  {
    var l := Lines(s);
    if l == [] then None else Some(l[|l| - 1])
  }

  lemma {:induction false} SplitNlEmptyOnly(s: string)
    ensures SplitNl(s) == [[]] <==> s == []
  {
    if s != [] {
      var rest := SplitNl(s[1..]);
      if s[0] != '\n' {
        assert |SplitNl(s)[0]| >= 1;
      } else {
        assert |SplitNl(s)| >= 2;
      }
    }
  }

  /** An empty text, and only an empty text, has no lines; "\n" has one empty line. */
  lemma LinesEmpty(s: string)
    ensures Lines(s) == [] <==> s == []
  {
    SplitNlEmptyOnly(s);
    var p := SplitNl(s);
    if s != [] && p[|p| - 1] == [] {
      assert |p| >= 2;
    }
  }

  /** No line of `s.lines()` contains a newline. */
  lemma LinesNoNewline(s: string)
    ensures forall i :: 0 <= i < |Lines(s)| ==> '\n' !in Lines(s)[i]
  {
    var t := Terminated(s);
    SplitNlNoNewline(s);
    StripAllAt(t);
    assert forall i :: 0 <= i < |t| ==> '\n' !in t[i];
  }

  /** The pieces of `a + b`, given the pieces of `a` and of `b`. */
  function Glue(pa: seq<string>, pb: seq<string>): seq<string>
    requires |pa| >= 1 && |pb| >= 1
  {
    pa[..|pa| - 1] + [pa[|pa| - 1] + pb[0]] + pb[1..]
  }

  lemma GlueAfterBreak(q: seq<string>, pb: seq<string>)
    requires |q| >= 1 && |pb| >= 1
    ensures Glue([[]] + q, pb) == [[]] + Glue(q, pb)
  {
    assert ([[]] + q)[..|q|] == [[]] + q[..|q| - 1];
  }

  lemma GlueAfterChar(c: char, q: seq<string>, pb: seq<string>)
    requires |q| >= 1 && |pb| >= 1
    ensures var g := Glue(q, pb);
            Glue([[c] + q[0]] + q[1..], pb) == [[c] + g[0]] + g[1..]
  {
    var g := Glue(q, pb);
    if |q| == 1 {
      assert g == [q[0] + pb[0]] + pb[1..];
      assert [c] + (q[0] + pb[0]) == ([c] + q[0]) + pb[0];
    } else {
      assert g[0] == q[0];
      assert g[1..] == q[1..|q| - 1] + [q[|q| - 1] + pb[0]] + pb[1..];
      assert ([[c] + q[0]] + q[1..])[..|q| - 1] == [[c] + q[0]] + q[1..|q| - 1];
    }
  }

  /** Splitting a concatenation glues the last piece of `a` to the first piece of `b`. */
  lemma {:induction false} SplitNlAppend(a: string, b: string)
    ensures SplitNl(a + b) == Glue(SplitNl(a), SplitNl(b))
  {
    var pb := SplitNl(b);
    if a == [] {
      assert a + b == b;
      assert [] + pb[0] == pb[0];
      assert [pb[0]] + pb[1..] == pb;
    } else {
      assert (a + b)[0] == a[0];
      assert (a + b)[1..] == a[1..] + b;
      SplitNlAppend(a[1..], b);
      var qa := SplitNl(a[1..]);
      if a[0] == '\n' {
        GlueAfterBreak(qa, pb);
      } else {
        GlueAfterChar(a[0], qa, pb);
      }
    }
  }

  lemma DropEmptyLastAppend(pre: seq<string>, q: seq<string>)
    requires |q| >= 1
    ensures DropEmptyLast(pre + q) == pre + DropEmptyLast(q)
  {
    assert (pre + q)[|pre + q| - 1] == q[|q| - 1];
    if q[|q| - 1] == [] {
      assert (pre + q)[..|pre + q| - 1] == pre + q[..|q| - 1];
    }
  }

  /** After a terminated text, the lines of what follows are simply appended. */
  lemma LinesAppendClean(a: string, b: string)
    requires a == [] || EndsWith(a, '\n')
    ensures Lines(a + b) == Lines(a) + Lines(b)
  {
    if a == [] {
      assert a + b == b;
    } else {
      var pa := SplitNl(a);
      SplitNlAfterNewline(a, b);
      var ta := Terminated(a);
      assert ta == pa[..|pa| - 1];
      DropEmptyLastAppend(ta, SplitNl(b));
      StripAllAppend(ta, Terminated(b));
    }
  }

  /** After a final newline the pieces of what follows start afresh. */
  lemma SplitNlAfterNewline(a: string, b: string)
    requires EndsWith(a, '\n')
    ensures var pa := SplitNl(a);
            && pa[|pa| - 1] == []
            && SplitNl(a + b) == pa[..|pa| - 1] + SplitNl(b)
  {
    var pa, pb := SplitNl(a), SplitNl(b);
    var q := pa[..|pa| - 1];
    LastPieceEmpty(a);
    SplitNlAppend(a, b);
    assert pa[|pa| - 1] + pb[0] == pb[0];
    calc {
      SplitNl(a + b);
      q + [pb[0]] + pb[1..];
      q + ([pb[0]] + pb[1..]);
      { assert [pb[0]] + pb[1..] == pb; }
      q + pb;
    }
  }

  /** A final newline leaves an empty last piece. */
  lemma {:induction false} LastPieceEmpty(a: string)
    requires EndsWith(a, '\n')
    ensures SplitNl(a)[|SplitNl(a)| - 1] == []
  {
    if |a| > 1 {
      LastPieceEmpty(a[1..]);
    }
  }

  lemma {:induction false} StripAllAppend(p: seq<string>, q: seq<string>)
    ensures StripAll(p + q) == StripAll(p) + StripAll(q)
  {
    if p == [] {
      assert p + q == q;
    } else {
      assert (p + q)[0] == p[0];
      assert (p + q)[1..] == p[1..] + q;
      StripAllAppend(p[1..], q);
    }
  }

  lemma GlueLast(pa: seq<string>, pb: seq<string>)
    requires |pa| >= 1 && |pb| >= 1
    ensures Glue(pa, pb) == pa[..|pa| - 1] + Glue([pa[|pa| - 1]], pb)
  {
  }

  /** The lines of an unterminated text whose last line does not end in a
      carriage return are its pieces. */
  lemma UnterminatedLines(a: string)
    requires a != [] && !EndsWith(a, '\n') && !EndsWith(a, '\r')
    ensures Terminated(a) == SplitNl(a)
    ensures var p := SplitNl(a); Lines(a) == StripAll(p[..|p| - 1]) + [p[|p| - 1]]
  {
    var p := SplitNl(a);
    LastPieceEnd(a);
    var last := p[|p| - 1];
    assert Terminated(a) == p;
    assert StripAll([last]) == [StripCr(last)] == [last];
    assert p == p[..|p| - 1] + [last];
    StripAllAppend(p[..|p| - 1], [last]);
  }

  /** After an unterminated text whose last line does not end in a carriage
      return, the first line of what follows continues the last line. */
  lemma LinesAppendAttached(a: string, b: string)
    requires a != [] && !EndsWith(a, '\n') && !EndsWith(a, '\r')
    ensures Lines(a) != []
    ensures var la := Lines(a);
            Lines(a + b) == la[..|la| - 1] + Lines(la[|la| - 1] + b)
  {
    var pa, pb := SplitNl(a), SplitNl(b);
    var k := |pa|;
    var last := pa[k - 1];
    UnterminatedLines(a);
    var la := Lines(a);
    assert la[..k - 1] == StripAll(pa[..k - 1]);
    assert la[k - 1] == last;
    SplitNlAppend(a, b);
    SplitNlAppend(last, b);
    SplitNlNoNewline(a);
    SplitNlNoNl(last);
    GlueLast(pa, pb);
    assert SplitNl(a + b) == pa[..k - 1] + SplitNl(last + b);
    DropEmptyLastAppend(pa[..k - 1], SplitNl(last + b));
    StripAllAppend(pa[..k - 1], Terminated(last + b));
  }

  lemma {:induction false} SplitNlNoNl(s: string)
    requires '\n' !in s
    ensures SplitNl(s) == [s]
  {
    if s != [] {
      assert '\n' !in s[1..];
      SplitNlNoNl(s[1..]);
      assert [s[0]] + s[1..] == s;
    }
  }

  /** A text that does not end in a newline has a non-empty last piece ending
      with the text's last character. */
  lemma {:induction false} LastPieceEnd(s: string)
    requires s != [] && s[|s| - 1] != '\n'
    ensures var p := SplitNl(s); p[|p| - 1] != [] && p[|p| - 1][|p[|p| - 1]| - 1] == s[|s| - 1]
  {
    if |s| > 1 {
      LastPieceEnd(s[1..]);
    }
  }

  // ---------------------------------------------------------------------------
  // Decimal numbers
  // ---------------------------------------------------------------------------

  function Pow10(k: nat): (r: nat)
    ensures r >= 1
  {
    if k == 0 then 1 else 10 * Pow10(k - 1)
  }

  /** Number of decimal digits of `n`, the length of `n.to_string()`;
      `digits(0)` is 1. */
  function Digits(n: nat): (r: nat)
    ensures r >= 1
  {
    if n < 10 then 1 else 1 + Digits(n / 10)
  }

  /** `Digits(n) - 1` is `floor(log10 n)`: n lies in [10^(d-1), 10^d). */
  lemma {:induction false} DigitsBounds(n: nat)
    ensures n < Pow10(Digits(n))
    ensures n >= 1 ==> Pow10(Digits(n) - 1) <= n
  {
    if n >= 10 {
      DigitsBounds(n / 10);
    }
  }

  /** The digit count is the unique `k` with 10^(k-1) <= n < 10^k. */
  lemma {:induction false} DigitsUnique(n: nat, k: nat)
    requires k >= 1 && Pow10(k - 1) <= n < Pow10(k)
    ensures Digits(n) == k
  {
    if n >= 10 {
      assert k >= 2;
      DigitsUnique(n / 10, k - 1);
    }
  }

  /** More lines never need fewer digits. */
  lemma {:induction false} DigitsMonotone(a: nat, b: nat)
    requires a <= b
    ensures Digits(a) <= Digits(b)
  {
    if a >= 10 {
      DigitsMonotone(a / 10, b / 10);
    }
  }

  function DigitChar(d: nat): char
    requires d < 10
  {
    "0123456789"[d]
  }

  /** `n.to_string()`. */
  function NatToString(n: nat): (r: string)
    ensures |r| == Digits(n)
  {
    if n < 10 then [DigitChar(n)] else NatToString(n / 10) + [DigitChar(n % 10)]
  }

  predicate AllDigits(s: string)
  {
    forall i :: 0 <= i < |s| ==> '0' <= s[i] <= '9'
  }

  /** `n.to_string()` is made of decimal digits only. */
  lemma {:induction false} NatToStringDigits(n: nat)
    ensures AllDigits(NatToString(n))
  {
    if n >= 10 {
      NatToStringDigits(n / 10);
    }
  }

  function DigitsValue(s: string): nat
    requires AllDigits(s)
  {
    if s == [] then 0 else 10 * DigitsValue(s[..|s| - 1]) + (s[|s| - 1] as int - '0' as int)
  }

  /** `s.parse::<usize>()`: an optional `+`, at least one decimal digit, and
      a value that fits in a `usize`. */
  function ParseUsize(s: string): (r: Option<nat>)
    ensures r.Some? ==> r.value <= USIZE_MAX
  {
    var digits := if |s| > 0 && s[0] == '+' then s[1..] else s;
    if digits == [] || !AllDigits(digits) then None
    else
      var v := DigitsValue(digits);
      if v <= USIZE_MAX then Some(v) else None
  }

  lemma {:induction false} DigitsValueOfNatToString(n: nat)
    ensures AllDigits(NatToString(n)) && DigitsValue(NatToString(n)) == n
  {
    var s := NatToString(n);
    NatToStringDigits(n);
    if n >= 10 {
      DigitsValueOfNatToString(n / 10);
      assert s[..|s| - 1] == NatToString(n / 10);
    }
  }

  /** Printing a `usize` and parsing it back gives the number. */
  lemma ParsePrinted(n: nat)
    requires n <= USIZE_MAX
    ensures ParseUsize(NatToString(n)) == Some(n)
  {
    DigitsValueOfNatToString(n);
  }
}
