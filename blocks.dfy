/** Blocks of lines turned into rows by a per-line formatter. Both
    formatting paths of the pager (`format_text_block` and
    `make_append_str`) lay out a run of lines this way: each line, numbered
    on from the first, becomes one or more rows, and the index of each
    line's first row is recorded. */
module Blocks {
  import opened Common

  /** Formats line number `idx` (0-based) into its rows. */
  type LineFormatter = (string, nat) -> Rows

  /** The rows of the lines `ls`, the first of which is line number `first`. */
  function RowsOf(ls: seq<string>, first: nat, fmt: LineFormatter): seq<string>
  {
    if ls == [] then [] else RowsOf(ls[..|ls| - 1], first, fmt) + fmt(ls[|ls| - 1], first + |ls| - 1)
  }

  /** Where the first row of each line lands when the rows are placed from
      row index `start` on. */
  function StartsOf(ls: seq<string>, first: nat, start: nat, fmt: LineFormatter): (r: seq<nat>)
    ensures |r| == |ls|
  {
    if ls == [] then []
    else StartsOf(ls[..|ls| - 1], first, start, fmt) + [start + |RowsOf(ls[..|ls| - 1], first, fmt)|]
  }

  /** Length of the longest line in UTF-8 bytes (`str::len`). */
  function MaxLen(ls: seq<string>): nat
  {
    if ls == [] then 0 else Max(MaxLen(ls[..|ls| - 1]), Utf8Len(ls[|ls| - 1]))
  }

  /** `MaxLen` is the byte length of a longest line, and 0 for no lines. */
  lemma {:induction false} MaxLenIsLongest(ls: seq<string>)
    ensures forall i :: 0 <= i < |ls| ==> Utf8Len(ls[i]) <= MaxLen(ls)
    ensures ls != [] ==> exists i :: 0 <= i < |ls| && Utf8Len(ls[i]) == MaxLen(ls)
    ensures ls == [] ==> MaxLen(ls) == 0
  {
    if ls != [] {
      var ls' := ls[..|ls| - 1];
      MaxLenIsLongest(ls');
      assert forall i :: 0 <= i < |ls'| ==> ls'[i] == ls[i];
      if ls' != [] && MaxLen(ls') >= Utf8Len(ls[|ls| - 1]) {
        var i :| 0 <= i < |ls'| && Utf8Len(ls'[i]) == MaxLen(ls');
        assert Utf8Len(ls[i]) == MaxLen(ls);
      }
    }
  }

  /** Every line occupies at least one row. */
  lemma {:induction false} RowsOfLength(ls: seq<string>, first: nat, fmt: LineFormatter)
    ensures |RowsOf(ls, first, fmt)| >= |ls|
  {
    if ls != [] {
      RowsOfLength(ls[..|ls| - 1], first, fmt);
    }
  }

  /** The rows of two consecutive runs of lines are the rows of each run,
      the second numbered on from the first. */
  lemma {:induction false} RowsOfAppend(a: seq<string>, b: seq<string>, first: nat, fmt: LineFormatter)
    ensures RowsOf(a + b, first, fmt) == RowsOf(a, first, fmt) + RowsOf(b, first + |a|, fmt)
  {
    if b == [] {
      assert a + b == a;
    } else {
      var b' := b[..|b| - 1];
      assert (a + b)[..|a + b| - 1] == a + b';
      assert (a + b)[|a + b| - 1] == b[|b| - 1];
      assert first + |a + b| - 1 == first + |a| + |b| - 1;
      RowsOfAppend(a, b', first, fmt);
    }
  }

  /** A single line's rows are what the formatter makes of it. */
  lemma RowsOfSingle(line: string, idx: nat, fmt: LineFormatter)
    ensures RowsOf([line], idx, fmt) == fmt(line, idx)
  {
    assert [line][..0] == [];
  }

  /** The rows of the lines are those before line `k`, line `k`'s own rows
      and those after it. */
  lemma {:induction false} RowsOfSplit(ls: seq<string>, k: nat, first: nat, fmt: LineFormatter)
    requires k < |ls|
    ensures RowsOf(ls, first, fmt)
            == RowsOf(ls[..k], first, fmt) + fmt(ls[k], first + k) + RowsOf(ls[k + 1..], first + k + 1, fmt)
  {
    var pre, here, post := ls[..k], [ls[k]], ls[k + 1..];
    assert ls == pre + (here + post);
    RowsOfAppend(pre, here + post, first, fmt);
    RowsOfAppend(here, post, first + k, fmt);
    RowsOfSingle(ls[k], first + k, fmt);
    var a, b, c := RowsOf(pre, first, fmt), fmt(ls[k], first + k), RowsOf(post, first + k + 1, fmt);
    assert RowsOf(ls, first, fmt) == a + (b + c);
    assert a + (b + c) == a + b + c;
  }

  /** Extending a prefix of the lines by one line extends its rows, its row
      starts and its longest length by that line's. */
  lemma {:induction false} PrefixStep(ls: seq<string>, k: nat, first: nat, start: nat, fmt: LineFormatter)
    requires k < |ls|
    ensures RowsOf(ls[..k + 1], first, fmt) == RowsOf(ls[..k], first, fmt) + fmt(ls[k], first + k)
    ensures StartsOf(ls[..k + 1], first, start, fmt)
            == StartsOf(ls[..k], first, start, fmt) + [start + |RowsOf(ls[..k], first, fmt)|]
    ensures MaxLen(ls[..k + 1]) == Max(MaxLen(ls[..k]), Utf8Len(ls[k]))
  {
    assert ls[..k + 1][..k] == ls[..k];
  }

  /** What the formatting loop knows after the first `k` lines. */
  ghost predicate FormattedUpTo(ls: seq<string>, k: nat, first: nat, start: nat, fmt: LineFormatter,
                                rows: seq<string>, starts: seq<nat>, maxLen: nat)
    requires k <= |ls|
  {
    && rows == RowsOf(ls[..k], first, fmt)
    && starts == StartsOf(ls[..k], first, start, fmt)
    && maxLen == MaxLen(ls[..k])
  }

  /** One step of the formatting loop: format line `k`, record where its
      first row lands and update the longest length. */
  lemma FormatStep(ls: seq<string>, k: nat, first: nat, start: nat, fmt: LineFormatter,
                   rows: seq<string>, starts: seq<nat>, maxLen: nat)
    requires k < |ls|
    requires FormattedUpTo(ls, k, first, start, fmt, rows, starts, maxLen)
    ensures FormattedUpTo(ls, k + 1, first, start, fmt, rows + fmt(ls[k], first + k),
                          starts + [start + |rows|], Max(maxLen, Utf8Len(ls[k])))
  {
    PrefixStep(ls, k, first, start, fmt);
  }

  lemma {:induction false} StartsOfAt(ls: seq<string>, k: nat, first: nat, start: nat, fmt: LineFormatter)
    requires k < |ls|
    ensures StartsOf(ls, first, start, fmt)[k] == start + |RowsOf(ls[..k], first, fmt)|
  {
    if k < |ls| - 1 {
      var ls' := ls[..|ls| - 1];
      StartsOfAt(ls', k, first, start, fmt);
      assert ls'[..k] == ls[..k];
    } else {
      assert ls[..k] == ls[..|ls| - 1];
    }
  }

  /** The recorded start of line `k` is the index, counted from `start`, of
      that line's first row, and the starts strictly increase. */
  lemma StartPointsAtFirstRow(ls: seq<string>, k: nat, first: nat, start: nat, fmt: LineFormatter)
    requires k < |ls|
    ensures var starts, rows := StartsOf(ls, first, start, fmt), RowsOf(ls, first, fmt);
            && start <= starts[k] < start + |rows|
            && rows[starts[k] - start] == fmt(ls[k], first + k)[0]
            && (k + 1 < |ls| ==> starts[k] < starts[k + 1])
  {
    StartsOfAt(ls, k, first, start, fmt);
    RowsOfSplit(ls, k, first, fmt);
    if k + 1 < |ls| {
      StartsOfAt(ls, k + 1, first, start, fmt);
      PrefixStep(ls, k, first, start, fmt);
    }
  }

  /** Placed after the rows `kept`, the recorded start of line `k` indexes
      that line's first row in the whole buffer. */
  lemma StartIndexesBuffer(ls: seq<string>, k: nat, first: nat, kept: seq<string>, fmt: LineFormatter)
    requires k < |ls|
    ensures var buf, starts := kept + RowsOf(ls, first, fmt), StartsOf(ls, first, |kept|, fmt);
            && |kept| <= starts[k] < |buf|
            && buf[starts[k]] == fmt(ls[k], first + k)[0]
  {
    StartPointsAtFirstRow(ls, k, first, |kept|, fmt);
  }

  /** Dropping the last line's rows leaves the rows of the other lines. */
  lemma {:induction false} RowsOfLast(ls: seq<string>, first: nat, fmt: LineFormatter)
    requires ls != []
    ensures var rows, u := RowsOf(ls, first, fmt), |fmt(ls[|ls| - 1], first + |ls| - 1)|;
            && 1 <= u <= |rows|
            && rows[..|rows| - u] == RowsOf(ls[..|ls| - 1], first, fmt)
  {
  }

  /** The first rows of two runs of lines laid out one after the other: the
      second run's lines are numbered on from the first's and placed after
      its rows. */
  lemma {:induction false} StartsOfAppend(a: seq<string>, b: seq<string>, first: nat, start: nat, fmt: LineFormatter)
    ensures StartsOf(a + b, first, start, fmt)
            == StartsOf(a, first, start, fmt) + StartsOf(b, first + |a|, start + |RowsOf(a, first, fmt)|, fmt)
  {
    if b == [] {
      assert a + b == a;
    } else {
      var b' := b[..|b| - 1];
      assert (a + b)[..|a + b| - 1] == a + b';
      StartsOfAppend(a, b', first, start, fmt);
      RowsOfAppend(a, b', first, fmt);
    }
  }
}
