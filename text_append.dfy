/** Formatting of appended text (src/core/utils/text.rs): the text,
    glued to the open last line when there is one, is split into lines and
    every line is turned into rows by the pager's per-line formatter. The
    rows are assembled as the first line's, the middle lines' and the last
    line's, and the rows of the last line stay open unless the text ends
    with a newline. */
module TextAppend {
  import opened Common
  import opened Blocks
  import opened ScreenText

  /** `AppendProps` without the search indexes. */
  datatype AppendProps = AppendProps(lines: seq<string>, numUnterminated: nat)

  /** The lines strictly between the first and the last. */
  function MidLines(ls: seq<string>): seq<string>
    requires ls != []
  {
    if |ls| <= 2 then [] else ls[1..|ls| - 1]
  }

  /** The rows `make_append_str` assembles for the lines `ls`, the first
      of which is numbered `placement`, and how many of them stay open;
      `lastOffset` is the number the last line gets past `placement`. */
  function Assemble(ls: seq<string>, endsWithNewline: bool, placement: nat, lastOffset: nat,
                    fmt: LineFormatter): AppendProps
    requires ls != []
  {
    var size := |ls|;
    var first := fmt(ls[0], placement);
    var last := if size > 1 then fmt(ls[size - 1], placement + lastOffset) else [];
    var mid := RowsOf(MidLines(ls), placement + 1, fmt);
    var unterminated := if endsWithNewline then 0 else if size > 1 then |last| else |first|;
    AppendProps(first + mid + last, unterminated)
  }

  /** `make_append_str` as written: panics when there is no line, and
      numbers the last line `placement + size` instead of
      `placement + size - 1`. */
  function MakeAppendStrAsWritten(text: string, attachment: Option<string>, placement: nat,
                                  fmt: LineFormatter): (r: Result<AppendProps>)
    ensures r.Panic? <==> Lines(ToFormat(text, attachment)) == []
  {
    var ls := Lines(ToFormat(text, attachment));
    if ls == [] then Panic else Ok(Assemble(ls, EndsWith(text, '\n'), placement, |ls|, fmt))
  }

  /** `make_append_str` with the last line numbered as the line it is. */
  function MakeAppendStr(text: string, attachment: Option<string>, placement: nat,
                         fmt: LineFormatter): (r: Result<AppendProps>)
    ensures r.Panic? <==> Lines(ToFormat(text, attachment)) == []
  {
    var ls := Lines(ToFormat(text, attachment));
    if ls == [] then Panic else Ok(Assemble(ls, EndsWith(text, '\n'), placement, |ls| - 1, fmt))
  }

  /** The rows of the lines are the first line's rows followed by those of
      the rest. */
  lemma {:induction false} RowsOfFirst(ls: seq<string>, placement: nat, fmt: LineFormatter)
    requires ls != []
    ensures RowsOf(ls, placement, fmt) == fmt(ls[0], placement) + RowsOf(ls[1..], placement + 1, fmt)
  {
    RowsOfAppend([ls[0]], ls[1..], placement, fmt);
    RowsOfSingle(ls[0], placement, fmt);
    assert [ls[0]] + ls[1..] == ls;
  }

  /** With the last line numbered as the line it is, the assembled rows are
      the rows of every line in order, each line numbered from `placement`
      on; the open rows are none after a final newline, else the rows of the
      last line. */
  lemma AssembleRows(ls: seq<string>, endsWithNewline: bool, placement: nat, fmt: LineFormatter)
    requires ls != []
    ensures var r := Assemble(ls, endsWithNewline, placement, |ls| - 1, fmt);
            && r.lines == RowsOf(ls, placement, fmt)
            && r.numUnterminated == (if endsWithNewline then 0 else |fmt(ls[|ls| - 1], placement + |ls| - 1)|)
  {
    if |ls| > 1 {
      AssembleRowsOfRest(ls, placement, fmt);
      AssembleMany(ls, endsWithNewline, placement, fmt);
    } else {
      RowsOfSingle(ls[0], placement, fmt);
      assert ls == [ls[0]];
    }
  }

  /** With two or more lines, the assembled rows regroup as the rows of
      every line. */
  lemma AssembleMany(ls: seq<string>, endsWithNewline: bool, placement: nat, fmt: LineFormatter)
    requires |ls| > 1
    requires RowsOf(ls[1..], placement + 1, fmt)
             == RowsOf(MidLines(ls), placement + 1, fmt) + fmt(ls[|ls| - 1], placement + |ls| - 1)
    ensures Assemble(ls, endsWithNewline, placement, |ls| - 1, fmt).lines == RowsOf(ls, placement, fmt)
  {
    RowsOfFirst(ls, placement, fmt);
  }

  /** With two or more lines, the rows after the first line's are the
      middle lines' rows then the last line's. */
  lemma AssembleRowsOfRest(ls: seq<string>, placement: nat, fmt: LineFormatter)
    requires |ls| > 1
    ensures RowsOf(ls[1..], placement + 1, fmt)
            == RowsOf(MidLines(ls), placement + 1, fmt) + fmt(ls[|ls| - 1], placement + |ls| - 1)
  {
    var size := |ls|;
    assert ls[1..] == MidLines(ls) + [ls[size - 1]];
    RowsOfAppend(MidLines(ls), [ls[size - 1]], placement + 1, fmt);
    RowsOfSingle(ls[size - 1], placement + 1 + |MidLines(ls)|, fmt);
  }

  /** What `make_append_str` assembles is what `format_text_block` appends
      for the same block when the formatter is the block's. */
  lemma MakeAppendStrIsFormatTextBlock(text: string, attachment: Option<string>, linesCount: nat, cfg: Config)
    requires Lines(ToFormat(text, attachment)) != []
    ensures var r := MakeAppendStr(text, attachment, StartLine(linesCount, attachment),
                                   BlockFormatter(text, attachment, linesCount, cfg)).value;
            && r.lines == BlockRows(text, attachment, linesCount, cfg)
            && r.numUnterminated == (if EndsWith(text, '\n') then 0 else LastLineRows(text, attachment, linesCount, cfg))
  {
    AssembleRows(Lines(ToFormat(text, attachment)), EndsWith(text, '\n'),
                 StartLine(linesCount, attachment), BlockFormatter(text, attachment, linesCount, cfg));
  }

  /** As written, only the last line's number is off: with two or more
      lines the rows are those of all lines but the last, then the last
      line's rows formatted as line `placement + size`. */
  lemma AsWrittenNumbersLastLineOnePast(ls: seq<string>, endsWithNewline: bool, placement: nat, fmt: LineFormatter)
    requires |ls| >= 2
    ensures Assemble(ls, endsWithNewline, placement, |ls|, fmt).lines
            == RowsOf(ls[..|ls| - 1], placement, fmt) + fmt(ls[|ls| - 1], placement + |ls|)
  {
    var size := |ls|;
    RowsOfFirst(ls[..size - 1], placement, fmt);
    assert ls[..size - 1][1..] == MidLines(ls);
    assert ls[..size - 1][0] == ls[0];
  }

  /** The text "a\nb" with a formatter that writes each line's index: as
      written the second line is labelled 2 instead of 1. */
  lemma AsWrittenCounterexample()
    ensures var fmt: LineFormatter := (l: string, i: nat) => [NatToString(i)];
            && MakeAppendStrAsWritten("a\nb", None, 0, fmt).value.lines == ["0", "2"]
            && MakeAppendStr("a\nb", None, 0, fmt).value.lines == ["0", "1"]
  {
    var s := "a\nb";
    var b := s[2..];
    assert b == "b" && b[1..] == [];
    assert SplitNl(b[1..]) == [[]];
    assert SplitNl(b) == [[b[0]] + []];
    assert [b[0]] + [] == b;
    assert SplitNl(b) == ["b"];
    assert s[1..] == "\nb" && s[1..][1..] == b;
    assert SplitNl(s[1..]) == [[]] + SplitNl(b);
    assert SplitNl(s[1..]) == [[], "b"];
    assert SplitNl(s) == [[s[0]] + SplitNl(s[1..])[0]] + SplitNl(s[1..])[1..];
    assert SplitNl(s) == [[s[0]] + []] + ["b"];
    assert [s[0]] + [] == "a";
    assert SplitNl(s) == ["a", "b"];
    assert Lines(s) == ["a", "b"];
    assert MidLines(["a", "b"]) == [];
    assert NatToString(0) == "0" && NatToString(1) == "1" && NatToString(2) == "2";
  }
}
