# A verified model of the minus pager core

minus is an embeddable terminal pager written in Rust. Producer code feeds it text, and it shows that text one page at a time in a terminal, with line numbers, line wrapping, search with highlighted matches, and configurable key and mouse bindings. This project models the pager's runtime core in Dafny and proves properties of that model:

- **Text formatting.** The model covers the formatting of the text into rows: lines are split, wrapped to the terminal width and put behind an optional line-number gutter. It also covers the bookkeeping that lets an append rewrite only the open last line: the open-row count, the line-to-row map and the longest line. This is `Blocks`, `ScreenText`, `ScreenLines`, `TextAppend`, `RowMap` and `PagerStates`. The main invariant is `PagerStates.Shows`. It says that text appended in fragments is laid out exactly as the whole text formatted at once.
- **Drawing.** The model covers what is repainted when the view moves: the clamping of the upper mark to the last full page, the rows that come into sight, and the panics of the terminal's 16-bit coordinates. This is `Display`, `CoreDraw`, `LegacyDraw` and `StaticDraw`. The older pager of src/lib.rs keeps its text as wrapped lines plus a pending fragment. It is modelled in `LegacyPager`.
- **Search.** The model covers moving to the n-th match, the line editor of the search prompt, and highlighting matches without disturbing the line's own escape sequences. This is `Search` and `Highlight`.
- **Input.** The model covers the tokenizer and the key and mouse description parsers (`Tokens`, `KeyDefs`, `MouseDefs`, `InputParser`). It covers the binding register, whose keys identify events up to mouse position and resize size (`EventRegisters`). It also covers the default reactions to input (`Inputs`, `InputHandler`).
- **Event handling.** The two generations of `handle_event` are modelled as transitions of the pager state and the command queue (`CoreEventHandler`, `OldEventHandler`), together with their command and event types (`Commands`, `PagerEvents`).

Code that changes state in place is modelled as classes with `modifies` clauses. Each of their methods is proved against a specification function. Pure code is modelled as functions and lemmas. Integers are unbounded. Where the source relies on `usize` saturation, on 16-bit terminal coordinates or on overflow panics, that behaviour is written out (`Common.SatAdd`, `Common.SatSub`, `USIZE_MAX`, `U16_MAX`). A panic is the `Panic` case of `Common.Result`, or `ok == false` in a method.

## Model

Source paths are relative to the repository root.

| member | source | states |
|---|---|---|
| Common.Digits | src/core/utils/mod.rs:5-7 | the digit count is at least 1 |
| Common.DigitsBounds | src/core/utils/mod.rs:5-7 | `digits(n)` is `floor(log10 n) + 1`: n lies below 10^digits(n) and, for n >= 1, at or above 10^(digits(n)-1) |
| Common.DigitsUnique | src/core/utils/mod.rs:5-7 | the digit count is the unique k with 10^(k-1) <= n < 10^k |
| Common.DigitsMonotone | src/core/utils/mod.rs:5-7 | a larger number never has fewer digits |
| Common.NatToString | src/state.rs:209 | `n.to_string()` has exactly `digits(n)` characters |
| Common.NatToStringDigits | src/state.rs:209 | `n.to_string()` consists of decimal digits only |
| Common.ParseUsize | src/input/mod.rs:274 | a successful `parse::<usize>()` yields a value no larger than `usize::MAX` |
| Common.ParsePrinted | src/input/mod.rs:274 | parsing the decimal rendering of any `usize` gives the number back |
| Common.WithBoundsIsWindow | src/screen/mod.rs:64-72 | the bounded view is empty when start >= row count or start > end, the suffix from start when end >= row count, and the slice [start, end) otherwise |
| Common.LinesEmpty | src/state.rs:206 | `str::lines` yields no line exactly for the empty text |
| Common.LinesNoNewline | src/state.rs:206 | no line yielded by `str::lines` contains a newline |
| Common.LinesAppendClean | src/state.rs:331-347 | after an empty or newline-terminated text, the lines of a concatenation are the lines of the first part followed by those of the second |
| Common.LinesAppendAttached | src/state.rs:331-347 | after an unterminated text, the first line of the appended text continues the last line of the old text |
| Common.UnterminatedLines | src/state.rs:335 | the lines of an unterminated text not ending in a carriage return are its newline-separated pieces, each but the last stripped of one trailing carriage return |
| Common.PadLeft | src/core/screen_line.rs:84-121 | `format!("{s:>w}")` is max(len s, w) characters long and ends with s |
| Common.PadLeftBlank | src/core/screen_line.rs:84-121 | the columns in front of the right-aligned text are spaces |
| LineNumbering.Not | src/utils/mod.rs:138-150 | `!` swaps `Enabled` and `Disabled` and keeps `AlwaysOn` and `AlwaysOff` |
| LineNumbering.NotInvolution | src/utils/mod.rs:138-150 | `!!x == x` for every setting |
| LineNumbering.InvertibleIffNotChanges | src/utils/mod.rs:133-135 | `is_invertible(x)` holds exactly when `!x != x`, and inverting an invertible setting flips whether numbers are shown |
| Blocks.StartsOf | src/screen/mod.rs:418-419 | one recorded start per line |
| Blocks.MaxLenIsLongest | src/screen/mod.rs:420-422 | the longest length, counted in UTF-8 bytes as `line.len()` counts it, bounds every line's byte length and is attained by one line, 0 for no lines |
| Common.Utf8LenBounds | src/screen/mod.rs:421 | `str::len` counts one to four bytes per character, and equals the character count exactly when every character is ASCII |
| Blocks.RowsOfLength | src/screen/mod.rs:403-425 | every line occupies at least one row |
| Blocks.RowsOfAppend | src/screen/mod.rs:399-444 | the rows of two consecutive runs of lines are those of the first followed by those of the second, numbered on from the first |
| Blocks.RowsOfSingle | src/screen/mod.rs:429-442 | a single line's rows are what the per-line formatter makes of it |
| Blocks.RowsOfSplit | src/screen/mod.rs:399-444 | the rows of the lines are the rows before line k, line k's own rows and the rows after it |
| Blocks.PrefixStep | src/screen/mod.rs:403-425 | formatting one more line extends the rows, the row starts and the longest length by that line's |
| Blocks.FormatStep | src/screen/mod.rs:403-425 | one loop step keeps the loop invariant: rows, starts and longest length are those of the lines formatted so far |
| Blocks.StartsOfAt | src/screen/mod.rs:418-419 | the start recorded for line k is the start offset plus the number of rows of the lines before it |
| Blocks.StartPointsAtFirstRow | src/screen/mod.rs:418-419 | the recorded start of each line indexes that line's first row, and the starts strictly increase |
| Blocks.StartIndexesBuffer | src/screen/mod.rs:418-444 | placed after the rows kept in the buffer, the start of line k indexes that line's first row in the whole buffer |
| Blocks.RowsOfLast | src/screen/mod.rs:429-482 | the last line occupies between one and all of the rows, and dropping them leaves the rows of the other lines |
| Blocks.StartsOfAppend | src/screen/mod.rs:418-444 | the starts of two consecutive runs are those of the first followed by those of the second, offset by the first's rows |
| RowMap.Reopened | src/core/utils/mod.rs:22-34 | a clean append keeps the entries; otherwise the last entry, if any, is dropped and nothing else |
| RowMap.LinesRowMap.constructor | src/core/utils/mod.rs:18-20 | a new map has no entries |
| RowMap.LinesRowMap.Append | src/core/utils/mod.rs:22-27 | the entries become the reopened old entries followed by all of the other map's entries in order, and the other map is left empty |
| RowMap.LinesRowMap.Insert | src/core/utils/mod.rs:29-34 | the entries become the reopened old entries followed by the new entry |
| RowMap.LinesRowMap.Get | src/core/utils/mod.rs:36-38 | `Some(entry ln)` exactly when ln is below the number of entries, `None` otherwise |
| RowMap.InsertReplacesLast | src/core/utils/mod.rs:29-34 | an insert ends with the new entry; a clean insert grows the map by one, an unclean one replaces only the last entry |
| RowMap.CleanInsertsBuild | src/screen/mod.rs:418-443 | clean inserts of a line's starts one by one append exactly those starts |
| RowMap.AppendIsInserts | src/core/utils/mod.rs:22-34 | appending a block's map equals inserting its entries one by one after the reopened entry is dropped |
| ScreenLines.NewScreenLine | src/core/screen_line.rs:22-33 | the row count is the number of rows, and the line is terminated exactly when its text ends with a newline |
| ScreenLines.FormattedLine | src/core/screen_line.rs:46-68 | panics exactly when the line contains a newline or the 16-bit padding sums overflow |
| ScreenLines.FormattedLineLayout | src/core/screen_line.rs:59-126 | without numbers the rows are the wrapped rows; with numbers the line is wrapped to cols - (padding + 2), saturating, the first row is "n." right-aligned in `padding` columns then a space and the row, and every later row a blank field of that width, a space and the row |
| ScreenLines.NewFromString | src/core/screen_line.rs:34-43 | a line built from a string keeps the text and line number and has consistent cached fields |
| ScreenLines.NewFromStringNeverTerminated | src/core/screen_line.rs:34-57 | a line built from a string is never terminated and has at least one row: a trailing newline panics first |
| ScreenText.LaterRows | src/screen/mod.rs:603-612 | one later row per wrapped row |
| ScreenText.LaterRowsAt | src/screen/mod.rs:570-612 | every later row of a numbered line is a blank field of `padding` columns, a space and its wrapped row |
| ScreenText.LineRows | src/screen/mod.rs:533-546 | a line has exactly as many rows as wrapping gives it |
| ScreenText.FormattedLine | src/screen/mod.rs:517-521 | panics exactly when the line contains a newline, and otherwise gives the line's rows |
| ScreenText.GutterLayout | src/screen/mod.rs:522-615 | without numbers the rows are the wrapped rows; with wrapping off there is one row holding the line; with numbers the first row is the gutter, a space and the first wrapped row, and every later row a blank gutter, a space and its row |
| ScreenText.GutterWidth | src/screen/mod.rs:531-591 | the gutter ends in "idx+1.", is blank in front of it, and is exactly `digits + EXTRA_PADDING + 1` wide when the number fits |
| ScreenText.ToFormat | src/screen/mod.rs:338-360 | the text formatted is the attachment followed by the text when there is an attachment, the text alone otherwise |
| ScreenText.StartLine | src/screen/mod.rs:349 | with an attachment the first line keeps the number of the last line already present (saturating at 0) |
| ScreenText.StartRow | src/screen/mod.rs:350-352 | with an attachment the first row index drops by the previous open-row count, saturating at 0 |
| ScreenText.FormatLinesFrom | src/screen/mod.rs:387-447 | the rows appended are the rows of all the lines, the row map holds each line's first-row index, the longest length is the UTF-8 byte length of a longest line, and the last line's row count is reported |
| ScreenText.FormatTextBlock | src/screen/mod.rs:338-487 | the rows and the report (lines formatted, rows formatted, open rows, row map, longest line in UTF-8 bytes, clean append) are those of the block's reference layout: no line leaves the report's open rows at the previous count and appends nothing, a final newline leaves no open row, and otherwise the open rows are the last line's |
| ScreenText.MakeFormatLines | src/screen/mod.rs:338-487 | the whole text is formatted from line 0 and row 0: rows and map are those of all its lines, and no row is open exactly when the text is empty or ends with a newline |
| ScreenText.UnterminatedIsLastLine | src/screen/mod.rs:476-483 | the open rows reported are the block's trailing rows: cutting them leaves the rows of every line but the last |
| ScreenText.BlockMapPointsAtFirstRows | src/screen/mod.rs:418-443 | every row-map entry of a block points, in the buffer it is appended to, at the first row of its line |
| ScreenText.MaxLenCountsBytes | src/screen/mod.rs:445-446 | the one-character line "é" counts 2 toward `max_line_length`, its UTF-8 length |
| ScreenText.MaxLineLengthCounterexample | src/screen/mod.rs:420-422 | for lines of lengths 4, 8 and 1 the counter as written gives 4 while the longest line is 8 long |
| ScreenText.Attachment | src/screen/mod.rs:93-110 | a push continues the text's last line exactly when the text is non-empty and unterminated, and then the attachment is that last line |
| ScreenText.Screen.constructor | src/screen/mod.rs:147-158 | a new screen is empty, has no open rows, wraps lines, and is valid |
| ScreenText.Screen.GetFormattedLinesWithBounds | src/screen/mod.rs:64-72 | empty when start >= row count or start > end, the suffix from start when end >= row count, the slice [start, end) otherwise |
| ScreenText.Screen.PushScreenBuf | src/screen/mod.rs:81-144 | the text is appended to `orig_text`; the open rows are replaced by the block's rows; the line count grows by the lines formatted minus one when the push continued an open line; `max_line_length` never decreases and becomes the larger of the old value and the block's longest line in UTF-8 bytes; the open-row count is the formatter's; the screen stays valid |
| ScreenText.PushOnto | src/screen/mod.rs:81-144 | the same new values as `push_screen_buf`, computed on values (the longest-line counter in UTF-8 bytes), and the counters keep tracking the text |
| ScreenText.PushKeepsValid | src/screen/mod.rs:93-142 | a push of text with no line changes nothing; otherwise the rows, line count and open rows after the push track the concatenated text |
| ScreenText.PushKeepsLineCount | src/screen/mod.rs:137 | the kept line count is the line count of the whole text: the lines pushed, minus the continued line when the push was not clean |
| ScreenText.PushCleanEnds | src/screen/mod.rs:477-482 | a push that leaves the text terminated pushed either nothing onto a terminated text or a terminated text with a line (also line 93) |
| ScreenText.LinesCountAttached | src/screen/mod.rs:106-137 | the line count of an open text continued by more text is the count before the last line plus the lines of the glued last line, at least one |
| ScreenText.PushRowStartCounterexample | src/screen/mod.rs:350-352 | with rows ["x", "ab"], one of them open, the first row recorded as written is 0 whereas the rewritten line sits at row 1 (also lines 102-103 and 112) |
| ScreenText.PushRowStartShifted | src/screen/mod.rs:350-352 | for every attached push the row handed to the formatter as written is the start of the rewritten line less the open-row count (less all of it when the open rows outnumber the rest), so it is too small whenever a line was open and rows precede it |
| ScreenText.PushAsWrittenCounterexample | src/screen/mod.rs:369-385 | pushing "" onto "\r" as written leaves no rows but one open row, so the next push underflows (also lines 102-103) |
| TextAppend.MakeAppendStrAsWritten | src/core/utils/text.rs:19-142 | as written: panics exactly when the glued text has no line (`lines.first().unwrap()`) |
| TextAppend.MakeAppendStr | src/core/utils/text.rs:19-142 | panics exactly when attachment plus text has no line |
| TextAppend.RowsOfFirst | src/core/utils/text.rs:70-83 | the rows of the lines are the first line's rows followed by those of the rest (also line 131) |
| TextAppend.AssembleRows | src/core/utils/text.rs:102-135 | the assembled rows (first line's, middle lines', last line's) are the rows of every line in order; the open rows are none after a final newline, else the last line's, or the only line's |
| TextAppend.AssembleMany | src/core/utils/text.rs:131-135 | with two or more lines the three groups regroup as the rows of every line |
| TextAppend.AssembleRowsOfRest | src/core/utils/text.rs:87-117 | with two or more lines the rows after the first line's are the middle lines' then the last line's |
| TextAppend.MakeAppendStrIsFormatTextBlock | src/core/utils/text.rs:32-135 | `make_append_str` assembles exactly the rows and open-row count `format_text_block` produces for the same block |
| TextAppend.AsWrittenNumbersLastLineOnePast | src/core/utils/text.rs:87-99 | as written, the rows are those of every line but the last, followed by the last line's rows formatted as line `placement + size` |
| TextAppend.AsWrittenCounterexample | src/core/utils/text.rs:91 | for "a\nb" with a formatter that writes the line index, as written the rows are ["0", "2"], corrected ["0", "1"] |
| PagerStates.OpenPiece | src/state.rs:331-336 | the open piece is no longer than the text and holds no newline |
| PagerStates.SettledSplit | src/state.rs:331-336 | a text is its settled part followed by its open piece; the settled part is empty or newline-terminated, and the open piece is empty exactly when the text is empty or terminated |
| PagerStates.LinesOfPiece | src/state.rs:335 | a non-empty piece without a newline is one line, stripped of one trailing carriage return |
| PagerStates.LinesAtOpenPiece | src/state.rs:335-338 | the lines of a text are those of its settled part followed by its open piece as one line |
| PagerStates.LinesContinued | src/state.rs:345-347 | the lines of a continued text are those of its settled part followed by those of the open piece continued |
| PagerStates.OpenAttachment | src/state.rs:331-336 | there is an attachment exactly when the text is non-empty and unterminated, and it is the non-empty open piece of the text |
| PagerStates.LenLineNumber | src/state.rs:339-352 | `n.ilog10() + 1` is the digit count of n, and 0 exactly for no line |
| PagerStates.MapFromAt | src/state.rs:380 | the line map built from a block's entries binds key `first + i` to entry i and nothing else |
| PagerStates.MapFromAppend | src/state.rs:380 | extending a map with two consecutive runs of entries equals extending it with their concatenation |
| PagerStates.MapFromOverwrite | src/state.rs:380 | binding a line again keeps only the later binding |
| PagerStates.ContinueRows | src/state.rs:392-394 | dropping the open line's rows and appending the rows of the continued lines gives the rows of all lines |
| PagerStates.ContinueMap | src/state.rs:380 | extending the map with the continued lines' entries overwrites the open line's entry and gives the map of all lines |
| PagerStates.MapContinue | src/state.rs:380 | entries continued by a block that rebinds the open entry give the map of the joined entries |
| PagerStates.AppendText | src/state.rs:331-360 | the text formatted is the open piece continued by the fragment, its lines are numbered from the settled lines on, and they end where the lines of the whole new text end |
| PagerStates.AppendShape | src/state.rs:354-367 | the block is formatted with the gutter of the whole new text |
| PagerStates.KeptFormatter | src/state.rs:382-385 | without a full redraw the gutter width of the whole text does not change |
| PagerStates.CleanAfter | src/state.rs:331-345 | after an append the text is unchanged and terminated when nothing is formatted, terminated when the fragment ends in a newline, and open otherwise |
| PagerStates.BlockOpenRows | src/screen/mod.rs:369-385 | the open rows a block reports: the previous count without lines, 0 after a final newline, else the last line's rows (also lines 477-482) |
| PagerStates.AppendOpenRows | src/state.rs:395 | the open-row count after an append is that of the whole new text |
| PagerStates.LastOfAppend | src/state.rs:345-347 | the last line of the joined lines is the last line of the block |
| PagerStates.OpenLine | src/state.rs:335 | at most one open line |
| PagerStates.ShownBeforeAppend | src/state.rs:382-397 | a state showing its text consists of the rows and map of its settled lines and open line, in the gutter of the text after the append |
| PagerStates.AppendKeepsRows | src/state.rs:392-394 | without a redraw, dropping the open rows and appending the block's rows gives the rows of formatting the whole new text |
| PagerStates.AppendKeepsMap | src/state.rs:380 | without a redraw, extending the map with the block's entries gives the line map of the whole new text |
| PagerStates.AppendKeepsStarts | src/state.rs:380 | the same, with the block's entries written as the row starts of its lines from the row where the open line began |
| PagerStates.AppendKeepsShows | src/state.rs:330-397 | appending a fragment without a redraw keeps the rows, open rows and line map equal to those of formatting the concatenation at once |
| PagerStates.FormatAllShows | src/state.rs:203-239 | reformatting from line 0 and row 0 shows the whole text, provided a text without lines had no open rows |
| PagerStates.BlockGutterIsNewWidth | src/state.rs:347-358 | the gutter width handed to the formatter, the digit count of the new line count, is the block's own gutter width |
| PagerStates.ShowsEmpty | src/state.rs:203-239 | the empty text is shown by no rows, no open rows and an empty map |
| PagerStates.AttachmentAsWritten | src/state.rs:331-336 | as written: there is an attachment exactly when the text is non-empty and unterminated |
| PagerStates.AttachmentAsWrittenCounterexample | src/state.rs:335 | after "a\r", appending "b" as written formats the line "ab", while the whole text's line is "a\rb", which the open piece gives |
| PagerStates.SearchIndicator | src/state.rs:253-262 | " mark+1/len " is empty exactly when there are no matches, and is framed by blanks otherwise |
| PagerStates.PrefixIndicator | src/state.rs:264-270 | " prefix " is empty exactly when no count was typed, and otherwise holds the typed count between two blanks |
| PagerStates.PromptText | src/state.rs:273 | the message when there is one, else the prompt |
| PagerStates.DisplayedPrompt | src/state.rs:280-309 | panics exactly when the indicators are wider than the terminal, where the cut underflows |
| PagerStates.PromptOf | src/state.rs:244-309 | the prompt line panics exactly when the indicators are wider than the terminal |
| PagerStates.PromptLayout | src/state.rs:283-307 | when the indicators fit, the line is exactly `cols` wide apart from the colour escapes: as much text as fits, blanks up to the indicators' room, then the indicators |
| PagerStates.BuildPrompt | src/state.rs:244-310 | succeeds exactly when the prompt line exists, and then builds that line |
| PagerStates.FormatAll | src/state.rs:203-239 | the view is the whole text formatted from line 0 and row 0 |
| PagerStates.ReformattedShows | src/state.rs:203-239 | reformatting gives the view of the whole text, provided a text without lines had no open rows |
| PagerStates.AppendView | src/state.rs:330-397 | a full redraw exactly when the gutter gets wider after there were lines; otherwise a partial update whose rows replace the open rows, or a panic exactly when the open rows exceed the rows |
| PagerStates.AppendViewKeepsShows | src/state.rs:330-397 | from a view that shows its text, an append never panics and leaves the view of the concatenation: appending in fragments equals formatting at once (also src/tests.rs:31-79) |
| PagerStates.AppendViewRedraws | src/state.rs:382-385 | when the gutter width changes, the full reformat leaves the view of the whole new text |
| PagerStates.AppendViewContinues | src/state.rs:392-397 | without a redraw, the kept rows plus the block's rows, its open-row count and its map entries are the view of the whole new text |
| PagerStates.AppendViewKept | src/state.rs:379-397 | without a redraw and with the open rows inside the buffer, the append returns the block's rows as a partial update, keeps the settled rows, appends the block's, takes its open-row count and extends the map |
| PagerStates.AppendViewPanics | src/state.rs:379-393 | without a redraw and with more open rows than rows, the map is extended and the subtraction `len() - unterminated` panics |
| PagerStates.AppendOnto | src/state.rs:330-397 | the text is extended by the fragment, and style and view are those `AppendView` describes |
| PagerStates.PromptAfter | src/state.rs:382-385 | after a full redraw the prompt is rebuilt (a prompt that cannot be laid out panics); after a partial update it is kept (also line 240) |
| PagerStates.PagerState.constructor | src/state.rs:203-241 | a new state is empty, shows its text, has numbers disabled and the mark at 0, and displays the laid-out prompt |
| PagerStates.PagerState.NumLines | src/state.rs:199-201 | the number of formatted rows |
| PagerStates.PagerState.GetFormattedLinesWithBounds | src/state.rs:313-321 | empty when start >= row count or start > end, the suffix from start when end >= row count, the slice [start, end) otherwise |
| PagerStates.PagerState.FormatPrompt | src/state.rs:244-310 | the displayed prompt becomes the prompt line of the current state, or stays as it was where the source panics |
| PagerStates.PagerState.FormatLines | src/state.rs:203-241 | rows, open rows and line map are rebuilt from the whole text from line 0 and row 0, the state then shows its text, and the prompt is rebuilt |
| PagerStates.PagerState.AppendStr | src/state.rs:330-398 | the text is extended by the fragment, the view and style are those of `AppendView`, and a valid state stays valid and never panics on the rows |
| Display.ClampUpper | src/core/utils/display/mod.rs:32-43 | after the clamp the page ends within the text, and a mark whose page already fits is kept |
| Display.ClampIsLastFullPage | src/core/utils/display/mod.rs:36-43 | the clamped mark is the smaller of the mark asked for and the mark of the last full page, `line_count - writable_rows` saturating (also src/core/utils/display/tests.rs:14-92) |
| Display.ClampedPageIsFull | src/core/utils/display/mod.rs:226-243 | a page at a clamped mark is full: `rows - 1` rows, or every row when there are fewer |
| Display.ChangeFor | src/core/utils/display/mod.rs:26-100 | nothing moves exactly when the clamped target equals the current mark; otherwise the new mark is the clamped target, the view moves down exactly when it grows, and the terminal scrolls by at most `rows - 1` rows |
| Display.PartialRedrawShowsPage | src/core/utils/display/mod.rs:45-107 | when the terminal showed the full page at the old mark, scrolling it and writing the chosen rows into the gap leaves exactly the page at the new mark |
| Display.ScrollDownShowsPage | src/core/utils/display/mod.rs:61-87 | scrolling down, the rows still in sight followed by the rows [old lower bound, new lower bound), or [target, target + delta) for a long move, are the new page |
| Display.ScrollUpShowsPage | src/core/utils/display/mod.rs:88-99 | scrolling up, the rows [target, target + delta) followed by the rows still in sight are the new page |
| Display.ChangeForExamples | src/core/utils/display/tests.rs:474-576 | on 100 rows and a 10-row terminal the moves 0 to 3, 0 to 50, 80 to 20 and 60 to 50 repaint the source's expected ranges, and with 5 rows a move to 10 writes nothing |
| Display.DrawForChange | src/core/utils/display/mod.rs:21-113 | the new mark is the clamped target and is stored; the rows written are the chosen range, none when the view does not move; the prompt row's 16-bit conversion panics only after a move |
| Display.EmittedAppend | src/core/utils/display/mod.rs:279-288 | the output of a list of lines is the output of its parts in order |
| Display.WriteLines | src/core/utils/display/mod.rs:279-288 | every line in order, each after `initial` and followed by a newline |
| Display.WriteTextChecked | src/core/utils/display/mod.rs:220-249 | the mark is clamped, the slice never panics, and the rows written are those from the new mark to the lower mark, each after a carriage return |
| Display.WriteFromPagerState | src/core/utils/display/mod.rs:251-271 | the mark is clamped, and the rows written are the full page at the new mark |
| Display.DrawFull | src/core/utils/display/mod.rs:139-150 | the mark is clamped, and the page at it is written unless the terminal height does not fit in 16 bits, which is an error rather than a panic |
| Display.AppendedRows | src/core/utils/display/mod.rs:167-198 | nothing is written when the earlier rows filled the terminal; otherwise at most the block's rows and never below the prompt row |
| Display.AppendedRowsFillFirstPage | src/core/utils/display/mod.rs:167-198 | when an append fits, the kept rows and the rows written after them form the first page of the new text |
| Display.DrawAppendText | src/core/utils/display/mod.rs:152-202 | a full redraw redraws the page at the clamped mark; a partial update keeps the mark, writes the rows that fit below the kept rows, and panics exactly when the cursor row does not fit in 16 bits |
| CoreDraw.Draw2PlanAsWritten | src/core/display/mod.rs:13-99 | as written, the distance measured to the mark asked for before the clamp: panics exactly when the terminal height exceeds 16 bits or the view moves up and that distance exceeds 65535; the terminal scrolls up by the distance capped at a page, and down by the whole distance |
| CoreDraw.Draw2Plan | src/core/display/mod.rs:13-99 | corrected: panics exactly when the terminal height exceeds 16 bits, and otherwise scrolls by the distance to the clamped mark, capped at a page |
| CoreDraw.Draw2Moves | src/core/display/mod.rs:26-93 | nothing is written exactly when the clamped target equals the current mark; otherwise the new mark is the clamped target, the view moves down exactly when it grows, and the terminal scrolls by the given distance capped at a page when moving down |
| CoreDraw.Draw2AsWrittenCounterexample | src/core/display/mod.rs:81-84 | a jump up from 70000 to 0 on a ten-row terminal panics as written; the corrected plan writes the page at 0 |
| CoreDraw.Draw2ClampCounterexample | src/core/display/mod.rs:26-39 | on 100 rows and a ten-row terminal, a move from 90 to the mark 95, clamped to 91, scrolls five rows as written and leaves five rows in sight instead of nine; from 95, asking for 93 writes two rows where four are due, and asking for 200000 panics; the corrected plan scrolls one row or four |
| CoreDraw.Draw2PlansAgree | src/core/display/mod.rs:13-99 | whenever the as-written plan does not panic, both plans move to the same mark; they write the same rows when the old mark was a full page or the view moves down, and when the mark asked for needs no clamp a move down scrolls alike too |
| CoreDraw.Draw2UpShowsPage | src/core/display/mod.rs:80-90 | with the corrected plan, moving up, the rows written and the old rows still in sight are the page at the new mark |
| CoreDraw.Draw2DownShowsPage | src/core/display/mod.rs:55-79 | with the corrected plan, moving down, the old rows still in sight followed by the rows written end with the page at the new mark, and are that page for a move shorter than a page |
| CoreDraw.ShortMoveIsChange | src/core/display/mod.rs:24-93 | with the corrected plan, a move up, or down by less than a page, is the move `draw_for_change` makes |
| CoreDraw.LongMoveDownEndsWithPage | src/core/display/mod.rs:72-79 | moving down by a page or more, the rows written run up to the end of the new page |
| CoreDraw.Draw2 | src/core/display/mod.rs:13-103 | as written: the mark asked for is clamped and handed back without being stored in the state; it panics exactly when the as-written plan does, and the rows written are those of that plan, none when the view does not move |
| CoreDraw.WriteLines | src/core/display/mod.rs:153-184 | the mark becomes 0 when the text is shorter than the terminal, else the last full page's mark, whenever the page would overshoot; the output is "\r" followed by the page's rows joined with "\n\r" (also src/core/display/tests.rs:14-92) |
| CoreDraw.Draw | src/core/display/mod.rs:113-124 | the mark is clamped, the page is written, and a terminal height beyond 16 bits is an error, never a panic |
| LegacyDraw.WriteLines | src/utils/mod.rs:70-104 | the mark is pulled back so that the page is full, and the page is written as rows joined by newline and carriage return, ended by a newline |
| LegacyDraw.Draw | src/utils/mod.rs:34-67 | only the page is drawn exactly when the text fits and the pager is not asked to run anyway; otherwise it panics exactly when the row count exceeds 16 bits or the shown prompt has no row, and draws the first row of the message, else of the prompt |
| LegacyDraw.PageOnlyDraw | src/utils/mod.rs:42-44 | a text that fits is shown from its top, all of it when shorter than the terminal and one row fewer when exactly as tall |
| StaticDraw.Not | src/utils.rs:238-250 | `!` swaps `Yes` and `No` and keeps `Enabled` and `Disabled` |
| StaticDraw.NotInvolution | src/utils.rs:238-250 | toggling twice is the identity, and toggling switches the numbering exactly for the unlocked settings |
| StaticDraw.WindowFor | src/utils.rs:162-179 | the written window lies inside the text, spans at most `rows` lines, and starts at the mark when the mark's page does not overshoot |
| StaticDraw.WindowPanics | src/utils.rs:166-185 | the window computation panics exactly when mark plus rows overflows `usize`, or when there are no rows, the text ends in a newline and the mark is at most one past the line count |
| StaticDraw.WriteLines | src/utils.rs:153-224 | fails exactly when the window panics or the numbered width sum overflows; otherwise returns the window's mark and the window's lines written as rows, numbered from mark plus one in the width of `lower + upper + 1` |
| StaticDraw.WriteRows | src/utils.rs:187-220 | the loop writes exactly the rows of the window in order |
| StaticDraw.NumbersAligned | src/utils.rs:194-217 | every number written fits in the width, so each number field is exactly that wide and ends with the number |
| LegacyPager.WrapAll | src/lib.rs:269-273 | one wrapped line per line of the text, each wrapped as `wrap_str` wraps it |
| LegacyPager.WrapAllAppend | src/lib.rs:398-415 | wrapping the lines of two texts one after the other is wrapping each and joining the results |
| LegacyPager.WrapStr | src/lib.rs:602-607 | a line always wraps to at least one row |
| LegacyPager.Rewrap | src/lib.rs:594-599 | rewrapping a line gives at least one row |
| LegacyPager.RewrapMessage | src/lib.rs:505-507 | the message is rewrapped exactly when there is one |
| LegacyPager.RewrapOneRow | src/lib.rs:594-607 | rewrapping a line of one row wraps that row as `wrap_str` does |
| LegacyPager.PushStepAsWritten | src/lib.rs:394-419 | as written: a string without a newline only extends the pending fragment |
| LegacyPager.PushStep | src/lib.rs:394-419 | corrected: a string without a newline only extends the pending fragment, and a fragment free of newlines stays free of them |
| LegacyPager.PushStepSettles | src/lib.rs:394-419 | each corrected step adds the wrapped lines that the fragment and the string complete, and keeps what follows their last newline |
| LegacyPager.PushAllIsWhole | src/lib.rs:394-422 | pushing text in fragments, as `write_str` does, leaves the same wrapped lines and fragment as pushing it all at once |
| LegacyPager.PushAsWrittenCounterexample | src/lib.rs:406-416 | after the fragment "ab", pushing "c\nd" completes the line "c" and leaves "abd" as written; the corrected step completes "abc" and leaves "d" |
| LegacyPager.AsWrittenPushesC | src/lib.rs:406-416 | for any wrapper that keeps a line whole, the as-written step loses the fragment "ab" from the completed line |
| LegacyPager.CorrectedPushesAbc | src/lib.rs:394-419 | for any wrapper that keeps a line whole, the corrected step completes the line "abc" |
| LegacyPager.GutterWidth | src/lib.rs:446-481 | every gutter is the number width plus three, and holds the line number right-aligned before the dot |
| LegacyPager.LineRowsOf | src/lib.rs:453-484 | every line gives at least one row |
| LegacyPager.FormatRowsAtLeastLines | src/lib.rs:438-503 | there are at least as many rows as lines |
| LegacyPager.FormatRowsAppend | src/lib.rs:450-502 | the rows of a text are the rows of its first lines followed by the rows of the rest, numbered on |
| LegacyPager.EveryRowNumbered | src/lib.rs:453-484 | with numbers on, every row of a line starts with that line's gutter, and all gutters have the same width |
| LegacyPager.Pager.constructor | src/lib.rs:216-257 | a new pager has no text, numbers disabled, mark 0, the prompt "minus" wrapped, process quit, no callbacks and no message |
| LegacyPager.Pager.FormatLines | src/lib.rs:438-512 | the rows are rebuilt from the wrapped lines, and the message and prompt are rewrapped |
| LegacyPager.Pager.SetText | src/lib.rs:269-273 | the wrapped lines are those of the new text, and the rows are rebuilt |
| LegacyPager.Pager.SetLineNumbers | src/lib.rs:284-287 | the setting is stored and the rows are rebuilt with it |
| LegacyPager.Pager.PushStr | src/lib.rs:394-422 | the wrapped lines and the fragment take one corrected push step, then the rows are rebuilt |
| LegacyPager.Pager.SendMessage | src/lib.rs:303-310 | fails exactly on a newline and then changes nothing; otherwise the message is the wrapped text, marked as changed |
| LegacyPager.Pager.SetPrompt | src/lib.rs:326-332 | fails exactly on a newline and then changes nothing; otherwise the prompt is the wrapped text |
| LegacyPager.Pager.SetExitStrategy | src/lib.rs:366-368 | the exit strategy is the one given |
| LegacyPager.Pager.SetRunNoOverflow | src/lib.rs:381-383 | the flag is the value given |
| LegacyPager.Pager.EndDataStream | src/lib.rs:434-436 | the stream is marked as ended |
| LegacyPager.Pager.SetInputHandler | src/lib.rs:534-536 | the classifier is the one given |
| LegacyPager.Pager.AddExitCallback | src/lib.rs:556-558 | the callback is added after those already registered |
| LegacyPager.Pager.Exit | src/lib.rs:539-543 | the callbacks run once each, in the order they were added |
| LegacyPager.Pager.GetFlattenedLinesWithBounds | src/lib.rs:515-523 | the rows from `start` up to `end`, cut at the last row, and none when the window is empty or starts past the text |
| LegacyPager.Pager.NumLines | src/lib.rs:526-528 | the number of rows |
| LegacyPager.BuildRows | src/lib.rs:450-486 | the loop gives the rows of every line, in order |
| Search.Eq | src/core/search.rs:52-56 | comparing discriminants is equality of the search modes |
| Search.PositionFrom | src/core/search.rs:389 | the index of the first match below the upper mark at or after `i`, with every match before it at or above the mark; none exactly when no such match exists |
| Search.Position | src/core/search.rs:389 | the index of the first match below the upper mark, with every earlier match at or above it; none exactly when every match is at or above it |
| Search.NthMark | src/core/search.rs:389-397 | the chosen search mark is 0 when there are no matches and otherwise the index of a match |
| Search.NextNthMatch | src/core/search.rs:386-403 | the search mark is the one `NthMark` chooses, and the upper mark moves to that match's line when the mark names a match |
| Search.PositionAfter | src/core/search.rs:389 | with ascending matches, the first match below match `k` is match `k + 1`, none after the last |
| Search.NextFromMatch | src/core/search.rs:386-403 | from the line of match `k`, moving `n` matches on lands on match `k + n`, or on the last match |
| Search.FromAboveFirst | src/core/search.rs:386-403 | from above the first match, moving `n` on lands on match `n - 1` or the last, so repeated single moves visit the matches in order (the order `test_next_match` at lines 420-431 expects) |
| Search.WordStartsFrom | src/core/search.rs:74-78 | the word starts at or after `i`, each plus one, within the text and strictly ascending |
| Search.WordStartsExact | src/core/search.rs:30-31 | exactly the starts of matches of `WORD` at or after `i` are listed |
| Search.WordIndex | src/core/search.rs:74-78 | the word index lists, one-based and strictly ascending, exactly the positions where a match of `WORD` starts |
| Search.LastBelow | src/core/search.rs:160-171 | the nearest word start before the cursor, if any; none exactly when every start is at or after it |
| Search.FirstAbove | src/core/search.rs:185-196 | the nearest word start after the cursor, if any; none exactly when every start is at or before it |
| Search.EditKeepsRange | src/core/search.rs:102-138 | Backspace, Delete and character keys never panic on a prompt whose cursor is in range, and keep it in range |
| Search.MoveKeepsRange | src/core/search.rs:148-213 | the cursor keys keep the cursor in range and panic only when the text is too long for a `u16` column |
| Search.KeyStepKeepsRange | src/core/search.rs:68-237 | every event keeps the cursor on the text or just after it, and the only panic is a text too long for a `u16` column |
| Search.InsertThenBackspace | src/core/search.rs:102-118 | typing a character and then Backspace gives the prompt back |
| Search.BackspaceThenInsert | src/core/search.rs:102-118 | Backspace followed by typing the character it removed gives the prompt back |
| Search.DeleteUnderCursor | src/core/search.rs:119-138 | Delete removes the character under the cursor and keeps the cursor; at column 1 or past the end nothing changes |
| Search.LeftRightInverse | src/core/search.rs:148-196 | Left undoes Right and Right undoes Left, away from the ends |
| Search.CtrlLeftNearestWord | src/core/search.rs:159-171 | Control-Left keeps the text and moves to the nearest word start before the cursor, or stays when there is none |
| Search.CtrlRightNearestWord | src/core/search.rs:184-196 | Control-Right keeps the text and moves to the nearest word start after the cursor, or stays when there is none |
| Search.EndsAndFinish | src/core/search.rs:93-101 | Esc and Enter end input and keep the text; Home and End move to the first column and just past the last |
| Search.SearchOpts.constructor | src/core/search.rs:244-253 | the options start with no event, no text, the cursor in column 1, and `/` for a forward search or `?` otherwise |
| Search.SearchOpts.HandleKeyPress | src/core/search.rs:68-237 | no event changes nothing; otherwise the new prompt is the one `KeyStep` gives, or nothing changes when it panics; the word index is rebuilt when the text changes; a valid prompt stays valid unless the text is too long for a `u16` column |
| Highlight.EscapeWidth | src/core/search.rs:315-331 | the line is as long as its text without escapes plus the total width of its escapes |
| Highlight.Escapes | src/core/search.rs:317-331 | each escape is recorded at a position inside the stripped text, and the positions never decrease |
| Highlight.LocateEscapes | src/core/search.rs:315-331 | the loop records each escape at its start in the line less the width of the escapes before it, which is the number of text characters before it |
| Highlight.Bounds | src/core/search.rs:335-338 | two bounds per match, its start and its end |
| Highlight.TakeCount | src/core/search.rs:352 | the count is the length of the longest prefix of bounds at or before the position |
| Highlight.SegsSplit | src/core/search.rs:340-378 | the rendering of a range of positions is the rendering of its two halves, one after the other |
| Highlight.SegsAgree | src/core/search.rs:350-378 | positions where the kept escapes agree render alike |
| Highlight.SegsWidth | src/core/search.rs:368-369 | the rendered positions `a` to `b - 1` are as long as their count, plus one reverse-video switch per match start and one switch back per match end among them, plus the escapes kept there |
| Highlight.CountsAreMatches | src/core/search.rs:335-352 | counting start and end positions up to `p` is counting the matches that start before `p` and end at or before it |
| Highlight.BoundsCount | src/core/search.rs:352-358 | the number of bounds at or before a position is odd exactly inside a match, and otherwise is one start and one end per earlier match |
| Highlight.BoundsFirst | src/core/search.rs:352 | how the count of bounds at or before `p` follows from the first match |
| Highlight.KeptLenAll | src/core/search.rs:348-377 | the escapes kept below a position past all of them are as long as `inserted_escs_len`, the width of the escapes outside every match |
| Highlight.DroppedInside | src/core/search.rs:354-358 | an escape inside a match, its start included, leaves the output unchanged |
| Highlight.KeptShape | src/core/search.rs:360-374 | an escape outside every match goes right after what the output holds before its position, and the rest is unchanged |
| Highlight.KeptPosition | src/core/search.rs:360-369 | the position the source computes for a kept escape is the length of what the output holds before it |
| Highlight.InsertKept | src/core/search.rs:360-374 | inserting a kept escape at the computed position gives the reference rendering with that escape |
| Highlight.KeptStep | src/core/search.rs:350-377 | one step of the loop takes the rendering with the escapes before it to the rendering with this one too |
| Highlight.HighlightLine | src/core/search.rs:305-381 | reports a match exactly when there is one; with none the line comes back unchanged; otherwise the result is the reference rendering of the matches and the line's escapes |
| Highlight.PutBack | src/core/search.rs:342-378 | starting from the text with its matches wrapped, putting back each escape outside every match gives the reference rendering |
| Highlight.NoMatchIsLine | src/core/search.rs:309-311 | with no match the reference rendering puts every escape back where it stood, so it is the line itself |
| Highlight.NoMatchChar | src/core/search.rs:309-311 | with no match, one more text character is one more character at the end of the rendering |
| Highlight.NoMatchEscape | src/core/search.rs:309-311 | with no match, one more escape at the end is that escape at the end of the rendering |
| Highlight.FirstMatchSegs | src/core/search.rs:342-346 | the first match renders as the switch to reverse video followed by its text |
| Highlight.FirstMatchEnd | src/core/search.rs:342-346 | from the end of the first match on, the rendering is the switch back to normal followed by the rendering of the other matches |
| Highlight.WrappedFrom | src/core/search.rs:342-346 | with no escapes, the rendering from any position before the next match is `replace_all`'s output from there |
| Highlight.WrappedIsExpected | src/core/search.rs:342-346 | with no escapes, the reference rendering is the text with every match wrapped in reverse video and back, the string the loop starts from |
| Inputs.Count | src/input/mod.rs:274 | the count is the parsed prefix when it is a `usize` and 1 otherwise, so it lies in 1 to `usize::MAX` unless the prefix reads 0 |
| Inputs.CountOfPrinted | src/input/mod.rs:274 | a prefix that prints a number `n` counts `n` |
| Inputs.CountOfEmpty | src/input/mod.rs:274 | an empty prefix counts 1 |
| Inputs.SatInverse | src/input/mod.rs:273-299 | saturating addition and subtraction stay in `usize` range, undo each other away from the limits, and saturate exactly when the exact result leaves the range |
| Inputs.UpDownInverse | src/input/mod.rs:273-280 | `up` and `down` move the upper mark by the count and undo each other away from the limits |
| Inputs.HalfPageInverse | src/input/mod.rs:292-299 | half-page moves go by half the rows and undo each other away from the limits |
| Inputs.PageInverse | src/input/mod.rs:322-327 | page moves go by the rows less one, panic exactly when there are no rows, and undo each other away from the limits |
| Inputs.ScrollInverse | src/input/mod.rs:359-364 | mouse scrolling moves the mark by 5 lines, and the two directions undo each other away from the limits |
| Inputs.PageExample | src/input/mod.rs:292-327 | from mark 12 on 5 rows, page and half-page moves give 8, 16, 10 and 14; at `usize::MAX` and at 0 the moves stay put |
| Inputs.EnterIsDownOrRestore | src/input/mod.rs:284-291 | Enter restores the prompt when a message replaces it, and otherwise acts as `down` |
| Inputs.LeftRightInverse | src/input/mod.rs:369-376 | `h` and `l` move the left mark by the count, and undo each other away from the limits |
| Inputs.BottomRowByCount | src/input/mod.rs:302-321 | `G` looks up line `usize::MAX - 1` with no count, line `usize::MAX` with a count of 0 or 1, and line `n - 1` with a count `n` of at least 2; a line missing from the row map gives `usize::MAX - 1` |
| Inputs.BottomRowOfPrinted | src/input/mod.rs:302-321 | with a printed count `n` of at least 2, `G` goes to the row of line `n - 1` when the map has it, and to `usize::MAX - 1` otherwise |
| Inputs.NextPrevMirror | src/input/mod.rs:335-356 | `p` does the opposite of `n`; `n` moves forward in a forward search, back in a reverse one, and is ignored with no search |
| Inputs.WildDigits | src/input/mod.rs:386-400 | the wildcard reports an unmodified ASCII digit key as that number and ignores every other event |
| Inputs.ResizePassesSize | src/input/mod.rs:378-384 | the resize callback succeeds exactly on resize events and passes the new size on |
| Inputs.TogglesInvert | src/input/mod.rs:281-368 | `c-f`, `c-h` and `c-l` ask for the opposite of the current setting, so asking twice restores it |
| Inputs.CallbacksIgnoreEvent | src/input/mod.rs:267-376 | no default callback but the resize callback and the wildcard reads the event |
| Inputs.PlainHScrollsAsWritten | src/input/mod.rs:574-592 | as written, plain `h` toggles line wrapping, `h` with Control and Shift is ignored, and no `h` moves the left mark |
| Inputs.PlainHMovesLeft | src/input/mod.rs:574-592 | corrected, plain `h` moves the left mark left by one, and `h` with Control and Shift toggles wrapping |
| Inputs.CorrectionOnlyOnH | src/input/mod.rs:409-645 | the corrected classifier differs from the one as written only on the `h` key |
| Inputs.ClassifierAgreesOnMovement | src/input/mod.rs:409-645 | for the movement keys both know (up, down, enter, half pages, top, pages), the legacy classifier gives what the default callback gives |
| Inputs.ClassifierAgreesOnCommands | src/input/mod.rs:409-645 | for follow-output, line numbers, quit, both searches and the count digits, the legacy classifier gives what the default callback gives |
| Inputs.ClassifierIgnoresRowMap | src/input/mod.rs:506-533 | the legacy classifier never reads the row map |
| Inputs.ClassifierBottom | src/input/mod.rs:506-533 | the legacy `G` goes to `usize::MAX - 1` without a count and to `usize::MAX` with the count 1 |
| Inputs.ClassifierNextWithoutSearch | src/input/mod.rs:618-629 | with no search running, the legacy `n` still moves to the next match while the callback ignores it |
| Inputs.ClassifierUnmatched | src/input/mod.rs:409-645 | focus changes, pastes, mouse events other than scrolling and keys held with Alt give no reaction |
| InputHandler.MarkOf | src/input.rs:101-240 | the mark is given exactly when the handler asks to move the upper mark |
| InputHandler.LineMovesInverse | src/input.rs:110-125 | `up` and `k`, and `down` and `j`, move the mark alike, by one line, saturating, and undo each other away from the ends |
| InputHandler.WheelInverse | src/input.rs:146-155 | the mouse wheel moves the mark by five lines, saturating, and the two directions undo each other away from the ends, wherever the mouse is and whatever is held |
| InputHandler.TopAndBottom | src/input.rs:156-173 | `g` goes to the top; `g` with Shift, `G` and `G` with Shift go to the bottom, whatever the state |
| InputHandler.PageMovesInverse | src/input.rs:174-188 | page moves go by the rows less one and undo each other away from the ends; with no rows they panic |
| InputHandler.PageExample | src/input.rs:174-188 | from mark 12 on 5 rows, page up gives 8 and page down 16 |
| InputHandler.HalfScreen | src/input.rs:126-145 | `u` and `d`, plain or with Control, move the mark by half the terminal's height, and give no event when the height cannot be read |
| InputHandler.ToggleAndQuit | src/input.rs:193-206 | Control-`l` inverts the line numbers, so pressing it twice restores them; `q` and Control-`c` quit |
| InputHandler.SearchNavigation | src/input.rs:217-238 | in a reverse search `n` goes to the previous match and `p` to the next; otherwise the other way round |
| InputHandler.ResizeReported | src/input.rs:190-192 | a resize reports both new dimensions |
| InputHandler.UnboundKeys | src/input.rs:239 | a character with no binding gives no event, and neither does any key held with Alt |
| EventRegisters.NormalizeCase | src/input/hashed_event_register.rs:40-62 | normalising a key event keeps its kind and state, and leaves non-character keys alone |
| EventRegisters.SameIsSlotEquality | src/input/hashed_event_register.rs:40-62 | two register keys are equal exactly when they fall in the same slot |
| EventRegisters.SameIsEquivalence | src/input/hashed_event_register.rs:40-62 | key equality is reflexive, symmetric and transitive, so the register is a map over slots |
| EventRegisters.MousePositionIgnored | src/input/hashed_event_register.rs:43-52 | a mouse binding matches the same action wherever the mouse is |
| EventRegisters.ResizesAreSame | src/input/hashed_event_register.rs:53-57 | all resize events share one key, whatever size they report |
| EventRegisters.ShiftedGIsOneKey | src/input/mod.rs:302 | `g` with Shift, `G` and `G` with Shift are one key, and plain `g` is another |
| EventRegisters.HashAgreesWithSame | src/input/hashed_event_register.rs:64-81 | hashing ignores exactly what equality ignores: equal keys feed the hasher alike, and keys that feed it alike are equal |
| EventRegisters.Lookup | src/input/hashed_event_register.rs:148-152 | `get` gives the callback bound to the event's key, or else the wildcard's, and none exactly when neither is bound |
| EventRegisters.EventNeverWild | src/input/hashed_event_register.rs:28-32 | an event is never looked up as the wildcard itself |
| EventRegisters.ClassifyFallsBack | src/input/hashed_event_register.rs:111-118 | an unbound event gives no reaction without a wildcard, and reaches the wildcard when there is one |
| EventRegisters.Parse | src/input/hashed_event_register.rs:212-224 | a description that parses names a key or a mouse action, never the wildcard or a resize |
| EventRegisters.FirstFailure | src/input/hashed_event_register.rs:212-224 | every description before the first failure parses, and the first failure does not |
| EventRegisters.ParsedSlotsNext | src/input/hashed_event_register.rs:219-222 | the keys of one more description are the earlier keys and its own |
| EventRegisters.ParsedNeverWild | src/input/hashed_event_register.rs:212-224 | descriptions never name the wildcard or the resize key |
| EventRegisters.Bind | src/input/hashed_event_register.rs:212-224 | binding a set of keys adds exactly them, maps each to the callback, and keeps every other binding |
| EventRegisters.BindStep | src/input/hashed_event_register.rs:219-222 | binding the key of one more description is a single map update |
| EventRegisters.UnbindStep | src/input/hashed_event_register.rs:267-272 | unbinding the key of one more description is a single removal |
| EventRegisters.CheckedStop | src/input/hashed_event_register.rs:243-256 | every description before the stop of a checked call parses |
| EventRegisters.CheckedStopHead | src/input/hashed_event_register.rs:250-255 | the checked loop stops at a description that does not parse or is refused, and otherwise goes on with its key bound |
| EventRegisters.FirstFailureAt | src/input/hashed_event_register.rs:212-224 | when the first `i` descriptions parse and the next does not, `i` is the first failure |
| EventRegisters.LookupAfterBind | src/input/hashed_event_register.rs:212-224 | after binding keys to a callback, their events find it and every other event is looked up as before |
| EventRegisters.LookupAfterUnbind | src/input/hashed_event_register.rs:267-272 | after unbinding keys, their events fall back to the wildcard and every other event is looked up as before |
| EventRegisters.DescriptionFound | src/input/hashed_event_register.rs:212-224 | every event equal to the key of a bound description finds the callback, wherever the description sits in the list |
| EventRegisters.OneResizeSlot | src/input/hashed_event_register.rs:172-187 | after `add_resize_event` every resize finds its callback; after `remove_resize_event` every resize falls back to the wildcard |
| EventRegisters.ShiftGAndCapitalG | src/input/mod.rs:302 | the descriptions `s-g` and `G` parse to the same key, `G` held with Shift |
| EventRegisters.RemapChecksNothing | src/input/hashed_event_register.rs:226-256 | corrected, with `remap` set, a checked call binds what an unchecked one binds |
| EventRegisters.CheckedKeepsBindings | src/input/hashed_event_register.rs:226-256 | corrected, without `remap`, a checked call never rebinds a key bound before the call |
| EventRegisters.CheckedRefusesBound | src/input/hashed_event_register.rs:226-256 | corrected, without `remap`, a key already bound stops the call |
| EventRegisters.AsWrittenOnlyRebinds | src/input/hashed_event_register.rs:253 | as written, a checked call binds only keys that were already bound, and without `remap` it binds nothing |
| EventRegisters.AsWrittenAddsNoKey | src/input/hashed_event_register.rs:253 | as written, a checked call never adds a key to the map |
| EventRegisters.CheckedCounterexample | src/input/hashed_event_register.rs:253 | `q` on an empty register with `remap` set panics as written, and is bound when corrected |
| EventRegisters.HashedEventRegister.constructor | src/input/hashed_event_register.rs:128-130 | a new register is empty |
| EventRegisters.HashedEventRegister.Get | src/input/hashed_event_register.rs:148-152 | `get` is the lookup on the current bindings |
| EventRegisters.HashedEventRegister.ClassifyInput | src/input/hashed_event_register.rs:115-117 | the looked-up callback applied to the event and the state |
| EventRegisters.HashedEventRegister.InsertWildEventMatcher | src/input/hashed_event_register.rs:141-146 | the wildcard is bound to the callback and nothing else changes |
| EventRegisters.HashedEventRegister.AddResizeEvent | src/input/hashed_event_register.rs:172-181 | the resize key is bound to the callback and nothing else changes |
| EventRegisters.HashedEventRegister.RemoveResizeEvent | src/input/hashed_event_register.rs:184-187 | the resize key is unbound and nothing else changes |
| EventRegisters.HashedEventRegister.AddEvents | src/input/hashed_event_register.rs:212-224 | panics exactly when a description does not parse; the keys of the descriptions before the first failure are bound to the callback |
| EventRegisters.HashedEventRegister.RemoveEvents | src/input/hashed_event_register.rs:267-272 | panics exactly when a description does not parse; the keys of the descriptions before the first failure are unbound |
| EventRegisters.HashedEventRegister.AddEventsCheckedAsWritten | src/input/hashed_event_register.rs:243-256 | as written: stops at the first description whose key is not bound or when `remap` is unset, binding the ones before |
| EventRegisters.HashedEventRegister.AddEventsChecked | src/input/hashed_event_register.rs:226-256 | corrected: stops at the first description whose key is already bound unless `remap` is set, binding the ones before |
| EventRegisters.HashedEventRegister.GenerateDefaultBindings | src/input/mod.rs:267-401 | unless a description fails to parse, the resize key ends up bound to the resize callback and the wildcard to the digit matcher |
| EventRegisters.BindDescriptions | src/input/hashed_event_register.rs:218-223 | the loop panics exactly when a description does not parse, and binds the keys of those before the first failure |
| EventRegisters.UnbindDescriptions | src/input/hashed_event_register.rs:268-271 | the loop panics exactly when a description does not parse, and unbinds the keys of those before the first failure |
| EventRegisters.BindChecked | src/input/hashed_event_register.rs:249-255 | the checked loop panics exactly when it stops before the end, and binds the keys before the stop |
| Terminal.Union | src/input/mod.rs:574-577 | the flags held in either set |
| Terminal.Intersection | src/input/mod.rs:577 | the flags held in both sets |
| Terminal.Lower | src/input/definitions/keydefs.rs:103 | every ASCII capital becomes the small letter and every other character is kept, at the same place |
| Tokens.TrimStart | src/input/definitions/mod.rs:16 | a suffix of the text that is empty or starts with a non-whitespace character |
| Tokens.TrimEnd | src/input/definitions/mod.rs:16 | a prefix of the text that is empty or ends with a non-whitespace character |
| Tokens.Trim | src/input/definitions/mod.rs:16 | a slice of the text that is empty or starts and ends with a non-whitespace character |
| Tokens.Flush | src/input/definitions/mod.rs:29-36 | an empty run makes no token, any other run exactly one |
| Tokens.ParseTokens | src/input/definitions/mod.rs:10-53 | panics exactly on a character outside ASCII or a text of only whitespace; otherwise the tokens of the trimmed text |
| Tokens.TextAppend | src/input/definitions/mod.rs:64-69 | the text of two token lists one after the other is their texts one after the other |
| Tokens.FlushText | src/input/definitions/mod.rs:29-36 | the token a run makes spells the run |
| Tokens.TokenizeWithText | src/input/definitions/mod.rs:38-50 | the tokens spell out the run read so far followed by the rest of the text |
| Tokens.TokenizeWithWellFormed | src/input/definitions/mod.rs:38-50 | the tokens are well formed: separators and runs without `-`, never two runs in a row |
| Tokens.RunAccumulates | src/input/definitions/mod.rs:44-46 | characters other than `-` only grow the run |
| Tokens.TokenizeText | src/input/definitions/mod.rs:10-53 | well-formed tokens are read back from their own text, so the tokenizer is one-to-one on well-formed token lists |
| Tokens.ModifierOf | src/input/definitions/mod.rs:55-62 | `m` is Alt, `c` is Control, `s` is Shift, and no other character is a modifier |
| Tokens.ModifierTokensWellFormed | src/input/definitions/mod.rs:55-62 | a modifier prefix followed by one run is well formed |
| KeyDefs.GenKeyEvent | src/input/definitions/keydefs.rs:66-124 | the token loop yields the key event the recursive reading `GenFrom` of the whole token list gives: its key, `Null` when none was read, and the modifiers collected; a panic where the loop panics |
| KeyDefs.ParseKeyEvent | src/input/definitions/keydefs.rs:59-63 | tokenizing the description and reading its tokens gives `KeyOf(text, SPECIAL_KEYS)`; a description the tokenizer refuses panics |
| KeyDefs.DoubleSeparatorPanics | src/input/definitions/keydefs.rs:73-80 | two separators in a row panic whatever follows and whatever was read before |
| KeyDefs.RepeatedModifierPanics | src/input/definitions/keydefs.rs:83-90 | a modifier letter followed by a separator panics when that modifier is already held |
| KeyDefs.SecondKeyPanics | src/input/definitions/keydefs.rs:91-115 | once a key has been read, a further character (not a modifier prefix) or named key panics |
| KeyDefs.ModifierStep | src/input/definitions/keydefs.rs:83-90 | a modifier letter and its separator add that modifier, when not yet held, and reading goes on after them |
| KeyDefs.ReadPrefix | src/input/definitions/keydefs.rs:72-90 | the tokens of a modifier prefix `c-`, `m-`, `s-` leave exactly those modifiers and no key |
| KeyDefs.DescriptionTokens | src/input/definitions/keydefs.rs:59-63 | a prefix followed by a run is ASCII, needs no trimming, and tokenizes to the prefix's tokens then the run |
| KeyDefs.TokensOfDescription | src/input/definitions/keydefs.rs:59-63 | tokenizing a prefix followed by a run gives the prefix's modifier tokens followed by that run |
| KeyDefs.KeyOfTokens | src/input/definitions/keydefs.rs:59-63 | an ASCII description with nothing to trim is read straight from its tokens |
| KeyDefs.LastKey | src/input/definitions/keydefs.rs:91-115 | a last single character becomes `Char` of it and a last known name becomes the key the table gives its lower case, the modifiers unchanged |
| KeyDefs.DescriptionKey | src/input/definitions/keydefs.rs:59-124 | round trip: a modifier prefix followed by a character or a known name parses to that key with exactly those modifiers |
| KeyDefs.NamedKeyRoundTrip | src/input/definitions/keydefs.rs:59-124 | round trip for named keys: `<prefix><name>` parses to the table's key for the name with exactly the prefix's modifiers |
| KeyDefs.CharKeyRoundTrip | src/input/definitions/keydefs.rs:59-124 | round trip for characters: `<prefix><c>` parses to `Char(c)` with exactly the prefix's modifiers, even when `c` is itself a modifier letter |
| KeyDefs.PlainNameFacts | src/input/definitions/keydefs.rs:9-43 | a name of the kind the table holds is ASCII, holds no separator or whitespace, and is its own lower case |
| KeyDefs.ParseCtrlShift | src/input/definitions/keydefs.rs:311-319 | `c-s-h` is `h` with Control and Shift |
| KeyDefs.ParseShift | src/input/definitions/keydefs.rs:212-220 | `s-g` is a small `g` with Shift |
| KeyDefs.ParseCapital | src/input/definitions/keydefs.rs:221-229 | `G` is a capital `G` with no modifier |
| KeyDefs.ParseNamed | src/input/definitions/keydefs.rs:131-139 | `up` is the Up key with no modifier, under any table naming `up` so |
| KeyDefs.UpIsNamed | src/input/definitions/keydefs.rs:16 | the key table maps `up` to the Up key |
| KeyDefs.SeparatorAfterModifierAccepted | src/input/definitions/keydefs.rs:83-90 | the separator a modifier takes along is not checked for a second one: `c--x` reads as Control+x rather than panicking |
| MouseDefs.GenMouseEvent | src/input/definitions/mousedefs.rs:34-92 | the token loop yields the event the recursive reading `MouseFrom` of the whole token list gives, at cell (0, 0), and panics where that reading panics or finds no action |
| MouseDefs.ParseMouseEvent | src/input/definitions/mousedefs.rs:29-32 | tokenizing the description and reading its tokens gives `MouseOf(text, MOUSE_ACTIONS)`; a description the tokenizer refuses panics |
| MouseDefs.NonModifierPanics | src/input/definitions/mousedefs.rs:50-55 | a single character other than `c`, `m`, `s` panics |
| MouseDefs.SecondActionPanics | src/input/definitions/mousedefs.rs:70-81 | a second action panics, once one has been read |
| MouseDefs.MouseModifierStep | src/input/definitions/mousedefs.rs:56-63 | a modifier letter and its separator add that modifier, when not yet held, and reading goes on after them |
| MouseDefs.ReadMousePrefix | src/input/definitions/mousedefs.rs:40-69 | the tokens of a modifier prefix leave exactly those modifiers and no action |
| MouseDefs.MouseOfTokens | src/input/definitions/mousedefs.rs:29-32 | an ASCII description with nothing to trim is read straight from its tokens |
| MouseDefs.MouseRoundTrip | src/input/definitions/mousedefs.rs:29-92 | round trip: `<prefix><name>` for a name in the table parses to that action with exactly the prefix's modifiers |
| MouseDefs.PrefixTokens | src/input/definitions/mousedefs.rs:29-32 | a non-empty modifier prefix needs no trimming and tokenizes to its modifier tokens |
| MouseDefs.PrefixOnlyPanics | src/input/definitions/mousedefs.rs:87 | modifiers without an action name no mouse event and panic |
| MouseDefs.ParseLeftDown | src/input/definitions/mousedefs.rs:101-109 | `left:down` is the table's action for it with no modifier |
| MouseDefs.ParseAltLeftDown | src/input/definitions/mousedefs.rs:152-160 | `m-left:down` is that action with Alt |
| MouseDefs.ParseCtrlScrollUp | src/input/definitions/mousedefs.rs:171-179 | `c-scroll:up` is the scroll-up action with Control |
| MouseDefs.ExampleActions | src/input/definitions/mousedefs.rs:10-23 | the action table maps `left:down` to a left-button press and `scroll:up` to scrolling up |
| InputParser.ParseKeyEventAsWritten | src/input/input-parser/mod.rs:73-168 | the older parser, with its table as written (`Delete` capitalised), reads a description as `KeyOf(text, SPECIAL_KEYS_AS_WRITTEN)`: ASCII check, trim, tokenize, then the same token loop |
| InputParser.ParseKeyEvent | src/input/input-parser/mod.rs:73-168 | the same parser with the corrected table, whose delete key is named `delete`, reads a description as `KeyOf(text, SPECIAL_KEYS)` |
| InputParser.LowerHasNoCapital | src/input/input-parser/mod.rs:151 | a name lower-cased for the lookup has no capital letter |
| InputParser.GenFromAvoids | src/input/input-parser/mod.rs:117-168 | when every name of a non-character key has a capital letter, the token loop never yields that key, from any state that does not already hold it |
| InputParser.AsWrittenDeleteCapitalised | src/input/input-parser/mod.rs:24 | in the table as written, every name of the delete key has a capital letter |
| InputParser.DeleteUnreachable | src/input/input-parser/mod.rs:151-152 | with such a table, no description parses to the delete key (also line 24) |
| InputParser.DeleteCounterexample | src/input/input-parser/mod.rs:24 | `delete` does not give the delete key with the table as written, and does give it with the corrected table |
| InputParser.DeleteParses | src/input/input-parser/mod.rs:151-152 | with the corrected table, `delete` after any modifier prefix parses to the delete key with exactly those modifiers (also line 24) |
| InputParser.CorrectionOnlyRenames | src/input/input-parser/mod.rs:8-41 | the corrected table differs from the table as written only in the delete key's name |
| Commands.EqCharacterised | src/core/commands.rs:50-69 | two commands are equal exactly when they are the same payload-carrying command (text, prompt, message, wrapping, line numbers, prompt visibility, exit strategy, run-no-overflow) or both carry a closure of one kind |
| Commands.EqPartialEquivalence | src/core/commands.rs:50-69 | the hand-written equality is symmetric and transitive |
| Commands.EqReflexiveExactly | src/core/commands.rs:50-69 | a command equals itself exactly when it carries a payload or a closure: user input (an exit included), `FollowOutput` and both redraw commands do not |
| Commands.ExitAndMovement | src/core/commands.rs:97-107 | only `UserInput(Exit)` is an exit; an exit is no movement; every `UpdateUpperMark` is a movement; neither equals any command |
| PagerEvents.EqCharacterised | src/core/events.rs:30-48 | two events are equal exactly when they are the same payload-carrying event or both carry a closure of one kind; user input equals nothing, itself included |
| PagerEvents.EqPartialEquivalence | src/core/events.rs:30-48 | the hand-written equality is symmetric and transitive |
| PagerEvents.ImmediateUpdates | src/core/events.rs:70-87 | only `UserInput(Exit)` is an exit; exits and movements need an immediate redraw; of the other events exactly new text, a new prompt and a message do, and appended text does not |
| OldEventHandler.StepKeepsFormatted | src/utils/ev_handler.rs:28-128 | every event whose effect lies inside the handler keeps the rows the layout of the current text, settings and width; none of them panics but `PrevMatch` |
| OldEventHandler.UpperMarkUnclamped | src/utils/ev_handler.rs:38 | `UpdateUpperMark` sets the mark to exactly the value given, past the end of the text too, and changes nothing else |
| OldEventHandler.MessageThenRestore | src/utils/ev_handler.rs:39-44 | a message is stored wrapped to the width and flagged new; restoring the prompt clears both, so a message then a restore ends where a restore alone ends (also lines 114-117) |
| OldEventHandler.TermAreaIdempotent | src/utils/ev_handler.rs:45-50 | a resize takes the new rows and columns, lays the text out for them, and repeating it changes nothing |
| OldEventHandler.ToggleTwice | src/utils/ev_handler.rs:51-54 | switching the line numbers to their opposite and back restores a laid-out state exactly |
| OldEventHandler.NextMarkSteps | src/utils/ev_handler.rs:86-97 | before `next_match`, the search mark moves one forward exactly when it is below the last match and the page ends before the text does, it panics exactly when `upper_mark + rows` overflows there, and only the mark changes |
| OldEventHandler.PrevMarkSteps | src/utils/ev_handler.rs:99-111 | with no matches nothing happens; otherwise the mark steps back, stopping at zero, the page moves up to that match when it lies above and never down, and a mark more than one past the index panics |
| OldEventHandler.PrevUndoesNext | src/utils/ev_handler.rs:86-111 | a step back of the search mark undoes a step forward |
| OldEventHandler.NoTermNoNavigation | src/utils/ev_handler.rs:86-127 | without a search term, `NextMatch` and `PrevMatch` change nothing |
| OldEventHandler.ExitRunsCallbacks | src/utils/ev_handler.rs:33-36 | exiting runs the exit callbacks in the order added, the latest last, raises the exit flag and changes nothing else (also line 126) |
| OldEventHandler.PagerState.constructor | src/utils/ev_handler.rs:24 | the state object holds exactly the given state |
| OldEventHandler.PagerState.Load | src/utils/ev_handler.rs:112 | the state object takes over a state computed outside the handler, as `append_str` and the search arm return it |
| OldEventHandler.PagerState.FormatLines | src/utils/ev_handler.rs:31 | only the rows change, to the layout of the text under the current settings and width |
| OldEventHandler.PagerState.HandleEvent | src/utils/ev_handler.rs:21-130 | the handler succeeds exactly when `Step` does, and the new state is the one `Step` gives |
| OldEventHandler.PagerState.HandleInput | src/utils/ev_handler.rs:33-127 | the user-input arms succeed exactly when `Input` does and leave the state `Input` gives |
| OldEventHandler.PagerState.LayoutInput | src/utils/ev_handler.rs:39-84 | restoring the prompt, a resize, a line-number change and a search leave the state `Input` gives, laid out again, and never panic |
| OldEventHandler.PagerState.MarkInput | src/utils/ev_handler.rs:86-111 | exiting and moving the marks succeed exactly when `Input` does and leave the state it gives (also lines 33-38) |
| OldEventHandler.PagerState.NextMatchArm | src/utils/ev_handler.rs:86-97 | the `NextMatch` arm with a term succeeds exactly when `NextMark` does and leaves `next_match` applied to its state |
| OldEventHandler.PagerState.PrevMatchArm | src/utils/ev_handler.rs:99-111 | the `PrevMatch` arm with a term changes only the search fields and the upper mark, succeeds exactly when `PrevMark` does and leaves the state it gives |
| CoreEventHandler.Settle | src/core/ev_handler.rs:199-213 | the settled search mark is at most the chosen one; it is the first match or one whose page fits in the text plus the prompt row; every match after it up to the chosen one does not fit |
| CoreEventHandler.SettleMark | src/core/ev_handler.rs:203-213 | the loop stepping the search mark back ends on the mark `Settle` gives |
| CoreEventHandler.UpperMarkClamped | src/core/ev_handler.rs:47-62 | `UpdateUpperMark` panics exactly when the view moves on a terminal taller than 16 bits, as the prompt redraw of `draw_for_change` does (src/core/utils/display/mod.rs:109); otherwise it sets the page start to the smaller of the target and the start of the last full page, so the page never runs past the text; repeating it changes nothing, and nothing else changes |
| CoreEventHandler.LeftMarkMoves | src/core/ev_handler.rs:63-69 | with wrapping on the left mark never moves; with wrapping off a move is refused exactly when it goes right and the page would run past the longest line, and is otherwise taken, the full redraw pulling the upper mark back to the last full page; nothing else changes (also line 325) |
| CoreEventHandler.RestoreClearsMessage | src/core/ev_handler.rs:70-74 | restoring the prompt drops the message and queues a prompt redraw, and changes nothing else |
| CoreEventHandler.LayoutChangesQueueRedraw | src/core/ev_handler.rs:75-84 | a resize, a line-number change and a wrapping change each set their field and queue a full redraw, and that redraw lays the text out for the new setting and pulls the upper mark back so the page ends at or before the last row, changing nothing else (also lines 247-255) |
| CoreEventHandler.NoTermNoNavigation | src/core/ev_handler.rs:137-245 | without a search term no match-navigation input changes anything (also line 325) |
| CoreEventHandler.PrevNMoves | src/core/ev_handler.rs:221-245 | `MoveToPrevMatch(n)` for n other than 1: no matches, no change; otherwise the mark steps back n, stopping at zero, the page stays, and a move then a prompt redraw are queued exactly when that match lies above the page |
| CoreEventHandler.PrevOneMoves | src/core/ev_handler.rs:158-182 | `PrevMatch` steps the mark back one, moves the page itself up to that match when it lies above (never down), and then queues the prompt redraw before the move |
| CoreEventHandler.NextOneMoves | src/core/ev_handler.rs:137-156 | `NextMatch` panics exactly when the chosen position lies outside the index; with no position nothing changes; otherwise the mark goes there and a move to its line is queued before the prompt redraw |
| CoreEventHandler.SearchPositionInside | src/core/search.rs:386-403 | the position `next_nth_match` chooses exists exactly when there are matches and then lies inside the index, so `NextMatch` cannot panic |
| CoreEventHandler.NextNSettles | src/core/ev_handler.rs:184-219 | `MoveToNextMatch(n)` (corrected loop) ends on a match no later than the chosen one, whose page fits unless it is the first; it keeps the chosen match when that one fits, and queues a move to the settled match's line before the prompt redraw |
| CoreEventHandler.FollowQueuesMove | src/core/ev_handler.rs:317-324 | `FollowOutput` sets the flag and queues a move to the end of the text and a prompt redraw, the same as a command and as user input |
| CoreEventHandler.SetDataLaysOut | src/core/ev_handler.rs:34-41 | new text is stored, laid out afresh and its lines counted, and nothing is queued; while the pager runs the full redraw pulls the upper mark back to the last full page of the new layout, otherwise the mark stays |
| CoreEventHandler.AppendFollows | src/core/ev_handler.rs:256-281 | appending takes the new screen, a full redraw while the pager runs pulls the upper mark back to the last full page, and a move to the new end is queued exactly when the pager runs, no full redraw is needed and output is followed |
| CoreEventHandler.SettingsAndExit | src/core/ev_handler.rs:42-46 | setting the exit strategy or adding an exit callback changes that field alone; exiting then runs the callbacks in the order added and raises the exit flag (also lines 305 and 315) |
| CoreEventHandler.RedrawPromptIsPure | src/core/ev_handler.rs:301-304 | a prompt redraw changes no state |
| CoreEventHandler.SettleAsWritten | src/core/ev_handler.rs:203-213 | the loop as written, when it ends, ends on a mark no later than the chosen one with a page start that fits |
| CoreEventHandler.SettleAsWrittenHangs | src/core/ev_handler.rs:203-213 | the loop as written never ends exactly when neither the current page nor the page at any earlier match fits |
| CoreEventHandler.ShortTextHangs | src/core/ev_handler.rs:203-204 | on a text with fewer rows than the screen less one, the loop as written never ends, whatever the matches |
| CoreEventHandler.MoveToNextMatchHangs | src/core/ev_handler.rs:184-219 | a two-row text on a ten-row screen with a match on line 1: `MoveToNextMatch(2)` as written never returns, while the corrected arm marks that match and queues a move to it |
| CoreEventHandler.PagerState.constructor | src/core/ev_handler.rs:28 | the state object holds exactly the given state |
| CoreEventHandler.Redrawn | src/core/utils/display/mod.rs:255-265 | the state `draw_full` leaves: the page then ends at or before the last row, a page that already did is left alone, and only the upper mark changes |
| CoreEventHandler.PagerState.DrawFull | src/core/utils/display/mod.rs:255-265 | computes the lower mark and, when it runs past the last row, sets the upper mark to the row count less the writable rows, giving `Redrawn` of the old state |
| CoreEventHandler.PagerState.FormatLines | src/core/ev_handler.rs:253 | only the screen's rows change, to the layout of the text under the current settings, width and wrapping (also lines 36, 296 and 308) |
| CoreEventHandler.CommandQueue.constructor | src/core/ev_handler.rs:29 | a new queue is empty |
| CoreEventHandler.CommandQueue.PushBack | src/core/ev_handler.rs:73-79 | pushing appends the command at the back and keeps the rest |
| CoreEventHandler.ExitFlag.constructor | src/core/ev_handler.rs:30 | the exit flag starts lowered |
| CoreEventHandler.HandleEvent | src/core/ev_handler.rs:25-328 | handling a command other than a search succeeds exactly when `Step` does, and leaves the pager state, the queue and the exit flag as `Step` gives them |
| CoreEventHandler.Configure | src/core/ev_handler.rs:252-316 | the commands that touch only the pager state leave it as `Step` gives it (also lines 34-41) |
| CoreEventHandler.RelayoutArm | src/core/ev_handler.rs:294-309 | new text, a full redraw, a line-number change and a wrapping change leave the state `Step` gives, laid out again, with the upper mark pulled back by the full redraw of new text while running and of `FormatRedrawDisplay` (also lines 34-41 and 252-255) |
| CoreEventHandler.SettingArm | src/core/ev_handler.rs:283-316 | the prompt, message and settings commands set their one field as `Step` gives |
| CoreEventHandler.FollowArm | src/core/ev_handler.rs:317-324 | the follow flag takes the value given and a move to the end then a prompt redraw are queued |
| CoreEventHandler.HandleInput | src/core/ev_handler.rs:137-250 | the user-input arms other than a search succeed exactly when `Input` does and leave the state, queue and flag it gives (also lines 42-84 and 317-325) |
| CoreEventHandler.RedrawInput | src/core/ev_handler.rs:70-84 | restoring the prompt, a resize, a line-number change, a wrapping change and following output leave what `Input` gives (also lines 247-250 and 317-324) |
| CoreEventHandler.UpperMarkArm | src/core/ev_handler.rs:47-62 | fails exactly when the clamped target differs from the pulled-back mark on a terminal taller than 16 bits; otherwise the page start ends as the target clamped to the last full page |
| CoreEventHandler.NavigateArm | src/core/ev_handler.rs:137-245 | the navigation arms with a search term succeed exactly when `Navigate` does and leave what it gives |
| CoreEventHandler.NextArm | src/core/ev_handler.rs:137-219 | the next-match arms succeed exactly when `NextOne` (n = 1) or `NextN` does and leave what it gives |
| CoreEventHandler.PrevArm | src/core/ev_handler.rs:158-245 | the previous-match arms leave what `PrevOne` (n = 1) or `PrevN` gives |

## Left out

- Terminal output is not modelled: the bytes written, cursor moves, clearing, scrolling escapes, raw mode and `process::exit` (src/core/term.rs, src/utils/term.rs, src/core/utils/term.rs). The drawing modules keep the rows chosen, the upper mark and the panics of the 16-bit coordinates, not the output. I/O errors returned by writes are not modelled.
- `fetch_input` (src/core/search.rs:240-299) reads the search query from the terminal. It is not modelled, and neither is its `rows.try_into().unwrap()`.
- The `Search` arm of src/core/ev_handler.rs:86-135 needs `fetch_input` and a condition variable, so it is not modelled. `CoreEventHandler.HandleEvent`, `CoreEventHandler.Step` and `CoreEventHandler.HandleInput` require the input not to be a search.
- In the older handler (src/utils/ev_handler.rs:56-84), reading the query and indexing the matches is a parameter. So is `search::next_match`.
- CoreEventHandler.HandleEvent: the `SetPrompt`, `SendMessage`, `SetLineNumbers` and `FormatRedrawPrompt` arms rebuild and write the displayed prompt. Only the stored prompt and message are modelled. The `p.rows.try_into().unwrap()` panic of those writes (src/core/ev_handler.rs:291, 298, 303) is not modelled.
- The effects the newer event handler delegates are parameters of its `Env`: `format_lines`, `append_str` and `search::next_nth_match`, in the signatures it calls them with. Those signatures are not part of this model. `CoreEventHandler.SearchPositionInside` shows what the `Search` model's own `next_nth_match` gives.
- `CommandQueue` (src/core/mod.rs) is not part of this model. `push_back` and `push_back_unchecked` are both modelled as appending at the back.
- Event loops, threads, locks and channels are not modelled: src/core/init.rs, src/init.rs, src/input/reader.rs, src/rt_wrappers*, src/pager.rs, src/static_pager.rs, src/dynamic_pager.rs and src/threads_pager.rs. The numeric prefix those loops accumulate reaches the model as the `count` parameter of the input callbacks.
- `textwrap::wrap` is a function parameter (`Common.Wrapper`). The only thing assumed of it is that it returns at least one row.
- The `regex` crate is not modelled. The ANSI-escape pattern arrives as the line already split into characters and escapes. The WORD pattern of src/core/search.rs:30-31 is modelled by the character classes of `Search.ClassOf`, over ASCII only. A query's matches arrive as ordered, non-empty, non-overlapping positions, so empty matches are not modelled.
- Closures are opaque numbers: exit callbacks, input classifiers and incremental-search conditions. Running an exit callback is recorded as its number.
- The `f64::log10` gutter width of src/utils.rs:207 is replaced by the decimal length `Common.Digits`. The debug assertion at src/utils.rs:208 states that the two agree.
- `EXTRA_PADDING` is used in src/screen/mod.rs and src/core/screen_line.rs, but its definition is not part of this model. The model takes 5, and no proof depends on the value.
- `PagerState::formatted_line` is called by `make_append_str` (src/core/utils/text.rs) and is not part of this model. `TextAppend` is generic over a per-line formatter instead.
- `text::format_text_block` is called by src/state.rs and is not part of this model. `PagerStates` uses the `format_text_block` of src/screen/mod.rs.
- The following are unfinished or do not compile, and are not modelled: src/line.rs, src/screen.rs, src/screen/data_source.rs and src/data_store.rs.
- src/error.rs is error plumbing and is not modelled, and neither are the example programs. The test files serve only as the source of the example lemmas.
- LegacyPager.Pager.FormatLines: the search-highlighting branch (src/lib.rs:457-464, 493-498) and `set_match_indices` (510-511) are not modelled. The rows stated are those with no search term. The gutter is the test build's ` {n}. `, without the bold attribute escapes of the normal build (src/lib.rs:466-474).
- LegacyPager.Pager.Exit: the callbacks are recorded in order, not run.
- EventRegisters.HashedEventRegister.GenerateDefaultBindings: states only that the resize and wildcard entries are bound when no default description panics. That none of them panics is not proved, and the table `DefaultGroups` carries no contract.
- OldEventHandler.Step: the older handler has no arm for `IncrementalSearchCondition`. It is modelled as changing nothing.
- OldEventHandler.Step: `upper_mark + rows` in the `NextMatch` arm is modelled as panicking past `usize::MAX`, as in a debug build.
- InputHandler: the older `crossterm` key events have no kind or state, and the handler does no case normalisation. The model's key events carry both fields, and the handler ignores them.
- PagerStates.DisplayedPrompt: lengths are counted in characters, where src/state.rs:283-287 counts UTF-8 bytes and cuts the prompt at a byte index. For a prompt with non-ASCII text the source pads by bytes and can panic on a cut inside a character ("ééé" in five columns); the model states the ASCII behaviour only.
- PagerStates.PromptOf: counts characters, not UTF-8 bytes, as `PagerStates.DisplayedPrompt` does.
- PagerStates.PromptLayout: states the layout in characters; for non-ASCII prompt text the source's byte-based layout and its panics are not captured.
- PagerStates.BuildPrompt: counts characters, not UTF-8 bytes, as `PagerStates.DisplayedPrompt` does.
- PagerStates.PagerState.FormatPrompt: counts characters, not UTF-8 bytes, so the panic of a cut inside a non-ASCII character is not modelled.
- PagerStates.PagerState.FormatLines: the search indexes `search_idx` rebuilt from `append_search_idx` (src/state.rs:234-237) are not modelled, because matching needs the `regex` crate. The rows stated are those with no search term: with a term, matching rows are highlighted (src/screen/mod.rs:551-562), and that is not modelled. The open rows, line map and prompt are.
- PagerStates.PagerState.AppendStr: the extension of `search_idx` by the block's matches (src/state.rs:375-379) is not modelled, for the same reason. The rows appended are those with no search term; the highlighting of matching rows (src/screen/mod.rs:551-562) is not modelled.
- ScreenText.LineRows: the rows stated are those with no search term; with a term, `formatted_line` highlights the rows that match (src/screen/mod.rs:551-562), which needs the `regex` crate and is not modelled.
- ScreenText.FormattedLine: the rows stated are those with no search term; the highlighting of matching rows (src/screen/mod.rs:551-562) is not modelled, for the same reason.
- Search.SearchOpts.HandleKeyPress: the query and cursor are counted in characters. The source keeps a UTF-8 byte offset (src/core/search.rs:110-131, 211, 220), so after a non-ASCII character its `insert` and `remove` can panic (type "é", then "x"); the model states the ASCII behaviour only.
- Search.EditKeepsRange: holds for character offsets; the byte offsets of non-ASCII queries are not modelled.
- Search.MoveKeepsRange: holds for character offsets; the byte offsets of non-ASCII queries are not modelled.
- Search.KeyStepKeepsRange: holds for character offsets; the byte offsets of non-ASCII queries are not modelled.
- Search.InsertThenBackspace: holds for character offsets; in the source a non-ASCII character moves the cursor by one byte only.
- Search.BackspaceThenInsert: holds for character offsets; the byte offsets of non-ASCII queries are not modelled.
- Search.DeleteUnderCursor: holds for character offsets; the byte offsets of non-ASCII queries are not modelled.
- Search.LeftRightInverse: holds for character offsets; the byte offsets of non-ASCII queries are not modelled.
- Search.EndsAndFinish: `End` moves to the length in characters, where the source takes `string.len()` in bytes.
- Search.WordStartsFrom: the word classes are ASCII. `\w` of the `regex` crate is Unicode, so a non-ASCII letter is a word character in the source and a match of its own in the model, and the source's offsets are bytes.
- Search.WordStartsExact: exact for the ASCII word classes of `Search.ClassOf`, not for Unicode `\w`, and in characters, not bytes.
- Search.WordIndex: exact for the ASCII word classes of `Search.ClassOf`, not for Unicode `\w`, and in characters, not bytes.
- Search.CtrlLeftNearestWord: uses the ASCII word starts of `Search.WordIndex`, in characters.
- Search.CtrlRightNearestWord: uses the ASCII word starts of `Search.WordIndex`, in characters.
- ScreenText.FormattedLine: the rows are those of the test build. The normal build wraps the number of the first row in bold and reset escapes (src/screen/mod.rs:570-591); those escapes are not modelled.
- ScreenText.GutterLayout: the gutter is the test build's, without the bold and reset escapes of the normal build (src/screen/mod.rs:570-591).
- ScreenText.GutterWidth: the width is that of the test build's gutter; the normal build's escapes add to the row's length (src/screen/mod.rs:570-591).
- ScreenLines.FormattedLineLayout: the rows are those of the test build, without the bold and reset escapes of the normal build (src/core/screen_line.rs:84-105).
- `str::lines` (`Common.Lines`) is taken as older releases of the Rust standard library define it: a '\r' at the very end of the text, with no '\n' after it, is stripped; later releases keep it. `PagerStates.LinesOfPiece` states that older behaviour for a piece ending in '\r'; `Common.UnterminatedLines` excludes that case and holds under both. The Findings rows on src/screen/mod.rs:102-103, 369-385 and on src/state.rs:331-336 hold only under the older behaviour.
- PagerStates.LinesOfPiece: strips a final '\r' of a piece with no newline, as older releases of the standard library do; later releases keep it.
- CoreEventHandler.Step: the `AppendData` arm does not model the panic of `draw_append_text` when the cursor row does not fit in 16 bits (src/core/utils/display/mod.rs:168-176), nor the conversion error of `draw_full`. The `UpdateUpperMark` arm does model the panic of `draw_for_change`.
- CoreEventHandler.Step: `draw_full` returns `MinusError::Conversion` when the terminal has more rows than fit in 16 bits (src/core/utils/display/mod.rs:145). The `SetData` arm while running, the taken `UpdateLeftMark`, `FormatRedrawDisplay` and the full-redraw `AppendData` while running return `Ok` with the state the source leaves behind when it reports that error: the text laid out and the upper mark already pulled back. `Result` here has no error other than a panic, so the error itself is not signalled.
- CoreEventHandler.HandleEvent: does not signal `draw_full`'s conversion error on a terminal taller than 16 bits, as `CoreEventHandler.Step` above.
- CoreEventHandler.HandleInput: does not signal `draw_full`'s conversion error after a taken `UpdateLeftMark`, as `CoreEventHandler.Step` above.
- CoreEventHandler.Configure: the `SetData` and `FormatRedrawDisplay` arms do not signal `draw_full`'s conversion error, as `CoreEventHandler.Step` above.
- CoreEventHandler.RelayoutArm: the `SetData` and `FormatRedrawDisplay` arms do not signal `draw_full`'s conversion error, as `CoreEventHandler.Step` above.
- CoreEventHandler.SetDataLaysOut: does not state `draw_full`'s conversion error on a terminal taller than 16 bits while running, as `CoreEventHandler.Step` above.
- CoreEventHandler.LayoutChangesQueueRedraw: does not state the conversion error of the queued redraw's `draw_full`, as `CoreEventHandler.Step` above.
- CoreEventHandler.AppendFollows: does not state `draw_full`'s conversion error on a full redraw while running, as `CoreEventHandler.Step` above.
- CoreEventHandler.LeftMarkMoves: does not state `draw_full`'s conversion error after a taken move, as `CoreEventHandler.Step` above.

## Findings

| source | as written | input that shows it | evidently intended | confidence | as-written member | corrected member |
|---|---|---|---|---|---|---|
| src/input/hashed_event_register.rs:253 | the checked add asserts that each key is already bound and that `remap` is set, so it panics on every new key and whenever `remap` is unset | `q` on an empty register with `remap` set panics | panic only when the key is already bound and `remap` is unset | high; not executed | EventRegisters.HashedEventRegister.AddEventsCheckedAsWritten, EventRegisters.AsWrittenOnlyRebinds, EventRegisters.CheckedCounterexample | EventRegisters.HashedEventRegister.AddEventsChecked, EventRegisters.CheckedKeepsBindings, EventRegisters.RemapChecksNothing |
| src/lib.rs:406-416 | a string that holds a newline but does not end with one completes its first line without the pending fragment, and glues the fragment to the text after the last newline | pending "ab", then push "c\nd": the line "c" is completed and "abd" is left pending | complete "abc" and leave "d" pending, the same as pushing "abc\nd" at once | high; not executed | LegacyPager.PushStepAsWritten, LegacyPager.PushAsWrittenCounterexample, LegacyPager.AsWrittenPushesC | LegacyPager.PushStep, LegacyPager.PushAllIsWhole, LegacyPager.CorrectedPushesAbc |
| src/screen/mod.rs:420-421 | the longest-line counter compares the number of lines with the counter, not the length of the line | lines "aaaa", "bbbbbbbb", "c" give 4 | 8, the length of the longest line | high; not executed | ScreenText.MaxLineLengthCounterexample | ScreenText.FormatTextBlock, Blocks.MaxLenIsLongest |
| src/screen/mod.rs:102-103, 350-352 | on an attached push the open rows are cut off the buffer, then the row index handed to the formatter is reduced by the open-row count a second time | rows ["x", "ab"] with "ab" open, push "c\n": the row map records row 0 for the line at row 1 | record the row where the rewritten line starts | high; not executed | ScreenText.PushRowStartCounterexample | ScreenText.StartRow, ScreenText.Screen.PushScreenBuf |
| src/core/utils/text.rs:91 | the last line of an appended block is numbered `placement + size` | "a\nb" with a formatter that writes the line index gives rows ["0", "2"] | ["0", "1"]: the last line's index is `placement + size - 1` | high; not executed | TextAppend.MakeAppendStrAsWritten, TextAppend.AsWrittenNumbersLastLineOnePast, TextAppend.AsWrittenCounterexample | TextAppend.MakeAppendStr, TextAppend.MakeAppendStrIsFormatTextBlock |
| src/input/input-parser/mod.rs:24 | the delete key is entered as `Delete`, but names are lower-cased before the lookup | `delete` (or `Delete`) never parses to the delete key | the entry `delete`, as in src/input/definitions/keydefs.rs:25 | high; not executed | InputParser.ParseKeyEventAsWritten, InputParser.AsWrittenDeleteCapitalised, InputParser.DeleteCounterexample | InputParser.ParseKeyEvent, InputParser.DeleteParses |
| src/screen/mod.rs:102-103, 369-385 | a push reopens and cuts the open rows even when the glued text has no line to put in their place, and the report repeats the old open-row count | push "\r", then "": no rows are left but one is counted as open, and the next push underflows `formatted_lines.len() - unterminated` | keep the rows when the block has no line | medium, under the older `str::lines` named in Left out; not executed | ScreenText.PushAsWrittenCounterexample | ScreenText.PushOnto, ScreenText.PushKeepsValid |
| src/state.rs:331-336 | the attachment is taken from `str::lines`, which drops a trailing '\r' of the open line | push "a\r", then "b": the line formatted is "ab" | "a\rb", the line of the whole text | medium, under the older `str::lines` named in Left out; not executed | PagerStates.AttachmentAsWritten, PagerStates.AttachmentAsWrittenCounterexample | PagerStates.OpenAttachment |
| src/core/display/mod.rs:81-84 | the distance of a move up is converted to 16 bits with `unwrap`, so a long jump up panics | a jump from 70000 to 0 on a ten-row terminal | repaint the page at the new mark, as any move longer than a page does | medium; not executed | CoreDraw.Draw2PlanAsWritten, CoreDraw.Draw2AsWrittenCounterexample | CoreDraw.Draw2Plan, CoreDraw.Draw2PlansAgree |
| src/core/display/mod.rs:26 | the distance of the move is taken to the mark asked for before it is clamped to the last full page (lines 37-39), and both scroll amounts use it | 100 rows of text, ten-row terminal, mark 90, asked for 95: the clamped mark is 91, the terminal scrolls up five rows and writes row 99, so only rows 95 to 99 are in sight; from mark 95, asking for 200000 panics on a 16-bit scroll of 199905 | measure the distance to the clamped mark, as `draw_for_change` does (src/core/utils/display/mod.rs:45) | medium; not executed | CoreDraw.Draw2PlanAsWritten, CoreDraw.Draw2ClampCounterexample, CoreDraw.Draw2 | CoreDraw.Draw2Plan, CoreDraw.Draw2DownShowsPage |
| src/input/mod.rs:574-581 | the horizontal-scroll test is `CONTROL.intersection(SHIFT)`, which is empty, so it matches a plain `h` and shadows the left-move arm | plain `h` toggles wrapping, and Control+Shift+`h` is ignored | Control+Shift+`h` toggles wrapping, and plain `h` moves left | high; not executed | Inputs.PlainHScrollsAsWritten | Inputs.PlainHMovesLeft |
| src/core/ev_handler.rs:203-213 | the settle loop of `MoveToNextMatch(n)` tests the current upper mark, not the match it steps to, and stops stepping at the first match without leaving the loop | a two-row text on a ten-row screen with one match: `MoveToNextMatch(2)` never returns | settle on the last match whose page fits, or on the first match | high; not executed | CoreEventHandler.SettleAsWritten, CoreEventHandler.SettleAsWrittenHangs, CoreEventHandler.ShortTextHangs, CoreEventHandler.MoveToNextMatchHangs | CoreEventHandler.Settle, CoreEventHandler.SettleMark, CoreEventHandler.NextNSettles |
