# markup_view layout engine, in Dafny

This project models the core of `view.cpp`, a viewer for cell files. A cell
file is a flat sequence of byte pairs: a character and its background colour.
The viewer has five parts, and each is modelled here:

- **Loading** turns the pairs into a cell buffer. It refuses a file of odd length.
- **Paragraph split** cuts the buffer into paragraphs at newline cells (`0x0A`).
  A trailing run without a newline is a paragraph only when it is non-empty or
  the whole file is empty.
- **Layout** wraps every paragraph into display lines of the grid width. An
  empty paragraph takes one line; a paragraph of L cells takes ceil(L / width).
  The result is a display-line table ordered by paragraph, then by line.
- **Viewport** holds the grid width (20 to 200, 80 at load) and the two scroll
  offsets. A re-layout clamps the offsets, and the key handler moves them. The
  grid shows 40 rows.
- **Painting** maps row y, column x to a cell of the buffer through the table.
  It also prints, at the head of each row, the file offset of the row's first cell.

The command-line parser and the background palette are modelled as well.

Modules, one per component:

- `Wrappers`: Option and Result.
- `CellStore`: cells and the file format.
- `ParagraphIndex`: the paragraph split, as a specification.
- `Layout`: display lines and position arithmetic.
- `Viewport`: views and keys.
- `Palette`: the background palette.
- `CommandLine`: the command-line parser.
- `TextViewer`: the program's globals, gathered into the class `Viewer`.

The `Viewer` class keeps the three arrays of the program: the buffer, the
paragraph index and the display-line table. Its methods do what
`LoadTextFile`, `RecalculateLayout` and the `WM_KEYDOWN` handler do, with the
same loops. Each method is proved against the value-level specification
functions, whose properties are proved as lemmas.

Every method's `ensures` gives its result on success in full. For the class
methods, the new state is given by `Valid()` together with the view equations.
When the command-line parser fails, its helper methods promise only that the
whole parse fails, and nothing about the scan position or the buffer; the
source stops there with a failure return.

Horizontal scrolling is dead in the source. The file width is set to the grid
width at every re-layout, so the horizontal limit is always 0. The model
proves this: `NoHorizontalScroll` and `HorizontalKeysInert`.

## Model

| member | source | states |
|---|---|---|
| CellStore.CellsOf | view.cpp:203-206 | an even-length byte sequence gives half as many cells, and cell i is the pair (data[2i], data[2i+1]) |
| CellStore.Decode | view.cpp:176-206 | loading fails exactly when the length is odd; otherwise it gives the cell pairs, half as many as there are bytes |
| CellStore.Encode | view.cpp:203-206 | the stored form of a cell sequence has two bytes per cell |
| CellStore.CellsOfEncode | view.cpp:203-206 | decoding the stored form of cells pair by pair gives the cells back |
| CellStore.DecodeEncode | view.cpp:176-206 | round trip: every cell sequence loads back from the file it is stored as |
| CellStore.EncodeDecode | view.cpp:176-206 | round trip: every even-length file loads, and is the stored form of the cells it loads as |
| ParagraphIndex.SplitFrom | view.cpp:222-238 | the split of cells[from..]: at most one paragraph more than there are cells from `from` on (its other properties are the SplitFrom lemmas below) |
| ParagraphIndex.NextNewline | view.cpp:222-231 | the first newline at or after `from`, or the end: no newline lies before it |
| ParagraphIndex.Paragraphs | view.cpp:210-238 | the split has between 1 and totalCells + 1 paragraphs (the size allocated for it), the first starting at cell 0 |
| ParagraphIndex.SplitFromSize | view.cpp:210-238 | the split of cells[from..] has at most one paragraph more than there are cells from `from` on; it is empty only at the end of a non-empty file; it starts at `from` |
| ParagraphIndex.SplitAtNewline | view.cpp:223-228 | proof helper, unfolding SplitFrom once: a newline at i, with none before it since `from`, closes the paragraph (from, i - from), and the split continues at i + 1 |
| ParagraphIndex.SplitAtEnd | view.cpp:234-238 | proof helper, unfolding SplitFrom once: with no newline left, the split is one trailing paragraph when it is non-empty or the file is empty, and nothing otherwise |
| ParagraphIndex.OpenStart | view.cpp:219-230 | the start of the paragraph still open after i cells (paraStart) is at most i |
| ParagraphIndex.ClosedBefore | view.cpp:218-232 | the paragraphs closed by the loop after i cells are no more than OpenStart(i) |
| ParagraphIndex.ClosedBeforeSplit | view.cpp:218-232 | at every step of the loop, the paragraphs closed so far followed by the split from the open paragraph are the whole split |
| ParagraphIndex.SplitCloses | view.cpp:223-228 | one newline step of the loop keeps the agreement between the closed paragraphs and the split |
| ParagraphIndex.OpenStartClean | view.cpp:229-231 | the open paragraph holds no newline yet (paraLen counts only non-newline cells) |
| ParagraphIndex.ClosedBeforeParagraphs | view.cpp:218-238 | the loop's closed paragraphs plus the conditional trailing paragraph are exactly the paragraph split |
| ParagraphIndex.SplitFromClean | view.cpp:222-238 | every paragraph lies inside the buffer and contains no newline cell |
| ParagraphIndex.SplitFromChained | view.cpp:222-238 | each paragraph starts one cell (its predecessor's newline) after the previous one ends |
| ParagraphIndex.SplitFromTerminated | view.cpp:222-232 | every paragraph but the last is followed by a newline cell |
| ParagraphIndex.SplitFromLast | view.cpp:234-238 | the last paragraph runs to the end of the file and is non-empty (unless the file is empty), or is followed only by the final newline |
| ParagraphIndex.ChainedOrdered | view.cpp:222-238 | chained paragraphs are strictly ordered and disjoint |
| ParagraphIndex.ParagraphsWellFormed | view.cpp:218-238 | the paragraph index is chained, ordered, newline-free, terminated, and its last paragraph ends the file |
| ParagraphIndex.ParagraphCell | view.cpp:218-238 | every paragraph lies inside the buffer and none of its cells is a newline |
| ParagraphIndex.LastParagraph | view.cpp:234-238 | the last paragraph ends the file, or only the final newline follows it; it is empty only for an empty file or one ending in a newline |
| ParagraphIndex.SplitFromCovers | view.cpp:222-232 | a cell at or after `from` is a newline exactly when no paragraph of the split holds it |
| ParagraphIndex.ParagraphsPartition | view.cpp:222-238 | the paragraphs partition the non-newline cells: a cell is a newline iff no paragraph holds it, and no two paragraphs share a cell |
| ParagraphIndex.LocateFromFinds | view.cpp:469-470 | searching ordered paragraphs from q ≤ p for cell start + j of paragraph p finds (p, j) |
| ParagraphIndex.LocateParagraphCell | view.cpp:469-470 | position translation round trip: the buffer index start + j of paragraph p locates back to (p, j) |
| ParagraphIndex.SingleParagraph | view.cpp:222-238 | a file without newlines is a single paragraph covering all of it |
| Layout.LinesIn | view.cpp:84-89 | a paragraph takes at least one display line, exactly one when empty, and never more lines than cells |
| Layout.LinesInIsCeiling | view.cpp:87 | for a non-empty paragraph, (length + width - 1) / width is the fewest lines of `width` cells that hold it |
| Layout.LinesInExamples | view.cpp:87 | 200 cells take 3 lines at width 80 and 10 at width 20; 80 cells take 1; an empty paragraph takes 1 |
| Layout.CountUpTo | view.cpp:82-90 | the running count of the counting loop: the first n paragraphs take at least n display lines |
| Layout.TotalLines | view.cpp:82-90 | the document has at least one display line per paragraph |
| Layout.LinesUpTo | view.cpp:102-116 | the table of the first n paragraphs has as many entries as their line counts add up to |
| Layout.DisplayLines | view.cpp:82-118 | the display-line table has exactly the number of entries the counting pass computes |
| Layout.CountUpToMonotone | view.cpp:82-90 | the running line count never decreases, so every write of the filling pass stays inside the table |
| Layout.LinesUpToInRange | view.cpp:102-116 | every entry of the partial table names one of the first n paragraphs and one of its lines |
| Layout.LinesUpToOrdered | view.cpp:102-116 | the partial table is strictly ordered by paragraph, then line |
| Layout.LinesUpToPosition | view.cpp:102-116 | line k of paragraph p sits at entry (lines of the paragraphs before p) + k |
| Layout.DisplayLinesInRange | view.cpp:102-116 | every table entry names an existing paragraph and one of its lines |
| Layout.DisplayLinesOrdered | view.cpp:102-116 | the table is strictly ordered by paragraph, then by line within the paragraph |
| Layout.DisplayLinesPosition | view.cpp:102-116 | for every paragraph p and each of its lines k, (p, k) is in the table at (lines before p) + k |
| Layout.LineFirstCell | view.cpp:440 | line k of a paragraph starts at cell k * width of it |
| Layout.LineStart | view.cpp:437-441 | the buffer index of a display line's first cell is its paragraph's start plus lineInParagraph * width |
| Layout.CharsInLine | view.cpp:445-452 | a line shows at most `width` cells; it shows none exactly when it starts at or past the paragraph's end; it never runs past the end, and it is short only at the end |
| Layout.ByteOffset | view.cpp:441 | the row offset is even, and half of it is the cell index |
| Layout.LineStartWithin | view.cpp:440-452 | an existing line starts inside its paragraph (at its start, for an empty paragraph) |
| Layout.LineOfCell | view.cpp:466-470 | cell j of a paragraph is shown on line j / width, at column j % width, inside that line's cell count |
| Layout.ColumnInParagraph | view.cpp:468-470 | a column inside a line's cell count is a cell inside the paragraph |
| Layout.ParagraphLineCell | view.cpp:468-472 | column x of line k of paragraph p, inside the line's count, reads a non-newline cell of the buffer, which locates back to paragraph p |
| Layout.DisplayLineStart | view.cpp:435-441 | every display line names an existing paragraph, and its first cell index is at most the buffer size |
| Layout.LineCells | view.cpp:431-476 | bounds safety of painting: every painted cell index is inside the buffer, is not a newline, and locates back to the display line's paragraph and position |
| Layout.FileLineCells | view.cpp:431-476 | the bounds half of LineCells, for the paragraph index of the loaded buffer |
| Layout.CellDisplayPosition | view.cpp:466-470 | the other direction: cell j of paragraph p is shown on display line (lines before p) + j / width at column j % width, which maps back to that cell |
| Layout.LineByteOffset | view.cpp:441-443 | the offset printed for a display line never passes the file's end, and for a non-empty line the two file bytes there are its first cell |
| Layout.CountBeforeStart | view.cpp:82-90 | the paragraphs before k take no more display lines than cells precede paragraph k |
| Layout.DisplayLineCountBound | view.cpp:76-90 | a document never has more display lines than cells (one for an empty file), so the 32-bit counters cannot overflow for files below 4 GiB |
| Layout.ScreenCell | view.cpp:431-476 | what the grid shows at (y, x) under a scroll: a cell, which is never a newline; or a blank |
| Layout.RowOffset | view.cpp:432-454 | a row has an offset exactly when it shows a display line, and the offset is even and within the file |
| Viewport.MaxOffset | view.cpp:121-129 | the scroll limit shows the last row (or column) and leaves none hidden below it: m + visible ≥ size, with equality when m > 0 |
| Viewport.MaxOffsetX | view.cpp:121-126 | the horizontal limit is always 0, because the file width is set to the grid width |
| Viewport.MaxOffsetY | view.cpp:122-129 | the vertical limit shows the last display line, and is positive only when the document is longer than the grid, in which case the last screenful ends exactly at the document's end |
| Viewport.Relayout | view.cpp:121-136 | the width is kept; each offset above its new limit is lowered to the limit and any other is kept; an in-range width with non-negative offsets gives an in-bounds view at column 0 |
| Viewport.RelayoutIdempotent | view.cpp:121-136 | clamping twice at the same width is clamping once |
| Viewport.NoHorizontalScroll | view.cpp:80 | in bounds, the horizontal offset is always 0, since the file width equals the grid width |
| Viewport.Step | view.cpp:494-602 | per key: a redraw exactly when the view changed, page keys always; width ±1 only inside [20, 200]; arrows move one offset by one toward [0, limit]; page keys move exactly 40 rows when that stays inside [0, limit] and otherwise stop at 0 or at the limit; Home goes to row 0; End goes to the last screenful at column 0; other keys do nothing |
| Viewport.WidthKeyStep | view.cpp:520-536 | proof helper, unfolding Step for the width keys: a width key with new width w re-lays the view out at w when w differs from the old width, and does nothing otherwise |
| Viewport.StepInBounds | view.cpp:494-602 | every key keeps an in-bounds view in bounds |
| Viewport.HorizontalKeysInert | view.cpp:538-550 | in bounds, Left and Right change nothing and request no redraw |
| Viewport.PageDownUp | view.cpp:566-580 | Page Down then Page Up returns to the start when a full page fits below the limit |
| Palette.ColorFromByte | view.cpp:51-69 | every channel is in 0..255; mode 0 is the grey level of the byte; other modes have no green and never both red and blue, red exactly for bytes ≥ 0x81 and blue exactly for bytes below 0x7F |
| Palette.ScaleEnds | view.cpp:59-67 | 0x00 is pure blue, 0xFF pure red, and 0x7F and 0x80 are black |
| Palette.ScaleMonotone | view.cpp:61-67 | on the red/blue scale, red grows and blue fades as the byte grows |
| Palette.GreyMonotone | view.cpp:56-57 | in grey mode every channel grows with the byte |
| CommandLine.SwitchMode | view.cpp:274-279 | a switch selects mode 0 (grey) for `/1` and mode 1 (red/blue) otherwise; no other mode arises |
| CommandLine.TokensBound | view.cpp:264-320 | the tokeniser Tokens yields nothing exactly when only blanks are left, and never more tokens than characters remain |
| CommandLine.Interpret | view.cpp:264-320 | the token verdict, on success: the name already taken is kept, and a name taken from the tokens fits in size - 1 characters |
| CommandLine.Scan | view.cpp:264-320 | the parser's pass, on success: the name already taken is kept, and a name taken during the pass fits in size - 1 characters |
| CommandLine.SkipBlanks | view.cpp:265-267 | the first position at or after i that is not a space or tab |
| CommandLine.SkipBlanksSkips | view.cpp:265-267 | every character skipped is a space or tab |
| CommandLine.NameEnd | view.cpp:296-306 | the end of a file name: NUL, a closing quote for a quoted name, or a blank for an unquoted one |
| CommandLine.NameEndScans | view.cpp:296-306 | no character before the name's end ends the name |
| CommandLine.ParseSpec | view.cpp:256-258 | a missing or empty command line is refused |
| CommandLine.InterpretMeaning | view.cpp:264-320 | the token verdict succeeds exactly when no switch is malformed, there is exactly one name and it fits in size - 1 characters; the mode is then the last switch's |
| CommandLine.ParseMeaning | view.cpp:250-321 | a non-empty command line is accepted exactly when its switches are /1 or /2, it names exactly one file, and the name fits; the result is the last switch's mode (0 by default) and that name |
| CommandLine.TokensNames | view.cpp:288-316 | every file name taken contains no NUL and no character that would end it; an unquoted one is non-empty |
| CommandLine.NameTokenOk | view.cpp:291-313 | the name starting after an optional opening quote is well formed |
| CommandLine.ScanIsInterpret | view.cpp:264-320 | the parser's single pass gives the same verdict as tokenising the line and interpreting the tokens |
| CommandLine.InterpretCons | view.cpp:273-317 | proof helper, unfolding Interpret once: what one token does to the verdict: a bad switch fails, a switch sets the mode, a name fails when one is already taken or it does not fit |
| CommandLine.TokensAtSwitch | view.cpp:273-282 | proof helper, unfolding Tokens once: `/1` or `/2` followed by a blank or the end is a switch token, and any other `/` is a malformed switch |
| CommandLine.TokensAtName | view.cpp:288-316 | proof helper, unfolding Tokens once: any other non-blank starts a name token, and tokenising resumes past its closing quote, if any |
| CommandLine.ScanAtEnd | view.cpp:264-271 | proof helper, unfolding Scan once: at the end of the line the pass succeeds exactly when a name was taken |
| CommandLine.ScanAtSwitch | view.cpp:273-282 | proof helper, unfolding Scan once: at a `/` the pass sets the mode and continues, or fails on a malformed switch |
| CommandLine.ScanAtName | view.cpp:284-316 | proof helper, unfolding Scan once: at a name the pass fails on a second name or one of more than size - 1 characters, and otherwise continues after it |
| CommandLine.SkipBlankRun | view.cpp:265-267 | the blank-skipping loop stops where SkipBlanks says |
| CommandLine.CopyName | view.cpp:288-315 | the copy succeeds exactly when the name fits beside its NUL; then the buffer holds the name, NUL-terminated, and the scan resumes after the closing quote, if any |
| CommandLine.TakeSwitch | view.cpp:273-282 | the switch is accepted exactly when it is `/1` or `/2` followed by a blank or the end; it then steps over its two characters with the mode SwitchMode gives, and the rest of the scan decides; a bad one makes the whole parse fail |
| CommandLine.TakeName | view.cpp:284-316 | the first name, after an optional opening quote and up to its end, is stored NUL-terminated and the scan resumes past its closing quote, if any; a name too long makes the whole parse fail |
| CommandLine.ParseCommandLine | view.cpp:250-321 | the parser returns success exactly when ParseSpec accepts, and then returns the mode and leaves the name, NUL-terminated, in the buffer |
| TextViewer.DecodeCells | view.cpp:203-206 | the decoding loop fills a fresh buffer of one cell per byte pair, equal to CellsOf(data) |
| TextViewer.SplitParagraphs | view.cpp:210-238 | the split loop fills a fresh index of totalCells + 1 entries whose first `count` are exactly Paragraphs(cells) |
| TextViewer.CountDisplayLines | view.cpp:82-90 | the counting loop computes TotalLines |
| TextViewer.FillDisplayLines | view.cpp:96-116 | the filling loop produces a fresh table equal to DisplayLines |
| TextViewer.FillParagraph | view.cpp:110-114 | the inner loop writes the n lines of paragraph p, numbered from 0, and leaves the entries before them alone |
| TextViewer.NewWidth | view.cpp:520-535 | Add widens by one below 200, Subtract narrows by one above 20, and otherwise the width is kept |
| TextViewer.Clamp | view.cpp:121-136 | the clamping code gives the offsets of Relayout |
| TextViewer.Scroll | view.cpp:538-601 | the scroll keys' code gives the view and redraw flag of Step, and keeps an in-bounds view in bounds |
| TextViewer.Viewer.constructor | view.cpp:32-43 | before loading, every count, size, offset and the palette mode are zero, and every array is empty |
| TextViewer.Viewer.Load | view.cpp:157-248 | loading succeeds exactly for an even length; on failure nothing changes; on success the buffer is CellsOf(data), the state is valid, and the view is width 80 at (0, 0) in palette mode 0 |
| TextViewer.Viewer.Install | view.cpp:182-243 | the buffer and the paragraph index are those of the data, with width 80, no scrolling and palette mode 0 |
| TextViewer.Viewer.RecalculateLayout | view.cpp:71-137 | a fresh display-line table equal to DisplayLines at the grid width, file dimensions from it, and the view clamped as Relayout says |
| TextViewer.Viewer.ChangeWidth | view.cpp:520-536 | the width keys move the view and the redraw flag as Step says, re-laying out when the width changes, and keep the state valid |
| TextViewer.Viewer.KeyDown | view.cpp:494-609 | every key moves the view and the redraw flag as Step says and keeps the state valid; only the layout and the view change |
| TextViewer.Viewer.ScrollView | view.cpp:495-508 | the scroll keys' limits, computed from the file dimensions, are those of Step; the view moves as Step says and the state stays valid |
| TextViewer.Viewer.CellAt | view.cpp:431-476 | the paint handler's index arithmetic on the three arrays reads exactly the cell ScreenCell specifies |
| TextViewer.Viewer.Appearance | view.cpp:465-476 | a blank is painted as a space on black, and any other position as its cell's character on its palette colour |
| TextViewer.Viewer.RowLabel | view.cpp:432-454 | the offset printed for a row is RowOffset, or none past the end of the document |

## Left out

- Win32: the window, the font, `ResizeWindow`, the message loop, `InvalidateRect` and `TextOutA` are left out; painting is modelled as the cell and colour at each grid position.
- File I/O: `Load` takes the file's bytes as a parameter, instead of a file name read with `fopen`/`fread`. The open-failure path and the file name are not modelled.
- Allocation failure: every `malloc` is taken to succeed. The "Memory allocation failed" paths of `LoadTextFile` and `RecalculateLayout` are not modelled.
- `VK_ESCAPE`, `WM_CLOSE` and `WM_DESTROY` (closing the window and freeing the arrays) are not modelled. Neither is the `VK_F2` palette toggle: `Palette` models both palette modes, but not the key that switches between them.
- `COLORREF` packing (`RGB`) and the `sprintf` formatting of the row offset are not modelled: colours are `Rgb` triples and offsets are numbers.
- 32-bit arithmetic is not modelled: counts and offsets are unbounded. `DisplayLineCountBound` shows the display-line count never exceeds the cell count, so for a file below 4 GiB none of the viewer's `uint` counters wraps. The allocation sizes `sizeof(LineInfo) * maxParagraphs` (view.cpp:211) and `sizeof(DisplayLine) * totalDisplayLines` (view.cpp:96) are not covered: on a 32-bit build they wrap for files of about 1 GiB or more, and allocation is taken to succeed anyway.
- TextViewer.Viewer.Load: does not state that the three arrays are fresh, only that they match the specification functions.
- TextViewer.Viewer.RecalculateLayout: requires the grid width to be in [20, 200], the offsets to be non-negative and the buffer to be indexed. Every call in the program meets these conditions: after a load, and after a width key.
- TextViewer.Viewer.KeyDown: the handler is split into `ChangeWidth` and `ScrollView`. `Scroll` and `Clamp` compute the new offsets on locals, and the two offsets are written back together, so the states between the two writes are not modelled.
- CommandLine.ParseCommandLine: when parsing fails, no promise is made about the mode output or the buffer contents. It requires a buffer of at least one character: with size 0 the source writes the NUL out of bounds, and its only caller passes `MAX_PATH`.
- The name length limit follows the code: a name is accepted when its length is at most size - 1, since the check `out - filename >= filenameSize - 1` runs before each copied character.
- The `VK_END` branch computes its limit from the display-line count, and the other keys from the file height. After a re-layout the two are equal, so both use `TotalLines`.
