/**
 * The layout engine: paragraphs wrapped into display lines of a fixed grid
 * width, and the arithmetic that maps a display line and a column back to a
 * cell of the buffer.
 */
module Layout {
  import opened Wrappers
  import opened CellStore
  import opened ParagraphIndex

  /** One wrapped row: which paragraph, and which of its lines. */
  datatype DisplayLine = DisplayLine(paragraph: nat, lineInParagraph: nat)

  /** Display lines a paragraph of `length` cells needs: one when empty, else the ceiling of length / width. */
  function LinesIn(length: nat, width: nat): (n: nat)
    requires width >= 1
    ensures n >= 1
    ensures length == 0 ==> n == 1
    ensures length > 0 ==> n <= length
  {
    if length == 0 then 1 else (length + width - 1) / width
  }

  /** For a non-empty paragraph the line count is the ceiling of length / width: the fewest lines of `width` cells that hold it. */
  lemma LinesInIsCeiling(length: nat, width: nat)
    requires width >= 1 && length > 0
    ensures (LinesIn(length, width) - 1) * width < length <= LinesIn(length, width) * width
  {
  }

  /** The worked cases: 200 cells take 3 lines at width 80 and 10 at width 20; 80 cells at width 80 take one. */
  lemma LinesInExamples()
    ensures LinesIn(200, 80) == 3 && LinesIn(200, 20) == 10 && LinesIn(80, 80) == 1 && LinesIn(0, 80) == 1
  {
  }

  /** Display lines taken by the first n paragraphs. */
  function CountUpTo(ps: seq<Paragraph>, width: nat, n: nat): (count: nat)
    requires width >= 1 && n <= |ps|
    ensures count >= n
  {
    if n == 0 then 0 else CountUpTo(ps, width, n - 1) + LinesIn(ps[n - 1].length, width)
  }

  /** The number of display lines of the whole document. */
  function TotalLines(ps: seq<Paragraph>, width: nat): (total: nat)
    requires width >= 1
    ensures total >= |ps|
  {
    CountUpTo(ps, width, |ps|)
  }

  /** The display lines of paragraph p: (p, 0), ..., (p, n - 1). */
  function ParagraphLines(p: nat, n: nat): seq<DisplayLine> {
    seq(n, k requires 0 <= k < n => DisplayLine(p, k))
  }

  /** The display-line table of the first n paragraphs. */
  function LinesUpTo(ps: seq<Paragraph>, width: nat, n: nat): (table: seq<DisplayLine>)
    requires width >= 1 && n <= |ps|
    ensures |table| == CountUpTo(ps, width, n)
  {
    if n == 0 then [] else LinesUpTo(ps, width, n - 1) + ParagraphLines(n - 1, LinesIn(ps[n - 1].length, width))
  }

  /** The display-line table: as many entries as the per-paragraph counts add up to. */
  function DisplayLines(ps: seq<Paragraph>, width: nat): (table: seq<DisplayLine>)
    requires width >= 1
    ensures |table| == TotalLines(ps, width)
  {
    LinesUpTo(ps, width, |ps|)
  }

  /** Lexicographic order on display lines: by paragraph, then by line. */
  predicate Precedes(a: DisplayLine, b: DisplayLine) {
    a.paragraph < b.paragraph || (a.paragraph == b.paragraph && a.lineInParagraph < b.lineInParagraph)
  }

  /** Display line dl names a paragraph of ps and one of that paragraph's lines. */
  predicate InRange(ps: seq<Paragraph>, width: nat, dl: DisplayLine)
    requires width >= 1
  {
    dl.paragraph < |ps| && dl.lineInParagraph < LinesIn(ps[dl.paragraph].length, width)
  }

  lemma {:induction false} CountUpToMonotone(ps: seq<Paragraph>, width: nat, m: nat, n: nat)
    requires width >= 1 && m <= n <= |ps|
    ensures CountUpTo(ps, width, m) <= CountUpTo(ps, width, n)
    decreases n
  {
    if m < n {
      CountUpToMonotone(ps, width, m, n - 1);
    }
  }

  lemma {:induction false} LinesUpToInRange(ps: seq<Paragraph>, width: nat, n: nat)
    requires width >= 1 && n <= |ps|
    ensures forall d :: 0 <= d < |LinesUpTo(ps, width, n)| ==>
      LinesUpTo(ps, width, n)[d].paragraph < n && InRange(ps, width, LinesUpTo(ps, width, n)[d])
  {
    if n > 0 {
      LinesUpToInRange(ps, width, n - 1);
      var init := LinesUpTo(ps, width, n - 1);
      var table := LinesUpTo(ps, width, n);
      forall d | 0 <= d < |table| ensures table[d].paragraph < n && InRange(ps, width, table[d]) {
        if d < |init| {
          assert table[d] == init[d];
        }
      }
    }
  }

  lemma {:induction false} LinesUpToOrdered(ps: seq<Paragraph>, width: nat, n: nat)
    requires width >= 1 && n <= |ps|
    ensures forall a, b :: 0 <= a < b < |LinesUpTo(ps, width, n)| ==>
      Precedes(LinesUpTo(ps, width, n)[a], LinesUpTo(ps, width, n)[b])
  {
    if n > 0 {
      LinesUpToOrdered(ps, width, n - 1);
      LinesUpToInRange(ps, width, n - 1);
      var init := LinesUpTo(ps, width, n - 1);
      var table := LinesUpTo(ps, width, n);
      forall a, b | 0 <= a < b < |table| ensures Precedes(table[a], table[b]) {
        if b < |init| {
          assert table[a] == init[a] && table[b] == init[b];
        } else if a < |init| {
          assert table[a] == init[a];
        }
      }
    }
  }

  lemma {:induction false} LinesUpToPosition(ps: seq<Paragraph>, width: nat, n: nat, p: nat, k: nat)
    requires width >= 1 && p < n <= |ps| && k < LinesIn(ps[p].length, width)
    ensures CountUpTo(ps, width, p) + k < |LinesUpTo(ps, width, n)|
    ensures LinesUpTo(ps, width, n)[CountUpTo(ps, width, p) + k] == DisplayLine(p, k)
  {
    if p < n - 1 {
      LinesUpToPosition(ps, width, n - 1, p, k);
    } else {
      CountUpToMonotone(ps, width, p, n - 1);
    }
  }

  /** Every entry of the table names an existing paragraph and one of its lines. */
  lemma DisplayLinesInRange(ps: seq<Paragraph>, width: nat)
    requires width >= 1
    ensures forall d :: 0 <= d < |DisplayLines(ps, width)| ==> InRange(ps, width, DisplayLines(ps, width)[d])
  {
    LinesUpToInRange(ps, width, |ps|);
  }

  /** The table is strictly ordered by paragraph, then by line within the paragraph. */
  lemma DisplayLinesOrdered(ps: seq<Paragraph>, width: nat)
    requires width >= 1
    ensures forall a, b :: 0 <= a < b < |DisplayLines(ps, width)| ==>
      Precedes(DisplayLines(ps, width)[a], DisplayLines(ps, width)[b])
  {
    LinesUpToOrdered(ps, width, |ps|);
  }

  /**
   * The lines of paragraph p are consecutive and in order: line k of p is entry
   * (lines of the paragraphs before p) + k, so every (p, k) in range is in the table.
   */
  lemma DisplayLinesPosition(ps: seq<Paragraph>, width: nat, p: nat, k: nat)
    requires width >= 1 && p < |ps| && k < LinesIn(ps[p].length, width)
    ensures CountUpTo(ps, width, p) + k < |DisplayLines(ps, width)|
    ensures DisplayLines(ps, width)[CountUpTo(ps, width, p) + k] == DisplayLine(p, k)
  {
    LinesUpToPosition(ps, width, |ps|, p, k);
  }

  /** Position, inside its paragraph, of the first cell of line k. */
  function LineFirstCell(k: nat, width: nat): (first: nat)
    ensures first == k * width
  {
    if k == 0 then 0 else LineFirstCell(k - 1, width) + width
  }

  /** The line of its paragraph that cell j of the paragraph is shown on. */
  function LineOf(j: nat, width: nat): nat
    requires width >= 1
  {
    j / width
  }

  /** The column of its line that cell j of a paragraph is shown in. */
  function ColumnOf(j: nat, width: nat): nat
    requires width >= 1
  {
    j % width
  }

  /** How many cells line k of a paragraph of `length` cells shows at this width. */
  function CharsInLine(length: nat, k: nat, width: nat): (c: nat)
    requires width >= 1
    ensures c <= width
    ensures c == 0 <==> LineFirstCell(k, width) >= length
    ensures c > 0 ==> LineFirstCell(k, width) + c <= length
    ensures c < width ==> LineFirstCell(k, width) + c >= length
  {
    var lineStartInPara := LineFirstCell(k, width);
    if lineStartInPara < length then
      (if length - lineStartInPara > width then width else length - lineStartInPara)
    else 0
  }

  /** The buffer index of the first cell of display line dl. */
  function LineStart(ps: seq<Paragraph>, dl: DisplayLine, width: nat): (i: nat)
    requires dl.paragraph < |ps|
    ensures i == ps[dl.paragraph].start + dl.lineInParagraph * width
  {
    ps[dl.paragraph].start + LineFirstCell(dl.lineInParagraph, width)
  }

  /** The file offset of a cell: the offset shown at the head of each row. */
  function ByteOffset(cellIndex: nat): (offset: nat)
    ensures offset % BytesPerCell == 0 && offset / BytesPerCell == cellIndex
  {
    cellIndex * BytesPerCell
  }

  lemma MulMonotone(a: nat, b: nat, w: nat)
    requires a <= b
    ensures a * w <= b * w
  {
  }

  /** A line that exists starts inside its paragraph (at its start, for an empty one). */
  lemma LineStartWithin(length: nat, k: nat, width: nat)
    requires width >= 1 && k < LinesIn(length, width)
    ensures LineFirstCell(k, width) <= length
    ensures length > 0 ==> LineFirstCell(k, width) < length
  {
    if length > 0 {
      LinesInIsCeiling(length, width);
      MulMonotone(k, LinesIn(length, width) - 1, width);
    }
  }

  /** Cell j of a paragraph is on line j / width, at column j % width, inside that line. */
  lemma LineOfCell(length: nat, j: nat, width: nat)
    requires width >= 1 && j < length
    ensures LineOf(j, width) < LinesIn(length, width)
    ensures ColumnOf(j, width) < CharsInLine(length, LineOf(j, width), width)
    ensures LineFirstCell(LineOf(j, width), width) + ColumnOf(j, width) == j
  {
    var n := LinesIn(length, width);
    var k := j / width;
    LinesInIsCeiling(length, width);
    assert k * width + j % width == j;
    if n <= k {
      MulMonotone(n, k, width);
    }
  }

  /** A column inside a line's cell count is a position inside its paragraph. */
  lemma ColumnInParagraph(length: nat, k: nat, width: nat, x: nat)
    requires width >= 1 && x < CharsInLine(length, k, width)
    ensures LineFirstCell(k, width) + x < length
  {
  }

  /**
   * Column x of line k of paragraph p, inside the line's cell count, is a
   * non-newline cell of that paragraph, and is located back at it.
   */
  lemma ParagraphLineCell(cells: seq<Cell>, ps: seq<Paragraph>, width: nat, p: nat, k: nat, x: nat)
    requires width >= 1 && Clean(cells, ps) && Ordered(ps)
    requires p < |ps| && x < CharsInLine(ps[p].length, k, width)
    ensures var j := LineFirstCell(k, width) + x;
      ps[p].start + j < |cells| && !IsNewline(cells[ps[p].start + j]) &&
      Locate(ps, ps[p].start + j) == Some((p, j))
  {
    var j := LineFirstCell(k, width) + x;
    ColumnInParagraph(ps[p].length, k, width, x);
    assert ps[p].start <= ps[p].start + j < ps[p].End() <= |cells|;
    LocateFromFinds(ps, p, j, 0);
  }

  /** Every display line names an existing paragraph and starts inside the buffer. */
  lemma DisplayLineStart(cells: seq<Cell>, ps: seq<Paragraph>, width: nat, d: nat)
    requires width >= 1 && Clean(cells, ps)
    requires d < |DisplayLines(ps, width)|
    ensures var dl := DisplayLines(ps, width)[d];
      InRange(ps, width, dl) && LineStart(ps, dl, width) <= |cells|
  {
    var dl := DisplayLines(ps, width)[d];
    DisplayLinesInRange(ps, width);
    assert InRange(ps, width, dl);
    LineStartWithin(ps[dl.paragraph].length, dl.lineInParagraph, width);
    assert ps[dl.paragraph].End() <= |cells|;
  }

  /**
   * Bounds safety of the grid: for display line d = (p, k), every column x inside
   * the line's cell count reads an existing, non-newline cell of the buffer, and
   * that cell is located back at paragraph p, at position k * width + x in it.
   */
  lemma LineCells(cells: seq<Cell>, ps: seq<Paragraph>, width: nat, d: nat, x: nat)
    requires width >= 1 && Clean(cells, ps) && Ordered(ps)
    requires d < |DisplayLines(ps, width)|
    ensures var dl := DisplayLines(ps, width)[d];
      dl.paragraph < |ps| &&
      LineStart(ps, dl, width) <= |cells| &&
      (x < CharsInLine(ps[dl.paragraph].length, dl.lineInParagraph, width) ==>
        LineStart(ps, dl, width) + x < |cells| &&
        !IsNewline(cells[LineStart(ps, dl, width) + x]) &&
        Locate(ps, LineStart(ps, dl, width) + x) == Some((dl.paragraph, LineFirstCell(dl.lineInParagraph, width) + x)))
  {
    var dl := DisplayLines(ps, width)[d];
    DisplayLineStart(cells, ps, width, d);
    if x < CharsInLine(ps[dl.paragraph].length, dl.lineInParagraph, width) {
      ParagraphLineCell(cells, ps, width, dl.paragraph, dl.lineInParagraph, x);
      assert LineStart(ps, dl, width) + x == ps[dl.paragraph].start + (LineFirstCell(dl.lineInParagraph, width) + x);
    }
  }

  /** The bounds half of LineCells, for the paragraph index of the loaded file. */
  lemma FileLineCells(cells: seq<Cell>, width: nat, d: nat, x: nat)
    requires width >= 1
    requires d < |DisplayLines(Paragraphs(cells), width)|
    ensures var ps := Paragraphs(cells);
      var dl := DisplayLines(ps, width)[d];
      dl.paragraph < |ps| &&
      LineStart(ps, dl, width) <= |cells| &&
      (x < CharsInLine(ps[dl.paragraph].length, dl.lineInParagraph, width) ==>
        LineStart(ps, dl, width) + x < |cells| &&
        !IsNewline(cells[LineStart(ps, dl, width) + x]))
  {
    ParagraphsWellFormed(cells);
    LineCells(cells, Paragraphs(cells), width, d, x);
  }

  /**
   * Position translation, the other way: cell j of paragraph p is shown on
   * display line (lines before p) + j / width, at column j % width, and that
   * line and column map back to the same cell.
   */
  lemma CellDisplayPosition(cells: seq<Cell>, width: nat, p: nat, j: nat)
    requires width >= 1
    requires p < |Paragraphs(cells)| && j < Paragraphs(cells)[p].length
    ensures var ps := Paragraphs(cells);
      var d := CountUpTo(ps, width, p) + LineOf(j, width);
      d < |DisplayLines(ps, width)| &&
      DisplayLines(ps, width)[d] == DisplayLine(p, LineOf(j, width)) &&
      ColumnOf(j, width) < CharsInLine(ps[p].length, LineOf(j, width), width) &&
      LineStart(ps, DisplayLines(ps, width)[d], width) + ColumnOf(j, width) == ps[p].start + j
  {
    var ps := Paragraphs(cells);
    LineOfCell(ps[p].length, j, width);
    DisplayLinesPosition(ps, width, p, LineOf(j, width));
  }

  /**
   * The offset printed for a display line is where its first cell is stored in
   * the file: it never passes the end of the file, and for a non-empty line the
   * two bytes there are that cell's character and colour.
   */
  lemma LineByteOffset(data: seq<byte>, width: nat, d: nat)
    requires |data| % 2 == 0 && width >= 1
    requires d < |DisplayLines(Paragraphs(CellsOf(data)), width)|
    ensures var cells := CellsOf(data);
      var ps := Paragraphs(cells);
      var dl := DisplayLines(ps, width)[d];
      dl.paragraph < |ps| &&
      ByteOffset(LineStart(ps, dl, width)) <= |data| &&
      (CharsInLine(ps[dl.paragraph].length, dl.lineInParagraph, width) > 0 ==>
        ByteOffset(LineStart(ps, dl, width)) + 1 < |data| &&
        data[ByteOffset(LineStart(ps, dl, width))] == cells[LineStart(ps, dl, width)].character &&
        data[ByteOffset(LineStart(ps, dl, width)) + 1] == cells[LineStart(ps, dl, width)].bgcolor)
  {
    FileLineCells(CellsOf(data), width, d, 0);
  }

  lemma {:induction false} CountBeforeStart(ps: seq<Paragraph>, width: nat, k: nat)
    requires width >= 1 && Chained(ps) && k < |ps| && ps[0].start == 0
    ensures CountUpTo(ps, width, k) <= ps[k].start
  {
    if k > 0 {
      CountBeforeStart(ps, width, k - 1);
    }
  }

  /**
   * There are never more display lines than cells (one for an empty file), so
   * with a file below 4 GiB the count and every offset fit the viewer's 32-bit counters.
   */
  lemma DisplayLineCountBound(cells: seq<Cell>, width: nat)
    requires width >= 1
    ensures TotalLines(Paragraphs(cells), width) <= if |cells| == 0 then 1 else |cells|
  {
    var ps := Paragraphs(cells);
    SplitFromChained(cells, 0);
    LastParagraph(cells);
    CountBeforeStart(ps, width, |ps| - 1);
  }

  /**
   * What the grid shows at row y, column x when scrolled to (offsetX, offsetY):
   * the cell drawn there, or None for a blank cell. A newline cell is never drawn.
   */
  function ScreenCell(cells: seq<Cell>, width: nat, offsetX: nat, offsetY: nat, y: nat, x: nat): (r: Option<Cell>)
    requires width >= 1
    ensures r.Some? ==> !IsNewline(r.value)
  {
    var ps := Paragraphs(cells);
    var table := DisplayLines(ps, width);
    var d := offsetY + y;
    if d < |table| then
      var column := offsetX + x;
      FileLineCells(cells, width, d, column);
      var dl := table[d];
      if column < CharsInLine(ps[dl.paragraph].length, dl.lineInParagraph, width)
      then Some(cells[LineStart(ps, dl, width) + column])
      else None
    else None
  }

  /** The offset shown at the head of row y, or None for a row past the end of the document. */
  function RowOffset(cells: seq<Cell>, width: nat, offsetY: nat, y: nat): (r: Option<nat>)
    requires width >= 1
    ensures r.Some? <==> offsetY + y < TotalLines(Paragraphs(cells), width)
    ensures r.Some? ==> r.value % BytesPerCell == 0 && r.value <= BytesPerCell * |cells|
  {
    var ps := Paragraphs(cells);
    var table := DisplayLines(ps, width);
    var d := offsetY + y;
    if d < |table| then
      FileLineCells(cells, width, d, 0);
      Some(ByteOffset(LineStart(ps, table[d], width)))
    else None
  }
}
