/**
 * The viewer's state: the globals of the program gathered into one object.
 * Loading fills the cell buffer and the paragraph index, a re-layout rebuilds
 * the display-line table and clamps the scroll offsets, a key press moves the
 * viewport, and painting reads the three arrays to decide what each grid cell shows.
 */
module TextViewer {
  import opened Wrappers
  import opened CellStore
  import opened ParagraphIndex
  import opened Layout
  import opened Viewport
  import opened Palette

  /** The first half of loading: cell i is the byte pair at 2i, 2i + 1. */
  method DecodeCells(data: seq<byte>) returns (cells: array<Cell>)
    requires |data| % 2 == 0
    ensures fresh(cells) && cells.Length == |data| / 2 && cells[..] == CellsOf(data)
  {
    var n := |data| / 2;
    cells := new Cell[n];
    for i := 0 to n
      invariant forall k :: 0 <= k < i ==> cells[k] == Cell(data[2 * k], data[2 * k + 1])
    {
      cells[i] := Cell(data[i * 2], data[i * 2 + 1]);
    }
  }

  /**
   * The second half of loading: one pass over the cells, closing a paragraph
   * at each newline and the trailing one if it is non-empty or the file is
   * empty, into an index allocated for one paragraph more than there are cells.
   */
  method SplitParagraphs(cells: array<Cell>) returns (paras: array<Paragraph>, count: nat)
    ensures fresh(paras) && paras.Length == cells.Length + 1 && count <= paras.Length
    ensures paras[..count] == Paragraphs(cells[..])
  {
    ghost var cs := cells[..];
    var n := cells.Length;
    paras := new Paragraph[n + 1];
    count := 0;
    var paraStart: nat := 0;
    var paraLen: nat := 0;
    for i := 0 to n
      invariant paraStart == OpenStart(cs, i) && paraLen == i - paraStart
      invariant count == |ClosedBefore(cs, i)| && paras[..count] == ClosedBefore(cs, i)
    {
      if cells[i].character == Newline {
        paras[count] := Paragraph(paraStart, paraLen);
        assert paras[..count + 1] == paras[..count] + [paras[count]];
        count := count + 1;
        paraStart := i + 1;
        paraLen := 0;
      } else {
        paraLen := paraLen + 1;
      }
    }
    ClosedBeforeParagraphs(cs);
    if paraLen > 0 || n == 0 {
      paras[count] := Paragraph(paraStart, paraLen);
      assert paras[..count + 1] == paras[..count] + [paras[count]];
      count := count + 1;
    }
  }

  /** The counting pass of a re-layout: the display lines of the first `count` paragraphs. */
  method CountDisplayLines(paragraphs: array<Paragraph>, count: nat, width: nat, ghost ps: seq<Paragraph>) returns (total: nat)
    requires count <= paragraphs.Length && paragraphs[..count] == ps && width >= 1
    ensures total == TotalLines(ps, width)
  {
    total := 0;
    for i := 0 to count
      invariant total == CountUpTo(ps, width, i)
    {
      if paragraphs[i].length == 0 {
        total := total + 1;
      } else {
        total := total + (paragraphs[i].length + width - 1) / width;
      }
    }
  }

  /**
   * The filling pass of a re-layout: for each paragraph in order, one entry
   * per line of it, numbered from 0, into a table of exactly `total` entries.
   */
  method FillDisplayLines(paragraphs: array<Paragraph>, count: nat, width: nat, total: nat, ghost ps: seq<Paragraph>)
    returns (table: array<DisplayLine>)
    requires count <= paragraphs.Length && paragraphs[..count] == ps && width >= 1
    requires total == TotalLines(ps, width)
    ensures fresh(table) && table[..] == DisplayLines(ps, width)
  {
    table := new DisplayLine[total];
    var displayIdx := 0;
    for i := 0 to count
      invariant displayIdx == CountUpTo(ps, width, i) <= total
      invariant table[..displayIdx] == LinesUpTo(ps, width, i)
    {
      CountUpToMonotone(ps, width, i + 1, count);
      if paragraphs[i].length == 0 {
        table[displayIdx] := DisplayLine(i, 0);
        displayIdx := displayIdx + 1;
        assert table[..displayIdx] == LinesUpTo(ps, width, i) + ParagraphLines(i, 1);
      } else {
        var linesInPara := (paragraphs[i].length + width - 1) / width;
        FillParagraph(table, displayIdx, i, linesInPara);
        assert table[..displayIdx + linesInPara] == table[..displayIdx] + table[displayIdx..displayIdx + linesInPara];
        displayIdx := displayIdx + linesInPara;
      }
    }
  }

  /** The inner loop of the filling pass: the n lines of paragraph p, numbered from 0, written from position `from` on. */
  method FillParagraph(table: array<DisplayLine>, from: nat, p: nat, n: nat)
    requires from + n <= table.Length
    modifies table
    ensures table[..from] == old(table[..from])
    ensures table[from..from + n] == ParagraphLines(p, n)
  {
    for lineIdx := 0 to n
      invariant table[..from] == old(table[..from])
      invariant table[from..from + lineIdx] == ParagraphLines(p, lineIdx)
    {
      table[from + lineIdx] := DisplayLine(p, lineIdx);
      assert ParagraphLines(p, lineIdx + 1) == ParagraphLines(p, lineIdx) + [DisplayLine(p, lineIdx)];
      assert table[from..from + lineIdx + 1] == table[from..from + lineIdx] + [table[from + lineIdx]];
    }
  }

  /** The width test of the width keys: Add widens by one below MaxWidth, Subtract narrows by one above MinWidth. */
  method NewWidth(key: Key, width: nat) returns (w: nat)
    requires key == Add || key == Subtract
    ensures key == Add ==> w == if width < MaxWidth then width + 1 else width
    ensures key == Subtract ==> w == if width > MinWidth then width - 1 else width
  {
    w := width;
    if key == Add {
      if w < MaxWidth {
        w := w + 1;
      }
    } else {
      if w > MinWidth {
        w := w - 1;
      }
    }
  }

  /**
   * The clamping at the end of a re-layout, on the offsets: each limit is the
   * file dimension less the grid dimension, floored at 0, and an offset above
   * its limit is lowered to it. It agrees with Relayout.
   */
  method Clamp(offsetX: int, offsetY: int, width: nat, displayLineCount: nat, ghost ps: seq<Paragraph>)
    returns (x: int, y: int)
    requires width >= 1 && displayLineCount == TotalLines(ps, width)
    ensures View(width, x, y) == Relayout(ps, View(width, offsetX, offsetY))
  {
    var maxOffsetX := width as int - width as int;
    var maxOffsetY := displayLineCount as int - GridHeight as int;
    if maxOffsetX < 0 {
      maxOffsetX := 0;
    }
    if maxOffsetY < 0 {
      maxOffsetY := 0;
    }
    x, y := offsetX, offsetY;
    if x > maxOffsetX {
      x := maxOffsetX;
    }
    if y > maxOffsetY {
      y := maxOffsetY;
    }
  }

  /**
   * The scrolling keys of the key handler, on the offsets and the limits it
   * computes from the file dimensions: arrows move one step inside [0, limit],
   * page keys move a screenful and clamp, Home and End jump. It agrees with Step.
   */
  method Scroll(key: Key, offsetX: int, offsetY: int, maxOffsetX: int, maxOffsetY: int, displayLineCount: nat,
                ghost ps: seq<Paragraph>, ghost width: nat)
    returns (x: int, y: int, changed: bool)
    requires key != Add && key != Subtract && width >= 1
    requires maxOffsetX == MaxOffsetX(width) && maxOffsetY == MaxOffsetY(ps, width)
    requires displayLineCount == TotalLines(ps, width)
    ensures (View(width, x, y), changed) == Step(ps, View(width, offsetX, offsetY), key)
    ensures InBounds(ps, View(width, offsetX, offsetY)) ==> InBounds(ps, View(width, x, y))
  {
    if InBounds(ps, View(width, offsetX, offsetY)) {
      StepInBounds(ps, View(width, offsetX, offsetY), key);
    }
    x, y := offsetX, offsetY;
    changed := false;
    match key
    case Left =>
      if x > 0 {
        x := x - 1;
        changed := true;
      }
    case Right =>
      if x < maxOffsetX {
        x := x + 1;
        changed := true;
      }
    case Up =>
      if y > 0 {
        y := y - 1;
        changed := true;
      }
    case Down =>
      if y < maxOffsetY {
        y := y + 1;
        changed := true;
      }
    case PageUp =>
      y := y - GridHeight as int;
      if y < 0 {
        y := 0;
      }
      changed := true;
    case PageDown =>
      y := y + GridHeight as int;
      if y > maxOffsetY {
        y := maxOffsetY;
      }
      changed := true;
    case Home =>
      if y != 0 {
        y := 0;
        changed := true;
      }
    case End =>
      var last := if displayLineCount as int > GridHeight as int then displayLineCount as int - GridHeight as int else 0;
      if y != last || x != 0 {
        y := last;
        x := 0;
        changed := true;
      }
    case Other =>
  }

  class Viewer {
    /** The cells of the loaded file. */
    var buffer: array<Cell>
    var totalCells: nat
    /** The paragraph index, allocated for totalCells + 1 entries; the first paragraphCount are in use. */
    var paragraphs: array<Paragraph>
    var paragraphCount: nat
    /** The display-line table. */
    var displayLines: array<DisplayLine>
    var displayLineCount: nat
    var gridWidth: nat
    var fileWidth: nat
    var fileHeight: nat
    var offsetX: int
    var offsetY: int
    var paletteMode: int

    /** The contents of the three arrays in use, as values. */
    ghost var cells: seq<Cell>
    ghost var index: seq<Paragraph>
    ghost var layout: seq<DisplayLine>

    /** Grid width and scroll offsets as a value. */
    function CurrentView(): View
      reads this`gridWidth, this`offsetX, this`offsetY
    {
      View(gridWidth, offsetX, offsetY)
    }

    /** The buffer holds totalCells cells and the paragraphs in use are their paragraph split. */
    ghost predicate Indexed()
      reads this`buffer, this`totalCells, this`paragraphs, this`paragraphCount, this`cells, this`index, buffer, paragraphs
    {
      buffer[..] == cells && totalCells == |cells| &&
      paragraphs.Length == totalCells + 1 &&
      paragraphCount <= paragraphs.Length &&
      paragraphs[..paragraphCount] == index &&
      index == Paragraphs(cells)
    }

    /** The display-line table in use is the layout of the index at the grid width, and the file dimensions are the table's. */
    ghost predicate LaidOut()
      reads this`displayLines, this`displayLineCount, this`gridWidth, this`fileWidth, this`fileHeight, this`index, this`layout, displayLines
    {
      gridWidth >= 1 &&
      displayLines[..] == layout && displayLineCount == |layout| &&
      layout == DisplayLines(index, gridWidth) &&
      fileWidth == gridWidth &&
      fileHeight == displayLineCount
    }

    /** The state between events once a file is loaded. */
    ghost predicate Valid()
      reads this, buffer, paragraphs, displayLines
    {
      Indexed() && LaidOut() && InBounds(index, CurrentView())
    }

    /** The state before any file is loaded: every count zero and every array empty. */
    constructor()
      ensures totalCells == 0 && paragraphCount == 0 && displayLineCount == 0
      ensures buffer.Length == 0 && paragraphs.Length == 0 && displayLines.Length == 0
      ensures gridWidth == 0 && fileWidth == 0 && fileHeight == 0
      ensures offsetX == 0 && offsetY == 0 && paletteMode == 0
    {
      buffer := new Cell[0];
      totalCells := 0;
      paragraphs := new Paragraph[0];
      paragraphCount := 0;
      displayLines := new DisplayLine[0];
      displayLineCount := 0;
      gridWidth := 0;
      fileWidth := 0;
      fileHeight := 0;
      offsetX := 0;
      offsetY := 0;
      paletteMode := 0;
      cells, index, layout := [], [], [];
    }

    /**
     * Loading the contents of a file. An odd length is refused and nothing
     * changes; otherwise the byte pairs become the buffer, the buffer is split
     * into paragraphs, and the file is laid out at the default width, scrolled
     * to the top, in palette mode 0.
     */
    method Load(data: seq<byte>) returns (ok: bool)
      modifies this
      ensures ok <==> |data| % 2 == 0
      ensures !ok ==> unchanged(this)
      ensures ok ==> Valid()
      ensures ok ==> cells == CellsOf(data) && totalCells * BytesPerCell == |data|
      ensures ok ==> CurrentView() == View(DefaultWidth, 0, 0) && paletteMode == 0
    {
      if |data| % 2 != 0 {
        return false;
      }
      Install(data);
      RecalculateLayout();
      ok := true;
    }

    /**
     * The half of loading before the re-layout: the byte pairs decoded into a
     * fresh buffer, the buffer split into a fresh paragraph index, the default
     * width, no scrolling, palette mode 0.
     */
    method Install(data: seq<byte>)
      requires |data| % 2 == 0
      modifies this
      ensures Indexed() && cells == CellsOf(data) && totalCells == |data| / 2
      ensures CurrentView() == View(DefaultWidth, 0, 0) && paletteMode == 0
    {
      var decoded := DecodeCells(data);
      var paras, count := SplitParagraphs(decoded);
      ghost var cs := decoded[..];
      buffer, totalCells, paragraphs, paragraphCount := decoded, |data| / 2, paras, count;
      gridWidth, offsetX, offsetY, paletteMode := DefaultWidth, 0, 0, 0;
      cells, index := cs, Paragraphs(cs);
    }

    /**
     * Re-laying the document out at the current grid width: a fresh display-line
     * table with one entry per display line of every paragraph, in order; the
     * file dimensions it implies; and each scroll offset lowered to its new limit.
     */
    method RecalculateLayout()
      requires Indexed() && MinWidth <= gridWidth <= MaxWidth && offsetX >= 0 && offsetY >= 0
      modifies this`fileWidth, this`displayLines, this`displayLineCount, this`fileHeight, this`offsetX, this`offsetY, this`layout
      ensures fresh(displayLines) && Valid()
      ensures CurrentView() == Relayout(index, old(CurrentView()))
    {
      var total := CountDisplayLines(paragraphs, paragraphCount, gridWidth, index);
      var table := FillDisplayLines(paragraphs, paragraphCount, gridWidth, total, index);
      var x, y := Clamp(offsetX, offsetY, gridWidth, total, index);
      layout := DisplayLines(index, gridWidth);
      fileWidth, displayLines, displayLineCount, fileHeight, offsetX, offsetY := gridWidth, table, total, total, x, y;
    }

    /**
     * The width keys: Add widens the grid by one cell up to MaxWidth, Subtract
     * narrows it by one down to MinWidth, and either re-lays the document out.
     */
    method ChangeWidth(key: Key) returns (changed: bool)
      requires Valid() && (key == Add || key == Subtract)
      modifies this`fileWidth, this`displayLines, this`displayLineCount, this`fileHeight, this`offsetX, this`offsetY, this`layout, this`gridWidth
      ensures Valid()
      ensures (CurrentView(), changed) == Step(index, old(CurrentView()), key)
    {
      var width := NewWidth(key, gridWidth);
      WidthKeyStep(index, CurrentView(), key, width);
      changed := width != gridWidth;
      if changed {
        ghost var v := CurrentView().(width := width);
        gridWidth := width;
        RecalculateLayout();
        assert CurrentView() == Relayout(index, v);
      }
    }

    /**
     * One key press: the viewport moves as Step says, the width keys re-lay the
     * document out, and the result says whether a redraw is requested. The
     * buffer, the paragraph index and the palette mode are left alone.
     */
    method KeyDown(key: Key) returns (changed: bool)
      requires Valid()
      modifies this`fileWidth, this`displayLines, this`displayLineCount, this`fileHeight, this`offsetX, this`offsetY, this`layout, this`gridWidth
      ensures Valid()
      ensures (CurrentView(), changed) == Step(index, old(CurrentView()), key)
    {
      if key == Add || key == Subtract {
        changed := ChangeWidth(key);
      } else {
        changed := ScrollView(key);
      }
    }

    /** An arrow or page key: the offsets move within the limits of the current layout. */
    method ScrollView(key: Key) returns (changed: bool)
      requires Valid() && key != Add && key != Subtract
      modifies this`offsetX, this`offsetY
      ensures Valid()
      ensures (CurrentView(), changed) == Step(index, old(CurrentView()), key)
    {
      var maxOffsetX := fileWidth as int - gridWidth as int;
      var maxOffsetY := fileHeight as int - GridHeight as int;
      if maxOffsetX < 0 {
        maxOffsetX := 0;
      }
      if maxOffsetY < 0 {
        maxOffsetY := 0;
      }
      var x, y;
      x, y, changed := Scroll(key, offsetX, offsetY, maxOffsetX, maxOffsetY, displayLineCount, index, gridWidth);
      offsetX, offsetY := x, y;
    }

    /**
     * The cell painted at row y, column x of the grid, read from the three
     * arrays with the paint handler's arithmetic, or None where a blank is painted.
     */
    function CellAt(y: nat, x: nat): (r: Option<Cell>)
      reads this, buffer, paragraphs, displayLines
      requires Valid()
      ensures r == ScreenCell(cells, gridWidth, offsetX as nat, offsetY as nat, y, x)
    {
      var displayLineIdx := offsetY + y;
      if displayLineIdx < displayLineCount then
        var column := offsetX + x;
        FileLineCells(cells, gridWidth, displayLineIdx, column);
        var dl := displayLines[displayLineIdx];
        var paragraphStart := paragraphs[dl.paragraph].start;
        var paragraphLen := paragraphs[dl.paragraph].length;
        var lineStartInPara := dl.lineInParagraph * gridWidth;
        var charsInLine :=
          if lineStartInPara < paragraphLen then
            (if paragraphLen - lineStartInPara > gridWidth then gridWidth else paragraphLen - lineStartInPara)
          else 0;
        if column < charsInLine then Some(buffer[paragraphStart + lineStartInPara + column]) else None
      else None
    }

    /**
     * The character and background colour painted at row y, column x: a blank is
     * a space on black, any other cell its own character on its palette colour.
     */
    function Appearance(y: nat, x: nat): (r: (byte, Rgb))
      reads this, buffer, paragraphs, displayLines
      requires Valid()
      ensures IsColor(r.1)
      ensures ScreenCell(cells, gridWidth, offsetX as nat, offsetY as nat, y, x).None? ==> r == (0x20, Rgb(0, 0, 0))
      ensures ScreenCell(cells, gridWidth, offsetX as nat, offsetY as nat, y, x).Some? ==>
        var c := ScreenCell(cells, gridWidth, offsetX as nat, offsetY as nat, y, x).value;
        r == (c.character, ColorFromByte(paletteMode, c.bgcolor))
    {
      match CellAt(y, x)
      case None => (0x20, Rgb(0, 0, 0))
      case Some(c) => (c.character, ColorFromByte(paletteMode, c.bgcolor))
    }

    /** The file offset printed at the head of row y, or None where the row is past the document. */
    function RowLabel(y: nat): (r: Option<nat>)
      reads this, buffer, paragraphs, displayLines
      requires Valid()
      ensures r == RowOffset(cells, gridWidth, offsetY as nat, y)
    {
      var displayLineIdx := offsetY + y;
      if displayLineIdx < displayLineCount then
        FileLineCells(cells, gridWidth, displayLineIdx, 0);
        var dl := displayLines[displayLineIdx];
        var paragraphStart := paragraphs[dl.paragraph].start;
        var lineStartInPara := dl.lineInParagraph * gridWidth;
        Some((paragraphStart + lineStartInPara) * 2)
      else None
    }
  }
}
