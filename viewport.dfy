/**
 * The viewport: grid width and scroll offsets, the clamping done after a
 * re-layout, and the effect of each key the viewer handles.
 */
module Viewport {
  import opened ParagraphIndex
  import opened Layout

  /** Rows of the grid. */
  const GridHeight: nat := 40
  /** Narrowest and widest grid, in cells. */
  const MinWidth: nat := 20
  const MaxWidth: nat := 200
  /** The grid width a freshly loaded file is shown at. */
  const DefaultWidth: nat := 80

  /** Grid width and scroll offsets (signed, as in the viewer). */
  datatype View = View(width: nat, offsetX: int, offsetY: int)

  /** The keys with an effect on the viewport; every other key is Other. */
  datatype Key = Add | Subtract | Left | Right | Up | Down | PageUp | PageDown | Home | End | Other

  /**
   * The largest useful scroll offset over `size` rows (or columns) of which
   * `visible` fit: with it the last one is on screen, and below it none is left out.
   */
  function MaxOffset(size: nat, visible: nat): (m: nat)
    ensures m + visible >= size
    ensures m > 0 ==> m + visible == size
  {
    if size > visible then size - visible else 0
  }

  /**
   * The horizontal limit: the file is exactly as wide as the grid (its
   * width is set to the grid width at every re-layout), so it is 0.
   */
  function MaxOffsetX(width: nat): (m: nat)
    ensures m == 0
  {
    MaxOffset(width, width)
  }

  /** The vertical limit: the display-line count less the grid height, or 0. */
  function MaxOffsetY(ps: seq<Paragraph>, width: nat): (m: nat)
    requires width >= 1
    ensures m + GridHeight >= TotalLines(ps, width)
    ensures m > 0 ==> m + GridHeight == TotalLines(ps, width)
  {
    MaxOffset(TotalLines(ps, width), GridHeight)
  }

  /** The width is one the keys allow and both offsets lie in [0, limit]. */
  predicate InBounds(ps: seq<Paragraph>, v: View) {
    MinWidth <= v.width <= MaxWidth &&
    0 <= v.offsetX <= MaxOffsetX(v.width) &&
    0 <= v.offsetY <= MaxOffsetY(ps, v.width)
  }

  /** Horizontal scrolling is inert: in bounds, offsetX is always 0. */
  lemma NoHorizontalScroll(ps: seq<Paragraph>, v: View)
    requires InBounds(ps, v)
    ensures v.offsetX == 0
  {
  }

  /**
   * The clamping at the end of a re-layout: each offset above its new limit is
   * lowered to the limit; an offset within it, or a negative one, is kept.
   */
  function Relayout(ps: seq<Paragraph>, v: View): (r: View)
    requires v.width >= 1
    ensures r.width == v.width
    ensures r.offsetX <= MaxOffsetX(v.width) && r.offsetY <= MaxOffsetY(ps, v.width)
    ensures v.offsetX <= MaxOffsetX(v.width) ==> r.offsetX == v.offsetX
    ensures v.offsetY <= MaxOffsetY(ps, v.width) ==> r.offsetY == v.offsetY
    ensures v.offsetX > MaxOffsetX(v.width) ==> r.offsetX == MaxOffsetX(v.width)
    ensures v.offsetY > MaxOffsetY(ps, v.width) ==> r.offsetY == MaxOffsetY(ps, v.width)
    ensures MinWidth <= v.width <= MaxWidth && v.offsetX >= 0 && v.offsetY >= 0 ==> InBounds(ps, r) && r.offsetX == 0
  {
    var maxX := MaxOffsetX(v.width);
    var maxY := MaxOffsetY(ps, v.width);
    View(v.width,
         if v.offsetX > maxX then maxX else v.offsetX,
         if v.offsetY > maxY then maxY else v.offsetY)
  }

  /** Re-laying out twice at the same width leaves the view as re-laying out once does. */
  lemma RelayoutIdempotent(ps: seq<Paragraph>, v: View)
    requires v.width >= 1
    ensures Relayout(ps, Relayout(ps, v)) == Relayout(ps, v)
  {
  }

  /**
   * One key press: the new view and whether a redraw is requested. Width keys
   * re-lay the document out; End jumps to the last screenful and column 0.
   */
  function Step(ps: seq<Paragraph>, v: View, key: Key): (r: (View, bool))
    requires v.width >= 1
    ensures r.0.width >= 1
    // A redraw is requested exactly when the view changed, except for the
    // page keys, which always request one.
    ensures !r.1 ==> r.0 == v
    ensures key != PageUp && key != PageDown ==> (r.1 <==> r.0 != v)
    ensures key == PageUp || key == PageDown ==> r.1
    // The width moves by one, only through the width keys, and only inside [MinWidth, MaxWidth].
    ensures r.0.width != v.width ==>
      (key == Add && r.0.width == v.width + 1 <= MaxWidth) ||
      (key == Subtract && MinWidth <= r.0.width == v.width - 1)
    ensures key == Add ==> (r.1 <==> v.width < MaxWidth)
    ensures key == Subtract ==> (r.1 <==> v.width > MinWidth)
    // Arrow keys move one offset by exactly one, toward the inside of [0, limit].
    ensures key in {Left, Right, Up, Down} ==> r.0.width == v.width
    ensures key in {Left, Right} ==> r.0.offsetY == v.offsetY
    ensures key in {Up, Down} ==> r.0.offsetX == v.offsetX
    ensures key == Left ==> (r.1 <==> v.offsetX > 0) && (r.1 ==> r.0.offsetX == v.offsetX - 1)
    ensures key == Right ==> (r.1 <==> v.offsetX < MaxOffsetX(v.width)) && (r.1 ==> r.0.offsetX == v.offsetX + 1)
    ensures key == Up ==> (r.1 <==> v.offsetY > 0) && (r.1 ==> r.0.offsetY == v.offsetY - 1)
    ensures key == Down ==> (r.1 <==> v.offsetY < MaxOffsetY(ps, v.width)) && (r.1 ==> r.0.offsetY == v.offsetY + 1)
    // Page keys move a screenful, stopping at 0 and at the limit.
    ensures key in {PageUp, PageDown} ==> r.0.width == v.width && r.0.offsetX == v.offsetX
    ensures key == PageUp ==> r.0.offsetY >= 0 && (r.0.offsetY > 0 ==> r.0.offsetY == v.offsetY - GridHeight)
    ensures key == PageDown ==>
      r.0.offsetY <= MaxOffsetY(ps, v.width) &&
      (r.0.offsetY < MaxOffsetY(ps, v.width) ==> r.0.offsetY == v.offsetY + GridHeight)
    ensures key == PageUp && v.offsetY >= GridHeight ==> r.0.offsetY == v.offsetY - GridHeight
    ensures key == PageDown && v.offsetY + GridHeight <= MaxOffsetY(ps, v.width) ==> r.0.offsetY == v.offsetY + GridHeight
    // Home goes to the first row, End to the last screenful at column 0.
    ensures key == Home ==> r.0 == View(v.width, v.offsetX, 0)
    ensures key == End ==> r.0 == View(v.width, 0, MaxOffsetY(ps, v.width))
    ensures key == Other ==> !r.1
  {
    var maxX := MaxOffsetX(v.width);
    var maxY := MaxOffsetY(ps, v.width);
    match key
    case Add =>
      if v.width < MaxWidth then (Relayout(ps, v.(width := v.width + 1)), true) else (v, false)
    case Subtract =>
      if v.width > MinWidth then (Relayout(ps, v.(width := v.width - 1)), true) else (v, false)
    case Left =>
      if v.offsetX > 0 then (v.(offsetX := v.offsetX - 1), true) else (v, false)
    case Right =>
      if v.offsetX < maxX then (v.(offsetX := v.offsetX + 1), true) else (v, false)
    case Up =>
      if v.offsetY > 0 then (v.(offsetY := v.offsetY - 1), true) else (v, false)
    case Down =>
      if v.offsetY < maxY then (v.(offsetY := v.offsetY + 1), true) else (v, false)
    case PageUp =>
      var y := v.offsetY - GridHeight;
      (v.(offsetY := if y < 0 then 0 else y), true)
    case PageDown =>
      var y := v.offsetY + GridHeight;
      (v.(offsetY := if y > maxY then maxY else y), true)
    case Home =>
      if v.offsetY != 0 then (v.(offsetY := 0), true) else (v, false)
    case End =>
      var last := MaxOffset(TotalLines(ps, v.width), GridHeight);
      if v.offsetY != last || v.offsetX != 0 then (View(v.width, 0, last), true) else (v, false)
    case Other =>
      (v, false)
  }

  /** The width keys as a move to width w: a re-layout at w when w differs, otherwise nothing. */
  lemma WidthKeyStep(ps: seq<Paragraph>, v: View, key: Key, w: nat)
    requires v.width >= 1 && (key == Add || key == Subtract)
    requires key == Add ==> w == if v.width < MaxWidth then v.width + 1 else v.width
    requires key == Subtract ==> w == if v.width > MinWidth then v.width - 1 else v.width
    ensures Step(ps, v, key) == if w != v.width then (Relayout(ps, v.(width := w)), true) else (v, false)
  {
  }

  /** Every key keeps the viewport in bounds. */
  lemma StepInBounds(ps: seq<Paragraph>, v: View, key: Key)
    requires InBounds(ps, v)
    ensures InBounds(ps, Step(ps, v, key).0)
  {
  }

  /** In bounds, Left and Right do nothing and request no redraw. */
  lemma HorizontalKeysInert(ps: seq<Paragraph>, v: View)
    requires InBounds(ps, v)
    ensures Step(ps, v, Left) == (v, false) && Step(ps, v, Right) == (v, false)
  {
  }

  /** Scrolling down a page and back up returns to the start when the page fits below the limit. */
  lemma PageDownUp(ps: seq<Paragraph>, v: View)
    requires InBounds(ps, v) && v.offsetY + GridHeight <= MaxOffsetY(ps, v.width)
    ensures Step(ps, Step(ps, v, PageDown).0, PageUp).0 == v
  {
  }
}
