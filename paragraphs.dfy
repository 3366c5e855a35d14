/**
 * The paragraph index: the cells cut into paragraphs at newline cells.
 * A newline cell belongs to no paragraph; a trailing run without a newline
 * is a paragraph only when it is non-empty or the whole file is empty.
 */
module ParagraphIndex {
  import opened Wrappers
  import opened CellStore

  /** A paragraph: the index of its first cell and its length, the newline excluded. */
  datatype Paragraph = Paragraph(start: nat, length: nat) {
    /** One past its last cell: where its newline is, when it has one. */
    function End(): nat {
      start + length
    }

    predicate Holds(i: int) {
      start <= i < End()
    }
  }

  /** The index of the first newline cell at or after `from`, or |cells| when there is none. */
  function NextNewline(cells: seq<Cell>, from: nat): (e: nat)
    requires from <= |cells|
    ensures from <= e <= |cells|
    ensures e < |cells| ==> IsNewline(cells[e])
    ensures forall j :: from <= j < e ==> !IsNewline(cells[j])
    decreases |cells| - from
  {
    if from == |cells| || IsNewline(cells[from]) then from else NextNewline(cells, from + 1)
  }

  /** The paragraphs of cells[from..]. */
  function SplitFrom(cells: seq<Cell>, from: nat): (ps: seq<Paragraph>)
    requires from <= |cells|
    ensures |ps| <= |cells| - from + 1
    decreases |cells| - from
  {
    var e := NextNewline(cells, from);
    if e < |cells| then [Paragraph(from, e - from)] + SplitFrom(cells, e + 1)
    else if from < |cells| || |cells| == 0 then [Paragraph(from, e - from)]
    else []
  }

  /** The paragraph index of a loaded file. */
  function Paragraphs(cells: seq<Cell>): (ps: seq<Paragraph>)
    ensures 1 <= |ps| <= |cells| + 1
    ensures ps[0].start == 0
  {
    SplitFromSize(cells, 0);
    SplitFrom(cells, 0)
  }

  /** Each paragraph after the first starts one cell (the newline) after the previous one ends. */
  ghost predicate Chained(ps: seq<Paragraph>) {
    forall k :: 0 < k < |ps| ==> ps[k].start == ps[k - 1].End() + 1
  }

  /** Paragraphs lie inside the cells and hold no newline cell. */
  ghost predicate Clean(cells: seq<Cell>, ps: seq<Paragraph>) {
    forall k :: 0 <= k < |ps| ==>
      ps[k].End() <= |cells| && forall j :: ps[k].start <= j < ps[k].End() ==> !IsNewline(cells[j])
  }

  /** Every paragraph but the last is followed by a newline cell. */
  ghost predicate Terminated(cells: seq<Cell>, ps: seq<Paragraph>) {
    forall k :: 0 <= k < |ps| - 1 ==> ps[k].End() < |cells| && IsNewline(cells[ps[k].End()])
  }

  /**
   * The last paragraph either runs to the end of the file (and is then
   * non-empty, unless the file is) or is followed by the file's final cell, a newline.
   */
  ghost predicate LastEndsFile(cells: seq<Cell>, ps: seq<Paragraph>)
    requires |ps| > 0
  {
    var last := ps[|ps| - 1];
    (last.End() == |cells| && (last.length > 0 || |cells| == 0)) ||
    (last.End() + 1 == |cells| && IsNewline(cells[last.End()]))
  }

  /** The paragraphs are ordered and disjoint: each ends before the next one starts. */
  ghost predicate Ordered(ps: seq<Paragraph>) {
    forall a, b :: 0 <= a < b < |ps| ==> ps[a].End() < ps[b].start
  }

  lemma {:induction false} SplitFromSize(cells: seq<Cell>, from: nat)
    requires from <= |cells|
    ensures |SplitFrom(cells, from)| <= |cells| - from + 1
    ensures SplitFrom(cells, from) == [] <==> (from == |cells| && |cells| > 0)
    ensures SplitFrom(cells, from) != [] ==> SplitFrom(cells, from)[0].start == from
    decreases |cells| - from
  {
    var e := NextNewline(cells, from);
    if e < |cells| {
      SplitFromSize(cells, e + 1);
    }
  }

  /** A newline at i, with none before it from `from` on, closes the paragraph starting at `from`. */
  lemma SplitAtNewline(cells: seq<Cell>, from: nat, i: nat)
    requires from <= i < |cells| && IsNewline(cells[i])
    requires forall j :: from <= j < i ==> !IsNewline(cells[j])
    ensures SplitFrom(cells, from) == [Paragraph(from, i - from)] + SplitFrom(cells, i + 1)
  {
    assert NextNewline(cells, from) == i;
  }

  /** With no newline from `from` on, what is left is one final paragraph, or nothing when it would be empty in a non-empty file. */
  lemma SplitAtEnd(cells: seq<Cell>, from: nat)
    requires from <= |cells|
    requires forall j :: from <= j < |cells| ==> !IsNewline(cells[j])
    ensures SplitFrom(cells, from) == if from < |cells| || |cells| == 0 then [Paragraph(from, |cells| - from)] else []
  {
    assert NextNewline(cells, from) == |cells|;
  }

  /** Where the paragraph open after the first i cells starts: one past the last newline among them, or 0. */
  function OpenStart(cells: seq<Cell>, i: nat): (s: nat)
    requires i <= |cells|
    ensures s <= i
  {
    if i == 0 then 0 else if IsNewline(cells[i - 1]) then i else OpenStart(cells, i - 1)
  }

  /** The paragraphs closed by the newlines among the first i cells, in order: the split as one left-to-right pass. */
  function ClosedBefore(cells: seq<Cell>, i: nat): (ps: seq<Paragraph>)
    requires i <= |cells|
    ensures |ps| <= OpenStart(cells, i)
  {
    if i == 0 then []
    else if IsNewline(cells[i - 1]) then
      ClosedBefore(cells, i - 1) + [Paragraph(OpenStart(cells, i - 1), i - 1 - OpenStart(cells, i - 1))]
    else ClosedBefore(cells, i - 1)
  }

  /**
   * The pass agrees with the split at every point: the paragraphs closed so
   * far, followed by the split from the open paragraph's start, are the whole
   * split; and the open paragraph has no newline yet.
   */
  lemma {:induction false} ClosedBeforeSplit(cells: seq<Cell>, i: nat)
    requires i <= |cells|
    ensures ClosedBefore(cells, i) + SplitFrom(cells, OpenStart(cells, i)) == SplitFrom(cells, 0)
  {
    if i > 0 {
      ClosedBeforeSplit(cells, i - 1);
      var from := OpenStart(cells, i - 1);
      var closed := ClosedBefore(cells, i - 1);
      if IsNewline(cells[i - 1]) {
        OpenStartClean(cells, i - 1);
        SplitCloses(cells, closed, from, i - 1);
        assert OpenStart(cells, i) == i && ClosedBefore(cells, i) == closed + [Paragraph(from, i - 1 - from)];
      } else {
        assert OpenStart(cells, i) == from && ClosedBefore(cells, i) == closed;
      }
    }
  }

  /** One newline step of the pass: it closes the open paragraph, and the split continues after it. */
  lemma SplitCloses(cells: seq<Cell>, closed: seq<Paragraph>, from: nat, i: nat)
    requires from <= i < |cells| && IsNewline(cells[i])
    requires forall j :: from <= j < i ==> !IsNewline(cells[j])
    requires closed + SplitFrom(cells, from) == SplitFrom(cells, 0)
    ensures (closed + [Paragraph(from, i - from)]) + SplitFrom(cells, i + 1) == SplitFrom(cells, 0)
  {
    SplitAtNewline(cells, from, i);
    var rest := SplitFrom(cells, i + 1);
    assert closed + ([Paragraph(from, i - from)] + rest) == (closed + [Paragraph(from, i - from)]) + rest;
  }

  /** The open paragraph holds no newline yet. */
  lemma {:induction false} OpenStartClean(cells: seq<Cell>, i: nat)
    requires i <= |cells|
    ensures forall j :: OpenStart(cells, i) <= j < i ==> !IsNewline(cells[j])
  {
    if i > 0 && !IsNewline(cells[i - 1]) {
      OpenStartClean(cells, i - 1);
    }
  }

  /** At the end of the pass, the trailing paragraph is added when it is non-empty or the file is empty. */
  lemma ClosedBeforeParagraphs(cells: seq<Cell>)
    ensures Paragraphs(cells) ==
      var from := OpenStart(cells, |cells|);
      ClosedBefore(cells, |cells|) + if from < |cells| || |cells| == 0 then [Paragraph(from, |cells| - from)] else []
  {
    ClosedBeforeSplit(cells, |cells|);
    OpenStartClean(cells, |cells|);
    SplitAtEnd(cells, OpenStart(cells, |cells|));
  }

  lemma {:induction false} SplitFromClean(cells: seq<Cell>, from: nat)
    requires from <= |cells|
    ensures Clean(cells, SplitFrom(cells, from))
    ensures forall k :: 0 <= k < |SplitFrom(cells, from)| ==> from <= SplitFrom(cells, from)[k].start
    decreases |cells| - from
  {
    var e := NextNewline(cells, from);
    var ps := SplitFrom(cells, from);
    var first := Paragraph(from, e - from);
    assert forall j :: first.start <= j < first.End() ==> !IsNewline(cells[j]);
    if e < |cells| {
      SplitFromClean(cells, e + 1);
      var rest := SplitFrom(cells, e + 1);
      assert ps == [first] + rest;
      forall k | 0 < k < |ps|
        ensures ps[k].End() <= |cells| && (forall j :: ps[k].start <= j < ps[k].End() ==> !IsNewline(cells[j]))
        ensures from <= ps[k].start
      {
        assert ps[k] == rest[k - 1];
      }
    } else {
      assert ps == [] || ps == [first];
    }
  }

  lemma {:induction false} SplitFromChained(cells: seq<Cell>, from: nat)
    requires from <= |cells|
    ensures Chained(SplitFrom(cells, from))
    decreases |cells| - from
  {
    var e := NextNewline(cells, from);
    if e < |cells| {
      SplitFromChained(cells, e + 1);
      SplitFromSize(cells, e + 1);
      var rest := SplitFrom(cells, e + 1);
      var ps := SplitFrom(cells, from);
      assert ps == [Paragraph(from, e - from)] + rest;
      forall k | 0 < k < |ps| ensures ps[k].start == ps[k - 1].End() + 1 {
        assert ps[k] == rest[k - 1];
        if k > 1 {
          assert ps[k - 1] == rest[k - 2];
        }
      }
    }
  }

  lemma {:induction false} SplitFromTerminated(cells: seq<Cell>, from: nat)
    requires from <= |cells|
    ensures Terminated(cells, SplitFrom(cells, from))
    decreases |cells| - from
  {
    var e := NextNewline(cells, from);
    if e < |cells| {
      SplitFromTerminated(cells, e + 1);
      var rest := SplitFrom(cells, e + 1);
      var ps := SplitFrom(cells, from);
      assert ps == [Paragraph(from, e - from)] + rest;
      forall k | 0 < k < |ps| - 1 ensures ps[k].End() < |cells| && IsNewline(cells[ps[k].End()]) {
        assert ps[k] == rest[k - 1];
      }
    }
  }

  lemma {:induction false} SplitFromLast(cells: seq<Cell>, from: nat)
    requires from <= |cells| && SplitFrom(cells, from) != []
    ensures LastEndsFile(cells, SplitFrom(cells, from))
    decreases |cells| - from
  {
    var e := NextNewline(cells, from);
    if e < |cells| {
      SplitFromSize(cells, e + 1);
      var rest := SplitFrom(cells, e + 1);
      if rest != [] {
        SplitFromLast(cells, e + 1);
        var ps := SplitFrom(cells, from);
        assert ps == [Paragraph(from, e - from)] + rest;
        assert ps[|ps| - 1] == rest[|rest| - 1];
      }
    }
  }

  lemma {:induction false} ChainedOrdered(ps: seq<Paragraph>)
    requires Chained(ps)
    ensures Ordered(ps)
  {
    if |ps| > 1 {
      var init := ps[..|ps| - 1];
      assert Chained(init) by {
        forall k | 0 < k < |init| ensures init[k].start == init[k - 1].End() + 1 {
          assert init[k] == ps[k] && init[k - 1] == ps[k - 1];
        }
      }
      ChainedOrdered(init);
      forall a, b | 0 <= a < b < |ps| ensures ps[a].End() < ps[b].start {
        if b < |ps| - 1 {
          assert init[a] == ps[a] && init[b] == ps[b];
        } else if a < b - 1 {
          assert init[a] == ps[a] && init[b - 1] == ps[b - 1];
        }
      }
    }
  }

  /** The paragraph index is well formed: the properties the loader's loop guarantees. */
  lemma ParagraphsWellFormed(cells: seq<Cell>)
    ensures Chained(Paragraphs(cells)) && Ordered(Paragraphs(cells))
    ensures Clean(cells, Paragraphs(cells))
    ensures Terminated(cells, Paragraphs(cells)) && LastEndsFile(cells, Paragraphs(cells))
  {
    SplitFromChained(cells, 0);
    SplitFromTerminated(cells, 0);
    SplitFromLast(cells, 0);
    SplitFromClean(cells, 0);
    ChainedOrdered(Paragraphs(cells));
  }

  /** Paragraph p lies inside the buffer, and its cell j is not a newline. */
  lemma ParagraphCell(cells: seq<Cell>, p: nat, j: nat)
    requires p < |Paragraphs(cells)|
    ensures Paragraphs(cells)[p].End() <= |cells|
    ensures j < Paragraphs(cells)[p].length ==> !IsNewline(cells[Paragraphs(cells)[p].start + j])
  {
    SplitFromClean(cells, 0);
  }

  /** The last paragraph ends the file, or is followed only by the file's final newline; it is empty only when the file ends in a newline or is empty. */
  lemma LastParagraph(cells: seq<Cell>)
    ensures var last := Paragraphs(cells)[|Paragraphs(cells)| - 1];
      (last.End() == |cells| && (last.length > 0 || |cells| == 0)) ||
      (last.End() + 1 == |cells| && IsNewline(cells[last.End()]))
  {
    SplitFromLast(cells, 0);
  }

  /** No paragraph of ps holds cell i. */
  ghost predicate Unheld(ps: seq<Paragraph>, i: int) {
    forall q :: 0 <= q < |ps| ==> !ps[q].Holds(i)
  }

  lemma {:induction false} SplitFromCovers(cells: seq<Cell>, from: nat, i: nat)
    requires from <= i < |cells|
    ensures IsNewline(cells[i]) <==> Unheld(SplitFrom(cells, from), i)
    decreases |cells| - from
  {
    var e := NextNewline(cells, from);
    var ps := SplitFrom(cells, from);
    if i < e {
      assert ps[0].Holds(i);
    } else {
      var rest := SplitFrom(cells, e + 1);
      assert ps == [Paragraph(from, e - from)] + rest;
      assert !ps[0].Holds(i) && forall q :: 0 < q < |ps| ==> ps[q] == rest[q - 1];
      if i == e {
        SplitFromClean(cells, e + 1);
        assert Unheld(ps, i);
      } else {
        SplitFromCovers(cells, e + 1, i);
        assert Unheld(rest, i) ==> Unheld(ps, i);
        assert Unheld(ps, i) ==> Unheld(rest, i) by {
          if Unheld(ps, i) {
            forall q | 0 <= q < |rest| ensures !rest[q].Holds(i) {
              assert rest[q] == ps[q + 1];
            }
          }
        }
      }
    }
  }

  /**
   * The paragraphs partition the cells minus the newline cells: a cell is a
   * newline exactly when no paragraph holds it, and no two paragraphs hold the same cell.
   */
  lemma ParagraphsPartition(cells: seq<Cell>, i: nat)
    requires i < |cells|
    ensures IsNewline(cells[i]) <==> Unheld(Paragraphs(cells), i)
    ensures forall q1, q2 :: 0 <= q1 < q2 < |Paragraphs(cells)| ==> !(Paragraphs(cells)[q1].Holds(i) && Paragraphs(cells)[q2].Holds(i))
  {
    SplitFromCovers(cells, 0, i);
    SplitFromChained(cells, 0);
    ChainedOrdered(Paragraphs(cells));
  }

  /** The paragraph holding cell i, and i's position in it; None for a newline cell. */
  function Locate(ps: seq<Paragraph>, i: nat): Option<(nat, nat)> {
    LocateFrom(ps, i, 0)
  }

  function LocateFrom(ps: seq<Paragraph>, i: nat, q: nat): Option<(nat, nat)>
    decreases |ps| - q
  {
    if q >= |ps| then None
    else if ps[q].Holds(i) then Some((q, i - ps[q].start))
    else LocateFrom(ps, i, q + 1)
  }

  lemma {:induction false} LocateFromFinds(ps: seq<Paragraph>, p: nat, j: nat, q: nat)
    requires Ordered(ps) && q <= p < |ps| && j < ps[p].length
    ensures LocateFrom(ps, ps[p].start + j, q) == Some((p, j))
    decreases p - q
  {
    if q < p {
      assert ps[q].End() < ps[p].start;
      LocateFromFinds(ps, p, j, q + 1);
    }
  }

  /** Position translation round trip: cell j of paragraph p is located back at (p, j). */
  lemma LocateParagraphCell(cells: seq<Cell>, p: nat, j: nat)
    requires p < |Paragraphs(cells)| && j < Paragraphs(cells)[p].length
    ensures Locate(Paragraphs(cells), Paragraphs(cells)[p].start + j) == Some((p, j))
  {
    SplitFromChained(cells, 0);
    ChainedOrdered(Paragraphs(cells));
    LocateFromFinds(Paragraphs(cells), p, j, 0);
  }

  /** A file without newline cells is one paragraph spanning all of it. */
  lemma SingleParagraph(cells: seq<Cell>)
    requires forall i :: 0 <= i < |cells| ==> !IsNewline(cells[i])
    ensures Paragraphs(cells) == [Paragraph(0, |cells|)]
  {
    assert NextNewline(cells, 0) == |cells|;
  }
}
