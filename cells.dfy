/**
 * The cell store. A viewer file is a flat sequence of byte pairs
 * (character, background colour); the loader turns it into cells.
 */
module CellStore {
  import opened Wrappers

  newtype byte = x: int | 0 <= x < 256

  /** One grid cell: the glyph's byte and its background-colour byte. */
  datatype Cell = Cell(character: byte, bgcolor: byte)

  /** The character value that ends a paragraph ('\n'). */
  const Newline: byte := 0x0A

  /** Bytes on disk per cell. */
  const BytesPerCell: nat := 2

  datatype LoadError = OddFileLength

  predicate IsNewline(c: Cell) {
    c.character == Newline
  }

  /** The cells of an even-length byte sequence, pair by pair. */
  function CellsOf(data: seq<byte>): (cells: seq<Cell>)
    requires |data| % 2 == 0
    ensures |cells| * BytesPerCell == |data|
    ensures forall i :: 0 <= i < |cells| ==> cells[i] == Cell(data[2 * i], data[2 * i + 1])
    decreases |data|
  {
    if data == [] then [] else [Cell(data[0], data[1])] + CellsOf(data[2..])
  }

  /** Loading a byte sequence: an odd length is a format error, otherwise the pairs become cells. */
  function Decode(data: seq<byte>): (r: Result<seq<Cell>, LoadError>)
    ensures r.Err? <==> |data| % 2 != 0
    ensures r.Ok? ==> |r.value| == |data| / 2
    ensures r.Ok? ==> forall i :: 0 <= i < |r.value| ==> r.value[i] == Cell(data[2 * i], data[2 * i + 1])
  {
    if |data| % 2 != 0 then Err(OddFileLength) else Ok(CellsOf(data))
  }

  /** The file a sequence of cells is stored as: each cell's character byte, then its colour byte. */
  function Encode(cells: seq<Cell>): (data: seq<byte>)
    ensures |data| == BytesPerCell * |cells|
  {
    if cells == [] then [] else [cells[0].character, cells[0].bgcolor] + Encode(cells[1..])
  }

  lemma {:induction false} CellsOfEncode(cells: seq<Cell>)
    ensures CellsOf(Encode(cells)) == cells
  {
    if cells != [] {
      CellsOfEncode(cells[1..]);
      assert Encode(cells)[2..] == Encode(cells[1..]);
    }
  }

  /** Every sequence of cells is loaded back from the file it is stored as. */
  lemma DecodeEncode(cells: seq<Cell>)
    ensures Decode(Encode(cells)) == Ok(cells)
  {
    CellsOfEncode(cells);
  }

  /** Every even-length file is the stored form of the cells it loads as. */
  lemma {:induction false} EncodeDecode(data: seq<byte>)
    requires |data| % 2 == 0
    ensures Decode(data).Ok? && Encode(Decode(data).value) == data
  {
    if data != [] {
      EncodeDecode(data[2..]);
      assert data == [data[0], data[1]] + data[2..];
    }
  }
}
