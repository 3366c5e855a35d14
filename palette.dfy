/**
 * The background palette: a colour byte mapped to an RGB triple, either as a
 * grey level or on a blue-black-red scale centred on 0x80.
 */
module Palette {
  import opened CellStore

  /** A colour as its three channels. */
  datatype Rgb = Rgb(red: int, green: int, blue: int)

  /** Every channel fits the 0..255 range of a colour byte. */
  predicate IsColor(c: Rgb) {
    0 <= c.red <= 255 && 0 <= c.green <= 255 && 0 <= c.blue <= 255
  }

  /**
   * Palette mode 0 is grey; any other mode gives black for 0x80, red growing
   * from 0x81 up to 0xFF, and blue growing from 0x7F down to 0x00.
   */
  function ColorFromByte(paletteMode: int, bgcolor: byte): (c: Rgb)
    ensures IsColor(c)
    ensures paletteMode == 0 ==> c.red == c.green == c.blue == bgcolor as int
    ensures paletteMode != 0 ==> c.green == 0 && (c.red == 0 || c.blue == 0)
    ensures paletteMode != 0 ==> (c.red > 0 <==> bgcolor >= 0x81) && (c.blue > 0 <==> bgcolor < 0x7F)
  {
    if paletteMode == 0 then
      Rgb(bgcolor as int, bgcolor as int, bgcolor as int)
    else if bgcolor == 0x80 then
      Rgb(0, 0, 0)
    else if bgcolor >= 0x81 then
      Rgb(((bgcolor as int - 128) * 255) / 127, 0, 0)
    else
      Rgb(0, 0, ((127 - bgcolor as int) * 255) / 127)
  }

  /** The ends and the centre of the red/blue scale: 0x00 is pure blue, 0xFF pure red, 0x7F and 0x80 black. */
  lemma ScaleEnds(paletteMode: int)
    requires paletteMode != 0
    ensures ColorFromByte(paletteMode, 0x00) == Rgb(0, 0, 255)
    ensures ColorFromByte(paletteMode, 0xFF) == Rgb(255, 0, 0)
    ensures ColorFromByte(paletteMode, 0x7F) == Rgb(0, 0, 0)
    ensures ColorFromByte(paletteMode, 0x80) == Rgb(0, 0, 0)
  {
  }

  /** Red grows and blue fades as the byte grows: the scale is monotone. */
  lemma ScaleMonotone(paletteMode: int, a: byte, b: byte)
    requires paletteMode != 0 && a <= b
    ensures ColorFromByte(paletteMode, a).red <= ColorFromByte(paletteMode, b).red
    ensures ColorFromByte(paletteMode, a).blue >= ColorFromByte(paletteMode, b).blue
  {
  }

  /** Grey mode is monotone in every channel. */
  lemma GreyMonotone(a: byte, b: byte)
    requires a <= b
    ensures ColorFromByte(0, a).red <= ColorFromByte(0, b).red
    ensures ColorFromByte(0, a).green <= ColorFromByte(0, b).green
    ensures ColorFromByte(0, a).blue <= ColorFromByte(0, b).blue
  {
  }
}
