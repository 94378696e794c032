/**
 * Colours: raylib's four-byte Color and the game's eight-colour palette
 * (src/game.hpp).
 */
module Colors {
  import opened Component

  datatype Color = Color(r: Byte, g: Byte, b: Byte, a: Byte)

  /** The palette, darkest first. */
  const PALETTE: seq<Color> := [
    Color(0, 0, 0, 255), Color(85, 65, 95, 255), Color(100, 105, 100, 255), Color(80, 140, 215, 255),
    Color(100, 185, 100, 255), Color(215, 115, 85, 255), Color(230, 200, 110, 255), Color(220, 245, 255, 255)
  ]

  const PALETTE_BLACK: Color := PALETTE[0]
  const PALETTE_WHITE: Color := PALETTE[7]

  /** All palette colours are opaque and distinct, and white is the palette's last entry. */
  lemma PaletteShape()
    ensures |PALETTE| == 8 && PALETTE_WHITE == Color(220, 245, 255, 255)
    ensures forall i :: 0 <= i < |PALETTE| ==> PALETTE[i].a == 255
    ensures forall i, j :: 0 <= i < j < |PALETTE| ==> PALETTE[i] != PALETTE[j]
  {
  }
}
