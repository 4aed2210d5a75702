/** Pixel formats and the in-memory frame the file layer hands to the rest of unpaper. */
module Frames {

  /** An unsigned 8-bit sample, as stored in a frame's data planes. */
  type byte = x: int | 0 <= x < 0x100

  /** A packed 32-bit colour, as stored in a PAL8 palette. */
  type uint32 = x: int | 0 <= x < 0x1_0000_0000

  /** The libavutil pixel formats the file layer tells apart; every other value of
      the enumeration is `Other`, carrying its numeric identifier. That identifier
      is never the value of one of the six named formats: those are always
      written with their own constructor. */
  datatype PixFmt = Gray8 | Y400A | Rgb24 | MonoBlack | MonoWhite | Pal8 | Other(id: int)

  /** The five formats a loaded frame may have: the decoder's own output is kept for them. */
  predicate IsCanonical(f: PixFmt) {
    f == Gray8 || f == Y400A || f == Rgb24 || f == MonoBlack || f == MonoWhite
  }

  /** The three formats an image is encoded in on save: one per Netpbm flavour. */
  predicate IsEncodable(f: PixFmt) {
    f == Gray8 || f == Rgb24 || f == MonoWhite
  }

  /** The pixels of a frame: either the first data plane exactly as the decoder
      produced it (rows `linesize` bytes apart), or a width×height grid of colours
      written pixel by pixel. */
  datatype Pixels = Planes(data: seq<byte>, linesize: int) | Colours(rows: seq<seq<uint32>>)

  datatype Frame = Frame(width: int, height: int, format: PixFmt, pixels: Pixels)
}
