/** Expansion of an indexed (PAL8) frame into full colour: every pixel becomes the
    palette entry its index byte names. The index plane has its own row stride
    (`linesize`); the destination is a plain width×height grid. */
module Palette {
  import opened Frames

  /** A PAL8 palette always has this many entries, so any byte indexes it. */
  const PaletteSize := 256

  /** Offset in the index plane of the byte for pixel (x, y). */
  function IndexOffset(linesize: int, x: int, y: int): (offset: int) {
    linesize * y + x
  }

  /** The index plane holds every byte the expansion reads: rows are at least
      `width` bytes long and the last row's visible part is inside the plane. */
  predicate PlaneCovers(planeLength: int, linesize: int, width: nat, height: nat) {
    linesize >= width && planeLength >= linesize * (height - 1) + width
  }

  /** Rows are `linesize` apart: a later row starts at least `linesize` bytes further on. */
  lemma {:induction false} RowsApart(linesize: int, y: int, y': int)
    requires linesize >= 0 && y < y'
    ensures linesize * y + linesize <= linesize * y'
    decreases y' - y
  {
    if y + 1 < y' {
      RowsApart(linesize, y, y' - 1);
      assert linesize * y' == linesize * (y' - 1) + linesize;
    }
  }

  /** Every read of the expansion is in bounds of the index plane. */
  lemma ReadInBounds(planeLength: int, linesize: int, width: nat, height: nat, x: int, y: int)
    requires PlaneCovers(planeLength, linesize, width, height)
    requires 0 <= x < width && 0 <= y < height
    ensures 0 <= IndexOffset(linesize, x, y) < planeLength
  {
  }

  /** The colour of pixel (x, y): the palette entry named by its index byte. */
  function Colour(plane: seq<byte>, linesize: int, width: nat, height: nat, palette: seq<uint32>,
                  x: int, y: int): (c: uint32)
    requires PlaneCovers(|plane|, linesize, width, height) && |palette| == PaletteSize
    requires 0 <= x < width && 0 <= y < height
    ensures 0 <= IndexOffset(linesize, x, y) < |plane| && c == palette[plane[IndexOffset(linesize, x, y)]]
  {
    ReadInBounds(|plane|, linesize, width, height, x, y);
    palette[plane[IndexOffset(linesize, x, y)]]
  }

  /** The expanded image, row by row. */
  function Expand(plane: seq<byte>, linesize: int, width: nat, height: nat, palette: seq<uint32>)
    : (rows: seq<seq<uint32>>)
    requires PlaneCovers(|plane|, linesize, width, height) && |palette| == PaletteSize
    ensures |rows| == height
    ensures forall y :: 0 <= y < height ==> |rows[y]| == width
    ensures forall y, x :: 0 <= y < height && 0 <= x < width ==>
              rows[y][x] == Colour(plane, linesize, width, height, palette, x, y)
  {
    seq(height, y requires 0 <= y < height =>
      seq(width, x requires 0 <= x < width => Colour(plane, linesize, width, height, palette, x, y)))
  }

  /** The nested loop of loadImage: reads each index byte through the plane's
      stride, looks it up in the palette and writes the colour at (x, y). */
  method ExpandPal8(data0: array<byte>, linesize: int, width: nat, height: nat, palette: array<uint32>)
    returns (image: array2<uint32>)
    requires PlaneCovers(data0.Length, linesize, width, height)
    requires palette.Length == PaletteSize
    ensures image.Length0 == height && image.Length1 == width
    ensures forall y, x :: 0 <= y < height && 0 <= x < width ==>
              image[y, x] == Colour(data0[..], linesize, width, height, palette[..], x, y)
  {
    ghost var plane, colours := data0[..], palette[..];
    image := new uint32[height, width];
    var y := 0;
    while y < height
      invariant 0 <= y <= height
      invariant forall j, i :: 0 <= j < y && 0 <= i < width ==>
                  image[j, i] == Colour(plane, linesize, width, height, colours, i, j)
    {
      var x := 0;
      while x < width
        invariant 0 <= x <= width
        invariant forall j, i :: 0 <= j < y && 0 <= i < width ==>
                    image[j, i] == Colour(plane, linesize, width, height, colours, i, j)
        invariant forall i :: 0 <= i < x ==>
                    image[y, i] == Colour(plane, linesize, width, height, colours, i, y)
      {
        ReadInBounds(data0.Length, linesize, width, height, x, y);
        var index := data0[IndexOffset(linesize, x, y)];
        image[y, x] := palette[index];
        x := x + 1;
      }
      y := y + 1;
    }
  }

  /** Two index planes that agree on every byte the expansion reads. */
  predicate SameIndices(a: seq<byte>, b: seq<byte>, linesize: int, width: nat, height: nat) {
    forall y, x ::
      (0 <= y < height && 0 <= x < width
       && 0 <= IndexOffset(linesize, x, y) < |a| && IndexOffset(linesize, x, y) < |b|) ==>
      a[IndexOffset(linesize, x, y)] == b[IndexOffset(linesize, x, y)]
  }

  /** Row padding and trailing bytes never influence the expansion: planes that
      agree on the visible indices expand to the same image. */
  lemma PaddingIrrelevant(a: seq<byte>, b: seq<byte>, linesize: int, width: nat, height: nat,
                          palette: seq<uint32>)
    requires PlaneCovers(|a|, linesize, width, height) && PlaneCovers(|b|, linesize, width, height)
    requires |palette| == PaletteSize
    requires SameIndices(a, b, linesize, width, height)
    ensures Expand(a, linesize, width, height, palette) == Expand(b, linesize, width, height, palette)
  {
    var ea := Expand(a, linesize, width, height, palette);
    var eb := Expand(b, linesize, width, height, palette);
    forall y | 0 <= y < height
      ensures ea[y] == eb[y]
    {
      forall x | 0 <= x < width
        ensures ea[y][x] == eb[y][x]
      {
        ReadInBounds(|a|, linesize, width, height, x, y);
        ReadInBounds(|b|, linesize, width, height, x, y);
      }
    }
  }

  /** A byte offset splits into a row and a column of the plane in exactly one way. */
  lemma OffsetUnique(linesize: int, x: int, y: int, x': int, y': int)
    requires 0 <= x < linesize && 0 <= x' < linesize
    requires IndexOffset(linesize, x, y) == IndexOffset(linesize, x', y')
    ensures x == x' && y == y'
  {
    if y < y' {
      RowsApart(linesize, y, y');
    } else if y' < y {
      RowsApart(linesize, y', y);
    }
  }

  /** Overwriting one byte of a row's padding (a column at or past `width`)
      leaves the expanded image unchanged. */
  lemma PaddingByteIrrelevant(plane: seq<byte>, linesize: int, width: nat, height: nat,
                              palette: seq<uint32>, px: int, py: int, v: byte)
    requires PlaneCovers(|plane|, linesize, width, height) && |palette| == PaletteSize
    requires width <= px < linesize
    requires 0 <= IndexOffset(linesize, px, py) < |plane|
    ensures Expand(plane[IndexOffset(linesize, px, py) := v], linesize, width, height, palette)
            == Expand(plane, linesize, width, height, palette)
  {
    var p := IndexOffset(linesize, px, py);
    var changed := plane[p := v];
    forall y, x | 0 <= y < height && 0 <= x < width
      && 0 <= IndexOffset(linesize, x, y) < |changed| && IndexOffset(linesize, x, y) < |plane|
      ensures changed[IndexOffset(linesize, x, y)] == plane[IndexOffset(linesize, x, y)]
    {
      if IndexOffset(linesize, x, y) == p {
        OffsetUnique(linesize, x, y, px, py);
      }
    }
    PaddingIrrelevant(changed, plane, linesize, width, height, palette);
  }

  /** A 2×2 example: an image with the
      palette [white, black] and the indices [[0, 1], [1, 0]], here stored with
      two padding bytes per row, expands to [[white, black], [black, white]]. */
  lemma CheckerboardExample()
    ensures Expand([0, 1, 7, 7, 1, 0, 7, 7], 4, 2, 2, [0xFF_FFFF, 0] + seq(254, _ => 0))
            == [[0xFF_FFFF, 0], [0, 0xFF_FFFF]]
  {
    var plane: seq<byte> := [0, 1, 7, 7, 1, 0, 7, 7];
    var palette: seq<uint32> := [0xFF_FFFF, 0] + seq(254, _ => 0);
    assert |palette| == PaletteSize && palette[0] == 0xFF_FFFF && palette[1] == 0;
    var e := Expand(plane, 4, 2, 2, palette);
    assert e[0][0] == palette[plane[0]] && e[0][1] == palette[plane[1]];
    assert e[1][0] == palette[plane[4]] && e[1][1] == palette[plane[5]];
    assert e[0] == [0xFF_FFFF, 0];
    assert e[1] == [0, 0xFF_FFFF];
  }
}
