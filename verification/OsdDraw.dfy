/** Rendering of the text overlay: the background box, scaled glyphs and their placement.

    The loops scatter: they walk over characters, font cells and scaled blocks and write pixels. The
    specification gathers: it says for every pixel of the frame, from its coordinates alone, what it shows. */
module OsdDraw {
  import opened Arithmetic
  import opened Bytes
  import opened PackedFrame

  datatype VAlign = Top | Bottom
  datatype HAlign = Left | Right
  datatype BgMode = Box | BoxSemi | NoBox | Shadow

  datatype OsdStyle = OsdStyle(vAlign: VAlign, hAlign: HAlign, vOffset: int, hOffset: int, bg: BgMode, scale: int)

  const Y_TEXT: Byte := 235
  const Y_SHADOW: Byte := 16
  const OPAQUE: Byte := 255
  const SEMI_ALPHA: Byte := 128
  const PAD := 10
  const GLYPH_W := 8
  const GLYPH_H := 8
  const SPACING := 1

  /** The bitmap font: row r of the glyph with code c, 0 <= c < 128; bit 0 is the leftmost column. */
  type Font = (int, int) -> Byte

  function Bit(b: int, k: int): bool
    decreases k
  {
    if k <= 0 then b % 2 == 1 else Bit(b / 2, k - 1)
  }

  function GlyphRow(font: Font, ch: char, row: int): Byte {
    font(ch as int % 128, row)
  }

  // ---- what a pixel shows ----

  /** Whether a glyph whose top left corner is at (0, 0) covers (dx, dy). */
  ghost predicate GlyphCovers(font: Font, ch: char, scale: int, dx: int, dy: int)
    requires 0 < scale
  {
    0 <= dx && 0 <= dy && dx / scale < GLYPH_W && dy / scale < GLYPH_H &&
    Bit(GlyphRow(font, ch, dy / scale), dx / scale)
  }

  /** Whether text whose top left corner is at (0, 0) covers (dx, dy). */
  ghost predicate TextCovers(font: Font, text: string, scale: int, dx: int, dy: int)
    requires 0 < scale
  {
    var cell := (GLYPH_W + SPACING) * scale;
    0 <= dx && 0 <= dx / cell < |text| && GlyphCovers(font, text[dx / cell], scale, dx % cell, dy)
  }

  ghost function GlyphCells(font: Font, ch: char, scale: int, x0: int, y0: int): iset<Pixel>
    requires 0 < scale
  {
    iset p: Pixel | GlyphCovers(font, ch, scale, p.0 - x0, p.1 - y0)
  }

  ghost function TextCells(font: Font, text: string, scale: int, x0: int, y0: int): iset<Pixel>
    requires 0 < scale
  {
    iset p: Pixel | TextCovers(font, text, scale, p.0 - x0, p.1 - y0)
  }

  // ---- glyphs ----

  ghost function Block(px: int, py: int, scale: int): iset<Pixel> {
    iset p: Pixel | px <= p.0 < px + scale && py <= p.1 < py + scale
  }

  ghost function BlockPart(px: int, py: int, scale: int, sy: int, sx: int): iset<Pixel> {
    iset p: Pixel | px <= p.0 < px + scale && (py <= p.1 < py + sy || (p.1 == py + sy && p.0 < px + sx))
  }

  /** The part of a glyph in the font cells before row ry, column rx. */
  ghost function GlyphPart(font: Font, ch: char, scale: int, x0: int, y0: int, ry: int, rx: int): iset<Pixel>
    requires 0 < scale
  {
    iset p: Pixel | GlyphCovers(font, ch, scale, p.0 - x0, p.1 - y0) &&
                    ((p.1 - y0) / scale < ry || ((p.1 - y0) / scale == ry && (p.0 - x0) / scale < rx))
  }

  /** One font cell scaled up is one block of pixels. */
  lemma BlockIsCell(scale: int, x0: int, y0: int, ry: int, rx: int, p: Pixel)
    requires 0 < scale && 0 <= ry && 0 <= rx
    ensures p in Block(x0 + rx * scale, y0 + ry * scale, scale) <==>
            (p.0 - x0) / scale == rx && (p.1 - y0) / scale == ry
  {
    QuotientBounds(p.0 - x0, scale);
    QuotientBounds(p.1 - y0, scale);
    if p in Block(x0 + rx * scale, y0 + ry * scale, scale) {
      QuotientIs(p.0 - x0, scale, rx);
      QuotientIs(p.1 - y0, scale, ry);
    }
  }

  /** Membership in a glyph part, in terms of the font cell (cx, cy) that holds the pixel. */
  lemma GlyphPartAt(font: Font, ch: char, scale: int, x0: int, y0: int, ry: int, rx: int, p: Pixel)
    requires 0 < scale && 0 <= ry < GLYPH_H && 0 <= rx < GLYPH_W
    ensures p in GlyphPart(font, ch, scale, x0, y0, ry, rx + 1) <==>
            p in GlyphPart(font, ch, scale, x0, y0, ry, rx) ||
            (Bit(GlyphRow(font, ch, ry), rx) && (p.0 - x0) / scale == rx && (p.1 - y0) / scale == ry)
  {
    if (p.0 - x0) / scale == rx && (p.1 - y0) / scale == ry {
      QuotientSign(p.0 - x0, scale);
      QuotientSign(p.1 - y0, scale);
    }
  }

  lemma GlyphPartGrows(font: Font, ch: char, scale: int, x0: int, y0: int, ry: int, rx: int)
    requires 0 < scale && 0 <= ry < GLYPH_H && 0 <= rx < GLYPH_W
    ensures GlyphPart(font, ch, scale, x0, y0, ry, rx + 1) ==
            GlyphPart(font, ch, scale, x0, y0, ry, rx) +
            (if Bit(GlyphRow(font, ch, ry), rx) then Block(x0 + rx * scale, y0 + ry * scale, scale) else iset{})
  {
    var all := GlyphPart(font, ch, scale, x0, y0, ry, rx + 1);
    var drawn := GlyphPart(font, ch, scale, x0, y0, ry, rx);
    var block := Block(x0 + rx * scale, y0 + ry * scale, scale);
    forall p: Pixel ensures p in all <==> p in drawn || (Bit(GlyphRow(font, ch, ry), rx) && p in block) {
      GlyphPartAt(font, ch, scale, x0, y0, ry, rx, p);
      BlockIsCell(scale, x0, y0, ry, rx, p);
    }
  }

  lemma GlyphPartRow(font: Font, ch: char, scale: int, x0: int, y0: int, ry: int)
    requires 0 < scale && 0 <= ry < GLYPH_H
    ensures GlyphPart(font, ch, scale, x0, y0, ry, GLYPH_W) == GlyphPart(font, ch, scale, x0, y0, ry + 1, 0)
    ensures GlyphPart(font, ch, scale, x0, y0, 0, 0) == iset{}
    ensures GlyphPart(font, ch, scale, x0, y0, GLYPH_H, 0) == GlyphCells(font, ch, scale, x0, y0)
  {
    forall p: Pixel | 0 <= p.0 - x0 && 0 <= p.1 - y0
      ensures 0 <= (p.0 - x0) / scale && 0 <= (p.1 - y0) / scale
    {
      QuotientNonNegative(p.0 - x0, scale);
      QuotientNonNegative(p.1 - y0, scale);
    }
  }

  lemma BlockPartGrows(px: int, py: int, scale: int, sy: int, sx: int)
    requires 0 <= sy < scale && 0 <= sx < scale
    ensures BlockPart(px, py, scale, sy, sx + 1) == BlockPart(px, py, scale, sy, sx) + iset{(px + sx, py + sy)}
  {
  }

  lemma BlockPartRow(px: int, py: int, scale: int, sy: int)
    requires 0 <= sy < scale
    ensures BlockPart(px, py, scale, 0, 0) == iset{}
    ensures BlockPart(px, py, scale, sy, scale) == BlockPart(px, py, scale, sy + 1, 0)
    ensures BlockPart(px, py, scale, scale, 0) == Block(px, py, scale)
  {
  }

  ghost predicate BlockDrawn(g: Geometry, before: seq<Byte>, after: seq<Byte>, px: int, py: int, scale: int,
                             luma: Byte, sy: int, sx: int)
    requires Fits(before, g)
  {
    Lit(g, before, after, BlockPart(px, py, scale, sy, sx), luma)
  }

  lemma BlockDrawnStep(g: Geometry, before: seq<Byte>, mid: seq<Byte>, after: seq<Byte>, px: int, py: int,
                       scale: int, luma: Byte, sy: int, sx: int)
    requires Fits(before, g) && Fits(mid, g) && 0 <= sy < scale && 0 <= sx < scale
    requires BlockDrawn(g, before, mid, px, py, scale, luma, sy, sx)
    requires if 0 <= py + sy < g.height && 0 <= px + sx < g.width
             then PutOnto(g, px + sx, py + sy, luma, OPAQUE, true, mid, after) else after == mid
    ensures BlockDrawn(g, before, after, px, py, scale, luma, sy, sx + 1)
  {
    hide Painted, PutOnto, BlockPart;
    var drawn := BlockPart(px, py, scale, sy, sx);
    BlockPartGrows(px, py, scale, sy, sx);
    if 0 <= py + sy < g.height && 0 <= px + sx < g.width {
      PutIsLit(g, px + sx, py + sy, luma, mid, after);
      LitTwice(g, before, mid, after, drawn, iset{(px + sx, py + sy)}, luma);
    } else {
      LitOffFrame(g, before, after, drawn, (px + sx, py + sy), luma);
    }
  }

  /** Paints the pixels of a block that lie in the frame. */
  method DrawBlock(img: array<Byte>, g: Geometry, px: int, py: int, scale: int, luma: Byte)
    requires Fits(img[..], g) && 0 < scale
    modifies img
    ensures Fits(img[..], g)
    ensures Lit(g, old(img[..]), img[..], Block(px, py, scale), luma)
  {
    hide Painted, BlockPart, Block;
    ghost var before := img[..];
    var sy := 0;
    BlockPartRow(px, py, scale, 0);
    LitNothing(g, before, luma);
    while sy < scale
      invariant 0 <= sy <= scale && Fits(img[..], g)
      invariant BlockDrawn(g, before, img[..], px, py, scale, luma, sy, 0)
    {
      DrawBlockRow(img, g, px, py, scale, luma, sy, before);
      sy := sy + 1;
    }
  }

  /** The loop over the pixels of one block row; the whole row is skipped when it lies outside the frame. */
  method DrawBlockRow(img: array<Byte>, g: Geometry, px: int, py: int, scale: int, luma: Byte, sy: int,
                      ghost before: seq<Byte>)
    requires Fits(img[..], g) && Fits(before, g) && 0 <= sy < scale
    requires BlockDrawn(g, before, img[..], px, py, scale, luma, sy, 0)
    modifies img
    ensures Fits(img[..], g)
    ensures BlockDrawn(g, before, img[..], px, py, scale, luma, sy + 1, 0)
  {
    hide Painted, PutOnto, BlockPart;
    var yy := py + sy;
    var sx := 0;
    while sx < scale
      invariant 0 <= sx <= scale && Fits(img[..], g)
      invariant BlockDrawn(g, before, img[..], px, py, scale, luma, sy, sx)
    {
      ghost var mid := img[..];
      var xx := px + sx;
      if 0 <= yy < g.height && 0 <= xx < g.width {
        PutOrBlendY(img, g, xx, yy, luma, OPAQUE, true);
      }
      BlockDrawnStep(g, before, mid, img[..], px, py, scale, luma, sy, sx);
      sx := sx + 1;
    }
    BlockPartRow(px, py, scale, sy);
  }

  ghost predicate GlyphDrawn(g: Geometry, before: seq<Byte>, after: seq<Byte>, font: Font, ch: char, scale: int,
                             x0: int, y0: int, luma: Byte, ry: int, rx: int)
    requires Fits(before, g) && 0 < scale
  {
    Lit(g, before, after, GlyphPart(font, ch, scale, x0, y0, ry, rx), luma)
  }

  lemma GlyphDrawnStep(g: Geometry, before: seq<Byte>, mid: seq<Byte>, after: seq<Byte>, font: Font, ch: char,
                       scale: int, x0: int, y0: int, luma: Byte, ry: int, rx: int)
    requires Fits(before, g) && Fits(mid, g) && 0 < scale && 0 <= ry < GLYPH_H && 0 <= rx < GLYPH_W
    requires GlyphDrawn(g, before, mid, font, ch, scale, x0, y0, luma, ry, rx)
    requires if Bit(GlyphRow(font, ch, ry), rx)
             then Lit(g, mid, after, Block(x0 + rx * scale, y0 + ry * scale, scale), luma) else after == mid
    ensures GlyphDrawn(g, before, after, font, ch, scale, x0, y0, luma, ry, rx + 1)
  {
    hide Painted, GlyphPart, Block;
    GlyphPartGrows(font, ch, scale, x0, y0, ry, rx);
    var drawn := GlyphPart(font, ch, scale, x0, y0, ry, rx);
    if Bit(GlyphRow(font, ch, ry), rx) {
      LitTwice(g, before, mid, after, drawn, Block(x0 + rx * scale, y0 + ry * scale, scale), luma);
    } else {
      assert drawn + iset{} == drawn;
    }
  }

  /** Paints one glyph; its part outside the frame is dropped. */
  method DrawGlyph(img: array<Byte>, g: Geometry, x0: int, y0: int, font: Font, ch: char, scale: int, luma: Byte)
    requires Fits(img[..], g) && 0 < scale
    modifies img
    ensures Fits(img[..], g)
    ensures Lit(g, old(img[..]), img[..], GlyphCells(font, ch, scale, x0, y0), luma)
  {
    hide Painted, GlyphPart, GlyphCells;
    ghost var before := img[..];
    var ry := 0;
    GlyphPartRow(font, ch, scale, x0, y0, 0);
    LitNothing(g, before, luma);
    while ry < GLYPH_H
      invariant 0 <= ry <= GLYPH_H && Fits(img[..], g)
      invariant GlyphDrawn(g, before, img[..], font, ch, scale, x0, y0, luma, ry, 0)
    {
      DrawGlyphRow(img, g, x0, y0, font, ch, scale, luma, ry, before);
      ry := ry + 1;
    }
  }

  /** The loop over the columns of one font row. */
  method DrawGlyphRow(img: array<Byte>, g: Geometry, x0: int, y0: int, font: Font, ch: char, scale: int,
                      luma: Byte, ry: int, ghost before: seq<Byte>)
    requires Fits(img[..], g) && 0 < scale && 0 <= ry < GLYPH_H
    requires Fits(before, g) && GlyphDrawn(g, before, img[..], font, ch, scale, x0, y0, luma, ry, 0)
    modifies img
    ensures Fits(img[..], g)
    ensures GlyphDrawn(g, before, img[..], font, ch, scale, x0, y0, luma, ry + 1, 0)
  {
    hide Painted, GlyphPart, Block, Bit;
    var bits := GlyphRow(font, ch, ry);
    var rx := 0;
    while rx < GLYPH_W
      invariant 0 <= rx <= GLYPH_W && Fits(img[..], g)
      invariant GlyphDrawn(g, before, img[..], font, ch, scale, x0, y0, luma, ry, rx)
    {
      ghost var mid := img[..];
      if Bit(bits, rx) {
        DrawBlock(img, g, x0 + rx * scale, y0 + ry * scale, scale, luma);
      }
      GlyphDrawnStep(g, before, mid, img[..], font, ch, scale, x0, y0, luma, ry, rx);
      rx := rx + 1;
    }
    GlyphPartRow(font, ch, scale, x0, y0, ry);
  }

  // ---- the background box ----

  function Clamp(v: int, lo: int, hi: int): int {
    if v < lo then lo else if v > hi then hi else v
  }

  /** Whether pixel (x, y) shares a pair with a pixel of the rectangle. */
  ghost predicate InBox(boxX: int, boxY: int, boxW: int, boxH: int, x: int, y: int) {
    boxY <= y < boxY + boxH && (boxX <= x / 2 * 2 < boxX + boxW || boxX <= x / 2 * 2 + 1 < boxX + boxW)
  }

  /** A byte darkened toward black: luma 0, chroma 128. */
  ghost function Darkened(g: Geometry, alpha: Byte, c: int, b: Byte): Byte {
    Blend8(b, if g.IsLumaColumn(c) then 0 else 128, alpha)
  }

  ghost function BoxByte(g: Geometry, boxX: int, boxY: int, boxW: int, boxH: int, alpha: Byte, y: int, c: int,
                         b: Byte): Byte
  {
    if c < 2 * g.width && InBox(boxX, boxY, boxW, boxH, c / 2, y) then Darkened(g, alpha, c, b) else b
  }

  ghost predicate Boxed(g: Geometry, before: seq<Byte>, after: seq<Byte>,
                        boxX: int, boxY: int, boxW: int, boxH: int, alpha: Byte)
    requires Fits(before, g)
  {
    Mapped(g, before, after, (y, c, b) => BoxByte(g, boxX, boxY, boxW, boxH, alpha, y, c, b))
  }

  /** How a luma (true) or chroma (false) byte is darkened. */
  type Darkening = (bool, Byte) -> Byte

  ghost function DarkeningBy(alpha: Byte): Darkening {
    (isLuma: bool, b: Byte) => Blend8(b, if isLuma then 0 else 128, alpha)
  }

  /** The columns of the pixels ax0 <= x < ax1 are done in rows y0 <= y < yy, those of x < xx in row yy too. */
  ghost function FillByte(g: Geometry, d: Darkening, y0: int, yy: int, ax0: int, ax1: int, xx: int,
                          y: int, c: int, b: Byte): Byte {
    if (y0 <= y < yy && 2 * ax0 <= c < 2 * ax1) || (y == yy && 2 * ax0 <= c < 2 * xx)
    then d(g.IsLumaColumn(c), b) else b
  }

  ghost predicate Filled(g: Geometry, before: seq<Byte>, after: seq<Byte>, d: Darkening,
                         y0: int, yy: int, ax0: int, ax1: int, xx: int)
    requires Fits(before, g)
  {
    Mapped(g, before, after, (y, c, b) => FillByte(g, d, y0, yy, ax0, ax1, xx, y, c, b))
  }

  lemma PairAddress(g: Geometry, yy: int, xx: int, y: int, c: int)
    requires g.Valid() && 0 <= yy < g.height && 0 <= xx && 2 * xx + 4 <= g.stride
    requires 0 <= y < g.height && 0 <= c < g.stride
    ensures yy * g.stride + xx * 2 <= y * g.stride + c < yy * g.stride + xx * 2 + 4 <==>
            y == yy && 2 * xx <= c < 2 * xx + 4
  {
    if yy * g.stride + xx * 2 <= y * g.stride + c < yy * g.stride + xx * 2 + 4 {
      OffsetInjective(g, y, c, yy, y * g.stride + c - yy * g.stride);
    }
  }

  lemma FillStep(g: Geometry, before: seq<Byte>, mid: seq<Byte>, after: seq<Byte>, d: Darkening,
                 y0: int, yy: int, ax0: int, ax1: int, xx: int, base: int)
    requires Fits(before, g) && Filled(g, before, mid, d, y0, yy, ax0, ax1, xx)
    requires 0 <= y0 <= yy < g.height && 0 <= ax0 <= xx < ax1 <= g.width && xx % 2 == 0 && ax1 % 2 == 0
    requires base == yy * g.stride + xx * 2 && 0 <= base && base + 4 <= g.height * g.stride
    requires |after| == |mid|
    requires forall i | 0 <= i < |mid| ::
               after[i] == if base <= i < base + 4 then d(g.IsLumaColumn(i - base), mid[i]) else mid[i]
    ensures Filled(g, before, after, d, y0, yy, ax0, ax1, xx + 2)
  {
    forall y, c | 0 <= y < g.height && 0 <= c < g.stride
      ensures ByteAt(after, g, y, c) ==
              FillByte(g, d, y0, yy, ax0, ax1, xx + 2, y, c, ByteAt(before, g, y, c))
    {
      FillStepAt(g, before, mid, after, d, y0, yy, ax0, ax1, xx, base, y, c);
    }
    hide FillByte;
  }

  lemma FillStepAt(g: Geometry, before: seq<Byte>, mid: seq<Byte>, after: seq<Byte>, d: Darkening,
                   y0: int, yy: int, ax0: int, ax1: int, xx: int, base: int, y: int, c: int)
    requires Fits(before, g) && Filled(g, before, mid, d, y0, yy, ax0, ax1, xx)
    requires 0 <= y0 <= yy < g.height && 0 <= ax0 <= xx < ax1 <= g.width && xx % 2 == 0 && ax1 % 2 == 0
    requires base == yy * g.stride + xx * 2 && 0 <= base && base + 4 <= g.height * g.stride
    requires |after| == |mid| && 0 <= y < g.height && 0 <= c < g.stride
    requires forall i | 0 <= i < |mid| ::
               after[i] == if base <= i < base + 4 then d(g.IsLumaColumn(i - base), mid[i]) else mid[i]
    ensures |mid| == |before|
    ensures ByteAt(after, g, y, c) == FillByte(g, d, y0, yy, ax0, ax1, xx + 2, y, c, ByteAt(before, g, y, c))
  {
    hide FillByte, Mapped;
    var b, i := ByteAt(before, g, y, c), y * g.stride + c;
    OffsetInRange(g, y, c);
    PairAddress(g, yy, xx, y, c);
    FilledAt(g, before, mid, d, y0, yy, ax0, ax1, xx, y, c);
    FillByteStep(g, d, y0, yy, ax0, ax1, xx, y, c, b);
    if y == yy && 2 * xx <= c < 2 * xx + 4 {
      assert base <= i < base + 4 && i - base == c - 2 * xx;
      assert after[i] == d(g.IsLumaColumn(c - 2 * xx), b);
    } else {
      assert !(base <= i < base + 4) && after[i] == mid[i];
    }
  }

  lemma FilledAt(g: Geometry, before: seq<Byte>, mid: seq<Byte>, d: Darkening, y0: int, yy: int, ax0: int, ax1: int,
                 xx: int, y: int, c: int)
    requires Fits(before, g) && Filled(g, before, mid, d, y0, yy, ax0, ax1, xx)
    requires 0 <= y < g.height && 0 <= c < g.stride
    ensures |mid| == |before|
    ensures ByteAt(mid, g, y, c) == FillByte(g, d, y0, yy, ax0, ax1, xx, y, c, ByteAt(before, g, y, c))
  {
  }

  lemma EvenShift(g: Geometry, c: int, xx: int)
    ensures g.IsLumaColumn(c - 2 * xx) == g.IsLumaColumn(c)
  {
    assert (c - 2 * xx) % 2 == c % 2;
  }

  lemma FillByteStep(g: Geometry, d: Darkening, y0: int, yy: int, ax0: int, ax1: int, xx: int, y: int, c: int, b: Byte)
    requires y0 <= yy && ax0 <= xx && xx + 2 <= ax1
    ensures FillByte(g, d, y0, yy, ax0, ax1, xx + 2, y, c, b) ==
            if y == yy && 2 * xx <= c < 2 * xx + 4 then d(g.IsLumaColumn(c - 2 * xx), b)
            else FillByte(g, d, y0, yy, ax0, ax1, xx, y, c, b)
    ensures y == yy && 2 * xx <= c < 2 * xx + 4 ==> FillByte(g, d, y0, yy, ax0, ax1, xx, y, c, b) == b
  {
    EvenShift(g, c, xx);
  }

  lemma FillStarts(g: Geometry, s: seq<Byte>, d: Darkening, y0: int, ax0: int, ax1: int)
    requires Fits(s, g)
    ensures Filled(g, s, s, d, y0, y0, ax0, ax1, ax0)
  {
  }

  lemma FillRow(g: Geometry, before: seq<Byte>, after: seq<Byte>, d: Darkening, y0: int, yy: int, ax0: int, ax1: int)
    requires Fits(before, g) && Filled(g, before, after, d, y0, yy, ax0, ax1, ax1) && y0 <= yy
    ensures Filled(g, before, after, d, y0, yy + 1, ax0, ax1, ax0)
  {
  }

  /** Filling the aligned, clipped columns and rows is darkening the pairs the rectangle meets. */
  lemma FillIsBox(g: Geometry, before: seq<Byte>, after: seq<Byte>, alpha: Byte,
                  boxX: int, boxY: int, boxW: int, boxH: int, y0: int, y1: int, ax0: int, ax1: int)
    requires Fits(before, g) && 0 < boxW && 0 < boxH
    requires y0 == Clamp(boxY, 0, g.height) && y1 == Clamp(boxY + boxH, 0, g.height)
    requires var x0, x1 := Clamp(boxX, 0, g.width), Clamp(boxX + boxW, 0, g.width);
             x0 < x1 && ax0 == x0 / 2 * 2 && ax1 == (x1 + 1) / 2 * 2
    requires Filled(g, before, after, DarkeningBy(alpha), y0, y1, ax0, ax1, ax0)
    ensures Boxed(g, before, after, boxX, boxY, boxW, boxH, alpha)
  {
    forall y, c | 0 <= y < g.height && 0 <= c < g.stride
      ensures ByteAt(after, g, y, c) == BoxByte(g, boxX, boxY, boxW, boxH, alpha, y, c, ByteAt(before, g, y, c))
    {
      hide Blend8;
      var b := ByteAt(before, g, y, c);
      assert ByteAt(after, g, y, c) == FillByte(g, DarkeningBy(alpha), y0, y1, ax0, ax1, ax0, y, c, b);
      FillRegionIsBox(g, boxX, boxY, boxW, boxH, y0, y1, ax0, ax1, y, c);
    }
  }

  lemma FillRegionIsBox(g: Geometry, boxX: int, boxY: int, boxW: int, boxH: int, y0: int, y1: int, ax0: int, ax1: int,
                        y: int, c: int)
    requires g.Valid() && 0 < boxW && 0 < boxH && 0 <= y < g.height && 0 <= c
    requires y0 == Clamp(boxY, 0, g.height) && y1 == Clamp(boxY + boxH, 0, g.height)
    requires var x0, x1 := Clamp(boxX, 0, g.width), Clamp(boxX + boxW, 0, g.width);
             x0 < x1 && ax0 == x0 / 2 * 2 && ax1 == (x1 + 1) / 2 * 2
    ensures y0 <= y < y1 && 2 * ax0 <= c < 2 * ax1 <==>
            c < 2 * g.width && InBox(boxX, boxY, boxW, boxH, c / 2, y)
  {
  }

  lemma EmptyBox(g: Geometry, s: seq<Byte>, alpha: Byte, boxX: int, boxY: int, boxW: int, boxH: int)
    requires Fits(s, g)
    requires boxW <= 0 || boxH <= 0 || Clamp(boxX + boxW, 0, g.width) <= Clamp(boxX, 0, g.width) ||
             Clamp(boxY + boxH, 0, g.height) <= Clamp(boxY, 0, g.height)
    ensures Boxed(g, s, s, boxX, boxY, boxW, boxH, alpha)
  {
    forall y, c | 0 <= y < g.height && 0 <= c < 2 * g.width ensures !InBox(boxX, boxY, boxW, boxH, c / 2, y) {
    }
  }

  /** Darkens the pixel pairs that a rectangle meets; the rectangle may reach outside the frame. */
  method FillRectBlack(img: array<Byte>, g: Geometry, boxX: int, boxY: int, boxW: int, boxH: int, alpha: Byte)
    requires Fits(img[..], g)
    modifies img
    ensures Fits(img[..], g)
    ensures Boxed(g, old(img[..]), img[..], boxX, boxY, boxW, boxH, alpha)
  {
    hide Mapped;
    ghost var before := img[..];
    if boxW <= 0 || boxH <= 0 {
      EmptyBox(g, before, alpha, boxX, boxY, boxW, boxH);
      return;
    }
    var x0, y0 := Clamp(boxX, 0, g.width), Clamp(boxY, 0, g.height);
    var x1, y1 := Clamp(boxX + boxW, 0, g.width), Clamp(boxY + boxH, 0, g.height);
    if x1 <= x0 || y1 <= y0 {
      EmptyBox(g, before, alpha, boxX, boxY, boxW, boxH);
      return;
    }
    var ax0 := x0 / 2 * 2;
    var ax1 := (x1 + 1) / 2 * 2;
    if ax1 > g.width {
      ax1 := g.width;
    }
    FillStarts(g, before, DarkeningBy(alpha), y0, ax0, ax1);
    var yy := y0;
    while yy < y1
      invariant y0 <= yy <= y1 && Fits(img[..], g)
      invariant Filled(g, before, img[..], DarkeningBy(alpha), y0, yy, ax0, ax1, ax0)
    {
      FillOneRow(img, g, alpha, y0, yy, ax0, ax1, before);
      yy := yy + 1;
    }
    FillIsBox(g, before, img[..], alpha, boxX, boxY, boxW, boxH, y0, y1, ax0, ax1);
  }

  /** Darkens the four bytes of one pixel pair. */
  method DarkenPair(img: array<Byte>, g: Geometry, alpha: Byte, p: int)
    requires 0 <= p && p + 4 <= img.Length
    modifies img
    ensures forall i | 0 <= i < img.Length ::
              img[..][i] == if p <= i < p + 4 then DarkeningBy(alpha)(g.IsLumaColumn(i - p), old(img[..])[i])
                            else old(img[..])[i]
  {
    if g.fmt == Yuyv {
      img[p] := Blend8(img[p], 0, alpha);
      img[p + 1] := Blend8(img[p + 1], 128, alpha);
      img[p + 2] := Blend8(img[p + 2], 0, alpha);
      img[p + 3] := Blend8(img[p + 3], 128, alpha);
    } else {
      img[p] := Blend8(img[p], 128, alpha);
      img[p + 1] := Blend8(img[p + 1], 0, alpha);
      img[p + 2] := Blend8(img[p + 2], 128, alpha);
      img[p + 3] := Blend8(img[p + 3], 0, alpha);
    }
  }

  /** The loop over the pixel pairs of one row. */
  method FillOneRow(img: array<Byte>, g: Geometry, alpha: Byte, y0: int, yy: int, ax0: int, ax1: int,
                    ghost before: seq<Byte>)
    requires Fits(img[..], g) && Fits(before, g)
    requires 0 <= y0 <= yy < g.height && 0 <= ax0 < ax1 <= g.width && ax0 % 2 == 0 && ax1 % 2 == 0
    requires Filled(g, before, img[..], DarkeningBy(alpha), y0, yy, ax0, ax1, ax0)
    modifies img
    ensures Fits(img[..], g)
    ensures Filled(g, before, img[..], DarkeningBy(alpha), y0, yy + 1, ax0, ax1, ax0)
  {
    hide Mapped, DarkeningBy;
    var xx := ax0;
    while xx < ax1
      invariant ax0 <= xx <= ax1 && xx % 2 == 0 && Fits(img[..], g)
      invariant Filled(g, before, img[..], DarkeningBy(alpha), y0, yy, ax0, ax1, xx)
    {
      ghost var mid := img[..];
      var p := yy * g.stride + xx * 2;
      OffsetInRange(g, yy, xx * 2);
      OffsetInRange(g, yy, xx * 2 + 3);
      DarkenPair(img, g, alpha, p);
      FillStep(g, before, mid, img[..], DarkeningBy(alpha), y0, yy, ax0, ax1, xx, p);
      xx := xx + 2;
    }
    FillRow(g, before, img[..], DarkeningBy(alpha), y0, yy, ax0, ax1);
  }

  // ---- text ----

  /** Where column dx falls when characters are `cell` wide. */
  lemma CellSplit(dx: int, cell: int, n: int)
    requires 0 < cell
    ensures n * cell <= dx < n * cell + cell <==> dx / cell == n
    ensures dx / cell == n ==> dx % cell == dx - n * cell
    ensures 0 <= n && n * cell <= dx ==> 0 <= dx
  {
    QuotientBounds(dx, cell);
    if n * cell <= dx < n * cell + cell {
      QuotientIs(dx, cell, n);
    }
    if 0 <= n {
      MulMonotone(0, n, cell);
    }
  }

  lemma GlyphWithin(font: Font, ch: char, scale: int, dx: int, dy: int)
    requires 0 < scale && GlyphCovers(font, ch, scale, dx, dy)
    ensures 0 <= dx < GLYPH_W * scale && 0 <= dy < GLYPH_H * scale
  {
    QuotientBounds(dx, scale);
    QuotientBounds(dy, scale);
    MulMonotone(dx / scale, GLYPH_W - 1, scale);
    MulMonotone(dy / scale, GLYPH_H - 1, scale);
  }

  lemma TextGrowsAt(font: Font, text: string, n: int, scale: int, dx: int, dy: int)
    requires 0 < scale && 0 <= n < |text|
    ensures TextCovers(font, text[..n + 1], scale, dx, dy) <==>
            TextCovers(font, text[..n], scale, dx, dy) ||
            GlyphCovers(font, text[n], scale, dx - n * ((GLYPH_W + SPACING) * scale), dy)
  {
    var cell := (GLYPH_W + SPACING) * scale;
    var k := dx / cell;
    CellSplit(dx, cell, n);
    if 0 <= dx {
      QuotientNonNegative(dx, cell);
    }
    if k != n && GlyphCovers(font, text[n], scale, dx - n * cell, dy) {
      GlyphWithin(font, text[n], scale, dx - n * cell, dy);
      assert false;
    }
    if 0 <= k < n {
      assert text[..n + 1][k] == text[..n][k];
    }
  }

  lemma TextGrows(font: Font, text: string, n: int, scale: int, x0: int, y0: int)
    requires 0 < scale && 0 <= n < |text|
    ensures TextCells(font, text[..n + 1], scale, x0, y0) ==
            TextCells(font, text[..n], scale, x0, y0) +
            GlyphCells(font, text[n], scale, x0 + n * ((GLYPH_W + SPACING) * scale), y0)
  {
    var x := n * ((GLYPH_W + SPACING) * scale);
    var all, drawn := TextCells(font, text[..n + 1], scale, x0, y0), TextCells(font, text[..n], scale, x0, y0);
    var added := GlyphCells(font, text[n], scale, x0 + x, y0);
    forall p: Pixel ensures p in all <==> p in drawn || p in added {
      TextGrowsAt(font, text, n, scale, p.0 - x0, p.1 - y0);
      GlyphMoved(font, text[n], scale, x0, x, y0, p);
    }
  }

  lemma GlyphMoved(font: Font, ch: char, scale: int, x0: int, x: int, y0: int, p: Pixel)
    requires 0 < scale
    ensures p in GlyphCells(font, ch, scale, x0 + x, y0) <==> GlyphCovers(font, ch, scale, p.0 - x0 - x, p.1 - y0)
  {
    assert p.0 - (x0 + x) == p.0 - x0 - x;
  }

  /** The shadow of character n starts to the right of every earlier character. */
  lemma ShadowClearsText(font: Font, text: string, n: int, scale: int, x0: int, y0: int, y1: int)
    requires 0 < scale && 0 <= n < |text|
    ensures TextCells(font, text[..n], scale, x0, y0) !!
            GlyphCells(font, text[n], scale, x0 + n * ((GLYPH_W + SPACING) * scale) + scale, y1)
  {
    var cell := (GLYPH_W + SPACING) * scale;
    forall p: Pixel | p in TextCells(font, text[..n], scale, x0, y0) ensures p.0 - x0 < n * cell {
      QuotientBounds(p.0 - x0, cell);
      MulMonotone((p.0 - x0) / cell + 1, n, cell);
    }
  }

  ghost predicate Lettered(g: Geometry, before: seq<Byte>, after: seq<Byte>, lit: iset<Pixel>, dim: iset<Pixel>)
    requires Fits(before, g)
  {
    Painted(g, before, after, lit, Y_TEXT, dim, Y_SHADOW)
  }

  lemma LetterText(g: Geometry, a: seq<Byte>, b: seq<Byte>, c: seq<Byte>,
                   lit: iset<Pixel>, dim: iset<Pixel>, cells: iset<Pixel>)
    requires Fits(a, g) && Lettered(g, a, b, lit, dim) && Lit(g, b, c, cells, Y_TEXT)
    ensures Lettered(g, a, c, lit + cells, dim)
  {
  }

  lemma LetterShadow(g: Geometry, a: seq<Byte>, b: seq<Byte>, c: seq<Byte>,
                     lit: iset<Pixel>, dim: iset<Pixel>, cells: iset<Pixel>)
    requires Fits(a, g) && Lettered(g, a, b, lit, dim) && Lit(g, b, c, cells, Y_SHADOW) && lit !! cells
    ensures Lettered(g, a, c, lit, dim + cells)
  {
  }

  // ---- placement ----

  type Scale = s: int | 0 < s witness 1

  datatype Placement = Placement(scale: Scale, boxX: int, boxY: int, boxW: int, boxH: int, pad: int)

  function TextWidth(text: string, scale: int): int {
    var w := |text| * ((GLYPH_W + SPACING) * scale) - SPACING * scale;
    if w < 0 then 0 else w
  }

  /** Where the box and the text go: anchored by the alignment, pushed in by the offsets, and never left of or
      above the frame. */
  function Place(text: string, style: OsdStyle, width: int, height: int): (p: Placement)
    ensures 0 <= p.boxX && 0 <= p.boxY
  {
    var scale := if style.scale >= 1 then style.scale else 1;
    var pad := if style.bg == Box || style.bg == BoxSemi then PAD else 0;
    var boxW := TextWidth(text, scale) + 2 * pad;
    var boxH := GLYPH_H * scale + 2 * pad;
    var boxX := if style.hAlign == Right then width - boxW - style.hOffset else style.hOffset;
    var boxY := if style.vAlign == Bottom then height - boxH - style.vOffset else style.vOffset;
    Placement(scale, if boxX < 0 then 0 else boxX, if boxY < 0 then 0 else boxY, boxW, boxH, pad)
  }

  /** The text fills its box up to the padding: a covered pixel is inside it, at least `pad` from every edge. */
  lemma TextStaysInBox(font: Font, text: string, style: OsdStyle, width: int, height: int, x: int, y: int)
    requires var p := Place(text, style, width, height);
             TextCovers(font, text, p.scale, x - (p.boxX + p.pad), y - (p.boxY + p.pad))
    ensures var p := Place(text, style, width, height);
            p.boxX + p.pad <= x < p.boxX + p.boxW - p.pad && p.boxY + p.pad <= y < p.boxY + p.boxH - p.pad
  {
    var p := Place(text, style, width, height);
    var cell := (GLYPH_W + SPACING) * p.scale;
    var dx, dy := x - (p.boxX + p.pad), y - (p.boxY + p.pad);
    TextWithin(font, text, p.scale, dx, dy);
    MulMonotone(1, |text|, cell);
  }

  lemma TextWithin(font: Font, text: string, scale: int, dx: int, dy: int)
    requires 0 < scale && TextCovers(font, text, scale, dx, dy)
    ensures text != []
    ensures 0 <= dx < |text| * ((GLYPH_W + SPACING) * scale) - SPACING * scale && 0 <= dy < GLYPH_H * scale
  {
    hide GlyphCovers;
    var cell := (GLYPH_W + SPACING) * scale;
    var k := dx / cell;
    CellSplit(dx, cell, k);
    QuotientNonNegative(dx, cell);
    GlyphWithin(font, text[k], scale, dx % cell, dy);
    MulMonotone(k + 1, |text|, cell);
    assert (k + 1) * cell == k * cell + cell;
  }

  /** Frame columns to the right of the box, and frame rows below it. */
  function RightGap(p: Placement, width: int): int {
    width - (p.boxX + p.boxW)
  }

  function LowerGap(p: Placement, height: int): int {
    height - (p.boxY + p.boxH)
  }

  /** A box that fits stands as far from the edge it is aligned to as the offset says; one that does not fit stands
      at the left or upper edge. */
  lemma PlacedByAlignment(text: string, style: OsdStyle, width: int, height: int)
    ensures var p := Place(text, style, width, height);
            && (style.hAlign == Right && p.boxW + style.hOffset <= width ==> RightGap(p, width) == style.hOffset)
            && (style.hAlign == Right && p.boxW + style.hOffset > width ==> p.boxX == 0)
            && (style.hAlign == Left ==> p.boxX == Max(style.hOffset, 0))
            && (style.vAlign == Bottom && p.boxH + style.vOffset <= height ==> LowerGap(p, height) == style.vOffset)
            && (style.vAlign == Bottom && p.boxH + style.vOffset > height ==> p.boxY == 0)
            && (style.vAlign == Top ==> p.boxY == Max(style.vOffset, 0))
  {
    hide TextWidth;
  }

  function Max(a: int, b: int): int {
    if a < b then b else a
  }

  /** Changing the side a fitting box is aligned to exchanges the gaps on both sides of it, and nothing else. */
  lemma LeftMirrorsRight(text: string, style: OsdStyle, width: int, height: int)
    requires 0 <= style.hOffset
    ensures var l, r := Place(text, style.(hAlign := Left), width, height),
                        Place(text, style.(hAlign := Right), width, height);
            l.boxW + style.hOffset <= width ==>
              RightGap(r, width) == l.boxX && r.boxX == RightGap(l, width) && r == l.(boxX := r.boxX)
  {
    hide TextWidth;
  }

  lemma TopMirrorsBottom(text: string, style: OsdStyle, width: int, height: int)
    requires 0 <= style.vOffset
    ensures var t, b := Place(text, style.(vAlign := Top), width, height),
                        Place(text, style.(vAlign := Bottom), width, height);
            t.boxH + style.vOffset <= height ==>
              LowerGap(b, height) == t.boxY && b.boxY == LowerGap(t, height) && b == t.(boxY := b.boxY)
  {
    hide TextWidth;
  }

  /** The font in which every cell of every glyph is set. */
  const FULL: Font := (c, r) => 255

  lemma {:induction false} AllBitsSet(k: int)
    requires 0 <= k < 8
    ensures Bit(255, k)
  {
    assert Bit(255, 0) && Bit(127, 0) && Bit(63, 0) && Bit(31, 0);
    assert Bit(15, 0) && Bit(7, 0) && Bit(3, 0) && Bit(1, 0);
    assert Bit(3, 1) && Bit(7, 1) && Bit(15, 1) && Bit(31, 1) && Bit(63, 1) && Bit(127, 1) && Bit(255, 1);
    assert Bit(7, 2) && Bit(15, 2) && Bit(31, 2) && Bit(63, 2) && Bit(127, 2) && Bit(255, 2);
    assert Bit(15, 3) && Bit(31, 3) && Bit(63, 3) && Bit(127, 3) && Bit(255, 3);
    assert Bit(31, 4) && Bit(63, 4) && Bit(127, 4) && Bit(255, 4);
    assert Bit(63, 5) && Bit(127, 5) && Bit(255, 5);
    assert Bit(127, 6) && Bit(255, 6);
  }

  /** A full text: cells of 8 by 8 scaled font pixels, one scaled font pixel apart. */
  lemma FullTextCovers(text: string, scale: int, n: int, dx: int, dy: int)
    requires 0 < scale && 0 <= n < |text| && 0 <= dx < 8 * scale && 0 <= dy < 8 * scale
    ensures TextCovers(FULL, text, scale, n * (9 * scale) + dx, dy)
  {
    MulMonotone(0, n, 9 * scale);
    CellSplit(n * (9 * scale) + dx, 9 * scale, n);
    QuotientBounds(dx, scale);
    QuotientBounds(dy, scale);
    QuotientNonNegative(dx, scale);
    if dx / scale >= 8 { MulMonotone(8, dx / scale, scale); }
    if dy / scale >= 8 { MulMonotone(8, dy / scale, scale); }
    AllBitsSet(dx / scale);
    assert GlyphCovers(FULL, text[n], scale, dx, dy);
  }

  predicate HasBox(style: OsdStyle) {
    style.bg == Box || style.bg == BoxSemi
  }

  /** The box is as small as it can be: a text of full glyphs reaches from its first column and row to its last ones,
      or, when it is drawn, to ten pixels from each of them. */
  lemma BoxIsTight(text: string, style: OsdStyle, width: int, height: int)
    requires text != [] && 1 <= style.scale
    ensures var p, gap := Place(text, style, width, height), if HasBox(style) then 10 else 0;
            && TextAt(FULL, text, p, p.boxX + gap, p.boxY + gap)
            && TextAt(FULL, text, p, p.boxX + p.boxW - 1 - gap, p.boxY + p.boxH - 1 - gap)
            && p.boxW - 2 * gap == (|text| - 1) * (9 * style.scale) + 8 * style.scale
            && p.boxH - 2 * gap == 8 * style.scale
  {
    var p, s := Place(text, style, width, height), style.scale;
    var cell := 9 * s;
    assert |text| * cell == (|text| - 1) * cell + cell;
    MulMonotone(1, |text|, cell);
    FullTextCovers(text, s, 0, 0, 0);
    FullTextCovers(text, s, |text| - 1, 8 * s - 1, 8 * s - 1);
  }

  lemma {:induction false} PowerBit(k: nat, j: nat)
    ensures Bit(Power2(k), j) <==> j == k
    decreases k
  {
    if j > 0 && k > 0 {
      PowerBit(k - 1, j - 1);
      assert Power2(k) / 2 == Power2(k - 1);
    } else if j > 0 {
      NoBits(j - 1);
    }
  }

  lemma {:induction false} NoBits(j: nat)
    ensures !Bit(0, j)
  {
    if j > 0 {
      NoBits(j - 1);
    }
  }

  function Power2(k: nat): (n: nat)
    ensures 0 < n
  {
    if k == 0 then 1 else 2 * Power2(k - 1)
  }

  /** One set bit of a font, bit k in row r of a character, is one square of the text wherever this character stands,
      and nothing else. */
  lemma OneBitIsOneSquare(font: Font, text: string, scale: int, ch: char, k: nat, r: nat, dx: int, dy: int)
    requires 0 < scale && k < 8 && r < 8 && ch as int < 128 && forall i | 0 <= i < |text| :: text[i] as int < 128
    requires forall c, row :: font(c, row) as int == if c == ch as int && row == r then Power2(k) else 0
    ensures TextCovers(font, text, scale, dx, dy) <==>
            exists n | 0 <= n < |text| :: text[n] == ch &&
              0 <= dx - n * (9 * scale) - k * scale < scale && 0 <= dy - r * scale < scale
  {
    var cell := 9 * scale;
    var n := dx / cell;
    CellSplit(dx, cell, n);
    if TextCovers(font, text, scale, dx, dy) {
      OneBitOfGlyph(font, text[n], scale, ch, k, r, dx % cell, dy);
      assert 0 <= dx - n * (9 * scale) - k * scale < scale;
    }
    if m :| 0 <= m < |text| && text[m] == ch && 0 <= dx - m * (9 * scale) - k * scale < scale &&
            0 <= dy - r * scale < scale {
      MulMonotone(0, k, scale);
      MulMonotone(k, 7, scale);
      MulMonotone(0, m, cell);
      CellSplit(dx, cell, m);
      OneBitOfGlyph(font, text[m], scale, ch, k, r, dx - m * cell, dy);
    }
  }

  lemma OneBitOfGlyph(font: Font, g: char, scale: int, ch: char, k: nat, r: nat, dx: int, dy: int)
    requires 0 < scale && k < 8 && r < 8 && ch as int < 128 && g as int < 128
    requires forall c, row :: font(c, row) as int == if c == ch as int && row == r then Power2(k) else 0
    ensures GlyphCovers(font, g, scale, dx, dy) <==>
            g == ch && 0 <= dx - k * scale < scale && 0 <= dy - r * scale < scale
  {
    CellSplit(dx, scale, k);
    CellSplit(dy, scale, r);
    if 0 <= dx {
      QuotientNonNegative(dx, scale);
      PowerBit(k, dx / scale);
      NoBits(dx / scale);
    }
    MulMonotone(0, k, scale);
    MulMonotone(0, r, scale);
  }

  // ---- the whole drawing ----

  ghost predicate TextAt(font: Font, text: string, p: Placement, x: int, y: int) {
    TextCovers(font, text, p.scale, x - (p.boxX + p.pad), y - (p.boxY + p.pad))
  }

  /** The drop shadow is the text moved right and down by one scaled font pixel. */
  ghost predicate ShadowAt(font: Font, text: string, style: OsdStyle, p: Placement, x: int, y: int) {
    style.bg == Shadow && TextAt(font, text, p, x - p.scale, y - p.scale)
  }

  ghost predicate InkAt(font: Font, text: string, style: OsdStyle, p: Placement, x: int, y: int) {
    TextAt(font, text, p, x, y) || ShadowAt(font, text, style, p, x, y)
  }

  /** How the box changes a channel byte of pixel (x, y) whose black value is `black`. */
  ghost function Backdrop(style: OsdStyle, p: Placement, x: int, y: int, black: Byte, b: Byte): Byte {
    if InBox(p.boxX, p.boxY, p.boxW, p.boxH, x, y) then
      match style.bg
      case Box => black
      case BoxSemi => Blend8(b, black, SEMI_ALPHA)
      case NoBox => b
      case Shadow => b
    else b
  }

  ghost function PixelLuma(font: Font, text: string, style: OsdStyle, p: Placement, x: int, y: int, b: Byte): Byte {
    if TextAt(font, text, p, x, y) then Y_TEXT
    else if ShadowAt(font, text, style, p, x, y) then Y_SHADOW
    else Backdrop(style, p, x, y, 0, b)
  }

  ghost function PixelChroma(font: Font, text: string, style: OsdStyle, p: Placement, x: int, y: int, b: Byte): Byte {
    if InkAt(font, text, style, p, x / 2 * 2, y) || InkAt(font, text, style, p, x / 2 * 2 + 1, y) then 128
    else Backdrop(style, p, x, y, 128, b)
  }

  /** `after` is `before` with the text drawn: every pixel of the frame shows what it should, and every other
      byte of the buffer (row padding, whatever follows the frame) is as it was. */
  ghost predicate Drawn(font: Font, text: string, style: OsdStyle, p: Placement, g: Geometry,
                        before: seq<Byte>, after: seq<Byte>)
    requires Fits(before, g)
  {
    && |after| == |before|
    && (forall x, y | 0 <= x < g.width && 0 <= y < g.height ::
          Luma(after, g, x, y) == PixelLuma(font, text, style, p, x, y, Luma(before, g, x, y)))
    && (forall x, y, j | 0 <= x < g.width && 0 <= y < g.height && 0 <= j < 2 ::
          Chroma(after, g, x, y, j) == PixelChroma(font, text, style, p, x, y, Chroma(before, g, x, y, j)))
    && (forall y, c | 0 <= y < g.height && 2 * g.width <= c < g.stride ::
          ByteAt(after, g, y, c) == ByteAt(before, g, y, c))
    && (forall i | g.height * g.stride <= i < |before| :: after[i] == before[i])
  }

  /** The drawing in numbers: text is bright and its shadow, one scaled font pixel to the right and below, is dark; a
      box is black, or halves the brightness; ink and black boxes have no colour; everything else is as it was. */
  lemma DrawnInNumbers(font: Font, text: string, style: OsdStyle, p: Placement, g: Geometry,
                       before: seq<Byte>, after: seq<Byte>, x: int, y: int)
    requires Fits(before, g) && Drawn(font, text, style, p, g, before, after)
    requires 0 <= x < g.width && 0 <= y < g.height
    ensures |after| == |before|
    ensures var was, now, inBox := Luma(before, g, x, y), Luma(after, g, x, y),
                                  InBox(p.boxX, p.boxY, p.boxW, p.boxH, x, y);
            if TextAt(font, text, p, x, y) then now == 235
            else if style.bg == Shadow && TextAt(font, text, p, x - p.scale, y - p.scale) then now == 16
            else if inBox && style.bg == Box then now == 0
            else if inBox && style.bg == BoxSemi then was / 2 - 1 <= now <= was / 2 + 1
            else now == was
    ensures TextAt(font, text, p, x, y) ==> Chroma(after, g, x, y, 0) == Chroma(after, g, x, y, 1) == 128
    ensures InBox(p.boxX, p.boxY, p.boxW, p.boxH, x, y) && style.bg == Box ==>
              Chroma(after, g, x, y, 0) == Chroma(after, g, x, y, 1) == 128
  {
    hide TextAt, InBox;
    assert x / 2 * 2 == x || x / 2 * 2 + 1 == x;
  }

  ghost function BackdropByte(style: OsdStyle, p: Placement, g: Geometry, y: int, c: int, b: Byte): Byte {
    if c < 2 * g.width then Backdrop(style, p, c / 2, y, if g.IsLumaColumn(c) then 0 else 128, b) else b
  }

  ghost predicate ShowsBackdrop(style: OsdStyle, p: Placement, g: Geometry, before: seq<Byte>, after: seq<Byte>)
    requires Fits(before, g)
  {
    Mapped(g, before, after, (y, c, b) => BackdropByte(style, p, g, y, c, b))
  }

  ghost function ShadowCells(font: Font, text: string, style: OsdStyle, p: Placement): iset<Pixel>
  {
    if style.bg == Shadow
    then TextCells(font, text, p.scale, p.boxX + p.pad + p.scale, p.boxY + p.pad + p.scale) else iset{}
  }

  lemma PixelColumns(g: Geometry, x: int, j: int)
    requires g.Valid() && 0 <= x < g.width && 0 <= j < 2
    ensures 0 <= g.LumaColumn(x) < 2 * g.width && g.IsLumaColumn(g.LumaColumn(x)) && g.LumaColumn(x) / 2 == x
    ensures 0 <= g.ChromaColumn(x, j) < 2 * g.width && !g.IsLumaColumn(g.ChromaColumn(x, j))
    ensures g.ChromaColumn(x, j) / 4 * 2 == x / 2 * 2 && g.ChromaColumn(x, j) / 2 / 2 == x / 2
  {
    var pair := x / 2;
    assert x == 2 * pair + x % 2 && 2 * pair + 2 <= g.width;
    assert g.LumaColumn(x) == 4 * pair + 2 * (x % 2) + (if g.fmt == Yuyv then 0 else 1);
    assert g.ChromaColumn(x, j) == 4 * pair + 2 * j + (if g.fmt == Yuyv then 1 else 0);
    InPair(g.LumaColumn(x), pair, x % 2, if g.fmt == Yuyv then 0 else 1);
    InPair(g.ChromaColumn(x, j), pair, j, if g.fmt == Yuyv then 1 else 0);
  }

  /** The byte at offset 2 * j + k of the four bytes of a pair. */
  lemma InPair(c: int, pair: int, j: int, k: int)
    requires c == 4 * pair + 2 * j + k && 0 <= j < 2 && 0 <= k < 2
    ensures c % 2 == k && c / 2 == 2 * pair + j && c / 4 == pair && c / 2 / 2 == pair
  {
  }

  lemma LayersAtLuma(font: Font, text: string, style: OsdStyle, p: Placement, g: Geometry, x: int, y: int, b: Byte)
    requires g.Valid() && 0 <= x < g.width && 0 <= y < g.height
    ensures var c := g.LumaColumn(x);
            PaintByte(g, TextCells(font, text, p.scale, p.boxX + p.pad, p.boxY + p.pad), Y_TEXT,
                      ShadowCells(font, text, style, p), Y_SHADOW, y, c, BackdropByte(style, p, g, y, c, b)) ==
            PixelLuma(font, text, style, p, x, y, b)
  {
    PixelColumns(g, x, 0);
    assert x - (p.boxX + p.pad + p.scale) == x - p.scale - (p.boxX + p.pad);
    assert y - (p.boxY + p.pad + p.scale) == y - p.scale - (p.boxY + p.pad);
  }

  lemma LayersAtChroma(font: Font, text: string, style: OsdStyle, p: Placement, g: Geometry,
                       x: int, y: int, j: int, b: Byte)
    requires g.Valid() && 0 <= x < g.width && 0 <= y < g.height && 0 <= j < 2
    ensures var c := g.ChromaColumn(x, j);
            PaintByte(g, TextCells(font, text, p.scale, p.boxX + p.pad, p.boxY + p.pad), Y_TEXT,
                      ShadowCells(font, text, style, p), Y_SHADOW, y, c, BackdropByte(style, p, g, y, c, b)) ==
            PixelChroma(font, text, style, p, x, y, b)
  {
    PixelColumns(g, x, j);
    assert y - (p.boxY + p.pad + p.scale) == y - p.scale - (p.boxY + p.pad);
  }

  lemma MappedTwice(g: Geometry, a: seq<Byte>, b: seq<Byte>, c: seq<Byte>, f: (int, int, Byte) -> Byte,
                    h: (int, int, Byte) -> Byte)
    requires Fits(a, g) && Mapped(g, a, b, f) && Mapped(g, b, c, h)
    ensures Mapped(g, a, c, (y, x, v) => h(y, x, f(y, x, v)))
  {
  }

  lemma LayersAreDrawn(font: Font, text: string, style: OsdStyle, p: Placement, g: Geometry,
                       before: seq<Byte>, boxed: seq<Byte>, after: seq<Byte>)
    requires Fits(before, g) && Fits(boxed, g) && ShowsBackdrop(style, p, g, before, boxed)
    requires Lettered(g, boxed, after, TextCells(font, text, p.scale, p.boxX + p.pad, p.boxY + p.pad),
                      ShadowCells(font, text, style, p))
    ensures Drawn(font, text, style, p, g, before, after)
  {
    var lit := TextCells(font, text, p.scale, p.boxX + p.pad, p.boxY + p.pad);
    var dim := ShadowCells(font, text, style, p);
    var f := (y, c, b) => BackdropByte(style, p, g, y, c, b);
    var h := (y, c, b) => PaintByte(g, lit, Y_TEXT, dim, Y_SHADOW, y, c, b);
    MappedTwice(g, before, boxed, after, f, h);
    BothLayersDrawn(font, text, style, p, g, before, after, (y, c, b) => h(y, c, f(y, c, b)));
  }

  lemma BothLayersDrawn(font: Font, text: string, style: OsdStyle, p: Placement, g: Geometry,
                        before: seq<Byte>, after: seq<Byte>, f: (int, int, Byte) -> Byte)
    requires Fits(before, g) && Mapped(g, before, after, f)
    requires forall y, c, b: Byte ::
               f(y, c, b) == PaintByte(g, TextCells(font, text, p.scale, p.boxX + p.pad, p.boxY + p.pad), Y_TEXT,
                                       ShadowCells(font, text, style, p), Y_SHADOW, y, c,
                                       BackdropByte(style, p, g, y, c, b))
    ensures Drawn(font, text, style, p, g, before, after)
  {
    hide Backdrop, TextCells, ShadowCells, PaintByte, PixelLuma, PixelChroma, BackdropByte, Mapped;
    MappedElsewhere(g, before, after, f);
    forall x, y | 0 <= x < g.width && 0 <= y < g.height
      ensures Luma(after, g, x, y) == PixelLuma(font, text, style, p, x, y, Luma(before, g, x, y))
    {
      PixelColumns(g, x, 0);
      MappedAt(g, before, after, f, y, g.LumaColumn(x));
      LayersAtLuma(font, text, style, p, g, x, y, Luma(before, g, x, y));
    }
    forall x, y, j | 0 <= x < g.width && 0 <= y < g.height && 0 <= j < 2
      ensures Chroma(after, g, x, y, j) == PixelChroma(font, text, style, p, x, y, Chroma(before, g, x, y, j))
    {
      PixelColumns(g, x, j);
      MappedAt(g, before, after, f, y, g.ChromaColumn(x, j));
      LayersAtChroma(font, text, style, p, g, x, y, j, Chroma(before, g, x, y, j));
    }
    forall y, c | 0 <= y < g.height && 2 * g.width <= c < g.stride
      ensures ByteAt(after, g, y, c) == ByteAt(before, g, y, c)
    {
      MappedAt(g, before, after, f, y, c);
      LayersAtPadding(font, text, style, p, g, y, c, ByteAt(before, g, y, c));
    }
  }

  lemma LayersAtPadding(font: Font, text: string, style: OsdStyle, p: Placement, g: Geometry, y: int, c: int, b: Byte)
    requires 2 * g.width <= c
    ensures PaintByte(g, TextCells(font, text, p.scale, p.boxX + p.pad, p.boxY + p.pad), Y_TEXT,
                      ShadowCells(font, text, style, p), Y_SHADOW, y, c, BackdropByte(style, p, g, y, c, b)) == b
  {
    hide TextCells, ShadowCells, Backdrop;
  }

  lemma MappedAt(g: Geometry, a: seq<Byte>, b: seq<Byte>, f: (int, int, Byte) -> Byte, y: int, c: int)
    requires Fits(a, g) && Mapped(g, a, b, f) && 0 <= y < g.height && 0 <= c < g.stride
    ensures Fits(b, g) && ByteAt(b, g, y, c) == f(y, c, ByteAt(a, g, y, c))
  {
  }

  lemma MappedElsewhere(g: Geometry, a: seq<Byte>, b: seq<Byte>, f: (int, int, Byte) -> Byte)
    requires Fits(a, g) && Mapped(g, a, b, f)
    ensures |b| == |a| && forall i | g.height * g.stride <= i < |a| :: b[i] == a[i]
  {
  }

  ghost function ShadowPart(font: Font, text: string, style: OsdStyle, p: Placement, n: int): iset<Pixel>
    requires 0 <= n <= |text|
  {
    ShadowCells(font, text[..n], style, p)
  }

  ghost predicate LetteredTo(font: Font, text: string, style: OsdStyle, p: Placement, g: Geometry,
                             boxed: seq<Byte>, after: seq<Byte>, n: int)
    requires Fits(boxed, g) && 0 <= n <= |text|
  {
    Lettered(g, boxed, after, TextCells(font, text[..n], p.scale, p.boxX + p.pad, p.boxY + p.pad),
             ShadowPart(font, text, style, p, n))
  }

  /** The shadow of character n added to the shadows before it. */
  lemma ShadowGrows(font: Font, text: string, style: OsdStyle, p: Placement, n: int)
    requires 0 <= n < |text| && style.bg == Shadow
    ensures var x, y := p.boxX + p.pad + n * ((GLYPH_W + SPACING) * p.scale), p.boxY + p.pad;
            var added := GlyphCells(font, text[n], p.scale, x + p.scale, y + p.scale);
            && ShadowPart(font, text, style, p, n + 1) == ShadowPart(font, text, style, p, n) + added
            && TextCells(font, text[..n], p.scale, p.boxX + p.pad, p.boxY + p.pad) !! added
  {
    var x0, y0 := p.boxX + p.pad, p.boxY + p.pad;
    var m := n * ((GLYPH_W + SPACING) * p.scale);
    TextGrows(font, text, n, p.scale, x0 + p.scale, y0 + p.scale);
    ShadowClearsText(font, text, n, p.scale, x0, y0, y0 + p.scale);
    assert x0 + p.scale + m == x0 + m + p.scale;
  }

  /** One turn of the loop over characters: the shadow of the character first, then the character. */
  lemma CharacterDrawn(font: Font, text: string, style: OsdStyle, p: Placement, g: Geometry, boxed: seq<Byte>,
                       a: seq<Byte>, b: seq<Byte>, c: seq<Byte>, n: int, x: int, y: int)
    requires Fits(boxed, g) && Fits(a, g) && Fits(b, g) && 0 <= n < |text|
    requires LetteredTo(font, text, style, p, g, boxed, a, n)
    requires x == p.boxX + p.pad + n * ((GLYPH_W + SPACING) * p.scale) && y == p.boxY + p.pad
    requires if style.bg == Shadow
             then Lit(g, a, b, GlyphCells(font, text[n], p.scale, x + p.scale, y + p.scale), Y_SHADOW) else b == a
    requires Lit(g, b, c, GlyphCells(font, text[n], p.scale, x, y), Y_TEXT)
    ensures LetteredTo(font, text, style, p, g, boxed, c, n + 1)
  {
    hide Painted, GlyphCells, TextCells;
    var cells := TextCells(font, text[..n], p.scale, p.boxX + p.pad, p.boxY + p.pad);
    assert Lettered(g, boxed, b, cells, ShadowPart(font, text, style, p, n + 1)) by {
      if style.bg == Shadow {
        ShadowGrows(font, text, style, p, n);
        LetterShadow(g, boxed, a, b, cells, ShadowPart(font, text, style, p, n),
                     GlyphCells(font, text[n], p.scale, x + p.scale, y + p.scale));
      }
    }
    TextGrows(font, text, n, p.scale, p.boxX + p.pad, p.boxY + p.pad);
    LetterText(g, boxed, b, c, cells, ShadowPart(font, text, style, p, n + 1),
               GlyphCells(font, text[n], p.scale, x, y));
  }

  /** Draws `text` over the frame in the given style. */
  method DrawText(img: array<Byte>, g: Geometry, font: Font, text: string, style: OsdStyle)
    requires Fits(img[..], g)
    modifies img
    ensures if text == [] then img[..] == old(img[..])
            else Drawn(font, text, style, Place(text, style, g.width, g.height), g, old(img[..]), img[..])
  {
    hide Drawn, Mapped, Painted;
    ghost var before := img[..];
    if |text| == 0 {
      return;
    }
    var p := Place(text, style, g.width, g.height);
    if style.bg == Box {
      FillRectBlack(img, g, p.boxX, p.boxY, p.boxW, p.boxH, OPAQUE);
    } else if style.bg == BoxSemi {
      FillRectBlack(img, g, p.boxX, p.boxY, p.boxW, p.boxH, SEMI_ALPHA);
    }
    ghost var boxed := img[..];
    BoxIsBackdrop(style, p, g, before, boxed);
    DrawLetters(img, g, font, text, style, p);
    assert text[..|text|] == text;
    LayersAreDrawn(font, text, style, p, g, before, boxed, img[..]);
  }

  lemma BoxIsBackdrop(style: OsdStyle, p: Placement, g: Geometry, before: seq<Byte>, boxed: seq<Byte>)
    requires Fits(before, g)
    requires if style.bg == Box then Boxed(g, before, boxed, p.boxX, p.boxY, p.boxW, p.boxH, OPAQUE)
             else if style.bg == BoxSemi then Boxed(g, before, boxed, p.boxX, p.boxY, p.boxW, p.boxH, SEMI_ALPHA)
             else boxed == before
    ensures ShowsBackdrop(style, p, g, before, boxed)
  {
  }

  /** The loop over the characters. */
  method DrawLetters(img: array<Byte>, g: Geometry, font: Font, text: string, style: OsdStyle, p: Placement)
    requires Fits(img[..], g)
    modifies img
    ensures Fits(img[..], g)
    ensures LetteredTo(font, text, style, p, g, old(img[..]), img[..], |text|)
  {
    hide Painted, GlyphCells, LetteredTo;
    ghost var boxed := img[..];
    var cell := (GLYPH_W + SPACING) * p.scale;
    var x, y := p.boxX + p.pad, p.boxY + p.pad;
    var n := 0;
    NothingLettered(font, text, style, p, g, boxed);
    while n < |text|
      invariant 0 <= n <= |text| && Fits(img[..], g)
      invariant x == p.boxX + p.pad + n * cell
      invariant LetteredTo(font, text, style, p, g, boxed, img[..], n)
    {
      ghost var a := img[..];
      if style.bg == Shadow {
        DrawGlyph(img, g, x + p.scale, y + p.scale, font, text[n], p.scale, Y_SHADOW);
      }
      ghost var b := img[..];
      DrawGlyph(img, g, x, y, font, text[n], p.scale, Y_TEXT);
      CharacterDrawn(font, text, style, p, g, boxed, a, b, img[..], n, x, y);
      x := x + cell;
      n := n + 1;
    }
  }

  lemma NothingLettered(font: Font, text: string, style: OsdStyle, p: Placement, g: Geometry, s: seq<Byte>)
    requires Fits(s, g)
    ensures LetteredTo(font, text, style, p, g, s, s, 0)
  {
    var cell := (GLYPH_W + SPACING) * p.scale;
    forall dx | 0 <= dx ensures 0 <= dx / cell {
      QuotientNonNegative(dx, cell);
    }
  }

  // ---- consequences ----

  /** Pixels, padding and the bytes after the frame make up the whole buffer. */
  lemma PixelsAreTheBuffer(g: Geometry, a: seq<Byte>, b: seq<Byte>)
    requires Fits(a, g) && |a| == |b| && SamePicture(g, a, g, b)
    requires forall y, c | 0 <= y < g.height && 2 * g.width <= c < g.stride :: ByteAt(a, g, y, c) == ByteAt(b, g, y, c)
    requires forall i | g.height * g.stride <= i < |a| :: a[i] == b[i]
    ensures a == b
  {
    forall y, c | 0 <= y < g.height && 0 <= c < g.stride ensures ByteAt(a, g, y, c) == ByteAt(b, g, y, c) {
      if c < 2 * g.width {
        ColumnIsPixel(g, c);
        if g.IsLumaColumn(c) {
          assert Luma(a, g, c / 2, y) == Luma(b, g, c / 2, y);
        } else {
          var j := if c == g.ChromaColumn(c / 2, 0) then 0 else 1;
          assert Chroma(a, g, c / 2, y, j) == Chroma(b, g, c / 2, y, j);
        }
      }
    }
    MappedDetermines(g, a, a, b, (y, c, v) => v);
  }

  lemma ColumnIsPixel(g: Geometry, c: int)
    requires g.Valid() && 0 <= c < 2 * g.width
    ensures 0 <= c / 2 < g.width
    ensures if g.IsLumaColumn(c) then c == g.LumaColumn(c / 2)
            else c == g.ChromaColumn(c / 2, 0) || c == g.ChromaColumn(c / 2, 1)
  {
  }

  /** Every byte of the buffer is fixed by the description, so the loops have no freedom left. */
  lemma DrawnDetermines(font: Font, text: string, style: OsdStyle, p: Placement, g: Geometry,
                        before: seq<Byte>, a: seq<Byte>, b: seq<Byte>)
    requires Fits(before, g)
    requires Drawn(font, text, style, p, g, before, a) && Drawn(font, text, style, p, g, before, b)
    ensures a == b
  {
    FormatDoesNotMatter(font, text, style, p, g, g, before, a, before, b);
    PixelsAreTheBuffer(g, a, b);
  }

  ghost predicate SamePicture(g: Geometry, s: seq<Byte>, g': Geometry, s': seq<Byte>)
    requires Fits(s, g) && Fits(s', g') && g.width == g'.width && g.height == g'.height
  {
    && (forall x, y | 0 <= x < g.width && 0 <= y < g.height :: Luma(s, g, x, y) == Luma(s', g', x, y))
    && (forall x, y, j | 0 <= x < g.width && 0 <= y < g.height && 0 <= j < 2 ::
          Chroma(s, g, x, y, j) == Chroma(s', g', x, y, j))
  }

  /** The byte order and the row stride do not show: equal pictures stay equal. */
  lemma FormatDoesNotMatter(font: Font, text: string, style: OsdStyle, p: Placement, g: Geometry, g': Geometry,
                            before: seq<Byte>, after: seq<Byte>, before': seq<Byte>, after': seq<Byte>)
    requires Fits(before, g) && Fits(before', g') && g.width == g'.width && g.height == g'.height
    requires SamePicture(g, before, g', before')
    requires Drawn(font, text, style, p, g, before, after) && Drawn(font, text, style, p, g', before', after')
    ensures SamePicture(g, after, g', after')
  {
    forall x, y | 0 <= x < g.width && 0 <= y < g.height ensures Luma(after, g, x, y) == Luma(after', g', x, y) {
      assert Luma(before, g, x, y) == Luma(before', g', x, y);
    }
    forall x, y, j | 0 <= x < g.width && 0 <= y < g.height && 0 <= j < 2
      ensures Chroma(after, g, x, y, j) == Chroma(after', g', x, y, j)
    {
      assert Chroma(before, g, x, y, j) == Chroma(before', g', x, y, j);
    }
  }

  /** Except for the blended box, drawing the same text again changes nothing. */
  lemma DrawingAgainChangesNothing(font: Font, text: string, style: OsdStyle, p: Placement, g: Geometry,
                                   a: seq<Byte>, b: seq<Byte>, c: seq<Byte>)
    requires Fits(a, g) && style.bg != BoxSemi
    requires Drawn(font, text, style, p, g, a, b) && Drawn(font, text, style, p, g, b, c)
    ensures b == c
  {
    forall x, y | 0 <= x < g.width && 0 <= y < g.height ensures Luma(c, g, x, y) == Luma(b, g, x, y) {
      assert Luma(b, g, x, y) == PixelLuma(font, text, style, p, x, y, Luma(a, g, x, y));
    }
    forall x, y, j | 0 <= x < g.width && 0 <= y < g.height && 0 <= j < 2
      ensures Chroma(c, g, x, y, j) == Chroma(b, g, x, y, j)
    {
      assert Chroma(b, g, x, y, j) == PixelChroma(font, text, style, p, x, y, Chroma(a, g, x, y, j));
    }
    PixelsAreTheBuffer(g, b, c);
  }
}
