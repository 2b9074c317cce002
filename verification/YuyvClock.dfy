/** The clock drawn into raw frames: white digits on a black box at the top, with the primitives of the text overlay.

    The clock's font stores its leftmost column in the highest bit; `font` stands for its mirror image. */
module YuyvClock {
  import opened Arithmetic
  import opened Bytes
  import opened Decimals
  import opened PackedFrame
  import opened OsdDraw
  import opened RecordingNames

  const SCALE := 2
  const BOX_W := (11 * (GLYPH_W + SPACING) + GLYPH_W) * SCALE + 2 * PAD
  const BOX_H := GLYPH_H * SCALE + 2 * PAD

  datatype TimeOfDay = TimeOfDay(hour: nat, minute: nat, second: nat, millis: nat) {
    predicate Valid() {
      hour < 24 && minute < 60 && second <= 60 && millis < 1000
    }
  }

  /** HH:MM:SS:mmm */
  function ClockText(t: TimeOfDay): (s: string)
    requires t.Valid()
    ensures |s| == 12
  {
    assert PowerOfTen(3) == 1000;
    TwoDigits(t.hour) + ":" + TwoDigits(t.minute) + ":" + TwoDigits(t.second) + ":" + PrefixZero(t.millis, 3)
  }

  /** The text can be read: hours, minutes, seconds and milliseconds, two, two, two and three digits wide. */
  lemma ClockTextReadsBack(t: TimeOfDay)
    requires t.Valid()
    ensures var s := ClockText(t);
            && DigitsValue(s[0..2], 0) == t.hour && DigitsValue(s[3..5], 0) == t.minute
            && DigitsValue(s[6..8], 0) == t.second && DigitsValue(s[9..12], 0) == t.millis
            && s[2] == ':' && s[5] == ':' && s[8] == ':'
            && forall i | 0 <= i < 12 && i != 2 && i != 5 && i != 8 :: IsDigit(s[i])
  {
    assert PowerOfTen(2) == 100 && PowerOfTen(3) == 1000;
    PrefixZeroIsDigits(t.hour, 2);
    PrefixZeroIsDigits(t.minute, 2);
    PrefixZeroIsDigits(t.second, 2);
    PrefixZeroIsDigits(t.millis, 3);
    var h, m, s, ms := TwoDigits(t.hour), TwoDigits(t.minute), TwoDigits(t.second), PrefixZero(t.millis, 3);
    hide PrefixZero, DigitsValue;
    assert ClockText(t) == h + ":" + m + ":" + s + ":" + ms;
    assert ClockText(t)[0..2] == h && ClockText(t)[3..5] == m && ClockText(t)[6..8] == s && ClockText(t)[9..12] == ms;
  }

  function TextX(width: int): int {
    width / 2 - BOX_W / 2
  }

  function BoxX(width: int): int {
    if TextX(width) - PAD < 0 then 0 else TextX(width) - PAD
  }

  ghost predicate TextAt(font: Font, text: string, width: int, x: int, y: int) {
    TextCovers(font, text, SCALE, x - TextX(width), y - PAD)
  }

  ghost predicate InClockBox(width: int, x: int, y: int) {
    InBox(BoxX(width), 0, BOX_W, BOX_H, x, y)
  }

  /** The picture: text on a black, colourless box, everything else as before. */
  ghost predicate ClockDrawn(font: Font, text: string, g: Geometry, before: seq<Byte>, after: seq<Byte>)
    requires Fits(before, g)
  {
    && |after| == |before|
    && (forall x, y | 0 <= x < g.width && 0 <= y < g.height ::
          Luma(after, g, x, y) == if !InClockBox(g.width, x, y) then Luma(before, g, x, y)
                                  else if TextAt(font, text, g.width, x, y) then Y_TEXT else 0)
    && (forall x, y, j | 0 <= x < g.width && 0 <= y < g.height && 0 <= j < 2 ::
          Chroma(after, g, x, y, j) == if InClockBox(g.width, x, y) then 128 else Chroma(before, g, x, y, j))
    && (forall y, c | 0 <= y < g.height && 2 * g.width <= c < g.stride ::
          ByteAt(after, g, y, c) == ByteAt(before, g, y, c))
    && (forall i | g.height * g.stride <= i < |before| :: after[i] == before[i])
  }

  /** On frames of any width the visible text lies on the box, also where the box is pushed to the left edge. */
  lemma ClockStaysInBox(font: Font, text: string, width: int, x: int, y: int)
    requires |text| == 12 && 0 <= x < width && TextAt(font, text, width, x, y)
    ensures BoxX(width) <= x < BoxX(width) + BOX_W && PAD <= y < BOX_H - PAD
  {
    TextWithin(font, text, SCALE, x - TextX(width), y - PAD);
  }

  /** The box stands in the middle, less the padding; on a narrow frame at the left edge. A text of full glyphs reaches
      to ten pixels from every edge of it. */
  lemma ClockBoxIsCentred(text: string, width: int)
    requires |text| == 12
    ensures BOX_W + 2 * PAD <= width ==>
              var left, right := BoxX(width), width - (BoxX(width) + BOX_W);
              0 <= left && right - left == 2 * PAD + width % 2
    ensures BOX_W + 2 * PAD <= width ==>
              TextAt(FULL, text, width, BoxX(width) + 10, 10) &&
              TextAt(FULL, text, width, BoxX(width) + BOX_W - 11, BOX_H - 11)
  {
    FullTextCovers(text, SCALE, 0, 0, 0);
    FullTextCovers(text, SCALE, 11, 15, 15);
  }

  /** The loop over the characters. */
  method DrawClockText(img: array<Byte>, g: Geometry, x0: int, y0: int, font: Font, text: string)
    requires Fits(img[..], g)
    modifies img
    ensures Fits(img[..], g)
    ensures Lit(g, old(img[..]), img[..], TextCells(font, text, SCALE, x0, y0), Y_TEXT)
  {
    hide Painted, GlyphCells, TextCells;
    ghost var before := img[..];
    var cx, n := x0, 0;
    NoText(font, x0, y0);
    assert text[..0] == "";
    LitNothing(g, before, Y_TEXT);
    while n < |text|
      invariant 0 <= n <= |text| && Fits(img[..], g) && cx == x0 + n * ((GLYPH_W + SPACING) * SCALE)
      invariant Lit(g, before, img[..], TextCells(font, text[..n], SCALE, x0, y0), Y_TEXT)
    {
      ghost var mid := img[..];
      DrawGlyph(img, g, cx, y0, font, text[n], SCALE, Y_TEXT);
      TextGrows(font, text, n, SCALE, x0, y0);
      LitTwice(g, before, mid, img[..], TextCells(font, text[..n], SCALE, x0, y0),
               GlyphCells(font, text[n], SCALE, cx, y0), Y_TEXT);
      cx := cx + (GLYPH_W + SPACING) * SCALE;
      n := n + 1;
    }
    assert text[..n] == text;
  }

  lemma NoText(font: Font, x0: int, y0: int)
    ensures TextCells(font, "", SCALE, x0, y0) == iset{}
  {
    forall p: Pixel ensures p !in TextCells(font, "", SCALE, x0, y0) {
      if 0 <= p.0 - x0 {
        QuotientNonNegative(p.0 - x0, (GLYPH_W + SPACING) * SCALE);
      }
    }
  }

  /** Draws the clock over a frame. */
  method OverlayClock(img: array<Byte>, g: Geometry, font: Font, t: TimeOfDay)
    requires Fits(img[..], g) && t.Valid()
    modifies img
    ensures ClockDrawn(font, ClockText(t), g, old(img[..]), img[..])
  {
    hide ClockDrawn, ClockText, Mapped, Painted;
    ghost var before := img[..];
    var text := ClockText(t);
    var x, y := g.width / 2 - BOX_W / 2, PAD;
    var boxX := if x - PAD < 0 then 0 else x - PAD;
    var boxY := if y - PAD < 0 then 0 else y - PAD;
    FillRectBlack(img, g, boxX, boxY, BOX_W, BOX_H, OPAQUE);
    ghost var boxed := img[..];
    DrawClockText(img, g, x, y, font, text);
    BoxThenText(font, text, g, before, boxed, img[..]);
  }

  lemma BoxThenText(font: Font, text: string, g: Geometry, before: seq<Byte>, boxed: seq<Byte>, after: seq<Byte>)
    requires Fits(before, g) && Fits(boxed, g) && |text| == 12
    requires Boxed(g, before, boxed, BoxX(g.width), 0, BOX_W, BOX_H, OPAQUE)
    requires Lit(g, boxed, after, TextCells(font, text, SCALE, TextX(g.width), PAD), Y_TEXT)
    ensures ClockDrawn(font, text, g, before, after)
  {
    var lit := TextCells(font, text, SCALE, TextX(g.width), PAD);
    var f := (y: int, c: int, b: Byte) => BoxByte(g, BoxX(g.width), 0, BOX_W, BOX_H, OPAQUE, y, c, b);
    var h := (y: int, c: int, b: Byte) => PaintByte(g, lit, Y_TEXT, iset{}, 0, y, c, b);
    MappedTwice(g, before, boxed, after, f, h);
    LayersAreTheClock(font, text, g, before, after, (y, c, b) => h(y, c, f(y, c, b)));
  }

  lemma LayersAreTheClock(font: Font, text: string, g: Geometry, before: seq<Byte>, after: seq<Byte>,
                          f: (int, int, Byte) -> Byte)
    requires Fits(before, g) && |text| == 12 && Mapped(g, before, after, f)
    requires forall y, c, b: Byte :: f(y, c, b) == LayeredByte(font, text, g, y, c, b)
    ensures ClockDrawn(font, text, g, before, after)
  {
    hide InClockBox, TextAt, LayeredByte;
    forall x, y | 0 <= x < g.width && 0 <= y < g.height
      ensures Luma(after, g, x, y) == if !InClockBox(g.width, x, y) then Luma(before, g, x, y)
                                      else if TextAt(font, text, g.width, x, y) then Y_TEXT else 0
    {
      PixelColumns(g, x, 0);
      LumaLayer(font, text, g, x, y, Luma(before, g, x, y));
    }
    forall x, y, j | 0 <= x < g.width && 0 <= y < g.height && 0 <= j < 2
      ensures Chroma(after, g, x, y, j) == if InClockBox(g.width, x, y) then 128 else Chroma(before, g, x, y, j)
    {
      PixelColumns(g, x, j);
      ChromaLayer(font, text, g, x, y, j, Chroma(before, g, x, y, j));
    }
    forall y, c | 0 <= y < g.height && 2 * g.width <= c < g.stride
      ensures ByteAt(after, g, y, c) == ByteAt(before, g, y, c)
    {
      PaddingLayer(font, text, g, y, c, ByteAt(before, g, y, c));
    }
  }

  /** One byte after box and text. */
  ghost function LayeredByte(font: Font, text: string, g: Geometry, y: int, c: int, b: Byte): Byte {
    PaintByte(g, TextCells(font, text, SCALE, TextX(g.width), PAD), Y_TEXT, iset{}, 0, y, c,
              BoxByte(g, BoxX(g.width), 0, BOX_W, BOX_H, OPAQUE, y, c, b))
  }

  lemma PaddingLayer(font: Font, text: string, g: Geometry, y: int, c: int, b: Byte)
    requires 2 * g.width <= c
    ensures LayeredByte(font, text, g, y, c, b) == b
  {
  }

  lemma LumaLayer(font: Font, text: string, g: Geometry, x: int, y: int, b: Byte)
    requires g.Valid() && 0 <= x < g.width && |text| == 12
    ensures LayeredByte(font, text, g, y, g.LumaColumn(x), b) ==
            if !InClockBox(g.width, x, y) then b else if TextAt(font, text, g.width, x, y) then Y_TEXT else 0
  {
    hide TextCovers, InBox;
    PixelColumns(g, x, 0);
    TextOnlyInBox(font, text, g.width, x, y);
  }

  lemma ChromaLayer(font: Font, text: string, g: Geometry, x: int, y: int, j: int, b: Byte)
    requires g.Valid() && 0 <= x < g.width && 0 <= j < 2 && |text| == 12
    ensures LayeredByte(font, text, g, y, g.ChromaColumn(x, j), b) == if InClockBox(g.width, x, y) then 128 else b
  {
    hide TextCovers, InBox;
    PixelColumns(g, x, j);
    TextOnlyInBox(font, text, g.width, x / 2 * 2, y);
    TextOnlyInBox(font, text, g.width, x / 2 * 2 + 1, y);
    PairInBox(g.width, x, y);
    PairInBox(g.width, g.ChromaColumn(x, j) / 2, y);
  }

  lemma TextOnlyInBox(font: Font, text: string, width: int, x: int, y: int)
    requires |text| == 12 && 0 <= x < width
    ensures TextAt(font, text, width, x, y) ==> InClockBox(width, x, y)
  {
    hide TextCovers;
    if TextAt(font, text, width, x, y) {
      ClockStaysInBox(font, text, width, x, y);
    }
  }

  lemma PairInBox(width: int, x: int, y: int)
    ensures InClockBox(width, x / 2 * 2, y) == InClockBox(width, x, y) == InClockBox(width, x / 2 * 2 + 1, y)
  {
  }

  /** The picture fixes every byte of the buffer. */
  lemma ClockDetermines(font: Font, text: string, g: Geometry, before: seq<Byte>, a: seq<Byte>, b: seq<Byte>)
    requires Fits(before, g) && ClockDrawn(font, text, g, before, a) && ClockDrawn(font, text, g, before, b)
    ensures a == b
  {
    hide InClockBox, TextAt;
    PixelsAreTheBuffer(g, a, b);
  }
}
