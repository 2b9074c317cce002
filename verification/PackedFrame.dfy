/** A packed YUV 4:2:2 frame held in a flat byte buffer, and the two ways the overlays write to it:
    painting single pixels and filling a box.

    Every two pixels of a row share four bytes: two lumas and one pair of chromas. A row is `stride` bytes
    long, of which the first 2 * width hold pixels. The byte at column c < 2 * width of row y is the luma of
    pixel (c / 2, y) or a chroma of the pair that starts at pixel (c / 4 * 2, y), depending on the format. */
module PackedFrame {
  import opened Arithmetic
  import opened Bytes

  datatype Format = Yuyv | Uyvy

  datatype Geometry = Geometry(width: int, height: int, stride: int, fmt: Format) {
    /** What a caller of the overlays supplies; an odd width would let the box loop leave the row. */
    predicate Valid() {
      0 < width && 0 < height && width % 2 == 0 && 2 * width <= stride
    }

    /** Column of a pixel's luma byte. */
    function LumaColumn(x: int): int {
      x / 2 * 4 + (if fmt == Yuyv then (if x % 2 == 1 then 2 else 0) else (if x % 2 == 1 then 3 else 1))
    }

    /** Column of the first (j == 0) or second (j == 1) chroma byte of the pair that holds pixel x. */
    function ChromaColumn(x: int, j: int): int {
      x / 2 * 4 + 2 * j + (if fmt == Yuyv then 1 else 0)
    }

    predicate IsLumaColumn(c: int) {
      c % 2 == (if fmt == Yuyv then 0 else 1)
    }
  }

  type Pixel = (int, int)

  // ---- addressing ----

  ghost predicate Fits(s: seq<Byte>, g: Geometry) {
    g.Valid() && g.height * g.stride <= |s|
  }

  lemma OffsetInRange(g: Geometry, y: int, c: int)
    requires g.Valid() && 0 <= y < g.height && 0 <= c < g.stride
    ensures 0 <= y * g.stride + c < g.height * g.stride
  {
    MulMonotone(0, y, g.stride);
    MulMonotone(y + 1, g.height, g.stride);
  }

  /** Two addresses of a frame agree only when row and column do. */
  lemma OffsetInjective(g: Geometry, y: int, c: int, y': int, c': int)
    requires g.Valid() && 0 <= c < g.stride && 0 <= c' < g.stride
    requires y * g.stride + c == y' * g.stride + c'
    ensures y == y' && c == c'
  {
    if y < y' {
      MulMonotone(y + 1, y', g.stride);
    } else if y' < y {
      MulMonotone(y' + 1, y, g.stride);
    }
  }

  ghost function ByteAt(s: seq<Byte>, g: Geometry, y: int, c: int): Byte
    requires Fits(s, g) && 0 <= y < g.height && 0 <= c < g.stride
  {
    OffsetInRange(g, y, c);
    s[y * g.stride + c]
  }

  /** Luma of pixel (x, y). */
  ghost function Luma(s: seq<Byte>, g: Geometry, x: int, y: int): Byte
    requires Fits(s, g) && 0 <= x < g.width && 0 <= y < g.height
  {
    ByteAt(s, g, y, g.LumaColumn(x))
  }

  /** Chroma j (0: U, 1: V) that pixel (x, y) shares with its neighbour. */
  ghost function Chroma(s: seq<Byte>, g: Geometry, x: int, y: int, j: int): Byte
    requires Fits(s, g) && 0 <= x < g.width && 0 <= y < g.height && 0 <= j < 2
  {
    ByteAt(s, g, y, g.ChromaColumn(x, j))
  }

  /** `after` is `before` with every byte b at (y, c) of the frame replaced by f(y, c, b), and nothing else. */
  ghost predicate Mapped(g: Geometry, before: seq<Byte>, after: seq<Byte>, f: (int, int, Byte) -> Byte)
    requires Fits(before, g)
  {
    && |after| == |before|
    && (forall y, c | 0 <= y < g.height && 0 <= c < g.stride ::
          ByteAt(after, g, y, c) == f(y, c, ByteAt(before, g, y, c)))
    && (forall i | g.height * g.stride <= i < |before| :: after[i] == before[i])
  }

  /** A pointwise description leaves no byte of the buffer open. */
  lemma MappedDetermines(g: Geometry, before: seq<Byte>, a: seq<Byte>, b: seq<Byte>, f: (int, int, Byte) -> Byte)
    requires Fits(before, g) && Mapped(g, before, a, f) && Mapped(g, before, b, f)
    ensures a == b
  {
    forall i | 0 <= i < |a| ensures a[i] == b[i] {
      if i < g.height * g.stride {
        var y, c := i / g.stride, i % g.stride;
        assert i == y * g.stride + c;
        assert 0 <= y < g.height by {
          if y >= g.height {
            MulMonotone(g.height, y, g.stride);
            assert false;
          }
        }
        assert ByteAt(a, g, y, c) == ByteAt(b, g, y, c);
      }
    }
  }

  // ---- painting pixels ----

  /** Whether pixel column c / 2 belongs to a pair of row y that `cells` touches. */
  ghost predicate TouchesPair(cells: iset<Pixel>, y: int, c: int) {
    (c / 4 * 2, y) in cells || (c / 4 * 2 + 1, y) in cells
  }

  /** One byte after the pixels `lit` were painted in luma `bright` over the pixels `dim` in luma `dark`,
      with the chroma of every touched pair made neutral. */
  ghost function PaintByte(g: Geometry, lit: iset<Pixel>, bright: Byte, dim: iset<Pixel>, dark: Byte,
                           y: int, c: int, b: Byte): Byte
  {
    if c >= 2 * g.width then b
    else if g.IsLumaColumn(c) then
      if (c / 2, y) in lit then bright else if (c / 2, y) in dim then dark else b
    else if TouchesPair(lit, y, c) || TouchesPair(dim, y, c) then 128
    else b
  }

  ghost predicate Painted(g: Geometry, before: seq<Byte>, after: seq<Byte>, lit: iset<Pixel>, bright: Byte,
                          dim: iset<Pixel>, dark: Byte)
    requires Fits(before, g)
  {
    Mapped(g, before, after, (y, c, b) => PaintByte(g, lit, bright, dim, dark, y, c, b))
  }

  /** Painting in one luma. */
  ghost predicate Lit(g: Geometry, before: seq<Byte>, after: seq<Byte>, cells: iset<Pixel>, luma: Byte)
    requires Fits(before, g)
  {
    Painted(g, before, after, cells, luma, iset{}, 0)
  }

  lemma LitNothing(g: Geometry, s: seq<Byte>, luma: Byte)
    requires Fits(s, g)
    ensures Lit(g, s, s, iset{}, luma)
  {
  }

  /** Painting is additive: two paintings in the same luma are one painting of the union. */
  lemma LitTwice(g: Geometry, a: seq<Byte>, b: seq<Byte>, c: seq<Byte>, s: iset<Pixel>, t: iset<Pixel>, luma: Byte)
    requires Fits(a, g) && Lit(g, a, b, s, luma) && Lit(g, b, c, t, luma)
    ensures Lit(g, a, c, s + t, luma)
  {
  }

  /** Pixels outside the frame do not matter. */
  lemma LitOffFrame(g: Geometry, a: seq<Byte>, b: seq<Byte>, s: iset<Pixel>, p: Pixel, luma: Byte)
    requires Fits(a, g) && Lit(g, a, b, s, luma)
    requires !(0 <= p.0 < g.width && 0 <= p.1 < g.height)
    ensures Lit(g, a, b, s + iset{p}, luma)
  {
  }

  // ---- blending ----

  /** One channel byte moved toward dst by alpha / 255, rounded. */
  function Blend8(src: Byte, dst: Byte, alpha: Byte): (r: Byte)
    ensures src <= dst ==> src <= r <= dst
    ensures dst <= src ==> dst <= r <= src
  {
    if alpha == 255 then dst
    else
      BlendBetween(src, dst, alpha);
      ((255 - alpha) * src + alpha * dst + 127) / 255
  }

  /** The blended value is the nearest integer to the exact one, and full opacity gives the target. */
  lemma BlendIsNearest(src: Byte, dst: Byte, alpha: Byte)
    ensures var n := (255 - alpha) * src + alpha * dst; n - 127 <= 255 * Blend8(src, dst, alpha) <= n + 127
    ensures Blend8(src, dst, 255) == dst && Blend8(src, dst, 0) == src
  {
    assert (255 * src + 127) / 255 == src;
  }

  lemma BlendBetween(src: Byte, dst: Byte, alpha: Byte)
    ensures var n := (255 - alpha) * src + alpha * dst;
            if src <= dst then 255 * src <= n <= 255 * dst else 255 * dst <= n <= 255 * src
  {
    if src <= dst {
      MulMonotone(src, dst, alpha);
      MulMonotone(src, dst, 255 - alpha);
    } else {
      MulMonotone(dst, src, alpha);
      MulMonotone(dst, src, 255 - alpha);
    }
  }

  /** One byte after the luma of pixel (x, y) was set or blended. */
  ghost function PutByte(g: Geometry, x: int, y: int, luma: Byte, alpha: Byte, neutralUv: bool,
                         y': int, c: int, b: Byte): Byte
  {
    if y' == y && c == g.LumaColumn(x) then Blend8(b, luma, alpha)
    else if neutralUv && y' == y && (c == g.ChromaColumn(x, 0) || c == g.ChromaColumn(x, 1)) then 128
    else b
  }

  /** The three columns a pixel write uses, and the addresses they stand for. */
  lemma PutAddress(g: Geometry, x: int, y: int, y': int, c: int, k: int)
    requires g.Valid() && 0 <= x < g.width && 0 <= y < g.height && 0 <= y' < g.height && 0 <= c < g.stride
    requires k == g.LumaColumn(x) || k == g.ChromaColumn(x, 0) || k == g.ChromaColumn(x, 1)
    ensures 0 <= k < g.stride
    ensures y' * g.stride + c == y * g.stride + k <==> y' == y && c == k
  {
    if y' * g.stride + c == y * g.stride + k {
      OffsetInjective(g, y', c, y, k);
    }
  }

  lemma PutInRange(g: Geometry, x: int, y: int)
    requires g.Valid() && 0 <= x < g.width && 0 <= y < g.height
    ensures var row, n := y * g.stride, g.height * g.stride;
            && 0 <= row + g.LumaColumn(x) < n
            && 0 <= row + g.ChromaColumn(x, 0) < row + g.ChromaColumn(x, 1) < n
            && g.LumaColumn(x) != g.ChromaColumn(x, 0) && g.LumaColumn(x) != g.ChromaColumn(x, 1)
  {
    OffsetInRange(g, y, g.LumaColumn(x));
    OffsetInRange(g, y, g.ChromaColumn(x, 0));
    OffsetInRange(g, y, g.ChromaColumn(x, 1));
  }

  ghost predicate PutOnto(g: Geometry, x: int, y: int, luma: Byte, alpha: Byte, neutralUv: bool,
                          before: seq<Byte>, after: seq<Byte>)
    requires Fits(before, g)
  {
    Mapped(g, before, after, (y', c, b) => PutByte(g, x, y, luma, alpha, neutralUv, y', c, b))
  }

  lemma PutUpdates(g: Geometry, x: int, y: int, luma: Byte, alpha: Byte, neutralUv: bool,
                   before: seq<Byte>, after: seq<Byte>, l: int, u: int, v: int)
    requires Fits(before, g) && 0 <= x < g.width && 0 <= y < g.height
    requires l == y * g.stride + g.LumaColumn(x)
    requires u == y * g.stride + g.ChromaColumn(x, 0) && v == y * g.stride + g.ChromaColumn(x, 1)
    requires 0 <= l < |before| && 0 <= u < |before| && 0 <= v < |before| && |after| == |before|
    requires forall i | 0 <= i < |before| ::
               after[i] == if i == l then Blend8(before[i], luma, alpha)
                           else if neutralUv && (i == u || i == v) then 128 else before[i]
    ensures PutOnto(g, x, y, luma, alpha, neutralUv, before, after)
  {
    OffsetInRange(g, y, g.LumaColumn(x));
    OffsetInRange(g, y, g.ChromaColumn(x, 0));
    OffsetInRange(g, y, g.ChromaColumn(x, 1));
    forall y', c | 0 <= y' < g.height && 0 <= c < g.stride
      ensures ByteAt(after, g, y', c) ==
              PutByte(g, x, y, luma, alpha, neutralUv, y', c, ByteAt(before, g, y', c))
    {
      OffsetInRange(g, y', c);
      PutAddress(g, x, y, y', c, g.LumaColumn(x));
      PutAddress(g, x, y, y', c, g.ChromaColumn(x, 0));
      PutAddress(g, x, y, y', c, g.ChromaColumn(x, 1));
    }
  }

  /** An opaque pixel write with neutral chroma is the painting of one pixel. */
  lemma PutIsLit(g: Geometry, x: int, y: int, luma: Byte, before: seq<Byte>, after: seq<Byte>)
    requires Fits(before, g) && 0 <= x < g.width && 0 <= y < g.height
    requires PutOnto(g, x, y, luma, 255, true, before, after)
    ensures Lit(g, before, after, iset{(x, y)}, luma)
  {
    forall y', c, b: Byte | 0 <= y' < g.height && 0 <= c < g.stride
      ensures PutByte(g, x, y, luma, 255, true, y', c, b) == PaintByte(g, iset{(x, y)}, luma, iset{}, 0, y', c, b)
    {
    }
  }

  /** Sets or blends the luma of one pixel and, on request, neutralises the chroma of its pair. */
  method PutOrBlendY(img: array<Byte>, g: Geometry, x: int, y: int, luma: Byte, alpha: Byte, neutralUv: bool)
    requires Fits(img[..], g) && 0 <= x < g.width && 0 <= y < g.height
    modifies img
    ensures Fits(img[..], g)
    ensures PutOnto(g, x, y, luma, alpha, neutralUv, old(img[..]), img[..])
  {
    hide PutOnto, Blend8;
    ghost var before := img[..];
    PutInRange(g, x, y);
    var row := y * g.stride;
    var pairOff := x / 2 * 4;
    var yoff := if g.fmt == Yuyv then pairOff + (if x % 2 == 1 then 2 else 0)
                else pairOff + (if x % 2 == 1 then 3 else 1);
    var uoff := if g.fmt == Yuyv then pairOff + 1 else pairOff;
    ghost var l, u := row + g.LumaColumn(x), row + g.ChromaColumn(x, 0);
    assert l == row + yoff && u == row + uoff && u + 2 == row + g.ChromaColumn(x, 1);
    assert 0 <= l < |before| && 0 <= u < |before| - 2 && l != u && l != u + 2;
    img[row + yoff] := Blend8(img[row + yoff], luma, alpha);
    assert img[..] == before[l := Blend8(before[l], luma, alpha)];
    if neutralUv {
      img[row + uoff] := 128;
      img[row + uoff + 2] := 128;
      assert img[..] == before[l := Blend8(before[l], luma, alpha)][u := 128][u + 2 := 128];
    }
    PutUpdates(g, x, y, luma, alpha, neutralUv, before, img[..], l, u, u + 2);
  }
}
