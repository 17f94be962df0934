/**
 * The Windows pixel compositor: converting a straight-alpha ARGB pixel into
 * the premultiplied word a layered window expects, and stamping the splash
 * image, centred, into the window's W x H back-buffer.
 */
module WinPixels {
  import opened Options
  import CInt

  const WORD_LIMIT: int := 0x1_0000_0000

  /** A `uint32_t` pixel word, 0xAARRGGBB. */
  type Word = w: int | 0 <= w < WORD_LIMIT

  /** A `BYTE`. */
  type Byte = b: int | 0 <= b < 256

  // Shifting right by 8k bits and masking with 0xFF is division by 2^(8k) modulo 256.
  function AlphaOf(p: Word): Byte { p / 0x100_0000 }
  function RedOf(p: Word): Byte { p / 0x1_0000 % 0x100 }
  function GreenOf(p: Word): Byte { p / 0x100 % 0x100 }
  function BlueOf(p: Word): Byte { p % 0x100 }

  /** `b | g << 8 | r << 16 | a << 24` on byte-sized channels. */
  function Pack(a: Byte, r: Byte, g: Byte, b: Byte): (w: Word)
    ensures AlphaOf(w) == a && RedOf(w) == r && GreenOf(w) == g && BlueOf(w) == b
  {
    PackChannels(a, r, g, b);
    a * 0x100_0000 + r * 0x1_0000 + g * 0x100 + b
  }

  lemma PackChannels(a: Byte, r: Byte, g: Byte, b: Byte)
    ensures var w := a * 0x100_0000 + r * 0x1_0000 + g * 0x100 + b;
      && 0 <= w < WORD_LIMIT
      && w / 0x100_0000 == a && w / 0x1_0000 % 0x100 == r && w / 0x100 % 0x100 == g && w % 0x100 == b
  {
    var w := a * 0x100_0000 + r * 0x1_0000 + g * 0x100 + b;
    var x1 := a * 0x1_0000 + r * 0x100 + g;
    var x2 := a * 0x100 + r;
    CInt.DivModUnique(w, 0x100, x1, b);
    CInt.DivModUnique(x1, 0x100, x2, g);
    CInt.DivModUnique(x2, 0x100, a, r);
    CInt.DivModUnique(w, 0x1_0000, x2, g * 0x100 + b);
    CInt.DivModUnique(w, 0x100_0000, a, r * 0x1_0000 + g * 0x100 + b);
  }

  /** Packing a word's own four channels gives the word back. */
  lemma Unpack(p: Word)
    ensures Pack(AlphaOf(p), RedOf(p), GreenOf(p), BlueOf(p)) == p
  {
    var q1 := p / 0x100;
    var q2 := q1 / 0x100;
    var q3 := q2 / 0x100;
    assert p == q1 * 0x100 + p % 0x100;
    assert q1 == q2 * 0x100 + q1 % 0x100;
    assert q2 == q3 * 0x100 + q2 % 0x100;
    assert q2 == p / 0x1_0000;
    assert q3 == p / 0x100_0000;
  }

  /**
   * One colour channel scaled by alpha/255 and truncated. The source computes
   * `(uint32_t)(c * (a / 255.0f))` in single precision; this is its exact
   * rational counterpart (see README for where the two may differ).
   */
  function Scale(c: Byte, a: Byte): (r: Byte)
    ensures r <= c
    ensures a == 255 ==> r == c
    ensures a == 0 ==> r == 0
  {
    ScaleBounds(c, a);
    c * a / 255
  }

  lemma ScaleBounds(c: Byte, a: Byte)
    ensures 0 <= c * a / 255 <= c
  {
    CInt.MulLeq(a, 255, c);
    CInt.MulLeq(0, a, c);
    assert c * a == a * c;
  }

  /**
   * Straight-alpha ARGB to premultiplied BGRA. The word layout is unchanged
   * (0xAARRGGBB is B, G, R, A in little-endian memory); only the colour
   * channels are scaled, and alpha 0 gives transparent black.
   */
  function ConvertARGBtoPremultipliedBGRA(argb: Word): (r: Word)
    ensures AlphaOf(argb) == 0 ==> r == 0
    ensures AlphaOf(argb) != 0 ==> AlphaOf(r) == AlphaOf(argb)
    ensures AlphaOf(argb) == 255 ==> r == argb
    ensures RedOf(r) <= RedOf(argb) && GreenOf(r) <= GreenOf(argb) && BlueOf(r) <= BlueOf(argb)
  {
    var a := AlphaOf(argb);
    if a == 0 then 0
    else
      Unpack(argb);
      Pack(a, Scale(RedOf(argb), a), Scale(GreenOf(argb), a), Scale(BlueOf(argb), a))
  }

  /**
   * The globals the generator emits: window size, animation flag and the
   * optional row-major ARGB image with its size.
   */
  datatype Config = Config(
    width: int,
    height: int,
    withAnimation: bool,
    imagePixels: Option<seq<Word>>,
    imageWidth: int,
    imageHeight: int)
  {
    /** The generator emits exactly imageWidth * imageHeight pixels, without padding. */
    predicate ImageWellFormed() {
      imagePixels.Some? && imageWidth > 0 && imageHeight > 0 ==>
        |imagePixels.value| == imageWidth * imageHeight
    }
  }

  /**
   * `(outer - inner) / 2` with C division, raised to 0: the image is centred
   * when it fits and pinned to the left or top edge when it does not.
   */
  function Offset(outer: int, inner: int): (r: int)
    ensures r >= 0
    ensures inner <= outer ==> r == (outer - inner) / 2 && r + inner <= outer
    ensures inner >= outer ==> r == 0
  {
    var o := CInt.Div(outer - inner, 2);
    if o < 0 then 0 else o
  }

  function XOffset(c: Config): int { Offset(c.width, c.imageWidth) }
  function YOffset(c: Config): int { Offset(c.height, c.imageHeight) }

  /** The image column and row that land on back-buffer cell k. */
  function SourceX(c: Config, k: int): int
    requires c.width > 0
  {
    k % c.width - XOffset(c)
  }

  function SourceY(c: Config, k: int): int
    requires c.width > 0
  {
    k / c.width - YOffset(c)
  }

  /** Cell k lies under some pixel of the image. */
  predicate Covers(c: Config, k: int)
    requires c.width > 0
  {
    0 <= SourceX(c, k) < c.imageWidth && 0 <= SourceY(c, k) < c.imageHeight
  }

  /** Image pixel (sx, sy) comes before (col, row) in the source's row-by-row scan. */
  predicate Done(sx: int, sy: int, row: int, col: int) {
    sy < row || (sy == row && sx < col)
  }

  lemma IndexBound(sx: int, sy: int, w: int, h: int)
    requires 0 <= sx < w && 0 <= sy < h
    ensures 0 <= sy * w + sx < w * h
  {
    CInt.MulLeq(0, sy, w);
    CInt.MulLeq(sy + 1, h, w);
  }

  /** The image pixel drawn on a covered cell. */
  function SourcePixel(c: Config, k: int): Word
    requires c.width > 0 && c.ImageWellFormed() && c.imagePixels.Some?
    requires Covers(c, k)
  {
    IndexBound(SourceX(c, k), SourceY(c, k), c.imageWidth, c.imageHeight);
    c.imagePixels.value[SourceY(c, k) * c.imageWidth + SourceX(c, k)]
  }

  /**
   * Cell k of the back-buffer once the scan has handled every image pixel
   * before (col, row): it holds the converted image pixel above it if that
   * pixel is done and not fully transparent, and its old value otherwise.
   */
  function Cell(c: Config, before: seq<Word>, k: int, row: int, col: int): Word
    requires c.width > 0 && c.ImageWellFormed() && c.imagePixels.Some?
    requires 0 <= k < |before|
  {
    if Covers(c, k) && Done(SourceX(c, k), SourceY(c, k), row, col)
       && AlphaOf(SourcePixel(c, k)) != 0
    then ConvertARGBtoPremultipliedBGRA(SourcePixel(c, k))
    else before[k]
  }

  predicate BufferFits(c: Config, before: seq<Word>) {
    c.width >= 0 && c.height >= 0 && |before| == c.width * c.height
  }

  /**
   * The back-buffer after the image is stamped on `before`: every cell under
   * a non-transparent image pixel holds that pixel converted; every other
   * cell keeps its old value.
   */
  function Rendered(c: Config, before: seq<Word>): (r: seq<Word>)
    requires c.ImageWellFormed() && c.imagePixels.Some? && BufferFits(c, before)
    ensures |r| == |before|
  {
    if c.width == 0 then before
    else seq(|before|, k requires 0 <= k < |before| => Cell(c, before, k, c.imageHeight, 0))
  }

  /** Cell dy * W + dx has coordinates (dx, dy). */
  lemma CellCoords(w: int, dx: int, dy: int)
    requires w > 0 && 0 <= dx < w && 0 <= dy
    ensures (dy * w + dx) % w == dx && (dy * w + dx) / w == dy
  {
    var k := dy * w + dx;
    var q, r := k / w, k % w;
    assert (q - dy) * w == dx - r;
    if q > dy {
      CInt.MulLeq(1, q - dy, w);
    } else if q < dy {
      CInt.MulLeq(1, dy - q, w);
    }
  }

  /** Every cell of a W x H buffer lies on a row below H. */
  lemma RowInBuffer(w: int, h: int, k: int)
    requires w > 0 && 0 <= k < w * h
    ensures 0 <= k / w < h
  {
    if k / w >= h {
      CInt.MulLeq(h, k / w, w);
    }
  }

  /** A cell's coordinates determine the cell. */
  lemma CellFromCoords(w: int, k: int)
    requires w > 0 && k >= 0
    ensures k == (k / w) * w + k % w
  {
  }

  /** Scanning past image pixel (x, y) changes no cell that does not lie under that pixel. */
  lemma CellUnchanged(c: Config, before: seq<Word>, k: int, x: int, y: int)
    requires c.width > 0 && c.ImageWellFormed() && c.imagePixels.Some?
    requires 0 <= k < |before|
    requires !(Covers(c, k) && SourceX(c, k) == x && SourceY(c, k) == y)
    ensures Cell(c, before, k, y, x + 1) == Cell(c, before, k, y, x)
  {
    if Covers(c, k) {
      assert Done(SourceX(c, k), SourceY(c, k), y, x + 1) == Done(SourceX(c, k), SourceY(c, k), y, x);
    }
  }

  /** The scan skips image pixel (x, y), which lands outside the buffer: no cell changes. */
  lemma StepOutside(c: Config, before: seq<Word>, x: int, y: int)
    requires c.width > 0 && c.ImageWellFormed() && c.imagePixels.Some? && BufferFits(c, before)
    requires x + XOffset(c) >= c.width || y + YOffset(c) >= c.height
    ensures forall k :: 0 <= k < |before| ==> Cell(c, before, k, y, x + 1) == Cell(c, before, k, y, x)
  {
    forall k | 0 <= k < |before|
      ensures Cell(c, before, k, y, x + 1) == Cell(c, before, k, y, x)
    {
      RowInBuffer(c.width, c.height, k);
      assert SourceX(c, k) != x || SourceY(c, k) != y;
      CellUnchanged(c, before, k, x, y);
    }
  }

  /** The scan skips image pixel (x, y), which is fully transparent: no cell changes. */
  lemma StepTransparent(c: Config, before: seq<Word>, x: int, y: int)
    requires c.width > 0 && c.ImageWellFormed() && c.imagePixels.Some? && BufferFits(c, before)
    requires 0 <= x < c.imageWidth && 0 <= y < c.imageHeight
    requires 0 <= y * c.imageWidth + x < |c.imagePixels.value|
    requires AlphaOf(c.imagePixels.value[y * c.imageWidth + x]) == 0
    ensures forall k :: 0 <= k < |before| ==> Cell(c, before, k, y, x + 1) == Cell(c, before, k, y, x)
  {
    var src := c.imagePixels.value[y * c.imageWidth + x];
    forall k | 0 <= k < |before|
      ensures Cell(c, before, k, y, x + 1) == Cell(c, before, k, y, x)
    {
      if Covers(c, k) && SourceX(c, k) == x && SourceY(c, k) == y {
        assert SourcePixel(c, k) == src;
      } else {
        CellUnchanged(c, before, k, x, y);
      }
    }
  }

  /** The scan writes image pixel (x, y) into cell `dst`: that cell alone changes. */
  lemma StepWrites(c: Config, before: seq<Word>, x: int, y: int, dst: int)
    requires c.width > 0 && c.ImageWellFormed() && c.imagePixels.Some? && BufferFits(c, before)
    requires 0 <= x < c.imageWidth && 0 <= y < c.imageHeight
    requires x + XOffset(c) < c.width && y + YOffset(c) < c.height
    requires dst == (y + YOffset(c)) * c.width + (x + XOffset(c))
    ensures 0 <= dst < |before|
    ensures forall k :: 0 <= k < |before| && k != dst ==>
      Cell(c, before, k, y, x + 1) == Cell(c, before, k, y, x)
    ensures 0 <= y * c.imageWidth + x < |c.imagePixels.value|
    ensures var src := c.imagePixels.value[y * c.imageWidth + x];
      AlphaOf(src) != 0 ==> Cell(c, before, dst, y, x + 1) == ConvertARGBtoPremultipliedBGRA(src)
  {
    IndexBound(x, y, c.imageWidth, c.imageHeight);
    IndexBound(x + XOffset(c), y + YOffset(c), c.width, c.height);
    CellCoords(c.width, x + XOffset(c), y + YOffset(c));
    assert SourceX(c, dst) == x && SourceY(c, dst) == y;
    assert Covers(c, dst) && Done(x, y, y, x + 1);
    assert SourcePixel(c, dst) == c.imagePixels.value[y * c.imageWidth + x];
    forall k | 0 <= k < |before| && k != dst
      ensures Cell(c, before, k, y, x + 1) == Cell(c, before, k, y, x)
    {
      CellFromCoords(c.width, k);
      assert !(SourceX(c, k) == x && SourceY(c, k) == y);
      CellUnchanged(c, before, k, x, y);
    }
  }

  /** Finishing row y of the image is the same as starting row y + 1. */
  lemma RowDone(c: Config, before: seq<Word>, y: int)
    requires c.width > 0 && c.ImageWellFormed() && c.imagePixels.Some? && BufferFits(c, before)
    ensures forall k :: 0 <= k < |before| ==>
      Cell(c, before, k, y, CInt.Max(0, c.imageWidth)) == Cell(c, before, k, y + 1, 0)
  {
  }

  /** Image pixel (sx, sy) is drawn on back-buffer cell k, inside the buffer. */
  predicate LandsAt(c: Config, sx: int, sy: int, k: int) {
    && 0 <= sx < c.imageWidth && 0 <= sy < c.imageHeight
    && 0 <= sx + XOffset(c) < c.width && 0 <= sy + YOffset(c) < c.height
    && k == (sy + YOffset(c)) * c.width + (sx + XOffset(c))
  }

  /** A fully transparent image leaves the buffer exactly as it was. */
  lemma TransparentImageKeepsBuffer(c: Config, before: seq<Word>)
    requires c.ImageWellFormed() && c.imagePixels.Some? && BufferFits(c, before)
    requires forall i :: 0 <= i < |c.imagePixels.value| ==> AlphaOf(c.imagePixels.value[i]) == 0
    ensures Rendered(c, before) == before
  {
    if c.width > 0 {
      forall k | 0 <= k < |before| ensures Rendered(c, before)[k] == before[k] {
        if Covers(c, k) {
          IndexBound(SourceX(c, k), SourceY(c, k), c.imageWidth, c.imageHeight);
        }
      }
    }
  }

  /**
   * Each image pixel whose target lies in the buffer ends up there: converted
   * when it is not fully transparent (verbatim when it is opaque), and the old
   * cell value kept when it is fully transparent.
   */
  lemma PixelLands(c: Config, before: seq<Word>, sx: int, sy: int)
    requires c.ImageWellFormed() && c.imagePixels.Some? && BufferFits(c, before)
    requires 0 <= sx < c.imageWidth && 0 <= sy < c.imageHeight
    requires sx + XOffset(c) < c.width && sy + YOffset(c) < c.height
    ensures LandsAt(c, sx, sy, (sy + YOffset(c)) * c.width + (sx + XOffset(c)))
    ensures 0 <= sy * c.imageWidth + sx < |c.imagePixels.value|
    ensures var k := (sy + YOffset(c)) * c.width + (sx + XOffset(c));
      var src := c.imagePixels.value[sy * c.imageWidth + sx];
      && 0 <= k < |before|
      && (AlphaOf(src) == 0 ==> Rendered(c, before)[k] == before[k])
      && (AlphaOf(src) != 0 ==> Rendered(c, before)[k] == ConvertARGBtoPremultipliedBGRA(src))
      && (AlphaOf(src) == 255 ==> Rendered(c, before)[k] == src)
  {
    var dx, dy := sx + XOffset(c), sy + YOffset(c);
    var k := dy * c.width + dx;
    IndexBound(dx, dy, c.width, c.height);
    IndexBound(sx, sy, c.imageWidth, c.imageHeight);
    CellCoords(c.width, dx, dy);
    assert SourceX(c, k) == sx && SourceY(c, k) == sy;
    assert Covers(c, k);
    var src := c.imagePixels.value[sy * c.imageWidth + sx];
    assert SourcePixel(c, k) == src;
    assert Done(sx, sy, c.imageHeight, 0);
    assert Rendered(c, before)[k] == Cell(c, before, k, c.imageHeight, 0);
    if AlphaOf(src) != 0 {
      assert Cell(c, before, k, c.imageHeight, 0) == ConvertARGBtoPremultipliedBGRA(src);
    }
  }

  /**
   * Only cells under the image can change, and each such cell is the target
   * `dst_y * W + dst_x` of one image pixel with both coordinates inside the buffer.
   */
  lemma OnlyImageCellsChange(c: Config, before: seq<Word>, k: int)
    requires c.ImageWellFormed() && c.imagePixels.Some? && BufferFits(c, before)
    requires 0 <= k < |before|
    ensures Rendered(c, before)[k] != before[k] ==>
      exists sx, sy :: LandsAt(c, sx, sy, k)
  {
    if Rendered(c, before)[k] != before[k] {
      assert c.width > 0;
      RowInBuffer(c.width, c.height, k);
      CellFromCoords(c.width, k);
      assert LandsAt(c, SourceX(c, k), SourceY(c, k), k);
    }
  }

  /** One instance of the centring Offset states: a 50 x 50 image in a 200 x 100 window sits at (75, 25). */
  lemma CenteringExample(c: Config)
    requires c.width == 200 && c.height == 100 && c.imageWidth == 50 && c.imageHeight == 50
    ensures XOffset(c) == 75 && YOffset(c) == 25
  {
  }

  /**
   * RenderSplashContent: stamps the configured image into `pixels` in place.
   * Nothing happens without a buffer or without an image; otherwise the
   * buffer becomes Rendered(c, old contents).
   */
  method RenderSplashContent(pixels: array?<Word>, c: Config)
    requires c.ImageWellFormed()
    requires pixels != null ==> BufferFits(c, pixels[..])
    modifies pixels
    ensures pixels != null && c.imagePixels.None? ==> pixels[..] == old(pixels[..])
    ensures pixels != null && c.imagePixels.Some? ==> pixels[..] == Rendered(c, old(pixels[..]))
  {
    if pixels == null || c.imagePixels.None? {
      return;
    }
    if c.width == 0 {
      // A zero-width buffer has no cells: every scanned pixel is skipped.
      return;
    }
    var img := c.imagePixels.value;
    var xOffset := CInt.Div(c.width - c.imageWidth, 2);
    var yOffset := CInt.Div(c.height - c.imageHeight, 2);
    if xOffset < 0 {
      xOffset := 0;
    }
    if yOffset < 0 {
      yOffset := 0;
    }
    ghost var before := pixels[..];
    var y := 0;
    while y < c.imageHeight
      invariant 0 <= y <= CInt.Max(0, c.imageHeight)
      invariant forall k :: 0 <= k < pixels.Length ==> pixels[k] == Cell(c, before, k, y, 0)
    {
      var x := 0;
      while x < c.imageWidth
        invariant 0 <= x <= CInt.Max(0, c.imageWidth)
        invariant forall k :: 0 <= k < pixels.Length ==> pixels[k] == Cell(c, before, k, y, x)
      {
        ScanPixel(pixels, c, before, img, x, y, xOffset, yOffset);
        x := x + 1;
      }
      RowDone(c, before, y);
      y := y + 1;
    }
    assert forall k :: 0 <= k < pixels.Length ==> pixels[k] == Rendered(c, before)[k];
  }

  /**
   * One pass of RenderSplashContent's inner loop: image pixel (x, y) is
   * skipped when it lands outside the buffer or is fully transparent, and
   * written, converted, to its target cell otherwise.
   */
  method ScanPixel(pixels: array<Word>, c: Config, ghost before: seq<Word>, img: seq<Word>,
                   x: int, y: int, xOffset: int, yOffset: int)
    requires c.width > 0 && c.ImageWellFormed() && c.imagePixels == Some(img) && BufferFits(c, before)
    requires pixels.Length == |before|
    requires 0 <= x < c.imageWidth && 0 <= y < c.imageHeight
    requires xOffset == XOffset(c) && yOffset == YOffset(c)
    requires forall k :: 0 <= k < pixels.Length ==> pixels[k] == Cell(c, before, k, y, x)
    modifies pixels
    ensures forall k :: 0 <= k < pixels.Length ==> pixels[k] == Cell(c, before, k, y, x + 1)
  {
    var dstX := x + xOffset;
    var dstY := y + yOffset;
    if dstX >= c.width || dstY >= c.height {
      StepOutside(c, before, x, y);
      return;
    }
    IndexBound(x, y, c.imageWidth, c.imageHeight);
    var srcIndex := y * c.imageWidth + x;
    var dstIndex := dstY * c.width + dstX;
    var srcPixel := img[srcIndex];
    if AlphaOf(srcPixel) == 0 {
      StepTransparent(c, before, x, y);
      return;
    }
    StepWrites(c, before, x, y, dstIndex);
    pixels[dstIndex] := ConvertARGBtoPremultipliedBGRA(srcPixel);
  }
}
