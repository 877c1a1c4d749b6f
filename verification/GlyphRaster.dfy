/** The bitmap-font rasteriser of zhongshu-orb/src/overlay_windows.rs:403-474: rectangles, glyphs and
    text painted into a flat pixel buffer with clipping. */
module GlyphRaster {
  import opened Arithmetic

  type u32 = x: int | 0 <= x < 0x1_0000_0000

  /** Division of distances; a size of 0 has no cells. */
  function Quot(d: nat, size: nat): nat {
    if size == 0 then 0
    else
      assert d / size >= 0 by {
        assert d == d / size * size + d % size;
        MulBig(d / size, size);
      }
      d / size
  }

  type Shape = (nat, nat) -> bool

  /** The buffer after every pixel of a shape that lies inside the image got `color`: pixel `(px, py)`
      is element `py * width + px`, and elements past the image are left alone. */
  ghost function Painted(pixels: seq<u32>, width: nat, height: nat, shape: Shape, color: u32): (r: seq<u32>)
    ensures |r| == |pixels|
  {
    seq(|pixels|, k requires 0 <= k < |pixels| => if Hit(k, width, height, shape) then color else pixels[k])
  }

  ghost predicate Hit(k: nat, width: nat, height: nat, shape: Shape) {
    width > 0 && k / width < height && shape(k % width, k / width)
  }

  // -- The shapes -----------------------------------------------------

  predicate InRect(x: nat, y: nat, w: nat, h: nat, px: nat, py: nat) {
    x <= px < x + w && y <= py < y + h
  }

  function Rect(x: nat, y: nat, w: nat, h: nat): Shape { (px: nat, py: nat) => InRect(x, y, w, h, px, py) }

  /** The five-column, seven-row bitmap of a character; unknown characters get the question mark. */
  function GlyphRows(ch: char): (rows: seq<nat>)
    ensures |rows| == 7
  {
    match ch
    case 'A' => [0x0E, 0x11, 0x11, 0x1F, 0x11, 0x11, 0x11]
    case 'B' => [0x1E, 0x11, 0x11, 0x1E, 0x11, 0x11, 0x1E]
    case 'C' => [0x0F, 0x10, 0x10, 0x10, 0x10, 0x10, 0x0F]
    case 'D' => [0x1E, 0x11, 0x11, 0x11, 0x11, 0x11, 0x1E]
    case 'E' => [0x1F, 0x10, 0x10, 0x1E, 0x10, 0x10, 0x1F]
    case 'F' => [0x1F, 0x10, 0x10, 0x1E, 0x10, 0x10, 0x10]
    case 'G' => [0x0F, 0x10, 0x10, 0x13, 0x11, 0x11, 0x0F]
    case 'H' => [0x11, 0x11, 0x11, 0x1F, 0x11, 0x11, 0x11]
    case 'I' => [0x1F, 0x04, 0x04, 0x04, 0x04, 0x04, 0x1F]
    case 'J' => [0x01, 0x01, 0x01, 0x01, 0x11, 0x11, 0x0E]
    case 'K' => [0x11, 0x12, 0x14, 0x18, 0x14, 0x12, 0x11]
    case 'L' => [0x10, 0x10, 0x10, 0x10, 0x10, 0x10, 0x1F]
    case 'M' => [0x11, 0x1B, 0x15, 0x15, 0x11, 0x11, 0x11]
    case 'N' => [0x11, 0x19, 0x15, 0x13, 0x11, 0x11, 0x11]
    case 'O' => [0x0E, 0x11, 0x11, 0x11, 0x11, 0x11, 0x0E]
    case 'P' => [0x1E, 0x11, 0x11, 0x1E, 0x10, 0x10, 0x10]
    case 'Q' => [0x0E, 0x11, 0x11, 0x11, 0x15, 0x12, 0x0D]
    case 'R' => [0x1E, 0x11, 0x11, 0x1E, 0x14, 0x12, 0x11]
    case 'S' => [0x0F, 0x10, 0x10, 0x0E, 0x01, 0x01, 0x1E]
    case 'T' => [0x1F, 0x04, 0x04, 0x04, 0x04, 0x04, 0x04]
    case 'U' => [0x11, 0x11, 0x11, 0x11, 0x11, 0x11, 0x0E]
    case 'V' => [0x11, 0x11, 0x11, 0x11, 0x0A, 0x0A, 0x04]
    case 'W' => [0x11, 0x11, 0x11, 0x15, 0x15, 0x1B, 0x11]
    case 'X' => [0x11, 0x11, 0x0A, 0x04, 0x0A, 0x11, 0x11]
    case 'Y' => [0x11, 0x11, 0x0A, 0x04, 0x04, 0x04, 0x04]
    case 'Z' => [0x1F, 0x01, 0x02, 0x04, 0x08, 0x10, 0x1F]
    case '0' => [0x0E, 0x11, 0x13, 0x15, 0x19, 0x11, 0x0E]
    case '1' => [0x04, 0x0C, 0x04, 0x04, 0x04, 0x04, 0x0E]
    case '2' => [0x0E, 0x11, 0x01, 0x02, 0x04, 0x08, 0x1F]
    case '3' => [0x1E, 0x01, 0x01, 0x0E, 0x01, 0x01, 0x1E]
    case '4' => [0x02, 0x06, 0x0A, 0x12, 0x1F, 0x02, 0x02]
    case '5' => [0x1F, 0x10, 0x10, 0x1E, 0x01, 0x01, 0x1E]
    case '6' => [0x0E, 0x10, 0x10, 0x1E, 0x11, 0x11, 0x0E]
    case '7' => [0x1F, 0x01, 0x02, 0x04, 0x08, 0x08, 0x08]
    case '8' => [0x0E, 0x11, 0x11, 0x0E, 0x11, 0x11, 0x0E]
    case '9' => [0x0E, 0x11, 0x11, 0x0F, 0x01, 0x01, 0x0E]
    case ':' => [0x00, 0x04, 0x04, 0x00, 0x04, 0x04, 0x00]
    case '-' => [0x00, 0x00, 0x00, 0x1F, 0x00, 0x00, 0x00]
    case '_' => [0x00, 0x00, 0x00, 0x00, 0x00, 0x00, 0x1F]
    case '.' => [0x00, 0x00, 0x00, 0x00, 0x00, 0x0C, 0x0C]
    case '/' => [0x01, 0x01, 0x02, 0x04, 0x08, 0x10, 0x10]
    case '(' => [0x02, 0x04, 0x08, 0x08, 0x08, 0x04, 0x02]
    case ')' => [0x08, 0x04, 0x02, 0x02, 0x02, 0x04, 0x08]
    case '[' => [0x0E, 0x08, 0x08, 0x08, 0x08, 0x08, 0x0E]
    case ']' => [0x0E, 0x02, 0x02, 0x02, 0x02, 0x02, 0x0E]
    case '?' => [0x0E, 0x11, 0x01, 0x02, 0x04, 0x00, 0x04]
    case ' ' => [0, 0, 0, 0, 0, 0, 0]
    case _ => [0x0E, 0x11, 0x01, 0x02, 0x04, 0x00, 0x04]
  }

  /** Bit `4 - col` of a row, column 0 being the leftmost. */
  predicate Bit(bits: nat, col: nat) {
    match col
    case 0 => bits / 16 % 2 == 1
    case 1 => bits / 8 % 2 == 1
    case 2 => bits / 4 % 2 == 1
    case 3 => bits / 2 % 2 == 1
    case 4 => bits % 2 == 1
    case _ => false
  }

  /** The number shifted right. */
  function Shifted(bits: nat, n: nat): nat { if n == 0 then bits else Shifted(bits / 2, n - 1) }

  /** Column 0 is the fifth bit from the right, and column 4 the last. */
  lemma BitMeans(bits: nat, col: nat)
    ensures Bit(bits, col) <==> col < 5 && Shifted(bits, 4 - col) % 2 == 1
  {
    assert Shifted(bits / 2 / 2 / 2, 1) == bits / 2 / 2 / 2 / 2;
    assert Shifted(bits / 2 / 2, 2) == Shifted(bits / 2 / 2 / 2, 1) && Shifted(bits / 2 / 2, 1) == bits / 2 / 2 / 2;
    assert Shifted(bits / 2, 3) == Shifted(bits / 2 / 2, 2) && Shifted(bits / 2, 2) == Shifted(bits / 2 / 2, 1);
    assert Shifted(bits, 4) == Shifted(bits / 2, 3) && Shifted(bits, 3) == Shifted(bits / 2, 2);
    assert Shifted(bits, 2) == Shifted(bits / 2, 1) == bits / 2 / 2 && Shifted(bits, 1) == bits / 2;
  }

  predicate Cell(ch: char, col: nat, row: nat) { row < 7 && Bit(GlyphRows(ch)[row], col) }

  /** The pixel lies in a set cell of the glyph drawn at `(x, y)`, each cell `scale` pixels wide and high. */
  predicate InGlyph(x: nat, y: nat, ch: char, scale: nat, px: nat, py: nat) {
    scale > 0 && x <= px && y <= py && Cell(ch, Quot(px - x, scale), Quot(py - y, scale))
  }

  function Glyph(x: nat, y: nat, ch: char, scale: nat): Shape { (px: nat, py: nat) => InGlyph(x, y, ch, scale, px, py) }

  // -- Painting -------------------------------------------------------

  lemma SamePaint(pixels: seq<u32>, width: nat, height: nat, f: Shape, g: Shape, color: u32)
    requires forall px: nat, py: nat | px < width && py < height :: f(px, py) == g(px, py)
    ensures Painted(pixels, width, height, f, color) == Painted(pixels, width, height, g, color)
  {
    forall k: nat | k < |pixels| ensures Hit(k, width, height, f) == Hit(k, width, height, g) {
      if width > 0 && k / width < height { assert f(k % width, k / width) == g(k % width, k / width); }
    }
  }

  lemma PaintTwice(pixels: seq<u32>, width: nat, height: nat, f: Shape, g: Shape, both: Shape, color: u32)
    requires forall px: nat, py: nat | px < width && py < height :: both(px, py) == (f(px, py) || g(px, py))
    ensures
      Painted(Painted(pixels, width, height, f, color), width, height, g, color)
      == Painted(pixels, width, height, both, color)
  {
    var once := Painted(pixels, width, height, f, color);
    forall k: nat | k < |pixels|
      ensures Painted(once, width, height, g, color)[k] == Painted(pixels, width, height, both, color)[k]
    {
      if width > 0 && k / width < height {
        assert both(k % width, k / width) == (f(k % width, k / width) || g(k % width, k / width));
      }
    }
  }

  lemma PaintNothing(pixels: seq<u32>, width: nat, height: nat, f: Shape, color: u32)
    requires forall px: nat, py: nat | px < width && py < height :: !f(px, py)
    ensures Painted(pixels, width, height, f, color) == pixels
  {
    forall k: nat | k < |pixels| ensures !Hit(k, width, height, f) {
      if width > 0 && k / width < height { assert !f(k % width, k / width); }
    }
  }

  lemma DivMod(width: nat, q: nat, r: nat)
    requires r < width
    ensures (q * width + r) / width == q && (q * width + r) % width == r
  {
    var k := q * width + r;
    var d, m := k / width, k % width;
    assert k == d * width + m;
    assert (q - d) * width == m - r by { assert (q - d) * width == q * width - d * width; }
    MulBig(q - d, width);
  }

  lemma PixelIndex(width: nat, height: nat, px: nat, py: nat)
    requires px < width && py < height
    ensures py * width + px < width * height
    ensures (py * width + px) / width == py && (py * width + px) % width == px
  {
    DivMod(width, py, px);
    MulMonotone(py + 1, height, width);
    assert (py + 1) * width == py * width + width;
  }

  lemma PastTheImage(width: nat, height: nat, k: nat)
    requires width > 0 && width * height <= k
    ensures height <= k / width
  {
    var d := k / width;
    assert k < d * width + width;
    assert (height - d) * width == height * width - d * width;
    MulBig(height - d, width);
  }

  /** What painting means for the pixel at `(px, py)`. */
  lemma PaintedPixel(pixels: seq<u32>, width: nat, height: nat, shape: Shape, color: u32, px: nat, py: nat)
    requires width * height <= |pixels| && px < width && py < height
    ensures py * width + px < |pixels|
    ensures
      Painted(pixels, width, height, shape, color)[py * width + px]
      == if shape(px, py) then color else pixels[py * width + px]
  {
    PixelIndex(width, height, px, py);
  }

  /** Elements that belong to no pixel of the image keep their value. */
  lemma PaintedOutside(pixels: seq<u32>, width: nat, height: nat, shape: Shape, color: u32, k: nat)
    requires width * height <= k < |pixels|
    ensures Painted(pixels, width, height, shape, color)[k] == pixels[k]
  {
    if width > 0 { PastTheImage(width, height, k); }
  }

  function Dot(col: nat, row: nat): Shape { (px: nat, py: nat) => px == col && py == row }

  lemma SetPixel(pixels: seq<u32>, width: nat, height: nat, col: nat, row: nat, color: u32)
    requires width * height <= |pixels| && col < width && row < height
    ensures row * width + col < |pixels|
    ensures pixels[row * width + col := color] == Painted(pixels, width, height, Dot(col, row), color)
  {
    PixelIndex(width, height, col, row);
    var dot := Dot(col, row);
    forall k: nat | k < |pixels|
      ensures pixels[row * width + col := color][k] == Painted(pixels, width, height, dot, color)[k]
    {
      if k / width == row && k % width == col { assert k == row * width + col; }
    }
  }

  function Min(a: nat, b: nat): nat { if a < b then a else b }

  /** The part of a rectangle painted when the loops have come to `(col, row)`. */
  function RectUpTo(x: nat, y: nat, w: nat, h: nat, col: nat, row: nat): Shape {
    (px: nat, py: nat) => InRect(x, y, w, h, px, py) && (py < row || (py == row && px < col))
  }

  // The stations of the two loops.

  lemma RowsStart(pixels: seq<u32>, width: nat, height: nat, x: nat, y: nat, w: nat, h: nat, color: u32)
    ensures Painted(pixels, width, height, RectUpTo(x, y, w, h, 0, Min(y, height)), color) == pixels
  {
    PaintNothing(pixels, width, height, RectUpTo(x, y, w, h, 0, Min(y, height)), color);
  }

  lemma ColumnsStart(pixels: seq<u32>, width: nat, height: nat, x: nat, y: nat, w: nat, h: nat, row: nat, color: u32)
    ensures
      Painted(pixels, width, height, RectUpTo(x, y, w, h, Min(x, width), row), color)
      == Painted(pixels, width, height, RectUpTo(x, y, w, h, 0, row), color)
  {
    SamePaint(pixels, width, height, RectUpTo(x, y, w, h, Min(x, width), row), RectUpTo(x, y, w, h, 0, row), color);
  }

  lemma NextPixel(pixels: seq<u32>, width: nat, height: nat, x: nat, y: nat, w: nat, h: nat, col: nat, row: nat,
                  color: u32)
    requires width * height <= |pixels| && InRect(x, y, w, h, col, row) && col < width && row < height
    ensures row * width + col < |pixels|
    ensures
      Painted(pixels, width, height, RectUpTo(x, y, w, h, col, row), color)[row * width + col := color]
      == Painted(pixels, width, height, RectUpTo(x, y, w, h, col + 1, row), color)
  {
    var before := Painted(pixels, width, height, RectUpTo(x, y, w, h, col, row), color);
    SetPixel(before, width, height, col, row, color);
    PaintTwice(pixels, width, height, RectUpTo(x, y, w, h, col, row), Dot(col, row),
      RectUpTo(x, y, w, h, col + 1, row), color);
    hide Painted;
    hide Hit;
  }

  lemma ColumnsEnd(pixels: seq<u32>, width: nat, height: nat, x: nat, y: nat, w: nat, h: nat, col: nat, row: nat,
                   color: u32)
    requires col >= Min(x + w, width)
    ensures
      Painted(pixels, width, height, RectUpTo(x, y, w, h, col, row), color)
      == Painted(pixels, width, height, RectUpTo(x, y, w, h, 0, row + 1), color)
  {
    SamePaint(pixels, width, height, RectUpTo(x, y, w, h, col, row), RectUpTo(x, y, w, h, 0, row + 1), color);
  }

  lemma RowsEnd(pixels: seq<u32>, width: nat, height: nat, x: nat, y: nat, w: nat, h: nat, row: nat, color: u32)
    requires row >= Min(y + h, height)
    ensures
      Painted(pixels, width, height, RectUpTo(x, y, w, h, 0, row), color)
      == Painted(pixels, width, height, Rect(x, y, w, h), color)
  {
    SamePaint(pixels, width, height, RectUpTo(x, y, w, h, 0, row), Rect(x, y, w, h), color);
  }

  method FillRect(buffer: array<u32>, width: nat, height: nat, x: nat, y: nat, w: nat, h: nat, color: u32)
    requires width * height <= buffer.Length
    modifies buffer
    ensures buffer[..] == Painted(old(buffer[..]), width, height, Rect(x, y, w, h), color)
  {
    hide Painted;
    hide RectUpTo;
    hide Rect;
    ghost var before := buffer[..];
    var endY, endX := Min(y + h, height), Min(x + w, width);
    RowsStart(before, width, height, x, y, w, h, color);
    var row := Min(y, height);
    while row < endY
      invariant y <= row || row >= endY
      invariant buffer[..] == Painted(before, width, height, RectUpTo(x, y, w, h, 0, row), color)
    {
      var offset := row * width;
      ColumnsStart(before, width, height, x, y, w, h, row, color);
      var col := Min(x, width);
      while col < endX
        invariant x <= col || col >= endX
        invariant buffer[..] == Painted(before, width, height, RectUpTo(x, y, w, h, col, row), color)
      {
        NextPixel(before, width, height, x, y, w, h, col, row, color);
        buffer[offset + col] := color;
        col := col + 1;
      }
      ColumnsEnd(before, width, height, x, y, w, h, col, row, color);
      row := row + 1;
    }
    RowsEnd(before, width, height, x, y, w, h, row, color);
  }

  /** `n` steps of `size` after `x`. */
  function Along(x: nat, n: nat, size: nat): nat { x + n * size }

  // -- Glyphs ---------------------------------------------------------

  /** Whether the loops have passed the cell when they stand before `(row, col)`. */
  predicate Passed(row: nat, col: nat, r: nat, c: nat) { r < row || (r == row && c < col) }

  predicate InGlyphUpTo(x: nat, y: nat, ch: char, scale: nat, row: nat, col: nat, px: nat, py: nat) {
    InGlyph(x, y, ch, scale, px, py) && Passed(row, col, Quot(py - y, scale), Quot(px - x, scale))
  }

  function GlyphUpTo(x: nat, y: nat, ch: char, scale: nat, row: nat, col: nat): Shape {
    (px: nat, py: nat) => InGlyphUpTo(x, y, ch, scale, row, col, px, py)
  }

  lemma QuotientIs(scale: nat, d: nat, q: nat)
    requires scale > 0
    ensures Quot(d, scale) == q <==> q * scale <= d < q * scale + scale
  {
    var e, m := d / scale, d % scale;
    assert d == e * scale + m;
    assert (q - e) * scale == q * scale - e * scale;
    MulBig(q - e, scale);
  }

  /** The square filled for cell `(row, col)` holds exactly the pixels of that cell. */
  lemma SquareIsCell(x: nat, y: nat, scale: nat, row: nat, col: nat, px: nat, py: nat)
    requires scale > 0
    ensures
      InRect(Along(x, col, scale), Along(y, row, scale), scale, scale, px, py)
      <==> x <= px && y <= py && Quot(px - x, scale) == col && Quot(py - y, scale) == row
  {
    if x <= px { QuotientIs(scale, px - x, col); }
    if y <= py { QuotientIs(scale, py - y, row); }
  }

  lemma GlyphStart(pixels: seq<u32>, width: nat, height: nat, x: nat, y: nat, ch: char, scale: nat, color: u32)
    ensures Painted(pixels, width, height, GlyphUpTo(x, y, ch, scale, 0, 0), color) == pixels
  {
    PaintNothing(pixels, width, height, GlyphUpTo(x, y, ch, scale, 0, 0), color);
  }

  lemma CellSkipped(pixels: seq<u32>, width: nat, height: nat, x: nat, y: nat, ch: char, scale: nat,
                    row: nat, col: nat, color: u32)
    requires !Cell(ch, col, row)
    ensures
      Painted(pixels, width, height, GlyphUpTo(x, y, ch, scale, row, col + 1), color)
      == Painted(pixels, width, height, GlyphUpTo(x, y, ch, scale, row, col), color)
  {
    hide Cell;
    SamePaint(pixels, width, height, GlyphUpTo(x, y, ch, scale, row, col + 1),
      GlyphUpTo(x, y, ch, scale, row, col), color);
  }

  lemma CellFilled(pixels: seq<u32>, width: nat, height: nat, x: nat, y: nat, ch: char, scale: nat,
                   row: nat, col: nat, color: u32)
    requires Cell(ch, col, row)
    ensures
      Painted(Painted(pixels, width, height, GlyphUpTo(x, y, ch, scale, row, col), color),
        width, height, Rect(Along(x, col, scale), Along(y, row, scale), scale, scale), color)
      == Painted(pixels, width, height, GlyphUpTo(x, y, ch, scale, row, col + 1), color)
  {
    var upTo := GlyphUpTo(x, y, ch, scale, row, col);
    var square := Rect(Along(x, col, scale), Along(y, row, scale), scale, scale);
    var next := GlyphUpTo(x, y, ch, scale, row, col + 1);
    forall px: nat, py: nat | px < width && py < height
      ensures next(px, py) == (upTo(px, py) || square(px, py))
    {
      CellJoins(x, y, ch, scale, row, col, px, py);
    }
    hide InGlyphUpTo; hide InRect; hide Painted; hide Along;
    PaintTwice(pixels, width, height, upTo, square, next, color);
  }

  lemma CellJoins(x: nat, y: nat, ch: char, scale: nat, row: nat, col: nat, px: nat, py: nat)
    requires Cell(ch, col, row)
    ensures
      InGlyphUpTo(x, y, ch, scale, row, col + 1, px, py)
      == (InGlyphUpTo(x, y, ch, scale, row, col, px, py)
          || InRect(Along(x, col, scale), Along(y, row, scale), scale, scale, px, py))
  {
    hide Cell;
    if scale > 0 {
      SquareIsCell(x, y, scale, row, col, px, py);
    }
  }

  lemma NextGlyphRow(pixels: seq<u32>, width: nat, height: nat, x: nat, y: nat, ch: char, scale: nat,
                     row: nat, color: u32)
    ensures
      Painted(pixels, width, height, GlyphUpTo(x, y, ch, scale, row, 5), color)
      == Painted(pixels, width, height, GlyphUpTo(x, y, ch, scale, row + 1, 0), color)
  {
    forall r: nat, c: nat | Cell(ch, c, r) ensures c < 5 {}
    hide Cell;
    SamePaint(pixels, width, height, GlyphUpTo(x, y, ch, scale, row, 5), GlyphUpTo(x, y, ch, scale, row + 1, 0), color);
  }

  lemma GlyphEnd(pixels: seq<u32>, width: nat, height: nat, x: nat, y: nat, ch: char, scale: nat, color: u32)
    ensures
      Painted(pixels, width, height, GlyphUpTo(x, y, ch, scale, 7, 0), color)
      == Painted(pixels, width, height, Glyph(x, y, ch, scale), color)
  {
    forall r: nat, c: nat | Cell(ch, c, r) ensures r < 7 {}
    hide Cell;
    SamePaint(pixels, width, height, GlyphUpTo(x, y, ch, scale, 7, 0), Glyph(x, y, ch, scale), color);
  }

  /** Sets exactly the pixels of the image that lie in a set cell of the glyph. */
  method DrawGlyph(buffer: array<u32>, width: nat, height: nat, x: nat, y: nat, ch: char, scale: nat, color: u32)
    requires width * height <= buffer.Length
    modifies buffer
    ensures buffer[..] == Painted(old(buffer[..]), width, height, Glyph(x, y, ch, scale), color)
  {
    hide Painted; hide GlyphUpTo; hide Glyph; hide Rect; hide GlyphRows; hide Bit;
    ghost var before := buffer[..];
    var glyph := GlyphRows(ch);
    GlyphStart(before, width, height, x, y, ch, scale, color);
    for row := 0 to 7
      invariant buffer[..] == Painted(before, width, height, GlyphUpTo(x, y, ch, scale, row, 0), color)
    {
      var bits := glyph[row];
      for col := 0 to 5
        invariant buffer[..] == Painted(before, width, height, GlyphUpTo(x, y, ch, scale, row, col), color)
      {
        if Bit(bits, col) {
          CellFilled(before, width, height, x, y, ch, scale, row, col, color);
          FillRect(buffer, width, height, Along(x, col, scale), Along(y, row, scale), scale, scale, color);
        } else {
          CellSkipped(before, width, height, x, y, ch, scale, row, col, color);
        }
      }
      NextGlyphRow(before, width, height, x, y, ch, scale, row, color);
    }
    GlyphEnd(before, width, height, x, y, ch, scale, color);
  }

  // -- Text -----------------------------------------------------------

  /** The `i`-th character is drawn: the first always, another only when it fits before the right edge. */
  predicate Drawn(width: nat, x: nat, scale: nat, i: nat) { i == 0 || Along(x, i, 6 * scale) + 6 * scale < width }

  predicate InChar(width: nat, x: nat, y: nat, text: string, scale: nat, i: nat, px: nat, py: nat) {
    i < |text| && Drawn(width, x, scale, i) && InGlyph(Along(x, i, 6 * scale), y, text[i], scale, px, py)
  }

  /** The pixel lies in some drawn character. */
  ghost predicate InText(width: nat, x: nat, y: nat, text: string, scale: nat, n: nat, px: nat, py: nat) {
    exists i: nat :: i < n && InChar(width, x, y, text, scale, i, px, py)
  }

  ghost function Text(width: nat, x: nat, y: nat, text: string, scale: nat, n: nat): Shape {
    (px: nat, py: nat) => InText(width, x, y, text, scale, n, px, py)
  }

  lemma CellIsNarrow(ch: char, col: nat, row: nat)
    requires Cell(ch, col, row)
    ensures col < 5 && row < 7
  {
    hide GlyphRows;
  }

  /** A glyph is five cells wide. */
  lemma GlyphWidth(x: nat, y: nat, ch: char, scale: nat, px: nat, py: nat)
    requires InGlyph(x, y, ch, scale, px, py)
    ensures scale > 0 && x <= px < x + 5 * scale
  {
    var d := px - x;
    CellIsNarrow(ch, Quot(d, scale), Quot(py - y, scale));
    hide Cell;
    MulMonotone(Quot(d, scale), 4, scale);
    assert d == Quot(d, scale) * scale + d % scale;
  }

  /** A pixel of a character lies in that character's own six-cell column of the line. */
  lemma CharColumn(width: nat, x: nat, y: nat, text: string, scale: nat, i: nat, px: nat, py: nat)
    requires InChar(width, x, y, text, scale, i, px, py)
    ensures x <= px && scale > 0 && Quot(px - x, 6 * scale) == i
    ensures i > 0 ==> px < width
  {
    hide InGlyph;
    GlyphWidth(Along(x, i, 6 * scale), y, text[i], scale, px, py);
    DivMod(6 * scale, i, px - Along(x, i, 6 * scale));
  }

  /** Different characters of a line never touch the same pixel. */
  lemma CharactersAreDisjoint(width: nat, x: nat, y: nat, text: string, scale: nat, i: nat, j: nat, px: nat, py: nat)
    requires InChar(width, x, y, text, scale, i, px, py) && InChar(width, x, y, text, scale, j, px, py)
    ensures i == j
  {
    CharColumn(width, x, y, text, scale, i, px, py);
    CharColumn(width, x, y, text, scale, j, px, py);
  }

  /** The character whose column of the line `px` is in, and the place within that column. */
  function CharAt(x: nat, scale: nat, px: nat): nat {
    if x <= px then Quot(px - x, 6 * scale) else 0
  }

  function PlaceAt(x: nat, scale: nat, px: nat): nat {
    if scale > 0 && x <= px then (px - x) % (6 * scale) else 0
  }

  /** Which character, column and row decide a pixel, without any search. */
  predicate ByColumn(width: nat, x: nat, y: nat, text: string, scale: nat, px: nat, py: nat) {
    && scale > 0 && x <= px && y <= py && CharAt(x, scale, px) < |text|
    && Drawn(width, x, scale, CharAt(x, scale, px))
    && Cell(text[CharAt(x, scale, px)], Quot(PlaceAt(x, scale, px), scale), Quot(py - y, scale))
  }

  lemma ColumnSplits(x: nat, scale: nat, px: nat)
    requires scale > 0 && x <= px
    ensures px == Along(x, CharAt(x, scale, px), 6 * scale) + PlaceAt(x, scale, px)
  {
    assert px - x == Quot(px - x, 6 * scale) * (6 * scale) + (px - x) % (6 * scale);
  }

  lemma CharIsByColumn(width: nat, x: nat, y: nat, text: string, scale: nat, i: nat, px: nat, py: nat)
    requires InChar(width, x, y, text, scale, i, px, py)
    ensures CharAt(x, scale, px) == i && ByColumn(width, x, y, text, scale, px, py)
  {
    hide Cell; hide Drawn; hide PlaceAt; hide Along; hide Quot;
    CharColumn(width, x, y, text, scale, i, px, py);
    ColumnSplits(x, scale, px);
  }

  lemma ByColumnIsChar(width: nat, x: nat, y: nat, text: string, scale: nat, px: nat, py: nat)
    requires ByColumn(width, x, y, text, scale, px, py)
    ensures InChar(width, x, y, text, scale, CharAt(x, scale, px), px, py)
  {
    hide Cell; hide Drawn; hide CharAt; hide PlaceAt; hide Along; hide Quot;
    ColumnSplits(x, scale, px);
  }

  /** A pixel lies in the text exactly when its own column and row say so. */
  lemma TextPixel(width: nat, x: nat, y: nat, text: string, scale: nat, px: nat, py: nat)
    ensures InText(width, x, y, text, scale, |text|, px, py) <==> ByColumn(width, x, y, text, scale, px, py)
  {
    if i: nat :| i < |text| && InChar(width, x, y, text, scale, i, px, py) {
      CharIsByColumn(width, x, y, text, scale, i, px, py);
    }
    if ByColumn(width, x, y, text, scale, px, py) {
      ByColumnIsChar(width, x, y, text, scale, px, py);
    }
    hide InChar; hide Cell; hide Drawn; hide CharAt; hide PlaceAt;
  }

  lemma TextStart(pixels: seq<u32>, width: nat, height: nat, x: nat, y: nat, text: string, scale: nat, color: u32)
    ensures Painted(pixels, width, height, Text(width, x, y, text, scale, 0), color) == pixels
  {
    PaintNothing(pixels, width, height, Text(width, x, y, text, scale, 0), color);
  }

  lemma TextGrows(pixels: seq<u32>, width: nat, height: nat, x: nat, y: nat, text: string, scale: nat, i: nat,
                  color: u32)
    requires i < |text| && Drawn(width, x, scale, i)
    ensures
      Painted(Painted(pixels, width, height, Text(width, x, y, text, scale, i), color),
        width, height, Glyph(Along(x, i, 6 * scale), y, text[i], scale), color)
      == Painted(pixels, width, height, Text(width, x, y, text, scale, i + 1), color)
  {
    hide InGlyph; hide Along; hide Drawn; hide Painted;
    var before, next := Text(width, x, y, text, scale, i), Text(width, x, y, text, scale, i + 1);
    var glyph := Glyph(Along(x, i, 6 * scale), y, text[i], scale);
    forall px: nat, py: nat | px < width && py < height
      ensures next(px, py) == (before(px, py) || glyph(px, py))
    {
      assert InChar(width, x, y, text, scale, i, px, py) == glyph(px, py);
    }
    PaintTwice(pixels, width, height, before, glyph, next, color);
  }

  lemma RestIsNotDrawn(width: nat, x: nat, scale: nat, i: nat, j: nat)
    requires 0 < i <= j && !Drawn(width, x, scale, i)
    ensures !Drawn(width, x, scale, j)
  {
    MulMonotone(i, j, 6 * scale);
  }

  lemma TextEnd(pixels: seq<u32>, width: nat, height: nat, x: nat, y: nat, text: string, scale: nat, i: nat, color: u32)
    requires i == |text| || (0 < i && !Drawn(width, x, scale, i))
    ensures
      Painted(pixels, width, height, Text(width, x, y, text, scale, i), color)
      == Painted(pixels, width, height, Text(width, x, y, text, scale, |text|), color)
  {
    var here, all := Text(width, x, y, text, scale, i), Text(width, x, y, text, scale, |text|);
    forall px: nat, py: nat ensures here(px, py) == all(px, py) {
      if j: nat :| j < |text| && InChar(width, x, y, text, scale, j, px, py) {
        if 0 < i <= j { RestIsNotDrawn(width, x, scale, i, j); }
      }
    }
    hide InText; hide Painted;
    SamePaint(pixels, width, height, here, all, color);
  }

  /** Sets exactly the pixels of the image that lie in a drawn character; a scale of 0 counts as 1. */
  method DrawText(buffer: array<u32>, width: nat, height: nat, x: nat, y: nat, text: string, scale: nat, color: u32)
    requires width * height <= buffer.Length
    modifies buffer
    ensures
      var s := if scale == 0 then 1 else scale;
      buffer[..] == Painted(old(buffer[..]), width, height, Text(width, x, y, text, s, |text|), color)
  {
    hide Painted; hide Text; hide Glyph;
    ghost var before := buffer[..];
    var cursorX := x;
    var s := if scale == 0 then 1 else scale;
    var i := 0;
    TextStart(before, width, height, x, y, text, s, color);
    while i < |text|
      invariant i <= |text| && cursorX == Along(x, i, 6 * s) && Drawn(width, x, s, i)
      invariant buffer[..] == Painted(before, width, height, Text(width, x, y, text, s, i), color)
    {
      TextGrows(before, width, height, x, y, text, s, i, color);
      DrawGlyph(buffer, width, height, cursorX, y, text[i], s, color);
      assert Along(x, i + 1, 6 * s) == Along(x, i, 6 * s) + 6 * s;
      cursorX := cursorX + 6 * s;
      i := i + 1;
      if cursorX >= (if width < 6 * s then 0 else width - 6 * s) { break; }
    }
    TextEnd(before, width, height, x, y, text, s, i, color);
  }
}
