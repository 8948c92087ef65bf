/** Custom glyph bitmaps: the packer that writes them (scripts/pbm-to-progmem.py)
    and the drawer that reads them (src/render/custom_glyph.cpp). */
module Glyphs {
  import opened Bytes
  import opened Raster
  import opened Canvases

  // Bytes per row.
  function Stride(w: nat): (s: nat)
    ensures w <= 8 * s < w + 8
  {
    (w + 7) / 8
  }

  // A picture: rows of ink bits.
  type Matrix = seq<seq<bool>>

  predicate Shape(m: Matrix, w: nat, h: nat) {
    |m| == h && forall r | 0 <= r < h :: |m[r]| == w
  }

  // The flat bit list of a PBM file, read row by row.
  function Rows(bits: seq<bool>, w: nat, h: nat): (m: Matrix)
    requires |bits| == w * h
    ensures Shape(m, w, h)
  {
    seq(h, r requires 0 <= r < h => Row(bits, w, h, r))
  }

  function Row(bits: seq<bool>, w: nat, h: nat, r: nat): (row: seq<bool>)
    requires |bits| == w * h && r < h
    ensures |row| == w
  {
    seq(w, c requires 0 <= c < w => (IndexInside(w, h, c, r); bits[Index(w, c, r)]))
  }

  // The picture in a packed bitmap; what the padding bits hold does not matter.
  function Unpack(buf: seq<byte>, w: nat, h: nat): (m: Matrix)
    requires |buf| == Stride(w) * h
    ensures Shape(m, w, h)
  {
    seq(h, r requires 0 <= r < h => seq(w, c requires 0 <= c < w => Pixel(buf, Stride(w), h, c, r)))
  }

  ghost predicate PaddingClear(buf: seq<byte>, w: nat, h: nat)
    requires |buf| == Stride(w) * h
  {
    forall x, y | Inside(Stride(w), h, x, y) && w <= x :: !Pixel(buf, Stride(w), h, x, y)
  }

  // ---------------------------------------------------------------- packing

  // The state of the packer at row r, column c: the cells before hold the picture,
  // all others (and the padding) are clear.
  ghost predicate PackedUpTo(out: seq<byte>, m: Matrix, w: nat, h: nat, r: nat, c: nat) {
    && Shape(m, w, h) && |out| == Stride(w) * h
    && forall x, y | Inside(Stride(w), h, x, y) ::
         Pixel(out, Stride(w), h, x, y) == (x < w && (y < r || (y == r && x < c)) && m[y][x])
  }

  method PackMsbPerRow(width: nat, height: nat, bits: seq<bool>) returns (packed: seq<byte>)
    requires |bits| == width * height
    ensures |packed| == Stride(width) * height
    ensures Unpack(packed, width, height) == Rows(bits, width, height)
    ensures PaddingClear(packed, width, height)
  {
    hide PackedUpTo, WithBit, Unpack, PaddingClear, Rows, Index, Stride;
    var stride := Stride(width);
    ghost var m := Rows(bits, width, height);
    var out := new byte[stride * height](_ => 0);
    NothingPacked(out[..], m, width, height);
    for y := 0 to height
      invariant PackedUpTo(out[..], m, width, height, y, 0)
    {
      for x := 0 to width
        invariant PackedUpTo(out[..], m, width, height, y, x)
      {
        CellAt(bits, width, height, x, y);
        var i, k := y * width + x, y * stride + x / 8;
        ghost var before := out[..];
        if bits[i] {
          out[k] := WithBit(out[k], x % 8, true);
        }
        PackedOneMore(before, out[..], m, width, height, x, y);
      }
      RowPacked(out[..], m, width, height, y);
    }
    packed := out[..];
    AllPacked(packed, m, width, height);
  }

  // Where cell (x, y) stands in the input, and its byte in the output.
  lemma CellAt(bits: seq<bool>, w: nat, h: nat, x: nat, y: nat)
    requires |bits| == w * h && x < w && y < h
    ensures y * w + x < |bits| && bits[y * w + x] == Rows(bits, w, h)[y][x]
    ensures Index(Stride(w), x / 8, y) == y * Stride(w) + x / 8 < Stride(w) * h
  {
    IndexInside(w, h, x, y);
    IndexInside(Stride(w), h, x / 8, y);
    IndexIs(w, x, y);
    IndexIs(Stride(w), x / 8, y);
  }

  lemma PackedOneMore(out: seq<byte>, out': seq<byte>, m: Matrix, w: nat, h: nat, x: nat, y: nat)
    requires PackedUpTo(out, m, w, h, y, x) && x < w && y < h
    requires Shape(m, w, h) && Index(Stride(w), x / 8, y) < |out| == Stride(w) * h
    requires var i := Index(Stride(w), x / 8, y);
      out' == if m[y][x] then out[i := WithBit(out[i], x % 8, true)] else out
    ensures PackedUpTo(out', m, w, h, y, x + 1)
  {
    hide Pixel, WithBit;
    if m[y][x] {
      WritePixel(out, Stride(w), h, x, y, true, out');
    }
  }

  lemma RowPacked(out: seq<byte>, m: Matrix, w: nat, h: nat, y: nat)
    requires PackedUpTo(out, m, w, h, y, w) && y < h
    ensures PackedUpTo(out, m, w, h, y + 1, 0)
  {
    hide Pixel;
  }

  lemma AllPacked(out: seq<byte>, m: Matrix, w: nat, h: nat)
    requires PackedUpTo(out, m, w, h, h, 0)
    ensures Unpack(out, w, h) == m && PaddingClear(out, w, h)
  {
    forall r | 0 <= r < h
      ensures Unpack(out, w, h)[r] == m[r]
    {
      forall c | 0 <= c < w
        ensures Unpack(out, w, h)[r][c] == m[r][c]
      {
        assert Inside(Stride(w), h, c, r);
      }
    }
  }

  lemma NothingPacked(out: seq<byte>, m: Matrix, w: nat, h: nat)
    requires Shape(m, w, h) && |out| == Stride(w) * h && forall i | 0 <= i < |out| :: out[i] == 0
    ensures PackedUpTo(out, m, w, h, 0, 0)
  {
    forall x, y | Inside(Stride(w), h, x, y)
      ensures !Pixel(out, Stride(w), h, x, y)
    {
      IndexInside(Stride(w), h, x / 8, y);
      ZeroBits(7 - x % 8);
    }
  }

  lemma {:induction false} ZeroBits(i: nat)
    ensures !LowBit(0, i)
  {
    if i > 0 {
      ZeroBits(i - 1);
    }
  }

  // ---------------------------------------------------------------- drawing

  // The ink of a row's first n columns, and of the first n rows, in drawing order.
  function RowInk(row: seq<bool>, n: nat, x: int, y: int, ink: nat): seq<Dot>
    requires n <= |row|
  {
    if n == 0 then []
    else if row[n - 1] then RowInk(row, n - 1, x, y, ink) + [Dot(x + n - 1, y, ink)]
    else RowInk(row, n - 1, x, y, ink)
  }

  function Ink(m: Matrix, n: nat, x: int, y: int, ink: nat): seq<Dot>
    requires n <= |m|
  {
    if n == 0 then [] else Ink(m, n - 1, x, y, ink) + RowInk(m[n - 1], |m[n - 1]|, x, y + n - 1, ink)
  }

  method DrawGlyphRow(canvas: Canvas, x: int, y: int, rowBits: seq<byte>, w: nat, ink: nat, ghost row: seq<bool>)
    requires |rowBits| == Stride(w) && |row| == w
    requires forall c | 0 <= c < w :: Bit(rowBits[c / 8], c % 8) == row[c]
    modifies canvas
    ensures canvas.drawn == old(canvas.drawn) + RowInk(row, w, x, y, ink)
  {
    for col := 0 to w
      invariant canvas.drawn == old(canvas.drawn) + RowInk(row, col, x, y, ink)
    {
      assert Bit(rowBits[col / 8], col % 8) == row[col];
      if Bit(rowBits[col / 8], col % 8) {
        canvas.DrawPixel(x + col, y, ink);
      }
    }
  }

  // glyph.bits + row * stride
  function RowBytes(bits: seq<byte>, s: nat, h: nat, row: nat): (r: seq<byte>)
    requires |bits| == s * h && row < h
    ensures |r| == s
  {
    RowFits(s, h, row);
    bits[row * s..row * s + s]
  }

  method DrawCustomGlyph(canvas: Canvas, x: int, y: int, bits: seq<byte>, w: nat, h: nat, ink: nat)
    requires |bits| == Stride(w) * h
    modifies canvas
    ensures canvas.drawn == old(canvas.drawn) + Ink(Unpack(bits, w, h), h, x, y, ink)
  {
    var stride := Stride(w);
    ghost var m := Unpack(bits, w, h);
    for row := 0 to h
      invariant canvas.drawn == old(canvas.drawn) + Ink(m, row, x, y, ink)
    {
      RowBytesAre(bits, w, h, row);
      InkGrows(old(canvas.drawn), m, row, w, x, y, ink);
      DrawGlyphRow(canvas, x, y + row, RowBytes(bits, stride, h, row), w, ink, m[row]);
    }
  }

  lemma InkGrows(before: seq<Dot>, m: Matrix, row: nat, w: nat, x: int, y: int, ink: nat)
    requires row < |m| && |m[row]| == w
    ensures before + Ink(m, row, x, y, ink) + RowInk(m[row], w, x, y + row, ink) == before + Ink(m, row + 1, x, y, ink)
  {
  }

  lemma RowFits(s: nat, h: nat, row: nat)
    requires row < h
    ensures row * s + s <= s * h
  {
    assert (row + 1) * s <= h * s;
  }

  lemma RowBytesAre(bits: seq<byte>, w: nat, h: nat, row: nat)
    requires |bits| == Stride(w) * h && row < h
    ensures forall c | 0 <= c < w :: Bit(RowBytes(bits, Stride(w), h, row)[c / 8], c % 8) == Unpack(bits, w, h)[row][c]
  {
    forall c | 0 <= c < w
      ensures Bit(RowBytes(bits, Stride(w), h, row)[c / 8], c % 8) == Unpack(bits, w, h)[row][c]
    {
      RowByteIs(bits, Stride(w), h, row, c);
    }
  }

  lemma RowByteIs(bits: seq<byte>, s: nat, h: nat, row: nat, c: nat)
    requires |bits| == s * h && row < h && c < 8 * s
    ensures Pixel(bits, s, h, c, row) == Bit(RowBytes(bits, s, h, row)[c / 8], c % 8)
  {
    IndexIs(s, c / 8, row);
    RowFits(s, h, row);
  }

  // ---------------------------------------------------------------- theorems

  // A dot is drawn exactly where the picture has ink, and in the ink colour.
  lemma {:induction false} InkExactly(m: Matrix, w: nat, n: nat, x: int, y: int, ink: nat, d: Dot)
    requires Shape(m, w, |m|) && n <= |m|
    ensures d in Ink(m, n, x, y, ink) <==>
      d.color == ink && 0 <= d.y - y < n && 0 <= d.x - x < w && m[d.y - y][d.x - x]
  {
    if n > 0 {
      InkExactly(m, w, n - 1, x, y, ink, d);
      RowInkExactly(m[n - 1], w, x, y + n - 1, ink, d);
    }
  }

  lemma {:induction false} RowInkExactly(row: seq<bool>, n: nat, x: int, y: int, ink: nat, d: Dot)
    requires n <= |row|
    ensures d in RowInk(row, n, x, y, ink) <==> d.color == ink && d.y == y && 0 <= d.x - x < n && row[d.x - x]
  {
    if n > 0 {
      RowInkExactly(row, n - 1, x, y, ink, d);
    }
  }

  // Bitmaps with clear padding that draw the same picture are the same bytes: the
  // packer's output is the only one.
  lemma PackingIsUnique(a: seq<byte>, b: seq<byte>, w: nat, h: nat)
    requires |a| == |b| == Stride(w) * h && PaddingClear(a, w, h) && PaddingClear(b, w, h)
    requires Unpack(a, w, h) == Unpack(b, w, h)
    ensures a == b
  {
    forall x, y | Inside(Stride(w), h, x, y)
      ensures Pixel(a, Stride(w), h, x, y) == Pixel(b, Stride(w), h, x, y)
    {
      if x < w {
        assert Unpack(a, w, h)[y][x] == Unpack(b, w, h)[y][x];
      }
    }
    SamePixelsSameBytes(a, b, Stride(w), h);
  }

  // Pack, then draw: pixel (x + c, y + r) is drawn exactly when bit (r, c) was set.
  lemma PackThenDraw(bits: seq<bool>, packed: seq<byte>, w: nat, h: nat, x: int, y: int, ink: nat, d: Dot)
    requires |bits| == w * h && |packed| == Stride(w) * h
    requires Unpack(packed, w, h) == Rows(bits, w, h)
    ensures d in Ink(Unpack(packed, w, h), h, x, y, ink) <==>
      && d.color == ink && 0 <= d.y - y < h && 0 <= d.x - x < w
      && Index(w, d.x - x, d.y - y) < |bits| && bits[Index(w, d.x - x, d.y - y)]
  {
    InkExactly(Rows(bits, w, h), w, h, x, y, ink, d);
    if 0 <= d.y - y < h && 0 <= d.x - x < w {
      IndexInside(w, h, d.x - x, d.y - y);
    }
  }
}
