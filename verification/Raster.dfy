/** 1-bpp bitmaps: row-major, `stride` bytes per row, leftmost pixel in the most
    significant bit. Shared by frame buffers, the panel and glyph bitmaps. */
module Raster {
  import opened Bytes

  // Byte c of row y, at y * stride + c; adding up the rows keeps proofs linear.
  function Index(stride: nat, c: nat, y: nat): nat {
    if y == 0 then c else Index(stride, c, y - 1) + stride
  }

  lemma {:induction false} IndexIs(stride: nat, c: nat, y: nat)
    ensures Index(stride, c, y) == y * stride + c
  {
    if y > 0 {
      IndexIs(stride, c, y - 1);
    }
  }

  lemma {:induction false} IndexInside(stride: nat, height: nat, c: nat, y: nat)
    requires c < stride && y < height
    ensures Index(stride, c, y) < stride * height
  {
    assert stride * height == stride * (height - 1) + stride;
    if y > 0 {
      IndexInside(stride, height - 1, c, y - 1);
    }
  }

  lemma {:induction false} RowsApart(stride: nat, c: nat, y: nat, c': nat, y': nat)
    requires c < stride && y < y'
    ensures Index(stride, c, y) < Index(stride, c', y')
  {
    if y > 0 {
      RowsApart(stride, c, y - 1, c', y' - 1);
    }
  }

  lemma {:induction false} SameRow(stride: nat, c: nat, c': nat, y: nat)
    requires Index(stride, c, y) == Index(stride, c', y)
    ensures c == c'
  {
    if y > 0 {
      SameRow(stride, c, c', y - 1);
    }
  }

  lemma IndexInjective(stride: nat, c: nat, y: nat, c': nat, y': nat)
    requires c < stride && c' < stride && Index(stride, c, y) == Index(stride, c', y')
    ensures c == c' && y == y'
  {
    if y < y' {
      RowsApart(stride, c, y, c', y');
    } else if y' < y {
      RowsApart(stride, c', y', c, y);
    } else {
      SameRow(stride, c, c', y);
    }
  }

  // Every byte of the bitmap is some column of some row.
  lemma IndexCovers(stride: nat, height: nat, i: nat) returns (c: nat, y: nat)
    requires i < stride * height
    ensures c < stride && y < height && Index(stride, c, y) == i
    decreases height
  {
    if i >= stride * (height - 1) {
      c, y := i - stride * (height - 1), height - 1;
      IndexIs(stride, c, y);
    } else {
      c, y := IndexCovers(stride, height - 1, i);
    }
  }

  predicate Inside(stride: nat, height: nat, x: int, y: int) {
    0 <= x < 8 * stride && 0 <= y < height
  }

  predicate Pixel(buf: seq<byte>, stride: nat, height: nat, x: int, y: int)
    requires |buf| == stride * height && Inside(stride, height, x, y)
  {
    IndexInside(stride, height, x / 8, y);
    Bit(buf[Index(stride, x / 8, y)], x % 8)
  }

  // Two bitmaps of the same shape that show the same picture are the same bytes.
  lemma SamePixelsSameBytes(a: seq<byte>, b: seq<byte>, stride: nat, height: nat)
    requires |a| == |b| == stride * height
    requires forall x, y | Inside(stride, height, x, y) ::
      Pixel(a, stride, height, x, y) == Pixel(b, stride, height, x, y)
    ensures a == b
  {
    forall i | 0 <= i < |a|
      ensures a[i] == b[i]
    {
      var c, y := IndexCovers(stride, height, i);
      forall k: nat | k < 8
        ensures Bit(a[i], k) == Bit(b[i], k)
      {
        var x := 8 * c + k;
        assert x / 8 == c && x % 8 == k;
        assert Inside(stride, height, x, y);
        assert Pixel(a, stride, height, x, y) == Pixel(b, stride, height, x, y);
      }
      SameBits(a[i], b[i]);
    }
  }

  // Writing one bit of one byte changes exactly one pixel.
  lemma WritePixel(buf: seq<byte>, stride: nat, height: nat, x: int, y: int, on: bool, buf': seq<byte>)
    requires |buf| == stride * height && Inside(stride, height, x, y)
    requires Wrote(buf, Index(stride, x / 8, y), x % 8, on, buf')
    ensures forall x', y' | Inside(stride, height, x', y') ::
      (Pixel(buf', stride, height, x', y') == if x' == x && y' == y then on else Pixel(buf, stride, height, x', y'))
  {
    forall x', y' | Inside(stride, height, x', y')
      ensures Pixel(buf', stride, height, x', y') == if x' == x && y' == y then on else Pixel(buf, stride, height, x', y')
    {
      WritePixelAt(buf, stride, height, x, y, on, buf', x', y');
    }
  }

  predicate Wrote(buf: seq<byte>, i: nat, k: nat, on: bool, buf': seq<byte>)
    requires k < 8
  {
    && |buf'| == |buf| && i < |buf|
    && (forall j | 0 <= j < |buf| && j != i :: buf'[j] == buf[j])
    && (forall j: nat | j < 8 :: Bit(buf'[i], j) == if j == k then on else Bit(buf[i], j))
  }

  lemma WritePixelAt(buf: seq<byte>, stride: nat, height: nat, x: int, y: int, on: bool, buf': seq<byte>, x': int, y': int)
    requires |buf| == stride * height && Inside(stride, height, x, y) && Inside(stride, height, x', y')
    requires Wrote(buf, Index(stride, x / 8, y), x % 8, on, buf')
    ensures Pixel(buf', stride, height, x', y') == if x' == x && y' == y then on else Pixel(buf, stride, height, x', y')
  {
    IndexInside(stride, height, x' / 8, y');
    if Index(stride, x' / 8, y') == Index(stride, x / 8, y) {
      IndexInjective(stride, x' / 8, y', x / 8, y);
    }
  }
}
