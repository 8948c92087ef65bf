/** The in-memory frame (src/render/frame_buffer.h): black = 0, white = 1. */
module FrameBuffers {
  import opened Bytes
  import opened Raster

  class FrameBuffer {
    const stride: nat
    const height: nat
    const buf: array<byte>

    ghost predicate Valid() {
      buf.Length == stride * height
    }

    // What getPixel answers: everything outside the frame is white.
    ghost predicate White(x: int, y: int)
      requires Valid()
      reads buf
    {
      Inside(stride, height, x, y) ==> Pixel(buf[..], stride, height, x, y)
    }

    constructor (stride: nat, height: nat)
      ensures Valid() && fresh(buf) && this.stride == stride && this.height == height
      ensures forall x, y :: White(x, y)
    {
      this.stride := stride;
      this.height := height;
      this.buf := new byte[stride * height];
      new;
      Clear(true);
    }

    method Clear(white: bool)
      requires Valid()
      modifies buf
      ensures forall x, y :: White(x, y) == (white || !Inside(stride, height, x, y))
    {
      var v := FillByte(white);
      for i := 0 to buf.Length
        invariant forall k | 0 <= k < i :: buf[k] == v
      {
        buf[i] := v;
      }
      UniformByte(white);
      forall x, y | Inside(stride, height, x, y)
        ensures Pixel(buf[..], stride, height, x, y) == white
      {
        IndexInside(stride, height, x / 8, y);
      }
    }

    method SetPixel(x: int, y: int, white: bool)
      requires Valid()
      modifies buf
      ensures forall x', y' :: (White(x', y') ==
        if x' == x && y' == y && Inside(stride, height, x, y) then white else old(White(x', y')))
    {
      if x < 0 || x >= 8 * stride || y < 0 || y >= height {
        return;
      }
      IndexInside(stride, height, x / 8, y);
      IndexIs(stride, x / 8, y);
      var idx := y * stride + x / 8;
      ghost var before := buf[..];
      buf[idx] := WithBit(buf[idx], x % 8, white);
      WritePixel(before, stride, height, x, y, white, buf[..]);
    }

    method GetPixel(x: int, y: int) returns (white: bool)
      requires Valid()
      ensures white == White(x, y)
    {
      if x < 0 || x >= 8 * stride || y < 0 || y >= height {
        return true;
      }
      IndexInside(stride, height, x / 8, y);
      IndexIs(stride, x / 8, y);
      white := Bit(buf[y * stride + x / 8], x % 8);
    }

    method FillRect(x: int, y: int, w: int, h: int, white: bool)
      requires Valid()
      modifies buf
      ensures forall x', y' :: (White(x', y') ==
        if x <= x' < x + w && y <= y' < y + h && Inside(stride, height, x', y') then white else old(White(x', y')))
    {
      var yy := y;
      while yy < y + h
        invariant y <= yy && (yy <= y + h || yy == y)
        invariant forall x', y' :: (White(x', y') ==
          if x <= x' < x + w && y <= y' < yy && Inside(stride, height, x', y') then white else old(White(x', y')))
      {
        var xx := x;
        while xx < x + w
          invariant x <= xx && (xx <= x + w || xx == x)
          invariant forall x', y' :: (White(x', y') ==
            if x <= x' < x + w && Inside(stride, height, x', y') && (y <= y' < yy || (y' == yy && x' < xx)) then white
            else old(White(x', y')))
        {
          SetPixel(xx, yy, white);
          xx := xx + 1;
        }
        yy := yy + 1;
      }
    }
  }

  function FillByte(white: bool): byte {
    if white then 0xFF else 0x00
  }

  lemma UniformByte(white: bool)
    ensures forall k: nat | k < 8 :: Bit(FillByte(white), k) == white
  {
    forall k: nat | k < 8
      ensures Bit(FillByte(white), k) == white
    {
      assert LowBit(255, 0) && LowBit(127, 0) && LowBit(63, 0) && LowBit(31, 0);
      assert LowBit(15, 0) && LowBit(7, 0) && LowBit(3, 0) && LowBit(1, 0);
      if k == 0 {} else if k == 1 {} else if k == 2 {} else if k == 3 {}
      else if k == 4 {} else if k == 5 {} else if k == 6 {} else {}
    }
  }
}
