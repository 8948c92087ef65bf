/** The panel (src/hal/Esp32Display.cpp): what each refresh leaves on the glass. A window
    write sets exactly that window; waveforms and power are not modelled. */
module Display {
  import opened Bytes
  import opened Raster
  import opened Planner

  const WIDTH: nat := 400
  const HEIGHT: nat := 300
  const STRIDE: nat := 50
  const BYTES: nat := 15000
  const PIXELS: nat := 120000

  type Frame = f: seq<byte> | |f| == BYTES witness seq(BYTES, _ => 0)

  // What the glass shows, pixel by pixel, true for white.
  type Picture = g: seq<bool> | |g| == PIXELS witness seq(PIXELS, _ => true)

  predicate OnPanel(x: int, y: int) {
    0 <= x < WIDTH && 0 <= y < HEIGHT
  }

  function At(x: int, y: int): int {
    y * WIDTH + x
  }

  predicate White(fb: Frame, x: int, y: int)
    requires OnPanel(x, y)
  {
    Pixel(fb, STRIDE, HEIGHT, x, y)
  }

  predicate InWindow(b: Bbox, x: int, y: int) {
    b.x <= x < b.x + b.w && b.y <= y < b.y + b.h
  }

  // What a window from drawPartial must be: byte-aligned and on the panel.
  predicate Window(b: Bbox) {
    b.x % 8 == 0 && b.w % 8 == 0 && 0 <= b.x && b.x + b.w <= WIDTH && 0 <= b.y && b.y + b.h <= HEIGHT
  }

  // The whole frame on the glass, and the frame inside one window only.
  function Glass(fb: Frame): Picture {
    seq(PIXELS, i requires 0 <= i < PIXELS => White(fb, i % WIDTH, i / WIDTH))
  }

  function Windowed(g: Picture, fb: Frame, b: Bbox): Picture {
    seq(PIXELS, i requires 0 <= i < PIXELS =>
      if InWindow(b, i % WIDTH, i / WIDTH) then White(fb, i % WIDTH, i / WIDTH) else g[i])
  }

  // Glasses are compared pixel by pixel.
  lemma SameGlass(g: Picture, h: Picture)
    requires forall x, y | OnPanel(x, y) :: g[At(x, y)] == h[At(x, y)]
    ensures g == h
  {
    forall i | 0 <= i < PIXELS
      ensures g[i] == h[i]
    {
      assert OnPanel(i % WIDTH, i / WIDTH) && At(i % WIDTH, i / WIDTH) == i;
    }
  }

  lemma GlassAt(fb: Frame, x: int, y: int)
    requires OnPanel(x, y)
    ensures Glass(fb)[At(x, y)] == White(fb, x, y)
  {
    assert At(x, y) % WIDTH == x && At(x, y) / WIDTH == y;
  }

  lemma WindowedAt(g: Picture, fb: Frame, b: Bbox, x: int, y: int)
    requires OnPanel(x, y)
    ensures Windowed(g, fb, b)[At(x, y)] == if InWindow(b, x, y) then White(fb, x, y) else g[At(x, y)]
  {
    assert At(x, y) % WIDTH == x && At(x, y) / WIDTH == y;
  }

  // Different frames look different.
  lemma GlassIsFaithful(a: Frame, b: Frame)
    requires Glass(a) == Glass(b)
    ensures a == b
  {
    forall x, y | Inside(STRIDE, HEIGHT, x, y)
      ensures Pixel(a, STRIDE, HEIGHT, x, y) == Pixel(b, STRIDE, HEIGHT, x, y)
    {
      GlassAt(a, x, y);
      GlassAt(b, x, y);
    }
    SamePixelsSameBytes(a, b, STRIDE, HEIGHT);
  }

  class Panel {
    const pix: array<bool>
    // Full black and white flashes so far.
    var flashes: nat

    ghost predicate Valid() {
      pix.Length == PIXELS
    }

    ghost function Shown(): Picture
      requires Valid()
      reads pix
    {
      pix[..]
    }

    constructor ()
      ensures Valid() && fresh(pix) && flashes == 0
    {
      pix := new bool[PIXELS];
      flashes := 0;
    }

    method FillWindow(b: Bbox, white: bool)
      requires Valid() && Window(b)
      modifies pix
      ensures forall x, y | OnPanel(x, y) :: pix[At(x, y)] == if InWindow(b, x, y) then white else old(pix[At(x, y)])
    {
      var y := b.y;
      while y < b.y + b.h
        invariant b.y <= y && (y <= b.y + b.h || y == b.y)
        invariant forall x', y' | OnPanel(x', y') ::
          (pix[At(x', y')] == if InWindow(b, x', y') && y' < y then white else old(pix[At(x', y')]))
      {
        var x := b.x;
        while x < b.x + b.w
          invariant b.x <= x && (x <= b.x + b.w || x == b.x)
          invariant forall x', y' | OnPanel(x', y') ::
            (pix[At(x', y')] == if InWindow(b, x', y') && (y' < y || (y' == y && x' < x)) then white else old(pix[At(x', y')]))
        {
          pix[At(x, y)] := white;
          x := x + 1;
        }
        y := y + 1;
      }
    }

    // Tile the window's bytes out of the frame, eight pixels each.
    method BlitPartial(fb: Frame, b: Bbox)
      requires Valid() && Window(b)
      modifies pix
      ensures forall x, y | OnPanel(x, y) ::
        (pix[At(x, y)] == if InWindow(b, x, y) then White(fb, x, y) else old(pix[At(x, y)]))
    {
      var y := 0;
      while y < b.h
        invariant 0 <= y && (y <= b.h || y == 0)
        invariant forall x', y' | OnPanel(x', y') ::
          (pix[At(x', y')] == if InWindow(b, x', y') && y' < b.y + y then White(fb, x', y') else old(pix[At(x', y')]))
      {
        var xb := 0;
        while xb < b.w / 8
          invariant 0 <= xb && (xb <= b.w / 8 || xb == 0)
          invariant forall x', y' | OnPanel(x', y') ::
            (pix[At(x', y')] == if InWindow(b, x', y') && (y' < b.y + y || (y' == b.y + y && x' < b.x + 8 * xb))
                                then White(fb, x', y') else old(pix[At(x', y')]))
        {
          BlitByte(fb, b.x / 8 + xb, b.y + y);
          xb := xb + 1;
        }
        y := y + 1;
      }
    }

    method BlitByte(fb: Frame, c: nat, y: nat)
      requires Valid() && c < STRIDE && y < HEIGHT
      modifies pix
      ensures forall x', y' | OnPanel(x', y') ::
        (pix[At(x', y')] == if y' == y && 8 * c <= x' < 8 * c + 8 then White(fb, x', y') else old(pix[At(x', y')]))
    {
      IndexInside(STRIDE, HEIGHT, c, y);
      IndexIs(STRIDE, c, y);
      var value := fb[y * STRIDE + c];
      for bit := 0 to 8
        invariant forall x', y' | OnPanel(x', y') ::
          (pix[At(x', y')] == if y' == y && 8 * c <= x' < 8 * c + bit then White(fb, x', y') else old(pix[At(x', y')]))
      {
        var x := c * 8 + bit;
        assert x / 8 == c && x % 8 == bit;
        pix[At(x, y)] := Bit(value, bit);
      }
    }

    // The full bitmap, white where a bit is set.
    method Blit(fb: Frame)
      requires Valid()
      modifies pix
      ensures Shown() == Glass(fb)
    {
      BlitPartial(fb, Bbox(0, 0, WIDTH, HEIGHT));
      forall x, y | OnPanel(x, y)
        ensures pix[..][At(x, y)] == Glass(fb)[At(x, y)]
      {
        GlassAt(fb, x, y);
        assert pix[At(x, y)] == White(fb, x, y);
      }
      SameGlass(pix[..], Glass(fb));
    }

    method BwFlash()
      requires Valid()
      modifies this, pix
      ensures flashes == old(flashes) + 1 && forall x, y | OnPanel(x, y) :: pix[At(x, y)]
    {
      FillWindow(Bbox(0, 0, WIDTH, HEIGHT), false);
      FillWindow(Bbox(0, 0, WIDTH, HEIGHT), true);
      flashes := flashes + 1;
    }

    method DrawFull(fb: Frame)
      requires Valid()
      modifies pix
      ensures Shown() == Glass(fb)
    {
      FillWindow(Bbox(0, 0, WIDTH, HEIGHT), true);
      Blit(fb);
    }

    method DrawPartial(fb: Frame, b: Bbox)
      requires Valid() && (!Empty(b) ==> Window(b))
      modifies pix
      ensures Shown() == if Empty(b) then old(Shown()) else Windowed(old(Shown()), fb, b)
    {
      if Empty(b) {
        return;
      }
      FillWindow(b, true);
      BlitPartial(fb, b);
      ghost var before := old(pix[..]);
      forall x, y | OnPanel(x, y)
        ensures pix[..][At(x, y)] == Windowed(before, fb, b)[At(x, y)]
      {
        WindowedAt(before, fb, b, x, y);
        assert pix[At(x, y)] == if InWindow(b, x, y) then White(fb, x, y) else before[At(x, y)];
      }
      SameGlass(pix[..], Windowed(before, fb, b));
    }

    method LightFull(fb: Frame)
      requires Valid()
      modifies this, pix
      ensures Shown() == Glass(fb) && flashes == old(flashes) + 1
    {
      BwFlash();
      DrawFull(fb);
    }

    method DeepClean(fb: Frame)
      requires Valid()
      modifies this, pix
      ensures Shown() == Glass(fb) && flashes == old(flashes) + 3
    {
      BwFlash();
      BwFlash();
      BwFlash();
      DrawFull(fb);
    }
  }

  // A partial update is enough: if the glass shows prev, writing the box of differences
  // from curr makes it show curr.
  lemma PartialIsEnough(prev: Frame, curr: Frame)
    requires prev != curr
    ensures var b := DiffBox(prev, curr, WIDTH, HEIGHT);
      !Empty(b) && Window(b) && Windowed(Glass(prev), curr, b) == Glass(curr)
  {
    var b := DiffBox(prev, curr, WIDTH, HEIGHT);
    assert prev[..BYTES] == prev && curr[..BYTES] == curr;
    DiffBoxIsTight(prev, curr, WIDTH, HEIGHT);
    forall x, y | OnPanel(x, y)
      ensures Windowed(Glass(prev), curr, b)[At(x, y)] == Glass(curr)[At(x, y)]
    {
      WindowedAt(Glass(prev), curr, b, x, y);
      GlassAt(prev, x, y);
      GlassAt(curr, x, y);
      IndexInside(STRIDE, HEIGHT, x / 8, y);
      if !Differs(prev, curr, STRIDE, x / 8, y) {
        assert prev[Index(STRIDE, x / 8, y)] == curr[Index(STRIDE, x / 8, y)];
      } else {
        assert InBox(b, x / 8, y);
      }
    }
    SameGlass(Windowed(Glass(prev), curr, b), Glass(curr));
  }
}
