/** The drawing surface (src/render/canvas.cpp). A canvas is known by the pixels
    drawn on it, in order; clipping is the surface's own business. */
module Canvases {

  datatype Dot = Dot(x: int, y: int, color: nat)

  class Canvas {
    var drawn: seq<Dot>

    constructor ()
      ensures drawn == []
    {
      drawn := [];
    }

    method DrawPixel(x: int, y: int, color: nat)
      modifies this
      ensures drawn == old(drawn) + [Dot(x, y, color)]
    {
      drawn := drawn + [Dot(x, y, color)];
    }

    // Bresenham. The loop has no guard; n counts the pixels drawn and p is the
    // position of the next one.
    method DrawLine(x0: int, y0: int, x1: int, y1: int, color: nat)
      modifies this
      ensures drawn == old(drawn) + Line(x0, y0, x1, y1, color)
    {
      var x, y := x0, y0;
      var dx: int, dy: int := Distance(x0, x1), Distance(y0, y1);
      var err := dx - dy;
      ghost var n: nat := 0;
      while true
        invariant n <= Max(dx, dy) && At(x0, y0, x1, y1, n, x, y, err)
        invariant drawn == old(drawn) + Dots(x0, y0, x1, y1, color, n)
        decreases Max(dx, dy) - n
      {
        LineEnds(x0, y0, x1, y1, n, x, y, err);
        DotsGrow(old(drawn), x0, y0, x1, y1, color, n, x, y, err);
        DrawPixel(x, y, color);
        if x == x1 && y == y1 {
          break;
        }
        x, y, err := Advance(x0, y0, x1, y1, n, x, y, err);
        n := n + 1;
      }
      WholeLine(x0, y0, x1, y1, color, n + 1);
    }
  }

  // The part of the loop body that moves the point.
  method Advance(x0: int, y0: int, x1: int, y1: int, ghost n: nat, x: int, y: int, err: int)
    returns (x': int, y': int, err': int)
    requires At(x0, y0, x1, y1, n, x, y, err)
    ensures At(x0, y0, x1, y1, n + 1, x', y', err')
  {
    var dx: int, dy: int := Distance(x0, x1), Distance(y0, y1);
    var sx := if x0 < x1 then 1 else -1;
    var sy := if y0 < y1 then 1 else -1;
    x', y', err' := x, y, err;
    var e2 := err * 2;
    if e2 > -dy {
      err' := err' - dy;
      x' := x' + sx;
    }
    if e2 < dx {
      err' := err' + dx;
      y' := y' + sy;
    }
  }

  // The loop's variables after n turns.
  ghost predicate At(x0: int, y0: int, x1: int, y1: int, n: nat, x: int, y: int, err: int) {
    var dx, dy := Distance(x0, x1), Distance(y0, y1);
    var p := Track(dx, dy, n);
    x == Along(x0, x1, p.i) && y == Along(y0, y1, p.j) && err == p.d + dx - dy
  }

  function Max(a: nat, b: nat): nat {
    if a > b then a else b
  }

  function Distance(a: int, b: int): nat {
    if b > a then b - a else a - b
  }

  // i steps from a towards b
  function Along(a: int, b: int, i: nat): int {
    if a < b then a + i else a - i
  }

  // n * a, by addition: keeps the loop's proof linear.
  function Times(n: nat, a: nat): nat {
    if n == 0 then 0 else Times(n - 1, a) + a
  }

  // The integer nearest to num / den, halves rounded down.
  function Nearest(num: int, den: nat): nat
    decreases if num > 0 then num else 0
  {
    if den == 0 || 2 * num <= den then 0 else 1 + Nearest(num - den, den)
  }

  // i steps along x and j along y, which is d off the line.
  datatype Pos = Pos(i: nat, j: nat, d: int)

  function Next(dx: nat, dy: nat, p: Pos): Pos {
    var e2 := 2 * (p.d + dx - dy);
    var alongX, alongY := e2 > 0 - dy, e2 < dx;
    Pos(if alongX then p.i + 1 else p.i,
        if alongY then p.j + 1 else p.j,
        p.d - (if alongX then dy else 0) + (if alongY then dx else 0))
  }

  // The position after n turns of the loop, and the pixels drawn before it.
  function Track(dx: nat, dy: nat, n: nat): Pos {
    if n == 0 then Pos(0, 0, 0) else Next(dx, dy, Track(dx, dy, n - 1))
  }

  function Dots(x0: int, y0: int, x1: int, y1: int, color: nat, n: nat): (s: seq<Dot>)
    ensures |s| == n
  {
    if n == 0 then []
    else
      var p := Track(Distance(x0, x1), Distance(y0, y1), n - 1);
      Dots(x0, y0, x1, y1, color, n - 1) + [Dot(Along(x0, x1, p.i), Along(y0, y1, p.j), color)]
  }

  // Pixel k: k steps along the longer axis, the nearest step along the other.
  function LineAt(x0: int, y0: int, x1: int, y1: int, color: nat, k: nat): Dot {
    var dx, dy := Distance(x0, x1), Distance(y0, y1);
    if dx >= dy
    then Dot(Along(x0, x1, k), Along(y0, y1, Nearest(Times(k, dy), dx)), color)
    else Dot(Along(x0, x1, Nearest(Times(k, dx), dy)), Along(y0, y1, k), color)
  }

  function LinePrefix(x0: int, y0: int, x1: int, y1: int, color: nat, n: nat): (s: seq<Dot>)
    ensures |s| == n
  {
    if n == 0 then []
    else LinePrefix(x0, y0, x1, y1, color, n - 1) + [LineAt(x0, y0, x1, y1, color, n - 1)]
  }

  function Line(x0: int, y0: int, x1: int, y1: int, color: nat): seq<Dot> {
    LinePrefix(x0, y0, x1, y1, color, Max(Distance(x0, x1), Distance(y0, y1)) + 1)
  }

  // The offset is at most half a step of the minor axis.
  ghost predicate Tracks(dx: nat, dy: nat, p: Pos) {
    && p.d == Times(p.j, dx) - Times(p.i, dy)
    && (dx == dy ==> p.d == 0)
    && if dx >= dy then p.j <= p.i && (dx > 0 ==> 0 - dx <= 2 * p.d < dx)
       else p.i <= p.j && 0 - dy < 2 * p.d <= dy
  }

  lemma {:induction false} TimesIs(n: nat, a: nat)
    ensures Times(n, a) == n * a
  {
    if n > 0 {
      TimesIs(n - 1, a);
    }
  }

  lemma {:induction false} TimesSwap(n: nat, a: nat)
    ensures Times(n, a) == Times(a, n)
  {
    TimesIs(n, a);
    TimesIs(a, n);
  }

  // x < y: one more step still does not pass
  lemma {:induction false} TimesMono(x: nat, y: nat, a: nat)
    requires x <= y
    ensures Times(x, a) <= Times(y, a) && (x < y ==> Times(x, a) + a <= Times(y, a))
    decreases y
  {
    if x < y {
      TimesMono(x, y - 1, a);
    }
  }

  // With the major counter in range, so is the minor one ...
  lemma MinorInRange(maj: nat, min: nat, i: nat, j: nat)
    requires 0 < maj && min <= maj && i <= maj && 2 * (Times(j, maj) - Times(i, min)) <= maj
    ensures j <= min && j <= i
  {
    TimesMono(i, maj, min);
    TimesSwap(maj, min);
    TimesMono(min, maj, i);
    TimesSwap(i, min);
    TimesSwap(maj, i);
    if j > min {
      TimesMono(min, j, maj);
    }
    if j > i {
      TimesMono(i, j, maj);
    }
  }

  // ... and both ends are met together.
  lemma EndsTogether(maj: nat, min: nat, j: nat)
    requires 0 < maj && 0 - maj <= 2 * (Times(j, maj) - Times(maj, min))
    ensures min <= j
  {
    TimesSwap(maj, min);
    if j < min {
      TimesMono(j, min, maj);
    }
  }

  // One turn of the loop: the longer axis always steps, nothing overshoots.
  lemma StepAlongX(dx: nat, dy: nat, p: Pos)
    requires dx >= dy && Tracks(dx, dy, p) && p.i <= dx && p.j <= dy && !(p.i == dx && p.j == dy)
    ensures var q := Next(dx, dy, p);
      q.i == p.i + 1 <= dx && q.j <= dy && Tracks(dx, dy, q)
  {
    var q := Next(dx, dy, p);
    if p.i == dx {
      EndsTogether(dx, dy, p.j);
    }
    assert q.d == Times(q.j, dx) - Times(q.i, dy);
    MinorInRange(dx, dy, q.i, q.j);
  }

  lemma StepAlongY(dx: nat, dy: nat, p: Pos)
    requires dx < dy && Tracks(dx, dy, p) && p.i <= dx && p.j <= dy && !(p.i == dx && p.j == dy)
    ensures var q := Next(dx, dy, p);
      q.i <= dx && q.j == p.j + 1 <= dy && Tracks(dx, dy, q)
  {
    var q := Next(dx, dy, p);
    if p.j == dy {
      EndsTogether(dy, dx, p.i);
    }
    assert q.d == Times(q.j, dx) - Times(q.i, dy);
    MinorInRange(dy, dx, q.j, q.i);
  }

  lemma {:induction false} NearestUnique(num: int, den: nat, m: nat)
    requires den > 0 && 0 - den <= 2 * (Times(m, den) - num) < den
    ensures m == Nearest(num, den)
    decreases m
  {
    if m > 0 {
      NearestUnique(num - den, den, m - 1);
    }
  }

  lemma {:induction false} TrackInRange(dx: nat, dy: nat, n: nat)
    requires n <= Max(dx, dy)
    ensures var p := Track(dx, dy, n);
      p.i <= dx && p.j <= dy && Max(p.i, p.j) == n && (n == Max(dx, dy) <==> p.i == dx && p.j == dy)
    ensures Tracks(dx, dy, Track(dx, dy, n))
  {
    if n > 0 {
      TrackInRange(dx, dy, n - 1);
      if dx >= dy {
        StepAlongX(dx, dy, Track(dx, dy, n - 1));
      } else {
        StepAlongY(dx, dy, Track(dx, dy, n - 1));
      }
    }
    var p := Track(dx, dy, n);
    if dx >= dy && p.i == dx > 0 {
      EndsTogether(dx, dy, p.j);
    } else if dx < dy && p.j == dy {
      EndsTogether(dy, dx, p.i);
    }
  }

  lemma LineEnds(x0: int, y0: int, x1: int, y1: int, n: nat, x: int, y: int, err: int)
    requires n <= Max(Distance(x0, x1), Distance(y0, y1)) && At(x0, y0, x1, y1, n, x, y, err)
    ensures n == Max(Distance(x0, x1), Distance(y0, y1)) <==> x == x1 && y == y1
  {
    TrackInRange(Distance(x0, x1), Distance(y0, y1), n);
  }

  lemma DotsGrow(before: seq<Dot>, x0: int, y0: int, x1: int, y1: int, color: nat, n: nat, x: int, y: int, err: int)
    requires At(x0, y0, x1, y1, n, x, y, err)
    ensures before + Dots(x0, y0, x1, y1, color, n) + [Dot(x, y, color)]
         == before + Dots(x0, y0, x1, y1, color, n + 1)
  {
  }

  lemma WholeLine(x0: int, y0: int, x1: int, y1: int, color: nat, n: nat)
    requires n == Max(Distance(x0, x1), Distance(y0, y1)) + 1
    ensures Dots(x0, y0, x1, y1, color, n) == Line(x0, y0, x1, y1, color)
  {
    DotsAreTheLine(x0, y0, x1, y1, color, n);
  }

  lemma DotOnLine(x0: int, y0: int, x1: int, y1: int, color: nat, n: nat)
    requires n <= Max(Distance(x0, x1), Distance(y0, y1))
    ensures var p := Track(Distance(x0, x1), Distance(y0, y1), n);
      LineAt(x0, y0, x1, y1, color, n) == Dot(Along(x0, x1, p.i), Along(y0, y1, p.j), color)
  {
    var dx, dy := Distance(x0, x1), Distance(y0, y1);
    TrackInRange(dx, dy, n);
    var p := Track(dx, dy, n);
    if dx >= dy && dx > 0 {
      NearestUnique(Times(p.i, dy), dx, p.j);
    } else if dx < dy {
      NearestUnique(Times(p.j, dx), dy, p.i);
    }
  }

  lemma {:induction false} DotsAreTheLine(x0: int, y0: int, x1: int, y1: int, color: nat, n: nat)
    requires n <= Max(Distance(x0, x1), Distance(y0, y1)) + 1
    ensures Dots(x0, y0, x1, y1, color, n) == LinePrefix(x0, y0, x1, y1, color, n)
  {
    if n > 0 {
      DotsAreTheLine(x0, y0, x1, y1, color, n - 1);
      DotOnLine(x0, y0, x1, y1, color, n - 1);
    }
  }

  // ---------------------------------------------------------------- theorems

  // What Nearest means, in plain arithmetic.
  lemma {:induction false} NearestMeaning(num: nat, den: nat, m: nat)
    requires den > 0
    ensures m == Nearest(num, den) <==> 0 - den <= 2 * (m * den - num) < den
  {
    var q := NearestTimes(num, den);
    TimesIs(q, den);
    TimesIs(m, den);
    if 0 - den <= 2 * (m * den - num) < den {
      NearestUnique(num, den, m);
    }
  }

  lemma {:induction false} NearestTimes(num: int, den: nat) returns (q: nat)
    requires den > 0 && 2 * num > 0 - den
    ensures q == Nearest(num, den) && 0 - den <= 2 * (Times(q, den) - num) < den
    decreases if num > 0 then num else 0
  {
    q := 0;
    if 2 * num > den {
      q := NearestTimes(num - den, den);
      q := q + 1;
    }
  }

  lemma {:induction false} LinePrefixAt(x0: int, y0: int, x1: int, y1: int, color: nat, n: nat, k: nat)
    requires k < n
    ensures LinePrefix(x0, y0, x1, y1, color, n)[k] == LineAt(x0, y0, x1, y1, color, k)
  {
    if k < n - 1 {
      LinePrefixAt(x0, y0, x1, y1, color, n - 1, k);
    }
  }

  // p is between a and b, whichever way round.
  predicate Between(p: int, a: int, b: int) {
    (a <= p <= b) || (b <= p <= a)
  }

  // Pixel k of the line: inside the bounding box, k steps along the longer axis, and
  // at most half a pixel from the true line on the shorter one (Times is the product).
  predicate GoodPixel(p: Dot, x0: int, y0: int, x1: int, y1: int, color: nat, k: nat) {
    && p.color == color && Between(p.x, x0, x1) && Between(p.y, y0, y1)
    && GoodOffset(Distance(x0, x1), Distance(y0, y1), Distance(x0, p.x), Distance(y0, p.y), k)
  }

  predicate GoodOffset(dx: nat, dy: nat, i: nat, j: nat, k: nat) {
    if dx >= dy then i == k && 2 * Distance(Times(j, dx), Times(k, dy)) <= dx
    else j == k && 2 * Distance(Times(i, dy), Times(k, dx)) <= dy
  }

  lemma OffsetIsGood(dx: nat, dy: nat, k: nat)
    requires k <= Max(dx, dy)
    ensures var p := Track(dx, dy, k); p.i <= dx && p.j <= dy && GoodOffset(dx, dy, p.i, p.j, k)
  {
    TrackInRange(dx, dy, k);
  }

  lemma AlongIs(a: int, b: int, i: nat)
    requires i <= Distance(a, b)
    ensures Between(Along(a, b, i), a, b) && Distance(a, Along(a, b, i)) == i
  {
  }

  lemma PixelIsGood(x0: int, y0: int, x1: int, y1: int, color: nat, k: nat)
    requires k <= Max(Distance(x0, x1), Distance(y0, y1))
    ensures GoodPixel(LineAt(x0, y0, x1, y1, color, k), x0, y0, x1, y1, color, k)
  {
    var p := Track(Distance(x0, x1), Distance(y0, y1), k);
    OffsetIsGood(Distance(x0, x1), Distance(y0, y1), k);
    AlongIs(x0, x1, p.i);
    AlongIs(y0, y1, p.j);
    DotOnLine(x0, y0, x1, y1, color, k);
  }

  // The line has max(|dx|, |dy|) + 1 pixels, from one endpoint to the other ...
  lemma LineEndpoints(x0: int, y0: int, x1: int, y1: int, color: nat)
    ensures var s := Line(x0, y0, x1, y1, color);
      && |s| == Max(Distance(x0, x1), Distance(y0, y1)) + 1
      && s[0] == Dot(x0, y0, color) && s[|s| - 1] == Dot(x1, y1, color)
  {
    var n := Max(Distance(x0, x1), Distance(y0, y1));
    LinePrefixAt(x0, y0, x1, y1, color, n + 1, 0);
    LinePrefixAt(x0, y0, x1, y1, color, n + 1, n);
    DotOnLine(x0, y0, x1, y1, color, 0);
    DotOnLine(x0, y0, x1, y1, color, n);
    TrackInRange(Distance(x0, x1), Distance(y0, y1), n);
  }

  // ... every one of them good, and each a neighbour of the one before.
  lemma LinePixels(x0: int, y0: int, x1: int, y1: int, color: nat)
    ensures var s := Line(x0, y0, x1, y1, color);
      && (forall k | 0 <= k < |s| :: GoodPixel(s[k], x0, y0, x1, y1, color, k))
      && (forall k | 0 < k < |s| :: Adjacent(s[k - 1], s[k]))
  {
    var s := Line(x0, y0, x1, y1, color);
    forall k | 0 <= k < |s|
      ensures GoodPixel(s[k], x0, y0, x1, y1, color, k)
      ensures k > 0 ==> Adjacent(s[k - 1], s[k])
    {
      LinePrefixAt(x0, y0, x1, y1, color, |s|, k);
      PixelIsGood(x0, y0, x1, y1, color, k);
      if k > 0 {
        LinePrefixAt(x0, y0, x1, y1, color, |s|, k - 1);
        PixelsAdjacent(x0, y0, x1, y1, color, k);
      }
    }
  }

  predicate Adjacent(a: Dot, b: Dot) {
    Distance(a.x, b.x) <= 1 && Distance(a.y, b.y) <= 1
  }

  lemma PixelsAdjacent(x0: int, y0: int, x1: int, y1: int, color: nat, k: nat)
    requires 0 < k <= Max(Distance(x0, x1), Distance(y0, y1))
    ensures Adjacent(LineAt(x0, y0, x1, y1, color, k - 1), LineAt(x0, y0, x1, y1, color, k))
  {
    DotOnLine(x0, y0, x1, y1, color, k - 1);
    DotOnLine(x0, y0, x1, y1, color, k);
  }
}
