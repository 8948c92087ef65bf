/** The refresh decision (src/logic/refresh_planner.cpp): compare the stored frame with
    the new one, and update nothing, a window, or the whole panel. */
module Planner {
  import opened Bytes
  import opened Raster

  const PIXELS_PER_BYTE: nat := 8

  datatype Bbox = Bbox(x: int, y: int, w: int, h: int)

  const NO_BOX := Bbox(0, 0, 0, 0)

  predicate Empty(b: Bbox) {
    b.w <= 0 || b.h <= 0
  }

  datatype RefreshKind = None | Partial | LightFull | DeepClean

  datatype RefreshDecision = RefreshDecision(kind: RefreshKind, bbox: Bbox)

  datatype RefreshConfig = RefreshConfig(width: nat, height: nat, lightFullEvery: int, partialHardcap: nat)

  const DEFAULT_REFRESH := RefreshConfig(400, 300, 3600, 15)

  // ---------------------------------------------------------------- the box of differences

  predicate Differs(a: seq<byte>, b: seq<byte>, stride: nat, c: int, y: int) {
    0 <= c < stride && 0 <= y && Index(stride, c, y) < |a| && Index(stride, c, y) < |b|
    && a[Index(stride, c, y)] != b[Index(stride, c, y)]
  }

  // Bounds of the differing bytes seen so far, in pixels.
  datatype Hull = Hull(minX: int, minY: int, maxX: int, maxY: int)

  function Widen(u: Hull, c: nat, y: nat): Hull {
    var x0 := c * PIXELS_PER_BYTE;
    var x1 := x0 + 7;
    Hull(if x0 < u.minX then x0 else u.minX, if y < u.minY then y else u.minY,
         if x1 > u.maxX then x1 else u.maxX, if y > u.maxY then y else u.maxY)
  }

  // Bounds after y whole rows and n bytes of the next one.
  function Scan(a: seq<byte>, b: seq<byte>, w: nat, h: nat, y: nat, n: nat): Hull
    decreases y, n
  {
    if n > 0 then
      var u := Scan(a, b, w, h, y, n - 1);
      if Differs(a, b, w / 8, n - 1, y) then Widen(u, n - 1, y) else u
    else if y > 0 then Scan(a, b, w, h, y - 1, w / 8)
    else Hull(w, h, -1, -1)
  }

  // & ~7 on a non-negative number
  function AlignDown(x: int): int {
    x / 8 * 8
  }

  function BoxOf(u: Hull): Bbox {
    if u.maxX < 0 then NO_BOX
    else
      var x := AlignDown(u.minX);
      Bbox(x, u.minY, AlignDown(u.maxX + 1 - x + 7), u.maxY - u.minY + 1)
  }

  function DiffBox(a: seq<byte>, b: seq<byte>, w: nat, h: nat): Bbox {
    BoxOf(Scan(a, b, w, h, h, 0))
  }

  method DiffBbox(a: seq<byte>, b: seq<byte>, w: nat, h: nat) returns (bb: Bbox)
    requires |a| == |b| >= w / 8 * h
    ensures bb == DiffBox(a, b, w, h)
  {
    var stride := w / PIXELS_PER_BYTE;
    var minX: int, minY: int, maxX, maxY := w, h, -1, -1;
    for y := 0 to h
      invariant Hull(minX, minY, maxX, maxY) == Scan(a, b, w, h, y, 0)
    {
      for xb := 0 to stride
        invariant Hull(minX, minY, maxX, maxY) == Scan(a, b, w, h, y, xb)
      {
        IndexInside(stride, h, xb, y);
        IndexIs(stride, xb, y);
        var diff := Xor(a[y * stride + xb], b[y * stride + xb]);
        XorZero(a[y * stride + xb], b[y * stride + xb]);
        if diff == 0 {
          continue;
        }
        var x0 := xb * PIXELS_PER_BYTE;
        var x1 := x0 + 7;
        minX := if x0 < minX then x0 else minX;
        maxX := if x1 > maxX then x1 else maxX;
        minY := if y < minY then y else minY;
        maxY := if y > maxY then y else maxY;
      }
    }
    if maxX < 0 {
      return NO_BOX;
    }
    var x := AlignDown(minX);
    bb := Bbox(x, minY, AlignDown((maxX + 1) - x + 7), maxY - minY + 1);
  }

  // ---------------------------------------------------------------- what the box is

  // Byte column c of row y lies in the box.
  predicate InBox(bb: Bbox, c: int, y: int) {
    bb.x <= 8 * c && 8 * c + 8 <= bb.x + bb.w && bb.y <= y < bb.y + bb.h
  }

  // The box is byte-aligned and inside the frame, holds every differing byte, and none of
  // its four sides can be moved in.
  ghost predicate TightBox(a: seq<byte>, b: seq<byte>, stride: nat, h: nat, bb: Bbox) {
    && !Empty(bb) && bb.x % 8 == 0 && bb.w % 8 == 0
    && 0 <= bb.x && bb.x + bb.w <= 8 * stride && 0 <= bb.y && bb.y + bb.h <= h
    && (forall c, y | y < h && Differs(a, b, stride, c, y) :: InBox(bb, c, y))
    && ColumnDiffers(a, b, stride, h, bb.x / 8) && ColumnDiffers(a, b, stride, h, (bb.x + bb.w) / 8 - 1)
    && RowDiffers(a, b, stride, bb.y) && RowDiffers(a, b, stride, bb.y + bb.h - 1)
  }

  ghost predicate ColumnDiffers(a: seq<byte>, b: seq<byte>, stride: nat, h: nat, c: int) {
    exists y :: y < h && Differs(a, b, stride, c, y)
  }

  ghost predicate RowDiffers(a: seq<byte>, b: seq<byte>, stride: nat, y: int) {
    exists c :: Differs(a, b, stride, c, y)
  }

  predicate Seen(y: nat, n: nat, c: int, r: int) {
    r < y || (r == y && c < n)
  }

  // A difference among the bytes seen so far.
  predicate SeenDiff(a: seq<byte>, b: seq<byte>, stride: nat, y: nat, n: nat, c: int, r: int) {
    Seen(y, n, c, r) && Differs(a, b, stride, c, r)
  }

  // The bounds say exactly where the differences seen so far lie.
  ghost predicate HullOf(a: seq<byte>, b: seq<byte>, w: nat, h: nat, y: nat, n: nat, u: Hull) {
    var stride := w / 8;
    && (forall c, r | SeenDiff(a, b, stride, y, n, c, r) ::
         u.minX <= 8 * c && 8 * c + 7 <= u.maxX && u.minY <= r <= u.maxY)
    && (if u.maxX < 0 then u == Hull(w, h, -1, -1)
        else
          && (exists c, r :: SeenDiff(a, b, stride, y, n, c, r) && u.minX == 8 * c)
          && (exists c, r :: SeenDiff(a, b, stride, y, n, c, r) && u.maxX == 8 * c + 7)
          && (exists c, r :: SeenDiff(a, b, stride, y, n, c, r) && u.minY == r)
          && (exists c, r :: SeenDiff(a, b, stride, y, n, c, r) && u.maxY == r))
  }

  lemma {:induction false} ScanIsHull(a: seq<byte>, b: seq<byte>, w: nat, h: nat, y: nat, n: nat)
    requires (y < h || (y == h && n == 0)) && n <= w / 8
    ensures HullOf(a, b, w, h, y, n, Scan(a, b, w, h, y, n))
    decreases y, n
  {
    if n > 0 {
      ScanIsHull(a, b, w, h, y, n - 1);
      HullAtNextByte(a, b, w, h, y, n, Scan(a, b, w, h, y, n - 1));
    } else if y > 0 {
      ScanIsHull(a, b, w, h, y - 1, w / 8);
      HullAtRowEnd(a, b, w, h, y, Scan(a, b, w, h, y, 0));
    }
  }

  lemma HullAtNextByte(a: seq<byte>, b: seq<byte>, w: nat, h: nat, y: nat, n: nat, u: Hull)
    requires y < h && 0 < n <= w / 8 && HullOf(a, b, w, h, y, n - 1, u)
    ensures HullOf(a, b, w, h, y, n, if Differs(a, b, w / 8, n - 1, y) then Widen(u, n - 1, y) else u)
  {
    var stride := w / 8;
    var v := if Differs(a, b, stride, n - 1, y) then Widen(u, n - 1, y) else u;
    forall c, r | SeenDiff(a, b, stride, y, n, c, r)
      ensures v.minX <= 8 * c && 8 * c + 7 <= v.maxX && v.minY <= r <= v.maxY
    {
      assert SeenDiff(a, b, stride, y, n - 1, c, r) || (c == n - 1 && r == y);
    }
    if Differs(a, b, stride, n - 1, y) {
      assert SeenDiff(a, b, stride, y, n, n - 1, y);
    }
    if u.maxX >= 0 {
      var c0, r0 :| SeenDiff(a, b, stride, y, n - 1, c0, r0) && u.minX == 8 * c0;
      var c1, r1 :| SeenDiff(a, b, stride, y, n - 1, c1, r1) && u.maxX == 8 * c1 + 7;
      var c2, r2 :| SeenDiff(a, b, stride, y, n - 1, c2, r2) && u.minY == r2;
      var c3, r3 :| SeenDiff(a, b, stride, y, n - 1, c3, r3) && u.maxY == r3;
      assert SeenDiff(a, b, stride, y, n, c0, r0) && SeenDiff(a, b, stride, y, n, c1, r1);
      assert SeenDiff(a, b, stride, y, n, c2, r2) && SeenDiff(a, b, stride, y, n, c3, r3);
    }
  }

  // The end of one row is the start of the next.
  lemma HullAtRowEnd(a: seq<byte>, b: seq<byte>, w: nat, h: nat, y: nat, u: Hull)
    requires y > 0 && HullOf(a, b, w, h, y - 1, w / 8, u)
    ensures HullOf(a, b, w, h, y, 0, u)
  {
    var stride := w / 8;
    forall c, r | SeenDiff(a, b, stride, y, 0, c, r)
      ensures u.minX <= 8 * c && 8 * c + 7 <= u.maxX && u.minY <= r <= u.maxY
    {
      assert SeenDiff(a, b, stride, y - 1, stride, c, r);
    }
    if u.maxX >= 0 {
      var c0, r0 :| SeenDiff(a, b, stride, y - 1, stride, c0, r0) && u.minX == 8 * c0;
      var c1, r1 :| SeenDiff(a, b, stride, y - 1, stride, c1, r1) && u.maxX == 8 * c1 + 7;
      var c2, r2 :| SeenDiff(a, b, stride, y - 1, stride, c2, r2) && u.minY == r2;
      var c3, r3 :| SeenDiff(a, b, stride, y - 1, stride, c3, r3) && u.maxY == r3;
      assert SeenDiff(a, b, stride, y, 0, c0, r0) && SeenDiff(a, b, stride, y, 0, c1, r1);
      assert SeenDiff(a, b, stride, y, 0, c2, r2) && SeenDiff(a, b, stride, y, 0, c3, r3);
    }
  }

  // The scan finds the box; there is none exactly when the scanned bytes agree.
  lemma DiffBoxIsTight(a: seq<byte>, b: seq<byte>, w: nat, h: nat)
    requires |a| == |b| >= w / 8 * h
    ensures a[..w / 8 * h] != b[..w / 8 * h] ==> TightBox(a, b, w / 8, h, DiffBox(a, b, w, h))
    ensures a[..w / 8 * h] == b[..w / 8 * h] ==> DiffBox(a, b, w, h) == NO_BOX
  {
    var stride, u := w / 8, Scan(a, b, w, h, h, 0);
    ScanIsHull(a, b, w, h, h, 0);
    if a[..stride * h] == b[..stride * h] {
      NoDifference(a, b, stride, h);
    } else {
      var c, y := SomeDifference(a, b, stride, h);
      assert SeenDiff(a, b, stride, h, 0, c, y);
      HullIsTight(a, b, w, h, u);
    }
  }

  lemma HullIsTight(a: seq<byte>, b: seq<byte>, w: nat, h: nat, u: Hull)
    requires HullOf(a, b, w, h, h, 0, u) && u.maxX >= 0
    ensures TightBox(a, b, w / 8, h, BoxOf(u))
  {
    var c0, c1 := HullCorners(a, b, w, h, u);
    HullHoldsAll(a, b, w, h, u);
    SidesMakeTight(a, b, w / 8, h, c0, c1, u.minY, u.maxY);
    AlignedBox(c0, c1, u);
  }

  lemma HullCorners(a: seq<byte>, b: seq<byte>, w: nat, h: nat, u: Hull) returns (c0: int, c1: int)
    requires HullOf(a, b, w, h, h, 0, u) && u.maxX >= 0
    ensures 0 <= c0 && u.minX == 8 * c0 && u.maxX == 8 * c1 + 7 && u.minX <= u.maxX && u.maxY < h
    ensures ColumnDiffers(a, b, w / 8, h, c0) && ColumnDiffers(a, b, w / 8, h, c1)
    ensures RowDiffers(a, b, w / 8, u.minY) && RowDiffers(a, b, w / 8, u.maxY)
  {
    var stride := w / 8;
    var r0, r1;
    c0, r0 :| SeenDiff(a, b, stride, h, 0, c0, r0) && u.minX == 8 * c0;
    c1, r1 :| SeenDiff(a, b, stride, h, 0, c1, r1) && u.maxX == 8 * c1 + 7;
    var c2, r2 :| SeenDiff(a, b, stride, h, 0, c2, r2) && u.minY == r2;
    var c3, r3 :| SeenDiff(a, b, stride, h, 0, c3, r3) && u.maxY == r3;
  }

  lemma SidesMakeTight(a: seq<byte>, b: seq<byte>, stride: nat, h: nat, c0: int, c1: int, r0: int, r1: int)
    requires ColumnDiffers(a, b, stride, h, c0) && ColumnDiffers(a, b, stride, h, c1)
    requires RowDiffers(a, b, stride, r0) && RowDiffers(a, b, stride, r1) && r1 < h
    requires forall c, y | y < h && Differs(a, b, stride, c, y) :: c0 <= c <= c1 && r0 <= y <= r1
    ensures TightBox(a, b, stride, h, Bbox(8 * c0, r0, 8 * (c1 + 1 - c0), r1 - r0 + 1))
  {
    var bb := Bbox(8 * c0, r0, 8 * (c1 + 1 - c0), r1 - r0 + 1);
    assert bb.x / 8 == c0 && (bb.x + bb.w) / 8 - 1 == c1 && bb.y + bb.h - 1 == r1;
  }

  lemma AlignedBox(c0: int, c1: int, u: Hull)
    requires 0 <= c0 && u.minX == 8 * c0 <= u.maxX == 8 * c1 + 7
    ensures BoxOf(u) == Bbox(8 * c0, u.minY, 8 * (c1 + 1 - c0), u.maxY - u.minY + 1)
  {
  }

  lemma HullHoldsAll(a: seq<byte>, b: seq<byte>, w: nat, h: nat, u: Hull)
    requires HullOf(a, b, w, h, h, 0, u)
    ensures forall c, y | y < h && Differs(a, b, w / 8, c, y) ::
      u.minX <= 8 * c && 8 * c + 7 <= u.maxX && u.minY <= y <= u.maxY
  {
    forall c, y | y < h && Differs(a, b, w / 8, c, y)
      ensures u.minX <= 8 * c && 8 * c + 7 <= u.maxX && u.minY <= y <= u.maxY
    {
      assert SeenDiff(a, b, w / 8, h, 0, c, y);
    }
  }

  lemma NoDifference(a: seq<byte>, b: seq<byte>, stride: nat, h: nat)
    requires |a| == |b| >= stride * h && a[..stride * h] == b[..stride * h]
    ensures forall c, y | y < h :: !Differs(a, b, stride, c, y)
  {
    forall c, y | 0 <= c < stride && 0 <= y < h
      ensures !Differs(a, b, stride, c, y)
    {
      IndexInside(stride, h, c, y);
      assert a[..stride * h][Index(stride, c, y)] == b[..stride * h][Index(stride, c, y)];
    }
  }

  lemma SomeDifference(a: seq<byte>, b: seq<byte>, stride: nat, h: nat) returns (c: nat, y: nat)
    requires |a| == |b| >= stride * h && a[..stride * h] != b[..stride * h]
    ensures y < h && Differs(a, b, stride, c, y)
  {
    var i :| 0 <= i < stride * h && a[i] != b[i];
    c, y := IndexCovers(stride, h, i);
  }

  // No rectangle that holds every difference is smaller: it contains the tight box.
  lemma TightBoxIsSmallest(a: seq<byte>, b: seq<byte>, stride: nat, h: nat, bb: Bbox, other: Bbox)
    requires TightBox(a, b, stride, h, bb)
    requires forall c, y | y < h && Differs(a, b, stride, c, y) :: InBox(other, c, y)
    ensures other.x <= bb.x && bb.x + bb.w <= other.x + other.w
    ensures other.y <= bb.y && bb.y + bb.h <= other.y + other.h
  {
    var y0 :| y0 < h && Differs(a, b, stride, bb.x / 8, y0);
    var y1 :| y1 < h && Differs(a, b, stride, (bb.x + bb.w) / 8 - 1, y1);
    var c0 :| Differs(a, b, stride, c0, bb.y);
    var c1 :| Differs(a, b, stride, c1, bb.y + bb.h - 1);
  }

  // ---------------------------------------------------------------- the decision

  predicate TimeTrigger(now: int, lastLightFull: int, cfg: RefreshConfig) {
    lastLightFull == 0 || now - lastLightFull >= cfg.lightFullEvery
  }

  predicate CapTrigger(partialCount: nat, cfg: RefreshConfig) {
    partialCount >= cfg.partialHardcap
  }

  function Plan(prev: seq<byte>, curr: seq<byte>, prevValid: bool, now: int, lastLightFull: int, partialCount: nat,
                cfg: RefreshConfig, untrusted: bool): RefreshDecision
    requires |prev| == |curr| == cfg.width * cfg.height / 8
  {
    if !prevValid then RefreshDecision(LightFull, NO_BOX)
    else if prev == curr then RefreshDecision(None, NO_BOX)
    else if TimeTrigger(now, lastLightFull, cfg) || CapTrigger(partialCount, cfg) || untrusted
    then RefreshDecision(LightFull, NO_BOX)
    else
      var box := DiffBox(prev, curr, cfg.width, cfg.height);
      RefreshDecision(if Empty(box) then None else Partial, box)
  }

  method PlanRefresh(prev: seq<byte>, curr: seq<byte>, prevValid: bool, now: int, lastLightFull: int, partialCount: nat,
                     cfg: RefreshConfig, untrusted: bool) returns (d: RefreshDecision)
    requires |prev| == |curr| == cfg.width * cfg.height / 8
    ensures d == Plan(prev, curr, prevValid, now, lastLightFull, partialCount, cfg, untrusted)
  {
    d := RefreshDecision(None, NO_BOX);
    if !prevValid {
      return d.(kind := LightFull);
    }
    if prev == curr {
      return d;
    }
    var timeTrigger := lastLightFull == 0 || now - lastLightFull >= cfg.lightFullEvery;
    var capTrigger := partialCount >= cfg.partialHardcap;
    if timeTrigger || capTrigger || untrusted {
      return d.(kind := LightFull);
    }
    RowsFit(cfg.width, cfg.height);
    var box := DiffBbox(prev, curr, cfg.width, cfg.height);
    d := RefreshDecision(Partial, box);
    if Empty(box) {
      d := d.(kind := None);
    }
  }

  lemma RowsFit(w: nat, h: nat)
    ensures w / 8 * h <= w * h / 8
    ensures w % 8 == 0 ==> w / 8 * h == w * h / 8
  {
    assert 8 * (w / 8 * h) == 8 * (w / 8) * h;
    assert 8 * (w / 8) * h <= w * h;
    assert w % 8 == 0 ==> 8 * (w / 8) * h == w * h;
  }

  // ---------------------------------------------------------------- when nothing is drawn

  // A frame that really changed is left alone exactly when all the changes lie past the
  // last whole column of bytes, where the box of differences does not look.
  predicate MissedByBox(prev: seq<byte>, curr: seq<byte>, cfg: RefreshConfig)
    requires |prev| == |curr| == cfg.width * cfg.height / 8
  {
    RowsFit(cfg.width, cfg.height);
    prev != curr && prev[..cfg.width / 8 * cfg.height] == curr[..cfg.width / 8 * cfg.height]
  }

  predicate MustBeFull(now: int, lastLightFull: int, partialCount: nat, cfg: RefreshConfig, untrusted: bool) {
    TimeTrigger(now, lastLightFull, cfg) || CapTrigger(partialCount, cfg) || untrusted
  }

  lemma PlanMeaning(prev: seq<byte>, curr: seq<byte>, prevValid: bool, now: int, lastLightFull: int, partialCount: nat,
                    cfg: RefreshConfig, untrusted: bool)
    requires |prev| == |curr| == cfg.width * cfg.height / 8
    ensures var d := Plan(prev, curr, prevValid, now, lastLightFull, partialCount, cfg, untrusted);
      var full := MustBeFull(now, lastLightFull, partialCount, cfg, untrusted);
      && d.kind != DeepClean
      && (d.kind == None <==> prevValid && (prev == curr || (!full && MissedByBox(prev, curr, cfg))))
      && (d.kind == Partial <==> prevValid && prev != curr && !full && !MissedByBox(prev, curr, cfg))
      && (d.kind == Partial ==> TightBox(prev, curr, cfg.width / 8, cfg.height, d.bbox))
  {
    RowsFit(cfg.width, cfg.height);
    DiffBoxIsTight(prev, curr, cfg.width, cfg.height);
  }

  // Whole columns miss nothing, so on such a panel the empty-box fallback is dead code.
  lemma WholeBytesMissNothing(prev: seq<byte>, curr: seq<byte>, cfg: RefreshConfig)
    requires |prev| == |curr| == cfg.width * cfg.height / 8 && cfg.width % 8 == 0
    ensures !MissedByBox(prev, curr, cfg)
  {
    RowsFit(cfg.width, cfg.height);
    assert prev[..|prev|] == prev && curr[..|curr|] == curr;
  }

  // On a panel 12 pixels wide a change in the third byte is never drawn.
  lemma RaggedPanelMissesAChange()
    ensures var cfg := RefreshConfig(12, 2, 3600, 15);
      Plan([0, 0, 0], [0, 0, 1], true, 10, 5, 0, cfg, false).kind == None
  {
    var cfg := RefreshConfig(12, 2, 3600, 15);
    var prev: seq<byte>, curr: seq<byte> := [0, 0, 0], [0, 0, 1];
    assert prev[..2] == curr[..2];
    PlanMeaning(prev, curr, true, 10, 5, 0, cfg, false);
  }
}
