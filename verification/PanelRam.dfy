/** The panel writes of every cycle, in order, and the panel as a device with RAM of its own:
    until its whole RAM has been written after power-up, a window write leaves whatever was
    there outside the window (the comment at src/logic/refresh_planner.cpp:63-65). */
module PanelRam {
  import opened Wrappers
  import opened Meta
  import opened Display
  import opened Store
  import opened Push
  import opened Cycle
  import opened GlassRuns
  import opened Overlay
  import Rescue

  datatype Write = Write(cover: Cover, fb: Frame)

  function Whole(fb: Frame): Write {
    Write(Everything, fb)
  }

  function Paint(g: Picture, w: Write): Picture {
    match w.cover
    case Nothing => g
    case Part(b) => Windowed(g, w.fb, b)
    case Everything => Glass(w.fb)
  }

  function PaintAll(g: Picture, ws: seq<Write>): Picture
    decreases |ws|
  {
    if ws == [] then g else PaintAll(Paint(g, ws[0]), ws[1..])
  }

  lemma {:induction false} PaintBoth(g: Picture, u: seq<Write>, v: seq<Write>)
    ensures PaintAll(g, u + v) == PaintAll(PaintAll(g, u), v)
    decreases |u|
  {
    hide Paint;
    if u == [] {
      assert u + v == v;
    } else {
      PaintBoth(Paint(g, u[0]), u[1..], v);
      assert (u + v)[1..] == u[1..] + v;
    }
  }

  lemma PaintOne(g: Picture, w: Write)
    ensures PaintAll(g, [w]) == Paint(g, w)
  {
    hide Paint;
    assert [w][1..] == [];
  }

  // The first write that draws anything.
  function FirstWrite(ws: seq<Write>): Cover {
    if ws == [] then Nothing else if ws[0].cover != Nothing then ws[0].cover else FirstWrite(ws[1..])
  }

  lemma {:induction false} FirstOfBoth(u: seq<Write>, v: seq<Write>)
    ensures FirstWrite(u + v) == if FirstWrite(u) == Nothing then FirstWrite(v) else FirstWrite(u)
  {
    if u == [] {
      assert u + v == v;
    } else {
      FirstOfBoth(u[1..], v);
      assert (u + v)[1..] == u[1..] + v;
    }
  }

  lemma FirstOfOne(w: Write)
    ensures FirstWrite([w]) == w.cover
  {
    assert [w][1..] == [];
  }

  // ---------------------------------------------------------------- the writes of a cycle

  function PushWrite(d: Dev, i: PushIn, stamp: Stamp): Write {
    Write(PushCover(d, i, stamp), FinalFrame(d, i, stamp))
  }

  function UpdateWrites(cfg: CycleConfig, d: Dev, w: WarmIn, force: bool, deepWake: bool, stamp: Stamp): seq<Write> {
    if Nightly(cfg, d.ram, w) then [Whole(stamp(WarmBoard(d.ram, w, w.now), w.now))]
    else if PushesBoard(d.ram, w, force) then [PushWrite(d, WarmPush(d.ram, w, force, deepWake), stamp)]
    else []
  }

  function RescueWrites(cfg: CycleConfig, d: Dev, w: WarmIn, deepWake: bool, stamp: Stamp): seq<Write> {
    if Rescue.Rescued(TraceOf(cfg, w.rescue))
    then [PushWrite(Attempted(cfg, d, w), ExtraPush(cfg, d, w, deepWake), stamp)]
    else []
  }

  function FinishWrites(cfg: CycleConfig, d: Dev, w: WarmIn, force: bool, deepWake: bool, stamp: Stamp): seq<Write> {
    UpdateWrites(cfg, d, w, force, deepWake, stamp)
    + if TriesRescue(cfg, d.ram, w) then RescueWrites(cfg, Updated(cfg, d, w, force, deepWake, stamp), w, deepWake, stamp) else []
  }

  function WarmWrites(cfg: CycleConfig, d: Dev, w: WarmIn, force: bool, deepWake: bool, stamp: Stamp): seq<Write> {
    if !w.connected then
      if w.authFailed then [Whole(w.authScreen)]
      else if SelectScreen(d.ram, false, w.downNow) == OfflineScreen then [PushWrite(d, DownPush(w, force, deepWake), stamp)]
      else []
    else if !ClockUsable(cfg, d.ram, w.clock) then []
    else FinishWrites(cfg, Ready(cfg, d, w), w, force, deepWake, stamp)
  }

  function ColdWrites(cfg: CycleConfig, m: PersistedMeta, c: ColdIn, stamp: Stamp): seq<Write> {
    (if ShowsBootScreen(m) then [Whole(c.bootScreen)] else [])
    + (if Boots(cfg, m, c) then (if cfg.bootInfoShow > 0 then [Whole(c.check)] else []) + [Whole(ColdShown(m, c, stamp))]
       else if c.authFailed || Repaints(cfg, m) then [Whole(c.errorScreen)]
       else [])
  }

  function PageWrites(page: Frame, pages: seq<Frame>): seq<Write>
    decreases |pages|
  {
    [Whole(page)] + if pages == [] then [] else PageWrites(pages[0], pages[1..])
  }

  function PressWrites(d: Dev, p: Press, b: ButtonIn): seq<Write> {
    match p
    case Long => [Whole(if HavePrev(d) then SlotFrame(d.rtc.slot) else b.blank)]
    case Double => PageWrites(b.page, b.pages)
    case Short => []
  }

  function NoticeWrites(cfg: CycleConfig, s: SetupIn): seq<Write> {
    if s.reset.Some? && cfg.brownoutShow > 0 then [Whole(s.reset.value)] else []
  }

  function RoutedWrites(cfg: CycleConfig, a: Dev, s: SetupIn, stamp: Stamp): seq<Write> {
    match KindOf(a, s)
    case ColdKind => ColdWrites(cfg, a.ram, s.cold, stamp)
    case WarmKind => WarmWrites(cfg, a, s.warm, false, true, stamp)
    case ButtonKind =>
      PressWrites(a, s.press, s.button) + WarmWrites(cfg, PressHandled(a, s.press, s.button), s.warm, true, true, stamp)
  }

  function SetupWrites(cfg: CycleConfig, d: Dev, s: SetupIn, stamp: Stamp): seq<Write> {
    NoticeWrites(cfg, s) + RoutedWrites(cfg, Overlaid(cfg, Awake(d), s), s, stamp)
  }

  function PollWrites(cfg: CycleConfig, d: Dev, p: PollIn, stamp: Stamp): seq<Write> {
    if p.press.Some? then
      PressWrites(Awake(d), p.press.value, p.button)
      + WarmWrites(cfg, PressHandled(Awake(d), p.press.value, p.button), p.warm, true, false, stamp)
    else WarmWrites(cfg, Awake(d), p.warm, false, false, stamp)
  }

  function EventWrites(cfg: CycleConfig, d: Dev, e: Event, stamp: Stamp): seq<Write> {
    match e
    case Setup(s) => SetupWrites(cfg, d, s, stamp)
    case Poll(p) => PollWrites(cfg, d, p, stamp)
    case PowerLoss => []
  }

  // ---------------------------------------------------------------- they are the glass

  lemma PushPaints(d: Dev, i: PushIn, stamp: Stamp)
    ensures Paint(d.glass, PushWrite(d, i, stamp)) == Pushed(d, i, stamp).glass
  {
    hide FinalFrame, Decision, Glass, Windowed;
  }

  lemma FinishPaints(cfg: CycleConfig, d: Dev, w: WarmIn, force: bool, deepWake: bool, stamp: Stamp)
    ensures PaintAll(d.glass, FinishWrites(cfg, d, w, force, deepWake, stamp)) ==
      WarmFinished(cfg, d, w, force, deepWake, stamp).glass
  {
    hide Paint, Updated, RescueEnd, UpdateWrites, RescueWrites, TriesRescue, LastPlan, LastNow;
    var d1 := Updated(cfg, d, w, force, deepWake, stamp);
    UpdatePaints(cfg, d, w, force, deepWake, stamp);
    RescuePaints(cfg, d1, w, deepWake, stamp);
    var rest := if TriesRescue(cfg, d.ram, w) then RescueWrites(cfg, d1, w, deepWake, stamp) else [];
    PaintBoth(d.glass, UpdateWrites(cfg, d, w, force, deepWake, stamp), rest);
  }

  lemma UpdatePaints(cfg: CycleConfig, d: Dev, w: WarmIn, force: bool, deepWake: bool, stamp: Stamp)
    ensures PaintAll(d.glass, UpdateWrites(cfg, d, w, force, deepWake, stamp)) == Updated(cfg, d, w, force, deepWake, stamp).glass
  {
    hide Nightly, WarmBoard, Pushed, PushWrite, ApiOk;
    PushPaints(d, WarmPush(d.ram, w, force, deepWake), stamp);
    PaintOne(d.glass, PushWrite(d, WarmPush(d.ram, w, force, deepWake), stamp));
    PaintOne(d.glass, Whole(stamp(WarmBoard(d.ram, w, w.now), w.now)));
  }

  lemma RescuePaints(cfg: CycleConfig, d: Dev, w: WarmIn, deepWake: bool, stamp: Stamp)
    ensures PaintAll(d.glass, RescueWrites(cfg, d, w, deepWake, stamp)) ==
      RescueEnd(cfg, d, w.rescue, w.schedule, deepWake, stamp).glass
  {
    hide TraceOf, AfterAttempts, RescuePush, Pushed, PushWrite, Paint;
    var a, i := Attempted(cfg, d, w), ExtraPush(cfg, d, w, deepWake);
    PushPaints(a, i, stamp);
    PaintOne(d.glass, PushWrite(a, i, stamp));
  }

  lemma WarmPaints(cfg: CycleConfig, d: Dev, w: WarmIn, force: bool, deepWake: bool, stamp: Stamp)
    ensures PaintAll(d.glass, WarmWrites(cfg, d, w, force, deepWake, stamp)) == WarmCycle(cfg, d, w, force, deepWake, stamp).glass
  {
    hide WarmFinished, FinishWrites, Pushed, PushWrite, Fetched;
    if !w.connected {
      PushPaints(d, DownPush(w, force, deepWake), stamp);
      PaintOne(d.glass, PushWrite(d, DownPush(w, force, deepWake), stamp));
      PaintOne(d.glass, Whole(w.authScreen));
    } else if ClockUsable(cfg, d.ram, w.clock) {
      FinishPaints(cfg, Ready(cfg, d, w), w, force, deepWake, stamp);
    }
  }

  // Whole writes in a row leave the last one.
  lemma WholeAfter(g: Picture, ws: seq<Write>, fb: Frame)
    ensures PaintAll(g, ws + [Whole(fb)]) == Glass(fb)
  {
    PaintBoth(g, ws, [Whole(fb)]);
    PaintOne(PaintAll(g, ws), Whole(fb));
  }

  lemma ColdPaints(cfg: CycleConfig, d: Dev, c: ColdIn, stamp: Stamp)
    ensures PaintAll(d.glass, ColdWrites(cfg, d.ram, c, stamp)) == ColdCycle(cfg, d, c, stamp).glass
  {
    hide ColdCycle, ColdShown, Boots, Paint, Fetched, Glass;
    ColdShows(cfg, d, c, stamp);
    var boot := if ShowsBootScreen(d.ram) then [Whole(c.bootScreen)] else [];
    var check := if cfg.bootInfoShow > 0 then [Whole(c.check)] else [];
    if Boots(cfg, d.ram, c) {
      assert ColdWrites(cfg, d.ram, c, stamp) == boot + check + [Whole(ColdShown(d.ram, c, stamp))];
      WholeAfter(d.glass, boot + check, ColdShown(d.ram, c, stamp));
    } else if c.authFailed || Repaints(cfg, d.ram) {
      WholeAfter(d.glass, boot, c.errorScreen);
    } else if ShowsBootScreen(d.ram) {
      assert boot + [] == [] + [Whole(c.bootScreen)];
      WholeAfter(d.glass, [], c.bootScreen);
    } else {
      assert boot + [] == [];
    }
  }

  lemma {:induction false} PagePaints(g: Picture, page: Frame, pages: seq<Frame>)
    ensures PaintAll(g, PageWrites(page, pages)) == Glass(if pages == [] then page else pages[|pages| - 1])
    decreases |pages|
  {
    hide Glass, PaintAll;
    if pages == [] {
      assert PageWrites(page, pages) == [Whole(page)];
      PaintOne(g, Whole(page));
    } else {
      var rest := PageWrites(pages[0], pages[1..]);
      assert PageWrites(page, pages) == [Whole(page)] + rest;
      hide PageWrites;
      PaintBoth(g, [Whole(page)], rest);
      PaintOne(g, Whole(page));
      PagePaints(Glass(page), pages[0], pages[1..]);
    }
  }

  lemma PressPaints(d: Dev, p: Press, b: ButtonIn)
    ensures PaintAll(d.glass, PressWrites(d, p, b)) == PressHandled(d, p, b).glass
  {
    hide Glass, Fetched, HoldsFrame, SlotFrame, HavePrev;
    PagePaints(d.glass, b.page, b.pages);
    if p == Long {
      PaintOne(d.glass, PressWrites(d, p, b)[0]);
    }
  }

  // Every event's writes, painted in order, are the glass it leaves.
  lemma EventPaints(cfg: CycleConfig, d: Dev, e: Event, stamp: Stamp)
    ensures PaintAll(d.glass, EventWrites(cfg, d, e, stamp)) == Step(cfg, d, e, stamp).glass
  {
    hide WarmWrites, WarmCycle, ColdWrites, ColdCycle, PressWrites, PressHandled, Glass, PaintAll;
    match e {
      case PowerLoss => PaintNone(d.glass);
      case Setup(s) =>
        PaintNone(d.glass);
        var a := Overlaid(cfg, Awake(d), s);
        if s.reset.Some? {
          PaintOne(d.glass, Whole(s.reset.value));
        }
        PaintBoth(d.glass, NoticeWrites(cfg, s), RoutedWrites(cfg, a, s, stamp));
        RoutedPaints(cfg, a, s, stamp);
      case Poll(p) =>
        if p.press.Some? {
          var b := PressHandled(Awake(d), p.press.value, p.button);
          PressPaints(Awake(d), p.press.value, p.button);
          WarmPaints(cfg, b, p.warm, true, false, stamp);
          PaintBoth(d.glass, PressWrites(Awake(d), p.press.value, p.button), WarmWrites(cfg, b, p.warm, true, false, stamp));
        } else {
          WarmPaints(cfg, Awake(d), p.warm, false, false, stamp);
        }
    }
  }

  lemma PaintNone(g: Picture)
    ensures PaintAll(g, []) == g
  {
  }

  lemma RoutedPaints(cfg: CycleConfig, a: Dev, s: SetupIn, stamp: Stamp)
    ensures PaintAll(a.glass, RoutedWrites(cfg, a, s, stamp)) ==
      match KindOf(a, s)
      case ColdKind => ColdCycle(cfg, a, s.cold, stamp).glass
      case WarmKind => WarmCycle(cfg, a, s.warm, false, true, stamp).glass
      case ButtonKind => WarmCycle(cfg, PressHandled(a, s.press, s.button), s.warm, true, true, stamp).glass
  {
    hide WarmWrites, WarmCycle, ColdWrites, ColdCycle, PressWrites, PressHandled, PaintAll;
    match KindOf(a, s) {
      case ColdKind => ColdPaints(cfg, a, s.cold, stamp);
      case WarmKind => WarmPaints(cfg, a, s.warm, false, true, stamp);
      case ButtonKind =>
        var b := PressHandled(a, s.press, s.button);
        PressPaints(a, s.press, s.button);
        WarmPaints(cfg, b, s.warm, true, true, stamp);
        PaintBoth(a.glass, PressWrites(a, s.press, s.button), WarmWrites(cfg, b, s.warm, true, true, stamp));
    }
  }

  // ---------------------------------------------------------------- the panel with its RAM

  // `trusted` once the whole RAM has been written since power-up.
  datatype PanelState = PanelState(glass: Picture, trusted: bool)

  // A window on untrusted RAM brings up `noise` around it.
  function RealPaint(p: PanelState, w: Write, noise: Picture): PanelState {
    match w.cover
    case Nothing => p
    case Part(b) => p.(glass := Windowed(if p.trusted then p.glass else noise, w.fb, b))
    case Everything => PanelState(Glass(w.fb), true)
  }

  function RealAll(p: PanelState, ws: seq<Write>, noise: Picture): PanelState
    decreases |ws|
  {
    if ws == [] then p else RealAll(RealPaint(p, ws[0], noise), ws[1..], noise)
  }

  // A list of writes that starts with a window on untrusted RAM.
  predicate Blind(trusted: bool, ws: seq<Write>) {
    !trusted && FirstWrite(ws).Part?
  }

  lemma {:induction false} RealIsPaint(p: PanelState, ws: seq<Write>, noise: Picture)
    requires !Blind(p.trusted, ws)
    ensures RealAll(p, ws, noise) == PanelState(PaintAll(p.glass, ws), p.trusted || FirstWrite(ws) == Everything)
    decreases |ws|
  {
    hide Glass, Windowed;
    if ws != [] {
      RealIsPaint(RealPaint(p, ws[0], noise), ws[1..], noise);
    }
  }

  // The panel loses its RAM with every deep sleep and reset; polls keep it.
  function RealStep(cfg: CycleConfig, d: Dev, e: Event, p: PanelState, noise: Picture, stamp: Stamp): PanelState {
    RealAll(p.(trusted := p.trusted && e.Poll?), EventWrites(cfg, d, e, stamp), noise)
  }

  function RealRun(cfg: CycleConfig, d: Dev, es: seq<Event>, noise: Picture, stamp: Stamp): PanelState {
    if es == [] then PanelState(d.glass, false)
    else
      var before := es[..|es| - 1];
      RealStep(cfg, Run(cfg, d, before, stamp), es[|es| - 1], RealRun(cfg, d, before, noise, stamp), noise, stamp)
  }

  // Event i starts with a window on RAM nobody has written since power-up.
  predicate BlindAt(cfg: CycleConfig, d: Dev, es: seq<Event>, i: nat, noise: Picture, stamp: Stamp)
    requires i < |es|
  {
    Blind(es[i].Poll? && RealRun(cfg, d, es[..i], noise, stamp).trusted, EventWrites(cfg, Run(cfg, d, es[..i], stamp), es[i], stamp))
  }

  // Without such windows the real panel shows what the model says, over every run.
  lemma {:induction false} RealGlassIsGlass(cfg: CycleConfig, d: Dev, es: seq<Event>, noise: Picture, stamp: Stamp)
    requires forall i: nat | i < |es| :: !BlindAt(cfg, d, es, i, noise, stamp)
    ensures RealRun(cfg, d, es, noise, stamp).glass == Run(cfg, d, es, stamp).glass
  {
    hide Step, EventWrites, RealAll;
    if es != [] {
      var n := |es| - 1;
      var before, e := es[..n], es[n];
      forall i: nat | i < n
        ensures !BlindAt(cfg, d, before, i, noise, stamp)
      {
        assert before[..i] == es[..i];
        assert !BlindAt(cfg, d, es, i, noise, stamp);
      }
      RealGlassIsGlass(cfg, d, before, noise, stamp);
      var a, p := Run(cfg, d, before, stamp), RealRun(cfg, d, before, noise, stamp);
      assert !BlindAt(cfg, d, es, n, noise, stamp);
      RealIsPaint(p.(trusted := p.trusted && e.Poll?), EventWrites(cfg, a, e, stamp), noise);
      EventPaints(cfg, a, e, stamp);
    }
  }

  // So without overlays and without such windows the real panel shows exactly the last
  // screen the firmware decided on.
  lemma RealGlassShowsLastScreen(cfg: CycleConfig, d: Dev, es: seq<Event>, noise: Picture, stamp: Stamp)
    requires Mirrors(d) && NoOverlays(cfg, es)
    requires forall i: nat | i < |es| :: !BlindAt(cfg, d, es, i, noise, stamp)
    ensures RealRun(cfg, d, es, noise, stamp).glass == Seen(LastScreen(cfg, d, es, stamp), d.glass)
  {
    hide RealRun, Run, LastScreen, BlindAt;
    RealGlassIsGlass(cfg, d, es, noise, stamp);
    GlassShowsLastScreen(cfg, d, es, stamp);
  }

  // With one, the noise shows.
  lemma BlindWindowShowsNoise(p: PanelState, w: Write, noise: Picture, x: int, y: int)
    requires !p.trusted && w.cover.Part? && OnPanel(x, y) && !Covers(w.cover, x, y)
    ensures RealAll(p, [w], noise).glass[At(x, y)] == noise[At(x, y)]
  {
    assert [w][1..] == [];
    WindowedAt(noise, w.fb, w.cover.box, x, y);
  }
}
