/** What exactly the two overlays (reset notice, diagnostic pages) cost. They paint the glass
    while the stored frame stays valid, so a later cycle may find nothing to draw. A pixel
    of the overlay survives a cycle exactly if none of its panel writes covers it. */
module Overlay {
  import opened Display
  import opened Store
  import opened Push
  import opened Cycle
  import opened GlassRuns
  import opened Wrappers
  import Planner
  import Rescue

  // Painting f over the glass keeps the mirror exactly if no stored frame counts, or the
  // overlay happens to be the stored frame.
  lemma OverlayKeepsMirrorIff(d: Dev, f: Frame)
    ensures Mirrors(d.(glass := Glass(f))) <==>
      !((d.ram.framebufferValid || Live(d.rtc)) && HoldsFrame(d.rtc.slot)) || SlotFrame(d.rtc.slot) == f
  {
    if HoldsFrame(d.rtc.slot) && Glass(f) == Glass(SlotFrame(d.rtc.slot)) {
      GlassIsFaithful(f, SlotFrame(d.rtc.slot));
    }
  }

  // ---------------------------------------------------------------- what a push covers

  datatype Cover = Nothing | Part(box: Planner.Bbox) | Everything

  predicate Covers(c: Cover, x: int, y: int) {
    match c
    case Nothing => false
    case Part(b) => InWindow(b, x, y)
    case Everything => true
  }

  function PushCover(d: Dev, i: PushIn, stamp: Stamp): Cover {
    var dec := Decision(d, i, stamp);
    match dec.kind
    case None => Nothing
    case Partial => if Planner.Empty(dec.bbox) then Nothing else Part(dec.bbox)
    case LightFull => Everything
    case DeepClean => Everything
  }

  lemma PushedPixel(d: Dev, i: PushIn, stamp: Stamp, x: int, y: int)
    requires OnPanel(x, y)
    ensures Pushed(d, i, stamp).glass[At(x, y)] ==
      if Covers(PushCover(d, i, stamp), x, y) then White(FinalFrame(d, i, stamp), x, y) else d.glass[At(x, y)]
  {
    hide FinalFrame, Decision, White;
    var fb, dec := FinalFrame(d, i, stamp), Decision(d, i, stamp);
    GlassAt(fb, x, y);
    WindowedAt(d.glass, fb, dec.bbox, x, y);
  }

  // What a push leaves out is what the stored frame already had.
  lemma UncoveredIsStored(d: Dev, i: PushIn, stamp: Stamp, x: int, y: int)
    requires OnPanel(x, y) && !Covers(PushCover(d, i, stamp), x, y)
    ensures HavePrev(d) && White(SlotFrame(d.rtc.slot), x, y) == White(FinalFrame(d, i, stamp), x, y)
  {
    hide FinalFrame, White, SlotFrame, HoldsFrame;
    var fb := FinalFrame(d, i, stamp);
    NoneIffUnchanged(d, fb, i);
    if Decision(d, i, stamp).kind == Planner.Partial {
      var prev := SlotFrame(d.rtc.slot);
      PartialIsEnough(prev, fb);
      WindowedAt(Glass(prev), fb, Decision(d, i, stamp).bbox, x, y);
      GlassAt(prev, x, y);
      GlassAt(fb, x, y);
    }
  }

  // After a deep-sleep wake a push draws everything or nothing.
  predicate Redraws(d: Dev, i: PushIn, stamp: Stamp) {
    !(HavePrev(d) && SlotFrame(d.rtc.slot) == FinalFrame(d, i, stamp))
  }

  lemma WakePushCover(d: Dev, i: PushIn, stamp: Stamp)
    requires i.deepWake
    ensures PushCover(d, i, stamp) == if Redraws(d, i, stamp) then Everything else Nothing
  {
    hide FinalFrame, SlotFrame, HoldsFrame;
    NoneIffUnchanged(d, FinalFrame(d, i, stamp), i);
  }

  // So a push brings its frame up over an overlay f, decision by decision: a full one
  // always, a partial one if f agrees outside the window, and none only if f is the frame.
  ghost predicate AgreeOutside(f: Frame, curr: Frame, c: Cover) {
    forall x, y | OnPanel(x, y) && !Covers(c, x, y) :: White(f, x, y) == White(curr, x, y)
  }

  lemma PushOverOverlay(d: Dev, f: Frame, i: PushIn, stamp: Stamp)
    requires d.glass == Glass(f)
    ensures var curr, c := FinalFrame(d, i, stamp), PushCover(d, i, stamp);
      && (Pushed(d, i, stamp).glass == Glass(curr) <==> AgreeOutside(f, curr, c))
      && (c == Everything ==> AgreeOutside(f, curr, c))
      && (c == Nothing ==> (AgreeOutside(f, curr, c) <==> f == curr))
  {
    hide Pushed, PushCover, FinalFrame, White, Glass;
    var g, curr, c := Pushed(d, i, stamp).glass, FinalFrame(d, i, stamp), PushCover(d, i, stamp);
    forall x, y | OnPanel(x, y)
      ensures g[At(x, y)] == if Covers(c, x, y) then White(curr, x, y) else White(f, x, y)
      ensures Glass(f)[At(x, y)] == White(f, x, y)
    {
      PushedPixel(d, i, stamp, x, y);
      GlassAt(f, x, y);
    }
    GlassIffPixels(g, curr);
    GlassIffPixels(Glass(f), curr);
    FramesDiffer(f, curr);
  }

  // ---------------------------------------------------------------- what a warm cycle covers

  function UpdateCover(cfg: CycleConfig, d: Dev, w: WarmIn, force: bool, deepWake: bool, stamp: Stamp): Cover {
    if Nightly(cfg, d.ram, w) then Everything
    else if PushesBoard(d.ram, w, force) then PushCover(d, WarmPush(d.ram, w, force, deepWake), stamp)
    else Nothing
  }

  // The device as the rescue's push finds it.
  function Attempted(cfg: CycleConfig, d: Dev, w: WarmIn): Dev {
    d.(ram := AfterAttempts(d.ram, w.rescue, Rescue.Fetches(TraceOf(cfg, w.rescue))))
  }

  function ExtraPush(cfg: CycleConfig, d: Dev, w: WarmIn, deepWake: bool): PushIn {
    RescuePush(Attempted(cfg, d, w).ram, w.rescue, Rescue.Fetches(TraceOf(cfg, w.rescue)), w.schedule, deepWake)
  }

  function RescueCover(cfg: CycleConfig, d: Dev, w: WarmIn, deepWake: bool, stamp: Stamp): Cover {
    if Rescue.Rescued(TraceOf(cfg, w.rescue))
    then PushCover(Attempted(cfg, d, w), ExtraPush(cfg, d, w, deepWake), stamp)
    else Nothing
  }

  predicate FinishCovers(cfg: CycleConfig, d: Dev, w: WarmIn, force: bool, deepWake: bool, stamp: Stamp, x: int, y: int) {
    || Covers(UpdateCover(cfg, d, w, force, deepWake, stamp), x, y)
    || (TriesRescue(cfg, d.ram, w) &&
        Covers(RescueCover(cfg, Updated(cfg, d, w, force, deepWake, stamp), w, deepWake, stamp), x, y))
  }

  predicate WarmCovers(cfg: CycleConfig, d: Dev, w: WarmIn, force: bool, deepWake: bool, stamp: Stamp, x: int, y: int) {
    if !w.connected then
      || w.authFailed
      || (SelectScreen(d.ram, false, w.downNow) == OfflineScreen && Covers(PushCover(d, DownPush(w, force, deepWake), stamp), x, y))
    else if !ClockUsable(cfg, d.ram, w.clock) then false
    else FinishCovers(cfg, Ready(cfg, d, w), w, force, deepWake, stamp, x, y)
  }

  // The device after the clock check and the fetch.
  function Ready(cfg: CycleConfig, d: Dev, w: WarmIn): Dev
    requires ClockUsable(cfg, d.ram, w.clock)
  {
    d.(ram := Fetched(ClockFixed(cfg, d.ram, w.clock), w.fetch))
  }

  // ---------------------------------------------------------------- every pixel of the glass

  lemma UpdatePixel(cfg: CycleConfig, d: Dev, w: WarmIn, force: bool, deepWake: bool, stamp: Stamp, x: int, y: int)
    requires OnPanel(x, y)
    ensures var a, s, c := Updated(cfg, d, w, force, deepWake, stamp), UpdateScreen(cfg, d, w, force, deepWake, stamp),
                           UpdateCover(cfg, d, w, force, deepWake, stamp);
      && (Covers(c, x, y) ==> s.Some?)
      && a.glass[At(x, y)] == (if Covers(c, x, y) then White(s.value, x, y) else d.glass[At(x, y)])
      && (s.Some? && HoldsFrame(a.rtc.slot) ==> SlotFrame(a.rtc.slot) == s.value)
      && (s.None? ==> a == d)
  {
    hide Nightly, WarmBoard, FinalFrame, Decision, White, HoldsFrame, SlotFrame, PushCover;
    if Nightly(cfg, d.ram, w) {
      var fb := stamp(WarmBoard(d.ram, w, w.now), w.now);
      GlassAt(fb, x, y);
      SaveThenLoad(d.rtc, fb);
    } else if PushesBoard(d.ram, w, force) {
      var i := WarmPush(d.ram, w, force, deepWake);
      PushedPixel(d, i, stamp, x, y);
      SaveThenLoad(d.rtc, FinalFrame(d, i, stamp));
    }
  }

  lemma RescuePixel(cfg: CycleConfig, d: Dev, w: WarmIn, deepWake: bool, stamp: Stamp, x: int, y: int)
    requires OnPanel(x, y)
    ensures var g, s := RescueEnd(cfg, d, w.rescue, w.schedule, deepWake, stamp).glass, RescueScreen(cfg, d, w, deepWake, stamp);
      var covered := Covers(RescueCover(cfg, d, w, deepWake, stamp), x, y);
      && (covered ==> s.Some?)
      && g[At(x, y)] == (if covered then White(s.value, x, y) else d.glass[At(x, y)])
      && (s.Some? && !covered ==> HoldsFrame(d.rtc.slot) && White(SlotFrame(d.rtc.slot), x, y) == White(s.value, x, y))
  {
    hide TraceOf, AfterAttempts, RescuePush, PushCover, FinalFrame, Decision, White, HoldsFrame, SlotFrame;
    if Rescue.Rescued(TraceOf(cfg, w.rescue)) {
      var a, i := Attempted(cfg, d, w), ExtraPush(cfg, d, w, deepWake);
      PushedPixel(a, i, stamp, x, y);
      if !Covers(PushCover(a, i, stamp), x, y) {
        UncoveredIsStored(a, i, stamp, x, y);
      }
    }
  }

  lemma FinishPixel(cfg: CycleConfig, d: Dev, w: WarmIn, force: bool, deepWake: bool, stamp: Stamp, x: int, y: int)
    requires OnPanel(x, y)
    ensures var g, s := WarmFinished(cfg, d, w, force, deepWake, stamp).glass, FinishScreen(cfg, d, w, force, deepWake, stamp);
      var covered := FinishCovers(cfg, d, w, force, deepWake, stamp, x, y);
      && (covered ==> s.Some?)
      && g[At(x, y)] == if covered then White(s.value, x, y) else d.glass[At(x, y)]
  {
    hide Updated, UpdateScreen, UpdateCover, TriesRescue, RescueEnd, RescueScreen, RescueCover, White, HoldsFrame, SlotFrame,
         LastPlan, LastNow;
    UpdatePixel(cfg, d, w, force, deepWake, stamp, x, y);
    RescuePixel(cfg, Updated(cfg, d, w, force, deepWake, stamp), w, deepWake, stamp, x, y);
  }

  // The glass after any warm cycle, over whatever it showed before.
  lemma WarmPixel(cfg: CycleConfig, d: Dev, w: WarmIn, force: bool, deepWake: bool, stamp: Stamp, x: int, y: int)
    requires OnPanel(x, y)
    ensures var g, s := WarmCycle(cfg, d, w, force, deepWake, stamp).glass, WarmScreen(cfg, d, w, force, deepWake, stamp);
      var covered := WarmCovers(cfg, d, w, force, deepWake, stamp, x, y);
      && (covered ==> s.Some?)
      && g[At(x, y)] == if covered then White(s.value, x, y) else d.glass[At(x, y)]
  {
    hide WarmFinished, FinishScreen, FinishCovers, Fetched, PushCover, FinalFrame, Decision, White;
    if !w.connected {
      PushedPixel(d, DownPush(w, force, deepWake), stamp, x, y);
      GlassAt(w.authScreen, x, y);
    } else if ClockUsable(cfg, d.ram, w.clock) {
      FinishPixel(cfg, Ready(cfg, d, w), w, force, deepWake, stamp, x, y);
    }
  }

  // ---------------------------------------------------------------- overlay outcomes

  // The overlay agrees with the screen wherever the cycle wrote nothing.
  ghost predicate AgreeUncovered(cfg: CycleConfig, d: Dev, w: WarmIn, force: bool, deepWake: bool, stamp: Stamp,
                                 f: Frame, screen: Frame) {
    forall x, y | OnPanel(x, y) && !WarmCovers(cfg, d, w, force, deepWake, stamp, x, y) :: White(f, x, y) == White(screen, x, y)
  }

  // For every branch of every warm cycle over an overlay: it shows its screen exactly if the
  // overlay agrees with it on the uncovered pixels, and without a screen the overlay stays.
  lemma OverlayOutcome(cfg: CycleConfig, d: Dev, w: WarmIn, force: bool, deepWake: bool, stamp: Stamp, f: Frame)
    requires d.glass == Glass(f)
    ensures var g, s := WarmCycle(cfg, d, w, force, deepWake, stamp).glass, WarmScreen(cfg, d, w, force, deepWake, stamp);
      && (s.None? ==> g == Glass(f))
      && (s.Some? ==> (g == Glass(s.value) <==> AgreeUncovered(cfg, d, w, force, deepWake, stamp, f, s.value)))
  {
    hide WarmCycle, WarmScreen, WarmCovers, White, Glass;
    var g, s := WarmCycle(cfg, d, w, force, deepWake, stamp).glass, WarmScreen(cfg, d, w, force, deepWake, stamp);
    var target := if s.Some? then s.value else f;
    forall x, y | OnPanel(x, y)
      ensures WarmCovers(cfg, d, w, force, deepWake, stamp, x, y) ==> s.Some?
      ensures g[At(x, y)] == if WarmCovers(cfg, d, w, force, deepWake, stamp, x, y) then White(target, x, y) else White(f, x, y)
    {
      WarmPixel(cfg, d, w, force, deepWake, stamp, x, y);
      GlassAt(f, x, y);
    }
    GlassIffPixels(g, target);
  }

  lemma GlassIffPixels(g: Picture, f: Frame)
    ensures g == Glass(f) <==> forall x, y | OnPanel(x, y) :: g[At(x, y)] == White(f, x, y)
  {
    forall x, y | OnPanel(x, y)
      ensures Glass(f)[At(x, y)] == White(f, x, y)
    {
      GlassAt(f, x, y);
    }
    if forall x, y | OnPanel(x, y) :: g[At(x, y)] == White(f, x, y) {
      SameGlass(g, Glass(f));
    }
  }

  // ---- after a deep-sleep wake

  // The warm cycle of a wake paints the whole panel, by the guards of its branches.
  predicate WarmRepaints(cfg: CycleConfig, d: Dev, w: WarmIn, force: bool, stamp: Stamp) {
    if !w.connected then
      || w.authFailed
      || (SelectScreen(d.ram, false, w.downNow) == OfflineScreen && Redraws(d, DownPush(w, force, true), stamp))
    else if !ClockUsable(cfg, d.ram, w.clock) then false
    else
      var e := Ready(cfg, d, w);
      var e1 := Updated(cfg, e, w, force, true, stamp);
      || Nightly(cfg, e.ram, w)
      || (PushesBoard(e.ram, w, force) && Redraws(e, WarmPush(e.ram, w, force, true), stamp))
      || (WasRescued(cfg, e.ram, w) && Redraws(Attempted(cfg, e1, w), ExtraPush(cfg, e1, w, true), stamp))
  }

  lemma WakeCovers(cfg: CycleConfig, d: Dev, w: WarmIn, force: bool, stamp: Stamp, x: int, y: int)
    ensures WarmCovers(cfg, d, w, force, true, stamp, x, y) <==> WarmRepaints(cfg, d, w, force, stamp)
  {
    hide Fetched, Updated, Nightly, TraceOf, AfterAttempts, Drawn, PushCover, Redraws, ApiOk, Complete;
    if !w.connected {
      WakePushCover(d, DownPush(w, force, true), stamp);
    } else if ClockUsable(cfg, d.ram, w.clock) {
      var e := Ready(cfg, d, w);
      var e1 := Updated(cfg, e, w, force, true, stamp);
      WakePushCover(e, WarmPush(e.ram, w, force, true), stamp);
      WakePushCover(Attempted(cfg, e1, w), ExtraPush(cfg, e1, w, true), stamp);
    }
  }

  lemma WakeOutcome(cfg: CycleConfig, d: Dev, w: WarmIn, force: bool, stamp: Stamp, f: Frame)
    requires d.glass == Glass(f)
    ensures var g, s := WarmCycle(cfg, d, w, force, true, stamp).glass, WarmScreen(cfg, d, w, force, true, stamp);
      if WarmRepaints(cfg, d, w, force, stamp) then s.Some? && g == Glass(s.value) else g == Glass(f)
  {
    hide WarmCycle, WarmScreen, WarmCovers, WarmRepaints, White, Glass;
    var g, s := WarmCycle(cfg, d, w, force, true, stamp).glass, WarmScreen(cfg, d, w, force, true, stamp);
    var target := if WarmRepaints(cfg, d, w, force, stamp) && s.Some? then s.value else f;
    assert OnPanel(0, 0);
    WarmPixel(cfg, d, w, force, true, stamp, 0, 0);
    WakeCovers(cfg, d, w, force, stamp, 0, 0);
    forall x, y | OnPanel(x, y)
      ensures g[At(x, y)] == White(target, x, y)
    {
      WarmPixel(cfg, d, w, force, true, stamp, x, y);
      WakeCovers(cfg, d, w, force, stamp, x, y);
      GlassAt(f, x, y);
    }
    GlassIffPixels(g, target);
  }

  // The screen a boot decides on, whether it paints the whole panel, and the overlay it
  // starts from: the notice, or the last diagnostic page painted over it.
  function SetupScreen(cfg: CycleConfig, a: Dev, s: SetupIn, stamp: Stamp): Option<Frame> {
    match KindOf(a, s)
    case ColdKind => ColdScreen(cfg, a, s.cold, stamp)
    case WarmKind => WarmScreen(cfg, a, s.warm, false, true, stamp)
    case ButtonKind =>
      OrElse(WarmScreen(cfg, PressHandled(a, s.press, s.button), s.warm, true, true, stamp), PressScreen(a, s.press, s.button))
  }

  predicate SetupRepaints(cfg: CycleConfig, a: Dev, s: SetupIn, stamp: Stamp) {
    match KindOf(a, s)
    case ColdKind => Boots(cfg, a.ram, s.cold) || s.cold.authFailed || Repaints(cfg, a.ram) || ShowsBootScreen(a.ram)
    case WarmKind => WarmRepaints(cfg, a, s.warm, false, stamp)
    case ButtonKind => s.press == Long || WarmRepaints(cfg, PressHandled(a, s.press, s.button), s.warm, true, stamp)
  }

  function Painted(cfg: CycleConfig, s: SetupIn): Frame
    requires Overlays(cfg, Setup(s))
  {
    if s.cause == Button && s.press == Double then LastPage(s.button) else s.reset.value
  }

  // For every boot with a reset notice or diagnostic pages, cold, warm or by button: what
  // the glass shows in the end, and so exactly when its own screen is up and when the
  // overlay stays.
  lemma SetupOutcome(cfg: CycleConfig, d: Dev, s: SetupIn, stamp: Stamp)
    requires Overlays(cfg, Setup(s))
    ensures var a := Overlaid(cfg, Awake(d), s);
      var g, screen, f := AfterSetup(cfg, d, s, stamp).glass, SetupScreen(cfg, a, s, stamp), Painted(cfg, s);
      && (if SetupRepaints(cfg, a, s, stamp) then screen.Some? && g == Glass(screen.value) else g == Glass(f))
      && (screen.Some? ==> (g == Glass(screen.value) <==> SetupRepaints(cfg, a, s, stamp) || f == screen.value))
      && (g == Glass(f) <==> !SetupRepaints(cfg, a, s, stamp) || f == screen.value)
  {
    hide WarmCycle, WarmScreen, WarmRepaints, ColdCycle, Fetched, Boots, HavePrev, SlotFrame, Glass;
    var a := Overlaid(cfg, Awake(d), s);
    var screen, f := SetupScreen(cfg, a, s, stamp), Painted(cfg, s);
    match KindOf(a, s) {
      case ColdKind => ColdShows(cfg, a, s.cold, stamp);
      case WarmKind => WakeOutcome(cfg, a, s.warm, false, stamp, f);
      case ButtonKind =>
        var b := PressHandled(a, s.press, s.button);
        if s.press == Long {
          LongPressShows(a, s.button);
          WarmShows(cfg, b, s.warm, true, true, stamp);
        } else {
          WakeOutcome(cfg, b, s.warm, true, stamp, f);
        }
    }
    if screen.Some? {
      FramesDiffer(f, screen.value);
    }
  }

  lemma FramesDiffer(f: Frame, g: Frame)
    ensures Glass(f) == Glass(g) <==> f == g
  {
    if Glass(f) == Glass(g) {
      GlassIsFaithful(f, g);
    }
  }

  // A long press restores the mirror whatever was on the glass.
  lemma LongPressShows(d: Dev, b: ButtonIn)
    ensures PressHandled(d, Long, b).glass == Seen(PressScreen(d, Long, b), d.glass)
    ensures Mirrors(PressHandled(d, Long, b))
  {
    if !HavePrev(d) {
      SavedSlotMirrors(d.rtc, d.ram, b.blank);
    }
  }

  // ---- in the polling phase

  // For every poll with a double press: the cycle after the pages shows its screen exactly
  // if the last page agrees with it wherever the cycle wrote nothing.
  lemma DiagPollOutcome(cfg: CycleConfig, d: Dev, p: PollIn, stamp: Stamp)
    requires p.press == Some(Double)
    ensures var a, page := PressHandled(Awake(d), Double, p.button), LastPage(p.button);
      var g, s := AfterPoll(cfg, d, p, stamp).glass, WarmScreen(cfg, a, p.warm, true, false, stamp);
      && (s.None? ==> g == Glass(page))
      && (s.Some? ==> (g == Glass(s.value) <==> AgreeUncovered(cfg, a, p.warm, true, false, stamp, page, s.value)))
  {
    hide WarmCycle, WarmScreen, WarmCovers, Glass, Fetched;
    OverlayOutcome(cfg, PressHandled(Awake(d), Double, p.button), p.warm, true, false, stamp, LastPage(p.button));
  }
}
