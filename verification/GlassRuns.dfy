/** What the glass shows over whole runs of wake-ups: always the last screen the firmware
    decided on, as long as no overlay was painted over it. */
module GlassRuns {
  import opened Meta
  import opened Display
  import opened Store
  import opened Push
  import opened Cycle
  import opened Wrappers
  import Planner
  import Rescue

  const NOTHING: Option<Frame> := None

  function Show(f: Frame): Option<Frame> {
    Some(f)
  }

  function OrElse(later: Option<Frame>, earlier: Option<Frame>): Option<Frame> {
    if later.Some? then later else earlier
  }

  function Seen(f: Option<Frame>, g: Picture): Picture {
    if f.Some? then Glass(f.value) else g
  }

  // ---------------------------------------------------------------- the screens decided on

  // The first board, drawn from the metadata after the fetch.
  function ColdShown(m: PersistedMeta, c: ColdIn, stamp: Stamp): Frame {
    stamp(ColdBoard(Fetched(m.(coldBootRetries := 0, noWifiCycles := 0), c.fetch), c), c.now)
  }

  function ColdScreen(cfg: CycleConfig, d: Dev, c: ColdIn, stamp: Stamp): Option<Frame> {
    if Boots(cfg, d.ram, c) then Show(ColdShown(d.ram, c, stamp))
    else if c.authFailed || Repaints(cfg, d.ram) then Show(c.errorScreen)
    else if ShowsBootScreen(d.ram) then Show(c.bootScreen)
    else NOTHING
  }

  function UpdateScreen(cfg: CycleConfig, d: Dev, w: WarmIn, force: bool, deepWake: bool, stamp: Stamp): Option<Frame> {
    if Nightly(cfg, d.ram, w) then Show(stamp(WarmBoard(d.ram, w, w.now), w.now))
    else if PushesBoard(d.ram, w, force) then Show(FinalFrame(d, WarmPush(d.ram, w, force, deepWake), stamp))
    else NOTHING
  }

  function RescueScreen(cfg: CycleConfig, d: Dev, w: WarmIn, deepWake: bool, stamp: Stamp): Option<Frame> {
    var t := TraceOf(cfg, w.rescue);
    var n := Rescue.Fetches(t);
    var d1 := d.(ram := AfterAttempts(d.ram, w.rescue, n));
    if Rescue.Rescued(t) then Show(FinalFrame(d1, RescuePush(d1.ram, w.rescue, n, w.schedule, deepWake), stamp)) else NOTHING
  }

  function FinishScreen(cfg: CycleConfig, d: Dev, w: WarmIn, force: bool, deepWake: bool, stamp: Stamp): Option<Frame> {
    var first := UpdateScreen(cfg, d, w, force, deepWake, stamp);
    if TriesRescue(cfg, d.ram, w)
    then OrElse(RescueScreen(cfg, Updated(cfg, d, w, force, deepWake, stamp), w, deepWake, stamp), first)
    else first
  }

  function DownScreen(d: Dev, w: WarmIn, force: bool, deepWake: bool, stamp: Stamp): Option<Frame> {
    if w.authFailed then Show(w.authScreen)
    else if SelectScreen(d.ram, false, w.downNow) == OfflineScreen
    then Show(FinalFrame(d, DownPush(w, force, deepWake), stamp))
    else NOTHING
  }

  function WarmScreen(cfg: CycleConfig, d: Dev, w: WarmIn, force: bool, deepWake: bool, stamp: Stamp): Option<Frame> {
    if !w.connected then DownScreen(d, w, force, deepWake, stamp)
    else if !ClockUsable(cfg, d.ram, w.clock) then NOTHING
    else FinishScreen(cfg, d.(ram := Fetched(ClockFixed(cfg, d.ram, w.clock), w.fetch)), w, force, deepWake, stamp)
  }

  function PressScreen(d: Dev, p: Press, b: ButtonIn): Option<Frame> {
    match p
    case Long => Show(if HavePrev(d) then SlotFrame(d.rtc.slot) else b.blank)
    case Double => Show(LastPage(b))
    case Short => NOTHING
  }

  function Screen(cfg: CycleConfig, d: Dev, e: Event, stamp: Stamp): Option<Frame> {
    var a := Awake(d);
    match e
    case PowerLoss => NOTHING
    case Poll(p) =>
      if p.press.Some? then
        OrElse(WarmScreen(cfg, PressHandled(a, p.press.value, p.button), p.warm, true, false, stamp),
               PressScreen(a, p.press.value, p.button))
      else WarmScreen(cfg, a, p.warm, false, false, stamp)
    case Setup(s) =>
      match KindOf(a, s)
      case ColdKind => ColdScreen(cfg, a, s.cold, stamp)
      case WarmKind => WarmScreen(cfg, a, s.warm, false, true, stamp)
      case ButtonKind =>
        OrElse(WarmScreen(cfg, PressHandled(a, s.press, s.button), s.warm, true, true, stamp), PressScreen(a, s.press, s.button))
  }

  // The reset notice and the diagnostic pages paint the glass behind the store's back.
  predicate Overlays(cfg: CycleConfig, e: Event) {
    match e
    case PowerLoss => false
    case Poll(p) => p.press == Some(Double)
    case Setup(s) => (s.reset.Some? && cfg.brownoutShow > 0) || (s.cause == Button && s.press == Double)
  }

  // ---------------------------------------------------------------- each step

  // A slot that decodes to a whole frame holds the one on the glass, whatever the flags.
  ghost predicate SlotMirrors(d: Dev) {
    HoldsFrame(d.rtc.slot) ==> d.glass == Glass(SlotFrame(d.rtc.slot))
  }

  lemma SavedSlotMirrors(rtc: Rtc, ram: PersistedMeta, fb: Frame)
    ensures SlotMirrors(Dev(SavedFrame(rtc, fb), ram, Glass(fb)))
  {
    SaveThenLoad(rtc, fb);
  }

  lemma FetchedKeepsFlag(m: PersistedMeta, f: FetchIn)
    ensures Fetched(m, f).framebufferValid == m.framebufferValid
  {
  }

  lemma {:induction false} AttemptsKeepFlag(m: PersistedMeta, r: RescueIn, n: nat)
    ensures AfterAttempts(m, r, n).framebufferValid == m.framebufferValid
  {
    if n > 0 {
      AttemptsKeepFlag(m, r, n - 1);
      FetchedKeepsFlag(AfterAttempts(m, r, n - 1), r.fetch(n - 1));
    }
  }

  lemma SleepKeepsMirror(cfg: CycleConfig, d: Dev, plan: SleepPlan.SleepDecision, now: int)
    requires Mirrors(d)
    ensures Mirrors(Slept(cfg, d, plan, now)) && Slept(cfg, d, plan, now).glass == d.glass
  {
  }

  lemma ColdShows(cfg: CycleConfig, d: Dev, c: ColdIn, stamp: Stamp)
    ensures ColdCycle(cfg, d, c, stamp).glass == Seen(ColdScreen(cfg, d, c, stamp), d.glass)
    ensures Mirrors(ColdCycle(cfg, d, c, stamp))
  {
    hide Fetched, ColdBoard, ColdView, SleepPlan.PlanOf;
    if Boots(cfg, d.ram, c) {
      SavedSlotMirrors(d.rtc, d.ram, ColdShown(d.ram, c, stamp));
    }
  }

  lemma UpdateShows(cfg: CycleConfig, d: Dev, w: WarmIn, force: bool, deepWake: bool, stamp: Stamp)
    requires Mirrors(d)
    ensures Updated(cfg, d, w, force, deepWake, stamp).glass == Seen(UpdateScreen(cfg, d, w, force, deepWake, stamp), d.glass)
    ensures Mirrors(Updated(cfg, d, w, force, deepWake, stamp))
  {
    if Nightly(cfg, d.ram, w) {
      SavedSlotMirrors(d.rtc, d.ram, stamp(WarmBoard(d.ram, w, w.now), w.now));
    } else if PushesBoard(d.ram, w, force) {
      PushKeepsMirror(d, WarmPush(d.ram, w, force, deepWake), stamp);
    }
  }

  lemma RescueShows(cfg: CycleConfig, d: Dev, w: WarmIn, deepWake: bool, stamp: Stamp)
    requires Mirrors(d)
    ensures var a := RescueEnd(cfg, d, w.rescue, w.schedule, deepWake, stamp);
      a.glass == Seen(RescueScreen(cfg, d, w, deepWake, stamp), d.glass) && Mirrors(a)
  {
    hide Drawn, TraceOf;
    var r, n := w.rescue, Rescue.Fetches(TraceOf(cfg, w.rescue));
    var m := AfterAttempts(d.ram, r, n);
    AttemptsKeepFlag(d.ram, r, n);
    PushKeepsMirror(d.(ram := m), RescuePush(m, r, n, w.schedule, deepWake), stamp);
  }

  lemma FinishShows(cfg: CycleConfig, d: Dev, w: WarmIn, force: bool, deepWake: bool, stamp: Stamp)
    requires Mirrors(d)
    ensures WarmFinished(cfg, d, w, force, deepWake, stamp).glass ==
      Seen(FinishScreen(cfg, d, w, force, deepWake, stamp), d.glass)
    ensures Mirrors(WarmFinished(cfg, d, w, force, deepWake, stamp))
  {
    hide Updated, UpdateScreen, RescueEnd, RescueScreen, Mirrors, LastPlan, LastNow, TriesRescue;
    var d1 := Updated(cfg, d, w, force, deepWake, stamp);
    UpdateShows(cfg, d, w, force, deepWake, stamp);
    var plan, now := LastPlan(cfg, d.ram, w), LastNow(cfg, d.ram, w);
    if TriesRescue(cfg, d.ram, w) {
      RescueShows(cfg, d1, w, deepWake, stamp);
      SleepKeepsMirror(cfg, RescueEnd(cfg, d1, w.rescue, w.schedule, deepWake, stamp), plan, now);
    } else {
      SleepKeepsMirror(cfg, d1, plan, now);
    }
  }

  lemma WarmShows(cfg: CycleConfig, d: Dev, w: WarmIn, force: bool, deepWake: bool, stamp: Stamp)
    requires Mirrors(d)
    ensures WarmCycle(cfg, d, w, force, deepWake, stamp).glass == Seen(WarmScreen(cfg, d, w, force, deepWake, stamp), d.glass)
    ensures Mirrors(WarmCycle(cfg, d, w, force, deepWake, stamp))
  {
    hide Fetched, WarmFinished, FinishScreen;
    if !w.connected {
      PushKeepsMirror(d, DownPush(w, force, deepWake), stamp);
    } else if ClockUsable(cfg, d.ram, w.clock) {
      FetchedKeepsFlag(ClockFixed(cfg, d.ram, w.clock), w.fetch);
      FinishShows(cfg, d.(ram := Fetched(ClockFixed(cfg, d.ram, w.clock), w.fetch)), w, force, deepWake, stamp);
    }
  }

  lemma PressShows(d: Dev, p: Press, b: ButtonIn)
    requires Mirrors(d) && p != Double
    ensures PressHandled(d, p, b).glass == Seen(PressScreen(d, p, b), d.glass)
    ensures Mirrors(PressHandled(d, p, b))
  {
    if p == Long && !HavePrev(d) {
      SavedSlotMirrors(d.rtc, d.ram, b.blank);
    }
  }

  // One event without an overlay leaves its own screen on the glass, or what was there,
  // and the store still mirrors the glass.
  lemma StepShows(cfg: CycleConfig, d: Dev, e: Event, stamp: Stamp)
    requires Mirrors(d) && !Overlays(cfg, e)
    ensures Step(cfg, d, e, stamp).glass == Seen(Screen(cfg, d, e, stamp), d.glass)
    ensures Mirrors(Step(cfg, d, e, stamp))
  {
    hide WarmCycle, WarmScreen, ColdCycle, ColdScreen, PressHandled, PressScreen;
    var a := Awake(d);
    match e {
      case PowerLoss =>
      case Poll(p) =>
        if p.press.Some? {
          PressShows(a, p.press.value, p.button);
          WarmShows(cfg, PressHandled(a, p.press.value, p.button), p.warm, true, false, stamp);
        } else {
          WarmShows(cfg, a, p.warm, false, false, stamp);
        }
      case Setup(s) =>
        match KindOf(a, s) {
          case ColdKind => ColdShows(cfg, a, s.cold, stamp);
          case WarmKind => WarmShows(cfg, a, s.warm, false, true, stamp);
          case ButtonKind =>
            PressShows(a, s.press, s.button);
            WarmShows(cfg, PressHandled(a, s.press, s.button), s.warm, true, true, stamp);
        }
    }
  }

  // ---------------------------------------------------------------- whole runs

  function Run(cfg: CycleConfig, d: Dev, es: seq<Event>, stamp: Stamp): Dev {
    if es == [] then d else Step(cfg, Run(cfg, d, es[..|es| - 1], stamp), es[|es| - 1], stamp)
  }

  // The last screen decided on in the run.
  function LastScreen(cfg: CycleConfig, d: Dev, es: seq<Event>, stamp: Stamp): Option<Frame> {
    if es == [] then NOTHING
    else
      var before := es[..|es| - 1];
      OrElse(Screen(cfg, Run(cfg, d, before, stamp), es[|es| - 1], stamp), LastScreen(cfg, d, before, stamp))
  }

  predicate NoOverlays(cfg: CycleConfig, es: seq<Event>) {
    forall i | 0 <= i < |es| :: !Overlays(cfg, es[i])
  }

  // Over every run of pushes, cleans, cold boots, resets, error screens and power cuts
  // without overlays, the glass shows exactly the last screen decided on.
  lemma {:induction false} GlassShowsLastScreen(cfg: CycleConfig, d: Dev, es: seq<Event>, stamp: Stamp)
    requires Mirrors(d) && NoOverlays(cfg, es)
    ensures Run(cfg, d, es, stamp).glass == Seen(LastScreen(cfg, d, es, stamp), d.glass)
    ensures Mirrors(Run(cfg, d, es, stamp))
  {
    hide Step, Screen;
    if es != [] {
      var before := es[..|es| - 1];
      GlassShowsLastScreen(cfg, d, before, stamp);
      StepShows(cfg, Run(cfg, d, before, stamp), es[|es| - 1], stamp);
    }
  }

  // A device fresh from the factory qualifies, whatever its panel shows.
  lemma FreshDeviceMirrors(g: Picture)
    ensures Mirrors(Dev(POWER_ON, FRESH_META, g))
  {
  }

  // A save that does not fit costs a flash, not the picture: the slot is empty although
  // the frame is called valid, so the next push finds no frame and redraws everything.
  lemma OverflowForcesFull(d: Dev, board: Frame, now: int, stamp: Stamp, curr: Frame, i: PushIn)
    requires !Fits(stamp(board, now))
    ensures var after := NightlyCleaned(d, board, now, stamp);
      && after.ram.framebufferValid && !HavePrev(after) && Mirrors(after)
      && PlanFor(after, curr, i).kind == Planner.LightFull
  {
    SaveThenLoad(d.rtc, stamp(board, now));
  }
}
