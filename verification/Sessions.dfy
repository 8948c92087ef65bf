/** One waking session of the device: a boot after deep sleep or a reset, then polls. The
    panel was off, so the first refresh is meant to be a full one (src/main.cpp, the flag
    deep_wake of src/logic/cycle_runner.cpp). */
module Sessions {
  import opened Meta
  import opened Wrappers
  import opened Display
  import opened Store
  import opened Push
  import opened Cycle
  import opened GlassRuns
  import opened Overlay
  import opened PanelRam
  import opened Histories
  import Planner
  import SleepPlan
  import Slots

  // The device before poll n of the session, and all panel writes up to there.
  function AtPoll(cfg: CycleConfig, d: Dev, s: SetupIn, ps: seq<PollIn>, n: nat, stamp: Stamp): Dev
    requires n <= |ps|
  {
    if n == 0 then AfterSetup(cfg, d, s, stamp)
    else AfterPoll(cfg, AtPoll(cfg, d, s, ps, n - 1, stamp), ps[n - 1], stamp)
  }

  function SessionWrites(cfg: CycleConfig, d: Dev, s: SetupIn, ps: seq<PollIn>, n: nat, stamp: Stamp): seq<Write>
    requires n <= |ps|
  {
    if n == 0 then SetupWrites(cfg, d, s, stamp)
    else SessionWrites(cfg, d, s, ps, n - 1, stamp) + PollWrites(cfg, AtPoll(cfg, d, s, ps, n - 1, stamp), ps[n - 1], stamp)
  }

  // The writes of a warm cycle are those that decide each pixel of the glass.
  lemma WritesAreCovers(cfg: CycleConfig, d: Dev, w: WarmIn, force: bool, deepWake: bool, stamp: Stamp, x: int, y: int)
    requires OnPanel(x, y)
    ensures WarmCovers(cfg, d, w, force, deepWake, stamp, x, y) <==>
      exists u :: u in WarmWrites(cfg, d, w, force, deepWake, stamp) && Covers(u.cover, x, y)
  {
    hide PushCover, FinalFrame, Fetched, FinishWrites, FinishCovers;
    if !w.connected {
      OneWrite(PushWrite(d, DownPush(w, force, deepWake), stamp), x, y);
      OneWrite(Whole(w.authScreen), x, y);
    } else if ClockUsable(cfg, d.ram, w.clock) {
      FinishWritesAreCovers(cfg, Ready(cfg, d, w), w, force, deepWake, stamp, x, y);
    }
  }

  lemma OneWrite(w: Write, x: int, y: int)
    ensures (exists u :: u in [w] && Covers(u.cover, x, y)) <==> Covers(w.cover, x, y)
  {
    assert w in [w];
  }

  lemma FinishWritesAreCovers(cfg: CycleConfig, d: Dev, w: WarmIn, force: bool, deepWake: bool, stamp: Stamp, x: int, y: int)
    ensures FinishCovers(cfg, d, w, force, deepWake, stamp, x, y) <==>
      exists u :: u in FinishWrites(cfg, d, w, force, deepWake, stamp) && Covers(u.cover, x, y)
  {
    hide PushCover, FinalFrame, Updated, Nightly, TraceOf, Drawn, AfterAttempts, TriesRescue, PushesBoard;
    var d1 := Updated(cfg, d, w, force, deepWake, stamp);
    var first, second := UpdateWrites(cfg, d, w, force, deepWake, stamp), RescueWrites(cfg, d1, w, deepWake, stamp);
    assert forall u :: u in first + second <==> u in first || u in second;
    if FinishCovers(cfg, d, w, force, deepWake, stamp, x, y) {
      var u := if Covers(UpdateCover(cfg, d, w, force, deepWake, stamp), x, y) then first[0] else second[0];
      assert u in FinishWrites(cfg, d, w, force, deepWake, stamp);
    }
  }

  // ---------------------------------------------------------------- when a push is a window

  // A trusting push that finds a different valid frame before either trigger is due.
  predicate WindowDue(d: Dev, i: PushIn, stamp: Stamp) {
    && Redraws(d, i, stamp) && HavePrev(d) && !i.deepWake
    && !Planner.TimeTrigger(i.now, d.ram.lastLightFull, Planner.DEFAULT_REFRESH)
    && !Planner.CapTrigger(d.ram.partialCount, Planner.DEFAULT_REFRESH)
  }

  lemma PushCoverIs(d: Dev, i: PushIn, stamp: Stamp)
    ensures PushCover(d, i, stamp).Part? <==> WindowDue(d, i, stamp)
    ensures PushCover(d, i, stamp) == Nothing <==> !Redraws(d, i, stamp)
  {
    hide FinalFrame, HoldsFrame, SlotFrame;
    var fb := FinalFrame(d, i, stamp);
    NoneIffUnchanged(d, fb, i);
    if HavePrev(d) && SlotFrame(d.rtc.slot) != fb {
      PartialIsEnough(SlotFrame(d.rtc.slot), fb);
    }
  }

  // The first write of a poll's warm cycle is a window, by the guards of its branches: the
  // update's push, or the rescue's when the update drew nothing.
  predicate WarmWindow(cfg: CycleConfig, d: Dev, w: WarmIn, force: bool, stamp: Stamp) {
    if !w.connected then
      && !w.authFailed && SelectScreen(d.ram, false, w.downNow) == OfflineScreen && WindowDue(d, DownPush(w, force, false), stamp)
    else if !ClockUsable(cfg, d.ram, w.clock) then false
    else
      var e := Ready(cfg, d, w);
      var i, e1 := WarmPush(e.ram, w, force, false), Updated(cfg, e, w, force, false, stamp);
      && !Nightly(cfg, e.ram, w)
      && if PushesBoard(e.ram, w, force) && Redraws(e, i, stamp) then WindowDue(e, i, stamp)
         else WasRescued(cfg, e.ram, w) && WindowDue(Attempted(cfg, e1, w), ExtraPush(cfg, e1, w, false), stamp)
  }

  lemma FinishFirst(cfg: CycleConfig, d: Dev, w: WarmIn, force: bool, deepWake: bool, stamp: Stamp)
    ensures FirstWrite(FinishWrites(cfg, d, w, force, deepWake, stamp)) ==
      var first := UpdateCover(cfg, d, w, force, deepWake, stamp);
      if first == Nothing && TriesRescue(cfg, d.ram, w)
      then RescueCover(cfg, Updated(cfg, d, w, force, deepWake, stamp), w, deepWake, stamp)
      else first
  {
    hide PushCover, Updated, Nightly, TraceOf, FinalFrame, Drawn, AfterAttempts, ApiOk, Complete;
    var d1 := Updated(cfg, d, w, force, deepWake, stamp);
    FirstOfOne(PushWrite(d, WarmPush(d.ram, w, force, deepWake), stamp));
    FirstOfOne(PushWrite(Attempted(cfg, d1, w), ExtraPush(cfg, d1, w, deepWake), stamp));
    FirstOfOne(Whole(stamp(WarmBoard(d.ram, w, w.now), w.now)));
    var u := UpdateWrites(cfg, d, w, force, deepWake, stamp);
    FirstOfBoth(u, if TriesRescue(cfg, d.ram, w) then RescueWrites(cfg, d1, w, deepWake, stamp) else []);
  }

  lemma WarmWindowIff(cfg: CycleConfig, d: Dev, w: WarmIn, force: bool, stamp: Stamp)
    ensures FirstWrite(WarmWrites(cfg, d, w, force, false, stamp)).Part? <==> WarmWindow(cfg, d, w, force, stamp)
  {
    hide PushCover, WindowDue, Redraws, Fetched, Updated, Nightly, TraceOf, AfterAttempts, Drawn, ApiOk, Complete, FinishWrites,
         FinalFrame;
    if !w.connected {
      PushCoverIs(d, DownPush(w, force, false), stamp);
      FirstOfOne(PushWrite(d, DownPush(w, force, false), stamp));
      FirstOfOne(Whole(w.authScreen));
    } else if ClockUsable(cfg, d.ram, w.clock) {
      var e := Ready(cfg, d, w);
      var e1 := Updated(cfg, e, w, force, false, stamp);
      PushCoverIs(e, WarmPush(e.ram, w, force, false), stamp);
      PushCoverIs(Attempted(cfg, e1, w), ExtraPush(cfg, e1, w, false), stamp);
      FinishFirst(cfg, e, w, force, false, stamp);
    }
  }

  // After deep sleep a warm cycle writes the whole panel or nothing.
  lemma WakeWritesWhole(cfg: CycleConfig, d: Dev, w: WarmIn, force: bool, stamp: Stamp)
    ensures FirstWrite(WarmWrites(cfg, d, w, force, true, stamp)) ==
      if WarmRepaints(cfg, d, w, force, stamp) then Everything else Nothing
  {
    hide PushCover, Redraws, Fetched, Updated, Nightly, TraceOf, AfterAttempts, Drawn, ApiOk, Complete, FinishWrites, FinalFrame;
    if !w.connected {
      WakePushCover(d, DownPush(w, force, true), stamp);
      FirstOfOne(PushWrite(d, DownPush(w, force, true), stamp));
      FirstOfOne(Whole(w.authScreen));
    } else if ClockUsable(cfg, d.ram, w.clock) {
      var e := Ready(cfg, d, w);
      var e1 := Updated(cfg, e, w, force, true, stamp);
      WakePushCover(e, WarmPush(e.ram, w, force, true), stamp);
      WakePushCover(Attempted(cfg, e1, w), ExtraPush(cfg, e1, w, true), stamp);
      FinishFirst(cfg, e, w, force, true, stamp);
    }
  }

  // A boot never starts with a window, and is quiet exactly without an overlay and without
  // a repaint.
  lemma SetupWritesWhole(cfg: CycleConfig, d: Dev, s: SetupIn, stamp: Stamp)
    ensures FirstWrite(SetupWrites(cfg, d, s, stamp)) ==
      if Overlays(cfg, Setup(s)) || SetupRepaints(cfg, Overlaid(cfg, Awake(d), s), s, stamp) then Everything else Nothing
  {
    hide WarmWrites, WarmRepaints, PressHandled, Boots, ColdWrites;
    var a := Overlaid(cfg, Awake(d), s);
    FirstOfBoth(NoticeWrites(cfg, s), RoutedWrites(cfg, a, s, stamp));
    match KindOf(a, s) {
      case ColdKind => ColdWritesWhole(cfg, a.ram, s.cold, stamp);
      case WarmKind => WakeWritesWhole(cfg, a, s.warm, false, stamp);
      case ButtonKind =>
        var b := PressHandled(a, s.press, s.button);
        WakeWritesWhole(cfg, b, s.warm, true, stamp);
        FirstOfBoth(PressWrites(a, s.press, s.button), WarmWrites(cfg, b, s.warm, true, true, stamp));
    }
  }

  lemma ColdWritesWhole(cfg: CycleConfig, m: PersistedMeta, c: ColdIn, stamp: Stamp)
    ensures FirstWrite(ColdWrites(cfg, m, c, stamp)) ==
      if Boots(cfg, m, c) || c.authFailed || Repaints(cfg, m) || ShowsBootScreen(m) then Everything else Nothing
  {
    hide ColdShown, Boots;
    var ws := ColdWrites(cfg, m, c, stamp);
    assert ws != [] ==> ws[0].cover == Everything;
  }

  predicate PollWindow(cfg: CycleConfig, d: Dev, p: PollIn, stamp: Stamp) {
    && (p.press.Some? ==> p.press.value == Short)
    && WarmWindow(cfg, Awake(d), p.warm, p.press.Some?, stamp)
  }

  lemma PollWindowIff(cfg: CycleConfig, d: Dev, p: PollIn, stamp: Stamp)
    ensures FirstWrite(PollWrites(cfg, d, p, stamp)).Part? <==> PollWindow(cfg, d, p, stamp)
  {
    hide WarmWrites, WarmWindow, PressHandled;
    if p.press.Some? {
      var b := PressHandled(Awake(d), p.press.value, p.button);
      FirstOfBoth(PressWrites(Awake(d), p.press.value, p.button), WarmWrites(cfg, b, p.warm, true, false, stamp));
      if p.press.value == Short {
        ShortPressDoesNothing(Awake(d), p.button);
        WarmWindowIff(cfg, b, p.warm, true, stamp);
      }
    } else {
      WarmWindowIff(cfg, Awake(d), p.warm, false, stamp);
    }
  }

  lemma ShortPressDoesNothing(d: Dev, b: ButtonIn)
    ensures PressHandled(d, Short, b) == d
  {
  }

  // ---------------------------------------------------------------- the theorem

  // Neither the boot nor any poll before n drew anything.
  predicate QuietUntil(cfg: CycleConfig, d: Dev, s: SetupIn, ps: seq<PollIn>, n: nat, stamp: Stamp)
    requires n <= |ps|
  {
    && !Overlays(cfg, Setup(s)) && !SetupRepaints(cfg, Overlaid(cfg, Awake(d), s), s, stamp)
    && forall k | 0 <= k < n :: FirstWrite(PollWrites(cfg, AtPoll(cfg, d, s, ps, k, stamp), ps[k], stamp)) == Nothing
  }

  lemma {:induction false} QuietIsQuiet(cfg: CycleConfig, d: Dev, s: SetupIn, ps: seq<PollIn>, n: nat, stamp: Stamp)
    requires n <= |ps|
    ensures QuietUntil(cfg, d, s, ps, n, stamp) <==> FirstWrite(SessionWrites(cfg, d, s, ps, n, stamp)) == Nothing
  {
    hide SetupWrites, PollWrites, AtPoll, Overlays, SetupRepaints, FirstWrite;
    if n == 0 {
      SetupWritesWhole(cfg, d, s, stamp);
    } else {
      QuietIsQuiet(cfg, d, s, ps, n - 1, stamp);
      FirstOfBoth(SessionWrites(cfg, d, s, ps, n - 1, stamp), PollWrites(cfg, AtPoll(cfg, d, s, ps, n - 1, stamp), ps[n - 1], stamp));
    }
  }

  // For every session: the first refresh to reach the panel is a window, on RAM nobody has
  // written since power-up, exactly when the boot drew nothing and the first poll to draw
  // does so by a trusting push before either trigger is due.
  lemma {:induction false} FirstRefreshIsPartialIff(cfg: CycleConfig, d: Dev, s: SetupIn, ps: seq<PollIn>, n: nat, stamp: Stamp)
    requires n <= |ps|
    ensures FirstWrite(SessionWrites(cfg, d, s, ps, n, stamp)).Part? <==>
      exists k: nat | k < n :: QuietUntil(cfg, d, s, ps, k, stamp) && PollWindow(cfg, AtPoll(cfg, d, s, ps, k, stamp), ps[k], stamp)
  {
    hide SetupWrites, PollWrites, AtPoll, PollWindow, QuietUntil;
    if n == 0 {
      SetupWritesWhole(cfg, d, s, stamp);
    } else {
      var before := AtPoll(cfg, d, s, ps, n - 1, stamp);
      FirstRefreshIsPartialIff(cfg, d, s, ps, n - 1, stamp);
      QuietIsQuiet(cfg, d, s, ps, n - 1, stamp);
      PollWindowIff(cfg, before, ps[n - 1], stamp);
      FirstOfBoth(SessionWrites(cfg, d, s, ps, n - 1, stamp), PollWrites(cfg, before, ps[n - 1], stamp));
      if FirstWrite(SessionWrites(cfg, d, s, ps, n - 1, stamp)) != Nothing {
        EarlierQuiet(cfg, d, s, ps, n - 1, stamp);
      }
    }
  }

  lemma EarlierQuiet(cfg: CycleConfig, d: Dev, s: SetupIn, ps: seq<PollIn>, n: nat, stamp: Stamp)
    requires n <= |ps| && FirstWrite(SessionWrites(cfg, d, s, ps, n, stamp)) != Nothing
    ensures !QuietUntil(cfg, d, s, ps, n, stamp)
  {
    hide QuietUntil, SessionWrites;
    QuietIsQuiet(cfg, d, s, ps, n, stamp);
  }

  // ---------------------------------------------------------------- such a session

  // One timetable, its departure 3000 s after the first boot. The device sleeps towards it
  // for 2070 s; the timer wake finds the same board, draws nothing and stays awake; the
  // poll half a minute later finds the departure changed, and so another board.
  predicate Later(xs: Timetable, ys: Timetable, at: int) {
    xs != [] && xs[0].when == at + 3000 && Ahead(xs, at + 2070) && Ahead(ys, at + 2100)
  }

  function NextWake(render: Renderer, xs: Timetable, at: int): SetupIn {
    Wake(Timer, None, render, xs, at + 2070)
  }

  function NextPoll(render: Renderer, ys: Timetable, at: int): PollIn {
    PollIn(None, Pages(Blank()), Warm(render, ys, at + 2100))
  }

  // The nap ends when the timer wake comes.
  lemma NapEnds(d: Dev, render: Renderer, xs: Timetable, at: int, stamp: Stamp)
    requires d.rtc == POWER_ON && at >= MIN_PLAUSIBLE_EPOCH && Later(xs, [], at) && Fits(stamp(BoardOf(render, xs), at))
    ensures var a := AfterSetup(DEFAULT_CYCLE, d, Boot(render, xs, at), stamp);
      a.rtc.meta.expectedWakeAt == at + 2070 && KindOf(Awake(a), NextWake(render, xs, at)) == WarmKind
  {
    hide AfterSetup, Boot, Warm, Cold, Pages, Fits, HoldsFrame, SlotFrame, BoardOf;
    WakeAfterBoot(d, render, xs, at, stamp);
  }

  // Its plan is to stay awake.
  lemma WakeStaysUp(render: Renderer, xs: Timetable, at: int)
    requires Later(xs, [], at)
    ensures WarmPlan(DEFAULT_CYCLE, NextWake(render, xs, at).warm) == SleepPlan.SleepDecision(SleepPlan.Active, 0)
  {
    hide Warm, SleepPlan.PlanOf, MergedOf, FetchOf, View;
    WarmParts(render, xs, at + 2070);
    FetchFacts(xs, at + 2070);
    MergedIsView(xs, at + 2070);
    PlanIs(xs, at + 2070);
  }

  // The first refresh of that session is a window on RAM that nobody has written.
  lemma PartialOnUntrustedRam(d: Dev, render: Renderer, xs: Timetable, ys: Timetable, at: int, stamp: Stamp)
    requires d.rtc == POWER_ON && at >= MIN_PLAUSIBLE_EPOCH && Later(xs, ys, at)
    requires var b, c := stamp(BoardOf(render, xs), at), stamp(BoardOf(render, ys), at);
      Fits(b) && c != b && stamp(c, at + 2100) != b
    ensures var a := AfterSetup(DEFAULT_CYCLE, d, Boot(render, xs, at), stamp);
      FirstWrite(SessionWrites(DEFAULT_CYCLE, a, NextWake(render, xs, at), [NextPoll(render, ys, at)], 1, stamp)).Part?
  {
    hide AfterSetup, Boot, NextWake, NextPoll, Fits, HoldsFrame, SlotFrame, PollWindow, QuietUntil, SessionWrites, BoardOf;
    var cfg, s, ps := DEFAULT_CYCLE, NextWake(render, xs, at), [NextPoll(render, ys, at)];
    var a := AfterSetup(cfg, d, Boot(render, xs, at), stamp);
    WakeAfterBoot(d, render, xs, at, stamp);
    WakeIsQuiet(a, render, xs, at, stamp);
    PollDraws(AfterSetup(cfg, a, s, stamp), render, ys, stamp(BoardOf(render, xs), at), at, stamp);
    assert AtPoll(cfg, a, s, ps, 0, stamp) == AfterSetup(cfg, a, s, stamp);
    NothingBeforeTheFirst(cfg, a, s, ps, stamp);
    FirstRefreshIsPartialIff(cfg, a, s, ps, 1, stamp);
  }

  lemma NothingBeforeTheFirst(cfg: CycleConfig, d: Dev, s: SetupIn, ps: seq<PollIn>, stamp: Stamp)
    requires !Overlays(cfg, Setup(s)) && !SetupRepaints(cfg, Overlaid(cfg, Awake(d), s), s, stamp)
    ensures QuietUntil(cfg, d, s, ps, 0, stamp)
  {
  }

  // A timer wake without a notice is its warm cycle.
  lemma WarmWakeIs(cfg: CycleConfig, d: Dev, s: SetupIn, stamp: Stamp)
    requires KindOf(Awake(d), s) == WarmKind && s.reset.None?
    ensures AfterSetup(cfg, d, s, stamp) == WarmCycle(cfg, Awake(d), s.warm, false, true, stamp)
    ensures !Overlays(cfg, Setup(s)) && Overlaid(cfg, Awake(d), s) == Awake(d)
    ensures SetupRepaints(cfg, Awake(d), s, stamp) <==> WarmRepaints(cfg, Awake(d), s.warm, false, stamp)
  {
    hide WarmCycle, WarmRepaints;
  }

  lemma WakeIsQuiet(d: Dev, render: Renderer, xs: Timetable, at: int, stamp: Stamp)
    requires at >= MIN_PLAUSIBLE_EPOCH && Later(xs, [], at)
    requires Stored(d.rtc, stamp(BoardOf(render, xs), at), at) && Fits(stamp(BoardOf(render, xs), at))
    requires d.rtc.meta.lastNtpSync == at && d.rtc.meta.expectedWakeAt == at + 2070 && !d.rtc.meta.authErrorSeen
    ensures var s := NextWake(render, xs, at);
      && !Overlays(DEFAULT_CYCLE, Setup(s)) && !SetupRepaints(DEFAULT_CYCLE, Overlaid(DEFAULT_CYCLE, Awake(d), s), s, stamp)
      && var m := AfterSetup(DEFAULT_CYCLE, d, s, stamp).rtc;
        && Stored(m, stamp(BoardOf(render, xs), at), at)
        && m.meta.lastNtpSync == at && m.meta.expectedWakeAt >= at + 2070 && !m.meta.authErrorSeen
  {
    hide Warm, Cold, Pages, Fits, HoldsFrame, SlotFrame, WarmRepaints, WarmCycle, WarmPlan, SameAgain, AfterSetup, SetupRepaints,
         ClockUsable, ClockFixed, BoardOf, FetchOf, ApiOk, Complete;
    var cfg, s := DEFAULT_CYCLE, NextWake(render, xs, at);
    WarmWakeIs(cfg, d, s, stamp);
    WakeIsSameAgain(d.rtc, render, xs, at, at + 2070, stamp);
    SameAgainIsQuiet(cfg, Awake(d), s.warm, stamp, stamp(BoardOf(render, xs), at), at);
    SameAgainLeaves(cfg, Awake(d), s.warm, stamp, stamp(BoardOf(render, xs), at), at);
    WarmParts(render, xs, at + 2070);
    FetchFacts(xs, at + 2070);
    SyncedClockStays(cfg, d.rtc.meta, s.warm.clock, at, at + 2070);
  }

  lemma PollDraws(d: Dev, render: Renderer, ys: Timetable, prev: Frame, at: int, stamp: Stamp)
    requires at >= MIN_PLAUSIBLE_EPOCH && Stored(d.rtc, prev, at) && Ahead(ys, at + 2100)
    requires d.rtc.meta.lastNtpSync == at && d.rtc.meta.expectedWakeAt >= at + 2070 && !d.rtc.meta.authErrorSeen
    requires var c := stamp(BoardOf(render, ys), at); c != prev && stamp(c, at + 2100) != prev
    ensures PollWindow(DEFAULT_CYCLE, d, NextPoll(render, ys, at), stamp)
  {
    hide Fetched, FetchOf, WarmPlan, HoldsFrame, SlotFrame, ApiOk, Complete, PlanFor, Drawn, Warm, BoardOf;
    var cfg, w := DEFAULT_CYCLE, NextPoll(render, ys, at).warm;
    WarmParts(render, ys, at + 2100);
    FetchFacts(ys, at + 2100);
    SyncedClockStays(cfg, d.rtc.meta, w.clock, at, at + 2100);
    FetchedIsData(d.rtc.meta, w.fetch);
    DrawsBoard(Fetched(d.rtc.meta, w.fetch), render, ys, at + 2100);
    var e := Ready(cfg, Awake(d), w);
    var i := WarmPush(e.ram, w, false, false);
    assert FirstFrame(e, i, stamp) == stamp(BoardOf(render, ys), at) && HavePrev(e);
    NoneIffUnchanged(e, FirstFrame(e, i, stamp), i);
    assert FinalFrame(e, i, stamp) == stamp(stamp(BoardOf(render, ys), at), at + 2100);
  }

  // There are such timetables, with one renderer and one stamp: a departure that slips by
  // five minutes.
  function Planned(at: int): Timetable {
    [Slots.Departure(at + 3000, Slots.Realtime, true, "", 0)]
  }

  function Slipped(at: int): Timetable {
    [Slots.Departure(at + 3300, Slots.Realtime, true, "", 0)]
  }

  lemma SuchTimetablesExist()
    ensures var at, stamp := MIN_PLAUSIBLE_EPOCH, Tick();
      var render, xs, ys := Marks(at + 3000), Planned(at), Slipped(at);
      var b, c := stamp(BoardOf(render, xs), at), stamp(BoardOf(render, ys), at);
      Later(xs, ys, at) && Fits(b) && c != b && stamp(c, at + 2100) != b
  {
    hide Fits;
    var at := MIN_PLAUSIBLE_EPOCH;
    BlankFits();
    assert BoardOf(Marks(at + 3000), Planned(at)) == Blank() && Tick()(Blank(), at) == Blank();
    var next := BoardOf(Marks(at + 3000), Slipped(at));
    assert next == Blank()[1 := 1];
    assert Tick()(next, at)[1] == 1 && Tick()(Tick()(next, at), at + 2100)[1] == 1 != Blank()[1];
  }
}
