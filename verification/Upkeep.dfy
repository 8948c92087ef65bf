/** What keeps the clock and the panel in order over many cycles: when the clock is synced
    or refused, when the panel is cleaned, and what a clean leaves behind. */
module Upkeep {
  import opened Meta
  import opened Store
  import opened Push
  import opened Cycle
  import opened Screens
  import opened Wrappers
  import Display
  import Fetch
  import Merge
  import Rescue
  import SleepPlan

  // ---------------------------------------------------------------- the clock

  // Past the planned wake by more than the overshoot, if one was planned on a real clock.
  predicate TooLate(cfg: CycleConfig, m: PersistedMeta, now: int) {
    m.expectedWakeAt >= 1700000000 && now - m.expectedWakeAt > cfg.maxWakeOvershoot
  }

  // With WiFi, but on a clock that was never set or is too late, and without an answer from
  // the time server: the cycle touches nothing.
  lemma RefusedClock(cfg: CycleConfig, d: Dev, w: WarmIn, force: bool, deepWake: bool, stamp: Stamp)
    requires w.connected && (!w.clock.synced || TooLate(cfg, d.ram, w.clock.wakeNow)) && w.clock.resync.None?
    ensures WarmCycle(cfg, d, w, force, deepWake, stamp) == d
  {
    hide WarmFinished, Fetched;
  }

  // Otherwise the cycle runs, on the time of the last sync there is: the forced one if the
  // clock was refused, then the daily one if that is longer ago than the interval and the
  // time server answers.
  lemma SyncTimes(cfg: CycleConfig, d: Dev, w: WarmIn, force: bool, deepWake: bool, stamp: Stamp)
    requires w.connected && ((w.clock.synced && !TooLate(cfg, d.ram, w.clock.wakeNow)) || w.clock.resync.Some?)
    ensures var c := w.clock;
      var forced := !c.synced || TooLate(cfg, d.ram, c.wakeNow);
      var last := if forced then c.resync.value else d.ram.lastNtpSync;
      WarmCycle(cfg, d, w, force, deepWake, stamp).ram.lastNtpSync ==
        if c.checkNow - last > cfg.ntpInterval && c.daily.Some? then c.daily.value else last
  {
    hide Fetched, WarmFinished;
    assert ClockUsable(cfg, d.ram, w.clock);
    FetchKeepsSync(ClockFixed(cfg, d.ram, w.clock), w.fetch);
    FinishKeepsSync(cfg, d.(ram := Fetched(ClockFixed(cfg, d.ram, w.clock), w.fetch)), w, force, deepWake, stamp);
  }

  lemma FetchKeepsSync(m: PersistedMeta, f: FetchIn)
    ensures Fetched(m, f).lastNtpSync == m.lastNtpSync && Fetched(m, f).lastDeepClean == m.lastDeepClean
  {
    hide Fetch.AfterFetch;
    Fetch.OnlyTheTripwire(m, f.replies);
  }

  lemma {:induction false} AttemptsKeepSync(m: PersistedMeta, r: RescueIn, n: nat)
    ensures AfterAttempts(m, r, n).lastNtpSync == m.lastNtpSync && AfterAttempts(m, r, n).lastDeepClean == m.lastDeepClean
  {
    if n > 0 {
      AttemptsKeepSync(m, r, n - 1);
      FetchKeepsSync(AfterAttempts(m, r, n - 1), r.fetch(n - 1));
    }
  }

  lemma PushKeepsSync(d: Dev, i: PushIn, stamp: Stamp)
    ensures var a := Pushed(d, i, stamp).ram; a.lastNtpSync == d.ram.lastNtpSync && a.lastDeepClean == d.ram.lastDeepClean
  {
    hide Fits;
    NoneIffUnchanged(d, FinalFrame(d, i, stamp), i);
  }

  lemma FinishKeepsSync(cfg: CycleConfig, d: Dev, w: WarmIn, force: bool, deepWake: bool, stamp: Stamp)
    ensures var a := WarmFinished(cfg, d, w, force, deepWake, stamp);
      && a.ram.lastNtpSync == d.ram.lastNtpSync && a.ram == a.rtc.meta && a.rtc.magic
      && a.ram.lastDeepClean == if Nightly(cfg, d.ram, w) then w.now else d.ram.lastDeepClean
  {
    hide Pushed, Nightly, LastPlan, LastNow, TraceOf, Drawn, PushesBoard, Complete, Fits;
    var u := Updated(cfg, d, w, force, deepWake, stamp);
    var r, n := w.rescue, Rescue.Fetches(TraceOf(cfg, w.rescue));
    PushKeepsSync(d, WarmPush(d.ram, w, force, deepWake), stamp);
    AttemptsKeepSync(u.ram, r, n);
    PushKeepsSync(u.(ram := AfterAttempts(u.ram, r, n)), RescuePush(AfterAttempts(u.ram, r, n), r, n, w.schedule, deepWake), stamp);
  }

  // ---------------------------------------------------------------- the nightly clean

  // A cycle cleans exactly when its fetch plans a deep sleep of more than the threshold and
  // the last clean is unknown or at least the interval back on a clock that did not go back.
  lemma NightlyIff(cfg: CycleConfig, m: PersistedMeta, w: WarmIn)
    ensures var p := SleepPlan.PlanOf(View(w.fetch, w.stored, w.fetch.now), w.now, cfg.sleep);
      Nightly(cfg, m, w) <==>
        && p.mode == SleepPlan.DeepSleep && p.seconds > cfg.longSleepForNightlyClean
        && (m.lastDeepClean == 0 || (w.now >= m.lastDeepClean && w.now - m.lastDeepClean >= cfg.nightlyInterval))
  {
    hide SleepPlan.PlanOf, Merge.Merged, Fetch.SnapshotOf;
  }

  // What it leaves behind: the clock reading of the cycle as the time of the clean, of the
  // last full refresh and of the picture, and no partials.
  lemma CleanLeaves(cfg: CycleConfig, d: Dev, w: WarmIn, force: bool, deepWake: bool, stamp: Stamp)
    requires w.connected && ClockUsable(cfg, d.ram, w.clock) && Nightly(cfg, Found(cfg, d, w), w)
    ensures var m := WarmCycle(cfg, d, w, force, deepWake, stamp).rtc.meta;
      m.lastDeepClean == m.lastLightFull == m.lastDisplayUpdate == w.now && m.partialCount == 0 && m.framebufferValid
  {
    hide Fetched, ClockUsable, ClockFixed, Nightly, LastPlan, LastNow, Complete, Fits, Drawn;
  }

  // So whatever the next wake or poll fetches, it does not clean again within the interval.
  lemma NoSecondClean(cfg: CycleConfig, d: Dev, w: WarmIn, x: WarmIn, force: bool, deepWake: bool, stamp: Stamp)
    requires w.connected && ClockUsable(cfg, d.ram, w.clock) && Nightly(cfg, Found(cfg, d, w), w)
    requires w.now != 0 && x.now < w.now + cfg.nightlyInterval
    ensures var a := Awake(WarmCycle(cfg, d, w, force, deepWake, stamp));
      !Nightly(cfg, Found(cfg, a, x), x)
  {
    hide WarmCycle, Fetched, ClockUsable, Nightly, SleepPlan.PlanOf, View;
    var a := Awake(WarmCycle(cfg, d, w, force, deepWake, stamp));
    CleanLeaves(cfg, d, w, force, deepWake, stamp);
    WarmSaves(cfg, d, w, force, deepWake, stamp);
    if ClockUsable(cfg, a.ram, x.clock) {
      FetchKeepsSync(ClockFixed(cfg, a.ram, x.clock), x.fetch);
    }
    NightlyIff(cfg, Found(cfg, a, x), x);
  }

  lemma WarmSaves(cfg: CycleConfig, d: Dev, w: WarmIn, force: bool, deepWake: bool, stamp: Stamp)
    requires w.connected && ClockUsable(cfg, d.ram, w.clock)
    ensures var a := WarmCycle(cfg, d, w, force, deepWake, stamp); a.ram == a.rtc.meta && a.rtc.magic
  {
    hide Fetched, WarmFinished;
    FinishKeepsSync(cfg, d.(ram := Fetched(ClockFixed(cfg, d.ram, w.clock), w.fetch)), w, force, deepWake, stamp);
  }

  // ---------------------------------------------------------------- the long press

  // A long press leaves a fresh full refresh behind, in both copies, over a frame the next
  // push can diff against if there was one or if the blank one fits.
  lemma LongPressLeaves(d: Dev, b: ButtonIn)
    ensures var a := PressHandled(d, Long, b);
      && a.ram == a.rtc.meta && a.rtc.magic && a.ram.framebufferValid
      && a.ram.lastDeepClean == a.ram.lastLightFull == b.now && a.ram.partialCount == 0
      && a.ram == d.ram.(framebufferValid := true, lastDeepClean := b.now, lastLightFull := b.now, partialCount := 0)
      && (HavePrev(a) <==> HavePrev(d) || Fits(b.blank))
      && (HavePrev(a) ==> SlotFrame(a.rtc.slot) == if HavePrev(d) then SlotFrame(d.rtc.slot) else b.blank)
  {
    SaveThenLoad(d.rtc, b.blank);
    hide Fits, HoldsFrame, SlotFrame, Display.Glass;
  }
}
