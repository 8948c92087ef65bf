/** A history from power-on in which the bus service refuses three batches in a row. */
module Refusals {
  import opened Meta
  import opened Display
  import opened Store
  import opened Push
  import opened Cycle
  import opened Histories
  import opened Wrappers
  import Fetch
  import Merge
  import Rescue
  import Routing
  import Screens
  import SleepPlan
  import Slots

  // The first batch is answered 401, and the second with `status`; there is no HAFAS.
  function Refused(status: int, now: int): FetchIn {
    var no := (n: int) => Fetch.OgdReply(Fetch.FetchOutcome(false, 1, n), None);
    FetchIn(Fetch.Inputs(no(401), no(status), None), now, true)
  }

  function RefusedWake(render: Renderer, status: int, now: int): SetupIn {
    var s := Wake(Timer, None, render, [], now);
    s.(warm := s.warm.(fetch := Refused(status, now)))
  }

  lemma RefusedFacts(m: PersistedMeta, status: int, now: int)
    ensures var n, f := Fetched(m, Refused(status, now)), Refused(status, now);
      && !ApiOk(f) && !Complete(f) && f.wifiUp && f.now == now
      && n == m.(ogdAuthStreak := n.ogdAuthStreak, authErrorSeen := n.authErrorSeen)
      && (m.ogdAuthStreak == 0 && status == 403 ==> n.ogdAuthStreak == 2 && n.authErrorSeen == m.authErrorSeen)
      && (m.ogdAuthStreak == 2 ==> n.authErrorSeen)
  {
  }

  // A fetch that failed plans the short retry, and so no clean; and no rescue gets anywhere.
  lemma ShortRetry(render: Renderer, status: int, now: int, m: PersistedMeta)
    ensures var w := RefusedWake(render, status, now).warm;
      && WarmPlan(DEFAULT_CYCLE, w) == SleepPlan.SleepDecision(SleepPlan.DeepSleep, 60)
      && !Nightly(DEFAULT_CYCLE, m, w)
      && !Rescue.Rescued(TraceOf(DEFAULT_CYCLE, w.rescue)) && Rescue.Fetches(TraceOf(DEFAULT_CYCLE, w.rescue)) == 0
  {
    hide Refused, TraceOf, SleepPlan.PlanOf, MergedOf, Fetched, FetchOf, ApiOk, Rescue.Rescued, Rescue.Fetches;
    var w := RefusedWake(render, status, now).warm;
    RefusedFacts(m, status, now);
    FailedPlansRetry(w.fetch, w.stored, w.now);
    StuckBeforeWindow(w.rescue);
  }

  lemma FailedPlansRetry(f: FetchIn, schedule: Slots.Schedule, now: int)
    requires !ApiOk(f)
    ensures SleepPlan.PlanOf(MergedOf(f, schedule), now, SleepPlan.DEFAULT_SLEEP_CONFIG) ==
      SleepPlan.SleepDecision(SleepPlan.DeepSleep, 60)
  {
    hide SleepPlan.First, Fetch.StreamOf;
  }

  lemma StuckBeforeWindow(r: RescueIn)
    requires r.anchor == 0 && forall n: nat :: r.clock(n) == 0
    ensures !Rescue.Rescued(TraceOf(DEFAULT_CYCLE, r)) && Rescue.Fetches(TraceOf(DEFAULT_CYCLE, r)) == 0
  {
    var c, k, p := Rescue.DEFAULT_RESCUE, r.clock, Completes(r);
    assert Rescue.RescueTrace(c, 0, k, p, 0, 4) == [];
    var t3 := Rescue.RescueTrace(c, 0, k, p, 0, 3);
    var t2 := Rescue.RescueTrace(c, 0, k, p, 0, 2);
    var t1 := Rescue.RescueTrace(c, 0, k, p, 0, 1);
    var wait := [Rescue.Waited(0, 20)];
    Rescue.NoActions();
    assert t3 == wait + [] && t2 == wait + t3 && t1 == wait + t2 && TraceOf(DEFAULT_CYCLE, r) == wait + t1;
    Rescue.HeadThenRest(wait, [], []);
    Rescue.HeadThenRest(wait, t3, []);
    Rescue.HeadThenRest(wait, t2, []);
    Rescue.HeadThenRest(wait, t1, []);
  }

  // The board is up and stored, and `streak` batches in a row have been refused.
  ghost predicate Waiting(d: Dev, board: Frame, at: int, streak: nat) {
    && Showing(d, board, at) && d.rtc.meta.ogdAuthStreak == streak
    && !d.rtc.meta.authErrorSeen && d.rtc.meta.lastNtpSync == at
  }

  // The first refused wake draws nothing, counts two, and asks to be woken in a minute.
  lemma FirstRefusal(d: Dev, render: Renderer, board: Frame, at: int, now: int, stamp: Stamp)
    requires Waiting(d, board, at, 0) && MIN_PLAUSIBLE_EPOCH <= at <= now < at + 3600
    requires d.rtc.meta.expectedWakeAt >= now - 1800
    ensures var a := AfterSetup(DEFAULT_CYCLE, d, RefusedWake(render, 403, now), stamp);
      Waiting(a, board, at, 2) && a.rtc.meta.expectedWakeAt == now + 60
  {
    hide Fetched, Refused, FetchOf, ApiOk, Complete, Glass, HoldsFrame, SlotFrame, WarmPlan, Nightly, TraceOf, Pushed,
         ClockUsable, ClockFixed;
    var cfg, w := DEFAULT_CYCLE, RefusedWake(render, 403, now).warm;
    SyncedClockStays(cfg, d.rtc.meta, w.clock, at, now);
    RefusedFacts(d.rtc.meta, 403, now);
    ShortRetry(render, 403, now, Fetched(d.rtc.meta, w.fetch));
  }

  // From power-on: a good first boot without departures naps for half an hour, and the timer
  // wake after it is refused on both batches, with 401 and 403. The board is still up. A
  // third refused batch in the next wake, the other one being lost, puts the auth screen
  // on the glass although WiFi and the data are there.
  lemma ThreeRefusedBatches(d: Dev, render: Renderer, at: int, stamp: Stamp)
    requires d.rtc == POWER_ON && at >= MIN_PLAUSIBLE_EPOCH && Overwrites(stamp) && Fits(stamp(BoardOf(render, []), at))
    ensures var a := AfterSetup(DEFAULT_CYCLE, d, Boot(render, [], at), stamp);
      var b := AfterSetup(DEFAULT_CYCLE, a, RefusedWake(render, 403, at + 1800), stamp);
      var c := AfterSetup(DEFAULT_CYCLE, b, RefusedWake(render, 0, at + 1860), stamp);
      && b.glass == Glass(stamp(BoardOf(render, []), at)) && ShowsStamped(c, render(AuthScreen, Screens.NO_VIEW), stamp)
  {
    hide AfterSetup, Boot, RefusedWake, BoardOf, Fits, Glass, HoldsFrame, SlotFrame, ShowsStamped;
    var board := stamp(BoardOf(render, []), at);
    var a := AfterSetup(DEFAULT_CYCLE, d, Boot(render, [], at), stamp);
    WakeAfterBoot(d, render, [], at, stamp);
    FirstRefusal(a, render, board, at, at + 1800, stamp);
    ThirdRefusal(AfterSetup(DEFAULT_CYCLE, a, RefusedWake(render, 403, at + 1800), stamp), render, board, at, at + 1860, stamp);
  }

  lemma ThirdRefusal(d: Dev, render: Renderer, board: Frame, at: int, now: int, stamp: Stamp)
    requires Waiting(d, board, at, 2) && MIN_PLAUSIBLE_EPOCH <= at <= now < at + 3600 && Overwrites(stamp)
    requires d.rtc.meta.expectedWakeAt >= now - 1800
    ensures ShowsStamped(AfterSetup(DEFAULT_CYCLE, d, RefusedWake(render, 0, now), stamp), render(AuthScreen, Screens.NO_VIEW), stamp)
  {
    hide Fetched, Refused, FetchOf, ApiOk, Complete, Glass, HoldsFrame, SlotFrame, WarmPlan, Nightly, TraceOf, Pushed,
         ClockUsable, ClockFixed, WarmCycle, ShowsStamped, Overwrites;
    var cfg, s := DEFAULT_CYCLE, RefusedWake(render, 0, now);
    var w := s.warm;
    SyncedClockStays(cfg, d.rtc.meta, w.clock, at, now);
    RefusedFacts(d.rtc.meta, 0, now);
    ShortRetry(render, 0, now, Fetched(d.rtc.meta, w.fetch));
    Screens.AuthIsShown(cfg, Awake(d), w, false, true, stamp);
  }
}
