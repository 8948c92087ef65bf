/** From the replies to the saved wake target, and from there to the drift guard of the next
    wake (src/logic/cycle_runner.cpp, src/logic/sleep_planner.cpp). */
module WakeTarget {
  import opened CInts
  import opened Meta
  import opened Slots
  import opened Merge
  import opened SleepPlan
  import opened Wrappers
  import opened Display
  import opened Store
  import opened Push
  import opened Cycle
  import opened Routing
  import opened Histories
  import Fetch
  import GlassRuns
  import Rescue

  // ---------------------------------------------------------------- no departure is overslept

  // The fetch and the schedule that decide the sleep.
  function LastFetch(cfg: CycleConfig, m: PersistedMeta, w: WarmIn): FetchIn {
    if WasRescued(cfg, m, w) then LastOf(w.rescue, Rescue.Fetches(TraceOf(cfg, w.rescue))) else w.fetch
  }

  function LastSchedule(cfg: CycleConfig, m: PersistedMeta, w: WarmIn): Schedule {
    if WasRescued(cfg, m, w) then w.schedule else w.stored
  }

  lemma TargetIs(cfg: CycleConfig, d: Dev, w: WarmIn, force: bool, deepWake: bool, stamp: Stamp)
    ensures var now, plan := LastNow(cfg, d.ram, w), LastPlan(cfg, d.ram, w);
      && WarmFinished(cfg, d, w, force, deepWake, stamp).rtc.meta.expectedWakeAt ==
           (if now >= MIN_PLAUSIBLE_EPOCH then now + SleepSeconds(cfg, plan) else 0)
      && plan == PlanOf(MergedOf(LastFetch(cfg, d.ram, w), LastSchedule(cfg, d.ram, w)), now, cfg.sleep)
  {
    hide Updated, RescueEnd, TraceOf, TriesRescue, PlanOf;
  }

  // A sleep planned from a usable fetch ends the margins, less what the minute dedup hides,
  // before every departure on offer.
  lemma PlanInTime(f: FetchIn, schedule: Schedule, now: int, cfg: SleepConfig, s: nat, c: Departure)
    requires ApiOk(f) && 0 <= cfg.activeThreshold && s < STREAM_COUNT
    requires c in StreamOffers(Fetch.SnapshotOf(f.replies), schedule, f.now, s)
    ensures var plan := PlanOf(MergedOf(f, schedule), now, cfg);
      plan.mode == DeepSleep ==> now + plan.seconds + cfg.wakeBeforeBus + cfg.bootMargin - Slack(c.when) <= c.when
  {
    hide PlanOf, Plans, Merged, StreamOffers, Slack;
    var plan := PlanOf(MergedOf(f, schedule), now, cfg);
    PlanOfPlans(MergedOf(f, schedule), now, cfg);
    if plan.mode == DeepSleep {
      NeverOversleeps(Fetch.SnapshotOf(f.replies), schedule, f.now, now, cfg, plan, s, c);
    }
  }

  // Every warm cycle that goes to deep sleep after a usable fetch, rescued or not, sleeps
  // until that long before every departure the deciding fetch and schedule have on offer,
  // in every stream, and so says RTC memory.
  lemma WakeTargetInTime(cfg: CycleConfig, d: Dev, w: WarmIn, force: bool, deepWake: bool, stamp: Stamp, s: nat, c: Departure)
    requires 0 <= cfg.sleep.activeThreshold && s < STREAM_COUNT && LastPlan(cfg, d.ram, w).mode == DeepSleep
    requires var f := LastFetch(cfg, d.ram, w);
      ApiOk(f) && c in StreamOffers(Fetch.SnapshotOf(f.replies), LastSchedule(cfg, d.ram, w), f.now, s)
    ensures var target := WarmFinished(cfg, d, w, force, deepWake, stamp).rtc.meta.expectedWakeAt;
      var early := cfg.sleep.wakeBeforeBus + cfg.sleep.bootMargin - Slack(c.when);
      && LastNow(cfg, d.ram, w) + LastPlan(cfg, d.ram, w).seconds + early <= c.when
      && (target == 0 || target + early <= c.when)
  {
    hide WarmFinished, LastFetch, LastSchedule, LastNow, LastPlan, PlanOf, StreamOffers, ApiOk, Slack;
    TargetIs(cfg, d, w, force, deepWake, stamp);
    PlanInTime(LastFetch(cfg, d.ram, w), LastSchedule(cfg, d.ram, w), LastNow(cfg, d.ram, w), cfg.sleep, s, c);
  }

  // The production margins: 871 s to spare, past the epoch.
  lemma DefaultWakeTargetInTime(d: Dev, w: WarmIn, force: bool, deepWake: bool, stamp: Stamp, s: nat, c: Departure)
    requires s < STREAM_COUNT && LastPlan(DEFAULT_CYCLE, d.ram, w).mode == DeepSleep
    requires var f := LastFetch(DEFAULT_CYCLE, d.ram, w);
      && ApiOk(f) && 0 <= f.now
      && c in StreamOffers(Fetch.SnapshotOf(f.replies), LastSchedule(DEFAULT_CYCLE, d.ram, w), f.now, s)
    ensures var target := WarmFinished(DEFAULT_CYCLE, d, w, force, deepWake, stamp).rtc.meta.expectedWakeAt;
      target == 0 || target + 871 <= c.when
  {
    hide WarmFinished, LastFetch, LastSchedule, LastNow, LastPlan, StreamOffers, ApiOk;
    var f := LastFetch(DEFAULT_CYCLE, d.ram, w);
    OffersAre(Fetch.SnapshotOf(f.replies), LastSchedule(DEFAULT_CYCLE, d.ram, w), f.now, s, c);
    WakeTargetInTime(DEFAULT_CYCLE, d, w, force, deepWake, stamp, s, c);
  }

  // The same for the cold boot, whose board is also what its sleep is planned from.
  lemma ColdTargetInTime(cfg: CycleConfig, d: Dev, c: ColdIn, stamp: Stamp, s: nat, x: Departure)
    requires 0 <= cfg.sleep.activeThreshold && s < STREAM_COUNT && ApiOk(c.fetch) && ColdChoice(d.ram, c) == Board
    requires x in StreamOffers(Fetch.SnapshotOf(c.fetch.replies), c.schedule, c.now, s)
    ensures var target, plan := ColdFinished(cfg, d, c, stamp).rtc.meta.expectedWakeAt, PlanOf(ColdView(d.ram, c), c.now, cfg.sleep);
      plan.mode == DeepSleep ==>
        (target == 0 || target + cfg.sleep.wakeBeforeBus + cfg.sleep.bootMargin - Slack(x.when) <= x.when)
  {
    hide PlanOf, Merged, StreamOffers, Slack, ApiOk, SavedFrame, ColdBoard, ColdChoice;
    PlanInTime(c.fetch.(now := c.now), c.schedule, c.now, cfg.sleep, s, x) by {
      SameApi(c.fetch, c.now);
    }
  }

  lemma SameApi(f: FetchIn, now: int)
    ensures ApiOk(f.(now := now)) <==> ApiOk(f)
  {
  }

  // On an error screen the cold boot plans from an empty view: a short retry.
  lemma ColdErrorRetries(cfg: CycleConfig, m: PersistedMeta, c: ColdIn)
    requires ColdChoice(m, c) != Board
    ensures PlanOf(ColdView(m, c), c.now, cfg.sleep) == SleepDecision(DeepSleep, U32(cfg.sleep.apiFailureRetry))
  {
    hide First;
  }

  // ---------------------------------------------------------------- the drift guard

  // What sleep writes and the next wake reads: the guard distrusts a clock exactly if it
  // passed the planned wake by more than the overshoot, and abstains after a sleep that
  // began without a plausible clock.
  lemma DriftIff(cfg: CycleConfig, d: Dev, plan: SleepDecision, now: int, t: int)
    ensures DriftedAhead(cfg, Awake(Slept(cfg, d, plan, now)).ram, t) <==>
      now >= MIN_PLAUSIBLE_EPOCH && t > now + SleepSeconds(cfg, plan) + cfg.maxWakeOvershoot
  {
  }

  // The events of an outage: boots and polls, pressed or not, that find no WiFi and no
  // wrong password. A poll can only be the first; its WiFi-down branch goes to deep sleep.
  // Each event ends in the poll interval, and none saves a wake target.
  predicate Down(w: WarmIn) {
    !w.connected && !w.authFailed
  }

  predicate DownEvent(e: Event) {
    || (e.Setup? && Down(e.setup.warm))
    || (e.Poll? && Down(e.poll.warm))
  }

  predicate Outage(es: seq<Event>) {
    forall i | 0 <= i < |es| :: DownEvent(es[i])
  }

  lemma DownCycleKeepsTarget(cfg: CycleConfig, d: Dev, w: WarmIn, force: bool, deepWake: bool, stamp: Stamp)
    requires Down(w) && d.rtc.magic
    ensures var a := WarmCycle(cfg, d, w, force, deepWake, stamp);
      a.rtc.magic && a.rtc.meta.expectedWakeAt == d.rtc.meta.expectedWakeAt && RouteOf(a.rtc.meta) == RouteOf(d.rtc.meta)
  {
    hide FinalFrame, Decision, Restamps, WarmFinished, Fits, DownPush;
  }

  lemma PressKeepsTarget(d: Dev, p: Press, b: ButtonIn)
    requires d.rtc.magic && d.ram == d.rtc.meta
    ensures var a := PressHandled(d, p, b);
      a.rtc.magic && a.rtc.meta.expectedWakeAt == d.rtc.meta.expectedWakeAt && RouteOf(a.rtc.meta) == RouteOf(d.rtc.meta)
  {
    hide Fetched, Fits, Glass, HoldsFrame, SlotFrame;
  }

  lemma DownKeepsTarget(cfg: CycleConfig, d: Dev, e: Event, stamp: Stamp)
    requires DownEvent(e) && d.rtc.magic && RouteAt(d) == Route(true, 0)
    ensures var a := Step(cfg, d, e, stamp);
      a.rtc.magic && RouteAt(a) == Route(true, 0) && a.rtc.meta.expectedWakeAt == d.rtc.meta.expectedWakeAt
  {
    hide WarmCycle, ColdCycle, PressHandled;
    match e {
      case Poll(p) =>
        if p.press.Some? {
          PressKeepsTarget(Awake(d), p.press.value, p.button);
          DownCycleKeepsTarget(cfg, PressHandled(Awake(d), p.press.value, p.button), p.warm, true, false, stamp);
        } else {
          DownCycleKeepsTarget(cfg, Awake(d), p.warm, false, false, stamp);
        }
      case Setup(s) =>
        var o := Overlaid(cfg, Awake(d), s);
        PressKeepsTarget(o, s.press, s.button);
        DownCycleKeepsTarget(cfg, PressHandled(o, s.press, s.button), s.warm, true, true, stamp);
        DownCycleKeepsTarget(cfg, o, s.warm, false, true, stamp);
    }
  }

  lemma {:induction false} OutageKeepsTarget(cfg: CycleConfig, d: Dev, es: seq<Event>, stamp: Stamp)
    requires Outage(es) && d.rtc.magic && RouteAt(d) == Route(true, 0)
    ensures var a := GlassRuns.Run(cfg, d, es, stamp);
      a.rtc.magic && RouteAt(a) == Route(true, 0) && a.rtc.meta.expectedWakeAt == d.rtc.meta.expectedWakeAt
  {
    hide Step;
    if es != [] {
      OutageKeepsTarget(cfg, d, es[..|es| - 1], stamp);
      DownKeepsTarget(cfg, GlassRuns.Run(cfg, d, es[..|es| - 1], stamp), es[|es| - 1], stamp);
    }
  }

  // So after a sleep and any outage a clock reading t, however true, is taken for drifted
  // exactly when it is past the sleep's own end by more than the overshoot. After a plan to
  // stay awake that end is the next poll.
  lemma OutageLooksLikeDrift(cfg: CycleConfig, d: Dev, plan: SleepDecision, now: int, es: seq<Event>, stamp: Stamp, t: int)
    requires Outage(es) && RouteOf(d.ram) == Route(true, 0)
    ensures DriftedAhead(cfg, Awake(GlassRuns.Run(cfg, Slept(cfg, d, plan, now), es, stamp)).ram, t) <==>
      now >= MIN_PLAUSIBLE_EPOCH && t > now + SleepSeconds(cfg, plan) + cfg.maxWakeOvershoot
  {
    hide GlassRuns.Run;
    OutageKeepsTarget(cfg, Slept(cfg, d, plan, now), es, stamp);
  }

  // In wakes: a clock that kept perfect time is distrusted after more polls than fit into
  // the overshoot.
  lemma DriftAfterWakes(cfg: CycleConfig, d: Dev, plan: SleepDecision, now: int, es: seq<Event>, stamp: Stamp)
    requires Outage(es) && RouteOf(d.ram) == Route(true, 0) && now >= MIN_PLAUSIBLE_EPOCH
    ensures var t := now + SleepSeconds(cfg, plan) + |es| * cfg.pollInterval;
      DriftedAhead(cfg, Awake(GlassRuns.Run(cfg, Slept(cfg, d, plan, now), es, stamp)).ram, t) <==>
        |es| * cfg.pollInterval > cfg.maxWakeOvershoot
  {
    hide GlassRuns.Run;
    OutageLooksLikeDrift(cfg, d, plan, now, es, stamp, now + SleepSeconds(cfg, plan) + |es| * cfg.pollInterval);
  }

  // Wake k of such an outage, on a true clock.
  function DownAt(render: Renderer, xs: Timetable, now: int): Event {
    var s := Wake(Timer, None, render, xs, now);
    Setup(s.(warm := s.warm.(connected := false)))
  }

  function OutageFrom(render: Renderer, xs: Timetable, start: int, n: nat): seq<Event> {
    seq(n, (k: int) => DownAt(render, xs, start + 30 * k))
  }

  // From power-on: a good first boot sleeps towards its departure, or naps for half an hour
  // without one, and WiFi is gone from the timer wake on. The clock keeps time, yet after 61
  // wakes, and no earlier, it is taken for drifted.
  lemma OutageFromPowerOn(d: Dev, render: Renderer, xs: Timetable, at: int, es: seq<Event>, stamp: Stamp)
    requires d.rtc == POWER_ON && at >= MIN_PLAUSIBLE_EPOCH && Ahead(xs, at) && Fits(stamp(BoardOf(render, xs), at))
    requires PlanFrom(xs, at).mode == DeepSleep && es == OutageFrom(render, xs, at + PlanFrom(xs, at).seconds, |es|)
    ensures xs == [] ==> PlanFrom(xs, at).seconds == 1800
    ensures var a := AfterSetup(DEFAULT_CYCLE, d, Boot(render, xs, at), stamp);
      var t := at + PlanFrom(xs, at).seconds + 30 * |es|;
      DriftedAhead(DEFAULT_CYCLE, Awake(GlassRuns.Run(DEFAULT_CYCLE, a, es, stamp)).ram, t) <==> |es| >= 61
  {
    hide AfterSetup, GlassRuns.Run, DownAt, Boot, Fits, BoardOf;
    var a := AfterSetup(DEFAULT_CYCLE, d, Boot(render, xs, at), stamp);
    WakeAfterBoot(d, render, xs, at, stamp);
    OutageFromIsOne(render, xs, at + PlanFrom(xs, at).seconds, |es|);
    OutageKeepsTarget(DEFAULT_CYCLE, a, es, stamp);
  }

  lemma OutageFromIsOne(render: Renderer, xs: Timetable, start: int, n: nat)
    ensures Outage(OutageFrom(render, xs, start, n))
  {
    hide DownAt;
    var es := OutageFrom(render, xs, start, n);
    forall k | 0 <= k < n
      ensures DownEvent(es[k])
    {
      DownAtIsDown(render, xs, start + 30 * k);
    }
  }

  lemma DownAtIsDown(render: Renderer, xs: Timetable, now: int)
    ensures DownEvent(DownAt(render, xs, now))
  {
    hide FetchOf;
  }

  // And in the polling phase: a boot stays awake for its departure, and the poll after it
  // already finds no WiFi.
  function PollDownAt(render: Renderer, xs: Timetable, now: int): Event {
    Poll(PollIn(None, Pages(Blank()), Warm(render, xs, now).(connected := false)))
  }

  lemma OutageFromThePollingPhase(d: Dev, render: Renderer, xs: Timetable, at: int, n: nat, stamp: Stamp)
    requires d.rtc == POWER_ON && at >= MIN_PLAUSIBLE_EPOCH && xs != [] && Ahead(xs, at) && xs[0].when < at + 1050
    requires Fits(stamp(BoardOf(render, xs), at))
    ensures PlanFrom(xs, at) == SleepDecision(Active, 0)
    ensures var a := AfterSetup(DEFAULT_CYCLE, d, Boot(render, xs, at), stamp);
      var es := [PollDownAt(render, xs, at + 30)] + OutageFrom(render, xs, at + 60, n);
      DriftedAhead(DEFAULT_CYCLE, Awake(GlassRuns.Run(DEFAULT_CYCLE, a, es, stamp)).ram, at + 30 + 30 * |es|) <==> |es| >= 61
  {
    hide AfterSetup, GlassRuns.Run, DownAt, PollDownAt, Boot, Fits, BoardOf;
    var a := AfterSetup(DEFAULT_CYCLE, d, Boot(render, xs, at), stamp);
    var es := [PollDownAt(render, xs, at + 30)] + OutageFrom(render, xs, at + 60, n);
    WakeAfterBoot(d, render, xs, at, stamp);
    OutageFromIsOne(render, xs, at + 60, n);
    PollDownIsDown(render, xs, at + 30);
    OutageKeepsTarget(DEFAULT_CYCLE, a, es, stamp);
  }

  lemma PollDownIsDown(render: Renderer, xs: Timetable, now: int)
    ensures DownEvent(PollDownAt(render, xs, now))
  {
    hide FetchOf;
  }
}
