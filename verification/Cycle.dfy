/** The cycles of src/logic/cycle_runner.cpp on one device: what each does to RTC memory,
    to the metadata and to the glass. Clock readings, replies, schedules and error screens
    are inputs, and so is the renderer; the merge, the screen and the sleep plan are computed. */
module Cycle {
  import opened Bytes
  import opened Meta
  import opened Display
  import opened Store
  import opened Push
  import opened Wrappers
  import Fetch
  import Merge
  import Rescue
  import SleepPlan
  import Slots

  const OFFLINE_THRESHOLD_S := 300
  const MIN_PLAUSIBLE_EPOCH := 1700000000

  datatype CycleConfig = CycleConfig(
    coldBootMaxRetries: byte, noWifiRepaintEvery: byte, bootInfoShow: int, brownoutShow: int, pollInterval: nat,
    longSleepForNightlyClean: nat, nightlyInterval: int, ntpInterval: int, maxWakeOvershoot: int,
    rescue: Rescue.RescueConfig, sleep: SleepPlan.SleepConfig)

  const DEFAULT_CYCLE := CycleConfig(5, 5, 15, 4, 30, 14400, 72000, 86400, 1800, Rescue.DEFAULT_RESCUE,
                                    SleepPlan.DEFAULT_SLEEP_CONFIG)

  // ---------------------------------------------------------------- routing and screens

  datatype WakeCause = ColdBoot | Timer | Button | OtherCause

  datatype CycleKind = ColdKind | WarmKind | ButtonKind

  function SelectCycle(cause: WakeCause, retries: nat, hasAnyData: bool): CycleKind {
    if cause == Button then ButtonKind
    else if retries > 0 || !hasAnyData then ColdKind
    else WarmKind
  }

  datatype Screen = AuthScreen | BootScreen | OfflineScreen | Board

  function SelectScreen(m: PersistedMeta, wifiUp: bool, now: int): Screen {
    if m.authErrorSeen then AuthScreen
    else if !m.hasAnyData then BootScreen
    else if !wifiUp && now - m.lastSuccessAt > OFFLINE_THRESHOLD_S then OfflineScreen
    else Board
  }

  // What the renderer makes of a screen and the snapshot on it.
  type Renderer = (Screen, Slots.Snapshot) -> Frame

  // Only the board shows departures: realtime merged with the schedule when it is drawn.
  function Composed(screen: Screen, snap: Slots.Snapshot, schedule: Slots.Schedule, now: int): Slots.Snapshot {
    if screen == Board then Merge.Merged(snap, schedule, now) else Slots.EMPTY_SNAPSHOT
  }

  method ComposeRenderInput(screen: Screen, snap: Slots.Snapshot, schedule: Slots.Schedule, now: int)
    returns (view: Slots.Snapshot)
    ensures view == Composed(screen, snap, schedule, now)
  {
    if screen == Board {
      view := Merge.MergeSlots(snap, schedule, now);
    } else {
      view := Slots.EMPTY_SNAPSHOT;
    }
  }

  // ---------------------------------------------------------------- one fetch

  // The replies, the clock afterwards, and whether WiFi is still up then.
  datatype FetchIn = FetchIn(replies: Fetch.Inputs, now: int, wifiUp: bool)

  predicate ApiOk(f: FetchIn) {
    var s := Fetch.SummaryOf(f.replies);
    s.failed < s.total
  }

  predicate Complete(f: FetchIn) {
    var s := Fetch.SummaryOf(f.replies);
    s.total > 0 && s.failed == 0
  }

  function Fetched(m: PersistedMeta, f: FetchIn): PersistedMeta {
    var a := Fetch.AfterFetch(m, f.replies);
    if ApiOk(f) then a.(lastApiSuccess := f.now, lastSuccessAt := f.now, hasAnyData := true) else a
  }

  // The view the sleep is planned from.
  function MergedOf(f: FetchIn, schedule: Slots.Schedule): Slots.Snapshot {
    Merge.Merged(Fetch.SnapshotOf(f.replies), schedule, f.now)
  }

  datatype FetchResult = FetchResult(
    snap: Slots.Snapshot, merged: Slots.Snapshot, complete: bool, screen: Screen, ok: bool)

  // What doFetchCycle hands back, given the metadata after the fetch.
  function ResultOf(m: PersistedMeta, f: FetchIn, schedule: Slots.Schedule): FetchResult {
    FetchResult(Fetch.SnapshotOf(f.replies), MergedOf(f, schedule), Complete(f), SelectScreen(m, f.wifiUp, f.now), ApiOk(f))
  }

  method FetchSnapshot(dev: Device, f: FetchIn) returns (snap: Slots.Snapshot, complete: bool, ok: bool)
    requires dev.Valid()
    modifies dev`meta
    ensures dev.Valid() && dev.Value() == old(dev.Value()).(ram := Fetched(old(dev.meta), f))
    ensures snap == Fetch.SnapshotOf(f.replies) && complete == Complete(f) && ok == ApiOk(f)
  {
    var fetcher := new Fetch.Fetcher(dev.meta);
    ok := fetcher.FetchSnapshot(f.replies);
    dev.meta := fetcher.meta;
    if ok {
      dev.meta := dev.meta.(lastApiSuccess := f.now, lastSuccessAt := f.now, hasAnyData := true);
    }
    complete := fetcher.summary.total > 0 && fetcher.summary.failed == 0;
    snap := fetcher.out;
  }

  method DoFetchCycle(dev: Device, f: FetchIn, schedule: Slots.Schedule) returns (r: FetchResult)
    requires dev.Valid()
    modifies dev`meta
    ensures dev.Valid() && dev.Value() == old(dev.Value()).(ram := Fetched(old(dev.meta), f))
    ensures r == ResultOf(dev.meta, f, schedule)
  {
    var snap, complete, ok := FetchSnapshot(dev, f);
    var screen := SelectScreen(dev.meta, f.wifiUp, f.now);
    var merged := Merge.MergeSlots(snap, schedule, f.now);
    r := FetchResult(snap, merged, complete, screen, ok);
  }

  // ---------------------------------------------------------------- going to sleep

  function SleepSeconds(cfg: CycleConfig, plan: SleepPlan.SleepDecision): nat {
    if plan.mode == SleepPlan.DeepSleep then plan.seconds else cfg.pollInterval
  }

  function Slept(cfg: CycleConfig, d: Dev, plan: SleepPlan.SleepDecision, now: int): Dev {
    var m := d.ram.(expectedWakeAt := if now >= MIN_PLAUSIBLE_EPOCH then now + SleepSeconds(cfg, plan) else 0);
    d.(rtc := SavedMeta(d.rtc, m), ram := m)
  }

  method DoSleepOrLoop(dev: Device, cfg: CycleConfig, plan: SleepPlan.SleepDecision, now: int)
    requires dev.Valid()
    modifies dev, dev.store
    ensures dev.Valid() && dev.Value() == Slept(cfg, old(dev.Value()), plan, now)
  {
    var seconds := if plan.mode == SleepPlan.DeepSleep then plan.seconds else cfg.pollInterval;
    dev.meta := dev.meta.(expectedWakeAt := if now >= MIN_PLAUSIBLE_EPOCH then now + seconds else 0);
    dev.store.SaveMeta(dev.meta);
  }

  // ---------------------------------------------------------------- painting without saving

  method ShowLight(dev: Device, fb: Frame)
    requires dev.Valid()
    modifies dev.curr, dev.panel, dev.panel.pix
    ensures dev.Valid() && dev.curr[..] == fb && dev.Value() == old(dev.Value()).(glass := Glass(fb))
    ensures dev.panel.flashes == old(dev.panel.flashes) + 1
  {
    dev.Draw(fb);
    dev.panel.LightFull(dev.curr[..]);
  }

  method ShowDeep(dev: Device, fb: Frame)
    requires dev.Valid()
    modifies dev.curr, dev.panel, dev.panel.pix
    ensures dev.Valid() && dev.curr[..] == fb && dev.Value() == old(dev.Value()).(glass := Glass(fb))
    ensures dev.panel.flashes == old(dev.panel.flashes) + 3
  {
    dev.Draw(fb);
    dev.panel.DeepClean(dev.curr[..]);
  }

  // The stored frame no longer counts, and RTC memory says so.
  function Forgotten(d: Dev, m: PersistedMeta, g: Picture): Dev {
    var n := m.(framebufferValid := false);
    Dev(SavedMeta(d.rtc, n), n, g)
  }

  // ---------------------------------------------------------------- cold boot

  datatype BootResult = Ok | RetryLater | GiveUp

  function RunColdBoot(connected: bool, ntp: bool, retries: nat, maxRetries: nat): BootResult {
    if connected && ntp then Ok
    else if retries + 1 >= maxRetries then GiveUp
    else RetryLater
  }

  datatype ColdIn = ColdIn(
    bootScreen: Frame, connected: bool, ntp: bool, authFailed: bool, errorScreen: Frame,
    fetch: FetchIn, check: Frame, schedule: Slots.Schedule, render: Renderer, now: int, lastSync: int)

  predicate ShowsBootScreen(m: PersistedMeta) {
    !m.framebufferValid && m.coldBootRetries == 0
  }

  function RepaintEvery(cfg: CycleConfig): nat {
    if cfg.noWifiRepaintEvery > 0 then cfg.noWifiRepaintEvery else 1
  }

  predicate Repaints(cfg: CycleConfig, m: PersistedMeta) {
    m.noWifiCycles % RepaintEvery(cfg) == 0
  }

  function Missed(cfg: CycleConfig, m: PersistedMeta): PersistedMeta {
    m.(coldBootRetries := if m.coldBootRetries < cfg.coldBootMaxRetries then m.coldBootRetries + 1 else m.coldBootRetries,
       noWifiCycles := (m.noWifiCycles + 1) % UINT8)
  }

  // What a boot that got no further leaves behind.
  function BootFailed(cfg: CycleConfig, d: Dev, c: ColdIn): Dev {
    if c.authFailed then Forgotten(d, d.ram.(coldBootRetries := 0, noWifiCycles := 0), Glass(c.errorScreen))
    else Forgotten(d, Missed(cfg, d.ram), if Repaints(cfg, d.ram) then Glass(c.errorScreen) else d.glass)
  }

  // Only every n-th miss repaints: the first one thoroughly, the later ones with one flash.
  method PaintNoNetwork(dev: Device, cfg: CycleConfig, fb: Frame)
    requires dev.Valid()
    modifies dev.curr, dev.panel, dev.panel.pix
    ensures dev.Valid()
    ensures dev.Value() == old(dev.Value()).(glass := if Repaints(cfg, dev.meta) then Glass(fb) else old(dev.Value().glass))
    ensures dev.panel.flashes == old(dev.panel.flashes) + if !Repaints(cfg, dev.meta) then 0 else if dev.meta.noWifiCycles == 0 then 3 else 1
  {
    var every := if cfg.noWifiRepaintEvery > 0 then cfg.noWifiRepaintEvery else 1;
    var firstPaint := dev.meta.noWifiCycles == 0;
    if dev.meta.noWifiCycles % every == 0 {
      if firstPaint {
        ShowDeep(dev, fb);
      } else {
        ShowLight(dev, fb);
      }
    }
  }

  method HandleColdBootOutcome(dev: Device, cfg: CycleConfig, r: BootResult, c: ColdIn) returns (proceed: bool)
    requires dev.Valid()
    modifies dev.Repr()
    ensures dev.Valid() && proceed == r.Ok?
    ensures dev.Value() ==
      if r.Ok? then old(dev.Value()).(ram := old(dev.meta).(coldBootRetries := 0, noWifiCycles := 0))
      else BootFailed(cfg, old(dev.Value()), c)
  {
    if r == Ok {
      dev.meta := dev.meta.(coldBootRetries := 0, noWifiCycles := 0);
      return true;
    }
    if c.authFailed {
      ShowDeep(dev, c.errorScreen);
      dev.meta := dev.meta.(coldBootRetries := 0, noWifiCycles := 0, framebufferValid := false);
      dev.store.SaveMeta(dev.meta);
      return false;
    }
    PaintNoNetwork(dev, cfg, c.errorScreen);
    if dev.meta.coldBootRetries < cfg.coldBootMaxRetries {
      dev.meta := dev.meta.(coldBootRetries := dev.meta.coldBootRetries + 1);
    }
    dev.meta := dev.meta.(noWifiCycles := (dev.meta.noWifiCycles + 1) % UINT8);
    dev.meta := dev.meta.(framebufferValid := false);
    dev.store.SaveMeta(dev.meta);
    return false;
  }

  // The screen and the view of the first good frame.
  function ColdChoice(m: PersistedMeta, c: ColdIn): Screen {
    SelectScreen(m, c.fetch.wifiUp, c.now)
  }

  function ColdView(m: PersistedMeta, c: ColdIn): Slots.Snapshot {
    Composed(ColdChoice(m, c), Fetch.SnapshotOf(c.fetch.replies), c.schedule, c.now)
  }

  function ColdBoard(m: PersistedMeta, c: ColdIn): Frame {
    c.render(ColdChoice(m, c), ColdView(m, c))
  }

  // It is saved, and marked valid whether or not it fitted; its view plans the sleep.
  function ColdFinished(cfg: CycleConfig, d: Dev, c: ColdIn, stamp: Stamp): Dev {
    var fb := stamp(ColdBoard(d.ram, c), c.now);
    var m := d.ram.(lastDisplayUpdate := c.now, lastDeepClean := c.now, lastLightFull := c.now,
                    lastNtpSync := c.lastSync, framebufferValid := true);
    Slept(cfg, Dev(SavedFrame(d.rtc, fb), m, Glass(fb)), SleepPlan.PlanOf(ColdView(d.ram, c), c.now, cfg.sleep), c.now)
  }

  method FinishColdCycle(dev: Device, cfg: CycleConfig, snap: Slots.Snapshot, c: ColdIn, stamp: Stamp)
    requires dev.Valid() && snap == Fetch.SnapshotOf(c.fetch.replies)
    modifies dev.Repr()
    ensures dev.Valid() && dev.Value() == ColdFinished(cfg, old(dev.Value()), c, stamp)
    ensures dev.panel.flashes == old(dev.panel.flashes) + if cfg.bootInfoShow > 0 then 1 else 3
  {
    hide Composed, SelectScreen, Slept, SavedFrame, Fetch.SnapshotOf, SleepPlan.PlanOf;
    var screen := SelectScreen(dev.meta, c.fetch.wifiUp, c.now);
    var view := ComposeRenderInput(screen, snap, c.schedule, c.now);
    dev.Draw(c.render(screen, view));
    dev.Draw(stamp(dev.curr[..], c.now));
    dev.meta := dev.meta.(lastDisplayUpdate := c.now);
    if cfg.bootInfoShow > 0 {
      dev.panel.LightFull(dev.curr[..]);
    } else {
      dev.panel.DeepClean(dev.curr[..]);
    }
    dev.meta := dev.meta.(lastDeepClean := c.now, lastLightFull := c.now, lastNtpSync := c.lastSync);
    var _ := dev.store.SaveFramebuffer(dev.curr[..]);
    dev.meta := dev.meta.(framebufferValid := true);
    var plan := SleepPlan.PlanSleep(view, c.now, cfg.sleep);
    DoSleepOrLoop(dev, cfg, plan, c.now);
  }

  predicate Boots(cfg: CycleConfig, m: PersistedMeta, c: ColdIn) {
    RunColdBoot(c.connected, c.ntp, m.coldBootRetries, cfg.coldBootMaxRetries) == Ok
  }

  function ColdCycle(cfg: CycleConfig, d: Dev, c: ColdIn, stamp: Stamp): Dev {
    var d1 := if ShowsBootScreen(d.ram) then d.(glass := Glass(c.bootScreen)) else d;
    if Boots(cfg, d.ram, c) then
      var m := Fetched(d.ram.(coldBootRetries := 0, noWifiCycles := 0), c.fetch);
      ColdFinished(cfg, d1.(ram := m), c, stamp)
    else BootFailed(cfg, d1, c)
  }

  method RunColdCycle(dev: Device, cfg: CycleConfig, c: ColdIn, stamp: Stamp)
    requires dev.Valid()
    modifies dev.Repr()
    ensures dev.Valid() && dev.Value() == ColdCycle(cfg, old(dev.Value()), c, stamp)
  {
    if !dev.meta.framebufferValid && dev.meta.coldBootRetries == 0 {
      ShowLight(dev, c.bootScreen);
    }
    var r := RunColdBoot(c.connected, c.ntp, dev.meta.coldBootRetries, cfg.coldBootMaxRetries);
    var proceed := HandleColdBootOutcome(dev, cfg, r, c);
    if !proceed {
      return;
    }
    var snap, _, _ := FetchSnapshot(dev, c.fetch);
    if cfg.bootInfoShow > 0 {
      ShowDeep(dev, c.check);
    }
    FinishColdCycle(dev, cfg, snap, c, stamp);
  }

  // ---------------------------------------------------------------- rescue

  // Clock readings and replies per iteration and attempt; the clock of the extra push.
  datatype RescueIn = RescueIn(anchor: int, clock: nat -> int, fetch: nat -> FetchIn, render: Renderer, pushNow: int)

  function Completes(r: RescueIn): nat -> bool {
    (k: nat) => Complete(r.fetch(k))
  }

  function TraceOf(cfg: CycleConfig, r: RescueIn): seq<Rescue.RescueAction> {
    Rescue.RescueTrace(cfg.rescue, r.anchor, r.clock, Completes(r), 0, 0)
  }

  function AfterAttempts(m: PersistedMeta, r: RescueIn, n: nat): PersistedMeta {
    if n == 0 then m else Fetched(AfterAttempts(m, r, n - 1), r.fetch(n - 1))
  }

  // The last of n attempts.
  function LastOf(r: RescueIn, n: nat): FetchIn {
    r.fetch(if n > 0 then n - 1 else 0)
  }

  // What a push finds to render: the chosen screen and its view at the moment of the push.
  function Drawn(m: PersistedMeta, f: FetchIn, schedule: Slots.Schedule, render: Renderer, now: int): Frame {
    var screen := SelectScreen(m, f.wifiUp, f.now);
    render(screen, Composed(screen, Fetch.SnapshotOf(f.replies), schedule, now))
  }

  function RescuePush(m: PersistedMeta, r: RescueIn, n: nat, schedule: Slots.Schedule, deepWake: bool): PushIn {
    PushIn(Drawn(m, LastOf(r, n), schedule, r.render, r.pushNow), r.pushNow, false, deepWake)
  }

  function RescueEnd(cfg: CycleConfig, d: Dev, r: RescueIn, schedule: Slots.Schedule, deepWake: bool, stamp: Stamp): Dev {
    var t := TraceOf(cfg, r);
    var n := Rescue.Fetches(t);
    var d1 := d.(ram := AfterAttempts(d.ram, r, n));
    if Rescue.Rescued(t) then Pushed(d1, RescuePush(d1.ram, r, n, schedule, deepWake), stamp) else d1
  }

  // One attempt of the loop.
  method RescueAttempt(dev: Device, r: RescueIn, schedule: Slots.Schedule, n: nat, ghost m: PersistedMeta)
    returns (fc: FetchResult)
    requires dev.Valid() && dev.meta == AfterAttempts(m, r, n)
    modifies dev`meta
    ensures dev.Valid() && dev.meta == AfterAttempts(m, r, n + 1)
    ensures fc == ResultOf(dev.meta, r.fetch(n), schedule) && (fc.ok && fc.complete <==> Completes(r)(n))
  {
    fc := DoFetchCycle(dev, r.fetch(n), schedule);
  }

  // Fetch again inside the window until a snapshot is complete. The log records the
  // pauses, the attempts and the coming push in order.
  method RescueLoop(dev: Device, cfg: CycleConfig, r: RescueIn, schedule: Slots.Schedule, fc0: FetchResult)
    returns (ok: bool, attempts: nat, log: seq<Rescue.RescueAction>, fc: FetchResult)
    requires dev.Valid()
    modifies dev`meta
    ensures dev.Valid() && dev.meta == AfterAttempts(old(dev.meta), r, attempts)
    ensures Rescue.Finish(cfg.rescue, r.anchor, r.clock, Completes(r), 0, 0, []) == Rescue.Outcome(log, attempts, ok)
    ensures fc == if ok then ResultOf(dev.meta, LastOf(r, attempts), schedule) else fc0
  {
    hide Fetched, ResultOf;
    var waits: nat := 0;
    attempts, log, fc := 0, [], fc0;
    while attempts < cfg.rescue.maxAttempts && waits <= cfg.rescue.maxAttempts
      invariant dev.Valid() && dev.meta == AfterAttempts(old(dev.meta), r, attempts)
      invariant Rescue.Finish(cfg.rescue, r.anchor, r.clock, Completes(r), 0, 0, []) ==
        Rescue.Finish(cfg.rescue, r.anchor, r.clock, Completes(r), attempts, waits, log)
      decreases 2 * cfg.rescue.maxAttempts - attempts - waits
    {
      var now := r.clock(attempts + waits);
      var step := Rescue.NextRescueStep(now, r.anchor, cfg.rescue);
      if step == Rescue.Stop {
        return false, attempts, log, fc0;
      }
      if step.Wait? {
        waits := waits + 1;
        log := log + [Rescue.Waited(now, step.seconds)];
        continue;
      }
      attempts := attempts + 1;
      var retry := RescueAttempt(dev, r, schedule, attempts - 1, old(dev.meta));
      if retry.ok && retry.complete {
        return true, attempts, log + [Rescue.Fetched(now, true), Rescue.PushedBoard], retry;
      }
      log := log + [Rescue.Fetched(now, false), Rescue.Rested(cfg.rescue.retryPause)];
    }
    return false, attempts, log, fc0;
  }

  // The deciding result is the rescued one, or the one the cycle came with.
  method RunRescueFetch(dev: Device, cfg: CycleConfig, r: RescueIn, schedule: Slots.Schedule, fc0: FetchResult,
                        deepWake: bool, stamp: Stamp)
    returns (ok: bool, log: seq<Rescue.RescueAction>, fc: FetchResult)
    requires dev.Valid()
    modifies dev.Repr()
    ensures dev.Valid() && dev.Value() == RescueEnd(cfg, old(dev.Value()), r, schedule, deepWake, stamp)
    ensures log == TraceOf(cfg, r) && ok == Rescue.Rescued(log)
    ensures fc.merged == if ok then MergedOf(LastOf(r, Rescue.Fetches(log)), schedule) else fc0.merged
  {
    hide Fetched, Pushed, SelectScreen, Merge.Merged, Fetch.SnapshotOf, Complete, ApiOk, Rescue.RescueTrace, Rescue.Finish;
    var attempts;
    ok, attempts, log, fc := RescueLoop(dev, cfg, r, schedule, fc0);
    Rescue.FinishIsTrace(cfg.rescue, r.anchor, r.clock, Completes(r), 0, 0, []);
    if ok {
      var view := ComposeRenderInput(fc.screen, fc.snap, schedule, r.pushNow);
      dev.RenderAndPush(PushIn(r.render(fc.screen, view), r.pushNow, false, deepWake), stamp);
    }
  }

  // ---------------------------------------------------------------- warm cycle

  // The clock as the warm cycle finds it: synced or not, its reading, the reading after a
  // forced sync (none if NTP fails), and the same for the daily sync.
  datatype ClockIn = ClockIn(synced: bool, wakeNow: int, resync: Option<int>, checkNow: int, daily: Option<int>)

  // `stored` is the schedule found in the store, `schedule` the one after a refresh that
  // may follow the fetch; `render` is the renderer.
  datatype WarmIn = WarmIn(
    connected: bool, authFailed: bool, authScreen: Frame, downNow: int, clock: ClockIn, fetch: FetchIn,
    stored: Slots.Schedule, schedule: Slots.Schedule, now: int, render: Renderer, pushNow: int,
    rescue: RescueIn, rescueNow: int)

  predicate DriftedAhead(cfg: CycleConfig, m: PersistedMeta, now: int) {
    m.expectedWakeAt >= MIN_PLAUSIBLE_EPOCH && now > m.expectedWakeAt + cfg.maxWakeOvershoot
  }

  predicate ClockUsable(cfg: CycleConfig, m: PersistedMeta, c: ClockIn) {
    (c.synced && !DriftedAhead(cfg, m, c.wakeNow)) || c.resync.Some?
  }

  function ClockFixed(cfg: CycleConfig, m: PersistedMeta, c: ClockIn): PersistedMeta
    requires ClockUsable(cfg, m, c)
  {
    var a := if c.synced && !DriftedAhead(cfg, m, c.wakeNow) then m else m.(lastNtpSync := c.resync.value);
    if c.checkNow - a.lastNtpSync > cfg.ntpInterval && c.daily.Some? then a.(lastNtpSync := c.daily.value) else a
  }

  predicate NeedsNightlyClean(now: int, lastDeepClean: int, interval: int) {
    lastDeepClean == 0 || (now >= lastDeepClean && now - lastDeepClean >= interval)
  }

  predicate PromotesToNightly(cfg: CycleConfig, seconds: nat, now: int, lastDeepClean: int) {
    seconds > cfg.longSleepForNightlyClean && NeedsNightlyClean(now, lastDeepClean, cfg.nightlyInterval)
  }

  function NightlyCleaned(d: Dev, board: Frame, now: int, stamp: Stamp): Dev {
    var fb := stamp(board, now);
    var m := d.ram.(lastDisplayUpdate := now, lastDeepClean := now, lastLightFull := now, partialCount := 0,
                    framebufferValid := true);
    Dev(SavedFrame(d.rtc, fb), m, Glass(fb))
  }

  method DoNightlyClean(dev: Device, board: Frame, now: int, stamp: Stamp)
    requires dev.Valid()
    modifies dev.Repr()
    ensures dev.Valid() && dev.Value() == NightlyCleaned(old(dev.Value()), board, now, stamp)
    ensures dev.panel.flashes == old(dev.panel.flashes) + 3
  {
    dev.Draw(board);
    dev.Draw(stamp(dev.curr[..], now));
    dev.meta := dev.meta.(lastDisplayUpdate := now);
    dev.panel.DeepClean(dev.curr[..]);
    dev.meta := dev.meta.(lastDeepClean := now, lastLightFull := now, partialCount := 0);
    var _ := dev.store.SaveFramebuffer(dev.curr[..]);
    dev.meta := dev.meta.(framebufferValid := true);
  }

  // The plan of the update, from the merge of its fetch.
  function WarmPlan(cfg: CycleConfig, w: WarmIn): SleepPlan.SleepDecision {
    SleepPlan.PlanOf(MergedOf(w.fetch, w.stored), w.now, cfg.sleep)
  }

  predicate Nightly(cfg: CycleConfig, m: PersistedMeta, w: WarmIn) {
    var plan := WarmPlan(cfg, w);
    plan.mode == SleepPlan.DeepSleep && PromotesToNightly(cfg, plan.seconds, w.now, m.lastDeepClean)
  }

  // What the renderer draws after the fetch, and in the push.
  function WarmBoard(m: PersistedMeta, w: WarmIn, now: int): Frame {
    Drawn(m, w.fetch, w.schedule, w.render, now)
  }

  function WarmPush(m: PersistedMeta, w: WarmIn, force: bool, deepWake: bool): PushIn {
    PushIn(WarmBoard(m, w, w.pushNow), w.pushNow, force, deepWake)
  }

  predicate PushesBoard(m: PersistedMeta, w: WarmIn, force: bool) {
    ApiOk(w.fetch) || SelectScreen(m, w.fetch.wifiUp, w.fetch.now) != Board || force
  }

  // The update itself: a nightly clean, a push, or nothing.
  function Updated(cfg: CycleConfig, d: Dev, w: WarmIn, force: bool, deepWake: bool, stamp: Stamp): Dev {
    if Nightly(cfg, d.ram, w) then NightlyCleaned(d, WarmBoard(d.ram, w, w.now), w.now, stamp)
    else if PushesBoard(d.ram, w, force) then Pushed(d, WarmPush(d.ram, w, force, deepWake), stamp)
    else d
  }

  predicate TriesRescue(cfg: CycleConfig, m: PersistedMeta, w: WarmIn) {
    !Nightly(cfg, m, w) && !Complete(w.fetch)
  }

  // A successful rescue replaces the snapshot, the clock reading and so the plan.
  predicate WasRescued(cfg: CycleConfig, m: PersistedMeta, w: WarmIn) {
    TriesRescue(cfg, m, w) && Rescue.Rescued(TraceOf(cfg, w.rescue))
  }

  function LastNow(cfg: CycleConfig, m: PersistedMeta, w: WarmIn): int {
    if WasRescued(cfg, m, w) then w.rescueNow else w.now
  }

  function LastPlan(cfg: CycleConfig, m: PersistedMeta, w: WarmIn): SleepPlan.SleepDecision {
    if WasRescued(cfg, m, w)
    then SleepPlan.PlanOf(MergedOf(LastOf(w.rescue, Rescue.Fetches(TraceOf(cfg, w.rescue))), w.schedule), w.rescueNow, cfg.sleep)
    else WarmPlan(cfg, w)
  }

  function WarmFinished(cfg: CycleConfig, d: Dev, w: WarmIn, force: bool, deepWake: bool, stamp: Stamp): Dev {
    var d1 := Updated(cfg, d, w, force, deepWake, stamp);
    var d2 := if TriesRescue(cfg, d.ram, w) then RescueEnd(cfg, d1, w.rescue, w.schedule, deepWake, stamp) else d1;
    Slept(cfg, d2, LastPlan(cfg, d.ram, w), LastNow(cfg, d.ram, w))
  }

  method FinishWarmCycle(dev: Device, cfg: CycleConfig, w: WarmIn, fc0: FetchResult, force: bool, deepWake: bool, stamp: Stamp)
    requires dev.Valid() && fc0 == ResultOf(dev.meta, w.fetch, w.stored)
    modifies dev.Repr()
    ensures dev.Valid() && dev.Value() == WarmFinished(cfg, old(dev.Value()), w, force, deepWake, stamp)
  {
    hide ApiOk, Complete, Updated, RescueEnd, Slept, TraceOf;
    var plan := SleepPlan.PlanSleep(fc0.merged, w.now, cfg.sleep);
    var nightly := plan.mode == SleepPlan.DeepSleep &&
                   PromotesToNightly(cfg, plan.seconds, w.now, dev.meta.lastDeepClean);
    ShowUpdate(dev, cfg, w, fc0, nightly, force, deepWake, stamp);
    var now := w.now;
    if !nightly && !fc0.complete {
      var rescued, _, fc := RunRescueFetch(dev, cfg, w.rescue, w.schedule, fc0, deepWake, stamp);
      if rescued {
        now := w.rescueNow;
        plan := SleepPlan.PlanSleep(fc.merged, now, cfg.sleep);
      }
    }
    DoSleepOrLoop(dev, cfg, plan, now);
  }

  method ShowUpdate(dev: Device, cfg: CycleConfig, w: WarmIn, fc: FetchResult, nightly: bool, force: bool, deepWake: bool,
                    stamp: Stamp)
    requires dev.Valid() && fc == ResultOf(dev.meta, w.fetch, w.stored) && nightly == Nightly(cfg, dev.meta, w)
    modifies dev.Repr()
    ensures dev.Valid() && dev.Value() == Updated(cfg, old(dev.Value()), w, force, deepWake, stamp)
  {
    if nightly {
      var view := ComposeRenderInput(fc.screen, fc.snap, w.schedule, w.now);
      DoNightlyClean(dev, w.render(fc.screen, view), w.now, stamp);
    } else if fc.ok || fc.screen != Board || force {
      var view := ComposeRenderInput(fc.screen, fc.snap, w.schedule, w.pushNow);
      dev.RenderAndPush(PushIn(w.render(fc.screen, view), w.pushNow, force, deepWake), stamp);
    }
  }

  // Without WiFi: the wrong-password screen is final; otherwise the offline screen once
  // the data is old. Only the former saves the metadata.
  function DownPush(w: WarmIn, force: bool, deepWake: bool): PushIn {
    PushIn(w.render(OfflineScreen, Slots.EMPTY_SNAPSHOT), w.pushNow, force, deepWake)
  }

  function WifiDown(d: Dev, w: WarmIn, force: bool, deepWake: bool, stamp: Stamp): Dev {
    if w.authFailed then Forgotten(d, d.ram, Glass(w.authScreen))
    else if SelectScreen(d.ram, false, w.downNow) == OfflineScreen
    then Pushed(d, DownPush(w, force, deepWake), stamp)
    else d
  }

  method HandleWarmWifiDown(dev: Device, w: WarmIn, force: bool, deepWake: bool, stamp: Stamp)
    requires dev.Valid()
    modifies dev.Repr()
    ensures dev.Valid() && dev.Value() == WifiDown(old(dev.Value()), w, force, deepWake, stamp)
    ensures w.authFailed ==> dev.panel.flashes == old(dev.panel.flashes) + 3
  {
    if w.authFailed {
      ShowDeep(dev, w.authScreen);
      dev.meta := dev.meta.(framebufferValid := false);
      dev.store.SaveMeta(dev.meta);
      return;
    }
    if SelectScreen(dev.meta, false, w.downNow) == OfflineScreen {
      var view := ComposeRenderInput(OfflineScreen, Slots.EMPTY_SNAPSHOT, w.stored, w.pushNow);
      dev.RenderAndPush(PushIn(w.render(OfflineScreen, view), w.pushNow, force, deepWake), stamp);
    }
  }

  function WarmCycle(cfg: CycleConfig, d: Dev, w: WarmIn, force: bool, deepWake: bool, stamp: Stamp): Dev {
    if !w.connected then WifiDown(d, w, force, deepWake, stamp)
    else if !ClockUsable(cfg, d.ram, w.clock) then d
    else WarmFinished(cfg, d.(ram := Fetched(ClockFixed(cfg, d.ram, w.clock), w.fetch)), w, force, deepWake, stamp)
  }

  method EnsureClockSynced(dev: Device, cfg: CycleConfig, c: ClockIn) returns (usable: bool)
    requires dev.Valid()
    modifies dev`meta
    ensures dev.Valid() && usable == ClockUsable(cfg, old(dev.meta), c)
    ensures dev.meta == if usable && !(c.synced && !DriftedAhead(cfg, old(dev.meta), c.wakeNow))
                        then old(dev.meta).(lastNtpSync := c.resync.value) else old(dev.meta)
  {
    var unsynced := !c.synced;
    var drifted := DriftedAhead(cfg, dev.meta, c.wakeNow);
    if !unsynced && !drifted {
      return true;
    }
    if c.resync.Some? {
      dev.meta := dev.meta.(lastNtpSync := c.resync.value);
      return true;
    }
    return false;
  }

  method RunWarmCycle(dev: Device, cfg: CycleConfig, w: WarmIn, force: bool, deepWake: bool, stamp: Stamp)
    requires dev.Valid()
    modifies dev.Repr()
    ensures dev.Valid() && dev.Value() == WarmCycle(cfg, old(dev.Value()), w, force, deepWake, stamp)
  {
    if !w.connected {
      HandleWarmWifiDown(dev, w, force, deepWake, stamp);
      return;
    }
    var usable := EnsureClockSynced(dev, cfg, w.clock);
    if !usable {
      return;
    }
    if w.clock.checkNow - dev.meta.lastNtpSync > cfg.ntpInterval {
      if w.clock.daily.Some? {
        dev.meta := dev.meta.(lastNtpSync := w.clock.daily.value);
      }
    }
    assert dev.meta == ClockFixed(cfg, old(dev.meta), w.clock);
    var fc := DoFetchCycle(dev, w.fetch, w.stored);
    FinishWarmCycle(dev, cfg, w, fc, force, deepWake, stamp);
  }

  // ---------------------------------------------------------------- buttons and overlays

  datatype Press = Short | Long | Double

  datatype ButtonIn = ButtonIn(
    blank: Frame, now: int, connected: bool, fetch: FetchIn, stored: Slots.Schedule, page: Frame, pages: seq<Frame>)

  // A long press cleans the panel and redraws the stored frame, or a blank one.
  function BwReset(d: Dev, b: ButtonIn): Dev {
    var have := HavePrev(d);
    var fb := if have then SlotFrame(d.rtc.slot) else b.blank;
    var m := d.ram.(framebufferValid := true, lastDeepClean := b.now, lastLightFull := b.now, partialCount := 0);
    var rtc := if have then d.rtc else SavedFrame(d.rtc, fb);
    Dev(SavedMeta(rtc, m), m, Glass(fb))
  }

  method RunBwReset(dev: Device, b: ButtonIn)
    requires dev.Valid()
    modifies dev.Repr()
    ensures dev.Valid() && dev.Value() == BwReset(old(dev.Value()), b) && dev.panel.flashes == old(dev.panel.flashes) + 3
  {
    var have := LoadIntoCurr(dev);
    if !have {
      dev.Draw(b.blank);
    }
    dev.panel.DeepClean(dev.curr[..]);
    if !have {
      var _ := dev.store.SaveFramebuffer(dev.curr[..]);
      dev.meta := dev.meta.(framebufferValid := true);
    }
    dev.meta := dev.meta.(lastDeepClean := b.now, lastLightFull := b.now, partialCount := 0);
    dev.store.SaveMeta(dev.meta);
  }

  method LoadIntoCurr(dev: Device) returns (have: bool)
    requires dev.Valid()
    modifies dev.curr
    ensures dev.Valid() && dev.Value() == old(dev.Value())
    ensures have == HavePrev(dev.Value()) && (have ==> dev.curr[..] == SlotFrame(dev.Value().rtc.slot))
  {
    have := dev.meta.framebufferValid;
    if have {
      var n := dev.store.LoadFramebuffer(dev.curr);
      have := n == BYTES;
    }
  }

  // The diagnostic pages paint over the board and remember nothing of it.
  function LastPage(b: ButtonIn): Frame {
    if b.pages == [] then b.page else b.pages[|b.pages| - 1]
  }

  function Diagnosed(d: Dev, b: ButtonIn): Dev {
    d.(ram := if b.connected then Fetched(d.ram, b.fetch) else d.ram, glass := Glass(LastPage(b)))
  }

  method RunDiagMode(dev: Device, b: ButtonIn)
    requires dev.Valid()
    modifies dev.Repr()
    ensures dev.Valid() && dev.Value() == Diagnosed(old(dev.Value()), b)
  {
    if b.connected {
      var _ := DoFetchCycle(dev, b.fetch, b.stored);
    }
    ShowPages(dev, b);
  }

  method ShowPages(dev: Device, b: ButtonIn)
    requires dev.Valid()
    modifies dev.curr, dev.panel, dev.panel.pix
    ensures dev.Valid() && dev.Value() == old(dev.Value()).(glass := Glass(LastPage(b)))
    ensures dev.panel.flashes == old(dev.panel.flashes) + 1 + |b.pages|
  {
    ShowLight(dev, b.page);
    for k := 0 to |b.pages|
      invariant dev.Valid()
      invariant dev.Value() == old(dev.Value()).(glass := Glass(if k == 0 then b.page else b.pages[k - 1]))
      invariant dev.panel.flashes == old(dev.panel.flashes) + 1 + k
    {
      ShowLight(dev, b.pages[k]);
    }
  }

  function PressHandled(d: Dev, p: Press, b: ButtonIn): Dev {
    match p
    case Long => BwReset(d, b)
    case Double => Diagnosed(d, b)
    case Short => d
  }

  method HandlePress(dev: Device, p: Press, b: ButtonIn)
    requires dev.Valid()
    modifies dev.Repr()
    ensures dev.Valid() && dev.Value() == PressHandled(old(dev.Value()), p, b)
  {
    match p {
      case Long => RunBwReset(dev, b);
      case Double => RunDiagMode(dev, b);
      case Short =>
    }
  }

  // ---------------------------------------------------------------- wake-ups

  datatype SetupIn = SetupIn(cause: WakeCause, reset: Option<Frame>, press: Press, button: ButtonIn, cold: ColdIn, warm: WarmIn)

  datatype PollIn = PollIn(press: Option<Press>, button: ButtonIn, warm: WarmIn)

  // One thing that happens to the device. Cycles are atomic.
  datatype Event = Setup(setup: SetupIn) | Poll(poll: PollIn) | PowerLoss

  // Every wake starts from the metadata in RTC memory.
  function Awake(d: Dev): Dev {
    d.(ram := LoadedMeta(d.rtc))
  }

  function Overlaid(cfg: CycleConfig, d: Dev, s: SetupIn): Dev {
    if s.reset.Some? && cfg.brownoutShow > 0 then d.(glass := Glass(s.reset.value)) else d
  }

  function KindOf(d: Dev, s: SetupIn): CycleKind {
    SelectCycle(s.cause, d.ram.coldBootRetries, d.ram.hasAnyData)
  }

  function AfterSetup(cfg: CycleConfig, d: Dev, s: SetupIn, stamp: Stamp): Dev {
    var d1 := Overlaid(cfg, Awake(d), s);
    match KindOf(d1, s)
    case ColdKind => ColdCycle(cfg, d1, s.cold, stamp)
    case ButtonKind => WarmCycle(cfg, PressHandled(d1, s.press, s.button), s.warm, true, true, stamp)
    case WarmKind => WarmCycle(cfg, d1, s.warm, false, true, stamp)
  }

  function AfterPoll(cfg: CycleConfig, d: Dev, p: PollIn, stamp: Stamp): Dev {
    var d1 := if p.press.Some? then PressHandled(Awake(d), p.press.value, p.button) else Awake(d);
    WarmCycle(cfg, d1, p.warm, p.press.Some?, false, stamp)
  }

  function Step(cfg: CycleConfig, d: Dev, e: Event, stamp: Stamp): Dev {
    match e
    case Setup(s) => AfterSetup(cfg, d, s, stamp)
    case Poll(p) => AfterPoll(cfg, d, p, stamp)
    case PowerLoss => Dev(POWER_ON, FRESH_META, d.glass)
  }

  method LoadMetaAtWake(dev: Device)
    requires dev.Valid()
    modifies dev
    ensures dev.Valid() && dev.Value() == Awake(old(dev.Value()))
  {
    dev.meta := dev.store.LoadMeta();
  }

  method ShowBrownoutScreen(dev: Device, cfg: CycleConfig, s: SetupIn)
    requires dev.Valid()
    modifies dev.curr, dev.panel, dev.panel.pix
    ensures dev.Valid() && dev.Value() == Overlaid(cfg, old(dev.Value()), s)
    ensures dev.panel.flashes == old(dev.panel.flashes) + if s.reset.Some? && cfg.brownoutShow > 0 then 3 else 0
  {
    if s.reset.None? || cfg.brownoutShow <= 0 {
      return;
    }
    ShowDeep(dev, s.reset.value);
  }

  method RunSetup(dev: Device, cfg: CycleConfig, s: SetupIn, stamp: Stamp)
    requires dev.Valid()
    modifies dev.Repr()
    ensures dev.Valid() && dev.Value() == AfterSetup(cfg, old(dev.Value()), s, stamp)
  {
    LoadMetaAtWake(dev);
    ShowBrownoutScreen(dev, cfg, s);
    match SelectCycle(s.cause, dev.meta.coldBootRetries, dev.meta.hasAnyData) {
      case ColdKind =>
        RunColdCycle(dev, cfg, s.cold, stamp);
      case ButtonKind =>
        HandlePress(dev, s.press, s.button);
        RunWarmCycle(dev, cfg, s.warm, true, true, stamp);
      case WarmKind =>
        RunWarmCycle(dev, cfg, s.warm, false, true, stamp);
    }
  }

  method PollButtonAndRunWarm(dev: Device, cfg: CycleConfig, p: PollIn, stamp: Stamp)
    requires dev.Valid()
    modifies dev.Repr()
    ensures dev.Valid() && dev.Value() == AfterPoll(cfg, old(dev.Value()), p, stamp)
  {
    LoadMetaAtWake(dev);
    if p.press.Some? {
      HandlePress(dev, p.press.value, p.button);
    }
    RunWarmCycle(dev, cfg, p.warm, p.press.Some?, false, stamp);
  }
}
