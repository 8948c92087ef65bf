/** Which cycle a wake-up runs, over whole histories: every cycle moves a two-field
    routing state, and a device with data stays off the boot screen. */
module Routing {
  import opened Meta
  import opened Display
  import opened Store
  import opened Push
  import opened Cycle
  import opened Wrappers
  import Fetch
  import Merge
  import Rescue
  import GlassRuns

  // What selectCycle looks at.
  datatype Route = Route(hasData: bool, retries: nat)

  function RouteOf(m: PersistedMeta): Route {
    Route(m.hasAnyData, m.coldBootRetries)
  }

  // What the next wake will see.
  function RouteAt(d: Dev): Route {
    RouteOf(LoadedMeta(d.rtc))
  }

  // RTC memory without the magic number is as it was at power-on.
  predicate Known(r: Rtc) {
    r.magic || r.meta == FRESH_META
  }

  // What an event does to the routing state: lose it; boot (with or without data); be
  // refused by the access point; miss the network; save a warm cycle's metadata (with or
  // without new data); or leave it alone.
  datatype Move = Lost | Booted(ok: bool) | Refused | NoNet | Saved(ok: bool) | Same

  function Moved(cfg: CycleConfig, r: Route, mv: Move): Route {
    match mv
    case Lost => Route(false, 0)
    case Booted(ok) => Route(r.hasData || ok, 0)
    case Refused => Route(r.hasData, 0)
    case NoNet => Route(r.hasData, if r.retries < cfg.coldBootMaxRetries then r.retries + 1 else r.retries)
    case Saved(ok) => Route(r.hasData || ok, r.retries)
    case Same => r
  }

  // ---------------------------------------------------------------- the move of each event

  predicate AttemptOk(r: RescueIn, n: nat) {
    n > 0 && (AttemptOk(r, n - 1) || ApiOk(r.fetch(n - 1)))
  }

  predicate WarmOk(cfg: CycleConfig, m: PersistedMeta, w: WarmIn) {
    ApiOk(w.fetch) || (TriesRescue(cfg, m, w) && AttemptOk(w.rescue, Rescue.Fetches(TraceOf(cfg, w.rescue))))
  }

  function WarmMove(cfg: CycleConfig, m: PersistedMeta, w: WarmIn): Move {
    if !w.connected then (if w.authFailed then Saved(false) else Same)
    else if !ClockUsable(cfg, m, w.clock) then Same
    else Saved(WarmOk(cfg, Fetched(ClockFixed(cfg, m, w.clock), w.fetch), w))
  }

  predicate PressOk(p: Press, b: ButtonIn) {
    p == Double && b.connected && ApiOk(b.fetch)
  }

  // The fetch of the diagnostic mode counts once the warm cycle after it saves.
  function PressedMove(cfg: CycleConfig, d: Dev, p: Press, b: ButtonIn, w: WarmIn): Move {
    match WarmMove(cfg, PressHandled(d, p, b).ram, w)
    case Saved(ok) => Saved(ok || PressOk(p, b))
    case other => other
  }

  function MoveOf(cfg: CycleConfig, d: Dev, e: Event): Move {
    var a := Awake(d);
    match e
    case PowerLoss => Lost
    case Poll(p) =>
      if p.press.Some? then PressedMove(cfg, a, p.press.value, p.button, p.warm) else WarmMove(cfg, a.ram, p.warm)
    case Setup(s) =>
      match KindOf(a, s)
      case ColdKind => if Boots(cfg, a.ram, s.cold) then Booted(ApiOk(s.cold.fetch)) else if s.cold.authFailed then Refused else NoNet
      case WarmKind => WarmMove(cfg, a.ram, s.warm)
      case ButtonKind => PressedMove(cfg, Overlaid(cfg, a, s), s.press, s.button, s.warm)
  }

  // ---------------------------------------------------------------- refinement

  lemma FetchedRoute(m: PersistedMeta, f: FetchIn)
    ensures RouteOf(Fetched(m, f)) == Route(m.hasAnyData || ApiOk(f), m.coldBootRetries)
  {
  }

  lemma {:induction false} AttemptsRoute(m: PersistedMeta, r: RescueIn, n: nat)
    ensures RouteOf(AfterAttempts(m, r, n)) == Route(m.hasAnyData || AttemptOk(r, n), m.coldBootRetries)
  {
    hide Fetched, ApiOk;
    if n > 0 {
      AttemptsRoute(m, r, n - 1);
      FetchedRoute(AfterAttempts(m, r, n - 1), r.fetch(n - 1));
    }
  }

  // A push leaves the routing state alone, in RAM and in RTC memory.
  lemma PushedRoute(d: Dev, i: PushIn, stamp: Stamp)
    ensures RouteOf(Pushed(d, i, stamp).ram) == RouteOf(d.ram)
    ensures RouteOf(Pushed(d, i, stamp).rtc.meta) == RouteOf(d.rtc.meta) && Pushed(d, i, stamp).rtc.magic
  {
    hide FinalFrame, Decision, Restamps, Fits;
  }

  lemma UpdatedRoute(cfg: CycleConfig, d: Dev, w: WarmIn, force: bool, deepWake: bool, stamp: Stamp)
    ensures RouteOf(Updated(cfg, d, w, force, deepWake, stamp).ram) == RouteOf(d.ram)
  {
    hide Pushed, Nightly, WarmBoard;
    PushedRoute(d, WarmPush(d.ram, w, force, deepWake), stamp);
  }

  lemma RescuedRoute(cfg: CycleConfig, d: Dev, w: WarmIn, deepWake: bool, stamp: Stamp)
    ensures RouteOf(RescueEnd(cfg, d, w.rescue, w.schedule, deepWake, stamp).ram) ==
      Route(d.ram.hasAnyData || AttemptOk(w.rescue, Rescue.Fetches(TraceOf(cfg, w.rescue))), d.ram.coldBootRetries)
  {
    hide Pushed, TraceOf, RescuePush;
    var r, n := w.rescue, Rescue.Fetches(TraceOf(cfg, w.rescue));
    var m := AfterAttempts(d.ram, r, n);
    AttemptsRoute(d.ram, r, n);
    PushedRoute(d.(ram := m), RescuePush(m, r, n, w.schedule, deepWake), stamp);
  }

  lemma FinishedRoute(cfg: CycleConfig, d: Dev, w: WarmIn, force: bool, deepWake: bool, stamp: Stamp)
    ensures var a := WarmFinished(cfg, d, w, force, deepWake, stamp);
      && a.rtc.magic && a.rtc.meta == a.ram
      && RouteOf(a.ram) == Route(
           d.ram.hasAnyData || (TriesRescue(cfg, d.ram, w) && AttemptOk(w.rescue, Rescue.Fetches(TraceOf(cfg, w.rescue)))),
           d.ram.coldBootRetries)
  {
    hide Updated, RescueEnd, TraceOf, AttemptOk, TriesRescue, LastPlan, LastNow;
    UpdatedRoute(cfg, d, w, force, deepWake, stamp);
    RescuedRoute(cfg, Updated(cfg, d, w, force, deepWake, stamp), w, deepWake, stamp);
  }

  // RTC memory after a warm cycle that started from `d`, whose RAM may already know more.
  lemma WarmRoute(cfg: CycleConfig, d: Dev, w: WarmIn, force: bool, deepWake: bool, stamp: Stamp)
    requires Known(d.rtc)
    ensures var a, mv := WarmCycle(cfg, d, w, force, deepWake, stamp), WarmMove(cfg, d.ram, w);
      && Known(a.rtc) && (mv.Saved? || mv.Same?)
      && RouteOf(a.rtc.meta) == if mv.Same? then RouteOf(d.rtc.meta) else Route(d.ram.hasAnyData || mv.ok, d.ram.coldBootRetries)
  {
    hide Pushed, Fetched, WarmFinished, TriesRescue, TraceOf, AttemptOk, ApiOk;
    if !w.connected {
      PushedRoute(d, DownPush(w, force, deepWake), stamp);
    } else if ClockUsable(cfg, d.ram, w.clock) {
      var m := ClockFixed(cfg, d.ram, w.clock);
      FetchedRoute(m, w.fetch);
      FinishedRoute(cfg, d.(ram := Fetched(m, w.fetch)), w, force, deepWake, stamp);
    }
  }

  lemma PressRoute(d: Dev, p: Press, b: ButtonIn)
    requires Known(d.rtc) && d.ram == LoadedMeta(d.rtc)
    ensures var a := PressHandled(d, p, b);
      && Known(a.rtc) && RouteOf(a.rtc.meta) == RouteOf(d.rtc.meta)
      && RouteOf(a.ram) == Route(d.ram.hasAnyData || PressOk(p, b), d.ram.coldBootRetries)
  {
    hide Fetched, ApiOk, Glass, Fits;
    FetchedRoute(d.ram, b.fetch);
  }

  lemma ColdRoute(cfg: CycleConfig, d: Dev, c: ColdIn, stamp: Stamp)
    ensures var a := ColdCycle(cfg, d, c, stamp);
      && a.rtc.magic
      && RouteOf(a.rtc.meta) == Moved(cfg, RouteOf(d.ram),
           if Boots(cfg, d.ram, c) then Booted(ApiOk(c.fetch)) else if c.authFailed then Refused else NoNet)
  {
    hide Fetched, ApiOk, Glass, Fits, ColdBoard, ColdView, SleepPlan.PlanOf;
    FetchedRoute(d.ram.(coldBootRetries := 0, noWifiCycles := 0), c.fetch);
  }

  // The whole firmware, seen through its routing state, is the small machine `Moved`.
  lemma StepRoute(cfg: CycleConfig, d: Dev, e: Event, stamp: Stamp)
    requires Known(d.rtc)
    ensures Known(Step(cfg, d, e, stamp).rtc)
    ensures RouteAt(Step(cfg, d, e, stamp)) == Moved(cfg, RouteAt(d), MoveOf(cfg, d, e))
  {
    hide WarmCycle, WarmMove, ColdCycle, PressHandled, PressOk, ApiOk, Boots;
    var a := Awake(d);
    match e {
      case PowerLoss =>
      case Poll(p) =>
        if p.press.Some? {
          PressRoute(a, p.press.value, p.button);
          WarmRoute(cfg, PressHandled(a, p.press.value, p.button), p.warm, true, false, stamp);
        } else {
          WarmRoute(cfg, a, p.warm, false, false, stamp);
        }
      case Setup(s) =>
        var o := Overlaid(cfg, a, s);
        match KindOf(a, s) {
          case ColdKind => ColdRoute(cfg, o, s.cold, stamp);
          case WarmKind => WarmRoute(cfg, o, s.warm, false, true, stamp);
          case ButtonKind =>
            PressRoute(o, s.press, s.button);
            WarmRoute(cfg, PressHandled(o, s.press, s.button), s.warm, true, true, stamp);
        }
    }
  }

  // ---------------------------------------------------------------- the invariant

  // A device with data is out of the cold retry loop.
  predicate Settled(r: Route) {
    r.hasData ==> r.retries == 0
  }

  // Cycles that skip the cold path whatever the retry counter says.
  predicate BypassesBoot(e: Event) {
    e.Poll? || (e.Setup? && e.setup.cause == Button)
  }

  // One event breaks it exactly when, inside the retry loop, it bypasses the boot and its
  // warm cycle saves new data.
  lemma SettledAfterIff(cfg: CycleConfig, d: Dev, e: Event, stamp: Stamp)
    requires Known(d.rtc) && Settled(RouteAt(d))
    ensures Settled(RouteAt(Step(cfg, d, e, stamp))) <==>
      !(RouteAt(d).retries > 0 && BypassesBoot(e) && MoveOf(cfg, d, e) == Saved(true))
  {
    hide Step, WarmMove, PressedMove, ApiOk, Boots;
    StepRoute(cfg, d, e, stamp);
    MoveShapes(cfg, d, e);
  }

  lemma MoveShapes(cfg: CycleConfig, d: Dev, e: Event)
    ensures var mv := MoveOf(cfg, d, e);
      && (mv.Saved? ==> BypassesBoot(e) || (RouteAt(d).hasData && RouteAt(d).retries == 0))
      && (mv.NoNet? ==> e.Setup? && !BypassesBoot(e) && (RouteAt(d).retries > 0 || !RouteAt(d).hasData))
      && (mv.Lost? <==> e.PowerLoss?)
      && (BypassesBoot(e) ==> mv.Saved? || mv.Same?)
  {
    hide ApiOk, Boots, WarmOk, ClockUsable, ClockFixed, PressHandled;
  }

  // A broken state heals at the next cold boot that reaches the access point, and at a
  // power cut, and otherwise stays broken.
  lemma HealsIff(cfg: CycleConfig, d: Dev, e: Event, stamp: Stamp)
    requires Known(d.rtc) && !Settled(RouteAt(d))
    ensures Settled(RouteAt(Step(cfg, d, e, stamp))) <==>
      e.PowerLoss? || (!BypassesBoot(e) && (Boots(cfg, LoadedMeta(d.rtc), e.setup.cold) || e.setup.cold.authFailed))
  {
    hide Step, WarmMove, PressedMove, ApiOk, Boots;
    StepRoute(cfg, d, e, stamp);
    MoveShapes(cfg, d, e);
  }

  // ---------------------------------------------------------------- whole runs

  // A button press (or a poll, which can only follow one) while the retry counter is up.
  predicate PressInRetryLoop(cfg: CycleConfig, d: Dev, es: seq<Event>, i: nat, stamp: Stamp)
    requires i < |es|
  {
    BypassesBoot(es[i]) && RouteAt(GlassRuns.Run(cfg, d, es[..i], stamp)).retries > 0
  }

  lemma RunStep(cfg: CycleConfig, d: Dev, es: seq<Event>, n: nat, stamp: Stamp)
    requires n < |es|
    ensures GlassRuns.Run(cfg, d, es[..n + 1], stamp) == Step(cfg, GlassRuns.Run(cfg, d, es[..n], stamp), es[n], stamp)
  {
    hide Step;
    assert es[..n + 1][..n] == es[..n];
  }

  // Without such presses every wake of the run finds a settled state.
  lemma {:induction false} RunStaysSettled(cfg: CycleConfig, d: Dev, es: seq<Event>, n: nat, stamp: Stamp)
    requires Known(d.rtc) && Settled(RouteAt(d)) && n <= |es|
    requires forall i: nat | i < n :: !PressInRetryLoop(cfg, d, es, i, stamp)
    ensures var a := GlassRuns.Run(cfg, d, es[..n], stamp); Known(a.rtc) && Settled(RouteAt(a))
  {
    hide Step, MoveOf;
    if n > 0 {
      var before := GlassRuns.Run(cfg, d, es[..n - 1], stamp);
      RunStaysSettled(cfg, d, es, n - 1, stamp);
      RunStep(cfg, d, es, n - 1, stamp);
      StepRoute(cfg, before, es[n - 1], stamp);
      assert !PressInRetryLoop(cfg, d, es, n - 1, stamp);
      SettledAfterIff(cfg, before, es[n - 1], stamp);
    }
  }

  // Data stay until the power goes.
  lemma DataStay(cfg: CycleConfig, d: Dev, e: Event, stamp: Stamp)
    requires Known(d.rtc) && RouteAt(d).hasData && !e.PowerLoss?
    ensures RouteAt(Step(cfg, d, e, stamp)).hasData
  {
    hide Step, WarmMove, PressedMove, ApiOk, Boots;
    StepRoute(cfg, d, e, stamp);
    MoveShapes(cfg, d, e);
  }

  // So after the first successful fetch no later wake, whatever its cause, runs the boot
  // path: from wake k on, with data, until a power cut.
  lemma {:induction false} NeverColdAgain(cfg: CycleConfig, d: Dev, es: seq<Event>, k: nat, n: nat, s: SetupIn, stamp: Stamp)
    requires Known(d.rtc) && Settled(RouteAt(d)) && k <= n <= |es|
    requires forall i: nat | i < n :: !PressInRetryLoop(cfg, d, es, i, stamp)
    requires RouteAt(GlassRuns.Run(cfg, d, es[..k], stamp)).hasData
    requires forall i | k <= i < n :: !es[i].PowerLoss?
    ensures RouteAt(GlassRuns.Run(cfg, d, es[..n], stamp)) == Route(true, 0)
    ensures KindOf(Awake(GlassRuns.Run(cfg, d, es[..n], stamp)), s) != ColdKind
    decreases n
  {
    hide Step;
    RunStaysSettled(cfg, d, es, n, stamp);
    if k < n {
      NeverColdAgain(cfg, d, es, k, n - 1, s, stamp);
      RunStep(cfg, d, es, n - 1, stamp);
      RunStaysSettled(cfg, d, es, n - 1, stamp);
      DataStay(cfg, GlassRuns.Run(cfg, d, es[..n - 1], stamp), es[n - 1], stamp);
    }
  }

  // ---------------------------------------------------------------- a device without a network

  function Misses(cfg: CycleConfig, m: PersistedMeta, n: nat): PersistedMeta {
    if n == 0 then m else Missed(cfg, Misses(cfg, m, n - 1))
  }

  // After n misses in a row one counter has stopped at the maximum, the other has wrapped.
  lemma {:induction false} CountersAfterMisses(cfg: CycleConfig, m: PersistedMeta, n: nat)
    requires m.coldBootRetries == 0 && m.noWifiCycles == 0
    ensures var k := Misses(cfg, m, n);
      && k.coldBootRetries == (if n < cfg.coldBootMaxRetries then n else cfg.coldBootMaxRetries)
      && k.noWifiCycles == n % UINT8
  {
    if n > 0 {
      CountersAfterMisses(cfg, m, n - 1);
      OneMoreWraps(n - 1);
    } else {
      assert 0 % UINT8 == 0;
    }
  }

  lemma OneMoreWraps(n: nat)
    ensures (n % UINT8 + 1) % UINT8 == (n + 1) % UINT8
  {
  }

  // And they are the counters in RTC memory: n boots from power-on that find no network
  // leave exactly the metadata of n misses.
  predicate FailsToBoot(s: SetupIn) {
    s.cause != Button && !s.cold.connected && !s.cold.authFailed
  }

  predicate MissesAll(es: seq<Event>) {
    forall i | 0 <= i < |es| :: es[i].Setup? && FailsToBoot(es[i].setup)
  }

  lemma {:induction false} MissedBootsLeave(cfg: CycleConfig, d: Dev, es: seq<Event>, stamp: Stamp)
    requires d.rtc == POWER_ON && MissesAll(es)
    ensures LoadedMeta(GlassRuns.Run(cfg, d, es, stamp).rtc) == Misses(cfg, FRESH_META, |es|)
    ensures !Misses(cfg, FRESH_META, |es|).framebufferValid && !Misses(cfg, FRESH_META, |es|).hasAnyData
  {
    hide AfterSetup;
    if es != [] {
      var before := GlassRuns.Run(cfg, d, es[..|es| - 1], stamp);
      MissedBootsLeave(cfg, d, es[..|es| - 1], stamp);
      OneMissedBoot(cfg, before, es[|es| - 1].setup, stamp);
    }
  }

  lemma OneMissedBoot(cfg: CycleConfig, d: Dev, s: SetupIn, stamp: Stamp)
    requires FailsToBoot(s) && !LoadedMeta(d.rtc).hasAnyData
    ensures var a := AfterSetup(cfg, d, s, stamp);
      a.rtc == SavedMeta(d.rtc, Missed(cfg, LoadedMeta(d.rtc)).(framebufferValid := false))
  {
    hide Glass, Fetched, ColdCycle, WarmCycle, PressHandled;
    BootMissed(cfg, Overlaid(cfg, Awake(d), s), s.cold, stamp);
  }

  // A missed boot counts one retry and sets no wake target.
  lemma BootMissed(cfg: CycleConfig, d: Dev, c: ColdIn, stamp: Stamp)
    requires !Boots(cfg, d.ram, c) && !c.authFailed
    ensures ColdCycle(cfg, d, c, stamp).rtc == SavedMeta(d.rtc, Missed(cfg, d.ram).(framebufferValid := false))
  {
    hide Glass, Fetched, ColdFinished;
  }

  lemma NextIsNoMultiple(a: nat, e: nat)
    requires e > 1 && a % e == 0
    ensures (a + 1) % e != 0
  {
    var q, r := a / e, (a + 1) / e;
    assert a == e * q + a % e;
    if (a + 1) % e == 0 {
      assert a + 1 == e * r + (a + 1) % e;
      assert e * (r - q) == e * r - e * q;
      NoMultipleIsOne(e, r - q);
    }
  }

  lemma NoMultipleIsOne(e: nat, k: int)
    requires e > 1
    ensures e * k != 1
  {
    if k > 0 {
      assert e * k >= e;
    } else {
      assert e * k <= 0;
    }
  }

  // Two repaints one minute apart, instead of one in `every` minutes, happen exactly at the
  // wrap of the counter, and only if `every` divides 255, as the default of 5 does.
  lemma RepaintsTwiceIff(cfg: CycleConfig, m: PersistedMeta, n: nat)
    requires m.coldBootRetries == 0 && m.noWifiCycles == 0
    ensures Repaints(cfg, Misses(cfg, m, n)) && Repaints(cfg, Misses(cfg, m, n + 1)) <==>
      RepaintEvery(cfg) == 1 || (n % UINT8 == 255 && 255 % RepaintEvery(cfg) == 0)
  {
    CountersAfterMisses(cfg, m, n);
    CountersAfterMisses(cfg, m, n + 1);
    var a, e := n % UINT8, RepaintEvery(cfg);
    assert (n + 1) % UINT8 == if a == 255 then 0 else a + 1;
    if a < 255 && a % e == 0 && e > 1 {
      NextIsNoMultiple(a, e);
    }
  }

  // With the defaults the 256th and the 257th miss of an outage from power-on both paint.
  lemma WrapPaintsTwice(d: Dev, es: seq<Event>, stamp: Stamp)
    requires d.rtc == POWER_ON && MissesAll(es) && |es| == 256
    ensures Repaints(DEFAULT_CYCLE, LoadedMeta(GlassRuns.Run(DEFAULT_CYCLE, d, es[..255], stamp).rtc))
    ensures Repaints(DEFAULT_CYCLE, LoadedMeta(GlassRuns.Run(DEFAULT_CYCLE, d, es, stamp).rtc))
  {
    hide GlassRuns.Run, Misses;
    MissedBootsLeave(DEFAULT_CYCLE, d, es[..255], stamp);
    MissedBootsLeave(DEFAULT_CYCLE, d, es, stamp);
    RepaintsTwiceIff(DEFAULT_CYCLE, FRESH_META, 255);
  }

  // ---------------------------------------------------------------- the exception

  // A short press once the network is back.
  predicate PressesBack(cfg: CycleConfig, m: PersistedMeta, s: SetupIn) {
    && s.cause == Button && s.press == Short
    && s.warm.connected && ClockUsable(cfg, m, s.warm.clock) && ApiOk(s.warm.fetch)
  }

  const MISSED_ONCE := FRESH_META.(coldBootRetries := 1, noWifiCycles := 1)

  lemma FirstBootMissed(cfg: CycleConfig, d: Dev, s: SetupIn, stamp: Stamp)
    requires d.rtc == POWER_ON && FailsToBoot(s) && cfg.coldBootMaxRetries > 0
    ensures AfterSetup(cfg, d, s, stamp).rtc == Rtc(true, MISSED_ONCE, [])
  {
    hide Glass, Fetched, ColdCycle, WarmCycle, PressHandled;
    BootMissed(cfg, Overlaid(cfg, Awake(d), s), s.cold, stamp);
  }

  // Such a press puts data behind whatever retry counter it finds.
  lemma PressStrands(cfg: CycleConfig, d: Dev, s: SetupIn, stamp: Stamp)
    requires d.rtc.magic && PressesBack(cfg, d.rtc.meta, s)
    ensures RouteAt(AfterSetup(cfg, d, s, stamp)) == Route(true, d.rtc.meta.coldBootRetries)
  {
    hide AfterSetup, Fetched, TriesRescue, TraceOf, AttemptOk, ApiOk, ClockUsable, ClockFixed;
    assert WarmMove(cfg, d.rtc.meta, s.warm) == Saved(true);
    StepRoute(cfg, d, Setup(s), stamp);
  }

  // The board of such a press, when its fetch is complete and nothing was refused.
  function PressedBoard(cfg: CycleConfig, m: PersistedMeta, w: WarmIn, stamp: Stamp): Frame
    requires ClockUsable(cfg, m, w.clock)
  {
    var t := if Nightly(cfg, Fetched(ClockFixed(cfg, m, w.clock), w.fetch), w) then w.now else w.pushNow;
    stamp(w.render(Board, Merge.Merged(Fetch.SnapshotOf(w.fetch.replies), w.schedule, t)), t)
  }

  // With an empty slot the press always paints what it decided on.
  lemma PressPaints(cfg: CycleConfig, d: Dev, s: SetupIn, stamp: Stamp)
    requires d.rtc.magic && d.rtc.slot == [] && PressesBack(cfg, d.rtc.meta, s)
    ensures var shown := GlassRuns.WarmScreen(cfg, Overlaid(cfg, Awake(d), s), s.warm, true, true, stamp);
      shown.Some? && AfterSetup(cfg, d, s, stamp).glass == Glass(shown.value)
  {
    hide Fetched, ClockUsable, ClockFixed, ApiOk, TriesRescue, Nightly, FinalFrame, TraceOf, WarmCycle, GlassRuns.RescueScreen;
    GlassRuns.WarmShows(cfg, Overlaid(cfg, Awake(d), s), s.warm, true, true, stamp);
  }

  lemma PressDrawsTheBoard(cfg: CycleConfig, d: Dev, w: WarmIn, stamp: Stamp)
    requires w.connected && ClockUsable(cfg, d.ram, w.clock) && Complete(w.fetch)
    requires !Fetched(ClockFixed(cfg, d.ram, w.clock), w.fetch).authErrorSeen
    ensures GlassRuns.WarmScreen(cfg, d, w, true, true, stamp) == Some(PressedBoard(cfg, d.ram, w, stamp))
  {
    hide ClockUsable, ClockFixed, Nightly, Fetch.AfterFetch, GlassRuns.RescueScreen;
    assert ApiOk(w.fetch);
  }

  // Power-on without a network, then the press: its screen is on the glass, the board when
  // its fetch is complete, and the next timer or reset wake boots all the same.
  lemma PressStrandsTheBoot(cfg: CycleConfig, d: Dev, boot: SetupIn, press: SetupIn, later: SetupIn, stamp: Stamp)
    requires d.rtc == POWER_ON && cfg.coldBootMaxRetries > 0
    requires FailsToBoot(boot) && PressesBack(cfg, MISSED_ONCE, press) && later.cause != Button
    ensures var a := AfterSetup(cfg, AfterSetup(cfg, d, boot, stamp), press, stamp);
      RouteAt(a) == Route(true, 1) && KindOf(Awake(a), later) == ColdKind
    ensures var b := AfterSetup(cfg, d, boot, stamp);
      var shown := GlassRuns.WarmScreen(cfg, Overlaid(cfg, Awake(b), press), press.warm, true, true, stamp);
      shown.Some? && AfterSetup(cfg, b, press, stamp).glass == Glass(shown.value)
    ensures Complete(press.warm.fetch) && !Fetched(ClockFixed(cfg, MISSED_ONCE, press.warm.clock), press.warm.fetch).authErrorSeen ==>
      AfterSetup(cfg, AfterSetup(cfg, d, boot, stamp), press, stamp).glass == Glass(PressedBoard(cfg, MISSED_ONCE, press.warm, stamp))
  {
    hide AfterSetup, ClockUsable, ClockFixed, Fetched, Complete, ApiOk, PressedBoard, GlassRuns.WarmScreen;
    FirstBootMissed(cfg, d, boot, stamp);
    var b := AfterSetup(cfg, d, boot, stamp);
    PressStrands(cfg, b, press, stamp);
    PressPaints(cfg, b, press, stamp);
    if Complete(press.warm.fetch) && !Fetched(ClockFixed(cfg, MISSED_ONCE, press.warm.clock), press.warm.fetch).authErrorSeen {
      PressDrawsTheBoard(cfg, Overlaid(cfg, Awake(b), press), press.warm, stamp);
    }
  }
}
