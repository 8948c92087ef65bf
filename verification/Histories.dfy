/** Concrete histories from power-on: the first boot, and what an overlay then does. One
    renderer and one timetable serve a whole history. */
module Histories {
  import opened Meta
  import opened Slots
  import opened SleepPlan
  import opened Wrappers
  import opened Display
  import opened Store
  import opened Push
  import opened Cycle
  import opened GlassRuns
  import opened Overlay
  import CInts
  import Fetch
  import FrameBuffers
  import Merge
  import Planner
  import Raster
  import Routing

  // ---------------------------------------------------------------- inputs

  // A timetable of at most one departure, and the snapshot with it.
  type Timetable = xs: seq<Departure> | |xs| <= 1

  function View(xs: Timetable): Snapshot {
    var d := if xs == [] then NO_DEPARTURE else xs[0];
    StreamSnapshot([EMPTY_STREAM.(slot := [d, NO_DEPARTURE, NO_DEPARTURE]), EMPTY_STREAM, EMPTY_STREAM, EMPTY_STREAM], true)
  }

  predicate Ahead(xs: Timetable, now: int) {
    forall x | x in xs :: x.valid && x.when >= now
  }

  // The board of a timetable.
  function BoardOf(render: Renderer, xs: Timetable): Frame {
    render(Board, View(xs))
  }

  // A usable, complete fetch of the timetable: only the second batch asks for its stream.
  // And a fetch that never happens.
  function FetchOf(xs: Timetable, now: int): FetchIn {
    var back := Fetch.FetchOutcome(true, 1, 200);
    var other := Fetch.OgdReply(back, Some(EMPTY_SNAPSHOT.(apiOk := true)));
    var own := Fetch.OgdReply(back, Some(View(xs)));
    FetchIn(Fetch.Inputs(other, own, None), now, true)
  }

  function NoFetch(): FetchIn {
    var reply := Fetch.OgdReply(Fetch.FetchOutcome(false, 0, 0), None);
    FetchIn(Fetch.Inputs(reply, reply, None), 0, false)
  }

  lemma FetchFacts(xs: Timetable, now: int)
    ensures var f := FetchOf(xs, now);
      && ApiOk(f) && Complete(f) && f.now == now && f.wifiUp && Fetch.SnapshotOf(f.replies) == View(xs)
      && forall m: PersistedMeta :: (!m.authErrorSeen ==> !Fetched(m, f).authErrorSeen) && Fetched(m, f).ogdAuthStreak == 0
  {
  }

  // A departure still ahead is shown as it is.
  lemma ViewIsShown(xs: Timetable, now: int)
    requires Ahead(xs, now)
    ensures Merge.Merged(View(xs), EMPTY_SCHEDULE, now) == View(xs)
  {
    var m := Merge.Merged(View(xs), EMPTY_SCHEDULE, now);
    forall s | 0 <= s < STREAM_COUNT
      ensures m.stream[s] == View(xs).stream[s]
    {
      SlotsAreShown(View(xs).stream[s].slot, if s == 0 then xs else [], now);
    }
    assert m.stream == View(xs).stream;
  }

  lemma SlotsAreShown(slots: seq<Departure>, xs: Timetable, now: int)
    requires Ahead(xs, now) && slots == [if xs == [] then NO_DEPARTURE else xs[0], NO_DEPARTURE, NO_DEPARTURE]
    ensures Padded(Offered(Merge.LiveOffers(slots, 3, now) + [])) == slots
  {
    LiveIsAhead(slots, xs, now);
    OfferedIsAhead(xs, now);
    assert Merge.LiveOffers(slots, 3, now) + [] == xs;
    hide Offered, Merge.LiveOffers;
    assert Padded(xs) == slots;
  }

  lemma LiveIsAhead(slots: seq<Departure>, xs: Timetable, now: int)
    requires Ahead(xs, now) && slots == [if xs == [] then NO_DEPARTURE else xs[0], NO_DEPARTURE, NO_DEPARTURE]
    ensures Merge.LiveOffers(slots, 3, now) == xs
  {
    assert Merge.LiveOffers(slots, 0, now) == [];
    assert Merge.LiveOffers(slots, 1, now) == xs;
    assert Merge.LiveOffers(slots, 2, now) == xs;
  }

  lemma OfferedIsAhead(xs: Timetable, now: int)
    requires Ahead(xs, now)
    ensures Offered(xs) == xs
  {
    if xs != [] {
      assert xs[..0] == [] && Offered([]) == [];
      assert InsertByTime([], xs[0]) == [xs[0]];
      assert Insert([], xs[0]) == [xs[0]];
    }
  }

  // An empty timetable means a nap; otherwise the margins decide between sleeping and staying awake.
  function PlanFrom(xs: Timetable, now: int): SleepDecision {
    if xs == [] then SleepDecision(DeepSleep, 1800)
    else if xs[0].when - now >= 1050 then SleepDecision(DeepSleep, CInts.U32(xs[0].when - 930 - now))
    else SleepDecision(Active, 0)
  }

  lemma PlanIs(xs: Timetable, now: int)
    requires Ahead(xs, now)
    ensures PlanOf(View(xs), now, DEFAULT_SLEEP_CONFIG) == PlanFrom(xs, now)
  {
    hide First;
    FirstIsEarliest(View(xs), STREAM_COUNT, 0);
    if xs != [] {
      assert Scanned(STREAM_COUNT, 0, 0, 0) && View(xs).stream[0].slot[0] == xs[0];
    }
  }

  lemma MergedIsView(xs: Timetable, now: int)
    requires Ahead(xs, now)
    ensures MergedOf(FetchOf(xs, now), EMPTY_SCHEDULE) == View(xs)
  {
    hide FetchOf, Merge.Merged, View;
    FetchFacts(xs, now);
    ViewIsShown(xs, now);
  }

  function NoRescue(render: Renderer, now: int): RescueIn {
    RescueIn(0, (n: nat) => 0, (n: nat) => NoFetch(), render, now)
  }

  function Warm(render: Renderer, xs: Timetable, now: int): WarmIn {
    WarmIn(true, false, Blank(), now, ClockIn(true, now, None, now, None), FetchOf(xs, now), EMPTY_SCHEDULE, EMPTY_SCHEDULE,
           now, render, now, NoRescue(render, now), now)
  }

  function Cold(render: Renderer, online: bool, xs: Timetable, now: int): ColdIn {
    ColdIn(Blank(), online, online, false, Blank(), FetchOf(xs, now), Blank(), EMPTY_SCHEDULE, render, now, now)
  }

  function Pages(page: Frame): ButtonIn {
    ButtonIn(page, 0, false, NoFetch(), EMPTY_SCHEDULE, page, [])
  }

  // A first boot and a later wake, with or without a reset notice.
  function Wake(cause: WakeCause, notice: Option<Frame>, render: Renderer, xs: Timetable, now: int): SetupIn {
    SetupIn(cause, notice, Short, Pages(Blank()), Cold(render, true, xs, now), Warm(render, xs, now))
  }

  function Boot(render: Renderer, xs: Timetable, now: int): SetupIn {
    Wake(ColdBoot, None, render, xs, now)
  }

  lemma WarmParts(render: Renderer, xs: Timetable, now: int)
    ensures var w := Warm(render, xs, now);
      && w.fetch == FetchOf(xs, now) && w.stored == w.schedule == EMPTY_SCHEDULE && w.now == w.pushNow == now
      && w.connected && w.clock == ClockIn(true, now, None, now, None) && w.render == render
  {
    hide FetchOf;
  }

  lemma ColdParts(render: Renderer, online: bool, xs: Timetable, now: int)
    ensures var c := Cold(render, online, xs, now);
      && c.fetch == FetchOf(xs, now) && c.schedule == EMPTY_SCHEDULE && c.now == c.lastSync == now
      && c.connected == c.ntp == online && !c.authFailed && c.render == render
  {
    hide FetchOf;
  }

  // What a fetch of the timetable draws while it is ahead.
  lemma DrawsBoard(m: PersistedMeta, render: Renderer, xs: Timetable, now: int)
    requires Ahead(xs, now) && !m.authErrorSeen && m.hasAnyData
    ensures Drawn(m, FetchOf(xs, now), EMPTY_SCHEDULE, render, now) == BoardOf(render, xs)
  {
    hide FetchOf, Merge.Merged, View;
    FetchFacts(xs, now);
    ViewIsShown(xs, now);
  }

  // ---------------------------------------------------------------- the first boot

  // Power-on, network, time and a fetch; the board fits the slot.
  ghost predicate FirstBoot(cfg: CycleConfig, d: Dev, s: SetupIn, stamp: Stamp) {
    && d.rtc == POWER_ON && s.cause != Button
    && Boots(cfg, FRESH_META, s.cold) && ApiOk(s.cold.fetch) && Fits(ColdShown(FRESH_META, s.cold, stamp))
  }

  // What it leaves behind: the board on the glass and in the slot, and these metadata.
  ghost predicate Showing(d: Dev, board: Frame, at: int) {
    d.glass == Glass(board) && Stored(d.rtc, board, at)
  }

  predicate Stored(r: Rtc, board: Frame, at: int) {
    && r.magic && HoldsFrame(r.slot) && SlotFrame(r.slot) == board
    && var m := r.meta;
      && m.framebufferValid && m.hasAnyData && m.coldBootRetries == 0 && m.partialCount == 0
      && m.lastDisplayUpdate == at && m.lastLightFull == at && m.lastDeepClean == at
  }

  lemma FirstBootShows(cfg: CycleConfig, d: Dev, s: SetupIn, stamp: Stamp)
    requires FirstBoot(cfg, d, s, stamp)
    ensures var a := AfterSetup(cfg, d, s, stamp);
      var m := Fetched(FRESH_META, s.cold.fetch);
      && Showing(a, ColdShown(FRESH_META, s.cold, stamp), s.cold.now)
      && a.rtc.meta.authErrorSeen == m.authErrorSeen && a.rtc.meta.ogdAuthStreak == m.ogdAuthStreak
      && a.rtc.meta.lastNtpSync == s.cold.lastSync
      && a.rtc.meta.expectedWakeAt == (if s.cold.now >= MIN_PLAUSIBLE_EPOCH
           then s.cold.now + SleepSeconds(cfg, PlanOf(ColdView(m, s.cold), s.cold.now, cfg.sleep)) else 0)
  {
    hide ColdBoard, ColdView, PlanOf, Boots, Fits, HoldsFrame, SlotFrame, Glass, ApiOk;
    var a, o := Awake(d), Overlaid(cfg, Awake(d), s);
    FetchedIsData(FRESH_META, s.cold.fetch);
    SaveThenLoad(d.rtc, ColdShown(FRESH_META, s.cold, stamp));
  }

  lemma FetchedIsData(m: PersistedMeta, f: FetchIn)
    requires ApiOk(f)
    ensures var n := Fetched(m, f);
      && n.hasAnyData && n.lastSuccessAt == n.lastApiSuccess == f.now
      && n == m.(hasAnyData := true, lastSuccessAt := f.now, lastApiSuccess := f.now,
                 authErrorSeen := n.authErrorSeen, ogdAuthStreak := n.ogdAuthStreak)
  {
    hide Fetch.AfterFetch, ApiOk;
    Fetch.OnlyTheTripwire(m, f.replies);
  }

  // ---------------------------------------------------------------- the stranded boot

  // From power-on: a boot without network and a press with it. The whole board is up, and
  // the next timer or reset wake boots all the same.
  lemma StrandingWakes(d: Dev, render: Renderer, xs: Timetable, now: int, later: SetupIn, stamp: Stamp)
    returns (boot: SetupIn, press: SetupIn)
    requires d.rtc == POWER_ON && now >= MIN_PLAUSIBLE_EPOCH && Ahead(xs, now) && later.cause != Button
    ensures Routing.FailsToBoot(boot) && Routing.PressesBack(DEFAULT_CYCLE, Routing.MISSED_ONCE, press)
    ensures !Overlays(DEFAULT_CYCLE, Setup(boot)) && !Overlays(DEFAULT_CYCLE, Setup(press))
    ensures var a := AfterSetup(DEFAULT_CYCLE, AfterSetup(DEFAULT_CYCLE, d, boot, stamp), press, stamp);
      && a.glass == Glass(stamp(BoardOf(render, xs), now))
      && Routing.RouteAt(a) == Routing.Route(true, 1) && KindOf(Awake(a), later) == ColdKind
  {
    hide FetchOf, ApiOk, Complete, Fetched, Warm, Pages, Cold, Merge.Merged, Nightly, AfterSetup, GlassRuns.WarmScreen;
    WarmParts(render, xs, now);
    ColdParts(render, false, xs, now);
    FetchFacts(xs, now);
    boot := SetupIn(ColdBoot, None, Short, Pages(Blank()), Cold(render, false, xs, now), Warm(render, xs, now));
    press := boot.(cause := Button);
    var w := press.warm;
    assert ClockFixed(DEFAULT_CYCLE, Routing.MISSED_ONCE, w.clock).authErrorSeen == false;
    Routing.PressStrandsTheBoot(DEFAULT_CYCLE, d, boot, press, later, stamp);
    ViewIsShown(xs, now);
    assert Routing.PressedBoard(DEFAULT_CYCLE, Routing.MISSED_ONCE, w, stamp) == stamp(BoardOf(render, xs), now);
  }

  // ---------------------------------------------------------------- the same board again

  // A wake that fetches everything and would draw the stored board, stamp and all.
  predicate SameAgain(cfg: CycleConfig, r: Rtc, w: WarmIn, stamp: Stamp, board: Frame, at: int) {
    && w.connected && ClockUsable(cfg, r.meta, w.clock) && Complete(w.fetch)
    && at != 0 && w.now < at + cfg.nightlyInterval
    && stamp(WarmBoard(Fetched(ClockFixed(cfg, r.meta, w.clock), w.fetch), w, w.pushNow), at) == board
  }

  lemma SameAgainIsQuiet(cfg: CycleConfig, d: Dev, w: WarmIn, stamp: Stamp, board: Frame, at: int)
    requires d.ram == d.rtc.meta && Stored(d.rtc, board, at) && SameAgain(cfg, d.rtc, w, stamp, board, at)
    ensures !WarmRepaints(cfg, d, w, false, stamp)
    ensures WarmScreen(cfg, d, w, false, true, stamp) == Some(board)
  {
    hide Fetched, WarmBoard, WarmPlan, HoldsFrame, SlotFrame, ApiOk, Complete, PlanFor;
    var e := Ready(cfg, d, w);
    var i := WarmPush(e.ram, w, false, true);
    CompleteIsOk(w.fetch);
    FetchedIsData(ClockFixed(cfg, d.ram, w.clock), w.fetch);
    NoneIffUnchanged(e, board, i);
    assert FirstFrame(e, i, stamp) == board && HavePrev(e);
    assert FinalFrame(e, i, stamp) == board;
  }

  lemma CompleteIsOk(f: FetchIn)
    requires Complete(f)
    ensures ApiOk(f)
  {
  }

  lemma BootIsFirst(d: Dev, render: Renderer, xs: Timetable, at: int, stamp: Stamp)
    requires d.rtc == POWER_ON && Ahead(xs, at) && Fits(stamp(BoardOf(render, xs), at))
    ensures var s := Boot(render, xs, at);
      && FirstBoot(DEFAULT_CYCLE, d, s, stamp) && ColdShown(FRESH_META, s.cold, stamp) == stamp(BoardOf(render, xs), at)
      && ColdView(Fetched(FRESH_META, s.cold.fetch), s.cold) == View(xs)
  {
    hide Fetched, FetchOf, Fits, Merge.Merged, View, ApiOk, Cold, Warm, Pages;
    ColdParts(render, true, xs, at);
    FetchFacts(xs, at);
    FetchedIsData(FRESH_META, FetchOf(xs, at));
    ViewIsShown(xs, at);
  }

  // What the wakes after such a boot find.
  lemma WakeAfterBoot(d: Dev, render: Renderer, xs: Timetable, at: int, stamp: Stamp)
    requires d.rtc == POWER_ON && Ahead(xs, at) && Fits(stamp(BoardOf(render, xs), at)) && at >= MIN_PLAUSIBLE_EPOCH
    ensures var a := AfterSetup(DEFAULT_CYCLE, d, Boot(render, xs, at), stamp);
      && Showing(a, stamp(BoardOf(render, xs), at), at) && a.rtc.meta.lastNtpSync == at && !a.rtc.meta.authErrorSeen
      && a.rtc.meta.ogdAuthStreak == 0
      && a.rtc.meta.expectedWakeAt == at + SleepSeconds(DEFAULT_CYCLE, PlanFrom(xs, at))
  {
    hide AfterSetup, FirstBoot, ColdView, PlanOf, PlanFrom, Showing, Cold, Warm, Pages, BoardOf, View, Fetched, FetchOf, Fits;
    var s := Boot(render, xs, at);
    BootIsFirst(d, render, xs, at, stamp);
    FirstBootShows(DEFAULT_CYCLE, d, s, stamp);
    ColdParts(render, true, xs, at);
    FetchFacts(xs, at);
    PlanIs(xs, at);
  }

  // A wake while the same timetable is still ahead, less than an hour after the boot and
  // not past the drift guard.
  lemma WakeIsSameAgain(r: Rtc, render: Renderer, xs: Timetable, at: int, now: int, stamp: Stamp)
    requires MIN_PLAUSIBLE_EPOCH <= at <= now < at + 3600 && Ahead(xs, now)
    requires r.meta.lastNtpSync == at && r.meta.expectedWakeAt >= now - 1800 && !r.meta.authErrorSeen
    ensures SameAgain(DEFAULT_CYCLE, r, Warm(render, xs, now), stamp, stamp(BoardOf(render, xs), at), at)
  {
    hide Fetched, FetchOf, Drawn, Complete, ApiOk, Warm, BoardOf;
    WarmParts(render, xs, now);
    FetchFacts(xs, now);
    var w := Warm(render, xs, now);
    SyncedClockStays(DEFAULT_CYCLE, r.meta, w.clock, at, now);
    FetchedIsData(r.meta, w.fetch);
    DrawsBoard(Fetched(r.meta, w.fetch), render, xs, now);
  }

  lemma SyncedClockStays(cfg: CycleConfig, m: PersistedMeta, c: ClockIn, at: int, now: int)
    requires cfg.ntpInterval >= 3600 && at <= now < at + 3600
    requires m.lastNtpSync == at && m.expectedWakeAt >= now - cfg.maxWakeOvershoot
    requires c.synced && c.wakeNow == now && c.checkNow == now
    ensures ClockUsable(cfg, m, c) && ClockFixed(cfg, m, c) == m
  {
  }

  // It stores the same frame again and keeps the refresh counters.
  lemma SameAgainLeaves(cfg: CycleConfig, d: Dev, w: WarmIn, stamp: Stamp, board: Frame, at: int)
    requires d.ram == d.rtc.meta && Stored(d.rtc, board, at) && SameAgain(cfg, d.rtc, w, stamp, board, at) && Fits(board)
    ensures var a := WarmCycle(cfg, d, w, false, true, stamp);
      && Stored(a.rtc, board, at) && a.rtc.meta.lastNtpSync == ClockFixed(cfg, d.ram, w.clock).lastNtpSync
      && a.rtc.meta.authErrorSeen == Fetched(ClockFixed(cfg, d.ram, w.clock), w.fetch).authErrorSeen
      && a.rtc.meta.expectedWakeAt == (if w.now >= MIN_PLAUSIBLE_EPOCH then w.now + SleepSeconds(cfg, WarmPlan(cfg, w)) else 0)
  {
    hide Fetched, WarmBoard, WarmPlan, HoldsFrame, SlotFrame, ApiOk, Complete, PlanFor, Fits, ClockUsable, ClockFixed;
    var e := Ready(cfg, d, w);
    var i := WarmPush(e.ram, w, false, true);
    CompleteIsOk(w.fetch);
    FetchedIsData(ClockFixed(cfg, d.ram, w.clock), w.fetch);
    ClockKeepsCounters(cfg, d.ram, w.clock);
    NoneIffUnchanged(e, board, i);
    assert FirstFrame(e, i, stamp) == board && HavePrev(e);
    assert FinalFrame(e, i, stamp) == board;
    SaveThenLoad(e.rtc, board);
  }

  lemma ClockKeepsCounters(cfg: CycleConfig, m: PersistedMeta, c: ClockIn)
    requires ClockUsable(cfg, m, c)
    ensures ClockFixed(cfg, m, c) == m.(lastNtpSync := ClockFixed(cfg, m, c).lastNtpSync)
  {
  }

  // ---------------------------------------------------------------- the notice stays

  // Power-on, a good first boot, then within half an hour a reset with its notice f while the
  // same timetable is ahead: the notice is all the glass shows.
  lemma NoticeStaysUp(d: Dev, render: Renderer, xs: Timetable, f: Frame, at: int, now: int, stamp: Stamp)
    requires d.rtc == POWER_ON && MIN_PLAUSIBLE_EPOCH <= at <= now <= at + 1800 && Ahead(xs, now)
    requires Fits(stamp(BoardOf(render, xs), at)) && f != stamp(BoardOf(render, xs), at)
    ensures var a := AfterSetup(DEFAULT_CYCLE, d, Boot(render, xs, at), stamp);
      var g := AfterSetup(DEFAULT_CYCLE, a, Wake(ColdBoot, Some(f), render, xs, now), stamp).glass;
      a.glass == Glass(stamp(BoardOf(render, xs), at)) && g == Glass(f) != Glass(stamp(BoardOf(render, xs), at))
  {
    hide AfterSetup, Boot, BoardOf, Warm, Cold, Pages, Fits, HoldsFrame, SlotFrame, Glass, SameAgain, PlanFrom;
    var cfg, shown := DEFAULT_CYCLE, stamp(BoardOf(render, xs), at);
    var a, s := AfterSetup(cfg, d, Boot(render, xs, at), stamp), Wake(ColdBoot, Some(f), render, xs, now);
    WakeAfterBoot(d, render, xs, at, stamp);
    WakeIsSameAgain(a.rtc, render, xs, at, now, stamp);
    NoticeOverSame(cfg, a, s, stamp, shown, at);
    FramesDiffer(f, shown);
  }

  // A notice over a stored board that is about to be drawn again stays.
  lemma NoticeOverSame(cfg: CycleConfig, d: Dev, s: SetupIn, stamp: Stamp, shown: Frame, at: int)
    requires Stored(d.rtc, shown, at) && SameAgain(cfg, d.rtc, s.warm, stamp, shown, at)
    requires s.reset.Some? && cfg.brownoutShow > 0 && s.cause != Button
    ensures AfterSetup(cfg, d, s, stamp).glass == Glass(s.reset.value)
  {
    hide AfterSetup, WarmRepaints, WarmScreen, HoldsFrame, SlotFrame, Glass, SameAgain;
    SameAgainIsQuiet(cfg, Overlaid(cfg, Awake(d), s), s.warm, stamp, shown, at);
    SetupOutcome(cfg, d, s, stamp);
  }

  // ---------------------------------------------------------------- the page stays

  // A forced warm cycle with nothing unusual about it covers what its one push covers.
  predicate PlainCycle(cfg: CycleConfig, d: Dev, w: WarmIn) {
    && w.connected && ClockUsable(cfg, d.ram, w.clock) && Complete(w.fetch)
    && !Nightly(cfg, Ready(cfg, d, w).ram, w)
  }

  lemma PlainCycleCovers(cfg: CycleConfig, d: Dev, w: WarmIn, force: bool, deepWake: bool, stamp: Stamp)
    requires PlainCycle(cfg, d, w)
    ensures var e := Ready(cfg, d, w);
      var i := WarmPush(e.ram, w, force, deepWake);
      && WarmScreen(cfg, d, w, force, deepWake, stamp) == Some(FinalFrame(e, i, stamp))
      && forall x, y :: WarmCovers(cfg, d, w, force, deepWake, stamp, x, y) <==> Covers(PushCover(e, i, stamp), x, y)
  {
    hide Fetched, Nightly, WarmBoard, FinalFrame, PushCover, ApiOk, Complete;
    CompleteIsOk(w.fetch);
  }

  // In the first hour after a full refresh a trusting push draws the differences only.
  lemma TrustingPushCover(d: Dev, i: PushIn, stamp: Stamp, prev: Frame, at: int)
    requires HavePrev(d) && SlotFrame(d.rtc.slot) == prev && d.ram.lastLightFull == at != 0 && d.ram.partialCount == 0
    requires !i.deepWake && i.now < at + 3600
    ensures var fb := FinalFrame(d, i, stamp);
      PushCover(d, i, stamp) == if fb == prev then Nothing else Part(Planner.DiffBox(prev, fb, WIDTH, HEIGHT))
  {
    hide FinalFrame, HoldsFrame, SlotFrame;
    var fb := FinalFrame(d, i, stamp);
    NoneIffUnchanged(d, fb, i);
    if fb != prev {
      PartialIsEnough(prev, fb);
    }
  }

  function Changes(prev: Frame, next: Frame): Cover {
    if prev == next then Nothing else Part(Planner.DiffBox(prev, next, WIDTH, HEIGHT))
  }

  function DoublePress(render: Renderer, xs: Timetable, page: Frame, now: int): PollIn {
    PollIn(Some(Double), Pages(page), Warm(render, xs, now))
  }

  // Power-on, a good first boot that stays awake for its departure, then a double press and
  // the same timetable: the board is back exactly if the page agrees with it outside the
  // box in which the two stamps differ; other pixels show the page.
  lemma PageStaysOutsideTheStamp(d: Dev, render: Renderer, xs: Timetable, page: Frame, at: int, now: int, stamp: Stamp)
    requires d.rtc == POWER_ON && MIN_PLAUSIBLE_EPOCH <= at <= now && Ahead(xs, now)
    requires xs != [] && xs[0].when < at + 1050 && Fits(stamp(BoardOf(render, xs), at))
    ensures PlanFrom(xs, at).mode == Active
    ensures var a := AfterSetup(DEFAULT_CYCLE, d, Boot(render, xs, at), stamp);
      var b := BoardOf(render, xs);
      var g, c := AfterPoll(DEFAULT_CYCLE, a, DoublePress(render, xs, page, now), stamp).glass, Changes(stamp(b, at), stamp(b, now));
      && (g == Glass(stamp(b, now)) <==> AgreeOutside(page, stamp(b, now), c))
      && forall x, y | OnPanel(x, y) :: g[At(x, y)] == if Covers(c, x, y) then White(stamp(b, now), x, y) else White(page, x, y)
  {
    hide AfterSetup, Boot, BoardOf, Warm, Fits, HoldsFrame, SlotFrame, Glass, White, WarmCovers, WarmScreen, PlainCycle, Ready,
         PushCover, WarmCycle, Changes;
    var cfg, p := DEFAULT_CYCLE, DoublePress(render, xs, page, now);
    var a := AfterSetup(cfg, d, Boot(render, xs, at), stamp);
    WakeAfterBoot(d, render, xs, at, stamp);
    var b := PressHandled(Awake(a), Double, p.button);
    PollIsPlain(b, render, xs, at, now, stamp);
    PlainCycleCovers(cfg, b, p.warm, true, false, stamp);
    forall x, y | OnPanel(x, y)
      ensures var c := Changes(stamp(BoardOf(render, xs), at), stamp(BoardOf(render, xs), now));
        AfterPoll(cfg, a, p, stamp).glass[At(x, y)] ==
        if Covers(c, x, y) then White(stamp(BoardOf(render, xs), now), x, y) else White(page, x, y)
    {
      WarmPixel(cfg, b, p.warm, true, false, stamp, x, y);
      GlassAt(page, x, y);
    }
    GlassIffPixels(AfterPoll(cfg, a, p, stamp).glass, stamp(BoardOf(render, xs), now));
  }

  // The poll's warm cycle and its push.
  lemma PollIsPlain(d: Dev, render: Renderer, xs: Timetable, at: int, now: int, stamp: Stamp)
    requires MIN_PLAUSIBLE_EPOCH <= at <= now < at + 1800 && Ahead(xs, now)
    requires d.ram == d.rtc.meta && Stored(d.rtc, stamp(BoardOf(render, xs), at), at)
    requires d.rtc.meta.lastNtpSync == at && d.rtc.meta.expectedWakeAt >= at && !d.rtc.meta.authErrorSeen
    ensures var w := Warm(render, xs, now);
      && PlainCycle(DEFAULT_CYCLE, d, w)
      && var e, b := Ready(DEFAULT_CYCLE, d, w), BoardOf(render, xs);
        var i := WarmPush(e.ram, w, true, false);
        && FinalFrame(e, i, stamp) == stamp(b, now)
        && PushCover(e, i, stamp) == Changes(stamp(b, at), stamp(b, now))
  {
    hide Fetched, FetchOf, WarmPlan, HoldsFrame, SlotFrame, ApiOk, Complete, PushCover, PlanFor, Drawn, Warm, BoardOf;
    var cfg, w := DEFAULT_CYCLE, Warm(render, xs, now);
    WarmParts(render, xs, now);
    FetchFacts(xs, now);
    SyncedClockStays(cfg, d.ram, w.clock, at, now);
    FetchedIsData(d.ram, w.fetch);
    DrawsBoard(Fetched(d.ram, w.fetch), render, xs, now);
    var e := Ready(cfg, d, w);
    var i := WarmPush(e.ram, w, true, false);
    assert FinalFrame(e, i, stamp) == stamp(BoardOf(render, xs), now);
    TrustingPushCover(e, i, stamp, stamp(BoardOf(render, xs), at), at);
  }

  // ---------------------------------------------------------------- a ticking stamp

  // A stamp that ticks in the first byte, and a white page.
  function Tick(): Stamp {
    (fb: Frame, now: int) => if now == 0 then fb else fb[0 := now % 256]
  }

  lemma TickOverwrites()
    ensures Overwrites(Tick())
  {
    forall f: Frame, a: int, b: int | b != 0
      ensures Tick()(Tick()(f, a), b) == Tick()(f, b)
    {
    }
  }

  function WhitePage(): Frame {
    seq(BYTES, _ => 255)
  }

  lemma TickBox(prev: Frame, next: Frame)
    requires next == prev[0 := next[0]] && next != prev
    ensures Changes(prev, next).Part? && !Covers(Changes(prev, next), 8, 0)
  {
    hide Planner.TightBox, Planner.DiffBox;
    assert prev[..BYTES] == prev && next[..BYTES] == next;
    Planner.DiffBoxIsTight(prev, next, WIDTH, HEIGHT);
    FirstByteBox(prev, next, Planner.DiffBox(prev, next, WIDTH, HEIGHT));
  }

  lemma FirstByteBox(prev: Frame, next: Frame, b: Planner.Bbox)
    requires next == prev[0 := next[0]] && Planner.TightBox(prev, next, STRIDE, HEIGHT, b)
    ensures b.x + b.w <= 8
  {
    var c := (b.x + b.w) / 8 - 1;
    assert Planner.ColumnDiffers(prev, next, STRIDE, HEIGHT, c);
    hide Planner.TightBox;
    var y :| y < HEIGHT && Planner.Differs(prev, next, STRIDE, c, y);
    Raster.IndexIs(STRIDE, c, y);
  }

  // A renderer that marks a late departure in the second byte.
  function Marks(planned: int): Renderer {
    (screen: Screen, view: Snapshot) => if view.stream[0].slot[0].when == planned then Blank() else Blank()[1 := 1]
  }

  function At300(at: int): Timetable {
    [Departure(at + 300, Realtime, true, "", 0)]
  }

  // Half a minute into the polling phase a double press leaves the white page up next to the
  // ticked stamp: the board is not back, and the page shows right beside the stamp.
  lemma PageStaysUp(d: Dev)
    requires d.rtc == POWER_ON
    ensures var at, now := MIN_PLAUSIBLE_EPOCH, MIN_PLAUSIBLE_EPOCH + 30;
      var render, xs := Marks(at + 300), At300(at);
      var a := AfterSetup(DEFAULT_CYCLE, d, Boot(render, xs, at), Tick());
      var g := AfterPoll(DEFAULT_CYCLE, a, DoublePress(render, xs, WhitePage(), now), Tick()).glass;
      && g != Glass(Tick()(BoardOf(render, xs), now))
      && g[At(8, 0)] == White(WhitePage(), 8, 0) != White(Tick()(BoardOf(render, xs), now), 8, 0)
  {
    hide AfterSetup, AfterPoll, Boot, DoublePress, Glass, Fits, Changes, White, AgreeOutside;
    var at, now := MIN_PLAUSIBLE_EPOCH, MIN_PLAUSIBLE_EPOCH + 30;
    var render, xs := Marks(at + 300), At300(at);
    BlankFits();
    assert BoardOf(render, xs) == Blank() && Tick()(Blank(), at) == Blank();
    PageStaysOutsideTheStamp(d, render, xs, WhitePage(), at, now, Tick());
    TickBox(Blank(), Tick()(Blank(), now));
    WhiteNextToBlack(Tick()(Blank(), now));
    GlassAt(Tick()(Blank(), now), 8, 0);
  }

  lemma WhiteNextToBlack(fb: Frame)
    requires fb[1] == 0
    ensures OnPanel(8, 0) && White(WhitePage(), 8, 0) && !White(fb, 8, 0)
  {
    FrameBuffers.UniformByte(true);
    FrameBuffers.UniformByte(false);
  }
}
