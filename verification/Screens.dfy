/** Which screen ends up on the glass, named outright, for every reply and every state of
    the network: from the replies through the fetch, the selector, the renderer, the stamp
    and the push. */
module Screens {
  import opened Meta
  import opened Display
  import opened Store
  import opened Push
  import opened Cycle
  import opened Wrappers
  import Fetch
  import GlassRuns
  import Hafas
  import Merge
  import Rescue
  import SleepPlan
  import Slots

  const NO_VIEW: Slots.Snapshot := Slots.EMPTY_SNAPSHOT

  // Realtime merged with the schedule, as the board shows it.
  function View(f: FetchIn, schedule: Slots.Schedule, now: int): Slots.Snapshot {
    Merge.Merged(Fetch.SnapshotOf(f.replies), schedule, now)
  }

  // ---------------------------------------------------------------- replies

  // Every batch came back 2xx and parsed.
  predicate AllBack(f: Fetch.Inputs) {
    && f.ogd0.outcome.ok && f.ogd0.parsed.Some? && f.ogd1.outcome.ok && f.ogd1.parsed.Some?
    && (f.oebb.Some? ==> f.oebb.value.outcome.ok && f.oebb.value.parsedOk)
  }

  // At least one did.
  predicate SomeBack(f: Fetch.Inputs) {
    || (f.ogd0.outcome.ok && f.ogd0.parsed.Some?) || (f.ogd1.outcome.ok && f.ogd1.parsed.Some?)
    || (f.oebb.Some? && f.oebb.value.outcome.ok && f.oebb.value.parsedOk)
  }

  // What a fetch counts as, in terms of its replies.
  lemma CompleteIff(f: FetchIn)
    ensures Complete(f) <==> AllBack(f.replies)
    ensures ApiOk(f) <==> SomeBack(f.replies)
  {
  }

  // An answer "AID" or "AUTH" of HAFAS raises the auth flag, a good one clears it, and any
  // other leaves it as the bus batches left it.
  lemma HafasMovesFlag(m: PersistedMeta, f: FetchIn, doc: Hafas.Doc, now: int)
    requires f.replies.oebb.Some? && f.replies.oebb.value.outcome.ok && f.replies.oebb.value.parsedOk
    requires f.replies.oebb.value.result == Hafas.Outcome(doc, now).0
    ensures doc.err in {"AID", "AUTH"} ==> Fetched(m, f).authErrorSeen
    ensures doc.err == "OK" && doc.res.Some? ==> !Fetched(m, f).authErrorSeen
    ensures doc.err !in {"AID", "AUTH", "OK"} ==>
      Fetched(m, f).authErrorSeen == Fetched(m, f.(replies := f.replies.(oebb := None))).authErrorSeen
  {
    hide Fetch.AfterBatch;
    Hafas.FlagsOfReply(doc, now);
  }

  // What a fetch leaves in the metadata the selector reads.
  lemma FetchedIs(m: PersistedMeta, f: FetchIn)
    ensures var n := Fetched(m, f);
      && n.hasAnyData == (m.hasAnyData || SomeBack(f.replies))
      && n.lastSuccessAt == (if SomeBack(f.replies) then f.now else m.lastSuccessAt)
      && n.lastDisplayUpdate == m.lastDisplayUpdate
  {
    hide Fetch.AfterFetch;
    CompleteIff(f);
    Fetch.OnlyTheTripwire(m, f.replies);
  }

  // ---------------------------------------------------------------- cold boot

  // The metadata after the fetch of a boot that got through.
  function Booted(d: Dev, c: ColdIn): PersistedMeta {
    Fetched(d.ram.(coldBootRetries := 0, noWifiCycles := 0), c.fetch)
  }

  // A boot that gets through ends on the auth screen while the flag is up, on the boot
  // screen without data, on the offline screen when WiFi is gone again and the data is
  // more than five minutes old, and on the board otherwise; stamped in every case.
  lemma ColdPictures(cfg: CycleConfig, d: Dev, c: ColdIn, stamp: Stamp)
    requires c.connected && c.ntp
    ensures var m, g := Booted(d, c), ColdCycle(cfg, d, c, stamp).glass;
      var data, stale := d.ram.hasAnyData || SomeBack(c.fetch.replies), !c.fetch.wifiUp && c.now - m.lastSuccessAt > 300;
      && (m.authErrorSeen ==> g == Glass(stamp(c.render(AuthScreen, NO_VIEW), c.now)))
      && (!m.authErrorSeen && !data ==> g == Glass(stamp(c.render(BootScreen, NO_VIEW), c.now)))
      && (!m.authErrorSeen && data && stale ==> g == Glass(stamp(c.render(OfflineScreen, NO_VIEW), c.now)))
      && (!m.authErrorSeen && data && !stale ==>
            g == Glass(stamp(c.render(Board, View(c.fetch, c.schedule, c.now)), c.now)))
  {
    FetchedIs(d.ram.(coldBootRetries := 0, noWifiCycles := 0), c.fetch);
    hide Fetched, Glass, SavedFrame, Merge.Merged, Fetch.SnapshotOf, SleepPlan.PlanOf;
  }

  // A boot that does not: with the wrong password its screen goes up at once; without a
  // network every n-th miss paints, and between them the boot screen shows only on the
  // first try of a device without a frame. Nothing trusts the stored frame afterwards, and
  // the retries saturate while the misses wrap.
  lemma ColdFailure(cfg: CycleConfig, d: Dev, c: ColdIn, stamp: Stamp)
    requires !c.connected || !c.ntp
    ensures var a, m, every := ColdCycle(cfg, d, c, stamp), d.ram, if cfg.noWifiRepaintEvery > 0 then cfg.noWifiRepaintEvery else 1;
      && a.glass == (
           if c.authFailed || m.noWifiCycles % every == 0 then Glass(c.errorScreen)
           else if !m.framebufferValid && m.coldBootRetries == 0 then Glass(c.bootScreen) else d.glass)
      && a.ram == a.rtc.meta && a.rtc.magic && a.rtc.slot == d.rtc.slot
      && a.ram == m.(framebufferValid := false, coldBootRetries := a.ram.coldBootRetries, noWifiCycles := a.ram.noWifiCycles)
      && (c.authFailed ==> a.ram.coldBootRetries == 0 && a.ram.noWifiCycles == 0)
      && (!c.authFailed ==>
            && a.ram.coldBootRetries == (if m.coldBootRetries < cfg.coldBootMaxRetries then m.coldBootRetries + 1 else m.coldBootRetries)
            && a.ram.noWifiCycles == (m.noWifiCycles + 1) % 256)
  {
    hide Glass, ColdFinished, Fetched;
  }

  // ---------------------------------------------------------------- warm cycle without WiFi

  // Without WiFi and with the right password the offline screen goes up exactly when there
  // is data, no auth error, and the last success is more than five minutes back. Otherwise
  // the cycle touches nothing.
  lemma WithoutWifi(cfg: CycleConfig, d: Dev, w: WarmIn, force: bool, deepWake: bool, stamp: Stamp)
    requires Mirrors(d) && Overwrites(stamp) && !w.connected && !w.authFailed && (force || w.pushNow != 0)
    ensures var a := WarmCycle(cfg, d, w, force, deepWake, stamp);
      if !d.ram.authErrorSeen && d.ram.hasAnyData && w.downNow - d.ram.lastSuccessAt > 300
      then ShowsStamped(a, w.render(OfflineScreen, NO_VIEW), stamp) else a == d
  {
    hide Glass, Pushed, WarmFinished;
    PushStamps(d, DownPush(w, force, deepWake), stamp);
  }

  // With the wrong one its screen goes up, and no copy of the metadata trusts the frame.
  lemma WrongPassword(cfg: CycleConfig, d: Dev, w: WarmIn, force: bool, deepWake: bool, stamp: Stamp)
    requires !w.connected && w.authFailed
    ensures var a := WarmCycle(cfg, d, w, force, deepWake, stamp);
      a.glass == Glass(w.authScreen) && !a.ram.framebufferValid && !a.rtc.meta.framebufferValid && !HavePrev(a)
  {
    hide Glass, Pushed, WarmFinished;
  }

  // ---------------------------------------------------------------- warm cycle

  // A connected cycle on a mirrored device, with a clock that reads something.
  ghost predicate Ready(cfg: CycleConfig, d: Dev, w: WarmIn, force: bool, stamp: Stamp) {
    && Mirrors(d) && Overwrites(stamp) && w.connected && ClockUsable(cfg, d.ram, w.clock)
    && (force || w.pushNow != 0) && w.rescue.pushNow != 0
  }

  // The metadata after its fetch, if it comes to one.
  function Found(cfg: CycleConfig, d: Dev, w: WarmIn): PersistedMeta {
    if ClockUsable(cfg, d.ram, w.clock) then Fetched(ClockFixed(cfg, d.ram, w.clock), w.fetch) else d.ram
  }

  lemma UpdateShowsStamped(cfg: CycleConfig, d: Dev, w: WarmIn, force: bool, deepWake: bool, stamp: Stamp)
    requires Mirrors(d) && Overwrites(stamp) && (force || w.pushNow != 0)
    ensures var u, n := Updated(cfg, d, w, force, deepWake, stamp), Nightly(cfg, d.ram, w);
      && Mirrors(u)
      && if n || PushesBoard(d.ram, w, force) then ShowsStamped(u, WarmBoard(d.ram, w, if n then w.now else w.pushNow), stamp)
         else u == d
  {
    hide Glass, Pushed, WarmPlan, Drawn;
    GlassRuns.UpdateShows(cfg, d, w, force, deepWake, stamp);
    if !Nightly(cfg, d.ram, w) && PushesBoard(d.ram, w, force) {
      PushStamps(d, WarmPush(d.ram, w, force, deepWake), stamp);
    }
  }

  lemma {:induction false} AttemptsKeepStamp(m: PersistedMeta, r: RescueIn, n: nat)
    ensures AfterAttempts(m, r, n).lastDisplayUpdate == m.lastDisplayUpdate
    ensures n > 0 && AllBack(r.fetch(n - 1).replies) ==>
      AfterAttempts(m, r, n).hasAnyData && AfterAttempts(m, r, n).lastSuccessAt == r.fetch(n - 1).now
  {
    if n > 0 {
      hide Fetched;
      AttemptsKeepStamp(m, r, n - 1);
      FetchedIs(AfterAttempts(m, r, n - 1), r.fetch(n - 1));
    }
  }

  // The rescued picture: the board of the first fetch with every batch back, unless the
  // flag is up by then.
  function RescuedPicture(refused: bool, w: WarmIn, n: nat): Frame {
    if refused then w.rescue.render(AuthScreen, NO_VIEW)
    else w.rescue.render(Board, View(LastOf(w.rescue, n), w.schedule, w.rescue.pushNow))
  }

  lemma RescueShowsStamped(cfg: CycleConfig, d: Dev, w: WarmIn, deepWake: bool, stamp: Stamp)
    requires Mirrors(d) && Overwrites(stamp) && w.rescue.pushNow != 0
    ensures var a, t := RescueEnd(cfg, d, w.rescue, w.schedule, deepWake, stamp), TraceOf(cfg, w.rescue);
      if Rescue.Rescued(t) then
        && AllBack(LastOf(w.rescue, Rescue.Fetches(t)).replies)
        && ShowsStamped(a, RescuedPicture(a.ram.authErrorSeen, w, Rescue.Fetches(t)), stamp)
      else a.glass == d.glass && a.ram.lastDisplayUpdate == d.ram.lastDisplayUpdate
  {
    hide Glass, AllBack, RescuedPicture, LastOf, TraceOf, Drawn, Pushed, Mirrors;
    var r, n := w.rescue, Rescue.Fetches(TraceOf(cfg, w.rescue));
    var m := AfterAttempts(d.ram, r, n);
    AttemptsKeepStamp(d.ram, r, n);
    AttemptsKeepMirror(d, r, n);
    if Rescue.Rescued(TraceOf(cfg, r)) {
      LastIsBack(cfg, r);
      RescueDraws(m, w, n);
      PushStamps(d.(ram := m), RescuePush(m, r, n, w.schedule, deepWake), stamp);
      PushKeepsFlags(d.(ram := m), RescuePush(m, r, n, w.schedule, deepWake), stamp);
    }
  }

  lemma AttemptsKeepMirror(d: Dev, r: RescueIn, n: nat)
    requires Mirrors(d)
    ensures Mirrors(d.(ram := AfterAttempts(d.ram, r, n)))
  {
    GlassRuns.AttemptsKeepFlag(d.ram, r, n);
  }

  lemma PushKeepsFlags(d: Dev, i: PushIn, stamp: Stamp)
    ensures Pushed(d, i, stamp).ram.authErrorSeen == d.ram.authErrorSeen
  {
  }

  // A rescue ends with the first fetch that has every batch back.
  lemma LastIsBack(cfg: CycleConfig, r: RescueIn)
    requires Rescue.Rescued(TraceOf(cfg, r))
    ensures var n := Rescue.Fetches(TraceOf(cfg, r));
      n > 0 && LastOf(r, n) == r.fetch(n - 1) && AllBack(r.fetch(n - 1).replies) && forall j: nat | j < n - 1 :: !AllBack(r.fetch(j).replies)
  {
    hide Complete, AllBack, Rescue.RescueTrace;
    var n := Rescue.Fetches(TraceOf(cfg, r));
    Rescue.FirstCompleteWins(cfg.rescue, r.anchor, r.clock, Completes(r), 0, 0);
    CompleteIff(r.fetch(n - 1));
    forall j: nat | j < n - 1
      ensures !AllBack(r.fetch(j).replies)
    {
      assert !Completes(r)(j);
      CompleteIff(r.fetch(j));
    }
  }

  lemma RescueDraws(m: PersistedMeta, w: WarmIn, n: nat)
    requires m.hasAnyData && m.lastSuccessAt == LastOf(w.rescue, n).now
    ensures Drawn(m, LastOf(w.rescue, n), w.schedule, w.rescue.render, w.rescue.pushNow) == RescuedPicture(m.authErrorSeen, w, n)
  {
    hide Merge.Merged, Fetch.SnapshotOf, LastOf;
  }

  // What a connected cycle leaves on the glass: the rescued picture, or that of the update.
  lemma WarmShowsStamped(cfg: CycleConfig, d: Dev, w: WarmIn, force: bool, deepWake: bool, stamp: Stamp)
    requires Ready(cfg, d, w, force, stamp)
    ensures var m, a, t := Found(cfg, d, w), WarmCycle(cfg, d, w, force, deepWake, stamp), TraceOf(cfg, w.rescue);
      var n := Nightly(cfg, m, w);
      if WasRescued(cfg, m, w) then
        && AllBack(LastOf(w.rescue, Rescue.Fetches(t)).replies)
        && ShowsStamped(a, RescuedPicture(a.ram.authErrorSeen, w, Rescue.Fetches(t)), stamp)
      else if n || PushesBoard(m, w, force)
      then ShowsStamped(a, WarmBoard(m, w, if n then w.now else w.pushNow), stamp)
      else a.glass == d.glass
  {
    hide Glass, Fetched, ClockFixed, ClockUsable, Updated, RescueEnd, Nightly, PushesBoard, Complete, TraceOf, Drawn, LastPlan, Mirrors;
    var e := d.(ram := Found(cfg, d, w));
    MirrorsAfterFetch(cfg, d, w);
    UpdateShowsStamped(cfg, e, w, force, deepWake, stamp);
    RescueShowsStamped(cfg, Updated(cfg, e, w, force, deepWake, stamp), w, deepWake, stamp);
  }

  lemma MirrorsAfterFetch(cfg: CycleConfig, d: Dev, w: WarmIn)
    requires Mirrors(d) && ClockUsable(cfg, d.ram, w.clock)
    ensures Mirrors(d.(ram := Found(cfg, d, w)))
  {
    hide Fetched;
    GlassRuns.FetchedKeepsFlag(ClockFixed(cfg, d.ram, w.clock), w.fetch);
  }

  // While the flag is up after the fetch, whether it worked or not, on a nightly clean and
  // on a push, the cycle ends on the auth screen; after a rescue if the flag is still up.
  lemma AuthIsShown(cfg: CycleConfig, d: Dev, w: WarmIn, force: bool, deepWake: bool, stamp: Stamp)
    requires Ready(cfg, d, w, force, stamp) && Found(cfg, d, w).authErrorSeen
    ensures var m, a := Found(cfg, d, w), WarmCycle(cfg, d, w, force, deepWake, stamp);
      && (!WasRescued(cfg, m, w) ==> ShowsStamped(a, w.render(AuthScreen, NO_VIEW), stamp))
      && (WasRescued(cfg, m, w) && a.ram.authErrorSeen ==>
            ShowsStamped(a, w.rescue.render(AuthScreen, NO_VIEW), stamp))
  {
    hide Ready, Found, WasRescued, WarmCycle, ShowsStamped, Nightly, AllBack, ApiOk;
    WarmShowsStamped(cfg, d, w, force, deepWake, stamp);
  }

  // Without the flag and without a rescue: the boot screen while there is no data; the
  // board once a batch came back; the offline screen when none did, WiFi is gone again and
  // the data is more than five minutes old; else the board without live data if the cycle
  // cleans or was forced, and what was there if not.
  lemma WarmPictures(cfg: CycleConfig, d: Dev, w: WarmIn, force: bool, deepWake: bool, stamp: Stamp)
    requires Ready(cfg, d, w, force, stamp)
    requires !Found(cfg, d, w).authErrorSeen && !WasRescued(cfg, Found(cfg, d, w), w)
    ensures var m, a, f := Found(cfg, d, w), WarmCycle(cfg, d, w, force, deepWake, stamp), w.fetch;
      var n := Nightly(cfg, m, w);
      var board := View(f, w.schedule, if n then w.now else w.pushNow);
      if !d.ram.hasAnyData && !SomeBack(f.replies) then ShowsStamped(a, w.render(BootScreen, NO_VIEW), stamp)
      else if SomeBack(f.replies) then ShowsStamped(a, w.render(Board, board), stamp)
      else if !f.wifiUp && f.now - d.ram.lastSuccessAt > 300
      then ShowsStamped(a, w.render(OfflineScreen, NO_VIEW), stamp)
      else if n || force then ShowsStamped(a, w.render(Board, board), stamp)
      else a.glass == d.glass
  {
    hide Ready, WasRescued, WarmCycle, ShowsStamped, Nightly, AllBack, SomeBack, ApiOk, Merge.Merged, Fetch.SnapshotOf, Fetched;
    WarmShowsStamped(cfg, d, w, force, deepWake, stamp);
    FoundIs(cfg, d, w, force, stamp);
    CompleteIff(w.fetch);
  }

  lemma FoundIs(cfg: CycleConfig, d: Dev, w: WarmIn, force: bool, stamp: Stamp)
    requires Ready(cfg, d, w, force, stamp)
    ensures var m := Found(cfg, d, w);
      && m.hasAnyData == (d.ram.hasAnyData || SomeBack(w.fetch.replies))
      && m.lastSuccessAt == (if SomeBack(w.fetch.replies) then w.fetch.now else d.ram.lastSuccessAt)
  {
    hide Fetched, SomeBack;
    FetchedIs(ClockFixed(cfg, d.ram, w.clock), w.fetch);
  }

  // ---------------------------------------------------------------- rescue, end to end

  // Attempt k finds the window open, on a clock that was read k + waits times before.
  predicate FindsItOpen(cfg: Rescue.RescueConfig, r: RescueIn, k: nat, waits: nat) {
    k < cfg.maxAttempts && cfg.windowStart <= r.clock(k + waits) - r.anchor <= cfg.windowEnd
  }

  // A cycle that does not clean, with at least one batch missing, on a clock that does not
  // go back and passes the time waited for: if some attempt inside the window has every
  // batch back, the first such attempt's board ends up on the glass.
  lemma RescueShowsBoard(cfg: CycleConfig, d: Dev, w: WarmIn, force: bool, deepWake: bool, stamp: Stamp, k: nat)
    returns (first: nat)
    requires Ready(cfg, d, w, force, stamp) && !Nightly(cfg, Found(cfg, d, w), w) && !AllBack(w.fetch.replies)
    requires var r, c := w.rescue, cfg.rescue;
      && (forall i: nat, j: nat | i <= j :: r.clock(i) <= r.clock(j))
      && r.anchor <= r.clock(0) && (r.clock(0) < r.anchor + c.windowStart ==> r.clock(1) >= r.anchor + c.windowStart)
      && FindsItOpen(c, r, k, if r.clock(0) < r.anchor + c.windowStart then 1 else 0) && AllBack(r.fetch(k).replies)
    ensures first <= k && AllBack(w.rescue.fetch(first).replies)
    ensures forall j: nat | j < first :: !AllBack(w.rescue.fetch(j).replies)
    ensures var a := WarmCycle(cfg, d, w, force, deepWake, stamp);
      var view := View(w.rescue.fetch(first), w.schedule, w.rescue.pushNow);
      && (!a.ram.authErrorSeen ==> ShowsStamped(a, w.rescue.render(Board, view), stamp))
      && (a.ram.authErrorSeen ==> ShowsStamped(a, w.rescue.render(AuthScreen, NO_VIEW), stamp))
  {
    hide Ready, Found, WarmCycle, ShowsStamped, Nightly, AllBack, Complete, Merge.Merged, Fetch.SnapshotOf, Rescue.RescueTrace;
    var r := w.rescue;
    CompleteIff(r.fetch(k));
    CompleteIff(w.fetch);
    assert Completes(r)(k);
    Rescue.RescueSucceedsIff(cfg.rescue, r.anchor, r.clock, Completes(r));
    LastIsBack(cfg, r);
    first := Rescue.Fetches(TraceOf(cfg, r)) - 1;
    WarmShowsStamped(cfg, d, w, force, deepWake, stamp);
  }

  // With every batch back, or on a nightly clean, the cycle fetches once only: nothing of
  // what a rescue would find makes a difference.
  lemma NoRescueWhenAllBack(cfg: CycleConfig, d: Dev, w: WarmIn, r: RescueIn, t: int, force: bool, deepWake: bool, stamp: Stamp)
    requires AllBack(w.fetch.replies) || (ClockUsable(cfg, d.ram, w.clock) && Nightly(cfg, Found(cfg, d, w), w))
    ensures WarmCycle(cfg, d, w.(rescue := r, rescueNow := t), force, deepWake, stamp) == WarmCycle(cfg, d, w, force, deepWake, stamp)
  {
    hide Fetched, ClockUsable, ClockFixed, AllBack, Complete, Pushed, NightlyCleaned, Slept, Drawn, ApiOk, PromotesToNightly,
         SleepPlan.PlanOf, MergedOf, RescueEnd, TraceOf;
    CompleteIff(w.fetch);
  }
}
