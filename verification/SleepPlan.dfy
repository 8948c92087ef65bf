/** planSleep (src/logic/sleep_planner.cpp) and what it means for the merged board:
    the device is awake in time for every departure it knows about. */
module SleepPlan {
  import opened CInts
  import opened Slots
  import opened Merge
  import opened Wrappers

  datatype Mode = DeepSleep | Active

  datatype SleepDecision = SleepDecision(mode: Mode, seconds: nat)

  datatype SleepConfig = SleepConfig(
    wakeBeforeBus: int, bootMargin: int, activeThreshold: int, noDataSleep: int, apiFailureRetry: int)

  const DEFAULT_SLEEP_CONFIG := SleepConfig(900, 30, 120, 1800, 60)

  // The earliest departure among the first n streams, the first i slots of the next.
  ghost predicate Earliest(snap: StreamSnapshot, n: nat, i: nat, have: bool, t: int)
    requires SnapshotShape(snap) && n <= STREAM_COUNT && i <= SLOTS_PER_STREAM
  {
    && (have ==> exists s, k :: Scanned(n, i, s, k) && snap.stream[s].slot[k].valid && snap.stream[s].slot[k].when == t)
    && (forall s, k | Scanned(n, i, s, k) && snap.stream[s].slot[k].valid :: have && t <= snap.stream[s].slot[k].when)
  }

  predicate Scanned(n: nat, i: nat, s: int, k: int) {
    0 <= s < STREAM_COUNT && 0 <= k < SLOTS_PER_STREAM && (s < n || (s == n && k < i))
  }

  // The decision: a short retry after a failed fetch, a long nap without departures, and
  // otherwise a sleep that ends the two margins before the earliest one.
  ghost predicate Plans(snap: StreamSnapshot, now: int, cfg: SleepConfig, d: SleepDecision)
    requires SnapshotShape(snap)
  {
    if !snap.apiOk then d == SleepDecision(DeepSleep, U32(cfg.apiFailureRetry))
    else if Earliest(snap, STREAM_COUNT, 0, false, 0) then d == SleepDecision(DeepSleep, U32(cfg.noDataSleep))
    else exists t :: Earliest(snap, STREAM_COUNT, 0, true, t) && PlansFor(t, now, cfg, d)
  }

  predicate PlansFor(t: int, now: int, cfg: SleepConfig, d: SleepDecision) {
    var delta := t - cfg.wakeBeforeBus - cfg.bootMargin - now;
    d == if delta >= cfg.activeThreshold then SleepDecision(DeepSleep, U32(delta)) else SleepDecision(Active, 0)
  }

  // The reference time the loop finds, and the plan as a function.
  function First(snap: StreamSnapshot, n: nat, i: nat): Option<int>
    requires SnapshotShape(snap) && n <= STREAM_COUNT && i <= SLOTS_PER_STREAM && (n == STREAM_COUNT ==> i == 0)
    decreases n, i
  {
    if i > 0 then
      var d, before := snap.stream[n].slot[i - 1], First(snap, n, i - 1);
      if d.valid && (before.None? || d.when < before.value) then Some(d.when) else before
    else if n > 0 then First(snap, n - 1, SLOTS_PER_STREAM)
    else None
  }

  function PlanOf(snap: StreamSnapshot, now: int, cfg: SleepConfig): SleepDecision
    requires SnapshotShape(snap)
  {
    var t := First(snap, STREAM_COUNT, 0);
    if !snap.apiOk then SleepDecision(DeepSleep, U32(cfg.apiFailureRetry))
    else if t.None? then SleepDecision(DeepSleep, U32(cfg.noDataSleep))
    else
      var delta := t.value - cfg.wakeBeforeBus - cfg.bootMargin - now;
      if delta >= cfg.activeThreshold then SleepDecision(DeepSleep, U32(delta)) else SleepDecision(Active, 0)
  }

  lemma {:induction false} FirstIsEarliest(snap: StreamSnapshot, n: nat, i: nat)
    requires SnapshotShape(snap) && n <= STREAM_COUNT && i <= SLOTS_PER_STREAM && (n == STREAM_COUNT ==> i == 0)
    ensures var t := First(snap, n, i); Earliest(snap, n, i, t.Some?, if t.Some? then t.value else 0)
    decreases n, i
  {
    if i > 0 {
      FirstIsEarliest(snap, n, i - 1);
      assert Scanned(n, i, n, i - 1);
    } else if n > 0 {
      FirstIsEarliest(snap, n - 1, SLOTS_PER_STREAM);
    }
  }

  // The plan is the one described above.
  lemma PlanOfPlans(snap: StreamSnapshot, now: int, cfg: SleepConfig)
    requires SnapshotShape(snap)
    ensures Plans(snap, now, cfg, PlanOf(snap, now, cfg))
  {
    FirstIsEarliest(snap, STREAM_COUNT, 0);
    var t := First(snap, STREAM_COUNT, 0);
    NoneIsNone(snap, t.Some?, if t.Some? then t.value else 0);
  }

  method PlanSleep(snap: StreamSnapshot, now: int, cfg: SleepConfig) returns (d: SleepDecision)
    requires SnapshotShape(snap)
    ensures d == PlanOf(snap, now, cfg) && Plans(snap, now, cfg, d)
  {
    PlanOfPlans(snap, now, cfg);
    if !snap.apiOk {
      return SleepDecision(DeepSleep, U32(cfg.apiFailureRetry));
    }
    var tRef, have := 0, false;
    for s := 0 to STREAM_COUNT
      invariant First(snap, s, 0) == if have then Some(tRef) else None
    {
      for k := 0 to SLOTS_PER_STREAM
        invariant First(snap, s, k) == if have then Some(tRef) else None
      {
        var dep := snap.stream[s].slot[k];
        if dep.valid {
          if !have || dep.when < tRef {
            tRef := dep.when;
            have := true;
          }
        }
      }
    }
    if !have {
      return SleepDecision(DeepSleep, U32(cfg.noDataSleep));
    }
    var wakeAt := tRef - cfg.wakeBeforeBus - cfg.bootMargin;
    var delta := wakeAt - now;
    if delta >= cfg.activeThreshold {
      return SleepDecision(DeepSleep, U32(delta));
    }
    return SleepDecision(Active, 0);
  }

  lemma NoneIsNone(snap: StreamSnapshot, have: bool, t: int)
    requires SnapshotShape(snap) && Earliest(snap, STREAM_COUNT, 0, have, t)
    ensures Earliest(snap, STREAM_COUNT, 0, false, 0) <==> !have
  {
  }

  // ---------------------------------------------------------------- theorems

  // How much later than t another departure of the same minute can be. Division truncates,
  // so the minute around the epoch is two minutes wide.
  function Slack(t: int): int {
    if -60 < t < 0 then 118 else 59
  }

  // Every offer has a slot on the merged board at most that much later.
  lemma ShownWithinAMinute(snap: StreamSnapshot, schedule: ScheduleSnapshot, now: int, s: nat, c: Departure)
    returns (k: nat)
    requires SnapshotShape(snap) && ScheduleShape(schedule) && s < STREAM_COUNT
    requires c in StreamOffers(snap, schedule, now, s)
    ensures k < SLOTS_PER_STREAM
    ensures var d := Merged(snap, schedule, now).stream[s].slot[k]; d.valid && d.when <= c.when + Slack(c.when)
  {
    hide Minute;
    var l := Offered(StreamOffers(snap, schedule, now, s));
    MergedIsBest(snap, schedule, now, s);
    MergeLosesOnlyLater(snap, schedule, now, s, c);
    OffersAre(snap, schedule, now, s, c);
    if HasMinute(l, Minute(c.when)) {
      k :| 0 <= k < |l| && Minute(l[k].when) == Minute(c.when);
    } else {
      k := 2;
    }
    assert l[k] in l;
    WithinSlack(l[k].when, c.when);
  }

  lemma WithinSlack(a: int, b: int)
    requires Minute(a) <= Minute(b)
    ensures a <= b + Slack(b)
  {
  }

  // The wake-up is early enough for every departure on offer, in every stream: the two
  // margins hold up to the seconds that the minute dedup may hide. The merge and the plan
  // read the clock separately.
  lemma NeverOversleeps(snap: StreamSnapshot, schedule: ScheduleSnapshot, mergedAt: int, now: int, cfg: SleepConfig,
                        d: SleepDecision, s: nat, c: Departure)
    requires SnapshotShape(snap) && ScheduleShape(schedule) && s < STREAM_COUNT
    requires snap.apiOk && 0 <= cfg.activeThreshold
    requires Plans(Merged(snap, schedule, mergedAt), now, cfg, d) && d.mode == DeepSleep
    requires c in StreamOffers(snap, schedule, mergedAt, s)
    ensures now + d.seconds + cfg.wakeBeforeBus + cfg.bootMargin - Slack(c.when) <= c.when
  {
    var k := ShownWithinAMinute(snap, schedule, mergedAt, s, c);
    assert Scanned(STREAM_COUNT, 0, s, k);
  }

  // With the production margins: at least 871 s to spare on any clock past the epoch, and
  // 812 s on any clock at all.
  lemma NeverOversleepsByDefault(snap: StreamSnapshot, schedule: ScheduleSnapshot, mergedAt: int, now: int,
                                 d: SleepDecision, s: nat, c: Departure)
    requires SnapshotShape(snap) && ScheduleShape(schedule) && s < STREAM_COUNT && snap.apiOk
    requires Plans(Merged(snap, schedule, mergedAt), now, DEFAULT_SLEEP_CONFIG, d) && d.mode == DeepSleep
    requires c in StreamOffers(snap, schedule, mergedAt, s)
    ensures now + d.seconds + (if 0 <= mergedAt then 871 else 812) <= c.when
  {
    OffersAre(snap, schedule, mergedAt, s, c);
    NeverOversleeps(snap, schedule, mergedAt, now, DEFAULT_SLEEP_CONFIG, d, s, c);
  }

  // Nor does it wake early for nothing: a departure-driven sleep ends exactly the margins
  // before a departure that is really on offer (while the span fits the unsigned field).
  lemma WakesForARealDeparture(snap: StreamSnapshot, schedule: ScheduleSnapshot, mergedAt: int, now: int, cfg: SleepConfig,
                               d: SleepDecision)
    returns (s: nat, c: Departure)
    requires SnapshotShape(snap) && ScheduleShape(schedule) && snap.apiOk
    requires exists i, e :: 0 <= i < STREAM_COUNT && e in StreamOffers(snap, schedule, mergedAt, i)
    requires Plans(Merged(snap, schedule, mergedAt), now, cfg, d)
    ensures s < STREAM_COUNT && c in StreamOffers(snap, schedule, mergedAt, s)
    ensures c in Merged(snap, schedule, mergedAt).stream[s].slot && c.valid
    ensures PlansFor(c.when, now, cfg, d)
  {
    var i, e :| 0 <= i < STREAM_COUNT && e in StreamOffers(snap, schedule, mergedAt, i);
    var j := ShownWithinAMinute(snap, schedule, mergedAt, i, e);
    var k;
    s, k := PlannedSlot(Merged(snap, schedule, mergedAt), now, cfg, d, i, j);
    c := Merged(snap, schedule, mergedAt).stream[s].slot[k];
    ShownIsOffered(snap, schedule, mergedAt, s, c);
  }

  lemma PlannedSlot(m: StreamSnapshot, now: int, cfg: SleepConfig, d: SleepDecision, i: nat, j: nat)
    returns (s: nat, k: nat)
    requires SnapshotShape(m) && m.apiOk && Plans(m, now, cfg, d)
    requires i < STREAM_COUNT && j < SLOTS_PER_STREAM && m.stream[i].slot[j].valid
    ensures s < STREAM_COUNT && k < SLOTS_PER_STREAM
    ensures m.stream[s].slot[k].valid && PlansFor(m.stream[s].slot[k].when, now, cfg, d)
  {
    assert Scanned(STREAM_COUNT, 0, i, j);
    var t :| Earliest(m, STREAM_COUNT, 0, true, t) && PlansFor(t, now, cfg, d);
    s, k :| Scanned(STREAM_COUNT, 0, s, k) && m.stream[s].slot[k].valid && m.stream[s].slot[k].when == t;
  }

  lemma ShownIsOffered(snap: StreamSnapshot, schedule: ScheduleSnapshot, now: int, s: nat, c: Departure)
    requires SnapshotShape(snap) && ScheduleShape(schedule) && s < STREAM_COUNT
    requires c in Merged(snap, schedule, now).stream[s].slot && c.valid
    ensures c in StreamOffers(snap, schedule, now, s)
  {
    MergedIsBest(snap, schedule, now, s);
    assert c in Offered(StreamOffers(snap, schedule, now, s));
    assert IsFirstOffer(StreamOffers(snap, schedule, now, s), c);
  }

  // A live departure and a hint of the same minute, and nothing else, are on offer.
  ghost predicate LiveHidesHint(snap: StreamSnapshot, schedule: ScheduleSnapshot, now: int, live: Departure, hint: Departure) {
    && SnapshotShape(snap) && ScheduleShape(schedule) && snap.apiOk
    && live in snap.stream[0].slot && live.valid && hint !in snap.stream[0].slot
    && Minute(live.when) == Minute(hint.when)
    && forall s, c | 0 <= s < STREAM_COUNT ::
         c in StreamOffers(snap, schedule, now, s) <==> s == 0 && (c == live || c == hint)
  }

  // The 871 s are attained: a live departure at second 59 hides a hint at second 0.
  lemma BoundIsTight(snap: StreamSnapshot, schedule: ScheduleSnapshot, now: int, d: SleepDecision,
                     live: Departure, hint: Departure)
    requires LiveHidesHint(snap, schedule, now, live, hint) && live.when == hint.when + 59
    requires 1050 <= live.when - now < 0x1_0000_0000
    requires Plans(Merged(snap, schedule, now), now, DEFAULT_SLEEP_CONFIG, d)
    ensures d.mode == DeepSleep && now + d.seconds + 871 == hint.when
  {
    LiveDecides(snap, schedule, now, DEFAULT_SLEEP_CONFIG, d, live, hint);
    PlansForFits(live.when, now, d);
  }

  lemma LiveDecides(snap: StreamSnapshot, schedule: ScheduleSnapshot, now: int, cfg: SleepConfig, d: SleepDecision,
                    live: Departure, hint: Departure)
    requires LiveHidesHint(snap, schedule, now, live, hint)
    requires Plans(Merged(snap, schedule, now), now, cfg, d)
    ensures PlansFor(live.when, now, cfg, d)
  {
    assert live in StreamOffers(snap, schedule, now, 0);
    OffersAre(snap, schedule, now, 0, live);
    var s, x := WakesForARealDeparture(snap, schedule, now, now, cfg, d);
    RealtimeBeatsHint(snap, schedule, now, 0, live, x);
  }

  lemma PlansForFits(t: int, now: int, d: SleepDecision)
    requires PlansFor(t, now, DEFAULT_SLEEP_CONFIG, d) && 1050 <= t - now < 0x1_0000_0000
    ensures d.mode == DeepSleep && now + d.seconds + 930 == t
  {
  }

  // Such a board exists: live at 3659, a hint at 3600, seen at second 60.
  lemma TightBoardExists() returns (snap: StreamSnapshot, schedule: ScheduleSnapshot, live: Departure)
    ensures LiveHidesHint(snap, schedule, 60, live, HintAt(3600)) && live.when == 3659
  {
    live := Departure(3659, Realtime, true, "", 0);
    var none := StreamData([NO_DEPARTURE, NO_DEPARTURE, NO_DEPARTURE], false, false);
    var noHint := ScheduleHint(0, [0, 0], [0, 0]);
    snap := StreamSnapshot([none.(slot := [live, NO_DEPARTURE, NO_DEPARTURE]), none, none, none], true);
    schedule := ScheduleSnapshot([ScheduleHint(0, [0, 3600], [0, 0]), noHint, noHint, noHint], 60);
    assert snap.stream[0].slot[0] == live && HintTimes(schedule.hint[0]) == [0, 3600, 0, 0];
    forall s, c | 0 <= s < STREAM_COUNT
      ensures c in StreamOffers(snap, schedule, 60, s) <==> s == 0 && (c == live || c == HintAt(3600))
    {
      OffersAre(snap, schedule, 60, s, c);
    }
  }
}
