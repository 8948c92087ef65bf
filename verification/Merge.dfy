/** mergeSlots (src/logic/slot_merger.cpp): per stream, realtime departures first, then
    the usable timetable hints, through the bounded sorted insertion. */
module Merge {
  import opened Slots

  // Strictly younger than 48 h, and ever loaded.
  predicate ScheduleUsable(s: ScheduleSnapshot, now: int) {
    s.fetchedAt != 0 && now - s.fetchedAt < SCHEDULE_HINT_MAX_AGE_S
  }

  function HintAt(t: int): Departure {
    Departure(t, Hint, true, "", 0)
  }

  // The candidates among the first n slots or times, in the order they are offered.
  function LiveOffers(slots: seq<Departure>, n: nat, now: int): seq<Departure>
    requires n <= |slots|
  {
    if n == 0 then []
    else if slots[n - 1].valid && slots[n - 1].when >= now then LiveOffers(slots, n - 1, now) + [slots[n - 1]]
    else LiveOffers(slots, n - 1, now)
  }

  function HintOffers(times: seq<int>, n: nat, now: int): seq<Departure>
    requires n <= |times|
  {
    if n == 0 then []
    else if times[n - 1] == 0 || times[n - 1] < now then HintOffers(times, n - 1, now)
    else HintOffers(times, n - 1, now) + [HintAt(times[n - 1])]
  }

  lemma {:induction false} LiveOffersAre(slots: seq<Departure>, n: nat, now: int, c: Departure)
    requires n <= |slots|
    ensures c in LiveOffers(slots, n, now) <==> c in slots[..n] && c.valid && c.when >= now
  {
    if n > 0 {
      LiveOffersAre(slots, n - 1, now, c);
      assert slots[..n] == slots[..n - 1] + [slots[n - 1]];
    }
  }

  lemma {:induction false} HintOffersAre(times: seq<int>, n: nat, now: int, c: Departure)
    requires n <= |times|
    ensures c in HintOffers(times, n, now) <==> c == HintAt(c.when) && c.when in times[..n] && c.when != 0 && c.when >= now
  {
    if n > 0 {
      HintOffersAre(times, n - 1, now, c);
      assert times[..n] == times[..n - 1] + [times[n - 1]];
    }
  }

  function HintTimes(h: ScheduleHint): seq<int> {
    h.nextToday + h.firstTomorrow
  }

  function Offers(d: StreamData, h: ScheduleHint, useSchedule: bool, now: int): seq<Departure> {
    LiveOffers(d.slot, |d.slot|, now) + if useSchedule then HintOffers(HintTimes(h), |HintTimes(h)|, now) else []
  }

  function MergedStream(snap: StreamSnapshot, schedule: ScheduleSnapshot, now: int, s: nat): StreamData
    requires SnapshotShape(snap) && ScheduleShape(schedule) && s < STREAM_COUNT
  {
    snap.stream[s].(slot := Padded(Offered(StreamOffers(snap, schedule, now, s))))
  }

  function StreamOffers(snap: StreamSnapshot, schedule: ScheduleSnapshot, now: int, s: nat): seq<Departure>
    requires SnapshotShape(snap) && ScheduleShape(schedule) && s < STREAM_COUNT
  {
    Offers(snap.stream[s], schedule.hint[s], ScheduleUsable(schedule, now), now)
  }

  function Merged(snap: StreamSnapshot, schedule: ScheduleSnapshot, now: int): (m: StreamSnapshot)
    requires SnapshotShape(snap) && ScheduleShape(schedule)
    ensures SnapshotShape(m)
  {
    snap.(stream := seq(STREAM_COUNT, s requires 0 <= s < STREAM_COUNT => MergedStream(snap, schedule, now, s)))
  }

  // ---------------------------------------------------------------- the code

  method OfferLive(merged: array<Departure>, slots: seq<Departure>, now: int)
    requires merged.Length == SLOTS_PER_STREAM && merged[..] == Padded([])
    modifies merged
    ensures merged[..] == Padded(Offered(LiveOffers(slots, |slots|, now)))
  {
    for i := 0 to |slots|
      invariant merged[..] == Padded(Offered(LiveOffers(slots, i, now)))
    {
      if slots[i].valid && slots[i].when >= now {
        InsertOffer(merged, slots[i], LiveOffers(slots, i, now));
      }
    }
  }

  method OfferHints(merged: array<Departure>, times: seq<int>, now: int, ghost before: seq<Departure>)
    requires merged.Length == SLOTS_PER_STREAM && merged[..] == Padded(Offered(before))
    modifies merged
    ensures merged[..] == Padded(Offered(before + HintOffers(times, |times|, now)))
  {
    ghost var cs := before;
    for i := 0 to |times|
      invariant cs == before + HintOffers(times, i, now) && merged[..] == Padded(Offered(cs))
    {
      var t := times[i];
      if !(t == 0 || t < now) {
        InsertOffer(merged, HintAt(t), cs);
        cs := cs + [HintAt(t)];
      }
    }
  }

  method InsertOffer(merged: array<Departure>, c: Departure, ghost cs: seq<Departure>)
    requires merged.Length == SLOTS_PER_STREAM && merged[..] == Padded(Offered(cs))
    modifies merged
    ensures merged[..] == Padded(Offered(cs + [c]))
  {
    OfferedIsBest(cs);
    assert (cs + [c])[..|cs|] == cs;
    InsertSorted(merged, c, Offered(cs));
  }

  // One stream: realtime slots first, so they win on a tie.
  method MergeStream(merged: array<Departure>, d: StreamData, hint: ScheduleHint, useSchedule: bool, now: int)
    requires merged.Length == SLOTS_PER_STREAM && merged[..] == Padded([])
    modifies merged
    ensures merged[..] == Padded(Offered(Offers(d, hint, useSchedule, now)))
  {
    OfferLive(merged, d.slot, now);
    ghost var live := LiveOffers(d.slot, |d.slot|, now);
    assert live + [] == live;
    if useSchedule {
      OfferHints(merged, HintTimes(hint), now, live);
    }
  }

  method MergeSlots(snap: StreamSnapshot, schedule: ScheduleSnapshot, now: int) returns (out: StreamSnapshot)
    requires SnapshotShape(snap) && ScheduleShape(schedule)
    ensures out == Merged(snap, schedule, now)
  {
    out := snap;
    var useSchedule := ScheduleUsable(schedule, now);
    for s := 0 to STREAM_COUNT
      invariant |out.stream| == STREAM_COUNT && out.apiOk == snap.apiOk
      invariant forall i | 0 <= i < s :: out.stream[i] == MergedStream(snap, schedule, now, i)
      invariant forall i | s <= i < STREAM_COUNT :: out.stream[i] == snap.stream[i]
    {
      var merged := new Departure[SLOTS_PER_STREAM](_ => NO_DEPARTURE);
      assert merged[..] == Padded([]);
      MergeStream(merged, snap.stream[s], schedule.hint[s], useSchedule, now);
      out := out.(stream := out.stream[s := out.stream[s].(slot := merged[..])]);
    }
    assert out.stream == Merged(snap, schedule, now).stream;
  }

  // ---------------------------------------------------------------- theorems

  // What is on offer: future realtime slots, and future hints while the schedule is usable.
  lemma OffersAre(snap: StreamSnapshot, schedule: ScheduleSnapshot, now: int, s: nat, c: Departure)
    requires SnapshotShape(snap) && ScheduleShape(schedule) && s < STREAM_COUNT
    ensures c in StreamOffers(snap, schedule, now, s) <==>
      || (c in snap.stream[s].slot && c.valid && c.when >= now)
      || (ScheduleUsable(schedule, now) && c == HintAt(c.when) && c.when in HintTimes(schedule.hint[s])
          && c.when != 0 && c.when >= now)
  {
    var slots, times := snap.stream[s].slot, HintTimes(schedule.hint[s]);
    LiveOffersAre(slots, |slots|, now, c);
    HintOffersAre(times, |times|, now, c);
    assert slots[..|slots|] == slots && times[..|times|] == times;
  }

  // A schedule fetched less than two days ago offers each of its four hints that is ahead.
  lemma FreshHintIsOffered(snap: StreamSnapshot, schedule: ScheduleSnapshot, now: int, s: nat, t: int)
    requires SnapshotShape(snap) && ScheduleShape(schedule) && s < STREAM_COUNT
    requires schedule.fetchedAt != 0 && now - schedule.fetchedAt < 172800 && t != 0 && t >= now
    requires t in schedule.hint[s].nextToday || t in schedule.hint[s].firstTomorrow
    ensures Departure(t, Hint, true, "", 0) in StreamOffers(snap, schedule, now, s)
  {
    OffersAre(snap, schedule, now, s, HintAt(t));
  }

  // An older one, or none, offers only what is live.
  lemma StaleHintsAreNot(snap: StreamSnapshot, schedule: ScheduleSnapshot, now: int, s: nat, c: Departure)
    requires SnapshotShape(snap) && ScheduleShape(schedule) && s < STREAM_COUNT
    requires schedule.fetchedAt == 0 || now - schedule.fetchedAt >= 172800
    ensures c in StreamOffers(snap, schedule, now, s) <==> c in snap.stream[s].slot && c.valid && c.when >= now
  {
    OffersAre(snap, schedule, now, s, c);
  }

  // What each merged stream shows.
  lemma MergedIsBest(snap: StreamSnapshot, schedule: ScheduleSnapshot, now: int, s: nat)
    requires SnapshotShape(snap) && ScheduleShape(schedule) && s < STREAM_COUNT
    ensures Merged(snap, schedule, now).stream[s].slot == Padded(Offered(StreamOffers(snap, schedule, now, s)))
    ensures Best(Offered(StreamOffers(snap, schedule, now, s)), StreamOffers(snap, schedule, now, s))
  {
    OfferedIsBest(StreamOffers(snap, schedule, now, s));
  }

  // The merge changes slots and nothing else.
  lemma MergeKeepsFlags(snap: StreamSnapshot, schedule: ScheduleSnapshot, now: int, s: nat)
    requires SnapshotShape(snap) && ScheduleShape(schedule) && s < STREAM_COUNT
    ensures var m := Merged(snap, schedule, now);
      && m.apiOk == snap.apiOk && m.stream[s].endpointResponded == snap.stream[s].endpointResponded
      && m.stream[s].filterMatched == snap.stream[s].filterMatched
  {
  }

  // A realtime departure always beats a hint of the same minute.
  lemma RealtimeBeatsHint(snap: StreamSnapshot, schedule: ScheduleSnapshot, now: int, s: nat, r: Departure, x: Departure)
    requires SnapshotShape(snap) && ScheduleShape(schedule) && s < STREAM_COUNT
    requires r in snap.stream[s].slot && r.valid && r.when >= now
    requires x in Merged(snap, schedule, now).stream[s].slot && x.valid && Minute(x.when) == Minute(r.when)
    ensures x in snap.stream[s].slot
  {
    var slots := snap.stream[s].slot;
    var live := LiveOffers(slots, |slots|, now);
    var cs := StreamOffers(snap, schedule, now, s);
    MergedIsBest(snap, schedule, now, s);
    assert x in Offered(cs);
    assert IsFirstOffer(cs, x);
    var k: nat :| k < |cs| && cs[k] == x && FirstOffer(cs, k);
    LiveOffersAre(slots, |slots|, now, r);
    var j :| 0 <= j < |live| && live[j] == r;
    assert cs[j] == r;
    assert k < |live| && live[k] == x;
    LiveOffersAre(slots, |slots|, now, x);
  }

  // Nothing past is shown, and every future departure on offer is shown or displaced by
  // three earlier minutes.
  lemma MergeLosesOnlyLater(snap: StreamSnapshot, schedule: ScheduleSnapshot, now: int, s: nat, c: Departure)
    requires SnapshotShape(snap) && ScheduleShape(schedule) && s < STREAM_COUNT
    requires c in StreamOffers(snap, schedule, now, s)
    ensures var l := Offered(StreamOffers(snap, schedule, now, s));
      && (forall d | d in l :: d.valid && d.when >= now)
      && Settled(l, Minute(c.when))
  {
    var cs := StreamOffers(snap, schedule, now, s);
    OfferedIsBest(cs);
    OffersAre(snap, schedule, now, s, c);
    var k :| 0 <= k < |cs| && cs[k] == c;
    assert cs[k].valid;
    var l := Offered(cs);
    forall d | d in l
      ensures d.valid && d.when >= now
    {
      assert IsFirstOffer(cs, d);
      OffersAre(snap, schedule, now, s, d);
    }
  }
}
