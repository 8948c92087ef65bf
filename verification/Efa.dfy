/** consumeEfaDoc (src/data/efa_parse.cpp), from already decoded departures: a rolling
    window of the last two departures before the cutoff and the first two after it, for
    every stream the call addresses. */
module Efa {
  import opened Slots
  import opened Wrappers
  import opened Merge
  import opened SleepPlan

  // A departureList entry; `time` is 0 when the dateTime block does not decode.
  datatype EfaDeparture = EfaDeparture(time: int, number: string, direction: string)

  datatype Filter = Filter(diva: int, line: string, prefix: string, prefixAlt: string)

  predicate StartsWith(s: string, prefix: string) {
    prefix <= s
  }

  predicate Matches(f: Filter, diva: int, d: EfaDeparture) {
    && f.diva == diva && f.line == d.number
    && (StartsWith(d.direction, f.prefix) || (f.prefixAlt != "" && StartsWith(d.direction, f.prefixAlt)))
  }

  // The stream a departure counts for: the first matching filter, if its time is known.
  function CreditFrom(fs: seq<Filter>, diva: int, d: EfaDeparture, i: nat): (r: Option<nat>)
    requires i <= |fs|
    ensures r.Some? ==> i <= r.value < |fs| && Matches(fs[r.value], diva, d)
    ensures r.Some? ==> forall k | i <= k < r.value :: !Matches(fs[k], diva, d)
    ensures r.None? ==> forall k | i <= k < |fs| :: !Matches(fs[k], diva, d)
    decreases |fs| - i
  {
    if i == |fs| then None else if Matches(fs[i], diva, d) then Some(i) else CreditFrom(fs, diva, d, i + 1)
  }

  predicate Credited(fs: seq<Filter>, diva: int, d: EfaDeparture, s: nat) {
    d.time != 0 && CreditFrom(fs, diva, d, 0) == Some(s)
  }

  // Times credited to stream s among the first n departures: before the cutoff, and from it on.
  function Today(ds: seq<EfaDeparture>, n: nat, fs: seq<Filter>, diva: int, cutoff: int, s: nat): seq<int>
    requires n <= |ds|
  {
    if n == 0 then []
    else if Credited(fs, diva, ds[n - 1], s) && ds[n - 1].time < cutoff
    then Today(ds, n - 1, fs, diva, cutoff, s) + [ds[n - 1].time]
    else Today(ds, n - 1, fs, diva, cutoff, s)
  }

  function Tomorrow(ds: seq<EfaDeparture>, n: nat, fs: seq<Filter>, diva: int, cutoff: int, s: nat): seq<int>
    requires n <= |ds|
  {
    if n == 0 then []
    else if Credited(fs, diva, ds[n - 1], s) && ds[n - 1].time >= cutoff
    then Tomorrow(ds, n - 1, fs, diva, cutoff, s) + [ds[n - 1].time]
    else Tomorrow(ds, n - 1, fs, diva, cutoff, s)
  }

  // Missing entries are 0, filled from the window's far end.
  function HintOf(today: seq<int>, tomorrow: seq<int>): ScheduleHint {
    var a, b := |today|, |tomorrow|;
    ScheduleHint(
      if a > 0 then today[a - 1] else 0,
      [if a > 1 then today[a - 2] else 0, if a > 0 then today[a - 1] else 0],
      [if b > 0 then tomorrow[0] else 0, if b > 1 then tomorrow[1] else 0])
  }

  function HintFor(ds: seq<EfaDeparture>, n: nat, fs: seq<Filter>, diva: int, cutoff: int, s: nat): ScheduleHint
    requires n <= |ds|
  {
    HintOf(Today(ds, n, fs, diva, cutoff, s), Tomorrow(ds, n, fs, diva, cutoff, s))
  }

  // ---------------------------------------------------------------- the code

  // State of the loop after n departures.
  ghost predicate Consumed(ds: seq<EfaDeparture>, n: nat, fs: seq<Filter>, diva: int, cutoff: int,
                           hint: seq<ScheduleHint>, fill: seq<nat>, before: seq<ScheduleHint>)
    requires n <= |ds|
  {
    && |fs| == |hint| == |fill| == |before| == STREAM_COUNT
    && forall s | 0 <= s < STREAM_COUNT ::
         && hint[s] == (if fs[s].diva == diva then HintFor(ds, n, fs, diva, cutoff, s) else before[s])
         && fill[s] == Capped(|Tomorrow(ds, n, fs, diva, cutoff, s)|)
  }

  function Capped(n: nat): nat {
    if n < 2 then n else 2
  }

  // One more departure at t for a stream that already has `fill` entries after the cutoff.
  function Shifted(h: ScheduleHint, fill: nat, t: int, cutoff: int): (ScheduleHint, nat)
    requires HintShape(h)
  {
    if t < cutoff then (ScheduleHint(t, [h.nextToday[1], t], h.firstTomorrow), fill)
    else if fill < 2 then (h.(firstTomorrow := h.firstTomorrow[fill := t]), fill + 1)
    else (h, fill)
  }

  method CreditOne(d: EfaDeparture, callDiva: int, filters: seq<Filter>, cutoff: int,
                   hint: array<ScheduleHint>, fill: array<nat>)
    requires |filters| == hint.Length == fill.Length == STREAM_COUNT
    requires forall s | 0 <= s < STREAM_COUNT && filters[s].diva == callDiva :: HintShape(hint[s])
    modifies hint, fill
    ensures CreditFrom(filters, callDiva, d, 0).None? ==>
      hint[..] == old(hint[..]) && fill[..] == old(fill[..])
    ensures CreditFrom(filters, callDiva, d, 0).Some? ==>
      var s := CreditFrom(filters, callDiva, d, 0).value;
      && hint[..] == old(hint[..])[s := Shifted(old(hint[s]), old(fill[s]), d.time, cutoff).0]
      && fill[..] == old(fill[..])[s := Shifted(old(hint[s]), old(fill[s]), d.time, cutoff).1]
  {
    for i := 0 to STREAM_COUNT
      invariant CreditFrom(filters, callDiva, d, 0) == CreditFrom(filters, callDiva, d, i)
      invariant hint[..] == old(hint[..]) && fill[..] == old(fill[..])
    {
      if !Matches(filters[i], callDiva, d) {
        continue;
      }
      if d.time < cutoff {
        hint[i] := ScheduleHint(d.time, [hint[i].nextToday[1], d.time], hint[i].firstTomorrow);
      } else if fill[i] < 2 {
        hint[i] := hint[i].(firstTomorrow := hint[i].firstTomorrow[fill[i] := d.time]);
        fill[i] := fill[i] + 1;
      }
      return;
    }
  }

  method ResetAddressed(callDiva: int, filters: seq<Filter>, hint: array<ScheduleHint>)
    requires |filters| == hint.Length == STREAM_COUNT
    modifies hint
    ensures forall s | 0 <= s < STREAM_COUNT ::
      (hint[s] == if filters[s].diva == callDiva then NO_HINT else old(hint[s]))
  {
    for i := 0 to STREAM_COUNT
      invariant forall s | 0 <= s < STREAM_COUNT ::
        (hint[s] == if s < i && filters[s].diva == callDiva then NO_HINT else old(hint[s]))
    {
      if filters[i].diva == callDiva {
        hint[i] := NO_HINT;
      }
    }
  }

  method ConsumeEfaDoc(doc: Option<seq<EfaDeparture>>, callDiva: int, filters: seq<Filter>, cutoff: int,
                       hint: array<ScheduleHint>)
    requires |filters| == hint.Length == STREAM_COUNT
    modifies hint
    ensures forall s | 0 <= s < STREAM_COUNT && filters[s].diva != callDiva :: hint[s] == old(hint[s])
    ensures forall s | 0 <= s < STREAM_COUNT && filters[s].diva == callDiva ::
      (hint[s] == if doc.None? then NO_HINT else HintFor(doc.value, |doc.value|, filters, callDiva, cutoff, s))
  {
    hide Consumed, HintFor;
    ghost var before := hint[..];
    ResetAddressed(callDiva, filters, hint);
    if doc.None? {
      return;
    }
    var fill := new nat[STREAM_COUNT](_ => 0);
    var ds := doc.value;
    ConsumedNothing(ds, filters, callDiva, cutoff, hint[..], fill[..], before);
    for n := 0 to |ds|
      invariant Consumed(ds, n, filters, callDiva, cutoff, hint[..], fill[..], before)
    {
      ghost var h, f := hint[..], fill[..];
      if ds[n].time != 0 {
        ConsumedShapes(ds, n, filters, callDiva, cutoff, h, f, before);
        CreditOne(ds[n], callDiva, filters, cutoff, hint, fill);
      }
      ConsumedStep(ds, n, filters, callDiva, cutoff, h, f, hint[..], fill[..], before);
    }
    ConsumedShapes(ds, |ds|, filters, callDiva, cutoff, hint[..], fill[..], before);
  }

  lemma ConsumedNothing(ds: seq<EfaDeparture>, fs: seq<Filter>, diva: int, cutoff: int, h: seq<ScheduleHint>, f: seq<nat>,
                        before: seq<ScheduleHint>)
    requires |fs| == |h| == |f| == |before| == STREAM_COUNT && forall s | 0 <= s < STREAM_COUNT :: f[s] == 0
    requires forall s | 0 <= s < STREAM_COUNT :: h[s] == if fs[s].diva == diva then NO_HINT else before[s]
    ensures Consumed(ds, 0, fs, diva, cutoff, h, f, before)
  {
  }

  lemma ConsumedShapes(ds: seq<EfaDeparture>, n: nat, fs: seq<Filter>, diva: int, cutoff: int, h: seq<ScheduleHint>,
                       f: seq<nat>, before: seq<ScheduleHint>)
    requires n <= |ds| && Consumed(ds, n, fs, diva, cutoff, h, f, before)
    ensures |fs| == |h| == |before| == STREAM_COUNT
    ensures forall s | 0 <= s < STREAM_COUNT ::
      (h[s] == if fs[s].diva == diva then HintFor(ds, n, fs, diva, cutoff, s) else before[s])
    ensures forall s | 0 <= s < STREAM_COUNT && fs[s].diva == diva :: HintShape(h[s])
  {
  }

  lemma ConsumedStep(ds: seq<EfaDeparture>, n: nat, fs: seq<Filter>, diva: int, cutoff: int, h: seq<ScheduleHint>,
                     f: seq<nat>, h': seq<ScheduleHint>, f': seq<nat>, before: seq<ScheduleHint>)
    requires n < |ds| && Consumed(ds, n, fs, diva, cutoff, h, f, before)
    requires var c := CreditFrom(fs, diva, ds[n], 0);
      if ds[n].time == 0 || c.None? then h' == h && f' == f
      else (
        && HintShape(h[c.value])
        && h' == h[c.value := Shifted(h[c.value], f[c.value], ds[n].time, cutoff).0]
        && f' == f[c.value := Shifted(h[c.value], f[c.value], ds[n].time, cutoff).1])
    ensures Consumed(ds, n + 1, fs, diva, cutoff, h', f', before)
  {
    forall s | 0 <= s < STREAM_COUNT
      ensures h'[s] == (if fs[s].diva == diva then HintFor(ds, n + 1, fs, diva, cutoff, s) else before[s])
      ensures f'[s] == Capped(|Tomorrow(ds, n + 1, fs, diva, cutoff, s)|)
    {
      if Credited(fs, diva, ds[n], s) {
        ShiftIsHint(Today(ds, n, fs, diva, cutoff, s), Tomorrow(ds, n, fs, diva, cutoff, s), ds[n].time, cutoff);
      }
    }
  }

  lemma ShiftIsHint(today: seq<int>, tomorrow: seq<int>, t: int, cutoff: int)
    ensures Shifted(HintOf(today, tomorrow), Capped(|tomorrow|), t, cutoff)
         == if t < cutoff then (HintOf(today + [t], tomorrow), Capped(|tomorrow|))
            else (HintOf(today, tomorrow + [t]), Capped(|tomorrow + [t]|))
  {
    var h := Shifted(HintOf(today, tomorrow), Capped(|tomorrow|), t, cutoff).0;
    if t < cutoff {
      assert h.nextToday == HintOf(today + [t], tomorrow).nextToday;
    } else {
      assert h.firstTomorrow == HintOf(today, tomorrow + [t]).firstTomorrow;
    }
  }

  // ---------------------------------------------------------------- theorems

  // What the two lists hold, and which side of the cutoff.
  lemma {:induction false} TimesAre(ds: seq<EfaDeparture>, n: nat, fs: seq<Filter>, diva: int, cutoff: int, s: nat, t: int)
    requires n <= |ds|
    ensures t in Today(ds, n, fs, diva, cutoff, s) <==>
      t < cutoff && exists k | 0 <= k < n :: ds[k].time == t && Credited(fs, diva, ds[k], s)
    ensures t in Tomorrow(ds, n, fs, diva, cutoff, s) <==>
      t >= cutoff && exists k | 0 <= k < n :: ds[k].time == t && Credited(fs, diva, ds[k], s)
  {
    if n > 0 {
      TimesAre(ds, n - 1, fs, diva, cutoff, s, t);
    }
  }

  // ---------------------------------------------------------------- the hint of any reply

  predicate Serves(f: Filter, diva: int, d: EfaDeparture) {
    f.diva == diva && f.line == d.number && (f.prefix <= d.direction || (|f.prefixAlt| > 0 && f.prefixAlt <= d.direction))
  }

  // Departure k counts for stream s: it is dated, and filter s is the first it serves.
  predicate CountsFor(ds: seq<EfaDeparture>, fs: seq<Filter>, diva: int, s: nat, k: int) {
    0 <= k < |ds| && s < |fs| && ds[k].time != 0 && Serves(fs[s], diva, ds[k])
    && forall i | 0 <= i < s :: !Serves(fs[i], diva, ds[k])
  }

  // None of departures i to j - 1 counts on this side of the cutoff.
  predicate NoneCounts(ds: seq<EfaDeparture>, fs: seq<Filter>, diva: int, cutoff: int, s: nat, before: bool, i: int, j: int) {
    forall k | i <= k < j :: !(CountsFor(ds, fs, diva, s, k) && (ds[k].time < cutoff) == before)
  }

  lemma CreditedIff(ds: seq<EfaDeparture>, fs: seq<Filter>, diva: int, s: nat, k: nat)
    requires k < |ds|
    ensures Credited(fs, diva, ds[k], s) <==> CountsFor(ds, fs, diva, s, k)
  {
    forall i | 0 <= i < |fs|
      ensures Matches(fs[i], diva, ds[k]) <==> Serves(fs[i], diva, ds[k])
    {
      assert fs[i].prefixAlt != "" <==> |fs[i].prefixAlt| > 0;
    }
  }

  lemma {:induction false} NothingAdded(ds: seq<EfaDeparture>, fs: seq<Filter>, diva: int, cutoff: int, s: nat, i: nat, j: nat)
    requires i <= j <= |ds|
    ensures NoneCounts(ds, fs, diva, cutoff, s, true, i, j) ==> Today(ds, j, fs, diva, cutoff, s) == Today(ds, i, fs, diva, cutoff, s)
    ensures NoneCounts(ds, fs, diva, cutoff, s, false, i, j) ==>
      Tomorrow(ds, j, fs, diva, cutoff, s) == Tomorrow(ds, i, fs, diva, cutoff, s)
    ensures Tomorrow(ds, i, fs, diva, cutoff, s) <= Tomorrow(ds, j, fs, diva, cutoff, s)
  {
    hide Credited;
    if i < j {
      NothingAdded(ds, fs, diva, cutoff, s, i, j - 1);
      CreditedIff(ds, fs, diva, s, j - 1);
    }
  }

  // Departure k counts before the cutoff, and from it on.
  predicate Before(ds: seq<EfaDeparture>, fs: seq<Filter>, diva: int, cutoff: int, s: nat, k: int) {
    CountsFor(ds, fs, diva, s, k) && ds[k].time < cutoff
  }

  predicate From(ds: seq<EfaDeparture>, fs: seq<Filter>, diva: int, cutoff: int, s: nat, k: int) {
    CountsFor(ds, fs, diva, s, k) && ds[k].time >= cutoff
  }

  lemma LastBefore(ds: seq<EfaDeparture>, fs: seq<Filter>, diva: int, cutoff: int, s: nat, n: nat, k: nat)
    requires k < n <= |ds| && Before(ds, fs, diva, cutoff, s, k) && NoneCounts(ds, fs, diva, cutoff, s, true, k + 1, n)
    ensures Today(ds, n, fs, diva, cutoff, s) == Today(ds, k, fs, diva, cutoff, s) + [ds[k].time]
  {
    hide Credited, NoneCounts;
    NothingAdded(ds, fs, diva, cutoff, s, k + 1, n);
    CreditedIff(ds, fs, diva, s, k);
  }

  lemma FirstFrom(ds: seq<EfaDeparture>, fs: seq<Filter>, diva: int, cutoff: int, s: nat, i: nat, k: nat)
    requires i <= k < |ds| && From(ds, fs, diva, cutoff, s, k) && NoneCounts(ds, fs, diva, cutoff, s, false, i, k)
    ensures Tomorrow(ds, k + 1, fs, diva, cutoff, s) == Tomorrow(ds, i, fs, diva, cutoff, s) + [ds[k].time]
    ensures Tomorrow(ds, k + 1, fs, diva, cutoff, s) <= Tomorrow(ds, |ds|, fs, diva, cutoff, s)
  {
    hide Credited, NoneCounts;
    NothingAdded(ds, fs, diva, cutoff, s, i, k);
    NothingAdded(ds, fs, diva, cutoff, s, k + 1, |ds|);
    CreditedIff(ds, fs, diva, s, k);
  }

  // The hint before the cutoff holds the last two departures that count, whatever the
  // order of the reply: k is the last one, and j the last one before k.
  lemma HintBeforeCutoff(ds: seq<EfaDeparture>, fs: seq<Filter>, diva: int, cutoff: int, s: nat, j: nat, k: nat)
    ensures var h := HintFor(ds, |ds|, fs, diva, cutoff, s); h.lastToday == h.nextToday[1]
    ensures NoneCounts(ds, fs, diva, cutoff, s, true, 0, |ds|) ==> HintFor(ds, |ds|, fs, diva, cutoff, s).nextToday == [0, 0]
    ensures Before(ds, fs, diva, cutoff, s, k) && NoneCounts(ds, fs, diva, cutoff, s, true, k + 1, |ds|) ==>
      var h := HintFor(ds, |ds|, fs, diva, cutoff, s);
      && h.nextToday[1] == ds[k].time
      && (NoneCounts(ds, fs, diva, cutoff, s, true, 0, k) ==> h.nextToday[0] == 0)
      && (j < k && Before(ds, fs, diva, cutoff, s, j) && NoneCounts(ds, fs, diva, cutoff, s, true, j + 1, k) ==>
            h.nextToday[0] == ds[j].time)
  {
    NothingAdded(ds, fs, diva, cutoff, s, 0, |ds|);
    assert Today(ds, 0, fs, diva, cutoff, s) == [];
    hide NoneCounts, Today;
    if Before(ds, fs, diva, cutoff, s, k) && NoneCounts(ds, fs, diva, cutoff, s, true, k + 1, |ds|) {
      LastBefore(ds, fs, diva, cutoff, s, |ds|, k);
      NothingAdded(ds, fs, diva, cutoff, s, 0, k);
      if j < k && Before(ds, fs, diva, cutoff, s, j) && NoneCounts(ds, fs, diva, cutoff, s, true, j + 1, k) {
        LastBefore(ds, fs, diva, cutoff, s, k, j);
      }
    }
  }

  // From the cutoff on it holds the first two: j is the first one, and k the first after j.
  lemma HintFromCutoff(ds: seq<EfaDeparture>, fs: seq<Filter>, diva: int, cutoff: int, s: nat, j: nat, k: nat)
    ensures NoneCounts(ds, fs, diva, cutoff, s, false, 0, |ds|) ==> HintFor(ds, |ds|, fs, diva, cutoff, s).firstTomorrow == [0, 0]
    ensures From(ds, fs, diva, cutoff, s, j) && NoneCounts(ds, fs, diva, cutoff, s, false, 0, j) ==>
      var h := HintFor(ds, |ds|, fs, diva, cutoff, s);
      && h.firstTomorrow[0] == ds[j].time
      && (NoneCounts(ds, fs, diva, cutoff, s, false, j + 1, |ds|) ==> h.firstTomorrow[1] == 0)
      && (j < k && From(ds, fs, diva, cutoff, s, k) && NoneCounts(ds, fs, diva, cutoff, s, false, j + 1, k) ==>
            h.firstTomorrow[1] == ds[k].time)
  {
    NothingAdded(ds, fs, diva, cutoff, s, 0, |ds|);
    assert Tomorrow(ds, 0, fs, diva, cutoff, s) == [];
    hide NoneCounts, Tomorrow;
    if From(ds, fs, diva, cutoff, s, j) && NoneCounts(ds, fs, diva, cutoff, s, false, 0, j) {
      FirstFrom(ds, fs, diva, cutoff, s, 0, j);
      NothingAdded(ds, fs, diva, cutoff, s, j + 1, |ds|);
      if j < k && From(ds, fs, diva, cutoff, s, k) && NoneCounts(ds, fs, diva, cutoff, s, false, j + 1, k) {
        FirstFrom(ds, fs, diva, cutoff, s, j + 1, k);
      }
    }
  }

  predicate Chronological(ds: seq<EfaDeparture>, n: nat)
    requires n <= |ds|
  {
    forall i, k | 0 <= i < k < n && ds[i].time != 0 && ds[k].time != 0 :: ds[i].time <= ds[k].time
  }

  predicate Sorted(ts: seq<int>) {
    forall i, k | 0 <= i < k < |ts| :: ts[i] <= ts[k]
  }

  lemma {:induction false} TimesAreSorted(ds: seq<EfaDeparture>, n: nat, fs: seq<Filter>, diva: int, cutoff: int, s: nat)
    requires n <= |ds| && Chronological(ds, n)
    ensures Sorted(Today(ds, n, fs, diva, cutoff, s)) && Sorted(Tomorrow(ds, n, fs, diva, cutoff, s))
  {
    if n > 0 {
      TimesAreSorted(ds, n - 1, fs, diva, cutoff, s);
      if ds[n - 1].time != 0 {
        AllEarlier(ds, n - 1, fs, diva, cutoff, s, ds[n - 1].time);
        SortedSnoc(Today(ds, n - 1, fs, diva, cutoff, s), ds[n - 1].time);
        SortedSnoc(Tomorrow(ds, n - 1, fs, diva, cutoff, s), ds[n - 1].time);
      }
    }
  }

  lemma SortedSnoc(ts: seq<int>, t: int)
    requires Sorted(ts) && forall u | u in ts :: u <= t
    ensures Sorted(ts + [t])
  {
    assert forall i | 0 <= i < |ts| :: ts[i] in ts;
  }

  lemma {:induction false} AllEarlier(ds: seq<EfaDeparture>, n: nat, fs: seq<Filter>, diva: int, cutoff: int, s: nat, t: int)
    requires n <= |ds| && forall k | 0 <= k < n && ds[k].time != 0 :: ds[k].time <= t
    ensures forall u | u in Today(ds, n, fs, diva, cutoff, s) :: u <= t
    ensures forall u | u in Tomorrow(ds, n, fs, diva, cutoff, s) :: u <= t
  {
    if n > 0 {
      AllEarlier(ds, n - 1, fs, diva, cutoff, s, t);
    }
  }

  // On chronological input the hint surrounds the cutoff: nothing credited lies between
  // its last departure before and its first one after, and the four times are in order.
  lemma HintSurroundsCutoff(ds: seq<EfaDeparture>, fs: seq<Filter>, diva: int, cutoff: int, s: nat, k: nat)
    requires Chronological(ds, |ds|) && k < |ds| && Credited(fs, diva, ds[k], s)
    ensures var h, t := HintFor(ds, |ds|, fs, diva, cutoff, s), ds[k].time;
      if t < cutoff then t <= h.nextToday[1] < cutoff && (t <= h.nextToday[0] || t == h.nextToday[1] || h.nextToday[0] == 0)
      else cutoff <= h.firstTomorrow[0] <= t && (t == h.firstTomorrow[0] || h.firstTomorrow[1] == 0 || h.firstTomorrow[1] <= t)
  {
    var t := ds[k].time;
    TimesAre(ds, |ds|, fs, diva, cutoff, s, t);
    TimesAreSorted(ds, |ds|, fs, diva, cutoff, s);
    var today, tomorrow := Today(ds, |ds|, fs, diva, cutoff, s), Tomorrow(ds, |ds|, fs, diva, cutoff, s);
    if t < cutoff {
      TimesAre(ds, |ds|, fs, diva, cutoff, s, today[|today| - 1]);
    } else {
      TimesAre(ds, |ds|, fs, diva, cutoff, s, tomorrow[0]);
    }
  }

  lemma HintTimesInOrder(ds: seq<EfaDeparture>, fs: seq<Filter>, diva: int, cutoff: int, s: nat)
    requires Chronological(ds, |ds|)
    ensures var h := HintFor(ds, |ds|, fs, diva, cutoff, s);
      && h.lastToday == h.nextToday[1]
      && (h.nextToday[0] != 0 ==> h.nextToday[0] <= h.nextToday[1] && h.nextToday[1] != 0)
      && (h.nextToday[1] != 0 ==> h.nextToday[1] < cutoff)
      && (h.firstTomorrow[0] != 0 ==> cutoff <= h.firstTomorrow[0])
      && (h.firstTomorrow[1] != 0 ==> h.firstTomorrow[0] != 0 && h.firstTomorrow[0] <= h.firstTomorrow[1])
  {
    TimesAreSorted(ds, |ds|, fs, diva, cutoff, s);
    var today, tomorrow := Today(ds, |ds|, fs, diva, cutoff, s), Tomorrow(ds, |ds|, fs, diva, cutoff, s);
    if |today| > 0 {
      TimesAre(ds, |ds|, fs, diva, cutoff, s, today[|today| - 1]);
    }
    if |tomorrow| > 0 {
      TimesAre(ds, |ds|, fs, diva, cutoff, s, tomorrow[0]);
    }
  }

  // ---------------------------------------------------------------- the next two, or the last two

  // src/data/ScheduleHint.h promises the next two departures still ahead; the loop keeps the
  // last two before the cutoff. These are the times the merger would not drop, in order.
  function StillAhead(ts: seq<int>, now: int): seq<int> {
    if ts == [] then []
    else (if ts[0] != 0 && ts[0] >= now then [ts[0]] else []) + StillAhead(ts[1..], now)
  }

  function FirstTwo(ts: seq<int>): seq<int> {
    if |ts| <= 2 then ts else ts[..2]
  }

  function LastTwo(ts: seq<int>): seq<int> {
    if |ts| <= 2 then ts else ts[|ts| - 2..]
  }

  predicate Dated(ts: seq<int>) {
    Sorted(ts) && 0 !in ts
  }

  ghost predicate IsTail(a: seq<int>, ts: seq<int>, now: int) {
    && |a| <= |ts|
    && (forall k | 0 <= k < |a| :: a[k] == ts[|ts| - |a| + k] && a[k] >= now)
    && forall k | 0 <= k < |ts| - |a| :: ts[k] < now
  }

  // What is still ahead is the tail of a sorted list.
  lemma {:induction false} AheadIsTail(ts: seq<int>, now: int)
    requires Dated(ts)
    ensures IsTail(StillAhead(ts, now), ts, now) && Sorted(StillAhead(ts, now))
  {
    if ts != [] {
      AheadIsTail(ts[1..], now);
      assert ts[0] in ts && ts == [ts[0]] + ts[1..];
      TailGrows(ts[0], ts[1..], StillAhead(ts[1..], now), now);
    }
    TailIsSorted(StillAhead(ts, now), ts, now);
  }

  lemma TailGrows(t: int, ts: seq<int>, a: seq<int>, now: int)
    requires IsTail(a, ts, now) && forall k | 0 <= k < |ts| :: t <= ts[k]
    ensures IsTail((if t >= now then [t] else []) + a, [t] + ts, now)
  {
    if t >= now {
      assert |ts| > 0 ==> t <= ts[0];
      assert a == ts;
    } else {
      assert [] + a == a;
    }
  }

  lemma TailIsSorted(a: seq<int>, ts: seq<int>, now: int)
    requires IsTail(a, ts, now) && Sorted(ts)
    ensures Sorted(a)
  {
  }

  lemma AheadOfTwo(x: int, y: int, now: int)
    ensures StillAhead([x, y], now)
         == (if x != 0 && x >= now then [x] else []) + (if y != 0 && y >= now then [y] else [])
  {
    assert StillAhead([x, y][1..], now) == (if y != 0 && y >= now then [y] else []) + StillAhead([], now);
  }

  // The usable hints of today are the last two still ahead.
  lemma HintedAhead(today: seq<int>, tomorrow: seq<int>, now: int)
    requires Dated(today)
    ensures StillAhead(HintOf(today, tomorrow).nextToday, now) == LastTwo(StillAhead(today, now))
  {
    AheadIsTail(today, now);
    TailGivesHints(today, tomorrow, StillAhead(today, now), now);
  }

  lemma TailIsPart(ts: seq<int>, a: seq<int>, now: int)
    requires IsTail(a, ts, now)
    ensures |a| <= |ts|
  {
  }

  lemma FromTheEnd(ts: seq<int>, a: seq<int>, now: int, k: nat)
    requires IsTail(a, ts, now) && 0 !in ts && 0 < k <= |ts|
    ensures ts[|ts| - k] != 0 && (ts[|ts| - k] >= now <==> k <= |a|)
    ensures k <= |a| ==> a[|a| - k] == ts[|ts| - k]
  {
    assert ts[|ts| - k] in ts;
    if k <= |a| {
      assert a[|a| - k] >= now;
    }
  }

  lemma TailGivesHints(today: seq<int>, tomorrow: seq<int>, a: seq<int>, now: int)
    requires IsTail(a, today, now) && 0 !in today
    ensures StillAhead(HintOf(today, tomorrow).nextToday, now) == LastTwo(a)
  {
    hide StillAhead, IsTail;
    var h := HintOf(today, tomorrow).nextToday;
    AheadOfTwo(h[0], h[1], now);
    assert h == [h[0], h[1]];
    if |today| > 0 {
      FromTheEnd(today, a, now, 1);
    }
    if |today| > 1 {
      FromTheEnd(today, a, now, 2);
    }
    TailIsPart(today, a, now);
  }

  lemma {:induction false} CreditsAreDated(ds: seq<EfaDeparture>, n: nat, fs: seq<Filter>, diva: int, cutoff: int, s: nat)
    requires n <= |ds| && Chronological(ds, n)
    ensures Dated(Today(ds, n, fs, diva, cutoff, s))
  {
    TimesAreSorted(ds, n, fs, diva, cutoff, s);
    TimesAre(ds, n, fs, diva, cutoff, s, 0);
  }

  // On chronological input the hint holds the next two departures still ahead exactly if at
  // most two are left before the cutoff, or all that are left share one instant.
  lemma NextTodayIff(ds: seq<EfaDeparture>, fs: seq<Filter>, diva: int, cutoff: int, s: nat, now: int)
    requires Chronological(ds, |ds|)
    ensures var a := StillAhead(Today(ds, |ds|, fs, diva, cutoff, s), now);
      StillAhead(HintFor(ds, |ds|, fs, diva, cutoff, s).nextToday, now) == FirstTwo(a)
      <==> |a| <= 2 || a[0] == a[|a| - 1]
  {
    hide StillAhead;
    var today := Today(ds, |ds|, fs, diva, cutoff, s);
    CreditsAreDated(ds, |ds|, fs, diva, cutoff, s);
    AheadIsTail(today, now);
    HintedAhead(today, Tomorrow(ds, |ds|, fs, diva, cutoff, s), now);
    FirstIsLastIff(StillAhead(today, now));
  }

  lemma FirstIsLastIff(a: seq<int>)
    requires Sorted(a)
    ensures FirstTwo(a) == LastTwo(a) <==> |a| <= 2 || a[0] == a[|a| - 1]
  {
    if |a| > 2 {
      assert LastTwo(a)[0] == a[|a| - 2] && LastTwo(a)[1] == a[|a| - 1];
    }
  }

  // And the merger is offered the very next departure exactly if no more than one later
  // instant follows it before the cutoff.
  lemma NextIsOfferedIff(ds: seq<EfaDeparture>, fs: seq<Filter>, diva: int, cutoff: int, s: nat, now: int)
    requires Chronological(ds, |ds|) && StillAhead(Today(ds, |ds|, fs, diva, cutoff, s), now) != []
    ensures var a, times := StillAhead(Today(ds, |ds|, fs, diva, cutoff, s), now), HintTimes(HintFor(ds, |ds|, fs, diva, cutoff, s));
      HintAt(a[0]) in HintOffers(times, |times|, now) <==> |a| <= 2 || a[0] == a[|a| - 2]
  {
    hide StillAhead, Today, Tomorrow, HintOffers;
    var today, tomorrow := Today(ds, |ds|, fs, diva, cutoff, s), Tomorrow(ds, |ds|, fs, diva, cutoff, s);
    var a := StillAhead(today, now);
    var h := HintFor(ds, |ds|, fs, diva, cutoff, s);
    CreditsAreDated(ds, |ds|, fs, diva, cutoff, s);
    AheadIsTail(today, now);
    HintOffersAre(HintTimes(h), 4, now, HintAt(a[0]));
    TimesAre(ds, |ds|, fs, diva, cutoff, s, a[0]);
    assert a[0] == today[|today| - |a|] && a[0] in today && a[|a| - 1] == today[|today| - 1];
    assert |a| > 1 ==> a[|a| - 2] == today[|today| - 2];
    forall t | t in h.firstTomorrow ensures t == 0 || t >= cutoff {
      TimesAre(ds, |ds|, fs, diva, cutoff, s, t);
    }
    assert HintTimes(h)[..4] == HintTimes(h) == h.nextToday + h.firstTomorrow;
    assert a[0] in HintTimes(h) <==> a[0] in h.nextToday;
  }

  // The timetable of stream 0 is all there is to show.
  ghost predicate TimetableOnly(snap: StreamSnapshot, schedule: ScheduleSnapshot, now: int, h: ScheduleHint) {
    && SnapshotShape(snap) && ScheduleShape(schedule) && snap.apiOk && ScheduleUsable(schedule, now)
    && (forall s, c | 0 <= s < STREAM_COUNT && c in snap.stream[s].slot :: !c.valid)
    && schedule.hint[0] == h && forall s | 0 < s < STREAM_COUNT :: schedule.hint[s] == NO_HINT
  }

  // Then the sleep is planned for one of the hints.
  lemma HintsDecide(snap: StreamSnapshot, schedule: ScheduleSnapshot, now: int, h: ScheduleHint, t: int, d: SleepDecision)
    requires TimetableOnly(snap, schedule, now, h) && t in HintTimes(h) && t != 0 && t >= now + 1050
    requires forall u | u in HintTimes(h) && u != 0 && u >= now :: t <= u < now + 0x1_0000_0000
    requires Plans(Merged(snap, schedule, now), now, DEFAULT_SLEEP_CONFIG, d)
    ensures d.mode == DeepSleep && now + d.seconds + 930 >= t
  {
    hide StreamOffers, Merged, Plans;
    OffersAre(snap, schedule, now, 0, HintAt(t));
    var s, c := WakesForARealDeparture(snap, schedule, now, now, DEFAULT_SLEEP_CONFIG, d);
    OffersAre(snap, schedule, now, s, c);
  }

  lemma HintsAreLater(ds: seq<EfaDeparture>, fs: seq<Filter>, diva: int, cutoff: int, s: nat, now: int)
    requires Chronological(ds, |ds|) && |StillAhead(Today(ds, |ds|, fs, diva, cutoff, s), now)| > 2
    requires forall k | 0 <= k < |ds| :: ds[k].time - now < 0x1_0000_0000
    ensures var a, h := StillAhead(Today(ds, |ds|, fs, diva, cutoff, s), now), HintFor(ds, |ds|, fs, diva, cutoff, s);
      var t := a[|a| - 2];
      && t in HintTimes(h) && t != 0
      && forall u | u in HintTimes(h) && u != 0 && u >= now :: t <= u < now + 0x1_0000_0000
  {
    hide StillAhead, Today, Tomorrow, Chronological;
    var today, tomorrow := Today(ds, |ds|, fs, diva, cutoff, s), Tomorrow(ds, |ds|, fs, diva, cutoff, s);
    var a := StillAhead(today, now);
    var h := HintFor(ds, |ds|, fs, diva, cutoff, s);
    CreditsAreDated(ds, |ds|, fs, diva, cutoff, s);
    AheadIsTail(today, now);
    assert a[|a| - 2] == today[|today| - 2] == h.nextToday[0] == HintTimes(h)[0] && today[|today| - 2] in today;
    TimesAre(ds, |ds|, fs, diva, cutoff, s, today[|today| - 2]);
    forall u | u in HintTimes(h) && u != 0
      ensures a[|a| - 2] <= u < now + 0x1_0000_0000
    {
      TimesAre(ds, |ds|, fs, diva, cutoff, s, u);
      assert u in h.nextToday || u in h.firstTomorrow;
      assert u in h.nextToday ==> u in today;
    }
  }

  // So a departure the hint leaves out is slept through, however near it is, once the two
  // it keeps are far enough away.
  lemma LeftOutIsOverslept(ds: seq<EfaDeparture>, fs: seq<Filter>, diva: int, cutoff: int, now: int,
                           snap: StreamSnapshot, schedule: ScheduleSnapshot, d: SleepDecision)
    requires Chronological(ds, |ds|) && forall k | 0 <= k < |ds| :: ds[k].time - now < 0x1_0000_0000
    requires TimetableOnly(snap, schedule, now, HintFor(ds, |ds|, fs, diva, cutoff, 0))
    requires var a := StillAhead(Today(ds, |ds|, fs, diva, cutoff, 0), now);
      |a| > 2 && a[|a| - 2] > a[0] + 930 && a[|a| - 2] >= now + 1050
    requires Plans(Merged(snap, schedule, now), now, DEFAULT_SLEEP_CONFIG, d)
    ensures d.mode == DeepSleep && now + d.seconds > StillAhead(Today(ds, |ds|, fs, diva, cutoff, 0), now)[0]
  {
    hide StillAhead, Today, HintFor, HintTimes, Plans, Merged, TimetableOnly, Chronological;
    var a := StillAhead(Today(ds, |ds|, fs, diva, cutoff, 0), now);
    HintsAreLater(ds, fs, diva, cutoff, 0, now);
    HintsDecide(snap, schedule, now, HintFor(ds, |ds|, fs, diva, cutoff, 0), a[|a| - 2], d);
  }

  lemma TodayOfThree(ds: seq<EfaDeparture>, fs: seq<Filter>, diva: int, cutoff: int)
    requires |ds| == 3 && forall k | 0 <= k < 3 :: Credited(fs, diva, ds[k], 0) && ds[k].time < cutoff
    ensures Today(ds, 3, fs, diva, cutoff, 0) == [ds[0].time, ds[1].time, ds[2].time]
  {
    assert Today(ds, 1, fs, diva, cutoff, 0) == [ds[0].time];
    assert Today(ds, 2, fs, diva, cutoff, 0) == [ds[0].time, ds[1].time];
  }

  // Three departures left in the evening, half an hour, two and three hours ahead: the board
  // offers the second and the third, and the device wakes after the first has left.
  lemma SuchAnEveningExists(now: int, diva: int, line: string, direction: string)
    returns (ds: seq<EfaDeparture>, fs: seq<Filter>, cutoff: int, snap: StreamSnapshot, schedule: ScheduleSnapshot)
    requires now > 0
    ensures Chronological(ds, |ds|) && forall k | 0 <= k < |ds| :: ds[k].time - now < 0x1_0000_0000
    ensures TimetableOnly(snap, schedule, now, HintFor(ds, |ds|, fs, diva, cutoff, 0))
    ensures StillAhead(Today(ds, |ds|, fs, diva, cutoff, 0), now) == [now + 1800, now + 7200, now + 10800]
  {
    cutoff := now + 36000;
    fs := seq(STREAM_COUNT, _ => Filter(diva, line, direction, ""));
    var a, b, c := now + 1800, now + 7200, now + 10800;
    ds := [EfaDeparture(a, line, direction), EfaDeparture(b, line, direction), EfaDeparture(c, line, direction)];
    forall k | 0 <= k < 3 ensures Credited(fs, diva, ds[k], 0) {
      assert Matches(fs[0], diva, ds[k]);
    }
    TodayOfThree(ds, fs, diva, cutoff);
    hide Today, Credited, HintOf;
    AheadOfTwo(b, c, now);
    assert [a, b, c][1..] == [b, c];
    snap := EMPTY_SNAPSHOT.(apiOk := true);
    schedule := ScheduleSnapshot([HintFor(ds, 3, fs, diva, cutoff, 0), NO_HINT, NO_HINT, NO_HINT], now);
  }

  // No departure counts twice: over all streams there are no more credits than dated departures.
  function Credits(ds: seq<EfaDeparture>, n: nat, fs: seq<Filter>, diva: int, cutoff: int, streams: nat): nat
    requires n <= |ds|
  {
    if streams == 0 then 0
    else
      var s := streams - 1;
      Credits(ds, n, fs, diva, cutoff, s) + |Today(ds, n, fs, diva, cutoff, s)| + |Tomorrow(ds, n, fs, diva, cutoff, s)|
  }

  function Matching(ds: seq<EfaDeparture>, n: nat, fs: seq<Filter>, diva: int): nat
    requires n <= |ds|
  {
    if n == 0 then 0
    else
      var hit := ds[n - 1].time != 0 && exists i | 0 <= i < |fs| :: Matches(fs[i], diva, ds[n - 1]);
      Matching(ds, n - 1, fs, diva) + if hit then 1 else 0
  }

  lemma {:induction false} CreditsGrow(ds: seq<EfaDeparture>, n: nat, fs: seq<Filter>, diva: int, cutoff: int, streams: nat)
    requires 0 < n <= |ds| && streams <= |fs|
    ensures var c := CreditFrom(fs, diva, ds[n - 1], 0);
      Credits(ds, n, fs, diva, cutoff, streams) == Credits(ds, n - 1, fs, diva, cutoff, streams)
        + if ds[n - 1].time != 0 && c.Some? && c.value < streams then 1 else 0
  {
    if streams > 0 {
      CreditsGrow(ds, n, fs, diva, cutoff, streams - 1);
    }
  }

  // Every dated departure that matches some filter is credited exactly once.
  lemma {:induction false} CreditedExactlyOnce(ds: seq<EfaDeparture>, n: nat, fs: seq<Filter>, diva: int, cutoff: int)
    requires n <= |ds|
    ensures Credits(ds, n, fs, diva, cutoff, |fs|) == Matching(ds, n, fs, diva)
  {
    hide Credits;
    if n == 0 {
      NoCredits(ds, fs, diva, cutoff, |fs|);
    } else {
      CreditedExactlyOnce(ds, n - 1, fs, diva, cutoff);
      CreditsGrow(ds, n, fs, diva, cutoff, |fs|);
    }
  }

  lemma {:induction false} NoCredits(ds: seq<EfaDeparture>, fs: seq<Filter>, diva: int, cutoff: int, streams: nat)
    ensures Credits(ds, 0, fs, diva, cutoff, streams) == 0
  {
    if streams > 0 {
      NoCredits(ds, fs, diva, cutoff, streams - 1);
    }
  }
}
