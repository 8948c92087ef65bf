/** Departures and the bounded, sorted, minute-deduplicated merge of realtime slots
    with timetable hints (src/logic/slot_merger.cpp). */
module Slots {
  import opened CInts

  const SLOTS_PER_STREAM: nat := 3
  const STREAM_COUNT: nat := 4
  const SECONDS_PER_MINUTE: int := 60
  const SCHEDULE_HINT_MAX_AGE_S: int := 48 * 3600

  datatype Source = Unknown | Realtime | Plan | Hint

  datatype Departure = Departure(when: int, source: Source, valid: bool, lineLabel: string, planned: int)

  const NO_DEPARTURE := Departure(0, Unknown, false, "", 0)

  datatype StreamData = StreamData(slot: seq<Departure>, endpointResponded: bool, filterMatched: bool)

  datatype StreamSnapshot = StreamSnapshot(stream: seq<StreamData>, apiOk: bool)

  datatype ScheduleHint = ScheduleHint(lastToday: int, nextToday: seq<int>, firstTomorrow: seq<int>)

  datatype ScheduleSnapshot = ScheduleSnapshot(hint: seq<ScheduleHint>, fetchedAt: int)

  // The fixed-size arrays of the source.
  predicate SnapshotShape(s: StreamSnapshot) {
    |s.stream| == STREAM_COUNT && forall i | 0 <= i < STREAM_COUNT :: |s.stream[i].slot| == SLOTS_PER_STREAM
  }

  predicate HintShape(h: ScheduleHint) {
    |h.nextToday| == 2 && |h.firstTomorrow| == 2
  }

  predicate ScheduleShape(s: ScheduleSnapshot) {
    |s.hint| == STREAM_COUNT && forall i | 0 <= i < STREAM_COUNT :: HintShape(s.hint[i])
  }

  const EMPTY_STREAM := StreamData([NO_DEPARTURE, NO_DEPARTURE, NO_DEPARTURE], false, false)
  const EMPTY_SNAPSHOT := StreamSnapshot([EMPTY_STREAM, EMPTY_STREAM, EMPTY_STREAM, EMPTY_STREAM], false)
  const NO_HINT := ScheduleHint(0, [0, 0], [0, 0])
  const EMPTY_SCHEDULE := ScheduleSnapshot([NO_HINT, NO_HINT, NO_HINT, NO_HINT], 0)

  type Stream = s: StreamData | |s.slot| == SLOTS_PER_STREAM witness EMPTY_STREAM
  type Snapshot = s: StreamSnapshot | SnapshotShape(s) witness EMPTY_SNAPSHOT
  type Schedule = s: ScheduleSnapshot | ScheduleShape(s) witness EMPTY_SCHEDULE

  // The dedup key: two departures in one wall-clock minute are the same departure.
  function Minute(t: int): int {
    CDiv(t, SECONDS_PER_MINUTE)
  }

  predicate HasMinute(l: seq<Departure>, m: int) {
    exists i | 0 <= i < |l| :: Minute(l[i].when) == m
  }

  // ---------------------------------------------------------------- one insertion

  function InsertByTime(l: seq<Departure>, c: Departure): (r: seq<Departure>)
    ensures |r| == |l| + 1
  {
    if l == [] || c.when < l[0].when then [c] + l else [l[0]] + InsertByTime(l[1..], c)
  }

  function Keep(l: seq<Departure>): (r: seq<Departure>)
    ensures |r| <= SLOTS_PER_STREAM && r <= l
  {
    if |l| > SLOTS_PER_STREAM then l[..SLOTS_PER_STREAM] else l
  }

  // The slot list after offering it one candidate, and a sequence of them.
  function Insert(l: seq<Departure>, c: Departure): (r: seq<Departure>)
    ensures |l| <= SLOTS_PER_STREAM ==> |r| <= SLOTS_PER_STREAM
  {
    if !c.valid || HasMinute(l, Minute(c.when)) then l else Keep(InsertByTime(l, c))
  }

  function Offered(cs: seq<Departure>): (l: seq<Departure>)
    ensures |l| <= SLOTS_PER_STREAM
  {
    if cs == [] then [] else Insert(Offered(cs[..|cs| - 1]), cs[|cs| - 1])
  }

  // A slot list as the array holds it: occupied slots first, the rest empty.
  function Padded(l: seq<Departure>): (s: seq<Departure>)
    requires |l| <= SLOTS_PER_STREAM
    ensures |s| == SLOTS_PER_STREAM
  {
    l + seq(SLOTS_PER_STREAM - |l|, _ => NO_DEPARTURE)
  }

  // Occupied slots: valid, ascending, one per minute.
  predicate SlotList(l: seq<Departure>) {
    && |l| <= SLOTS_PER_STREAM
    && (forall i | 0 <= i < |l| :: l[i].valid)
    && (forall i, j | 0 <= i < j < |l| :: Minute(l[i].when) < Minute(l[j].when))
  }

  // Bubble the element at i back to its place.
  method Bubble(out: array<Departure>, i: nat, ghost l: seq<Departure>, ghost c: Departure)
    requires i < out.Length && out[..i] == l && out[i] == c && Ascending(l)
    modifies out
    ensures out[..i + 1] == InsertByTime(l, c)
    ensures out[i + 1..] == old(out[i + 1..])
  {
    hide Ascending, InsertByTime;
    var j := i;
    while j > 0 && out[j].when < out[j - 1].when
      invariant 0 <= j <= i
      invariant out[..i + 1] == Spliced(l, c, j)
      invariant forall k | j <= k < i :: c.when < l[k].when
      invariant out[i + 1..] == old(out[i + 1..])
    {
      ghost var before := out[..i + 1];
      var tmp := out[j - 1];
      out[j - 1] := out[j];
      out[j] := tmp;
      assert out[..i + 1] == before[j := before[j - 1]][j - 1 := before[j]];
      SwapMoves(l, c, j);
      j := j - 1;
    }
    assert out[..i + 1][j] == c && (j > 0 ==> out[..i + 1][j - 1] == l[j - 1]);
    InsertsAt(l, c, j);
  }

  function Spliced(l: seq<Departure>, c: Departure, j: nat): seq<Departure>
    requires j <= |l|
  {
    l[..j] + [c] + l[j..]
  }

  lemma SwapMoves(l: seq<Departure>, c: Departure, j: nat)
    requires 0 < j <= |l|
    ensures var s := Spliced(l, c, j);
      s[j] == c && s[j - 1] == l[j - 1] && s[j := s[j - 1]][j - 1 := s[j]] == Spliced(l, c, j - 1)
  {
  }

  predicate Ascending(l: seq<Departure>) {
    forall i, j | 0 <= i < j < |l| :: l[i].when <= l[j].when
  }

  lemma {:induction false} InsertsAt(l: seq<Departure>, c: Departure, j: nat)
    requires j <= |l| && Ascending(l)
    requires j > 0 ==> l[j - 1].when <= c.when
    requires forall k | j <= k < |l| :: c.when < l[k].when
    ensures InsertByTime(l, c) == Spliced(l, c, j)
  {
    if j > 0 {
      assert l[0].when <= c.when;
      assert l[1..][..j - 1] == l[1..j] && l[1..][j - 1..] == l[j..];
      InsertsAt(l[1..], c, j - 1);
    }
  }

  method InsertSorted(out: array<Departure>, cand: Departure, ghost l: seq<Departure>)
    requires SlotList(l) && out.Length == SLOTS_PER_STREAM && out[..] == Padded(l)
    modifies out
    ensures out[..] == Padded(Insert(l, cand)) && SlotList(Insert(l, cand))
  {
    hide SlotHasMinute, HasMinute, Minute, InsertByTime;
    InsertKeepsSlotList(l, cand);
    if !cand.valid {
      return;
    }
    var candMin := Minute(cand.when);
    var duplicate := SlotHasMinute(out[..], candMin);
    OccupiedPart(out[..], l);
    if duplicate {
      return;
    }
    SlotListAscends(l);
    for i := 0 to SLOTS_PER_STREAM
      invariant i <= |l| && out[..] == Padded(l)
    {
      if !out[i].valid {
        out[i] := cand;
        Bubble(out, i, l, cand);
        assert out[..] == out[..i + 1] + out[i + 1..];
        return;
      }
    }
    var last := SLOTS_PER_STREAM - 1;
    assert out[..] == l;
    if cand.when < out[last].when {
      out[last] := cand;
      Bubble(out, last, l[..last], cand);
      EvictsLast(l, cand);
    } else {
      InsertsAt(l, cand, |l|);
    }
  }

  lemma OccupiedPart(s: seq<Departure>, l: seq<Departure>)
    requires SlotList(l) && s == Padded(l)
    ensures forall i | 0 <= i < SLOTS_PER_STREAM :: s[i].valid == (i < |l|)
    ensures forall m :: HasMinute(l, m) <==> SlotHasMinute(s, m)
  {
    forall m
      ensures HasMinute(l, m) <==> SlotHasMinute(s, m)
    {
      if i :| 0 <= i < |l| && Minute(l[i].when) == m {
        assert s[i] == l[i];
      }
    }
  }

  predicate SlotHasMinute(s: seq<Departure>, m: int) {
    exists i | 0 <= i < |s| :: s[i].valid && Minute(s[i].when) == m
  }

  lemma SlotListAscends(l: seq<Departure>)
    requires SlotList(l)
    ensures Ascending(l)
  {
  }

  lemma EvictsLast(l: seq<Departure>, c: Departure)
    requires |l| == SLOTS_PER_STREAM && Ascending(l) && c.when < l[2].when
    ensures InsertByTime(l, c)[..SLOTS_PER_STREAM] == InsertByTime(l[..2], c)
  {
    var j := if c.when < l[0].when then 0 else if c.when < l[1].when then 1 else 2;
    InsertsAt(l, c, j);
    InsertsAt(l[..2], c, j);
  }

  lemma InsertKeepsSlotList(l: seq<Departure>, c: Departure)
    requires SlotList(l)
    ensures SlotList(Insert(l, c))
  {
    if c.valid && !HasMinute(l, Minute(c.when)) {
      InsertByTimeKeeps(l, c);
    }
  }

  predicate OnePerMinute(l: seq<Departure>) {
    && (forall i | 0 <= i < |l| :: l[i].valid)
    && (forall i, j | 0 <= i < j < |l| :: Minute(l[i].when) < Minute(l[j].when))
  }

  lemma InsertByTimeKeeps(l: seq<Departure>, c: Departure)
    requires OnePerMinute(l) && c.valid && !HasMinute(l, Minute(c.when))
    ensures OnePerMinute(InsertByTime(l, c))
  {
    var j := Position(l, c);
    InsertsAt(l, c, j);
    Splice(l, c, j);
  }

  lemma Splice(l: seq<Departure>, c: Departure, j: nat)
    requires OnePerMinute(l) && c.valid && j <= |l|
    requires forall k | 0 <= k < j :: Minute(l[k].when) < Minute(c.when)
    requires forall k | j <= k < |l| :: Minute(c.when) < Minute(l[k].when)
    ensures OnePerMinute(Spliced(l, c, j))
  {
    var r := Spliced(l, c, j);
    assert forall k | 0 <= k < j :: r[k] == l[k];
    assert forall k | j < k < |r| :: r[k] == l[k - 1];
  }

  lemma Position(l: seq<Departure>, c: Departure) returns (j: nat)
    requires OnePerMinute(l) && !HasMinute(l, Minute(c.when))
    ensures j <= |l| && Ascending(l)
    ensures forall k | 0 <= k < j :: Minute(l[k].when) < Minute(c.when) && l[k].when <= c.when
    ensures forall k | j <= k < |l| :: Minute(c.when) < Minute(l[k].when) && c.when < l[k].when
  {
    j := 0;
    while j < |l| && Minute(l[j].when) < Minute(c.when)
      invariant j <= |l|
      invariant forall k | 0 <= k < j :: Minute(l[k].when) < Minute(c.when)
    {
      j := j + 1;
    }
    if j < |l| {
      assert Minute(l[j].when) != Minute(c.when);
    }
    hide Minute;
    forall k | 0 <= k < |l|
      ensures Minute(l[k].when) < Minute(c.when) ==> l[k].when <= c.when
      ensures Minute(c.when) < Minute(l[k].when) ==> c.when < l[k].when
    {
      LaterMinute(l[k].when, c.when);
    }
  }

  lemma LaterMinute(a: int, b: int)
    ensures Minute(a) < Minute(b) ==> a < b
    ensures Minute(b) < Minute(a) ==> b < a
  {
  }

  // ---------------------------------------------------------------- what is kept

  // cs[k] is the first valid candidate of its minute.
  predicate FirstOffer(cs: seq<Departure>, k: nat) {
    && k < |cs| && cs[k].valid
    && forall j | 0 <= j < k && cs[j].valid :: Minute(cs[j].when) != Minute(cs[k].when)
  }

  predicate IsFirstOffer(cs: seq<Departure>, d: Departure) {
    exists k: nat | k < |cs| :: cs[k] == d && FirstOffer(cs, k)
  }

  // The minute is kept, or three earlier ones are.
  predicate Settled(l: seq<Departure>, m: int) {
    HasMinute(l, m) || (|l| == SLOTS_PER_STREAM && Minute(l[2].when) < m)
  }

  // l holds exactly the up-to-three smallest distinct minutes on offer, ascending, each
  // represented by its first candidate.
  predicate Best(l: seq<Departure>, cs: seq<Departure>) {
    && SlotList(l)
    && (forall i | 0 <= i < |l| :: IsFirstOffer(cs, l[i]))
    && (forall k | 0 <= k < |cs| && cs[k].valid :: Settled(l, Minute(cs[k].when)))
  }

  lemma {:induction false} OfferedIsBest(cs: seq<Departure>)
    ensures Best(Offered(cs), cs)
  {
    if cs != [] {
      OfferedIsBest(cs[..|cs| - 1]);
      InsertKeepsBest(Offered(cs[..|cs| - 1]), cs[..|cs| - 1], cs[|cs| - 1]);
      assert cs == cs[..|cs| - 1] + [cs[|cs| - 1]];
    }
  }

  lemma InsertKeepsBest(l: seq<Departure>, cs: seq<Departure>, c: Departure)
    requires Best(l, cs)
    ensures Best(Insert(l, c), cs + [c])
  {
    var r := Insert(l, c);
    InsertKeepsSlotList(l, c);
    forall i | 0 <= i < |r|
      ensures IsFirstOffer(cs + [c], r[i])
    {
      InsertTakesFrom(l, c, i);
      if r[i] in l {
        FirstOfferStays(cs, c, r[i]);
      } else {
        NewMinute(l, cs, c);
      }
    }
    forall k | 0 <= k < |cs + [c]| && (cs + [c])[k].valid
      ensures Settled(r, Minute((cs + [c])[k].when))
    {
      InsertSettles(l, c, Minute((cs + [c])[k].when));
    }
  }

  lemma FirstOfferStays(cs: seq<Departure>, c: Departure, d: Departure)
    requires IsFirstOffer(cs, d)
    ensures IsFirstOffer(cs + [c], d)
  {
    var k: nat :| k < |cs| && cs[k] == d && FirstOffer(cs, k);
    assert (cs + [c])[k] == d && FirstOffer(cs + [c], k);
  }

  // A candidate that gets in is the first of its minute: an evicted minute is later
  // than all three kept ones and stays out.
  lemma NewMinute(l: seq<Departure>, cs: seq<Departure>, c: Departure)
    requires Best(l, cs) && c.valid && !HasMinute(l, Minute(c.when)) && c in Insert(l, c)
    ensures IsFirstOffer(cs + [c], c)
  {
    var k := |cs|;
    forall j | 0 <= j < k && cs[j].valid
      ensures Minute(cs[j].when) != Minute(c.when)
    {
      if Minute(cs[j].when) == Minute(c.when) {
        assert Settled(l, Minute(c.when));
        var p := Position(l, c);
        InsertsAt(l, c, p);
      }
    }
    assert (cs + [c])[k] == c && FirstOffer(cs + [c], k);
  }

  lemma InsertTakesFrom(l: seq<Departure>, c: Departure, i: nat)
    requires SlotList(l) && i < |Insert(l, c)|
    ensures Insert(l, c)[i] in l || (Insert(l, c)[i] == c && c.valid && !HasMinute(l, Minute(c.when)))
  {
    if c.valid && !HasMinute(l, Minute(c.when)) {
      var p := Position(l, c);
      InsertsAt(l, c, p);
    }
  }

  lemma InsertSettles(l: seq<Departure>, c: Departure, m: int)
    requires SlotList(l) && (Settled(l, m) || (c.valid && m == Minute(c.when)))
    ensures Settled(Insert(l, c), m)
  {
    if c.valid && !HasMinute(l, Minute(c.when)) {
      var p := Position(l, c);
      InsertsAt(l, c, p);
      var s := Spliced(l, c, p);
      SplicedHas(l, c, p);
      Splice(l, c, p);
      if HasMinute(s, m) {
        KeepSettles(s, m);
      }
    }
  }

  lemma SplicedHas(l: seq<Departure>, c: Departure, p: nat)
    requires p <= |l|
    ensures forall m :: HasMinute(l, m) || m == Minute(c.when) ==> HasMinute(Spliced(l, c, p), m)
  {
    var s := Spliced(l, c, p);
    assert s[p] == c;
    assert forall i | 0 <= i < |l| :: l[i] == s[if i < p then i else i + 1];
  }

  lemma KeepSettles(s: seq<Departure>, m: int)
    requires OnePerMinute(s) && HasMinute(s, m)
    ensures Settled(Keep(s), m)
  {
    var i :| 0 <= i < |s| && Minute(s[i].when) == m;
    if i < |Keep(s)| {
      assert Keep(s)[i] == s[i];
    }
  }

  // Only one list is the best one, so the fold is determined by the offers.
  lemma BestIsUnique(l: seq<Departure>, l': seq<Departure>, cs: seq<Departure>)
    requires Best(l, cs) && Best(l', cs)
    ensures l == l'
  {
    BestAgree(l, l', cs, |l|);
    BestAgree(l', l, cs, |l'|);
  }

  lemma {:induction false} BestAgree(l: seq<Departure>, l': seq<Departure>, cs: seq<Departure>, n: nat)
    requires Best(l, cs) && Best(l', cs) && n <= |l|
    ensures n <= |l'| && forall p | 0 <= p < n :: l[p] == l'[p]
  {
    hide Best;
    if n > 0 {
      BestAgree(l, l', cs, n - 1);
      AgreeAt(l, l', cs, n - 1);
    }
  }

  lemma AgreeAt(l: seq<Departure>, l': seq<Departure>, cs: seq<Departure>, i: nat)
    requires Best(l, cs) && Best(l', cs) && i < |l|
    requires i <= |l'| && forall p | 0 <= p < i :: l[p] == l'[p]
    ensures i < |l'| && l[i] == l'[i]
  {
    hide SlotList, Settled, FirstOffer;
    NotEarlier(l, l', cs, i);
    NotEarlier(l', l, cs, i);
    SameFirstOffer(cs, l[i], l'[i]);
  }

  lemma NotEarlier(l: seq<Departure>, l': seq<Departure>, cs: seq<Departure>, i: nat)
    requires Best(l, cs) && Best(l', cs) && i < |l|
    requires i <= |l'| && forall p | 0 <= p < i :: l[p] == l'[p]
    ensures i < |l'| && Minute(l'[i].when) <= Minute(l[i].when)
  {
    assert IsFirstOffer(cs, l[i]);
    assert Settled(l', Minute(l[i].when));
  }

  lemma SameFirstOffer(cs: seq<Departure>, a: Departure, b: Departure)
    requires IsFirstOffer(cs, a) && IsFirstOffer(cs, b) && Minute(a.when) == Minute(b.when)
    ensures a == b
  {
  }
}
