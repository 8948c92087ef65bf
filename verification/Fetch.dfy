/** One HTTP call with retries (src/logic/api_fetcher.cpp) and the batch accounting and
    auth tripwire of a snapshot fetch (src/logic/snapshot_fetcher.cpp). */
module Fetch {
  import opened Slots
  import opened Meta
  import Hafas
  import Merge
  import opened Wrappers

  // ---------------------------------------------------------------- retries

  datatype HttpResult = HttpResult(ok: bool, status: int)

  datatype FetchOutcome = FetchOutcome(ok: bool, attempts: nat, status: int)

  datatype Disposition = ReturnNow | Retry

  function Classify(r: HttpResult): Disposition {
    if !r.ok then Retry
    else if 200 <= r.status < 300 then ReturnNow
    else if r.status == 401 || r.status == 403 then ReturnNow
    else if r.status == 408 || r.status == 429 || 500 <= r.status < 600 then Retry
    else ReturnNow
  }

  predicate IsSuccess(status: int) {
    200 <= status < 300
  }

  // The outcome of attempts 1, 2, ...: the first one not to be retried decides, the last
  // one if there is none.
  predicate Decided(call: nat -> HttpResult, maxAttempts: int, out: FetchOutcome) {
    if maxAttempts <= 0 then out == FetchOutcome(false, 0, 0)
    else
      && 1 <= out.attempts <= maxAttempts
      && (forall k | 1 <= k < out.attempts :: Classify(call(k)) == Retry)
      && out.status == call(out.attempts).status
      && (out.attempts < maxAttempts ==> Classify(call(out.attempts)) == ReturnNow)
      && (out.ok <==> call(out.attempts).ok && IsSuccess(call(out.attempts).status))
  }

  method RunRetryLoop(call: nat -> HttpResult, maxAttempts: int) returns (out: FetchOutcome)
    ensures Decided(call, maxAttempts, out)
  {
    out := FetchOutcome(false, 0, 0);
    var attempt := 1;
    while attempt <= maxAttempts
      invariant 1 <= attempt && (attempt == 1 || attempt <= maxAttempts + 1)
      invariant attempt == 1 ==> out == FetchOutcome(false, 0, 0)
      invariant attempt > 1 ==> out == FetchOutcome(false, attempt - 1, call(attempt - 1).status)
      invariant forall k | 1 <= k < attempt :: Classify(call(k)) == Retry
    {
      var r := call(attempt);
      out := out.(attempts := attempt, status := r.status);
      if Classify(r) == ReturnNow {
        return out.(ok := r.ok && IsSuccess(r.status));
      }
      attempt := attempt + 1;
    }
  }

  // A transport failure, a time-out, too many requests or a server error is worth another try.
  predicate Passing(r: HttpResult) {
    !r.ok || r.status == 408 || r.status == 429 || 500 <= r.status <= 599
  }

  // A fetch succeeds exactly when some allowed attempt is answered 200 to 299 and every one
  // before it failed in passing; it made one attempt more than those.
  lemma SucceedsIff(call: nat -> HttpResult, maxAttempts: int, out: FetchOutcome)
    requires Decided(call, maxAttempts, out)
    ensures out.ok <==> exists k | 1 <= k <= maxAttempts ::
      call(k).ok && 200 <= call(k).status <= 299 && forall i | 1 <= i < k :: Passing(call(i))
    ensures 0 <= out.attempts && forall i | 1 <= i < out.attempts :: Passing(call(i))
    ensures 0 < out.attempts < maxAttempts ==> !Passing(call(out.attempts))
    ensures 0 < out.attempts ==> out.status == call(out.attempts).status
  {
    hide Classify;
    forall k: nat
      ensures Classify(call(k)) == Retry <==> Passing(call(k))
    {
      RetriesPassing(call(k));
    }
    forall k | 1 <= k <= maxAttempts && call(k).ok && IsSuccess(call(k).status)
      ensures !Passing(call(k))
    {
    }
  }

  lemma RetriesPassing(r: HttpResult)
    ensures Classify(r) == Retry <==> Passing(r)
  {
  }

  // ---------------------------------------------------------------- one snapshot

  const TRIPWIRE: nat := 3
  const OGD_BATCHES: nat := 2
  const STOPIDS_PER_QUERY: nat := 2
  const FETCH_ORDER: seq<nat> := [2, 1, 0]

  // The streams batch b asks for.
  function BatchStreams(b: nat): (s: seq<nat>)
    requires b < OGD_BATCHES
    ensures forall i | 0 <= i < |s| :: s[i] < STREAM_COUNT
  {
    var start := b * STOPIDS_PER_QUERY;
    FETCH_ORDER[start..Min(start + STOPIDS_PER_QUERY, |FETCH_ORDER|)]
  }

  // What one OGD batch came back with; `parsed` is None when the body does not parse.
  datatype OgdReply = OgdReply(outcome: FetchOutcome, parsed: Option<Snapshot>)

  datatype OebbReply = OebbReply(outcome: FetchOutcome, parsedOk: bool, stream: Stream, result: Hafas.ParseResult)

  datatype FetchSummary = FetchSummary(total: nat, failed: nat, retried: nat)

  // Everything one fetch gets back; no HAFAS reply without a URL.
  datatype Inputs = Inputs(ogd0: OgdReply, ogd1: OgdReply, oebb: Option<OebbReply>)

  predicate IsAuthCode(status: int) {
    status == 401 || status == 403
  }

  predicate AuthFailed(r: OgdReply) {
    !r.outcome.ok && IsAuthCode(r.outcome.status)
  }

  // The tripwire after one OGD batch.
  function AfterBatch(m: PersistedMeta, r: OgdReply): PersistedMeta {
    if r.outcome.ok then m.(ogdAuthStreak := 0)
    else if AuthFailed(r) then
      var streak := if m.ogdAuthStreak < TRIPWIRE then m.ogdAuthStreak + 1 else m.ogdAuthStreak;
      m.(ogdAuthStreak := streak, authErrorSeen := m.authErrorSeen || streak >= TRIPWIRE)
    else m
  }

  predicate OebbUsable(r: OebbReply) {
    r.outcome.ok && r.parsedOk
  }

  predicate HafasAuth(f: Inputs) {
    f.oebb.Some? && OebbUsable(f.oebb.value) && f.oebb.value.result.authErrorSeen
  }

  predicate HafasOk(f: Inputs) {
    f.oebb.Some? && OebbUsable(f.oebb.value) && !f.oebb.value.result.authErrorSeen
    && f.oebb.value.result.endpointResponded
  }

  function AfterOebb(m: PersistedMeta, f: Inputs): PersistedMeta {
    if HafasAuth(f) then m.(authErrorSeen := true)
    else if HafasOk(f) then m.(authErrorSeen := false)
    else m
  }

  function AfterFetch(m: PersistedMeta, f: Inputs): PersistedMeta
  {
    AfterOebb(AfterBatch(AfterBatch(m, f.ogd0), f.ogd1), f)
  }

  // The tripwire is all that a fetch itself changes.
  lemma OnlyTheTripwire(m: PersistedMeta, f: Inputs)
    ensures var a := AfterFetch(m, f); a == m.(authErrorSeen := a.authErrorSeen, ogdAuthStreak := a.ogdAuthStreak)
  {
    hide HafasAuth, HafasOk, AfterBatch;
    BatchTripwire(m, f.ogd0);
    BatchTripwire(AfterBatch(m, f.ogd0), f.ogd1);
  }

  lemma BatchTripwire(m: PersistedMeta, r: OgdReply)
    ensures var a := AfterBatch(m, r); a == m.(authErrorSeen := a.authErrorSeen, ogdAuthStreak := a.ogdAuthStreak)
  {
  }

  predicate OgdFailed(r: OgdReply) {
    !r.outcome.ok || r.parsed.None?
  }

  function Bit(b: bool): nat {
    if b then 1 else 0
  }

  function SummaryOf(f: Inputs): FetchSummary
  {
    var o := f.oebb;
    FetchSummary(
      OGD_BATCHES + Bit(o.Some?),
      Bit(OgdFailed(f.ogd0)) + Bit(OgdFailed(f.ogd1)) + Bit(o.Some? && !OebbUsable(o.value)),
      Bit(Retried(f.ogd0.outcome)) + Bit(Retried(f.ogd1.outcome)) + Bit(o.Some? && OebbUsable(o.value) && Retried(o.value.outcome)))
  }

  predicate Retried(o: FetchOutcome) {
    o.ok && o.attempts > 1
  }

  // Stream s of the new snapshot: from its batch if that came back, else empty.
  function StreamOf(f: Inputs, s: nat): Stream
    requires s < STREAM_COUNT
  {
    if s == 3 then
      if f.oebb.Some? && OebbUsable(f.oebb.value)
      then f.oebb.value.stream.(endpointResponded := f.oebb.value.result.endpointResponded,
                                filterMatched := f.oebb.value.result.filterMatched)
      else EMPTY_STREAM
    else
      var r := if s == 0 then f.ogd1 else f.ogd0;
      if OgdFailed(r) then EMPTY_STREAM else r.parsed.value.stream[s]
  }

  // The whole snapshot; usable when at least one batch came back.
  function SnapshotOf(f: Inputs): Snapshot {
    var s := SummaryOf(f);
    StreamSnapshot([StreamOf(f, 0), StreamOf(f, 1), StreamOf(f, 2), StreamOf(f, 3)], s.failed < s.total)
  }

  // Stream order[k] of the snapshot is that of reply k / 2 if it came back 2xx and parsed,
  // and empty otherwise; the fourth is the HAFAS one with the flags of its result.
  lemma StreamsOfReplies(f: Inputs)
    ensures forall k: nat | k < 3 ::
      var s, r := [2, 1, 0][k], [f.ogd0, f.ogd1][k / 2];
      SnapshotOf(f).stream[s] == if r.outcome.ok && r.parsed.Some? then r.parsed.value.stream[s] else EMPTY_STREAM
    ensures SnapshotOf(f).stream[3] ==
      match f.oebb
      case None => EMPTY_STREAM
      case Some(r) =>
        if r.outcome.ok && r.parsedOk
        then StreamData(r.stream.slot, r.result.endpointResponded, r.result.filterMatched) else EMPTY_STREAM
  {
    forall k: nat | k < 3
      ensures var s, r := [2, 1, 0][k], [f.ogd0, f.ogd1][k / 2];
        SnapshotOf(f).stream[s] == if r.outcome.ok && r.parsed.Some? then r.parsed.value.stream[s] else EMPTY_STREAM
    {
      assert k == 0 || k == 1 || k == 2;
    }
  }

  // So a reply reaches the streams its batch asked for and no other.
  lemma ReplyReachesItsStreams(f: Inputs, r: OgdReply, o: Option<OebbReply>)
    ensures forall s | s == 0 || s == 3 :: SnapshotOf(f.(ogd0 := r)).stream[s] == SnapshotOf(f).stream[s]
    ensures forall s | 1 <= s <= 3 :: SnapshotOf(f.(ogd1 := r)).stream[s] == SnapshotOf(f).stream[s]
    ensures forall s | 0 <= s <= 2 :: SnapshotOf(f.(oebb := o)).stream[s] == SnapshotOf(f).stream[s]
  {
  }

  // A valid departure ahead in the parsed reply of the asking batch is on offer.
  lemma FetchedIsOffered(f: Inputs, schedule: Schedule, now: int, k: nat, c: Departure)
    requires k < 3
    requires var s, r := [2, 1, 0][k], [f.ogd0, f.ogd1][k / 2];
      r.outcome.ok && r.parsed.Some? && c in r.parsed.value.stream[s].slot && c.valid && c.when >= now
    ensures c in Merge.StreamOffers(SnapshotOf(f), schedule, now, [2, 1, 0][k])
  {
    StreamsOfReplies(f);
    Merge.OffersAre(SnapshotOf(f), schedule, now, [2, 1, 0][k], c);
  }

  // The streams after batch b: its own ones from its reply, if that came back.
  function WithBatch(ss: seq<StreamData>, b: nat, r: OgdReply): (r': seq<StreamData>)
    requires b < OGD_BATCHES && |ss| == STREAM_COUNT
    ensures |r'| == STREAM_COUNT
  {
    if OgdFailed(r) then ss
    else seq(STREAM_COUNT, s requires 0 <= s < STREAM_COUNT => if s in BatchStreams(b) then r.parsed.value.stream[s] else ss[s])
  }

  // The two batches make the first three streams, the HAFAS call the fourth.
  lemma BatchesMake(f: Inputs)
    ensures WithBatch(WithBatch(EMPTY_SNAPSHOT.stream, 0, f.ogd0), 1, f.ogd1)
         == [StreamOf(f, 0), StreamOf(f, 1), StreamOf(f, 2), EMPTY_STREAM]
  {
    assert BatchStreams(0) == [2, 1] && BatchStreams(1) == [0];
  }

  lemma SummaryIs(f: Inputs)
    ensures var failed, retried := Bit(OgdFailed(f.ogd0)) + Bit(OgdFailed(f.ogd1)), Bit(Retried(f.ogd0.outcome)) + Bit(Retried(f.ogd1.outcome));
      SummaryOf(f) ==
        match f.oebb
        case None => FetchSummary(2, failed, retried)
        case Some(r) => FetchSummary(3, failed + Bit(!OebbUsable(r)), retried + Bit(OebbUsable(r) && Retried(r.outcome)))
  {
  }

  lemma HafasMakes(f: Inputs)
    ensures StreamOf(f, 3) ==
      if f.oebb.Some? && OebbUsable(f.oebb.value)
      then f.oebb.value.stream.(endpointResponded := f.oebb.value.result.endpointResponded,
                                filterMatched := f.oebb.value.result.filterMatched)
      else EMPTY_STREAM
  {
  }

  class Fetcher {
    var out: StreamSnapshot
    var summary: FetchSummary
    var meta: PersistedMeta

    constructor (m: PersistedMeta)
      ensures meta == m
    {
      meta := m;
      out := StreamSnapshot([], false);
      summary := FetchSummary(0, 0, 0);
    }

    method RunOgdBatch(b: nat, r: OgdReply)
      requires b < OGD_BATCHES && |out.stream| == STREAM_COUNT
      modifies this
      ensures out == old(out).(stream := WithBatch(old(out.stream), b, r))
      ensures summary == FetchSummary(old(summary.total) + 1, old(summary.failed) + Bit(OgdFailed(r)),
                                      old(summary.retried) + Bit(Retried(r.outcome)))
      ensures meta == AfterBatch(old(meta), r)
    {
      summary := summary.(total := summary.total + 1);
      if !r.outcome.ok {
        summary := summary.(failed := summary.failed + 1);
        if IsAuthCode(r.outcome.status) {
          if meta.ogdAuthStreak < TRIPWIRE {
            meta := meta.(ogdAuthStreak := meta.ogdAuthStreak + 1);
          }
          if meta.ogdAuthStreak >= TRIPWIRE {
            meta := meta.(authErrorSeen := true);
          }
        }
        return;
      }
      if r.outcome.attempts > 1 {
        summary := summary.(retried := summary.retried + 1);
      }
      meta := meta.(ogdAuthStreak := 0);
      if r.parsed.None? {
        summary := summary.(failed := summary.failed + 1);
        return;
      }
      CopyStreams(BatchStreams(b), r.parsed.value);
      assert out.stream == WithBatch(old(out.stream), b, r);
    }

    // Only the streams the batch asked for.
    method CopyStreams(streams: seq<nat>, partial: Snapshot)
      requires |out.stream| == STREAM_COUNT
      requires forall i | 0 <= i < |streams| :: streams[i] < STREAM_COUNT
      modifies this`out
      ensures |out.stream| == STREAM_COUNT && out.apiOk == old(out.apiOk)
      ensures forall s | 0 <= s < STREAM_COUNT ::
        (out.stream[s] == if s in streams then partial.stream[s] else old(out.stream[s]))
    {
      for j := 0 to |streams|
        invariant |out.stream| == STREAM_COUNT && out.apiOk == old(out.apiOk)
        invariant forall s | 0 <= s < STREAM_COUNT ::
          (out.stream[s] == if s in streams[..j] then partial.stream[s] else old(out.stream[s]))
      {
        var idx := streams[j];
        out := out.(stream := out.stream[idx := partial.stream[idx]]);
      }
    }

    method FetchOebbStream(f: Inputs)
      requires f.oebb.Some? && |out.stream| == STREAM_COUNT
      modifies this
      ensures var r := f.oebb.value;
        && out == (if OebbUsable(r) then
             old(out).(stream := old(out.stream)[3 := r.stream.(endpointResponded := r.result.endpointResponded,
                                                                  filterMatched := r.result.filterMatched)])
             else old(out))
        && summary == FetchSummary(old(summary.total) + 1, old(summary.failed) + Bit(!OebbUsable(r)),
                                   old(summary.retried) + Bit(OebbUsable(r) && Retried(r.outcome)))
      ensures meta == AfterOebb(old(meta), f)
    {
      var r := f.oebb.value;
      summary := summary.(total := summary.total + 1);
      if !r.outcome.ok || !r.parsedOk {
        summary := summary.(failed := summary.failed + 1);
        return;
      }
      if r.outcome.attempts > 1 {
        summary := summary.(retried := summary.retried + 1);
      }
      out := out.(stream := out.stream[3 := r.stream]);
      out := out.(stream := out.stream[3 := out.stream[3].(endpointResponded := r.result.endpointResponded)]);
      out := out.(stream := out.stream[3 := out.stream[3].(filterMatched := r.result.filterMatched)]);
      if r.result.authErrorSeen {
        meta := meta.(authErrorSeen := true);
      } else if r.result.endpointResponded {
        meta := meta.(authErrorSeen := false);
      }
    }

    // OGD batches first, then the HAFAS call (skipped without a URL).
    method FetchSnapshot(f: Inputs) returns (apiOk: bool)
      modifies this
      ensures summary == SummaryOf(f) && meta == AfterFetch(old(meta), f)
      ensures out == SnapshotOf(f) && apiOk == out.apiOk
    {
      out := EMPTY_SNAPSHOT;
      summary := FetchSummary(0, 0, 0);
      hide WithBatch, AfterBatch, AfterOebb, OgdFailed, OebbUsable, Retried, Bit, StreamOf, SummaryOf;
      RunOgdBatch(0, f.ogd0);
      RunOgdBatch(1, f.ogd1);
      BatchesMake(f);
      if f.oebb.Some? {
        FetchOebbStream(f);
      }
      out := out.(apiOk := summary.failed < summary.total);
      apiOk := out.apiOk;
      HafasMakes(f);
      SummaryIs(f);
      assert out.stream == [StreamOf(f, 0), StreamOf(f, 1), StreamOf(f, 2), StreamOf(f, 3)];
    }
  }

  // ---------------------------------------------------------------- histories

  // The tripwire over a history of fetches, from a fresh device.
  function After(h: seq<Inputs>): PersistedMeta
  {
    if h == [] then FRESH_META else AfterFetch(After(h[..|h| - 1]), h[|h| - 1])
  }

  // All OGD batches of the history, in order.
  function Batches(h: seq<Inputs>): seq<OgdReply>
  {
    if h == [] then [] else Batches(h[..|h| - 1]) + [h[|h| - 1].ogd0, h[|h| - 1].ogd1]
  }

  // 401/403 outcomes since the last batch that got through; transport failures and other
  // statuses neither count nor reset.
  function AuthSinceOk(rs: seq<OgdReply>): nat {
    if rs == [] then 0
    else
      var r := rs[|rs| - 1];
      if r.outcome.ok then 0 else AuthSinceOk(rs[..|rs| - 1]) + Bit(AuthFailed(r))
  }

  function Min(a: nat, b: nat): nat {
    if a < b then a else b
  }

  lemma StreakStep(rs: seq<OgdReply>, m: PersistedMeta, r: OgdReply)
    requires m.ogdAuthStreak == Min(TRIPWIRE, AuthSinceOk(rs))
    ensures AfterBatch(m, r).ogdAuthStreak == Min(TRIPWIRE, AuthSinceOk(rs + [r]))
  {
    assert (rs + [r])[..|rs|] == rs;
  }

  // The stored streak is the saturated count, over any history.
  lemma {:induction false} StreakCounts(h: seq<Inputs>)
    ensures After(h).ogdAuthStreak == Min(TRIPWIRE, AuthSinceOk(Batches(h)))
  {
    if h != [] {
      var g, f := h[..|h| - 1], h[|h| - 1];
      StreakCounts(g);
      StreakStep(Batches(g), After(g), f.ogd0);
      StreakStep(Batches(g) + [f.ogd0], AfterBatch(After(g), f.ogd0), f.ogd1);
      assert Batches(g) + [f.ogd0] + [f.ogd1] == Batches(h);
    }
  }

  // A batch of fetch f was refused and left the streak at the tripwire.
  predicate Tripped(m: PersistedMeta, f: Inputs)
  {
    || (AuthFailed(f.ogd0) && AfterBatch(m, f.ogd0).ogdAuthStreak >= TRIPWIRE)
    || (AuthFailed(f.ogd1) && AfterBatch(AfterBatch(m, f.ogd0), f.ogd1).ogdAuthStreak >= TRIPWIRE)
  }

  // When the auth screen flag is up after one fetch.
  lemma FlagAfterFetch(m: PersistedMeta, f: Inputs)
    ensures AfterFetch(m, f).authErrorSeen <==> HafasAuth(f) || (!HafasOk(f) && (m.authErrorSeen || Tripped(m, f)))
  {
  }

  predicate Raises(h: seq<Inputs>, k: nat)
    requires k < |h|
  {
    HafasAuth(h[k]) || (!HafasOk(h[k]) && Tripped(After(h[..k]), h[k]))
  }

  // Fetch k raised the flag and HAFAS has not answered normally since.
  predicate StillRaised(h: seq<Inputs>, k: nat)
    requires k < |h|
  {
    Raises(h, k) && forall j | k < j < |h| :: !HafasOk(h[j])
  }

  lemma RaisedEarlier(h: seq<Inputs>, k: nat)
    requires k < |h| - 1
    ensures StillRaised(h, k) <==> StillRaised(h[..|h| - 1], k) && !HafasOk(h[|h| - 1])
  {
    var g := h[..|h| - 1];
    assert g[..k] == h[..k];
    assert forall j | 0 <= j < |g| :: g[j] == h[j];
  }

  lemma FlagStep(h: seq<Inputs>)
    requires h != []
    ensures var n := |h| - 1;
      After(h).authErrorSeen <==> StillRaised(h, n) || (!HafasOk(h[n]) && After(h[..n]).authErrorSeen)
  {
    FlagAfterFetch(After(h[..|h| - 1]), h[|h| - 1]);
  }

  // Over any history the flag is up exactly if some fetch raised it for good.
  lemma {:induction false} FlagOverHistory(h: seq<Inputs>)
    ensures After(h).authErrorSeen <==> exists k | 0 <= k < |h| :: StillRaised(h, k)
  {
    if h != [] {
      var n := |h| - 1;
      FlagOverHistory(h[..n]);
      FlagStep(h);
      forall k | 0 <= k < n
        ensures StillRaised(h, k) <==> StillRaised(h[..n], k) && !HafasOk(h[n])
      {
        RaisedEarlier(h, k);
      }
      if After(h).authErrorSeen && !StillRaised(h, n) {
        var k :| 0 <= k < n && StillRaised(h[..n], k);
        assert StillRaised(h, k);
      }
    }
  }

  // A fetch is complete (no rescue needed) exactly when every batch came back parsable,
  // and it counts as usable when at least one did.
  lemma SummaryMeaning(f: Inputs)
    ensures var s := SummaryOf(f);
      && (s.failed == 0 <==> !OgdFailed(f.ogd0) && !OgdFailed(f.ogd1) && (f.oebb.Some? ==> OebbUsable(f.oebb.value)))
      && (s.failed < s.total <==> !OgdFailed(f.ogd0) || !OgdFailed(f.ogd1) || (f.oebb.Some? && OebbUsable(f.oebb.value)))
      && s.retried <= s.total
      && (s.retried == 0 <==>
            && (f.ogd0.outcome.ok ==> f.ogd0.outcome.attempts <= 1) && (f.ogd1.outcome.ok ==> f.ogd1.outcome.attempts <= 1)
            && (f.oebb.Some? && OebbUsable(f.oebb.value) ==> f.oebb.value.outcome.attempts <= 1))
  {
  }
}
