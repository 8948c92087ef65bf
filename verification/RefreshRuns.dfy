/** Runs of planRefresh and applyDisplayDecision on one threaded metadata record
    (src/logic/refresh_planner.cpp, src/logic/display_apply.cpp), over any frames and any
    clock readings. */
module RefreshRuns {
  import opened Bytes
  import opened Meta
  import opened Planner
  import Push

  datatype Turn = Turn(prev: seq<byte>, curr: seq<byte>, prevValid: bool, now: int, untrusted: bool)

  predicate Sized(cfg: RefreshConfig, ts: seq<Turn>) {
    forall t | t in ts :: |t.prev| == |t.curr| == cfg.width * cfg.height / 8
  }

  // The metadata before turn k, and what turn k decides.
  function MetaAt(cfg: RefreshConfig, m: PersistedMeta, ts: seq<Turn>, k: nat): PersistedMeta
    requires Sized(cfg, ts) && k <= |ts|
    decreases k, 0
  {
    if k == 0 then m
    else Push.Applied(MetaAt(cfg, m, ts, k - 1), KindAt(cfg, m, ts, k - 1), ts[k - 1].now)
  }

  function KindAt(cfg: RefreshConfig, m: PersistedMeta, ts: seq<Turn>, k: nat): RefreshKind
    requires Sized(cfg, ts) && k < |ts|
    decreases k, 1
  {
    var t, before := ts[k], MetaAt(cfg, m, ts, k);
    Plan(t.prev, t.curr, t.prevValid, t.now, before.lastLightFull, before.partialCount, cfg, t.untrusted).kind
  }

  predicate NoFull(cfg: RefreshConfig, m: PersistedMeta, ts: seq<Turn>, i: nat, j: nat)
    requires Sized(cfg, ts) && i <= j <= |ts|
  {
    forall k | i <= k < j :: KindAt(cfg, m, ts, k) != LightFull
  }

  function Partials(cfg: RefreshConfig, m: PersistedMeta, ts: seq<Turn>, i: nat, j: nat): nat
    requires Sized(cfg, ts) && i <= j <= |ts|
  {
    if i == j then 0
    else Partials(cfg, m, ts, i, j - 1) + if KindAt(cfg, m, ts, j - 1) == Partial then 1 else 0
  }

  lemma TurnMeaning(cfg: RefreshConfig, m: PersistedMeta, ts: seq<Turn>, k: nat)
    requires Sized(cfg, ts) && k < |ts|
    ensures var t, b, kind := ts[k], MetaAt(cfg, m, ts, k), KindAt(cfg, m, ts, k);
      var full := MustBeFull(t.now, b.lastLightFull, b.partialCount, cfg, t.untrusted);
      && kind != DeepClean
      && (kind == None <==> t.prevValid && (t.prev == t.curr || (!full && MissedByBox(t.prev, t.curr, cfg))))
      && (kind == Partial <==> t.prevValid && t.prev != t.curr && !full && !MissedByBox(t.prev, t.curr, cfg))
  {
    var t, b := ts[k], MetaAt(cfg, m, ts, k);
    assert t in ts;
    PlanMeaning(t.prev, t.curr, t.prevValid, t.now, b.lastLightFull, b.partialCount, cfg, t.untrusted);
  }

  // The counter never passes the cap.
  lemma {:induction false} CountStaysWithinCap(cfg: RefreshConfig, m: PersistedMeta, ts: seq<Turn>, k: nat)
    requires Sized(cfg, ts) && k <= |ts| && m.partialCount <= cfg.partialHardcap < UINT16
    ensures MetaAt(cfg, m, ts, k).partialCount <= cfg.partialHardcap
  {
    if k > 0 {
      CountStaysWithinCap(cfg, m, ts, k - 1);
      TurnMeaning(cfg, m, ts, k - 1);
    }
  }

  // Between two fulls the counter counts the partials, so there are at most `cap` of them.
  lemma {:induction false} AtMostCapPartialsBetweenFulls(cfg: RefreshConfig, m: PersistedMeta, ts: seq<Turn>, i: nat, j: nat)
    requires Sized(cfg, ts) && i <= j <= |ts| && m.partialCount <= cfg.partialHardcap < UINT16
    requires NoFull(cfg, m, ts, i, j)
    ensures MetaAt(cfg, m, ts, j).partialCount == MetaAt(cfg, m, ts, i).partialCount + Partials(cfg, m, ts, i, j)
    ensures Partials(cfg, m, ts, i, j) <= cfg.partialHardcap
    decreases j
  {
    hide KindAt, MissedByBox;
    CountStaysWithinCap(cfg, m, ts, j);
    if i < j {
      AtMostCapPartialsBetweenFulls(cfg, m, ts, i, j - 1);
      CountStaysWithinCap(cfg, m, ts, j - 1);
      TurnMeaning(cfg, m, ts, j - 1);
    }
  }

  // A partial needs trusted panel RAM and a valid, different previous frame; a valid
  // unchanged frame never touches the panel; an invalid one always gets a full.
  lemma TouchesPanelOnlyWithReason(cfg: RefreshConfig, m: PersistedMeta, ts: seq<Turn>, k: nat)
    requires Sized(cfg, ts) && k < |ts|
    ensures KindAt(cfg, m, ts, k) == Partial ==> !ts[k].untrusted && ts[k].prevValid && ts[k].prev != ts[k].curr
    ensures ts[k].prevValid && ts[k].prev == ts[k].curr ==> KindAt(cfg, m, ts, k) == None
    ensures !ts[k].prevValid ==> KindAt(cfg, m, ts, k) == LightFull
    ensures ts[k].prevValid && ts[k].prev != ts[k].curr && ts[k].untrusted ==> KindAt(cfg, m, ts, k) == LightFull
  {
    TurnMeaning(cfg, m, ts, k);
  }

  // The turn whose full refresh the metadata before turn k remembers; |ts| for the one
  // it started out with.
  lemma {:induction false} LastFull(cfg: RefreshConfig, m: PersistedMeta, ts: seq<Turn>, k: nat) returns (i: nat)
    requires Sized(cfg, ts) && k <= |ts|
    ensures i < k || i == |ts|
    ensures i < k ==> KindAt(cfg, m, ts, i) == LightFull && NoFull(cfg, m, ts, i + 1, k)
    ensures i == |ts| ==> NoFull(cfg, m, ts, 0, k)
    ensures MetaAt(cfg, m, ts, k).lastLightFull == if i < k then ts[i].now else m.lastLightFull
  {
    if k == 0 {
      i := |ts|;
    } else {
      TurnMeaning(cfg, m, ts, k - 1);
      i := LastFull(cfg, m, ts, k - 1);
      if KindAt(cfg, m, ts, k - 1) == LightFull {
        i := k - 1;
      }
    }
  }

  // The counter is the number of partials since that full.
  lemma CountsSinceLastFull(cfg: RefreshConfig, m: PersistedMeta, ts: seq<Turn>, k: nat) returns (i: nat)
    requires Sized(cfg, ts) && k <= |ts| && m.partialCount <= cfg.partialHardcap < UINT16
    ensures i < k || i == |ts|
    ensures i < k ==> KindAt(cfg, m, ts, i) == LightFull && NoFull(cfg, m, ts, i + 1, k)
    ensures i == |ts| ==> NoFull(cfg, m, ts, 0, k)
    ensures MetaAt(cfg, m, ts, k).partialCount ==
      if i < k then Partials(cfg, m, ts, i + 1, k) else m.partialCount + Partials(cfg, m, ts, 0, k)
  {
    i := LastFull(cfg, m, ts, k);
    if i < k {
      assert MetaAt(cfg, m, ts, i + 1).partialCount == 0;
    }
    AtMostCapPartialsBetweenFulls(cfg, m, ts, if i < k then i + 1 else 0, k);
  }

  // Ghosting is bounded in time: every partial comes less than light_full_every_s after
  // the full refresh before it, with at most `cap` partials in between.
  lemma PartialsFollowAFull(cfg: RefreshConfig, m: PersistedMeta, ts: seq<Turn>, k: nat) returns (i: nat)
    requires Sized(cfg, ts) && k < |ts| && KindAt(cfg, m, ts, k) == Partial
    requires m.partialCount <= cfg.partialHardcap < UINT16
    ensures i < k || i == |ts|
    ensures i < k ==>
      && KindAt(cfg, m, ts, i) == LightFull && NoFull(cfg, m, ts, i + 1, k + 1)
      && ts[k].now - ts[i].now < cfg.lightFullEvery && Partials(cfg, m, ts, i + 1, k + 1) <= cfg.partialHardcap
    ensures i == |ts| ==>
      && m.lastLightFull != 0 && NoFull(cfg, m, ts, 0, k + 1)
      && ts[k].now - m.lastLightFull < cfg.lightFullEvery && Partials(cfg, m, ts, 0, k + 1) <= cfg.partialHardcap
  {
    TurnMeaning(cfg, m, ts, k);
    i := LastFull(cfg, m, ts, k);
    AtMostCapPartialsBetweenFulls(cfg, m, ts, if i < k then i + 1 else 0, k + 1);
  }

  // ---------------------------------------------------------------- one waking session

  // The pushes of one session, the panel being off before it: those of the boot's own
  // cycle know that the panel RAM is untrusted (there are two if a rescue succeeds), the
  // later ones come from the polling loop and assume the opposite.
  predicate Session(ts: seq<Turn>) {
    ts != [] && ts[0].untrusted && forall i, j | 0 <= i < j < |ts| && ts[j].untrusted :: ts[i].untrusted
  }

  predicate AllIdleBefore(cfg: RefreshConfig, m: PersistedMeta, ts: seq<Turn>, k: nat)
    requires Sized(cfg, ts) && k <= |ts|
  {
    forall i | 0 <= i < k :: KindAt(cfg, m, ts, i) == None
  }

  // Push k is the first of the session to reach the panel.
  predicate FirstOnPanel(cfg: RefreshConfig, m: PersistedMeta, ts: seq<Turn>, k: nat)
    requires Sized(cfg, ts) && k < |ts|
  {
    AllIdleBefore(cfg, m, ts, k) && KindAt(cfg, m, ts, k) != None
  }

  lemma {:induction false} IdleKeepsMeta(cfg: RefreshConfig, m: PersistedMeta, ts: seq<Turn>, k: nat)
    requires Sized(cfg, ts) && k <= |ts| && AllIdleBefore(cfg, m, ts, k)
    ensures MetaAt(cfg, m, ts, k) == m
  {
    if k > 0 {
      IdleKeepsMeta(cfg, m, ts, k - 1);
    }
  }

  // The intent is that the first refresh after deep sleep is a full one. It is a partial
  // one exactly when it comes from a poll, over a valid frame, before either trigger is due
  // on the metadata the session started with.
  lemma FirstRefreshIsPartialIff(cfg: RefreshConfig, m: PersistedMeta, ts: seq<Turn>, k: nat)
    requires Sized(cfg, ts) && Session(ts) && k < |ts| && FirstOnPanel(cfg, m, ts, k)
    ensures KindAt(cfg, m, ts, k) == Partial <==>
      && !ts[k].untrusted && ts[k].prevValid
      && !TimeTrigger(ts[k].now, m.lastLightFull, cfg) && !CapTrigger(m.partialCount, cfg)
  {
    IdleKeepsMeta(cfg, m, ts, k);
    TurnMeaning(cfg, m, ts, k);
  }
}
