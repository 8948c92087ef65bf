/** The journey loop of the OeBB HAFAS parser (src/data/oebb_hafas_parse.cpp), from
    already decoded records. */
module Hafas {
  import opened Slots
  import opened Merge
  import opened Wrappers

  const LINE_LABEL_CAP: nat := 6

  // One jnyL entry: `realTime` and `planTime` are what date and time fields decode to,
  // 0 when a field is missing or unreadable.
  datatype Journey = Journey(hasStop: bool, cancelled: bool, realTime: int, planTime: int, name: Option<string>)

  // The document: the err field, and the res block with its journey list, if there.
  datatype Doc = Doc(err: string, res: Option<Option<seq<Journey>>>)

  datatype ParseResult = ParseResult(endpointResponded: bool, filterMatched: bool, authErrorSeen: bool)

  function When(j: Journey): int {
    if j.realTime != 0 then j.realTime else j.planTime
  }

  // ---------------------------------------------------------------- line labels

  function Strip(s: string): string {
    if s == [] then [] else Strip(s[..|s| - 1]) + if s[|s| - 1] == ' ' || s[|s| - 1] == '\t' then [] else [s[|s| - 1]]
  }

  // Blanks removed; what then does not fit becomes "xx".
  function LabelOf(name: Option<string>): (r: string)
    ensures |r| < LINE_LABEL_CAP
  {
    match name
    case None => ""
    case Some(s) => if |Strip(s)| > LINE_LABEL_CAP - 1 then "xx" else Strip(s)
  }

  method CopyLineLabelStripped(src: Option<string>) returns (dst: string)
    ensures dst == LabelOf(src)
  {
    if src.None? {
      return "";
    }
    var n, s := 0, src.value;
    for p := 0 to |s|
      invariant n == |Strip(s[..p])|
    {
      assert s[..p + 1][..p] == s[..p];
      if !(s[p] == ' ' || s[p] == '\t') {
        n := n + 1;
      }
    }
    assert s[..|s|] == s;
    if n > LINE_LABEL_CAP - 1 {
      return "xx";
    }
    dst := "";
    var p := 0;
    StripMono(s, 0);
    while p < |s| && |dst| < LINE_LABEL_CAP - 1
      invariant 0 <= p <= |s| && dst == Strip(s[..p])
    {
      assert s[..p + 1][..p] == s[..p];
      if !(s[p] == ' ' || s[p] == '\t') {
        dst := dst + [s[p]];
      }
      p := p + 1;
    }
    StripMono(s, p);
  }

  lemma {:induction false} StripMono(s: string, p: nat)
    requires p <= |s|
    ensures Strip(s[..p]) <= Strip(s)
    decreases |s|
  {
    if p < |s| {
      StripMono(s[..|s| - 1], p);
      assert s[..|s| - 1][..p] == s[..p];
    } else {
      assert s[..p] == s;
    }
  }

  lemma {:induction false} StripParts(a: string, b: string)
    ensures Strip(a + b) == Strip(a) + Strip(b)
    decreases |b|
  {
    if b == [] {
      assert a + b == a;
    } else {
      StripParts(a, b[..|b| - 1]);
      assert (a + b)[..|a + b| - 1] == a + b[..|b| - 1];
    }
  }

  lemma {:induction false} NothingToStrip(s: string)
    requires ' ' !in s && '\t' !in s
    ensures Strip(s) == s
  {
    if s != [] {
      NothingToStrip(s[..|s| - 1]);
    }
  }

  lemma BlankIsNothing(a: string, b: string, c: char)
    requires c == ' ' || c == '\t'
    ensures Strip(a + [c] + b) == Strip(a + b)
  {
    assert [c][..0] == [] && Strip([c]) == [];
    hide Strip;
    StripParts(a + [c], b);
    StripParts(a, [c]);
    StripParts(a, b);
  }

  // What the label is: blanks anywhere in the name make no difference, and a name without
  // blanks is its own label up to five characters, "xx" beyond.
  lemma LabelLaws(a: string, b: string, c: char)
    ensures c == ' ' || c == '\t' ==> LabelOf(Some(a + [c] + b)) == LabelOf(Some(a + b))
    ensures ' ' !in a && '\t' !in a ==> LabelOf(Some(a)) == if |a| <= 5 then a else "xx"
    ensures LabelOf(None) == ""
  {
    if c == ' ' || c == '\t' {
      BlankIsNothing(a, b, c);
    }
    hide Strip;
    if ' ' !in a && '\t' !in a {
      NothingToStrip(a);
    }
  }

  // ---------------------------------------------------------------- which journeys are kept

  predicate Eligible(j: Journey, now: int) {
    j.hasStop && !j.cancelled && When(j) != 0 && When(j) >= now
  }

  // The first eligible journey of its minute.
  predicate Fresh(js: seq<Journey>, k: nat, now: int)
    requires k < |js|
  {
    && Eligible(js[k], now)
    && forall i | 0 <= i < k && Eligible(js[i], now) :: Minute(When(js[i])) != Minute(When(js[k]))
  }

  // The fresh journeys among the first n, in document order.
  function FreshOnes(js: seq<Journey>, n: nat, now: int): seq<Journey>
    requires n <= |js|
  {
    if n == 0 then []
    else if Fresh(js, n - 1, now) then FreshOnes(js, n - 1, now) + [js[n - 1]]
    else FreshOnes(js, n - 1, now)
  }

  function AsDeparture(j: Journey): Departure {
    Departure(When(j), if j.realTime != 0 then Realtime else Plan, true, LabelOf(j.name), 0)
  }

  function Firsts(js: seq<Journey>): (r: seq<Journey>)
    ensures |r| <= SLOTS_PER_STREAM
  {
    if |js| > SLOTS_PER_STREAM then js[..SLOTS_PER_STREAM] else js
  }

  function AsDepartures(js: seq<Journey>): (ds: seq<Departure>)
    ensures |ds| == |js|
    ensures forall i | 0 <= i < |js| :: ds[i] == AsDeparture(js[i])
  {
    seq(|js|, i requires 0 <= i < |js| => AsDeparture(js[i]))
  }

  function Kept(js: seq<Journey>, now: int): (ds: seq<Departure>)
    ensures |ds| <= SLOTS_PER_STREAM
  {
    AsDepartures(Firsts(FreshOnes(js, |js|, now)))
  }

  function Outcome(doc: Doc, now: int): (ParseResult, seq<Departure>) {
    if doc.err == "AID" || doc.err == "AUTH" then (ParseResult(false, false, true), [])
    else if doc.err != "OK" || doc.res.None? then (ParseResult(false, false, false), [])
    else if doc.res.value.None? then (ParseResult(true, false, false), [])
    else
      var kept := Kept(doc.res.value.value, now);
      (ParseResult(true, kept != [], false), kept)
  }

  // ---------------------------------------------------------------- the code

  method ConsumeOebbDoc(doc: Doc, now: int, slot: array<Departure>) returns (result: ParseResult)
    requires slot.Length == SLOTS_PER_STREAM && slot[..] == Padded([])
    modifies slot
    ensures result == Outcome(doc, now).0
    ensures slot[..] == Padded(Outcome(doc, now).1)
  {
    if doc.err == "AID" || doc.err == "AUTH" {
      return ParseResult(false, false, true);
    }
    if doc.err != "OK" {
      return ParseResult(false, false, false);
    }
    if doc.res.None? {
      return ParseResult(false, false, false);
    }
    if doc.res.value.None? {
      return ParseResult(true, false, false);
    }
    var matched := ConsumeJourneys(doc.res.value.value, now, slot);
    result := ParseResult(true, matched > 0, false);
  }

  method ConsumeJourneys(js: seq<Journey>, now: int, slot: array<Departure>) returns (matched: nat)
    requires slot.Length == SLOTS_PER_STREAM && slot[..] == Padded([])
    modifies slot
    ensures slot[..] == Padded(Kept(js, now)) && matched == |Kept(js, now)|
  {
    matched := 0;
    var n := 0;
    assert AsDepartures([]) == [];
    while n < |js|
      invariant n <= |js| && matched <= SLOTS_PER_STREAM
      invariant matched == |FreshOnes(js, n, now)|
      invariant slot[..] == Padded(AsDepartures(FreshOnes(js, n, now)))
    {
      if matched >= SLOTS_PER_STREAM {
        break;
      }
      var j := js[n];
      ghost var kept := FreshOnes(js, n, now);
      n := n + 1;
      if !j.hasStop || j.cancelled {
        continue;
      }
      var when, source := 0, Plan;
      if j.realTime != 0 {
        when, source := j.realTime, Realtime;
      }
      if when == 0 {
        when := j.planTime;
      }
      if when == 0 || when < now {
        continue;
      }
      var dup := false;
      for i := 0 to matched
        invariant dup <==> exists k | 0 <= k < i :: Minute(slot[k].when) == Minute(when)
      {
        if Minute(slot[i].when) == Minute(when) {
          dup := true;
        }
      }
      DupIsNotFresh(js, n - 1, now, slot[..]);
      if dup {
        continue;
      }
      var lineLabel := CopyLineLabelStripped(j.name);
      slot[matched] := Departure(when, source, true, lineLabel, 0);
      PadOneMore(kept, j, slot[..]);
      matched := matched + 1;
    }
    LaterOnesDropOut(js, n, now);
  }

  lemma PadOneMore(kept: seq<Journey>, j: Journey, slots: seq<Departure>)
    requires |kept| < SLOTS_PER_STREAM && |slots| == SLOTS_PER_STREAM
    requires slots == Padded(AsDepartures(kept))[|kept| := AsDeparture(j)]
    ensures slots == Padded(AsDepartures(kept + [j]))
  {
  }

  // A break at three kept journeys changes nothing: the rest only add later ones.
  lemma {:induction false} LaterOnesDropOut(js: seq<Journey>, n: nat, now: int)
    requires n <= |js| && (n < |js| ==> |FreshOnes(js, n, now)| == SLOTS_PER_STREAM)
    requires |FreshOnes(js, n, now)| <= SLOTS_PER_STREAM
    ensures Firsts(FreshOnes(js, |js|, now)) == FreshOnes(js, n, now)
  {
    FreshGrows(js, n, |js|, now);
  }

  lemma {:induction false} FreshGrows(js: seq<Journey>, n: nat, m: nat, now: int)
    requires n <= m <= |js|
    ensures FreshOnes(js, n, now) <= FreshOnes(js, m, now)
  {
    if n < m {
      FreshGrows(js, n, m - 1, now);
    }
  }

  // Some eligible journey before n has minute m; some journey of the list has it.
  predicate SeenMinute(js: seq<Journey>, n: nat, now: int, m: int)
    requires n <= |js|
  {
    exists i | 0 <= i < n :: Eligible(js[i], now) && Minute(When(js[i])) == m
  }

  predicate InMinute(fs: seq<Journey>, m: int) {
    exists f | 0 <= f < |fs| :: Minute(When(fs[f])) == m
  }

  lemma {:induction false} SeenIsKept(js: seq<Journey>, n: nat, now: int, m: int)
    requires n <= |js|
    ensures SeenMinute(js, n, now, m) <==> InMinute(FreshOnes(js, n, now), m)
  {
    if n > 0 {
      SeenIsKept(js, n - 1, now, m);
      var fs := FreshOnes(js, n - 1, now);
      SeenOneMore(js, n, now, m);
      InMinuteOneMore(fs, js[n - 1], m);
      if Eligible(js[n - 1], now) && Minute(When(js[n - 1])) == m {
        assert Fresh(js, n - 1, now) <==> !SeenMinute(js, n - 1, now, m);
      }
    }
  }

  lemma SeenOneMore(js: seq<Journey>, n: nat, now: int, m: int)
    requires 0 < n <= |js|
    ensures SeenMinute(js, n, now, m) <==>
      SeenMinute(js, n - 1, now, m) || (Eligible(js[n - 1], now) && Minute(When(js[n - 1])) == m)
  {
    if SeenMinute(js, n - 1, now, m) {
      var i :| 0 <= i < n - 1 && Eligible(js[i], now) && Minute(When(js[i])) == m;
      assert Minute(When(js[i])) == m;
    }
  }

  lemma InMinuteOneMore(fs: seq<Journey>, j: Journey, m: int)
    ensures InMinute(fs + [j], m) <==> InMinute(fs, m) || Minute(When(j)) == m
  {
    if InMinute(fs, m) {
      var f :| 0 <= f < |fs| && Minute(When(fs[f])) == m;
      assert (fs + [j])[f] == fs[f];
    }
    if Minute(When(j)) == m {
      assert (fs + [j])[|fs|] == j;
    }
  }

  lemma DupIsNotFresh(js: seq<Journey>, n: nat, now: int, slots: seq<Departure>)
    requires n < |js| && Eligible(js[n], now) && |FreshOnes(js, n, now)| <= SLOTS_PER_STREAM
    requires slots == Padded(AsDepartures(FreshOnes(js, n, now)))
    ensures Fresh(js, n, now) <==>
      !exists k | 0 <= k < |FreshOnes(js, n, now)| :: Minute(slots[k].when) == Minute(When(js[n]))
  {
    var fs := FreshOnes(js, n, now);
    SeenIsKept(js, n, now, Minute(When(js[n])));
    assert forall k | 0 <= k < |fs| :: slots[k] == AsDeparture(fs[k]);
    assert Fresh(js, n, now) <==> !SeenMinute(js, n, now, Minute(When(js[n])));
  }

  // ---------------------------------------------------------------- theorems

  // The kept journeys are all upcoming and pairwise in different minutes.
  lemma {:induction false} FreshAreDistinct(js: seq<Journey>, n: nat, now: int)
    requires n <= |js|
    ensures var fs := FreshOnes(js, n, now);
      && (forall i | 0 <= i < |fs| :: Eligible(fs[i], now))
      && (forall i, k | 0 <= i < k < |fs| :: Minute(When(fs[i])) != Minute(When(fs[k])))
  {
    if n > 0 {
      FreshAreDistinct(js, n - 1, now);
      var fs := FreshOnes(js, n - 1, now);
      SeenIsKept(js, n - 1, now, Minute(When(js[n - 1])));
      assert Fresh(js, n - 1, now) ==> !InMinute(fs, Minute(When(js[n - 1])));
    }
  }

  // A train that is not cancelled and leaves at t, in real time if that is known, and no
  // earlier than now.
  predicate Leaves(j: Journey, now: int, t: int) {
    j.hasStop && !j.cancelled && t == (if j.realTime != 0 then j.realTime else j.planTime) && t != 0 && t >= now
  }

  // Slot i is made of journey ks[i], the first of its minute to leave.
  ghost predicate MadeOf(js: seq<Journey>, k: nat, now: int, s: Departure)
    requires k < |js|
  {
    && Leaves(js[k], now, s.when) && s.valid && s.planned == 0 && s.lineLabel == LabelOf(js[k].name)
    && s.source == (if js[k].realTime != 0 then Realtime else Plan)
    && forall n, t | 0 <= n < k && Leaves(js[n], now, t) :: Minute(t) != Minute(s.when)
  }

  function FreshAt(js: seq<Journey>, n: nat, now: int): seq<nat>
    requires n <= |js|
  {
    if n == 0 then []
    else if Fresh(js, n - 1, now) then FreshAt(js, n - 1, now) + [n - 1]
    else FreshAt(js, n - 1, now)
  }

  lemma {:induction false} FreshAtIs(js: seq<Journey>, n: nat, now: int)
    requires n <= |js|
    ensures var ks, fs := FreshAt(js, n, now), FreshOnes(js, n, now);
      && |ks| == |fs| && (forall i, k | 0 <= i < k < |ks| :: ks[i] < ks[k])
      && forall i | 0 <= i < |ks| :: ks[i] < n && fs[i] == js[ks[i]] && Fresh(js, ks[i], now)
  {
    hide Fresh;
    if n > 0 {
      FreshAtIs(js, n - 1, now);
    }
  }

  // The slots of a good reply, in document order: each is the first train of its minute
  // among those that run and are still ahead, and every such train has its minute among
  // the slots or comes after three of them.
  lemma SlotsAreTheNextTrains(doc: Doc, js: seq<Journey>, now: int) returns (ks: seq<nat>)
    requires doc.err == "OK" && doc.res == Some(Some(js))
    ensures var slots := Outcome(doc, now).1;
      && |ks| == |slots| <= 3 && (forall i, k | 0 <= i < k < |ks| :: ks[i] < ks[k])
      && (forall i | 0 <= i < |ks| :: ks[i] < |js| && MadeOf(js, ks[i], now, slots[i]))
      && forall n, t | 0 <= n < |js| && Leaves(js[n], now, t) ::
           HasMinute(slots, Minute(t)) || (|ks| == 3 && forall i | 0 <= i < 3 :: ks[i] < n)
    ensures Outcome(doc, now).0 == ParseResult(true, ks != [], false)
  {
    var all, fs, slots := FreshAt(js, |js|, now), FreshOnes(js, |js|, now), Outcome(doc, now).1;
    FreshAtIs(js, |js|, now);
    ks := all[..|slots|];
    assert slots == AsDepartures(Firsts(fs));
    forall i | 0 <= i < |ks|
      ensures MadeOf(js, ks[i], now, slots[i])
    {
      assert Firsts(fs)[i] == fs[i] && Fresh(js, ks[i], now);
      FirstOfItsMinute(js, ks[i], now);
    }
    forall n, t | 0 <= n < |js| && Leaves(js[n], now, t)
      ensures HasMinute(slots, Minute(t)) || (|ks| == 3 && forall i | 0 <= i < 3 :: ks[i] < n)
    {
      var f := MinuteIsKept(js, n, now);
      if f < |slots| {
        assert slots[f] == AsDeparture(fs[f]);
      }
    }
  }

  lemma FirstOfItsMinute(js: seq<Journey>, k: nat, now: int)
    requires k < |js| && Fresh(js, k, now)
    ensures MadeOf(js, k, now, AsDeparture(js[k]))
  {
    forall n, t | 0 <= n < k && Leaves(js[n], now, t)
      ensures Minute(t) != Minute(When(js[k]))
    {
      assert Eligible(js[n], now) && t == When(js[n]);
    }
  }

  lemma MinuteIsKept(js: seq<Journey>, n: nat, now: int) returns (f: nat)
    requires n < |js| && Leaves(js[n], now, When(js[n]))
    ensures var all, fs := FreshAt(js, |js|, now), FreshOnes(js, |js|, now);
      f < |fs| == |all| && Minute(When(fs[f])) == Minute(When(js[n])) && all[f] <= n
  {
    var all, fs, m := FreshAt(js, |js|, now), FreshOnes(js, |js|, now), Minute(When(js[n]));
    FreshAtIs(js, |js|, now);
    assert Eligible(js[n], now);
    SeenIsKept(js, |js|, now, m);
    f :| 0 <= f < |fs| && Minute(When(fs[f])) == m;
    assert Fresh(js, all[f], now);
  }

  // What the flags of a reply mean, and that no other reply fills a slot.
  lemma FlagsOfReply(doc: Doc, now: int)
    ensures var (r, slots) := Outcome(doc, now);
      && (r.authErrorSeen <==> doc.err in {"AID", "AUTH"})
      && (r.endpointResponded <==> doc.err == "OK" && doc.res.Some?)
      && (r.filterMatched <==> slots != [])
      && (slots != [] ==> doc.err == "OK" && doc.res.Some? && doc.res.value.Some?)
  {
  }

  predicate DistinctMinutes(cs: seq<Departure>) {
    forall i, k | 0 <= i < k < |cs| :: Minute(cs[i].when) != Minute(cs[k].when)
  }

  lemma KeptAreOffers(js: seq<Journey>, now: int)
    ensures DistinctMinutes(Kept(js, now))
    ensures forall c | c in Kept(js, now) :: c.valid && c.when >= now
  {
    FreshAreDistinct(js, |js|, now);
    var fs := Firsts(FreshOnes(js, |js|, now));
    assert forall i | 0 <= i < |fs| :: fs[i] == FreshOnes(js, |js|, now)[i];
    assert forall i | 0 <= i < |fs| :: Kept(js, now)[i] == AsDeparture(fs[i]);
  }

  // Up to three offers in different minutes all stay: the fold only sorts them.
  lemma {:induction false} NothingLost(cs: seq<Departure>)
    requires |cs| <= SLOTS_PER_STREAM && DistinctMinutes(cs) && forall c | c in cs :: c.valid
    ensures multiset(Offered(cs)) == multiset(cs)
  {
    if cs != [] {
      var n := |cs| - 1;
      var pre, c := cs[..n], cs[n];
      assert cs == pre + [c];
      assert forall i | 0 <= i < n :: pre[i] == cs[i];
      NothingLost(pre);
      InsertAdds(Offered(pre), pre, c);
    }
  }

  lemma InsertAdds(l: seq<Departure>, pre: seq<Departure>, c: Departure)
    requires multiset(l) == multiset(pre) && |pre| < SLOTS_PER_STREAM && c.valid
    requires forall p | p in pre :: Minute(p.when) != Minute(c.when)
    ensures multiset(Insert(l, c)) == multiset(pre) + multiset{c}
  {
    assert |l| == |multiset(l)| == |multiset(pre)| == |pre|;
    forall i | 0 <= i < |l|
      ensures Minute(l[i].when) != Minute(c.when)
    {
      assert l[i] in multiset(l);
      assert l[i] in pre;
    }
    InsertByTimeAdds(l, c);
  }

  lemma {:induction false} InsertByTimeAdds(l: seq<Departure>, c: Departure)
    ensures multiset(InsertByTime(l, c)) == multiset(l) + multiset{c}
  {
    if !(l == [] || c.when < l[0].when) {
      InsertByTimeAdds(l[1..], c);
      assert l == [l[0]] + l[1..];
    }
  }

  lemma {:induction false} LivePadding(kept: seq<Departure>, k: nat, now: int)
    requires |kept| <= SLOTS_PER_STREAM && k <= SLOTS_PER_STREAM
    requires forall c | c in kept :: c.valid && c.when >= now
    ensures LiveOffers(Padded(kept), k, now) == if k <= |kept| then kept[..k] else kept
  {
    if k > 0 {
      LivePadding(kept, k - 1, now);
      if k <= |kept| {
        assert kept[..k] == kept[..k - 1] + [kept[k - 1]];
        assert Padded(kept)[k - 1] == kept[k - 1] && kept[k - 1] in kept;
      }
    }
  }

  lemma {:induction false} NoHints(times: seq<int>, n: nat, now: int)
    requires n <= |times| && forall t | t in times :: t == 0
    ensures HintOffers(times, n, now) == []
  {
    if n > 0 {
      NoHints(times, n - 1, now);
      assert times[n - 1] in times;
    }
  }

  // What the parser kept reaches the board complete: without hints for the stream the
  // merge at the same time shows the kept departures, sorted, and loses none.
  lemma HafasSurvivesMerge(js: seq<Journey>, d: StreamData, h: ScheduleHint, useSchedule: bool, now: int)
    requires d.slot == Padded(Kept(js, now))
    requires HintShape(h) && (useSchedule ==> forall t | t in HintTimes(h) :: t == 0)
    ensures multiset(Offered(Offers(d, h, useSchedule, now))) == multiset(Kept(js, now))
    ensures SlotList(Offered(Offers(d, h, useSchedule, now)))
  {
    var kept := Kept(js, now);
    KeptAreOffers(js, now);
    LivePadding(kept, SLOTS_PER_STREAM, now);
    if useSchedule {
      NoHints(HintTimes(h), |HintTimes(h)|, now);
    }
    assert kept[..|kept|] == kept;
    assert Offers(d, h, useSchedule, now) == kept;
    NothingLost(kept);
    OfferedIsBest(kept);
  }
}
