/** renderAndPush (src/logic/cycle_runner.cpp) with applyDisplayDecision
    (src/logic/display_apply.cpp): diff against the stored frame, refresh, save. */
module Push {
  import opened Bytes
  import opened Meta
  import opened Planner
  import opened Display
  import opened Store

  // The device as far as frames are concerned: RTC memory, the metadata in RAM and what
  // the glass shows.
  datatype Dev = Dev(rtc: Rtc, ram: PersistedMeta, glass: Picture)

  // Writes the "updated at" stamp into a frame; an arbitrary drawing routine.
  type Stamp = (Frame, int) -> Frame

  datatype PushIn = PushIn(rendered: Frame, now: int, force: bool, deepWake: bool)

  // ---------------------------------------------------------------- counters

  function Applied(m: PersistedMeta, kind: RefreshKind, now: int): PersistedMeta {
    match kind
    case None => m
    case Partial => m.(partialCount := (m.partialCount + 1) % UINT16)
    case LightFull => m.(lastLightFull := now, partialCount := 0)
    case DeepClean => m.(lastDeepClean := now, lastLightFull := now, partialCount := 0)
  }

  // How often the panel flashes for it.
  function Flashes(kind: RefreshKind): nat {
    match kind
    case None => 0
    case Partial => 0
    case LightFull => 1
    case DeepClean => 3
  }

  function Refreshed(g: Picture, d: RefreshDecision, fb: Frame): Picture {
    match d.kind
    case None => g
    case Partial => if Empty(d.bbox) then g else Windowed(g, fb, d.bbox)
    case LightFull => Glass(fb)
    case DeepClean => Glass(fb)
  }

  // ---------------------------------------------------------------- one push

  // A previous frame to diff against: valid in RAM, live in RTC memory, and decodable.
  predicate HavePrev(d: Dev) {
    d.ram.framebufferValid && Live(d.rtc) && HoldsFrame(d.rtc.slot)
  }

  function PlanFor(d: Dev, curr: Frame, i: PushIn): RefreshDecision {
    Plan(if HavePrev(d) then SlotFrame(d.rtc.slot) else curr, curr, HavePrev(d), i.now, d.ram.lastLightFull,
         d.ram.partialCount, DEFAULT_REFRESH, i.deepWake)
  }

  // The frame with the old stamp (or the new one, when forced), and whether it is
  // stamped again because a refresh will reach the panel.
  function FirstFrame(d: Dev, i: PushIn, stamp: Stamp): Frame {
    stamp(i.rendered, if i.force then i.now else d.ram.lastDisplayUpdate)
  }

  predicate Restamps(d: Dev, i: PushIn, stamp: Stamp) {
    !i.force && PlanFor(d, FirstFrame(d, i, stamp), i).kind != None
  }

  function FinalFrame(d: Dev, i: PushIn, stamp: Stamp): Frame {
    if Restamps(d, i, stamp) then stamp(FirstFrame(d, i, stamp), i.now) else FirstFrame(d, i, stamp)
  }

  function Decision(d: Dev, i: PushIn, stamp: Stamp): RefreshDecision {
    PlanFor(d, FinalFrame(d, i, stamp), i)
  }

  function Pushed(d: Dev, i: PushIn, stamp: Stamp): Dev {
    var fb, dec := FinalFrame(d, i, stamp), Decision(d, i, stamp);
    var m := if i.force || Restamps(d, i, stamp) then d.ram.(lastDisplayUpdate := i.now) else d.ram;
    Dev(SavedFrame(d.rtc, fb), Applied(m, dec.kind, i.now).(framebufferValid := Fits(fb)), Refreshed(d.glass, dec, fb))
  }

  // ---------------------------------------------------------------- the invariant

  // While either copy of the metadata calls the stored frame valid, a stored frame that
  // decodes to a whole frame is what the glass shows.
  ghost predicate Mirrors(d: Dev) {
    (d.ram.framebufferValid || Live(d.rtc)) && HoldsFrame(d.rtc.slot) ==> d.glass == Glass(SlotFrame(d.rtc.slot))
  }

  // A store just saved with the frame on the glass mirrors it, fitting or not.
  lemma SavedMirrors(rtc: Rtc, ram: PersistedMeta, fb: Frame)
    ensures Mirrors(Dev(SavedFrame(rtc, fb), ram, Glass(fb)))
  {
    SaveThenLoad(rtc, fb);
  }

  // Whatever the decision, the refresh leaves exactly the new frame on the glass.
  lemma RefreshShowsFrame(d: Dev, curr: Frame, i: PushIn)
    requires Mirrors(d)
    ensures Refreshed(d.glass, PlanFor(d, curr, i), curr) == Glass(curr)
  {
    if HavePrev(d) {
      var prev := SlotFrame(d.rtc.slot);
      if prev != curr {
        PartialIsEnough(prev, curr);
      }
    }
  }

  // A planned window is always a legal one for the panel.
  lemma PlannedWindow(d: Dev, curr: Frame, i: PushIn)
    ensures PlanFor(d, curr, i).kind == Partial ==> Window(PlanFor(d, curr, i).bbox)
  {
    if HavePrev(d) && SlotFrame(d.rtc.slot) != curr {
      PartialIsEnough(SlotFrame(d.rtc.slot), curr);
    }
  }

  lemma PushKeepsMirror(d: Dev, i: PushIn, stamp: Stamp)
    requires Mirrors(d)
    ensures Pushed(d, i, stamp).glass == Glass(FinalFrame(d, i, stamp))
    ensures Mirrors(Pushed(d, i, stamp))
  {
    RefreshShowsFrame(d, FinalFrame(d, i, stamp), i);
    SavedMirrors(d.rtc, Pushed(d, i, stamp).ram, FinalFrame(d, i, stamp));
  }

  // A drawn stamp replaces the one before it; at time 0 nothing is drawn.
  ghost predicate Overwrites(stamp: Stamp) {
    && (forall f: Frame :: stamp(f, 0) == f)
    && forall f: Frame, a: int, b: int | b != 0 :: stamp(stamp(f, a), b) == stamp(f, b)
  }

  // The glass holds the frame that f makes under the stamp of the time in the metadata.
  ghost predicate ShowsStamped(d: Dev, f: Frame, stamp: Stamp) {
    d.glass == Glass(stamp(f, d.ram.lastDisplayUpdate))
  }

  // The rendered picture and the stamp agree with the metadata: the time shown is that of
  // this push if it was forced or had anything to change, else that of the frame still up.
  // On a clock at 0 an unforced push stamps nothing over the old time.
  lemma PushStamps(d: Dev, i: PushIn, stamp: Stamp)
    requires Mirrors(d) && Overwrites(stamp)
    ensures var a, was := Pushed(d, i, stamp), d.ram.lastDisplayUpdate;
      var same := HavePrev(d) && SlotFrame(d.rtc.slot) == stamp(i.rendered, was);
      && a.ram.lastDisplayUpdate == (if i.force || !same then i.now else was)
      && (i.force || i.now != 0 ==> ShowsStamped(a, i.rendered, stamp))
      && (!i.force && i.now == 0 ==> a.glass == Glass(stamp(i.rendered, was)))
      && (!i.force && same ==> a.glass == d.glass)
  {
    hide Glass, HoldsFrame, SlotFrame;
    PushKeepsMirror(d, i, stamp);
    NoneIffUnchanged(d, stamp(i.rendered, d.ram.lastDisplayUpdate), i);
  }

  lemma FinalIsStamped(d: Dev, i: PushIn, stamp: Stamp)
    requires Overwrites(stamp) && (i.force || i.now != 0)
    ensures FinalFrame(d, i, stamp) == stamp(i.rendered, Pushed(d, i, stamp).ram.lastDisplayUpdate)
  {
    hide Glass, PlanFor, SavedFrame, Refreshed, Fits;
  }

  // After a push both copies of the flag say whether its frame fitted, and so whether the
  // next push finds it.
  lemma PushStores(d: Dev, i: PushIn, stamp: Stamp)
    requires Overwrites(stamp) && (i.force || i.now != 0)
    ensures var a := Pushed(d, i, stamp);
      var fb := stamp(i.rendered, a.ram.lastDisplayUpdate);
      && a.ram.framebufferValid == a.rtc.meta.framebufferValid == HavePrev(a) == Fits(fb)
      && (HavePrev(a) ==> SlotFrame(a.rtc.slot) == fb)
  {
    hide Glass, Decision, FinalFrame, Restamps, Refreshed, Applied, HoldsFrame, SlotFrame;
    FinalIsStamped(d, i, stamp);
    SaveThenLoad(d.rtc, FinalFrame(d, i, stamp));
  }

  // A frame that either copy of the metadata calls invalid, that RTC memory lost, or that
  // was never stored, is not diffed against: whatever comes is drawn whole.
  lemma NoFrameMeansFull(d: Dev, curr: Frame, i: PushIn)
    requires !d.ram.framebufferValid || !d.rtc.magic || !d.rtc.meta.framebufferValid || d.rtc.slot == []
    ensures PlanFor(d, curr, i).kind == LightFull
  {
  }

  // So the same picture pushed again, whatever the clock says by then, changes nothing at
  // all: not the glass, not the counters, not the store.
  lemma PushAgainIsQuiet(d: Dev, i: PushIn, again: PushIn, stamp: Stamp)
    requires Overwrites(stamp) && (i.force || i.now != 0)
    requires again.rendered == i.rendered && !again.force
    requires Fits(stamp(i.rendered, Pushed(d, i, stamp).ram.lastDisplayUpdate))
    ensures Pushed(Pushed(d, i, stamp), again, stamp) == Pushed(d, i, stamp)
    ensures PlanFor(Pushed(d, i, stamp), stamp(i.rendered, Pushed(d, i, stamp).ram.lastDisplayUpdate), again).kind == None
  {
    var a := Pushed(d, i, stamp);
    assert a.rtc == SavedFrame(d.rtc, FinalFrame(d, i, stamp));
    hide Pushed, PlanFor, FinalFrame, SavedFrame, HoldsFrame, SlotFrame;
    PushStores(d, i, stamp);
    FinalIsStamped(d, i, stamp);
    NoneIffUnchanged(a, stamp(i.rendered, a.ram.lastDisplayUpdate), again);
    QuietPush(a, d.rtc, again, stamp);
  }

  lemma QuietPush(d: Dev, before: Rtc, i: PushIn, stamp: Stamp)
    requires var fb := stamp(i.rendered, d.ram.lastDisplayUpdate);
      !i.force && PlanFor(d, fb, i).kind == None && d.rtc == SavedFrame(before, fb) && d.ram.framebufferValid == Fits(fb)
    ensures Pushed(d, i, stamp) == d
  {
    hide Glass, PlanFor, Fits;
  }

  // An unchanged valid frame never touches the panel; anything else always does.
  lemma NoneIffUnchanged(d: Dev, curr: Frame, i: PushIn)
    ensures PlanFor(d, curr, i).kind == None <==> HavePrev(d) && SlotFrame(d.rtc.slot) == curr
    ensures PlanFor(d, curr, i).kind == Partial <==>
      && HavePrev(d) && SlotFrame(d.rtc.slot) != curr && !i.deepWake
      && d.ram.lastLightFull != 0 && i.now - d.ram.lastLightFull < 3600 && d.ram.partialCount < 15
    ensures PlanFor(d, curr, i).kind != DeepClean
  {
    if HavePrev(d) && SlotFrame(d.rtc.slot) != curr {
      PartialIsEnough(SlotFrame(d.rtc.slot), curr);
    }
  }

  // ---------------------------------------------------------------- the code

  class Device {
    const store: RtcStore
    const panel: Panel
    const curr: array<byte>
    const prev: array<byte>
    var meta: PersistedMeta

    ghost predicate Valid()
      reads this, store
    {
      && store.Valid() && panel.Valid()
      && curr.Length == BYTES && prev.Length == BYTES
      && curr != prev && store.rle != curr && store.rle != prev
    }

    ghost function Value(): Dev
      requires Valid()
      reads this, store, store.rle, panel.pix
    {
      Dev(store.Value(), meta, panel.Shown())
    }

    // Every object a cycle may write.
    ghost function Repr(): set<object> {
      {this, store, store.rle, panel, panel.pix, curr, prev}
    }

    constructor ()
      ensures Valid() && fresh(store) && fresh(store.rle) && fresh(panel) && fresh(panel.pix) && fresh(curr) && fresh(prev)
      ensures Value().rtc == POWER_ON && meta == FRESH_META
    {
      store := new RtcStore();
      panel := new Panel();
      curr := new byte[BYTES](_ => 0);
      prev := new byte[BYTES](_ => 0);
      meta := FRESH_META;
    }

    // The renderer, and the stamp, fill the current frame.
    method Draw(fb: Frame)
      requires Valid()
      modifies curr
      ensures curr[..] == fb && Valid() && Value() == old(Value())
    {
      for k := 0 to BYTES
        invariant forall j | 0 <= j < k :: curr[j] == fb[j]
      {
        curr[k] := fb[k];
      }
    }

    method ApplyDisplayDecision(d: RefreshDecision, now: int)
      requires Valid() && (d.kind == Partial && !Empty(d.bbox) ==> Window(d.bbox))
      modifies this, panel, panel.pix
      ensures Valid() && Value().rtc == old(Value().rtc)
      ensures meta == Applied(old(meta), d.kind, now)
      ensures panel.Shown() == Refreshed(old(panel.Shown()), d, curr[..]) && panel.flashes == old(panel.flashes) + Flashes(d.kind)
    {
      match d.kind {
        case None =>
        case Partial =>
          panel.DrawPartial(curr[..], d.bbox);
          meta := meta.(partialCount := (meta.partialCount + 1) % UINT16);
        case LightFull =>
          panel.LightFull(curr[..]);
          meta := meta.(lastLightFull := now, partialCount := 0);
        case DeepClean =>
          panel.DeepClean(curr[..]);
          meta := meta.(lastDeepClean := now, lastLightFull := now, partialCount := 0);
      }
    }

    method LoadPrev() returns (prevValid: bool)
      requires Valid()
      modifies prev
      ensures Valid() && Value() == old(Value()) && curr[..] == old(curr[..])
      ensures prevValid == HavePrev(Value()) && (prevValid ==> prev[..] == SlotFrame(Value().rtc.slot))
    {
      prevValid := meta.framebufferValid;
      if prevValid {
        var n := store.LoadFramebuffer(prev);
        prevValid := n == BYTES;
      }
    }

    method PlanCurrent(prevValid: bool, i: PushIn) returns (dec: RefreshDecision)
      requires Valid() && prevValid == HavePrev(Value()) && (prevValid ==> prev[..] == SlotFrame(Value().rtc.slot))
      ensures dec == PlanFor(Value(), curr[..], i)
    {
      dec := PlanRefresh(prev[..], curr[..], prevValid, i.now, meta.lastLightFull, meta.partialCount, DEFAULT_REFRESH,
                         i.deepWake);
    }

    // The rest of a push once the final frame is drawn and stamped.
    method ApplyAndSave(dec: RefreshDecision, now: int)
      requires Valid() && (dec.kind == Partial && !Empty(dec.bbox) ==> Window(dec.bbox))
      modifies this, store, store.rle, panel, panel.pix
      ensures Valid() && curr[..] == old(curr[..])
      ensures Value() == Dev(SavedFrame(old(Value().rtc), curr[..]),
                             Applied(old(meta), dec.kind, now).(framebufferValid := Fits(curr[..])),
                             Refreshed(old(panel.Shown()), dec, curr[..]))
      ensures panel.flashes == old(panel.flashes) + Flashes(dec.kind)
    {
      ApplyDisplayDecision(dec, now);
      var saved := store.SaveFramebuffer(curr[..]);
      meta := meta.(framebufferValid := saved);
    }

    method RenderAndPush(i: PushIn, stamp: Stamp)
      requires Valid()
      modifies Repr()
      ensures Valid() && Value() == Pushed(old(Value()), i, stamp)
      ensures curr[..] == FinalFrame(old(Value()), i, stamp)
      ensures panel.flashes == old(panel.flashes) + Flashes(Decision(old(Value()), i, stamp).kind)
    {
      hide Plan, Refreshed, Applied, Fits, HoldsFrame, SlotFrame, Glass;
      ghost var d := Value();
      Draw(i.rendered);
      Draw(stamp(curr[..], if i.force then i.now else meta.lastDisplayUpdate));
      if i.force {
        meta := meta.(lastDisplayUpdate := i.now);
      }
      var prevValid := LoadPrev();
      var dec := PlanCurrent(prevValid, i);
      assert dec == PlanFor(d, FirstFrame(d, i, stamp), i);
      if !i.force && dec.kind != None {
        Draw(stamp(curr[..], i.now));
        meta := meta.(lastDisplayUpdate := i.now);
        dec := PlanCurrent(prevValid, i);
      }
      PlannedWindow(d, FinalFrame(d, i, stamp), i);
      assert dec == Decision(d, i, stamp);
      ApplyAndSave(dec, i.now);
    }
  }
}
