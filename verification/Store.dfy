/** The RTC memory that survives deep sleep (src/hal/Esp32PersistentStore.cpp). */
module Store {
  import opened Bytes
  import opened Rle
  import opened Meta
  import opened Display

  const RLE_CAP: nat := 7168

  // g_magic, g_meta and the used part of g_rle.
  datatype Rtc = Rtc(magic: bool, meta: PersistedMeta, slot: seq<byte>)

  const POWER_ON := Rtc(false, FRESH_META, [])

  // The frame in the slot, if the slot decodes to a whole one.
  predicate HoldsFrame(slot: seq<byte>) {
    slot != [] && Accepts(slot, BYTES) && |Expand(slot)| == BYTES
  }

  function SlotFrame(slot: seq<byte>): Frame
    requires HoldsFrame(slot)
  {
    Integrate(Expand(slot), STRIDE)
  }

  // Whether the stored frame counts at all.
  predicate Live(r: Rtc) {
    r.magic && r.meta.framebufferValid
  }

  function LoadedMeta(r: Rtc): PersistedMeta {
    if r.magic then r.meta else FRESH_META
  }

  function SavedMeta(r: Rtc, m: PersistedMeta): Rtc {
    Rtc(true, m, r.slot)
  }

  predicate Fits(fb: Frame) {
    |Encode(Delta(fb, STRIDE))| <= RLE_CAP
  }

  function SavedFrame(r: Rtc, fb: Frame): Rtc {
    Rtc(true, r.meta.(framebufferValid := Fits(fb)), if Fits(fb) then Encode(Delta(fb, STRIDE)) else [])
  }

  // A saved frame reads back bit for bit, or, if it did not fit, not at all.
  lemma SaveThenLoad(r: Rtc, fb: Frame)
    ensures HoldsFrame(SavedFrame(r, fb).slot) <==> Fits(fb)
    ensures Fits(fb) ==> SlotFrame(SavedFrame(r, fb).slot) == fb && Live(SavedFrame(r, fb))
  {
    RoundTrip(fb, STRIDE);
  }

  // Some frames do fit: the blank one.
  function Blank(): Frame {
    seq(BYTES, _ => 0)
  }

  lemma BlankFits()
    ensures Fits(Blank())
  {
    var d := Delta(Blank(), STRIDE);
    forall k | 0 <= k < |d|
      ensures d[k] == 0
    {
      XorZero(0, 0);
    }
    ConstantCost(d, 0);
  }

  // The slot takes a frame exactly if some code of its row delta has at most 7168 bytes.
  lemma FitsIff(fb: Frame)
    ensures Fits(fb) <==> exists p :: CodesFor(p, Delta(fb, STRIDE)) && |p| <= 7168
  {
    FitsIffSomeCodeFits(Delta(fb, STRIDE), RLE_CAP);
  }

  // What the row delta is for: a frame of equal rows, however ragged, always fits.
  lemma EqualRowsFit(fb: Frame)
    requires forall k | STRIDE <= k < BYTES :: fb[k] == fb[k - STRIDE]
    ensures Fits(fb)
  {
    var d := Delta(fb, STRIDE);
    forall k | STRIDE <= k < |d|
      ensures d[k] == 0
    {
      XorZero(fb[k], fb[k - STRIDE]);
    }
    HeadCost(d, STRIDE);
    ConstantCost(d, STRIDE);
  }

  class RtcStore {
    var magic: bool
    var meta: PersistedMeta
    const rle: array<byte>
    var rleLen: nat

    ghost predicate Valid()
      reads this
    {
      rle.Length == RLE_CAP
    }

    ghost function Value(): Rtc
      requires Valid()
      reads this, rle
    {
      Rtc(magic, meta, if rleLen <= RLE_CAP then rle[..rleLen] else [])
    }

    constructor ()
      ensures Valid() && fresh(rle) && Value() == POWER_ON
    {
      magic := false;
      meta := FRESH_META;
      rle := new byte[RLE_CAP](_ => 0);
      rleLen := 0;
    }

    method LoadMeta() returns (m: PersistedMeta)
      requires Valid()
      ensures m == LoadedMeta(Value())
    {
      if !magic {
        return FRESH_META;
      }
      return meta;
    }

    method SaveMeta(m: PersistedMeta)
      requires Valid()
      modifies this
      ensures Valid() && Value() == SavedMeta(old(Value()), m)
    {
      meta := m;
      magic := true;
    }

    method LoadFramebuffer(out: array<byte>) returns (n: nat)
      requires Valid() && out.Length == BYTES && out != rle
      modifies out
      ensures n == BYTES <==> Live(Value()) && HoldsFrame(Value().slot)
      ensures n == BYTES ==> out[..] == SlotFrame(Value().slot)
      ensures Value() == old(Value())
    {
      if !magic || !meta.framebufferValid {
        return 0;
      }
      if rleLen == 0 || rleLen > RLE_CAP {
        return 0;
      }
      n := RleDecodeDelta(rle[..rleLen], STRIDE, out);
      assert out[..BYTES] == out[..];
    }

    method SaveFramebuffer(fb: Frame) returns (saved: bool)
      requires Valid()
      modifies this, rle
      ensures Valid() && saved == Fits(fb) && Value() == SavedFrame(old(Value()), fb)
    {
      var n := RleEncodeDelta(fb, STRIDE, rle);
      EncodeNotEmpty(Delta(fb, STRIDE));
      if n == 0 {
        rleLen := 0;
        meta := meta.(framebufferValid := false);
        magic := true;
        return false;
      }
      rleLen := n;
      meta := meta.(framebufferValid := true);
      magic := true;
      return true;
    }
  }

  lemma EncodeNotEmpty(s: seq<byte>)
    requires s != []
    ensures Encode(s) != []
  {
  }
}
