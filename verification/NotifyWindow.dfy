/** Where a queue notification is written: the address computed in 64-bit arithmetic, the range checks, and the
    mapping. */
module NotifyWindow {
  import opened Bits
  import opened Words
  import opened Wrappers
  import Caps = VirtioCaps

  const NOTIFY_BYTES: nat := 2

  /** A part of a region that may be mapped. The two subtractions cannot wrap where they are evaluated. */
  datatype MmapArea = MmapArea(offset: Word64, size: Word64) {
    predicate Contains(rangeOffset: Word64, rangeSize: Word64) {
      && rangeOffset >= offset
      && rangeOffset - offset <= size
      && rangeSize <= size - (rangeOffset - offset)
    }
  }

  ghost predicate Within(b: nat, start: nat, size: nat) {
    start <= b < start + size
  }

  /** `Contains` is inclusion of intervals of numbers, whatever the offsets and sizes. */
  lemma ContainsIsInclusion(a: MmapArea, rangeOffset: Word64, rangeSize: Word64)
    ensures a.Contains(rangeOffset, rangeSize)
            <==> a.offset <= rangeOffset && rangeOffset + rangeSize <= a.offset + a.size
    ensures rangeSize > 0 ==>
              (a.Contains(rangeOffset, rangeSize)
               <==> forall b | Within(b, rangeOffset, rangeSize) :: Within(b, a.offset, a.size))
  {
    if rangeSize > 0 && !a.Contains(rangeOffset, rangeSize) {
      var first, last := rangeOffset, rangeOffset + rangeSize - 1;
      assert Within(first, rangeOffset, rangeSize) && Within(last, rangeOffset, rangeSize);
      assert !Within(first, a.offset, a.size) || !Within(last, a.offset, a.size);
    }
  }

  datatype Region = Region(size: Word64, offset: Word64, canMmap: bool, canWrite: bool, areas: seq<MmapArea>)

  datatype NotifyCap = NotifyCap(offset: Word64, length: Word64, multiplier: Word32)

  datatype Error =
    | NotPresent
    | NoMmap
    | NotWritable
    | PastRegion
    | OutsideNotifyCfg
    | OutsideSparseArea

  /** The mapping to make: its place in the device file, its size, and where in it the notification goes. */
  datatype Window = Window(barOffset: Word64, mappingDelta: Word64, mmapOffset: Word64, mappingSize: Word64)

  /** The address of the notification, as the sum the specification means. */
  function TrueOffset(cap: NotifyCap, queueNotifyOff: Word16): nat {
    cap.offset + queueNotifyOff * cap.multiplier
  }

  /** The address as computed. */
  function BarOffset(cap: NotifyCap, queueNotifyOff: Word16): Word64 {
    Add64(cap.offset, (queueNotifyOff * cap.multiplier) % 0x1_0000_0000_0000_0000)
  }

  predicate PastTheRegion(cap: NotifyCap, region: Region, bar: Word64) {
    Add64(bar, NOTIFY_BYTES) > region.size
  }

  predicate OutsideTheCap(cap: NotifyCap, bar: Word64) {
    bar < cap.offset || Add64(bar, NOTIFY_BYTES) > Add64(cap.offset, cap.length)
  }

  ghost predicate InSomeArea(areas: seq<MmapArea>, offset: Word64, size: Word64) {
    exists k :: 0 <= k < |areas| && areas[k].offset <= offset && offset + size <= areas[k].offset + areas[k].size
  }

  /** The checks that a notification has to pass. */
  ghost predicate Accepts(cap: NotifyCap, region: Region, queueNotifyOff: Word16) {
    var bar := BarOffset(cap, queueNotifyOff);
    && Usable(region) && !PastTheRegion(cap, region, bar) && !OutsideTheCap(cap, bar)
    && (region.areas == [] || InSomeArea(region.areas, bar, NOTIFY_BYTES))
  }

  /** Searches the sparse areas for one that holds the range. */
  method FindArea(areas: seq<MmapArea>, offset: Word64, size: Word64) returns (found: bool)
    ensures found <==> InSomeArea(areas, offset, size)
  {
    var k := 0;
    while k < |areas|
      invariant 0 <= k <= |areas|
      invariant forall j | 0 <= j < k ::
                  !(areas[j].offset <= offset && offset + size <= areas[j].offset + areas[j].size)
    {
      ContainsIsInclusion(areas[k], offset, size);
      if areas[k].Contains(offset, size) {
        return true;
      }
      k := k + 1;
    }
    return false;
  }

  /** The bytes of the notification lie inside the BAR and inside the NOTIFY_CFG structure. */
  ghost predicate InBounds(cap: NotifyCap, region: Region, at: nat) {
    at + NOTIFY_BYTES <= region.size && cap.offset <= at && at + NOTIFY_BYTES <= cap.offset + cap.length
  }

  ghost predicate Usable(region: Region) {
    region.size != 0 && region.canMmap && region.canWrite
  }

  /** The multiplication fits a word, and an address that passes the checks is the true one. */
  lemma AcceptedIsTrueOffset(cap: NotifyCap, region: Region, queueNotifyOff: Word16)
    ensures var bar := BarOffset(cap, queueNotifyOff);
            !OutsideTheCap(cap, bar) ==> bar == TrueOffset(cap, queueNotifyOff)
  {
    BarOffsetValue(cap, queueNotifyOff);
    hide BarOffset, TrueOffset;
  }

  lemma BarOffsetValue(cap: NotifyCap, queueNotifyOff: Word16)
    ensures var t := TrueOffset(cap, queueNotifyOff);
            && cap.offset <= t < cap.offset + 0x1_0000_0000_0000
            && BarOffset(cap, queueNotifyOff) == if t < 0x1_0000_0000_0000_0000 then t else t - 0x1_0000_0000_0000_0000
  {
    ProductFits(queueNotifyOff, cap.multiplier);
    SumValue(cap.offset, queueNotifyOff * cap.multiplier);
    hide Add64;
  }

  lemma SumValue(a: Word64, p: nat)
    requires p < 0x1_0000_0000_0000
    ensures p % 0x1_0000_0000_0000_0000 == p
    ensures Add64(a, p) == if a + p < 0x1_0000_0000_0000_0000 then a + p else a + p - 0x1_0000_0000_0000_0000
  {
  }

  lemma ProductFits(a: Word16, b: Word32)
    ensures 0 <= a * b < 0x1_0000_0000_0000
  {
    var rest: nat := 0x1_0000_0000 - b;
    MulIsNat(a, b);
    MulIsNat(a, rest);
    assert a * b + a * rest == a * 0x1_0000_0000;
  }

  lemma MulIsNat(a: nat, b: nat)
    ensures a * b >= 0
  {
  }

  /** An address that passes both checks is in bounds if and only if its end does not wrap. */
  lemma ChecksMeanInBounds(cap: NotifyCap, region: Region, queueNotifyOff: Word16)
    ensures var bar := BarOffset(cap, queueNotifyOff);
            !PastTheRegion(cap, region, bar) && !OutsideTheCap(cap, bar) ==>
              (InBounds(cap, region, TrueOffset(cap, queueNotifyOff)) <==> bar + NOTIFY_BYTES < 0x1_0000_0000_0000_0000)
  {
    AcceptedIsTrueOffset(cap, region, queueNotifyOff);
    hide BarOffset, TrueOffset;
  }

  /** Offset and length of a capability without the 64-bit extension fit 32 bits. */
  ghost predicate ShortCap(cap: NotifyCap) {
    cap.offset < 0x1_0000_0000 && cap.length < 0x1_0000_0000
  }

  /** For such a capability nothing wraps, and the checks are exact: they pass exactly for the addresses in bounds. */
  lemma ShortCapChecksExact(cap: NotifyCap, region: Region, queueNotifyOff: Word16)
    requires ShortCap(cap)
    ensures var bar := BarOffset(cap, queueNotifyOff);
            && bar == TrueOffset(cap, queueNotifyOff) < 0x2_0000_0000_0000
            && Add64(bar, NOTIFY_BYTES) == bar + NOTIFY_BYTES
            && Add64(cap.offset, cap.length) == cap.offset + cap.length
            && (!PastTheRegion(cap, region, bar) && !OutsideTheCap(cap, bar) <==> InBounds(cap, region, bar))
  {
    BarOffsetValue(cap, queueNotifyOff);
    hide BarOffset, TrueOffset;
  }

  /** A capability at the very end of the address space passes the checks, although its notification is outside every
      BAR. The walk of a configuration space can return it: as a capability padded to 24 bytes, whose multiplier becomes
      the high half of its offset. */
  lemma WrappedEndIsAccepted()
    ensures var es := [Caps.PaddedNotify(0xFFFF_FFFE, 1, 0xFFFF_FFFF)];
            Caps.Chain(es, 0x100)
            && Caps.Capabilities(Caps.PutAll(Caps.Header(0x40), es, Caps.NoLowBits, 0, 1))
               == Ok([Caps.Cap(Caps.NOTIFY_CFG, 0, 0xFFFF_FFFF_FFFF_FFFE, 1, 0xFFFF_FFFF)])
    ensures var cap := NotifyCap(0xFFFF_FFFF_FFFF_FFFE, 1, 0xFFFF_FFFF);
            var region := Region(0x1000, 0, true, true, []);
            var bar := BarOffset(cap, 0);
            !PastTheRegion(cap, region, bar) && !OutsideTheCap(cap, bar) && !InBounds(cap, region, TrueOffset(cap, 0))
  {
    hide Caps.Chain, Caps.Capabilities, Caps.PutAll, Caps.Header, Caps.PaddedNotify;
    Caps.PaddedNotifyIsMisread(0xFFFF_FFFE, 1, 0xFFFF_FFFF);
    WrappedEndPasses();
    hide PastTheRegion, OutsideTheCap, InBounds, BarOffset, TrueOffset;
  }

  lemma WrappedEndPasses()
    ensures var cap := NotifyCap(0xFFFF_FFFF_FFFF_FFFE, 1, 0xFFFF_FFFF);
            var region := Region(0x1000, 0, true, true, []);
            var bar := BarOffset(cap, 0);
            !PastTheRegion(cap, region, bar) && !OutsideTheCap(cap, bar) && !InBounds(cap, region, TrueOffset(cap, 0))
  {
  }

  /** `map_notify_window` up to the mapping itself. `pageSize` is a power of two. */
  method MapNotifyWindow(cap: NotifyCap, region: Region, queueNotifyOff: Word16, pageSize: Word64)
    returns (r: Result<Window, Error>)
    requires IsPow2(pageSize)
    ensures r.Ok? <==> Accepts(cap, region, queueNotifyOff)
    ensures r.Ok? ==> Usable(region)
    ensures r.Ok? ==> (region.areas != [] ==> InSomeArea(region.areas, r.value.barOffset, NOTIFY_BYTES))
    ensures r.Ok? ==> r.value.barOffset == TrueOffset(cap, queueNotifyOff)
    ensures r.Ok? && r.value.barOffset + NOTIFY_BYTES < 0x1_0000_0000_0000_0000 ==>
              InBounds(cap, region, r.value.barOffset)
    ensures ShortCap(cap) ==>
              (r.Ok? <==> Usable(region) && InBounds(cap, region, TrueOffset(cap, queueNotifyOff))
                          && (region.areas == []
                              || InSomeArea(region.areas, BarOffset(cap, queueNotifyOff), NOTIFY_BYTES)))
    ensures r.Ok? ==> MapsNotification(r.value, region, pageSize)
                      && r.value.mappingSize == r.value.mappingDelta + NOTIFY_BYTES
  {
    if region.size == 0 { return Err(NotPresent); }
    if !region.canMmap { return Err(NoMmap); }
    if !region.canWrite { return Err(NotWritable); }
    var bar := BarOffset(cap, queueNotifyOff);
    AcceptedIsTrueOffset(cap, region, queueNotifyOff);
    ChecksMeanInBounds(cap, region, queueNotifyOff);
    if ShortCap(cap) { ShortCapChecksExact(cap, region, queueNotifyOff); }
    hide BarOffset, TrueOffset;
    if PastTheRegion(cap, region, bar) { return Err(PastRegion); }
    if OutsideTheCap(cap, bar) { return Err(OutsideNotifyCfg); }
    if region.areas != [] {
      var found := FindArea(region.areas, bar, NOTIFY_BYTES);
      if !found { return Err(OutsideSparseArea); }
    }
    hide PastTheRegion, OutsideTheCap, InBounds, InSomeArea;
    var w := PageWindow(bar, region, pageSize);
    return Ok(w);
  }

  ghost predicate PageMultiple(v: nat, pageSize: Word64) {
    exists q: nat :: v == pageSize * q
  }

  /** The mapping starts at a page of the region, and the notification goes to the address computed. */
  ghost predicate MapsNotification(w: Window, region: Region, pageSize: Word64) {
    && w.mappingDelta < pageSize && w.mappingDelta <= w.barOffset
    && PageMultiple(w.barOffset - w.mappingDelta, pageSize)
    && w.mappingSize == Add64(w.mappingDelta, NOTIFY_BYTES)
    && w.mmapOffset == Add64(region.offset, w.barOffset - w.mappingDelta)
  }

  method PageWindow(bar: Word64, region: Region, pageSize: Word64) returns (w: Window)
    requires IsPow2(pageSize)
    ensures w.barOffset == bar && MapsNotification(w, region, pageSize)
    ensures w.mappingSize == w.mappingDelta + NOTIFY_BYTES
  {
    hide And, Not, Pow2, PageMultiple, Add64;
    ghost var k: nat :| pageSize == Pow2(k);
    PageMask(bar, pageSize, k);
    PageIsHalf(pageSize, k);
    var pageMask := pageSize - 1;
    var aligned := And(bar, Not(64, pageMask));
    var delta := bar - aligned;
    SmallSum(delta);
    w := Window(bar, delta, Add64(region.offset, aligned), Add64(delta, NOTIFY_BYTES));
  }

  /** A page is at most half of the address space. */
  lemma PageIsHalf(pageSize: Word64, k: nat)
    requires pageSize == Pow2(k)
    ensures pageSize <= 0x8000_0000_0000_0000
  {
    Pow2Words();
    if k >= 64 { Pow2Monotonic(64, k); }
    assert Pow2(64) == 2 * Pow2(63);
    if k < 64 { Pow2Monotonic(k, 63); }
    hide Pow2;
  }

  lemma SmallSum(delta: Word64)
    requires delta < 0x8000_0000_0000_0000
    ensures Add64(delta, NOTIFY_BYTES) == delta + NOTIFY_BYTES
  {
  }

  lemma PageMask(bar: Word64, pageSize: Word64, k: nat)
    requires pageSize == Pow2(k)
    ensures pageSize - 1 < Pow2(64)
    ensures var aligned := And(bar, Not(64, pageSize - 1));
            aligned <= bar < aligned + pageSize && PageMultiple(aligned, pageSize)
  {
    Pow2Words();
    if k > 64 { Pow2Monotonic(64, k); }
    AndHighMask(bar, k, 64);
    var q := HighPart(bar, k);
    assert bar - Low(bar, k) == pageSize * q;
  }
}
