/** Where the three rings of a split virtqueue lie in one buffer. */
module VringLayout {
  import opened Bits
  import opened Words
  import opened Wrappers

  datatype Error =
    | BadAlignment
    | SizeOverflow
    | ZeroQueue
    | BadQueueSize
    | QueueUnavailable
    | SizeOutOfRange

  const SIZE_MAX: Word64 := 0xFFFF_FFFF_FFFF_FFFF

  const DESC_SIZE: nat := 16
  const USED_ELEM_SIZE: nat := 8

  predicate IsPowerOfTwo(v: Word64) {
    v != 0 && And(v, v - 1) == 0
  }

  /** The smallest multiple of `align` not below `v`, computed with a mask. */
  function AlignUp(v: Word64, align: Word64): Result<Word64, Error> {
    if !IsPowerOfTwo(align) then Err(BadAlignment)
    else if v > SIZE_MAX - (align - 1) then Err(SizeOverflow)
    else
      Ok(Masked(v + align - 1, align))
  }

  /** `v & ~(align - 1)`. */
  function Masked(v: Word64, align: Word64): Word64
    requires align > 0
  {
    MaskFits(v, align);
    And(v, Not(64, align - 1))
  }

  lemma MaskFits(v: Word64, align: Word64)
    requires align > 0
    ensures align - 1 < Pow2(64) && And(v, Not(64, align - 1)) <= v
  {
    Pow2Words();
    AndIsSmaller(v, Pow2(64) - align);
    hide Pow2;
  }

  lemma {:induction false} AndIsSmaller(a: nat, b: nat)
    ensures And(a, b) <= a
    decreases a
  {
    if a != 0 && b != 0 { AndIsSmaller(a / 2, b / 2); }
  }

  // ----- align_up -----

  ghost predicate Multiple(m: nat, d: nat) {
    exists q: nat :: m == d * q
  }

  ghost predicate LeastMultipleFrom(r: nat, v: nat, d: nat) {
    v <= r && Multiple(r, d) && forall m: nat | v <= m && Multiple(m, d) :: r <= m
  }

  /** Rounding up with a mask yields the least multiple, and fails exactly when the alignment is not a power of two or
      no multiple from `v` on fits a word. */
  lemma AlignUpIsLeastMultiple(v: Word64, align: Word64)
    ensures AlignUp(v, align) == Err(BadAlignment) <==> !IsPow2(align)
    ensures AlignUp(v, align) == Err(SizeOverflow) <==>
              IsPow2(align) && forall m: nat | v <= m && Multiple(m, align) :: m > SIZE_MAX
    ensures AlignUp(v, align).Ok? || AlignUp(v, align).error in {BadAlignment, SizeOverflow}
    ensures AlignUp(v, align).Ok? ==> LeastMultipleFrom(AlignUp(v, align).value, v, align)
  {
    if align == 0 {
      NotZero();
    } else {
      PowerOfTwoTest(align);
      if IsPow2(align) {
        var k: nat :| align == Pow2(k);
        if v <= SIZE_MAX - (align - 1) {
          MaskRoundsUp(v, align, k);
          assert AlignUp(v, align).value <= SIZE_MAX;
        } else {
          forall m: nat | v <= m && Multiple(m, align) ensures m > SIZE_MAX {
            NoMultipleFits(v, align, k, m);
          }
        }
      }
    }
  }

  lemma NotZero()
    ensures !IsPow2(0)
  {
    forall k: nat ensures 0 != Pow2(k) {}
  }

  lemma ExponentBound(align: Word64, k: nat)
    requires align == Pow2(k)
    ensures k < 64
  {
    if k >= 64 {
      Pow2Words();
      Pow2Monotonic(64, k);
    }
  }

  lemma MaskRoundsUp(v: Word64, align: Word64, k: nat)
    requires align == Pow2(k) && v <= SIZE_MAX - (align - 1)
    ensures align - 1 < Pow2(64)
    ensures LeastMultipleFrom(And(v + align - 1, Not(64, align - 1)), v, align)
  {
    var w := v + align - 1;
    Pow2Words();
    ExponentBound(align, k);
    AndHighMask(w, k, 64);
    var q := HighPart(w, k);
    var r := w - Low(w, k);
    hide And, Not, Low, Pow2;
    assert r == align * q;
    LeastOfQuotient(v, align, q, r);
  }

  lemma LeastOfQuotient(v: nat, d: nat, q: nat, r: nat)
    requires r == d * q && v <= r < v + d
    ensures LeastMultipleFrom(r, v, d)
  {
    forall m: nat | v <= m && Multiple(m, d) ensures r <= m {
      var p: nat :| m == d * p;
      if p < q { NextMultiple(d, p, q); }
    }
    assert Multiple(r, d);
  }

  lemma NextMultiple(d: nat, p: nat, q: nat)
    requires p < q
    ensures d * p + d <= d * q
  {
    assert d * q == d * p + d * (q - p);
    if d > 0 { MultipleBeyond(d, q - p); }
  }

  /** 2^64 is itself a multiple, so the next one below it is too small. */
  lemma NoMultipleFits(v: Word64, align: Word64, k: nat, m: nat)
    requires align == Pow2(k) && v > SIZE_MAX - (align - 1) && v <= m && Multiple(m, align)
    ensures m > SIZE_MAX
  {
    Pow2Words();
    ExponentBound(align, k);
    Pow2Add(k, 64 - k);
    var q: nat :| m == align * q;
    var all := Pow2(64 - k);
    assert align * all == 0x1_0000_0000_0000_0000;
    if q < all { NextMultiple(align, q, all); }
    else if q > all { NextMultiple(align, all, q); }
  }

  // ----- the layout -----

  datatype Layout = Layout(
    queueSize: Word16,
    align: Word64,
    descOffset: Word64, descSize: Word64,
    availOffset: Word64, availSize: Word64,
    usedOffset: Word64, usedSize: Word64,
    totalSize: Word64)

  function ComputeVringLayout(queueSize: Word16, align: Word64): Result<Layout, Error> {
    if queueSize == 0 then Err(ZeroQueue)
    else if !IsPowerOfTwo(queueSize) then Err(BadQueueSize)
    else
      var descSize := DESC_SIZE * queueSize;
      var availOffset := Add64(0, descSize);
      var availSize := 2 * (3 + queueSize);
      match AlignUp(Add64(availOffset, availSize), align)
      case Err(e) => Err(e)
      case Ok(usedOffset) =>
        var usedSize := 2 * 3 + USED_ELEM_SIZE * queueSize;
        Ok(Layout(queueSize, align, 0, descSize, availOffset, availSize, usedOffset, usedSize,
                  Add64(usedOffset, usedSize)))
  }

  function RoundUpToPage(size: Word64, pageSize: Word64): Result<Word64, Error> {
    AlignUp(size, pageSize)
  }

  function ChooseQueueSize(deviceSize: Word16, requested: Option<Word16>): Result<Word16, Error> {
    if deviceSize == 0 then Err(QueueUnavailable)
    else
      var chosen := if requested.Some? then requested.value else deviceSize;
      if chosen == 0 || chosen > deviceSize then Err(SizeOutOfRange)
      else if !IsPowerOfTwo(chosen) then Err(BadQueueSize)
      else Ok(chosen)
  }

  /** A chosen size is a power of two that the device allows, and the layout accepts it: with the alignment the command
      line lets through, bringing the queue up never fails on sizes. */
  lemma ChosenSizeHasLayout(deviceSize: Word16, requested: Option<Word16>, align: Word64)
    requires IsPow2(align)
    ensures var chosen := ChooseQueueSize(deviceSize, requested);
            && (chosen.Ok? <==> var c := if requested.Some? then requested.value else deviceSize;
                                0 < c <= deviceSize && IsPow2(c))
            && (chosen.Ok? ==>
                  && chosen.value == (if requested.Some? then requested.value else deviceSize) <= deviceSize
                  && ComputeVringLayout(chosen.value, align).Ok?
                  && ComputeVringLayout(chosen.value, align).value.queueSize == chosen.value)
  {
    var c := if requested.Some? then requested.value else deviceSize;
    if c != 0 {
      PowerOfTwoTest(c);
      if IsPow2(c) { LayoutSucceeds(c, align); }
    }
  }

  /** The sizes add up without wrapping, and the layout exists for every power-of-two queue and alignment. */
  lemma LayoutSucceeds(queueSize: Word16, align: Word64)
    ensures ComputeVringLayout(queueSize, align).Ok? <==> IsPow2(queueSize) && IsPow2(align)
    ensures ComputeVringLayout(queueSize, align).Ok? ==>
              var l := ComputeVringLayout(queueSize, align).value;
              && LeastMultipleFrom(l.usedOffset, 18 * queueSize + 6, align)
              && l.totalSize == l.usedOffset + l.usedSize
              && l.totalSize <= 0x8000_0000_0010_0000
  {
    hide And, AlignUp, ComputeVringLayout, Multiple, IsPow2, LeastMultipleFrom;
    NotZero();
    if queueSize != 0 { PowerOfTwoTest(queueSize); }
    var last: Word64 := 18 * queueSize + 6;
    LayoutShape(queueSize, align);
    AlignUpIsLeastMultiple(last, align);
    if IsPow2(align) {
      UsedRingStart(last, align);
    }
  }

  /** What `ComputeVringLayout` adds up, without the wrap-around. */
  lemma LayoutShape(queueSize: Word16, align: Word64)
    ensures ComputeVringLayout(queueSize, align).Ok?
            <==> IsPowerOfTwo(queueSize) && AlignUp(18 * queueSize + 6, align).Ok?
    ensures ComputeVringLayout(queueSize, align).Ok? ==>
              var l := ComputeVringLayout(queueSize, align).value;
              && l.usedOffset == AlignUp(18 * queueSize + 6, align).value
              && l.queueSize == queueSize && l.descOffset == 0 && l.descSize == 16 * queueSize
              && l.availOffset == 16 * queueSize && l.availSize == 6 + 2 * queueSize
              && l.usedSize == 6 + 8 * queueSize
              && l.totalSize == Add64(l.usedOffset, l.usedSize)
  {
    hide AlignUp, And;
  }

  /** The rings before the used ring are short, so an aligned place follows them in the lower half of the address
      space. */
  lemma UsedRingStart(v: Word64, align: Word64)
    requires IsPow2(align) && v <= 0x20_0000
    ensures !(forall m: nat | v <= m && Multiple(m, align) :: m > SIZE_MAX)
    ensures forall r: nat | LeastMultipleFrom(r, v, align) :: v <= r <= 0x8000_0000_0000_0000
  {
    var k: nat :| align == Pow2(k);
    Pow2Words();
    ExponentBound(align, k);
    Pow2Add(k, 63 - k);
    assert 2 * Pow2(63) == Pow2(64);
    var half: nat := 0x8000_0000_0000_0000;
    assert half == align * Pow2(63 - k);
    assert Multiple(half, align);
    hide Multiple, Pow2;
  }

  /** `[start, start + size)` and the next interval do not meet. */
  ghost predicate Before(start: nat, size: nat, next: nat) {
    start + size <= next
  }

  lemma LeastIsAbove(queueSize: Word16, align: Word64)
    requires ComputeVringLayout(queueSize, align).Ok?
    ensures 18 * queueSize + 6 <= ComputeVringLayout(queueSize, align).value.usedOffset
  {
    hide ComputeVringLayout, AlignUp, IsPowerOfTwo, IsPow2;
    LayoutSucceeds(queueSize, align);
  }

  /** The rings have the sizes of section 2.7 of VIRTIO 1.2, do not overlap, and fit the rounded-up mapping. */
  lemma RingsFit(queueSize: Word16, align: Word64, pageSize: Word64)
    requires IsPow2(pageSize) && pageSize <= 0x4000_0000_0000_0000
    requires ComputeVringLayout(queueSize, align).Ok?
    ensures var l := ComputeVringLayout(queueSize, align).value;
            && l.descSize == 16 * queueSize && l.availSize == 6 + 2 * queueSize && l.usedSize == 6 + 8 * queueSize
            && Before(l.descOffset, l.descSize, l.availOffset)
            && Before(l.availOffset, l.availSize, l.usedOffset)
            && Before(l.usedOffset, l.usedSize, l.totalSize)
            && RoundUpToPage(l.totalSize, pageSize).Ok?
            && l.totalSize <= RoundUpToPage(l.totalSize, pageSize).value < l.totalSize + pageSize
  {
    hide ComputeVringLayout, AlignUp, IsPowerOfTwo, IsPow2, RoundUpToPage, LeastMultipleFrom;
    LayoutSucceeds(queueSize, align);
    LayoutShape(queueSize, align);
    LeastIsAbove(queueSize, align);
    PageRounding(ComputeVringLayout(queueSize, align).value.totalSize, pageSize);
  }

  lemma PageRounding(v: Word64, pageSize: Word64)
    requires IsPow2(pageSize) && v <= SIZE_MAX - pageSize
    ensures RoundUpToPage(v, pageSize).Ok?
    ensures v <= RoundUpToPage(v, pageSize).value < v + pageSize
  {
    AlignUpIsLeastMultiple(v, pageSize);
    var k: nat :| pageSize == Pow2(k);
    var q := HighPart(v + pageSize - 1, k);
    assert Multiple(pageSize * q, pageSize);
    hide AlignUp, And, Multiple, Low;
    assert v <= pageSize * q < v + pageSize;
  }

  // ----- alignment of the ring addresses -----

  /** With a base that is a multiple of 16, as a page-aligned one is, the descriptors and the available ring are aligned
      as section 2.7 of VIRTIO 1.2 asks, for every alignment; the used ring is exactly when the alignment is at least 4
      or the queue has one entry. */
  lemma RingAlignment(queueSize: Word16, align: Word64, base: nat)
    requires ComputeVringLayout(queueSize, align).Ok? && base % 16 == 0
    ensures var l := ComputeVringLayout(queueSize, align).value;
            && (base + l.descOffset) % 16 == 0
            && (base + l.availOffset) % 2 == 0
            && ((base + l.usedOffset) % 4 == 0 <==> align >= 4 || queueSize == 1)
  {
    hide ComputeVringLayout, AlignUp, IsPowerOfTwo, IsPow2, LeastMultipleFrom;
    LayoutSucceeds(queueSize, align);
    LayoutShape(queueSize, align);
    var l := ComputeVringLayout(queueSize, align).value;
    UsedAlignment(queueSize, align, l.usedOffset);
    PageAlignedSum(base, 0);
    PageAlignedSum(base, 16 * queueSize);
    PageAlignedSum(base, l.usedOffset);
  }

  lemma MultipleOfFour(v: nat, p: nat, q: nat)
    requires v == 4 * p * q
    ensures v % 4 == 0
  {
    assert v == 4 * (p * q);
  }

  lemma PageAlignedSum(base: nat, x: nat)
    requires base % 16 == 0
    ensures (base + x) % 16 == x % 16 && (base + x) % 4 == x % 4 && (base + x) % 2 == x % 2
  {
    var q := base / 16;
    RemainderUnique(base + x, 16, q + x / 16, x % 16);
    RemainderUnique(base + x, 4, 4 * q + x / 4, x % 4);
    RemainderUnique(base + x, 2, 8 * q + x / 2, x % 2);
  }

  lemma UsedAlignment(queueSize: Word16, align: Word64, used: nat)
    requires IsPow2(queueSize) && IsPow2(align) && LeastMultipleFrom(used, 18 * queueSize + 6, align)
    ensures used % 4 == 0 <==> align >= 4 || queueSize == 1
  {
    var k: nat :| align == Pow2(k);
    if k >= 2 {
      var q: nat :| used == align * q;
      hide LeastMultipleFrom, IsPow2, Multiple;
      assert Pow2(k) == 4 * Pow2(k - 2);
      MultipleOfFour(used, Pow2(k - 2), q);
    } else {
      SmallAlignment(queueSize, align, k, used);
    }
  }

  lemma SmallAlignment(queueSize: Word16, align: Word64, k: nat, used: nat)
    requires IsPow2(queueSize) && align == Pow2(k) && k < 2
    requires LeastMultipleFrom(used, 18 * queueSize + 6, align)
    ensures align < 4 && used == 18 * queueSize + 6 && (used % 4 == 0 <==> queueSize == 1)
  {
    assert Pow2(0) == 1 && Pow2(1) == 2;
    hide IsPow2;
    EndOfAvailable(queueSize);
    var last := 18 * queueSize + 6;
    assert last == align * (last / align);
    assert Multiple(last, align);
  }

  /** Descriptors and available ring of a queue end at a multiple of four only if it has one entry. */
  lemma EndOfAvailable(queueSize: Word16)
    requires IsPow2(queueSize)
    ensures (18 * queueSize + 6) % 4 == 0 <==> queueSize == 1
    ensures (18 * queueSize + 6) % 2 == 0
  {
    var j: nat :| queueSize == Pow2(j);
    if j > 0 {
      EvenQueue(Pow2(j - 1));
    }
  }

  lemma EvenQueue(half: nat)
    ensures (18 * (2 * half) + 6) % 4 == 2 && (18 * (2 * half) + 6) % 2 == 0
  {
    RemainderUnique(18 * (2 * half) + 6, 4, 9 * half + 1, 2);
  }

  /** The used ring of a two-entry queue, laid out without alignment, is not where a device expects it. */
  lemma UnalignedUsedRing()
    ensures ComputeVringLayout(2, 1).Ok? && ComputeVringLayout(2, 1).value.usedOffset % 4 != 0
  {
    assert Pow2(0) == 1 && Pow2(1) == 2;
    LayoutSucceeds(2, 1);
    RingAlignment(2, 1, 0);
  }

  /** The addresses written to the device do not wrap when the mapping lies inside the 64-bit address space. */
  lemma AddressesInsideMapping(queueSize: Word16, align: Word64, pageSize: Word64, base: Word64)
    requires IsPow2(pageSize) && pageSize <= 0x4000_0000_0000_0000
    requires ComputeVringLayout(queueSize, align).Ok?
    requires (RingsFit(queueSize, align, pageSize);
              var total := ComputeVringLayout(queueSize, align).value.totalSize;
              base + RoundUpToPage(total, pageSize).value <= SIZE_MAX + 1)
    ensures var l := ComputeVringLayout(queueSize, align).value;
            var last := base + RoundUpToPage(l.totalSize, pageSize).value;
            && base <= Add64(base, l.descOffset) && Add64(base, l.descOffset) + l.descSize <= Add64(base, l.availOffset)
            && Add64(base, l.availOffset) + l.availSize <= Add64(base, l.usedOffset)
            && Add64(base, l.usedOffset) + l.usedSize <= last
  {
    hide ComputeVringLayout, AlignUp, IsPowerOfTwo, IsPow2, RoundUpToPage;
    LayoutShape(queueSize, align);
    RingsFit(queueSize, align, pageSize);
  }
}
