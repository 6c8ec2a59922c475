/** The COMMON_CFG registers of a virtio device behind a bounds-checked mapping: feature words and queues are reached
    through selector registers. */
module CommonConfig {
  import opened Bits
  import opened Words
  import opened Wrappers
  import opened VringLayout

  /** The registers, at the offsets of section 4.1.4.3 of VIRTIO 1.2. */
  datatype Reg =
    | DfSelect | Df | GfSelect | Gf
    | NumQueues | Status
    | QSelect | QSize | QMsix | QEnable | QNotifyOff
    | QDescLo | QDescHi | QAvailLo | QAvailHi | QUsedLo | QUsedHi
    | QNotifyData

  function Offset(r: Reg): nat {
    match r
    case DfSelect => 0 case Df => 4 case GfSelect => 8 case Gf => 12
    case NumQueues => 18 case Status => 20
    case QSelect => 22 case QSize => 24 case QMsix => 26 case QEnable => 28 case QNotifyOff => 30
    case QDescLo => 32 case QDescHi => 36 case QAvailLo => 40 case QAvailHi => 44 case QUsedLo => 48 case QUsedHi => 52
    case QNotifyData => 56
  }

  function Width(r: Reg): nat {
    match r
    case DfSelect | Df | GfSelect | Gf => 4
    case Status => 1
    case QDescLo | QDescHi | QAvailLo | QAvailHi | QUsedLo | QUsedHi => 4
    case _ => 2
  }

  const ACKNOWLEDGE: nat := 1
  const DRIVER: nat := 2
  const DRIVER_OK: nat := 4
  const FEATURES_OK: nat := 8

  const FEATURE_WORDS: nat := 3
  const VERSION_1: nat := 32
  const ACCESS_PLATFORM: nat := 33

  /** The fields of one queue. */
  type Queue = map<Reg, Word32>

  /** What the device holds. Words and queues that do not exist read as zero. */
  datatype Device = Device(
    dfSelect: Word32, gfSelect: Word32, queueSelect: Word16,
    offered: map<nat, Word32>, guest: map<nat, Word32>,
    numQueues: Word16, queues: map<nat, Queue>)

  function Lookup(m: map<nat, Word32>, k: nat): Word32 {
    if k in m then m[k] else 0
  }

  function FieldOf(d: Device, q: nat, r: Reg): Word32 {
    if q in d.queues && r in d.queues[q] then d.queues[q][r] else 0
  }

  /** What a read returns, except for the status, which the device changes by itself. */
  function ValueOf(d: Device, r: Reg): Word32 {
    match r
    case DfSelect => d.dfSelect
    case Df => Lookup(d.offered, d.dfSelect)
    case GfSelect => d.gfSelect
    case Gf => Lookup(d.guest, d.gfSelect)
    case NumQueues => d.numQueues
    case QSelect => d.queueSelect
    case Status => 0
    case _ => FieldOf(d, d.queueSelect, r)
  }

  function Written(d: Device, r: Reg, v: Word32): Device
    requires r == QSelect ==> v < 0x1_0000
  {
    match r
    case DfSelect => d.(dfSelect := v)
    case GfSelect => d.(gfSelect := v)
    case Gf => d.(guest := d.guest[d.gfSelect := v])
    case QSelect => d.(queueSelect := v)
    case Df | NumQueues | QNotifyOff | QNotifyData | Status => d
    case _ =>
      if d.queueSelect !in d.queues then d
      else
        var q: Queue := d.queues[d.queueSelect];
        var fields: map<Reg, Word32> := q[r := v];
        d.(queues := d.queues[d.queueSelect := fields])
  }

  /** A reset may change everything but what the device offers; a device may refuse to enable a queue. */
  ghost predicate MayBecome(d: Device, r: Reg, v: Word32, d': Device) {
    if r == Status && v == 0 then d'.offered == d.offered && d'.numQueues == d.numQueues
    else (r == QSelect ==> v < 0x1_0000) && (d' == Written(d, r, v) || (r == QEnable && d' == d))
  }

  // ----- what a run does, as seen from outside -----

  /** What the rest of the machine refuses is an event as well. A notification is known by what was written, where
      in the device's file, and the device at that moment. */
  datatype Event =
    | DidRead(reg: Reg, value: Word32)
    | Wrote(reg: Reg, value: Word32)
    | DmaMapped
    | DmaUnmapped
    | DmaUnmapFailed
    | DmaMapFailed
    | NoMemory
    | MmapFailed
    | TimedOut
    | BufferFreed
    | Notified(value: Word32, at: Word64, device: Device)
    | RegistersUnmapped

  // ----- the device and its mapping -----

  /** The mapped registers, at `delta` in a mapping of `size` bytes. */
  class Registers {
    const delta: nat
    const size: nat
    var device: Device
    ghost var trace: seq<Event>

    constructor (delta: nat, size: nat, device: Device)
      ensures this.delta == delta && this.size == size && this.device == device && trace == []
    {
      this.delta, this.size, this.device := delta, size, device;
      trace := [];
    }

    /** `check_range`. */
    predicate Accessible(r: Reg) {
      var offset := delta + Offset(r);
      !(offset > size || Width(r) > size - offset)
    }

    ghost predicate AllAccessible() {
      forall r :: Accessible(r)
    }

    method Read(r: Reg) returns (v: Option<Word32>)
      modifies this`trace
      ensures v.Some? <==> Accessible(r)
      ensures v.Some? && r != Status ==> v.value == ValueOf(device, r)
      ensures trace == old(trace) + if v.Some? then [DidRead(r, v.value)] else []
    {
      if !Accessible(r) { return None; }
      var x := ValueOf(device, r);
      if r == Status { x := *; }
      trace := trace + [DidRead(r, x)];
      return Some(x);
    }

    method Write(r: Reg, v: Word32) returns (ok: bool)
      requires r == QSelect ==> v < 0x1_0000
      modifies this`trace, this`device
      ensures ok <==> Accessible(r)
      ensures if ok then MayBecome(old(device), r, v, device) else device == old(device)
      ensures trace == old(trace) + if ok then [Wrote(r, v)] else []
    {
      if !Accessible(r) { return false; }
      var refused: bool := *;
      if r == Status && v == 0 {
        var d: Device := *;
        device := d.(offered := device.offered, numQueues := device.numQueues);
      } else if r != QEnable || !refused {
        device := Written(device, r, v);
      }
      trace := trace + [Wrote(r, v)];
      return true;
    }
  }

  // ----- feature negotiation -----

  /** `feature_is_set`. */
  predicate FeatureIsSet(words: seq<Word32>, bit: nat) {
    var word := bit / 32;
    word < |words| && And(words[word], Pow2(bit % 32)) != 0
  }

  function SetFeature(words: seq<Word32>, bit: nat): (r: Option<seq<Word32>>)
    ensures r.Some? ==> |r.value| == |words|
  {
    var word := bit / 32;
    if word >= |words| then None
    else
      MaskFits(words[word], bit % 32);
      Some(words[word := Or(words[word], Pow2(bit % 32))])
  }

  lemma MaskFits(v: Word32, k: nat)
    requires k < 32
    ensures Or(v, Pow2(k)) < 0x1_0000_0000
  {
    Pow2Words();
    Pow2Monotonic(k + 1, 32);
    OrBounds(v, Pow2(k), 32);
  }

  /** The features the driver accepts: the modern interface, and the platform's IOMMU if the device asks for it. */
  function MinimalGuestFeatures(device: seq<Word32>): Option<seq<Word32>> {
    if !FeatureIsSet(device, VERSION_1) then None
    else
      var guest := SetFeature(seq(FEATURE_WORDS, _ => 0), VERSION_1);
      if guest.None? || !FeatureIsSet(device, ACCESS_PLATFORM) then guest
      else SetFeature(guest.value, ACCESS_PLATFORM)
  }

  /** Every feature bit of `a` is one of `b`. */
  ghost predicate Subset(a: seq<Word32>, b: seq<Word32>) {
    |a| == |b| && forall w: nat, k: nat | w < |a| && k < 32 && Bit(a[w], k) :: Bit(b[w], k)
  }

  lemma FeatureBits(v: nat)
    ensures And(v, Pow2(0)) != 0 <==> Bit(v, 0)
    ensures And(v, Pow2(1)) != 0 <==> Bit(v, 1)
  {
    AndBit(v, 0);
    AndBit(v, 1);
  }

  lemma SmallOrs()
    ensures Pow2(0) == 1 && Pow2(1) == 2 && Or(0, 1) == 1 && Or(1, 2) == 3
  {
    assert Or(1, 2) == 2 * Or(0, 1) + 1;
  }

  lemma {:induction false} BitsOfSmall(v: nat, k: nat)
    requires v < 4 && k >= 2
    ensures !Bit(v, k)
    decreases k
  {
    if k == 2 {
      assert Bit(v, 2) == Bit(v / 2, 1) == Bit(v / 4, 0);
    } else {
      BitsOfSmall(v / 2, k - 1);
    }
  }

  /** Negotiation succeeds exactly with devices that offer the modern interface, and accepts it, and otherwise nothing
      that is not offered. */
  lemma GuestFeaturesAreOffered(device: seq<Word32>)
    requires |device| == FEATURE_WORDS
    ensures var guest := MinimalGuestFeatures(device);
            && (guest.Some? <==> Bit(device[1], 0))
            && (guest.Some? ==> |guest.value| == FEATURE_WORDS && Subset(guest.value, device) && Bit(guest.value[1], 0)
                                && (Bit(guest.value[1], 1) <==> Bit(device[1], 1)))
  {
    FeatureBits(device[1]);
    SmallOrs();
    var guest := MinimalGuestFeatures(device);
    hide And, Or;
    if guest.Some? {
      assert guest.value == [0, if Bit(device[1], 1) then 3 else 1, 0];
      GuestBits(guest.value, device);
    }
  }

  lemma GuestBits(guest: seq<Word32>, device: seq<Word32>)
    requires |device| == FEATURE_WORDS && Bit(device[1], 0)
    requires guest == [0, if Bit(device[1], 1) then 3 else 1, 0]
    ensures Subset(guest, device) && Bit(guest[1], 0) && (Bit(guest[1], 1) <==> Bit(device[1], 1))
  {
    forall w: nat, k: nat | w < 3 && k < 32 && Bit(guest[w], k) ensures Bit(device[w], k) {
      if w != 1 {
        NoBits(k);
      } else if k >= 2 {
        BitsOfSmall(guest[1], k);
      }
    }
  }

  ghost predicate HoldsWords(m: map<nat, Word32>, words: seq<Word32>) {
    forall k | 0 <= k < |words| :: Lookup(m, k) == words[k]
  }

  /** Reads the device's feature words through the selector. */
  method ReadFeatureWords(m: Registers, count: nat) returns (r: Option<seq<Word32>>)
    requires count <= 0x1_0000_0000
    modifies m
    ensures r.Some? ==> |r.value| == count && HoldsWords(m.device.offered, r.value) && m.device == old(m.device)
    ensures r.Some? <== m.Accessible(DfSelect) && m.Accessible(Df)
    ensures m.device.offered == old(m.device.offered)
    ensures OnlyTouches(old(m.trace), m.trace, {DfSelect, Df})
  {
    var original := m.Read(DfSelect);
    if original.None? { return None; }
    var words: seq<Word32> := [];
    var word := 0;
    while word < count
      invariant 0 <= word <= count && |words| == word && HoldsWords(m.device.offered, words)
      invariant m.device == old(m.device).(dfSelect := m.device.dfSelect)
      invariant OnlyTouches(old(m.trace), m.trace, {DfSelect, Df})
    {
      var ok := m.Write(DfSelect, word);
      if !ok { return None; }
      var value := m.Read(Df);
      if value.None? { return None; }
      words := words + [value.value];
      word := word + 1;
    }
    var ok := m.Write(DfSelect, original.value);
    if !ok { return None; }
    return Some(words);
  }

  /** The trace grows by accesses to these registers. */
  ghost predicate OnlyTouches(before: seq<Event>, after: seq<Event>, regs: set<Reg>) {
    && before <= after
    && forall k | |before| <= k < |after| :: (after[k].DidRead? || after[k].Wrote?) && after[k].reg in regs
  }

  /** Writes the accepted feature words through the selector. */
  method WriteGuestFeatureWords(m: Registers, words: seq<Word32>) returns (ok: bool)
    requires |words| <= 0x1_0000_0000
    modifies m
    ensures ok ==> HoldsWords(m.device.guest, words) && m.device == old(m.device).(guest := m.device.guest)
    ensures m.device.offered == old(m.device.offered)
    ensures m.AllAccessible() ==> ok
    ensures OnlyTouches(old(m.trace), m.trace, {GfSelect, Gf})
  {
    var original := m.Read(GfSelect);
    if original.None? { return false; }
    var word := 0;
    while word < |words|
      invariant 0 <= word <= |words| && HoldsWords(m.device.guest, words[..word])
      invariant m.device == old(m.device).(guest := m.device.guest, gfSelect := m.device.gfSelect)
      invariant OnlyTouches(old(m.trace), m.trace, {GfSelect, Gf})
    {
      ok := m.Write(GfSelect, word);
      if !ok { return; }
      ok := m.Write(Gf, words[word]);
      if !ok { return; }
      word := word + 1;
    }
    assert words[..word] == words;
    ok := m.Write(GfSelect, original.value);
  }

  // ----- 64-bit addresses -----

  function Low32(v: Word64): Word32 {
    v % 0x1_0000_0000
  }

  function High32(v: Word64): Word32 {
    v / 0x1_0000_0000
  }

  /** `value & 0xffffffff` is the remainder. */
  lemma LowMask(v: Word64)
    ensures And(v, 0xFFFF_FFFF) == Low32(v)
  {
    Pow2Words();
    AndLowMask(v, 32);
    LowIsRemainder(v, 32);
  }

  function Joined(lo: Word32, hi: Word32): (v: Word64)
    ensures v == lo + 0x1_0000_0000 * hi
  {
    JoinedIsSum(lo, hi);
    Or(0x1_0000_0000 * hi, lo)
  }

  lemma JoinedIsSum(lo: Word32, hi: Word32)
    ensures Or(0x1_0000_0000 * hi, lo) == 0x1_0000_0000 * hi + lo
  {
    Pow2Words();
    LowOfShifted(hi, 32);
    OrDisjoint(0x1_0000_0000 * hi, lo, 32);
  }

  /** A 64-bit register is the word formed by its halves. */
  function Address(d: Device, lo: Reg, hi: Reg): Word64 {
    Joined(FieldOf(d, d.queueSelect, lo), FieldOf(d, d.queueSelect, hi))
  }

  ghost predicate IsAddressPair(lo: Reg, hi: Reg) {
    (lo == QDescLo && hi == QDescHi) || (lo == QAvailLo && hi == QAvailHi) || (lo == QUsedLo && hi == QUsedHi)
  }

  /** The selected queue exists; another queue and the rest of the device stay as they are. */
  ghost predicate OnlySelectedQueue(d: Device, d': Device) {
    && d'.queueSelect == d.queueSelect && d' == d.(queues := d'.queues)
    && d'.queues.Keys == d.queues.Keys
    && forall q | q in d.queues && q != d.queueSelect :: d'.queues[q] == d.queues[q]
  }

  const ADDRESS_REGS: set<Reg> := {QDescLo, QDescHi, QAvailLo, QAvailHi, QUsedLo, QUsedHi}

  ghost predicate OtherFieldsKept(d: Device, d': Device, changed: set<Reg>) {
    forall r | r !in changed :: FieldOf(d', d.queueSelect, r) == FieldOf(d, d.queueSelect, r)
  }

  lemma WriteOneField(d: Device, r: Reg, v: Word32)
    requires (r == QSize || r in ADDRESS_REGS) && d.queueSelect in d.queues
    ensures OnlySelectedQueue(d, Written(d, r, v)) && Written(d, r, v).queueSelect == d.queueSelect
    ensures Written(d, r, v).queues.Keys == d.queues.Keys
    ensures FieldOf(Written(d, r, v), d.queueSelect, r) == v
    ensures OtherFieldsKept(d, Written(d, r, v), {r})
  {
  }

  lemma FieldsThenFields(d: Device, d1: Device, d2: Device, a: set<Reg>, b: set<Reg>)
    requires d1.queueSelect == d.queueSelect && OtherFieldsKept(d, d1, a) && OtherFieldsKept(d1, d2, b)
    ensures OtherFieldsKept(d, d2, a + b)
  {
    hide FieldOf;
  }

  lemma HalvesMakeAddress(d1: Device, d2: Device, lo: Reg, hi: Reg, value: Word64)
    requires lo != hi && d1.queueSelect == d2.queueSelect && OtherFieldsKept(d1, d2, {hi})
    requires FieldOf(d1, d1.queueSelect, lo) == Low32(value) && FieldOf(d2, d2.queueSelect, hi) == High32(value)
    ensures Address(d2, lo, hi) == value
  {
    hide FieldOf;
    assert FieldOf(d2, d2.queueSelect, lo) == Low32(value);
  }

  lemma OnlySelectedTransitive(a: Device, b: Device, c: Device)
    requires OnlySelectedQueue(a, b) && OnlySelectedQueue(b, c)
    ensures OnlySelectedQueue(a, a) && OnlySelectedQueue(a, c)
  {
  }

  /** The trace grows by writes of these registers. */
  ghost predicate OnlyWrites(before: seq<Event>, after: seq<Event>, regs: set<Reg>) {
    && before <= after
    && forall k | |before| <= k < |after| :: after[k].Wrote? && after[k].reg in regs
  }

  /** The last event is a write of this register. */
  predicate EndsWithWrite(t: seq<Event>, r: Reg) {
    t != [] && t[|t| - 1].Wrote? && t[|t| - 1].reg == r
  }

  /** Writes one field of the selected queue. */
  method WriteField(m: Registers, r: Reg, v: Word32) returns (ok: bool)
    requires (r == QSize || r in ADDRESS_REGS) && m.device.queueSelect in m.device.queues
    modifies m
    ensures OnlySelectedQueue(old(m.device), m.device) && OtherFieldsKept(old(m.device), m.device, {r})
    ensures m.device.queueSelect == old(m.device).queueSelect && m.device.queueSelect in m.device.queues
    ensures ok ==> FieldOf(m.device, m.device.queueSelect, r) == v
    ensures m.AllAccessible() ==> ok
    ensures m.trace == old(m.trace) + if ok then [Wrote(r, v)] else []
    ensures OnlyWrites(old(m.trace), m.trace, {r})
  {
    WriteOneField(m.device, r, v);
    SameDevice(m.device, {r});
    hide Written, FieldOf, OnlySelectedQueue, OtherFieldsKept;
    ok := m.Write(r, v);
  }

  lemma SameDevice(d: Device, regs: set<Reg>)
    ensures OnlySelectedQueue(d, d) && OtherFieldsKept(d, d, regs)
  {
  }

  /** Writes an address as two halves. */
  method WriteAddress(m: Registers, lo: Reg, hi: Reg, value: Word64) returns (ok: bool)
    requires IsAddressPair(lo, hi) && m.device.queueSelect in m.device.queues
    modifies m
    ensures OnlySelectedQueue(old(m.device), m.device)
    ensures ok ==> Address(m.device, lo, hi) == value
    ensures OtherFieldsKept(old(m.device), m.device, {lo, hi})
    ensures m.device.queueSelect == old(m.device).queueSelect && m.device.queueSelect in m.device.queues
    ensures m.AllAccessible() ==> ok
    ensures OnlyWrites(old(m.trace), m.trace, {lo, hi}) && (ok ==> EndsWithWrite(m.trace, hi))
  {
    hide FieldOf, And, OnlySelectedQueue, OtherFieldsKept, OnlyWrites, Address, High32, Low32;
    LowMask(value);
    ghost var d, t := m.device, m.trace;
    assert {lo} + {hi} == {lo, hi};
    ok := WriteField(m, lo, And(value, 0xFFFF_FFFF));
    ghost var d1, t1 := m.device, m.trace;
    if !ok {
      SameDevice(d1, {hi});
      FieldsThenFields(d, d1, d1, {lo}, {hi});
      WritesWiden(t, t1, {lo}, {lo, hi});
      return;
    }
    WritesWiden(t, t1, {lo}, {lo, hi});
    ok := WriteField(m, hi, High32(value));
    FieldsThenFields(d, d1, m.device, {lo}, {hi});
    OnlySelectedTransitive(d, d1, m.device);
    WritesThenWrites(t, t1, m.trace, {hi}, {lo, hi});
    if ok { HalvesMakeAddress(d1, m.device, lo, hi, value); }
  }

  /** The trace grows by reads of registers other than the status. */
  ghost predicate OnlyReads(before: seq<Event>, after: seq<Event>) {
    && before <= after
    && forall k | |before| <= k < |after| :: after[k].DidRead? && after[k].reg != Status
  }

  lemma ReadsThenReads(t0: seq<Event>, t1: seq<Event>, t2: seq<Event>)
    requires OnlyReads(t0, t1) && OnlyReads(t1, t2)
    ensures OnlyReads(t0, t2)
  {
    forall k | |t0| <= k < |t2| ensures t2[k].DidRead? && t2[k].reg != Status {
      if k < |t1| { assert t2[k] == t1[k]; }
    }
  }

  method ReadAddress(m: Registers, lo: Reg, hi: Reg) returns (v: Option<Word64>)
    requires IsAddressPair(lo, hi)
    modifies m`trace
    ensures v.Some? ==> v.value == Address(m.device, lo, hi)
    ensures m.AllAccessible() ==> v.Some?
    ensures OnlyReadsAddresses(old(m.trace), m.trace)
  {
    var low := m.Read(lo);
    if low.None? { return None; }
    var high := m.Read(hi);
    if high.None? { return None; }
    return Some(Joined(low.value, high.value));
  }

  // ----- one queue -----

  datatype QueueView = QueueView(
    selected: Word16, size: Word32, msix: Word32, enable: Word32, notifyOff: Word32, notifyData: Word32,
    desc: Word64, avail: Word64, used: Word64)

  /** What the selected queue's registers say. */
  function ViewOf(d: Device): QueueView {
    var q := d.queueSelect;
    QueueView(q, FieldOf(d, q, QSize), FieldOf(d, q, QMsix), FieldOf(d, q, QEnable), FieldOf(d, q, QNotifyOff),
              FieldOf(d, q, QNotifyData), Address(d, QDescLo, QDescHi), Address(d, QAvailLo, QAvailHi),
              Address(d, QUsedLo, QUsedHi))
  }

  /** The accesses with which a view is read, up to the ring addresses. */
  function FieldReads(v: QueueView): seq<Event> {
    [DidRead(QSelect, v.selected), DidRead(QSize, v.size), DidRead(QMsix, v.msix), DidRead(QEnable, v.enable),
     DidRead(QNotifyOff, v.notifyOff), DidRead(QNotifyData, v.notifyData)]
  }

  /** The trace grows by reads of ring addresses. */
  ghost predicate OnlyReadsAddresses(before: seq<Event>, after: seq<Event>) {
    && before <= after
    && forall k | |before| <= k < |after| :: after[k].DidRead? && after[k].reg in ADDRESS_REGS
  }

  lemma AddressesThenAddresses(t0: seq<Event>, t1: seq<Event>, t2: seq<Event>)
    requires OnlyReadsAddresses(t0, t1) && OnlyReadsAddresses(t1, t2)
    ensures OnlyReadsAddresses(t0, t2)
  {
    forall k | |t0| <= k < |t2| ensures t2[k].DidRead? && t2[k].reg in ADDRESS_REGS {
      if k < |t1| { assert t2[k] == t1[k]; }
    }
  }

  method ReadQueueView(m: Registers) returns (view: Option<QueueView>)
    modifies m`trace
    ensures view.Some? ==> view.value == ViewOf(m.device) && m.Accessible(QNotifyData)
    ensures m.AllAccessible() ==> view.Some?
    ensures OnlyReads(old(m.trace), m.trace)
    ensures view.Some? ==> OnlyReadsAddresses(old(m.trace) + FieldReads(view.value), m.trace)
  {
    ghost var t0 := m.trace;
    var selected := m.Read(QSelect);
    if selected.None? { return None; }
    var size := m.Read(QSize);
    if size.None? { return None; }
    var msix := m.Read(QMsix);
    if msix.None? { return None; }
    var enable := m.Read(QEnable);
    if enable.None? { return None; }
    var notifyOff := m.Read(QNotifyOff);
    if notifyOff.None? { return None; }
    var notifyData := m.Read(QNotifyData);
    if notifyData.None? { return None; }
    ghost var t1 := m.trace;
    assert OnlyReads(t0, t1);
    hide FieldOf, OnlyReads, OnlyReadsAddresses;
    var addresses := ReadRings(m);
    AddressReadsAreReads(t1, m.trace);
    ReadsThenReads(t0, t1, m.trace);
    if addresses.None? { return None; }
    var (desc, avail, used) := addresses.value;
    view := Some(QueueView(selected.value, size.value, msix.value, enable.value, notifyOff.value, notifyData.value,
                           desc, avail, used));
    assert t1 == t0 + FieldReads(view.value);
  }

  lemma AddressReadsAreReads(t0: seq<Event>, t1: seq<Event>)
    requires OnlyReadsAddresses(t0, t1)
    ensures OnlyReads(t0, t1)
  {
  }

  /** The three ring addresses of the selected queue. */
  method ReadRings(m: Registers) returns (r: Option<(Word64, Word64, Word64)>)
    modifies m`trace
    ensures m.AllAccessible() ==> r.Some?
    ensures OnlyReadsAddresses(old(m.trace), m.trace)
    ensures r.Some? ==> r.value == (Address(m.device, QDescLo, QDescHi), Address(m.device, QAvailLo, QAvailHi),
                                    Address(m.device, QUsedLo, QUsedHi))
  {
    hide Address, OnlyReadsAddresses;
    ghost var t0 := m.trace;
    var desc := ReadAddress(m, QDescLo, QDescHi);
    if desc.None? { return None; }
    ghost var t1 := m.trace;
    var avail := ReadAddress(m, QAvailLo, QAvailHi);
    AddressesThenAddresses(t0, t1, m.trace);
    if avail.None? { return None; }
    ghost var t2 := m.trace;
    var used := ReadAddress(m, QUsedLo, QUsedHi);
    AddressesThenAddresses(t0, t2, m.trace);
    if used.None? { return None; }
    return Some((desc.value, avail.value, used.value));
  }

  /** The selected queue has this size and these ring addresses. */
  ghost predicate Programmed(d: Device, layout: Layout, base: Word64) {
    var view := ViewOf(d);
    && view.size == layout.queueSize
    && view.desc == Add64(base, layout.descOffset)
    && view.avail == Add64(base, layout.availOffset)
    && view.used == Add64(base, layout.usedOffset)
  }

  /** Writes size and ring addresses of the selected queue. The device then reads them back, and no other queue has
      changed. */
  method ProgramQueueAddresses(m: Registers, layout: Layout, base: Word64) returns (ok: bool)
    requires m.device.queueSelect in m.device.queues
    modifies m
    ensures OnlySelectedQueue(old(m.device), m.device)
    ensures ok ==> Programmed(m.device, layout, base)
    ensures OnlyWrites(old(m.trace), m.trace, ADDRESS_REGS + {QSize})
    ensures ok ==> EndsWithWrite(m.trace, QUsedHi)
    ensures m.AllAccessible() ==> ok
  {
    hide FieldOf, Address, OnlySelectedQueue, OtherFieldsKept, OnlyWrites, Programmed;
    ghost var d, t := m.device, m.trace;
    ok := WriteField(m, QSize, layout.queueSize);
    WritesWiden(t, m.trace, {QSize}, ADDRESS_REGS + {QSize});
    if !ok { return; }
    ok := WriteRings(m, layout, base, d, t);
  }

  /** The three ring addresses, after the size; `d` and `t` are device and events before both. */
  method WriteRings(m: Registers, layout: Layout, base: Word64, ghost d: Device, ghost t: seq<Event>)
    returns (ok: bool)
    requires m.device.queueSelect in m.device.queues
    requires FieldOf(m.device, m.device.queueSelect, QSize) == layout.queueSize
    requires OnlySelectedQueue(d, m.device) && OnlyWrites(t, m.trace, ADDRESS_REGS + {QSize})
    modifies m
    ensures OnlySelectedQueue(d, m.device) && OnlyWrites(t, m.trace, ADDRESS_REGS + {QSize})
    ensures ok ==> Programmed(m.device, layout, base) && EndsWithWrite(m.trace, QUsedHi)
    ensures m.AllAccessible() ==> ok
  {
    hide FieldOf, Address, OnlySelectedQueue, OtherFieldsKept, OnlyWrites, Programmed;
    ghost var d0 := m.device;
    ok := WriteRing(m, QDescLo, QDescHi, Add64(base, layout.descOffset), d, t);
    if !ok { return; }
    ghost var d1 := m.device;
    ok := WriteRing(m, QAvailLo, QAvailHi, Add64(base, layout.availOffset), d, t);
    if !ok { return; }
    ghost var d2 := m.device;
    ok := WriteRing(m, QUsedLo, QUsedHi, Add64(base, layout.usedOffset), d, t);
    if !ok { return; }
    AllProgrammed(d0, d1, d2, m.device, layout, base);
  }

  /** One ring address; `d` and `t` are device and events before all of them. */
  method WriteRing(m: Registers, lo: Reg, hi: Reg, value: Word64, ghost d: Device, ghost t: seq<Event>)
    returns (ok: bool)
    requires IsAddressPair(lo, hi) && m.device.queueSelect in m.device.queues
    requires OnlySelectedQueue(d, m.device) && OnlyWrites(t, m.trace, ADDRESS_REGS + {QSize})
    modifies m
    ensures OnlySelectedQueue(d, m.device) && OnlyWrites(t, m.trace, ADDRESS_REGS + {QSize})
    ensures OtherFieldsKept(old(m.device), m.device, {lo, hi})
    ensures m.device.queueSelect == old(m.device).queueSelect && m.device.queueSelect in m.device.queues
    ensures ok ==> Address(m.device, lo, hi) == value && EndsWithWrite(m.trace, hi)
    ensures m.AllAccessible() ==> ok
  {
    hide FieldOf, Address, OnlySelectedQueue, OtherFieldsKept, OnlyWrites;
    ok := WriteAddress(m, lo, hi, value);
    OnlySelectedTransitive(d, old(m.device), m.device);
    WritesThenWrites(t, old(m.trace), m.trace, {lo, hi}, ADDRESS_REGS + {QSize});
  }

  lemma WritesWiden(t0: seq<Event>, t1: seq<Event>, some: set<Reg>, regs: set<Reg>)
    requires OnlyWrites(t0, t1, some) && some <= regs
    ensures OnlyWrites(t0, t1, regs)
  {
  }

  lemma WritesThenWrites(t0: seq<Event>, t1: seq<Event>, t2: seq<Event>, some: set<Reg>, regs: set<Reg>)
    requires OnlyWrites(t0, t1, regs) && OnlyWrites(t1, t2, some) && some <= regs
    ensures OnlyWrites(t0, t2, regs)
  {
    forall k | |t0| <= k < |t2| ensures t2[k].Wrote? && t2[k].reg in regs {
      if k < |t1| { assert t2[k] == t1[k]; }
    }
  }

  lemma AllProgrammed(d0: Device, d1: Device, d2: Device, d3: Device, layout: Layout, base: Word64)
    requires d0.queueSelect == d1.queueSelect == d2.queueSelect == d3.queueSelect
    requires FieldOf(d0, d0.queueSelect, QSize) == layout.queueSize
    requires Address(d1, QDescLo, QDescHi) == Add64(base, layout.descOffset)
    requires Address(d2, QAvailLo, QAvailHi) == Add64(base, layout.availOffset)
    requires Address(d3, QUsedLo, QUsedHi) == Add64(base, layout.usedOffset)
    requires OtherFieldsKept(d0, d1, {QDescLo, QDescHi}) && OtherFieldsKept(d1, d2, {QAvailLo, QAvailHi})
    requires OtherFieldsKept(d2, d3, {QUsedLo, QUsedHi})
    ensures Programmed(d3, layout, base)
  {
    hide FieldOf, Joined;
  }
}
