/** The virtio capabilities in the PCI capability list of a device's configuration space. */
module VirtioCaps {
  import opened Bits
  import opened Words
  import opened Wrappers
  import Counting

  /** The CONFIG region as the device presents it; it may end anywhere. */
  type Config = seq<Byte>

  const PCI_STATUS: nat := 0x06
  const PCI_STATUS_CAP_LIST: nat := 0x10
  const PCI_CAPABILITY_LIST: nat := 0x34
  const PCI_CAP_ID_VNDR: Byte := 0x09
  const NOTIFY_CFG: Byte := 2
  const CAP_SIZE: nat := 16
  const NOTIFY_CAP_SIZE: nat := 20
  const CAP64_SIZE: nat := 24
  const HOP_LIMIT: nat := 64

  datatype Error = PastConfigRegion | TruncatedNotifyCap | NotFound

  datatype Cap = Cap(cfgType: Byte, bar: Byte, offset: nat, length: nat, multiplier: nat)

  // ----- reading -----

  function ReadU8(cfg: Config, at: nat): Result<Byte, Error> {
    if at + 1 > |cfg| then Err(PastConfigRegion) else Ok(cfg[at])
  }

  function Shifted(b: Byte, factor: nat): nat {
    var v: nat := b;
    factor * v
  }

  function ReadLe16(cfg: Config, at: nat): Result<nat, Error> {
    if at + 2 > |cfg| then Err(PastConfigRegion) else Ok(Or(Shifted(cfg[at + 1], 0x100), cfg[at]))
  }

  function ReadLe32(cfg: Config, at: nat): Result<nat, Error> {
    if at + 4 > |cfg| then Err(PastConfigRegion)
    else Ok(Or(Shifted(cfg[at + 3], 0x100_0000),
               Or(Shifted(cfg[at + 2], 0x1_0000), Or(Shifted(cfg[at + 1], 0x100), cfg[at]))))
  }

  function ReadLe64FromHalves(cfg: Config, lo: nat, hi: nat): Result<nat, Error> {
    var low :- ReadLe32(cfg, lo);
    var high :- ReadLe32(cfg, hi);
    Ok(Or(0x1_0000_0000 * high, low))
  }

  /** The fields of a virtio capability of `len` bytes. */
  function ReadVirtioCap(cfg: Config, at: nat, len: nat): Result<Cap, Error> {
    var cfgType :- ReadU8(cfg, at + 3);
    var bar :- ReadU8(cfg, at + 4);
    var offset32 :- ReadLe32(cfg, at + 8);
    var length32 :- ReadLe32(cfg, at + 12);
    var offset :- if len >= CAP64_SIZE then ReadLe64FromHalves(cfg, at + 8, at + CAP_SIZE) else Ok(offset32);
    var length :- if len >= CAP64_SIZE then ReadLe64FromHalves(cfg, at + 12, at + CAP_SIZE + 4) else Ok(length32);
    if cfgType != NOTIFY_CFG then Ok(Cap(cfgType, bar, offset, length, 0))
    else if len < NOTIFY_CAP_SIZE then Err(TruncatedNotifyCap)
    else
      var multiplier :- ReadLe32(cfg, at + CAP_SIZE);
      Ok(Cap(cfgType, bar, offset, length, multiplier))
  }

  /** One element of the list: the virtio capability there, if it is one, and the pointer to the next. */
  datatype Element = Element(cap: Option<Cap>, next: Byte)

  function ReadElement(cfg: Config, at: nat): Result<Element, Error> {
    var id :- ReadU8(cfg, at);
    var next :- ReadU8(cfg, at + 1);
    if id != PCI_CAP_ID_VNDR then Ok(Element(None, next))
    else
      var len :- ReadU8(cfg, at + 2);
      if len >= CAP_SIZE && at + len <= |cfg| then
        var cap :- ReadVirtioCap(cfg, at, len);
        Ok(Element(Some(cap), next))
      else Ok(Element(None, next))
  }

  // ----- the list as a recursive specification -----

  /** Where an element may start. */
  ghost predicate Slot(at: nat) {
    0x40 <= at < 0x100 && at % 4 == 0
  }

  ghost function Slots(): set<nat> {
    set at: nat | at < 0x100 && Slot(at)
  }

  lemma SlotCount()
    ensures |Slots()| == 48
  {
    var s := seq(48, i => 0x40 + 4 * i);
    Counting.DistinctCount(s);
    assert Slots() == (set x | x in s) by {
      forall at | at in Slots() ensures at in s {
        assert s[(at - 0x40) / 4] == at;
      }
    }
  }

  ghost function Prepend(caps: seq<Cap>, r: Result<seq<Cap>, Error>): Result<seq<Cap>, Error> {
    if r.Ok? then Ok(caps + r.value) else r
  }

  function Optional(cap: Option<Cap>): seq<Cap> {
    if cap.Some? then [cap.value] else []
  }

  /** The virtio capabilities from pointer `cap` on, in list order. The list ends at a null pointer, at a pointer
      outside the region, and at an element visited before. The two low bits of a pointer are ignored. */
  ghost function Walk(cfg: Config, cap: Byte, visited: set<nat>): Result<seq<Cap>, Error>
    decreases |Slots() - visited|
  {
    var at := cap - cap % 4;
    if cap == 0 || at < 0x40 || at + 2 > |cfg| || at in visited then Ok([])
    else
      var e := ReadElement(cfg, at);
      assert Slots() - (visited + {at}) < Slots() - visited by {
        assert at in Slots() - visited && at !in Slots() - (visited + {at});
      }
      Counting.SubsetCount(Slots() - (visited + {at}), Slots() - visited);
      if e.Err? then Err(e.error)
      else Prepend(Optional(e.value.cap), Walk(cfg, e.value.next, visited + {at}))
  }

  ghost function Capabilities(cfg: Config): Result<seq<Cap>, Error> {
    var status := ReadLe16(cfg, PCI_STATUS);
    if status.Err? then Err(status.error)
    else if And(status.value, PCI_STATUS_CAP_LIST) == 0 then Ok([])
    else
      var first := ReadU8(cfg, PCI_CAPABILITY_LIST);
      if first.Err? then Err(first.error) else Walk(cfg, first.value, {})
  }

  /** The mask of the loop clears the two low bits. */
  lemma PointerMask(cap: Byte)
    ensures 3 < Pow2(8)
    ensures And(cap, Not(8, 3)) == cap - cap % 4
  {
    Pow2Words();
    AndHighMask(cap, 2, 8);
    LowIsRemainder(cap, 2);
  }

  /** The loop of the program: with its table of visited pointers and its limit on hops it computes the specification.
      At most 48 elements are visited, so the limit is never what ends it. */
  method ReadVirtioCaps(cfg: Config) returns (r: Result<seq<Cap>, Error>)
    ensures r == Capabilities(cfg)
  {
    var status :- ReadLe16(cfg, PCI_STATUS);
    if And(status, PCI_STATUS_CAP_LIST) == 0 {
      return Ok([]);
    }
    var caps := [];
    var visited := new bool[256](_ => false);
    ghost var seen: set<nat> := {};
    var cap :- ReadU8(cfg, PCI_CAPABILITY_LIST);
    var hop := 0;
    SlotCount();
    PrependNothing(Walk(cfg, cap, {}));
    hide Walk, Prepend, ReadElement, And, Not, Slots, Capabilities;
    while cap != 0 && hop < HOP_LIMIT
      invariant hop == |seen| <= 48 && seen <= Slots()
      invariant forall p: nat | p < 256 :: visited[p] <==> p in seen
      invariant Prepend(caps, Walk(cfg, cap, seen)) == Capabilities(cfg)
      decreases HOP_LIMIT - hop
    {
      PointerMask(cap);
      var at := And(cap, Not(8, 3));
      if at < 0x40 || at + 2 > |cfg| || visited[at] {
        break;
      }
      visited[at] := true;
      WalkStep(cfg, cap, seen, caps);
      var e :- ReadElement(cfg, at);
      seen := seen + {at};
      Counting.SubsetCount(seen, Slots());
      caps := caps + Optional(e.cap);
      cap := e.next;
      hop := hop + 1;
    }
    WalkEnds(cfg, cap, seen, caps);
    return Ok(caps);
  }

  lemma PrependNothing(r: Result<seq<Cap>, Error>)
    ensures Prepend([], r) == r
  {
    if r.Ok? { assert [] + r.value == r.value; }
  }

  lemma WalkEnds(cfg: Config, cap: Byte, visited: set<nat>, caps: seq<Cap>)
    requires var at := cap - cap % 4; cap == 0 || at < 0x40 || at + 2 > |cfg| || at in visited
    ensures Prepend(caps, Walk(cfg, cap, visited)) == Ok(caps)
  {
    assert caps + [] == caps;
  }

  lemma WalkStep(cfg: Config, cap: Byte, visited: set<nat>, caps: seq<Cap>)
    requires var at := cap - cap % 4; cap != 0 && 0x40 <= at && at + 2 <= |cfg| && at !in visited
    ensures Slot(cap - cap % 4) && cap - cap % 4 in Slots()
    ensures match ReadElement(cfg, cap - cap % 4)
            case Err(error) => Prepend(caps, Walk(cfg, cap, visited)) == Err(error)
            case Ok(e) =>
              Prepend(caps, Walk(cfg, cap, visited))
              == Prepend(caps + Optional(e.cap), Walk(cfg, e.next, visited + {cap - cap % 4}))
  {
    hide ReadElement;
    var at := cap - cap % 4;
    if ReadElement(cfg, at).Ok? {
      var e := ReadElement(cfg, at).value;
      var rest := Walk(cfg, e.next, visited + {at});
      assert Walk(cfg, cap, visited) == Prepend(Optional(e.cap), rest);
      if rest.Ok? {
        assert caps + Optional(e.cap) + rest.value == caps + (Optional(e.cap) + rest.value);
      }
    }
  }

  // ----- bounds -----

  /** Reading an element fails exactly when its length byte is missing, or it is a NOTIFY_CFG capability that fits the
      region but is too short for the multiplier. Everything else that is read lies inside the region. */
  lemma ElementErrors(cfg: Config, at: nat)
    requires at + 2 <= |cfg|
    ensures ReadElement(cfg, at) == Err(PastConfigRegion) <==> cfg[at] == PCI_CAP_ID_VNDR && at + 2 == |cfg|
    ensures ReadElement(cfg, at) == Err(TruncatedNotifyCap) <==>
              && cfg[at] == PCI_CAP_ID_VNDR && at + 3 <= |cfg|
              && CAP_SIZE <= cfg[at + 2] < NOTIFY_CAP_SIZE && at + cfg[at + 2] <= |cfg|
              && cfg[at + 3] == NOTIFY_CFG
    ensures ReadElement(cfg, at).Ok? || ReadElement(cfg, at).error in {PastConfigRegion, TruncatedNotifyCap}
  {
    hide Or;
  }

  // ----- little-endian words -----

  lemma Le32Sum(cfg: Config, at: nat)
    requires at + 4 <= |cfg|
    ensures ReadLe32(cfg, at) == Ok(Shifted(cfg[at + 3], 0x100_0000) + Shifted(cfg[at + 2], 0x1_0000)
                                     + Shifted(cfg[at + 1], 0x100) + cfg[at])
  {
    Pow2Words();
    var b0: nat, b1: nat, b2: nat, b3: nat := cfg[at], cfg[at + 1], cfg[at + 2], cfg[at + 3];
    OrIsSum(b1, 8, b0);
    OrIsSum(b2, 16, 0x100 * b1 + b0);
    OrIsSum(b3, 24, 0x1_0000 * b2 + 0x100 * b1 + b0);
  }

  lemma OrIsSum(high: nat, k: nat, low: nat)
    requires low < Pow2(k)
    ensures Or(Pow2(k) * high, low) == Pow2(k) * high + low
  {
    LowOfShifted(high, k);
    OrDisjoint(Pow2(k) * high, low, k);
  }

  /** Byte `k` of a little-endian word. */
  function ByteOf(v: nat, k: nat): Byte
    requires k < 4
  {
    match k
    case 0 => v % 0x100
    case 1 => v / 0x100 % 0x100
    case 2 => v / 0x1_0000 % 0x100
    case 3 => v / 0x100_0000 % 0x100
  }

  lemma Le32RoundTrip(cfg: Config, at: nat, v: Word32)
    requires at + 4 <= |cfg| && forall k: nat | k < 4 :: cfg[at + k] == ByteOf(v, k)
    ensures ReadLe32(cfg, at) == Ok(v)
  {
    Le32Sum(cfg, at);
    BytesSum(v);
    hide ReadLe32, ByteOf;
    assert cfg[at + 0] == ByteOf(v, 0) && cfg[at + 1] == ByteOf(v, 1);
    assert cfg[at + 2] == ByteOf(v, 2) && cfg[at + 3] == ByteOf(v, 3);
  }

  lemma BytesSum(v: Word32)
    ensures v == Shifted(ByteOf(v, 3), 0x100_0000) + Shifted(ByteOf(v, 2), 0x1_0000) + Shifted(ByteOf(v, 1), 0x100)
                 + ByteOf(v, 0)
  {
    var q1 := v / 0x100;
    var q2 := q1 / 0x100;
    var q3 := q2 / 0x100;
    RemainderUnique(v, 0x1_0000, q2, 0x100 * (q1 % 0x100) + v % 0x100);
    RemainderUnique(v, 0x100_0000, q3, 0x1_0000 * (q2 % 0x100) + 0x100 * (q1 % 0x100) + v % 0x100);
  }

  // ----- laying out a list and parsing it back -----

  /** The structures a capability may have: the common fields; those and the multiplier of notifications; or those and
      the high halves of offset and length. */
  datatype Form = Plain | WithMultiplier | Wide

  function FieldSize(form: Form): nat {
    match form
    case Plain => CAP_SIZE
    case WithMultiplier => NOTIFY_CAP_SIZE
    case Wide => CAP64_SIZE
  }

  /** An element to lay out at `at`: a virtio capability, where `mid` fills the three bytes before the offset and `pad`
      follows the fields of its structure; a vendor capability that is too short for virtio or does not fit the region;
      or some other capability. */
  datatype Entry =
    | Virtio(at: nat, form: Form, cap: Cap, mid: seq<Byte>, pad: seq<Byte>)
    | Vendor(at: nat, len: Byte)
    | Other(at: nat, id: Byte)

  /** The length that a virtio capability announces: its fields and its padding. */
  function Length(e: Entry): nat
    requires e.Virtio?
  {
    FieldSize(e.form) + |e.pad|
  }

  function Extent(e: Entry): (n: nat)
    ensures n >= 2
  {
    match e
    case Virtio(_, _, _, _, _) => Length(e)
    case Vendor(_, _) => 3
    case Other(_, _) => 2
  }

  /** The values fit the fields of the structure. */
  predicate Fits(form: Form, cap: Cap) {
    && (cap.cfgType == NOTIFY_CFG <==> form.WithMultiplier?)
    && (if form.Wide? then cap.offset < 0x1_0000_0000_0000_0000 && cap.length < 0x1_0000_0000_0000_0000
        else cap.offset < 0x1_0000_0000 && cap.length < 0x1_0000_0000)
    && (if form.WithMultiplier? then cap.multiplier < 0x1_0000_0000 else cap.multiplier == 0)
  }

  predicate WellFormed(e: Entry, size: nat) {
    && e.at % 4 == 0 && 0x40 <= e.at < 0x100 && e.at + Extent(e) <= size
    && (e.Virtio? ==> Fits(e.form, e.cap) && |e.mid| == 3 && Length(e) < 0x100)
    && (e.Vendor? ==> e.len < CAP_SIZE || e.at + e.len > size)
    && (e.Other? ==> e.id != PCI_CAP_ID_VNDR)
  }

  /** Byte `k` of a virtio capability, from the end of the common fields on. */
  function BodyAt(e: Entry, k: nat): Byte
    requires e.Virtio? && CAP_SIZE <= k < Length(e)
  {
    if k >= FieldSize(e.form) then e.pad[k - FieldSize(e.form)]
    else if e.form.WithMultiplier? then ByteOf(e.cap.multiplier, k - 16)
    else if k < 20 then ByteOf(e.cap.offset / 0x1_0000_0000, k - 16)
    else ByteOf(e.cap.length / 0x1_0000_0000, k - 20)
  }

  function ByteAt(e: Entry, next: Byte, k: nat): Byte
    requires k < Extent(e) && (e.Virtio? ==> |e.mid| == 3 && Length(e) < 0x100)
  {
    if e.Other? then (if k == 0 then e.id else next)
    else if k == 0 then PCI_CAP_ID_VNDR
    else if k == 1 then next
    else if e.Vendor? then e.len
    else if k == 2 then Length(e)
    else if k == 3 then e.cap.cfgType
    else if k == 4 then e.cap.bar
    else if k < 8 then e.mid[k - 5]
    else if k < 12 then ByteOf(e.cap.offset % 0x1_0000_0000, k - 8)
    else if k < 16 then ByteOf(e.cap.length % 0x1_0000_0000, k - 12)
    else BodyAt(e, k)
  }

  predicate Holds(cfg: Config, e: Entry, next: Byte) {
    && WellFormed(e, |cfg|)
    && forall k: nat | k < Extent(e) :: cfg[e.at + k] == ByteAt(e, next, k)
  }

  function CapOf(e: Entry): Option<Cap> {
    if e.Virtio? then Some(e.cap) else None
  }

  // ----- what the program makes of a capability -----

  /** The word in bytes `k` to `k + 3` of a capability. */
  function BodyWord(e: Entry, k: nat): nat
    requires e.Virtio? && CAP_SIZE <= k && k + 4 <= Length(e)
  {
    Shifted(BodyAt(e, k + 3), 0x100_0000) + Shifted(BodyAt(e, k + 2), 0x1_0000) + Shifted(BodyAt(e, k + 1), 0x100)
    + BodyAt(e, k)
  }

  /** From 24 bytes on the program takes bytes 16 to 23 for the high halves of offset and length, whatever the structure
      has there. */
  function Parsed(e: Entry): Cap
    requires e.Virtio?
  {
    if Length(e) < CAP64_SIZE then e.cap
    else e.cap.(offset := e.cap.offset % 0x1_0000_0000 + 0x1_0000_0000 * BodyWord(e, 16),
                length := e.cap.length % 0x1_0000_0000 + 0x1_0000_0000 * BodyWord(e, 20))
  }

  function ParsedOf(e: Entry): Option<Cap> {
    if e.Virtio? then Some(Parsed(e)) else None
  }

  /** The structure has the high halves there, or is shorter, or has nothing but zeros there. */
  predicate Unambiguous(e: Entry)
    requires e.Virtio?
  {
    e.form.Wide? || Length(e) < CAP64_SIZE || forall k: nat | 16 <= k < 24 :: BodyAt(e, k) == 0
  }

  /** A capability is understood as it was meant if and only if it is unambiguous. */
  lemma ParsedAsMeant(e: Entry, size: nat)
    requires e.Virtio? && WellFormed(e, size)
    ensures Parsed(e) == e.cap <==> Unambiguous(e)
  {
    if e.form.Wide? {
      WideWords(e);
    } else if Length(e) >= CAP64_SIZE {
      BodyWordZero(e, 16);
      BodyWordZero(e, 20);
      hide BodyAt, BodyWord;
    }
  }

  lemma WideWords(e: Entry)
    requires e.Virtio? && e.form.Wide? && Fits(e.form, e.cap)
    ensures BodyWord(e, 16) == e.cap.offset / 0x1_0000_0000 && BodyWord(e, 20) == e.cap.length / 0x1_0000_0000
  {
    BytesSum(e.cap.offset / 0x1_0000_0000);
    BytesSum(e.cap.length / 0x1_0000_0000);
    hide ByteOf;
  }

  lemma BodyWordZero(e: Entry, k: nat)
    requires e.Virtio? && CAP_SIZE <= k && k + 4 <= Length(e)
    ensures BodyWord(e, k) == 0 <==>
              BodyAt(e, k) == 0 && BodyAt(e, k + 1) == 0 && BodyAt(e, k + 2) == 0 && BodyAt(e, k + 3) == 0
  {
    hide BodyAt;
  }

  lemma WordAt(cfg: Config, e: Entry, next: Byte, k: nat, v: Word32)
    requires Holds(cfg, e, next) && k + 4 <= Extent(e)
    requires forall j: nat | j < 4 :: ByteAt(e, next, k + j) == ByteOf(v, j)
    ensures ReadLe32(cfg, e.at + k) == Ok(v)
  {
    hide ReadLe32, ByteOf;
    forall j: nat | j < 4 ensures cfg[e.at + k + j] == ByteOf(v, j) {
      assert cfg[e.at + (k + j)] == ByteAt(e, next, k + j);
    }
    Le32RoundTrip(cfg, e.at + k, v);
  }

  lemma HalvesSum(cfg: Config, lo: nat, hi: nat, low: Word32, high: Word32)
    requires ReadLe32(cfg, lo) == Ok(low) && ReadLe32(cfg, hi) == Ok(high)
    ensures ReadLe64FromHalves(cfg, lo, hi) == Ok(low + 0x1_0000_0000 * high)
  {
    hide ReadLe32;
    Pow2Words();
    OrIsSum(high, 32, low);
  }

  lemma BodyByteRead(cfg: Config, e: Entry, next: Byte, k: nat)
    requires Holds(cfg, e, next) && e.Virtio? && CAP_SIZE <= k < Length(e)
    ensures cfg[e.at + k] == BodyAt(e, k)
  {
    hide BodyAt;
    assert cfg[e.at + k] == ByteAt(e, next, k);
  }

  lemma BodyWordRead(cfg: Config, e: Entry, next: Byte, k: nat)
    requires Holds(cfg, e, next) && e.Virtio? && CAP_SIZE <= k && k + 4 <= Length(e)
    ensures e.at + k + 4 <= |cfg|
    ensures BodyWord(e, k) < 0x1_0000_0000 && ReadLe32(cfg, e.at + k) == Ok(BodyWord(e, k))
  {
    BodyByteRead(cfg, e, next, k);
    BodyByteRead(cfg, e, next, k + 1);
    BodyByteRead(cfg, e, next, k + 2);
    BodyByteRead(cfg, e, next, k + 3);
    hide BodyAt, ByteAt, ReadLe32;
    Le32Sum(cfg, e.at + k);
  }

  lemma MultiplierWord(e: Entry)
    requires e.Virtio? && e.form.WithMultiplier? && Fits(e.form, e.cap)
    ensures BodyWord(e, 16) == e.cap.multiplier
  {
    BytesSum(e.cap.multiplier);
    hide ByteOf;
  }

  /** What the program reads of a virtio capability that has been laid out. */
  lemma ReadsFields(cfg: Config, e: Entry, next: Byte)
    requires Holds(cfg, e, next) && e.Virtio?
    ensures ReadLe32(cfg, e.at + 8) == Ok(e.cap.offset % 0x1_0000_0000)
    ensures ReadLe32(cfg, e.at + 12) == Ok(e.cap.length % 0x1_0000_0000)
    ensures Length(e) >= CAP64_SIZE ==>
              && ReadLe64FromHalves(cfg, e.at + 8, e.at + 16) == Ok(Parsed(e).offset)
              && ReadLe64FromHalves(cfg, e.at + 12, e.at + 20) == Ok(Parsed(e).length)
    ensures e.form.WithMultiplier? ==> ReadLe32(cfg, e.at + 16) == Ok(e.cap.multiplier)
  {
    hide ReadLe32, ReadLe64FromHalves, ByteOf, BodyAt, BodyWord;
    var low, length := e.cap.offset % 0x1_0000_0000, e.cap.length % 0x1_0000_0000;
    WordAt(cfg, e, next, 8, low);
    WordAt(cfg, e, next, 12, length);
    if e.form.WithMultiplier? {
      MultiplierWord(e);
      BodyWordRead(cfg, e, next, 16);
    }
    if Length(e) >= CAP64_SIZE {
      BodyWordRead(cfg, e, next, 16);
      BodyWordRead(cfg, e, next, 20);
      hide Holds;
      HalvesSum(cfg, e.at + 8, e.at + 16, low, BodyWord(e, 16));
      HalvesSum(cfg, e.at + 12, e.at + 20, length, BodyWord(e, 20));
    }
  }

  /** Any capability that has been laid out is read as `Parsed` says; others are skipped. */
  lemma ReadsBack(cfg: Config, e: Entry, next: Byte)
    requires Holds(cfg, e, next)
    ensures ReadElement(cfg, e.at) == Ok(Element(ParsedOf(e), next))
  {
    hide ReadLe32, ReadLe64FromHalves, ByteOf, BodyAt;
    assert cfg[e.at + 0] == ByteAt(e, next, 0) && cfg[e.at + 1] == ByteAt(e, next, 1);
    if e.Virtio? {
      VirtioReadsBack(cfg, e, next);
    } else if e.Vendor? {
      assert cfg[e.at + 2] == ByteAt(e, next, 2);
    }
  }

  lemma CapReadsBack(cfg: Config, e: Entry, next: Byte)
    requires Holds(cfg, e, next) && e.Virtio?
    ensures ReadVirtioCap(cfg, e.at, Length(e)) == Ok(Parsed(e))
  {
    hide ReadLe32, ReadLe64FromHalves, ByteOf, BodyAt, BodyWord;
    ReadsFields(cfg, e, next);
    assert cfg[e.at + 3] == ByteAt(e, next, 3) && cfg[e.at + 4] == ByteAt(e, next, 4);
    assert cfg[e.at + 3] == e.cap.cfgType && cfg[e.at + 4] == e.cap.bar;
    hide Holds, ByteAt;
  }

  lemma VirtioReadsBack(cfg: Config, e: Entry, next: Byte)
    requires Holds(cfg, e, next) && e.Virtio?
    ensures ReadElement(cfg, e.at) == Ok(Element(Some(Parsed(e)), next))
  {
    hide ReadVirtioCap, Parsed, ByteOf, BodyAt;
    CapReadsBack(cfg, e, next);
    assert cfg[e.at + 0] == ByteAt(e, next, 0) && cfg[e.at + 1] == ByteAt(e, next, 1);
    assert cfg[e.at + 2] == ByteAt(e, next, 2);
  }

  predicate Apart(a: Entry, b: Entry) {
    a.at + Extent(a) <= b.at || b.at + Extent(b) <= a.at
  }

  /** A list to lay out in a region of `size` bytes: its elements are aligned, beyond the header, and apart. */
  ghost predicate Chain(es: seq<Entry>, size: nat) {
    && (forall i | 0 <= i < |es| :: WellFormed(es[i], size))
    && (forall i, j | 0 <= i < j < |es| :: Apart(es[i], es[j]))
  }

  /** What the two low bits of the pointers are; the first pointer is the one in the header. */
  type LowBits = nat -> TwoBits

  type TwoBits = b: nat | b < 4

  function NoLowBits(i: nat): TwoBits {
    0
  }

  function NextPointer(es: seq<Entry>, low: LowBits, tail: Byte, i: nat): (p: Byte)
    requires forall j | 0 <= j < |es| :: es[j].at < 0x100 && es[j].at % 4 == 0
    ensures i < |es| ==> p - p % 4 == es[i].at
  {
    if i < |es| then es[i].at + low(i) else tail
  }

  /** A pointer at which a list ends: null, outside the region, or back to one of its elements. */
  ghost predicate EndsList(es: seq<Entry>, size: nat, tail: Byte) {
    var at := tail - tail % 4;
    tail == 0 || at < 0x40 || at + 2 > size || exists j :: 0 <= j < |es| && es[j].at == at
  }

  /** The virtio capabilities of a list as they were meant, and as the program understands them. */
  function CapsOf(es: seq<Entry>): seq<Cap> {
    if es == [] then [] else Optional(CapOf(es[0])) + CapsOf(es[1..])
  }

  function ParsedCaps(es: seq<Entry>): seq<Cap> {
    if es == [] then [] else Optional(ParsedOf(es[0])) + ParsedCaps(es[1..])
  }

  ghost predicate LaidOut(cfg: Config, es: seq<Entry>, low: LowBits, tail: Byte) {
    && (forall j | 0 <= j < |es| :: es[j].at < 0x100 && es[j].at % 4 == 0)
    && forall i | 0 <= i < |es| :: Holds(cfg, es[i], NextPointer(es, low, tail, i + 1))
  }

  /** Where the first `i` elements start. */
  ghost function Starts(es: seq<Entry>, i: nat): set<nat>
    requires i <= |es|
  {
    set j | 0 <= j < i :: es[j].at
  }

  lemma {:induction false} WalkReads(cfg: Config, es: seq<Entry>, low: LowBits, tail: Byte, i: nat)
    requires LaidOut(cfg, es, low, tail) && Chain(es, |cfg|) && EndsList(es, |cfg|, tail) && i <= |es|
    ensures Walk(cfg, NextPointer(es, low, tail, i), Starts(es, i)) == Ok(ParsedCaps(es[i..]))
    decreases |es| - i
  {
    hide Walk, Chain, Holds, ReadElement, Starts, Optional, ParsedOf, ParsedCaps, NextPointer, EndsList;
    if i < |es| {
      WalkReads(cfg, es, low, tail, i + 1);
      WalkReadsOne(cfg, es, low, tail, i);
    } else {
      TailEnds(es, |cfg|, low, tail);
      WalkEnds(cfg, tail, Starts(es, i), []);
      PrependNothing(Walk(cfg, tail, Starts(es, i)));
      CapsFrom(es, i);
    }
  }

  /** At the end of the list the walk ends: also when the list runs back into itself. */
  lemma TailEnds(es: seq<Entry>, size: nat, low: LowBits, tail: Byte)
    requires Chain(es, size) && EndsList(es, size, tail)
    ensures forall j | 0 <= j < |es| :: es[j].at < 0x100 && es[j].at % 4 == 0
    ensures NextPointer(es, low, tail, |es|) == tail
    ensures var at := tail - tail % 4; tail == 0 || at < 0x40 || at + 2 > size || at in Starts(es, |es|)
  {
    hide Fits;
    assert forall j | 0 <= j < |es| :: WellFormed(es[j], size);
  }

  lemma WalkReadsOne(cfg: Config, es: seq<Entry>, low: LowBits, tail: Byte, i: nat)
    requires LaidOut(cfg, es, low, tail) && Chain(es, |cfg|) && i < |es|
    requires Walk(cfg, NextPointer(es, low, tail, i + 1), Starts(es, i + 1)) == Ok(ParsedCaps(es[i + 1..]))
    ensures Walk(cfg, NextPointer(es, low, tail, i), Starts(es, i)) == Ok(ParsedCaps(es[i..]))
  {
    hide Walk, Chain, Holds, ReadElement, Starts, Optional, ParsedOf, ParsedCaps, NextPointer;
    ElementReads(cfg, es, low, tail, i);
    CapsFrom(es, i);
    var cap, next := NextPointer(es, low, tail, i), NextPointer(es, low, tail, i + 1);
    hide LaidOut;
    WalkElement(cfg, cap, Starts(es, i), Element(ParsedOf(es[i]), next));
  }

  lemma CapsFrom(es: seq<Entry>, i: nat)
    requires i <= |es|
    ensures ParsedCaps(es[i..]) == if i < |es| then Optional(ParsedOf(es[i])) + ParsedCaps(es[i + 1..]) else []
  {
    if i < |es| { assert es[i..][1..] == es[i + 1..]; }
  }

  lemma WalkElement(cfg: Config, cap: Byte, visited: set<nat>, e: Element)
    requires var at := cap - cap % 4;
             Slot(at) && at + 2 <= |cfg| && at !in visited && ReadElement(cfg, at) == Ok(e)
    ensures Walk(cfg, cap, visited) == Prepend(Optional(e.cap), Walk(cfg, e.next, visited + {cap - cap % 4}))
  {
    hide Walk, ReadElement;
    WalkStep(cfg, cap, visited, []);
    PrependNothing(Walk(cfg, cap, visited));
    assert [] + Optional(e.cap) == Optional(e.cap);
  }

  lemma ElementReads(cfg: Config, es: seq<Entry>, low: LowBits, tail: Byte, i: nat)
    requires LaidOut(cfg, es, low, tail) && Chain(es, |cfg|) && i < |es|
    ensures ReadElement(cfg, es[i].at) == Ok(Element(ParsedOf(es[i]), NextPointer(es, low, tail, i + 1)))
    ensures 0x40 <= es[i].at < 0x100 && es[i].at % 4 == 0 && es[i].at + 2 <= |cfg|
    ensures es[i].at !in Starts(es, i) && Starts(es, i + 1) == Starts(es, i) + {es[i].at}
  {
    hide ReadElement, Holds, Fits, ParsedOf;
    assert WellFormed(es[i], |cfg|) && Holds(cfg, es[i], NextPointer(es, low, tail, i + 1));
    ReadsBack(cfg, es[i], NextPointer(es, low, tail, i + 1));
    StartsApart(es, i, |cfg|);
  }

  /** No element starts where an earlier one does. */
  lemma StartsApart(es: seq<Entry>, i: nat, size: nat)
    requires Chain(es, size) && i < |es|
    ensures es[i].at !in Starts(es, i) && Starts(es, i + 1) == Starts(es, i) + {es[i].at}
  {
    hide WellFormed;
    forall j | 0 <= j < i ensures es[j].at != es[i].at {
      assert Apart(es[j], es[i]);
    }
  }

  // ----- writing the list -----

  function ByteIn(cfg: Config, e: Entry, next: Byte, j: nat): Byte
    requires WellFormed(e, |cfg|) && j < |cfg|
  {
    if e.at <= j < e.at + Extent(e) then ByteAt(e, next, j - e.at) else cfg[j]
  }

  function Put(cfg: Config, e: Entry, next: Byte): (r: Config)
    requires WellFormed(e, |cfg|)
    ensures |r| == |cfg|
  {
    seq(|cfg|, j requires 0 <= j < |cfg| => ByteIn(cfg, e, next, j))
  }

  lemma PutHolds(cfg: Config, e: Entry, next: Byte)
    requires WellFormed(e, |cfg|)
    ensures Holds(Put(cfg, e, next), e, next)
  {
  }

  lemma PutKeepsOthers(cfg: Config, e: Entry, next: Byte, other: Entry, next': Byte)
    requires WellFormed(e, |cfg|) && Holds(cfg, other, next') && Apart(other, e)
    ensures Holds(Put(cfg, e, next), other, next')
  {
    hide ByteAt;
    var r := Put(cfg, e, next);
    forall k: nat | k < Extent(other) ensures r[other.at + k] == ByteAt(other, next', k) {
      assert cfg[other.at + k] == ByteAt(other, next', k);
    }
  }

  /** Writes the first `n` elements of the list. */
  ghost function PutAll(cfg: Config, es: seq<Entry>, low: LowBits, tail: Byte, n: nat): (r: Config)
    requires Chain(es, |cfg|) && n <= |es|
    ensures |r| == |cfg|
  {
    if n == 0 then cfg
    else Put(PutAll(cfg, es, low, tail, n - 1), es[n - 1], NextPointer(es, low, tail, n))
  }

  lemma {:induction false} PutAllHolds(cfg: Config, es: seq<Entry>, low: LowBits, tail: Byte, n: nat)
    requires Chain(es, |cfg|) && n <= |es|
    ensures forall i | 0 <= i < n :: Holds(PutAll(cfg, es, low, tail, n), es[i], NextPointer(es, low, tail, i + 1))
    ensures forall j | 0 <= j < 0x40 && j < |cfg| :: PutAll(cfg, es, low, tail, n)[j] == cfg[j]
  {
    if n > 0 {
      PutAllHolds(cfg, es, low, tail, n - 1);
      PutLast(PutAll(cfg, es, low, tail, n - 1), es, low, tail, n);
      hide Holds, Put;
    }
  }

  lemma PutLast(cfg: Config, es: seq<Entry>, low: LowBits, tail: Byte, n: nat)
    requires Chain(es, |cfg|) && 0 < n <= |es|
    requires forall i | 0 <= i < n - 1 :: Holds(cfg, es[i], NextPointer(es, low, tail, i + 1))
    ensures WellFormed(es[n - 1], |cfg|)
    ensures var r := Put(cfg, es[n - 1], NextPointer(es, low, tail, n));
            && (forall i | 0 <= i < n :: Holds(r, es[i], NextPointer(es, low, tail, i + 1)))
            && (forall j | 0 <= j < 0x40 && j < |cfg| :: r[j] == cfg[j])
  {
    var last, next := es[n - 1], NextPointer(es, low, tail, n);
    assert WellFormed(last, |cfg|);
    PutHolds(cfg, last, next);
    PutKeepsHeader(cfg, last, next);
    hide Holds, Put, WellFormed;
    forall i | 0 <= i < n - 1 ensures Holds(Put(cfg, last, next), es[i], NextPointer(es, low, tail, i + 1)) {
      assert Apart(es[i], es[n - 1]);
      PutKeepsOthers(cfg, last, next, es[i], NextPointer(es, low, tail, i + 1));
    }
  }

  lemma PutKeepsHeader(cfg: Config, e: Entry, next: Byte)
    requires WellFormed(e, |cfg|)
    ensures forall j | 0 <= j < 0x40 && j < |cfg| :: Put(cfg, e, next)[j] == cfg[j]
  {
    hide ByteAt;
  }

  /** The header announces a list with this pointer to its first element. */
  ghost predicate Announces(cfg: Config, first: Byte) {
    && |cfg| >= 0x40
    && And(cfg[PCI_STATUS], PCI_STATUS_CAP_LIST) != 0
    && cfg[PCI_CAPABILITY_LIST] == first
  }

  /** Laying out any list of capabilities, with any low bits in its pointers and any end, and reading it returns the
      virtio capabilities among them, in list order, as the program understands them; they are what was meant if and
      only if all of them are unambiguous. */
  lemma RoundTrip(cfg: Config, es: seq<Entry>, low: LowBits, tail: Byte)
    requires Chain(es, |cfg|)
    requires EndsList(es, |cfg|, tail) && Announces(cfg, NextPointer(es, low, tail, 0))
    ensures Capabilities(PutAll(cfg, es, low, tail, |es|)) == Ok(ParsedCaps(es))
    ensures Capabilities(PutAll(cfg, es, low, tail, |es|)) == Ok(CapsOf(es)) <==>
              forall i | 0 <= i < |es| && es[i].Virtio? :: Unambiguous(es[i])
  {
    WalkReturns(cfg, es, low, tail);
    AllAsMeant(es, |cfg|);
  }

  /** Without the bit in the status register there is no list. */
  lemma NoListAnnounced(cfg: Config)
    requires |cfg| >= 0x40 && And(cfg[PCI_STATUS], PCI_STATUS_CAP_LIST) == 0
    ensures Capabilities(cfg) == Ok([])
  {
    StatusBit(cfg);
    hide Walk, And;
  }

  lemma WalkReturns(cfg: Config, es: seq<Entry>, low: LowBits, tail: Byte)
    requires Chain(es, |cfg|) && EndsList(es, |cfg|, tail) && Announces(cfg, NextPointer(es, low, tail, 0))
    ensures Capabilities(PutAll(cfg, es, low, tail, |es|)) == Ok(ParsedCaps(es))
  {
    var r := PutAll(cfg, es, low, tail, |es|);
    PutAllHolds(cfg, es, low, tail, |es|);
    WalkReads(r, es, low, tail, 0);
    assert es[0..] == es && Starts(es, 0) == {};
    StatusBit(r);
    hide Walk, PutAll, Chain;
  }

  lemma {:induction false} AllAsMeant(es: seq<Entry>, size: nat)
    requires forall i | 0 <= i < |es| :: WellFormed(es[i], size)
    ensures |ParsedCaps(es)| == |CapsOf(es)|
    ensures ParsedCaps(es) == CapsOf(es) <==> forall i | 0 <= i < |es| && es[i].Virtio? :: Unambiguous(es[i])
  {
    if es != [] {
      var rest := es[1..];
      AllAsMeant(rest, size);
      if es[0].Virtio? { ParsedAsMeant(es[0], size); }
      hide Parsed, Unambiguous, WellFormed;
      var a, b := Optional(ParsedOf(es[0])), Optional(CapOf(es[0]));
      assert ParsedCaps(es)[..|a|] == a && ParsedCaps(es)[|a|..] == ParsedCaps(rest);
      assert CapsOf(es)[..|b|] == b && CapsOf(es)[|b|..] == CapsOf(rest);
      assert forall i | 0 < i < |es| :: es[i] == rest[i - 1];
    }
  }

  /** A configuration space with an empty list to lay capabilities out in. */
  function Header(first: Byte): (cfg: Config)
    ensures |cfg| == 0x100 && cfg[PCI_STATUS] == PCI_STATUS_CAP_LIST && cfg[PCI_CAPABILITY_LIST] == first
  {
    seq(0x100, i => if i == PCI_STATUS then PCI_STATUS_CAP_LIST else if i == PCI_CAPABILITY_LIST then first else 0)
  }

  /** A NOTIFY_CFG capability with four bytes of padding. */
  function PaddedNotify(offset: Word32, length: Word32, multiplier: Word32): Entry {
    Virtio(0x40, WithMultiplier, Cap(NOTIFY_CFG, 0, offset, length, multiplier), [0, 0, 0], [0, 0, 0, 0])
  }

  lemma HeaderAnnounces(first: Byte)
    ensures Announces(Header(first), first)
  {
    AndBit(PCI_STATUS_CAP_LIST, 4);
    assert Pow2(4) == 16 && Bit(16, 4) == Bit(8, 3) == Bit(4, 2) == Bit(2, 1) == Bit(1, 0);
  }

  lemma PaddedNotifyParsed(offset: Word32, length: Word32, multiplier: Word32)
    ensures var e := PaddedNotify(offset, length, multiplier);
            && WellFormed(e, 0x100)
            && Parsed(e) == Cap(NOTIFY_CFG, 0, offset + 0x1_0000_0000 * multiplier, length, multiplier)
  {
    var e := PaddedNotify(offset, length, multiplier);
    MultiplierWord(e);
    BodyWordZero(e, 20);
    hide BodyWord;
  }

  /** Its multiplier is taken for the high half of its offset as well. */
  lemma PaddedNotifyIsMisread(offset: Word32, length: Word32, multiplier: Word32)
    ensures Chain([PaddedNotify(offset, length, multiplier)], 0x100)
    ensures Capabilities(PutAll(Header(0x40), [PaddedNotify(offset, length, multiplier)], NoLowBits, 0, 1))
            == Ok([Cap(NOTIFY_CFG, 0, offset + 0x1_0000_0000 * multiplier, length, multiplier)])
  {
    var e := PaddedNotify(offset, length, multiplier);
    PaddedNotifyParsed(offset, length, multiplier);
    HeaderAnnounces(0x40);
    assert e.at == 0x40 && NextPointer([e], NoLowBits, 0, 0) == 0x40;
    hide WellFormed, Announces, Parsed, Header, PaddedNotify, Capabilities, PutAll;
    WalkReturns(Header(0x40), [e], NoLowBits, 0);
    assert ParsedCaps([e]) == [Parsed(e)];
  }

  /** Padded in this way, as section 4.1.4 of VIRTIO 1.2 allows, the capability at offset 0x3000 with multiplier 4 is
      understood to be at 0x4_0000_3000. */
  lemma PaddedNotifyExample()
    ensures Chain([PaddedNotify(0x3000, 0x1000, 4)], 0x100) && !Unambiguous(PaddedNotify(0x3000, 0x1000, 4))
    ensures Capabilities(PutAll(Header(0x40), [PaddedNotify(0x3000, 0x1000, 4)], NoLowBits, 0, 1))
            == Ok([Cap(NOTIFY_CFG, 0, 0x4_0000_3000, 0x1000, 4)])
  {
    var e := PaddedNotify(0x3000, 0x1000, 4);
    PaddedNotifyIsMisread(0x3000, 0x1000, 4);
    assert BodyAt(e, 16) == 4;
  }

  /** The bit that announces the list is in the low byte of the status register. */
  lemma StatusBit(cfg: Config)
    requires |cfg| >= 0x40
    ensures ReadLe16(cfg, PCI_STATUS).Ok?
    ensures And(ReadLe16(cfg, PCI_STATUS).value, PCI_STATUS_CAP_LIST) != 0 <==>
              And(cfg[PCI_STATUS], PCI_STATUS_CAP_LIST) != 0
  {
    var lo: nat, hi: nat := cfg[PCI_STATUS], cfg[PCI_STATUS + 1];
    Pow2Words();
    OrIsSum(hi, 8, lo);
    hide Or, And, Pow2;
    BitPlusHigh(hi, lo, 4, 8);
    AndBit(lo, 4);
    AndBit(0x100 * hi + lo, 4);
  }

  // ----- looking a capability up -----

  /** `find_common_cfg` and `find_notify_cfg`: the first capability of a type. */
  method FindCap(caps: seq<Cap>, cfgType: Byte) returns (r: Result<Cap, Error>)
    ensures r.Err? <==> forall j | 0 <= j < |caps| :: caps[j].cfgType != cfgType
    ensures r.Ok? ==>
              exists i :: 0 <= i < |caps| && caps[i] == r.value && r.value.cfgType == cfgType
                          && forall j | 0 <= j < i :: caps[j].cfgType != cfgType
  {
    var i := 0;
    while i < |caps|
      invariant 0 <= i <= |caps|
      invariant forall j | 0 <= j < i :: caps[j].cfgType != cfgType
    {
      if caps[i].cfgType == cfgType {
        return Ok(caps[i]);
      }
      i := i + 1;
    }
    return Err(NotFound);
  }
}
