/** Mapping the COMMON_CFG structure: how much of it is mapped, and which registers can then be accessed. */
module CommonWindow {
  import opened Bits
  import opened Words
  import opened Wrappers
  import opened CommonConfig
  import Notify = NotifyWindow

  /** End of the queue address registers, and of the notification data register after them. */
  const ADDRESSES_END: nat := 56
  const NOTIFY_DATA_END: nat := 58

  datatype Error = NotPresent | NoMmap | PastRegion | TooShort | OutsideSparseArea

  /** The mapping to make, and the number of bytes of the structure it covers. */
  datatype Window = Window(mappingDelta: Word64, mappingSize: nat, mmapOffset: Word64, inspected: nat)

  function Min(a: nat, b: nat): nat {
    if a < b then a else b
  }

  /** `map_common_cfg` up to the mapping itself. */
  method MapCommonCfg(offset: Word64, length: Word64, region: Notify.Region, pageSize: Word64)
    returns (r: Result<Window, Error>)
    requires IsPow2(pageSize)
    ensures r.Ok? <==>
              && region.size != 0 && region.canMmap && offset < region.size && length >= ADDRESSES_END
              && (region.areas == [] ||
                  Notify.InSomeArea(region.areas, offset, Min(Min(length, region.size - offset), NOTIFY_DATA_END)))
    ensures r.Ok? ==>
              var w := r.value;
              && w.inspected == Min(Min(length, region.size - offset), NOTIFY_DATA_END)
              && w.mappingSize == w.mappingDelta + w.inspected
              && w.mappingDelta < pageSize && w.mappingDelta <= offset
              && Notify.PageMultiple(offset - w.mappingDelta, pageSize)
              && w.mmapOffset == Add64(region.offset, offset - w.mappingDelta)
  {
    if region.size == 0 { return Err(NotPresent); }
    if !region.canMmap { return Err(NoMmap); }
    if offset >= region.size { return Err(PastRegion); }
    if length < ADDRESSES_END { return Err(TooShort); }
    var inspected := Min(Min(length, region.size - offset), NOTIFY_DATA_END);
    if region.areas != [] {
      var found := Notify.FindArea(region.areas, offset, inspected);
      if !found { return Err(OutsideSparseArea); }
    }
    hide Notify.InSomeArea;
    var w := Notify.PageWindow(offset, region, pageSize);
    return Ok(Window(w.mappingDelta, w.mappingDelta + inspected, w.mmapOffset, inspected));
  }

  /** `check_range` on a mapping of `inspected` bytes admits exactly the registers that lie in them. */
  lemma AccessibleRegisters(m: Registers, inspected: nat, r: Reg)
    requires m.size == m.delta + inspected
    ensures m.Accessible(r) <==> Offset(r) + Width(r) <= inspected
  {
  }

  /** An accepted structure may still be cut off by the end of its BAR: the queue addresses can be accessed if and only
      if the BAR has room for them, and all registers if and only if it and the structure have room for the
      notification data as well. Whatever can be accessed lies inside the BAR and inside the structure. */
  lemma AcceptedRegisters(m: Registers, offset: Word64, length: Word64, region: Notify.Region)
    requires offset < region.size && length >= ADDRESSES_END
    requires m.size == m.delta + Min(Min(length, region.size - offset), NOTIFY_DATA_END)
    ensures (forall r | r in ADDRESS_REGS :: m.Accessible(r)) <==> offset + ADDRESSES_END <= region.size
    ensures (forall r :: m.Accessible(r)) <==> offset + NOTIFY_DATA_END <= region.size && length >= NOTIFY_DATA_END
    ensures forall r | m.Accessible(r) :: offset + Offset(r) + Width(r) <= region.size && Offset(r) + Width(r) <= length
  {
    var inspected := Min(Min(length, region.size - offset), NOTIFY_DATA_END);
    forall r ensures m.Accessible(r) <==> Offset(r) + Width(r) <= inspected {
      AccessibleRegisters(m, inspected, r);
    }
    assert QUsedHi in ADDRESS_REGS && Offset(QUsedHi) + Width(QUsedHi) == ADDRESSES_END;
    assert Offset(QNotifyData) + Width(QNotifyData) == NOTIFY_DATA_END;
    if !m.Accessible(QUsedHi) { assert inspected < ADDRESSES_END; }
    if !m.Accessible(QNotifyData) { assert inspected < NOTIFY_DATA_END; }
  }
}
