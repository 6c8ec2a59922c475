/** Bringing a virtio queue up and tearing it down: negotiation, programming, one notification, reset, unmap. Any step
    may throw; the guards' destructors then run in reverse order of construction. A `false` result is an exception. */
module BringUp {
  import opened Bits
  import opened Words
  import opened Wrappers
  import opened CommonConfig
  import opened DeviceSetup
  import Vring = VringLayout
  import Notify = NotifyWindow

  // ----- what must hold of the events of a run -----

  predicate ReleasesMemory(e: Event) {
    e.DmaUnmapped? || e.DmaUnmapFailed? || e.BufferFreed?
  }

  predicate Unmaps(e: Event) {
    e.DmaUnmapped? || e.DmaUnmapFailed?
  }

  /** Memory is released only when the device has been reset since the last write that exposed memory to it. */
  ghost predicate ResetBeforeRelease(t: seq<Event>) {
    forall i, k | 0 <= i < k < |t| && Exposes(t[i]) && ReleasesMemory(t[k]) :: exists j :: i < j < k && Resets(t[j])
  }

  /** Addresses are handed to the device, and the notification sent, only while the buffer is mapped for DMA. */
  ghost predicate ExposedWhileMapped(t: seq<Event>) {
    forall k | 0 <= k < |t| && (Exposes(t[k]) || t[k].Notified?) ::
      exists j :: 0 <= j < k && t[j].DmaMapped? && forall i | j < i < k :: !ReleasesMemory(t[i])
  }

  /** The driver never tells the device that it may start. */
  ghost predicate NeverDriverOk(t: seq<Event>) {
    forall k | 0 <= k < |t| && WritesStatus(t[k]) :: !Bit(t[k].value, 2)
  }

  /** A buffer that is mapped is freed only after an attempt to unmap it. */
  ghost predicate UnmapBeforeFree(t: seq<Event>) {
    forall i, k | 0 <= i < k < |t| && t[i].DmaMapped? && t[k].BufferFreed? ::
      exists j :: i < j < k && Unmaps(t[j])
  }

  /** No register is touched once the registers are unmapped. */
  ghost predicate RegistersWhileMapped(t: seq<Event>) {
    forall i, k | 0 <= i < k < |t| && t[i].RegistersUnmapped? :: !t[k].Wrote? && !t[k].DidRead?
  }

  ghost predicate Orderly(t: seq<Event>) {
    && ResetBeforeRelease(t) && ExposedWhileMapped(t) && NeverDriverOk(t) && UnmapBeforeFree(t)
    && RegistersWhileMapped(t)
  }

  /** The queue selector as the run finds it, and as its last write leaves it. */
  function FirstSelectRead(t: seq<Event>): Option<Word32> {
    if t == [] then None
    else
      var last := t[|t| - 1];
      var before := FirstSelectRead(t[..|t| - 1]);
      if before.None? && last.DidRead? && last.reg == QSelect then Some(last.value) else before
  }

  function LastSelectWritten(t: seq<Event>): Option<Word32> {
    if t == [] then None
    else
      var last := t[|t| - 1];
      if last.Wrote? && last.reg == QSelect then Some(last.value) else LastSelectWritten(t[..|t| - 1])
  }

  /** Before event `k` the device was reset and read back as reset, with nothing exposed and no status written since. */
  ghost predicate ConfirmedBefore(t: seq<Event>, k: nat)
    requires k <= |t|
  {
    exists j, r :: 0 <= j < r < k && Resets(t[j]) && t[r] == DidRead(Status, 0)
                   && forall i | j < i < k :: !Exposes(t[i]) && !WritesStatus(t[i])
  }

  /** The memory is unmapped, and only after the device has answered its reset. */
  ghost predicate UnmappedAfterConfirmedReset(t: seq<Event>) {
    && (exists k :: 0 <= k < |t| && t[k].DmaUnmapped?)
    && forall k | 0 <= k < |t| && t[k].DmaUnmapped? :: ConfirmedBefore(t, k)
  }

  // ----- a finite summary of the events so far -----

  /** `exposed`: the device may use driver memory. `backed`: the buffer is mapped. `reset`: the last status written is 0
      and nothing was exposed since; `confirmed`: it has also been read back; `early`: the buffer was unmapped without
      that; `told`: the notifications sent; `gone`: the registers are unmapped. */
  datatype Watch = Watch(
    exposed: bool, backed: bool, held: bool, reset: bool, confirmed: bool,
    unmapped: bool, early: bool, told: seq<Event>, gone: bool)

  const START: Watch := Watch(false, false, false, false, false, false, false, [], false)

  function After(w: Watch, e: Event): Watch {
    match e
    case DidRead(r, v) => w.(confirmed := w.confirmed || (r == Status && v == 0 && w.reset))
    case Wrote(r, v) =>
      w.(exposed := if r == Status then w.exposed && v != 0 else w.exposed || Exposes(e),
         reset := if r == Status then v == 0 else w.reset && !Exposes(e),
         confirmed := w.confirmed && r != Status && !Exposes(e))
    case DmaMapped => w.(backed := true, held := true)
    case DmaUnmapped => w.(backed := false, held := false, unmapped := true, early := w.early || !w.confirmed)
    case DmaUnmapFailed => w.(backed := false, held := false)
    case DmaMapFailed | NoMemory | MmapFailed | TimedOut => w
    case BufferFreed => w.(backed := false)
    case Notified(_, _, _) => w.(told := w.told + [e])
    case RegistersUnmapped => w.(gone := true)
  }

  /** Whether an event is allowed after the events summarised. */
  predicate Fine(w: Watch, e: Event) {
    && (ReleasesMemory(e) ==> !w.exposed)
    && (Exposes(e) || e.Notified? ==> w.backed)
    && (e.Wrote? && e.reg == Status ==> !Bit(e.value, 2))
    && (e.BufferFreed? ==> !w.held)
    && ((e.Wrote? || e.DidRead?) ==> !w.gone)
  }

  function Summary(t: seq<Event>): Watch {
    if t == [] then START else After(Summary(t[..|t| - 1]), t[|t| - 1])
  }

  predicate AllFine(t: seq<Event>) {
    t == [] || (AllFine(t[..|t| - 1]) && Fine(Summary(t[..|t| - 1]), t[|t| - 1]))
  }

  lemma AppendEvent(t: seq<Event>, e: Event)
    ensures Summary(t + [e]) == After(Summary(t), e)
    ensures AllFine(t + [e]) <==> AllFine(t) && Fine(Summary(t), e)
    ensures LastSelectWritten(t + [e]) == if e.Wrote? && e.reg == QSelect then Some(e.value) else LastSelectWritten(t)
    ensures FirstSelectRead(t + [e]) ==
              if FirstSelectRead(t).None? && e.DidRead? && e.reg == QSelect then Some(e.value) else FirstSelectRead(t)
    ensures SetupOf(t + [e]) == SetupAfter(SetupOf(t), e)
    ensures AllPermitted(t + [e]) <==> AllPermitted(t) && Permitted(SetupOf(t), e)
  {
    SetupAppend(t, e);
    hide SetupOf, AllPermitted;
    assert (t + [e])[..|t + [e]| - 1] == t;
  }

  // ----- the summary means what it says -----

  lemma AfterMemory(w: Watch, e: Event)
    ensures !After(w, e).exposed ==> !Exposes(e) && (!w.exposed || Resets(e))
    ensures After(w, e).backed ==> e.DmaMapped? || (w.backed && !ReleasesMemory(e))
    ensures !After(w, e).held ==> !e.DmaMapped? && (!w.held || Unmaps(e))
    ensures After(w, e).gone <==> w.gone || e.RegistersUnmapped?
  {
  }

  lemma AfterReset(w: Watch, e: Event)
    ensures After(w, e).reset ==> Resets(e) || (w.reset && !Exposes(e) && !WritesStatus(e))
    ensures After(w, e).confirmed ==>
              (w.confirmed || (w.reset && e == DidRead(Status, 0))) && !Exposes(e) && !WritesStatus(e)
  {
  }

  lemma AfterUnmap(w: Watch, e: Event)
    ensures After(w, e).told == if e.Notified? then w.told + [e] else w.told
    ensures After(w, e).unmapped <==> w.unmapped || e.DmaUnmapped?
    ensures After(w, e).early <==> w.early || (e.DmaUnmapped? && !w.confirmed)
  {
    hide Exposes;
    match e
    case DidRead(_, _) =>
    case Wrote(_, _) =>
    case DmaMapped =>
    case DmaUnmapped =>
    case DmaUnmapFailed =>
    case DmaMapFailed | NoMemory | MmapFailed | TimedOut =>
    case BufferFreed =>
    case Notified(_, _, _) =>
    case RegistersUnmapped =>
  }

  lemma {:induction false} SummaryExposed(t: seq<Event>, i: nat) returns (j: nat)
    requires i < |t| && Exposes(t[i]) && !Summary(t).exposed
    ensures i < j < |t| && Resets(t[j])
  {
    var n := |t| - 1;
    AfterMemory(Summary(t[..n]), t[n]);
    hide After, Exposes, Resets;
    if Resets(t[n]) && i < n {
      j := n;
    } else {
      j := SummaryExposed(t[..n], i);
    }
  }

  lemma {:induction false} SummaryBacked(t: seq<Event>) returns (j: nat)
    requires Summary(t).backed
    ensures j < |t| && t[j].DmaMapped? && forall i | j < i < |t| :: !ReleasesMemory(t[i])
  {
    var n := |t| - 1;
    AfterMemory(Summary(t[..n]), t[n]);
    hide After, ReleasesMemory;
    if t[n].DmaMapped? {
      j := n;
    } else {
      j := SummaryBacked(t[..n]);
      forall i | j < i < |t| ensures !ReleasesMemory(t[i]) {
        if i < n { assert t[..n][i] == t[i]; }
      }
    }
  }

  lemma {:induction false} SummaryHeld(t: seq<Event>, i: nat) returns (j: nat)
    requires i < |t| && t[i].DmaMapped? && !Summary(t).held
    ensures i < j < |t| && Unmaps(t[j])
  {
    var n := |t| - 1;
    AfterMemory(Summary(t[..n]), t[n]);
    hide After, Unmaps;
    if Unmaps(t[n]) && i < n {
      j := n;
    } else {
      j := SummaryHeld(t[..n], i);
    }
  }

  lemma {:induction false} SummaryGone(t: seq<Event>, i: nat)
    requires !Summary(t).gone && i < |t|
    ensures !t[i].RegistersUnmapped?
  {
    var n := |t| - 1;
    AfterMemory(Summary(t[..n]), t[n]);
    hide After;
    if i < n { SummaryGone(t[..n], i); }
  }

  lemma {:induction false} FineAt(t: seq<Event>, k: nat)
    requires AllFine(t) && k < |t|
    ensures Fine(Summary(t[..k]), t[k])
  {
    var n := |t| - 1;
    hide Fine, After;
    if k < n {
      FineAt(t[..n], k);
      assert t[..n][..k] == t[..k];
    }
  }

  /** A run whose events are all fine is orderly. */
  lemma FineIsOrderly(t: seq<Event>)
    requires AllFine(t)
    ensures Orderly(t)
  {
    forall k | 0 <= k < |t| ensures Fine(Summary(t[..k]), t[k]) {
      FineAt(t, k);
    }
    hide AllFine, Summary, Exposes, ReleasesMemory, Resets;
    FineResets(t);
    FineExposes(t);
    FineFrees(t);
    FineRegisters(t);
    hide ResetBeforeRelease, ExposedWhileMapped, UnmapBeforeFree, RegistersWhileMapped;
  }

  ghost predicate FineEverywhere(t: seq<Event>) {
    forall k | 0 <= k < |t| :: Fine(Summary(t[..k]), t[k])
  }

  lemma FineResets(t: seq<Event>)
    requires FineEverywhere(t)
    ensures ResetBeforeRelease(t)
  {
    hide Summary, Exposes, ReleasesMemory, Resets;
    forall i, k | 0 <= i < k < |t| && Exposes(t[i]) && ReleasesMemory(t[k])
      ensures exists j :: i < j < k && Resets(t[j])
    {
      var j := SummaryExposed(t[..k], i);
      assert Resets(t[j]);
    }
  }

  lemma FineExposes(t: seq<Event>)
    requires FineEverywhere(t)
    ensures ExposedWhileMapped(t)
  {
    hide Summary, Exposes, ReleasesMemory;
    forall k | 0 <= k < |t| && (Exposes(t[k]) || t[k].Notified?)
      ensures exists j :: 0 <= j < k && t[j].DmaMapped? && forall i | j < i < k :: !ReleasesMemory(t[i])
    {
      var j := SummaryBacked(t[..k]);
      assert t[j].DmaMapped?;
      forall i | j < i < k ensures !ReleasesMemory(t[i]) {
        assert t[..k][i] == t[i];
      }
    }
  }

  lemma FineFrees(t: seq<Event>)
    requires FineEverywhere(t)
    ensures UnmapBeforeFree(t)
  {
    hide Summary, Exposes, ReleasesMemory, Unmaps;
    forall i, k | 0 <= i < k < |t| && t[i].DmaMapped? && t[k].BufferFreed?
      ensures exists j :: i < j < k && Unmaps(t[j])
    {
      var j := SummaryHeld(t[..k], i);
      assert Unmaps(t[j]);
    }
  }

  lemma FineRegisters(t: seq<Event>)
    requires FineEverywhere(t)
    ensures RegistersWhileMapped(t)
  {
    hide Summary, Exposes, ReleasesMemory;
    forall i, k | 0 <= i < k < |t| && t[i].RegistersUnmapped? ensures !t[k].Wrote? && !t[k].DidRead? {
      if !Summary(t[..k]).gone { SummaryGone(t[..k], i); }
    }
  }

  /** From `from` on no status is written and nothing exposed. */
  ghost predicate QuietFrom(t: seq<Event>, from: nat) {
    forall i | from <= i < |t| :: !Exposes(t[i]) && !WritesStatus(t[i])
  }

  lemma QuietExtends(t: seq<Event>, from: nat)
    requires t != [] && QuietFrom(t[..|t| - 1], from)
    requires !Exposes(t[|t| - 1]) && !WritesStatus(t[|t| - 1])
    ensures QuietFrom(t, from)
  {
    hide Exposes, WritesStatus;
    forall i | from <= i < |t| ensures !Exposes(t[i]) && !WritesStatus(t[i]) {
      if i < |t| - 1 { assert t[..|t| - 1][i] == t[i]; }
    }
  }

  lemma {:induction false} SummaryReset(t: seq<Event>) returns (j: nat)
    requires Summary(t).reset
    ensures j < |t| && Resets(t[j]) && QuietFrom(t, j + 1)
  {
    var n := |t| - 1;
    AfterReset(Summary(t[..n]), t[n]);
    hide After, Resets, Exposes, WritesStatus;
    if Resets(t[n]) {
      j := n;
    } else {
      j := SummaryReset(t[..n]);
      QuietExtends(t, j + 1);
    }
  }

  lemma {:induction false} SummaryConfirmed(t: seq<Event>) returns (j: nat, r: nat)
    requires Summary(t).confirmed
    ensures j < r < |t| && Resets(t[j]) && t[r] == DidRead(Status, 0) && QuietFrom(t, j + 1)
  {
    var n := |t| - 1;
    AfterReset(Summary(t[..n]), t[n]);
    hide After, Resets, Exposes, WritesStatus;
    if Summary(t[..n]).confirmed {
      j, r := SummaryConfirmed(t[..n]);
    } else {
      j := SummaryReset(t[..n]);
      r := n;
    }
    QuietExtends(t, j + 1);
  }

  lemma {:induction false} ConfirmedAt(t: seq<Event>, k: nat)
    requires !Summary(t).early && k < |t| && t[k].DmaUnmapped?
    ensures Summary(t[..k]).confirmed
  {
    var n := |t| - 1;
    AfterUnmap(Summary(t[..n]), t[n]);
    hide After;
    if k < n {
      ConfirmedAt(t[..n], k);
      assert t[..n][..k] == t[..k];
    }
  }

  lemma {:induction false} SummaryUnmapped(t: seq<Event>) returns (k: nat)
    requires Summary(t).unmapped
    ensures k < |t| && t[k].DmaUnmapped?
  {
    var n := |t| - 1;
    AfterUnmap(Summary(t[..n]), t[n]);
    hide After;
    if t[n].DmaUnmapped? {
      k := n;
    } else {
      k := SummaryUnmapped(t[..n]);
    }
  }

  /** The summary keeps all notifications. */
  lemma ToldAppend(t: seq<Event>)
    requires t != []
    ensures var n := |t| - 1; Summary(t).told == Summary(t[..n]).told + if t[n].Notified? then [t[n]] else []
  {
    AfterUnmap(Summary(t[..|t| - 1]), t[|t| - 1]);
    hide After;
  }

  lemma {:induction false} SummaryTold(t: seq<Event>, k: nat)
    requires k < |t| && t[k].Notified?
    ensures t[k] in Summary(t).told
    decreases |t|
  {
    hide Summary;
    ToldAppend(t);
    if k < |t| - 1 { SummaryTold(t[..|t| - 1], k); }
  }

  lemma {:induction false} ToldTwice(t: seq<Event>, i: nat, k: nat)
    requires i < k < |t| && t[i].Notified? && t[k].Notified?
    ensures |Summary(t).told| > 1
    decreases |t|
  {
    hide Summary;
    ToldAppend(t);
    if k < |t| - 1 {
      ToldTwice(t[..|t| - 1], i, k);
    } else {
      SummaryTold(t[..|t| - 1], i);
    }
  }

  lemma {:induction false} ToldSomewhere(t: seq<Event>) returns (k: nat)
    requires Summary(t).told != []
    ensures k < |t| && t[k].Notified?
  {
    var n := |t| - 1;
    AfterUnmap(Summary(t[..n]), t[n]);
    hide After;
    if t[n].Notified? {
      k := n;
    } else {
      k := ToldSomewhere(t[..n]);
    }
  }

  lemma UnmappedInTime(t: seq<Event>)
    requires Summary(t).unmapped && !Summary(t).early
    ensures UnmappedAfterConfirmedReset(t)
  {
    var u := SummaryUnmapped(t);
    forall k | 0 <= k < |t| && t[k].DmaUnmapped? ensures ConfirmedBefore(t, k) {
      ConfirmedAt(t, k);
      var j, r := SummaryConfirmed(t[..k]);
      hide Exposes, Summary, WritesStatus;
      assert Resets(t[j]) && t[r] == DidRead(Status, 0);
      forall i | j < i < k ensures !Exposes(t[i]) && !WritesStatus(t[i]) {
        assert t[..k][i] == t[i];
      }
    }
  }

  // ----- stretches of events that do not matter for the teardown -----

  /** The selector has not been accessed. */
  ghost predicate SameSelects(t: seq<Event>, t': seq<Event>) {
    LastSelectWritten(t') == LastSelectWritten(t) && FirstSelectRead(t') == FirstSelectRead(t)
  }

  /** Only exposure and the reset state of the device may have changed. */
  ghost predicate SameMemory(w: Watch, w': Watch) {
    w' == w.(exposed := w'.exposed, reset := w'.reset, confirmed := w'.confirmed)
  }

  /** The events so far are fine and permitted, and the registers mapped. */
  ghost predicate Going(t: seq<Event>) {
    AllFine(t) && !Summary(t).gone && AllPermitted(t)
  }

  /** Only what a view shows of the queue may have changed in the setup, and that only at its time. */
  ghost predicate OnlyViewed(u: Setup, u': Setup) {
    && u' == u.(count := u'.count, size := u'.size, enable := u'.enable, readBack := u'.readBack,
                notifyOff := u'.notifyOff)
    && (u.programmed && !u.enabled ==> u' == u)
    && (u.enabled ==> u' == u.(readBack := u'.readBack, notifyOff := u'.notifyOff))
  }

  lemma {:induction false} ReadsDoNotMatter(before: seq<Event>, after: seq<Event>)
    requires OnlyReads(before, after) && Going(before)
    ensures Going(after) && Summary(after) == Summary(before) && LastSelectWritten(after) == LastSelectWritten(before)
    ensures FirstSelectRead(before).Some? ==> FirstSelectRead(after) == FirstSelectRead(before)
    ensures OnlyViewed(SetupOf(before), SetupOf(after))
    decreases |after|
  {
    hide Summary, AllFine, LastSelectWritten, FirstSelectRead, SetupOf, AllPermitted, Going, OnlyViewed;
    if after != before {
      var n := |after| - 1;
      ReadsDoNotMatter(before, after[..n]);
      assert after == after[..n] + [after[n]];
      ReadDoesNotMatter(after[..n], after[n]);
      ViewedTwice(SetupOf(before), SetupOf(after[..n]), SetupOf(after));
    } else {
      ViewedNothing(SetupOf(before));
    }
  }

  lemma ReadDoesNotMatter(t: seq<Event>, e: Event)
    requires Going(t) && e.DidRead? && e.reg != Status
    ensures Going(t + [e]) && Summary(t + [e]) == Summary(t) && LastSelectWritten(t + [e]) == LastSelectWritten(t)
    ensures FirstSelectRead(t).Some? ==> FirstSelectRead(t + [e]) == FirstSelectRead(t)
    ensures OnlyViewed(SetupOf(t), SetupOf(t + [e]))
  {
    hide Summary, AllFine, LastSelectWritten, FirstSelectRead, SetupOf, AllPermitted;
    AppendEvent(t, e);
  }

  lemma ViewedTwice(a: Setup, b: Setup, c: Setup)
    requires OnlyViewed(a, b) && OnlyViewed(b, c)
    ensures OnlyViewed(a, c)
  {
  }

  lemma ViewedNothing(u: Setup)
    ensures OnlyViewed(u, u)
  {
  }

  lemma {:induction false} AddressesDoNotMatter(before: seq<Event>, after: seq<Event>)
    requires OnlyReadsAddresses(before, after)
    ensures SetupOf(after) == SetupOf(before)
    decreases |after|
  {
    if after != before {
      var n := |after| - 1;
      AddressesDoNotMatter(before, after[..n]);
      assert after == after[..n] + [after[n]];
      SetupAppend(after[..n], after[n]);
      hide SetupOf, AllPermitted;
    }
  }

  /** What a view leaves in the summary, when it is read before anything is exposed, and after the queue is enabled. */
  lemma ViewSeen(t: seq<Event>, t': seq<Event>, view: QueueView)
    requires OnlyReadsAddresses(t + FieldReads(view), t')
    ensures var u, u' := SetupOf(t), SetupOf(t');
            && (!u.programmed && !u.enabled ==> u' == u.(size := Some(view.size), enable := Some(view.enable)))
            && (u.enabled ==> u' == u.(readBack := Some(view.enable), notifyOff := Some(view.notifyOff)))
  {
    hide SetupOf, OnlyReadsAddresses;
    AddressesDoNotMatter(t + FieldReads(view), t');
    var t1 := t + [DidRead(QSelect, view.selected)];
    var t2 := t1 + [DidRead(QSize, view.size)];
    var t4 := t2 + [DidRead(QMsix, view.msix)] + [DidRead(QEnable, view.enable)];
    assert t4 + [DidRead(QNotifyOff, view.notifyOff)] + [DidRead(QNotifyData, view.notifyData)] == t + FieldReads(view);
    TwoReads(t, QSelect, view.selected, QSize, view.size);
    TwoReads(t2, QMsix, view.msix, QEnable, view.enable);
    TwoReads(t4, QNotifyOff, view.notifyOff, QNotifyData, view.notifyData);
  }

  lemma TwoReads(t: seq<Event>, a: Reg, x: Word32, b: Reg, y: Word32)
    ensures SetupOf(t + [DidRead(a, x)] + [DidRead(b, y)])
            == SetupAfter(SetupAfter(SetupOf(t), DidRead(a, x)), DidRead(b, y))
  {
    hide SetupOf, AllPermitted, SetupAfter;
    SetupAppend(t, DidRead(a, x));
    SetupAppend(t + [DidRead(a, x)], DidRead(b, y));
  }

  /** Registers that have nothing to do with the status or with a queue. */
  ghost predicate Harmless(regs: set<Reg>) {
    regs !! ADDRESS_REGS + {Status, NumQueues, QSelect, QSize, QEnable, QNotifyOff}
  }

  lemma {:induction false} TouchesDoNotMatter(before: seq<Event>, after: seq<Event>, regs: set<Reg>)
    requires OnlyTouches(before, after, regs) && Going(before) && Harmless(regs)
    requires Gf in regs ==> SetupOf(before).phase.DriverKnown?
    ensures Going(after) && Summary(after) == Summary(before) && SameSelects(before, after)
    ensures SetupOf(after) == SetupOf(before)
    decreases |after|
  {
    hide Summary, AllFine, LastSelectWritten, FirstSelectRead, SetupOf, AllPermitted, Going;
    if after != before {
      var n := |after| - 1;
      TouchesDoNotMatter(before, after[..n], regs);
      assert after == after[..n] + [after[n]];
      TouchDoesNotMatter(after[..n], after[n], regs);
    }
  }

  lemma TouchDoesNotMatter(t: seq<Event>, e: Event, regs: set<Reg>)
    requires Going(t) && (e.DidRead? || e.Wrote?) && e.reg in regs && Harmless(regs)
    requires Gf in regs ==> SetupOf(t).phase.DriverKnown?
    ensures Going(t + [e]) && Summary(t + [e]) == Summary(t) && SameSelects(t, t + [e])
    ensures SetupOf(t + [e]) == SetupOf(t)
  {
    hide Summary, AllFine, LastSelectWritten, FirstSelectRead, SetupOf, AllPermitted;
    AppendEvent(t, e);
  }

  /** The rest of the machine has refused something: nothing else has changed. */
  lemma RefusalNoted(t: seq<Event>, e: Event)
    requires Going(t) && Refusal(e) && !e.DmaUnmapFailed?
    ensures Going(t + [e]) && Summary(t + [e]) == Summary(t) && SameSelects(t, t + [e])
    ensures SetupOf(t + [e]) == SetupOf(t).(troubled := true)
  {
    hide Summary, AllFine, LastSelectWritten, FirstSelectRead, SetupOf, AllPermitted;
    AppendEvent(t, e);
  }

  lemma {:induction false} WritesDoNotRelease(before: seq<Event>, after: seq<Event>)
    requires OnlyWrites(before, after, ADDRESS_REGS + {QSize}) && Going(before) && Summary(before).backed
    requires SetupOf(before).phase.Accepted? && QueueReady(SetupOf(before))
    ensures Going(after) && SameMemory(Summary(before), Summary(after)) && SameSelects(before, after)
    ensures SetupOf(after) == SetupOf(before).(programmed := SetupOf(after).programmed)
    ensures EndsWithWrite(after, QUsedHi) || SetupOf(before).programmed ==> SetupOf(after).programmed
    decreases |after|
  {
    hide Summary, AllFine, LastSelectWritten, FirstSelectRead, SetupOf, AllPermitted;
    if after != before {
      var n := |after| - 1;
      WritesDoNotRelease(before, after[..n]);
      assert after == after[..n] + [after[n]];
      WriteDoesNotRelease(after[..n], after[n]);
      hide After, SetupAfter, Going, QueueReady;
    } else {
      EndsExposed(after);
    }
  }

  lemma EndsExposed(t: seq<Event>)
    ensures EndsWithWrite(t, QUsedHi) ==> SetupOf(t).programmed
  {
  }

  lemma WriteDoesNotRelease(t: seq<Event>, e: Event)
    requires Going(t) && Summary(t).backed && SetupOf(t).phase.Accepted? && QueueReady(SetupOf(t))
    requires e.Wrote? && e.reg in ADDRESS_REGS + {QSize}
    ensures Going(t + [e]) && SameMemory(Summary(t), Summary(t + [e])) && SameSelects(t, t + [e])
    ensures SetupOf(t + [e]) == SetupOf(t).(programmed := SetupOf(t + [e]).programmed)
    ensures EndsWithWrite(t + [e], QUsedHi) || SetupOf(t).programmed ==> SetupOf(t + [e]).programmed
  {
    hide Summary, AllFine, LastSelectWritten, FirstSelectRead, SetupOf, AllPermitted;
    AppendEvent(t, e);
  }

  // ----- the status register -----

  /** After a reset the device is no longer exposed; nothing else has changed. */
  ghost predicate Calmed(w: Watch, w': Watch) {
    SameMemory(w, w') && (w'.exposed ==> w.exposed)
  }

  /** Of the setup only the handshake may have moved, or met with trouble. */
  ghost predicate OnlyPhase(u: Setup, u': Setup) {
    u' == u.(phase := u'.phase, troubled := u'.troubled) && (u.troubled ==> u'.troubled)
  }

  /** It succeeded without trouble, or failed for a reason. */
  ghost predicate Justified(m: Registers, ok: bool, u: Setup, u': Setup)
    reads m
  {
    && (ok ==> u'.troubled == u.troubled)
    && (m.AllAccessible() ==> ok || u'.troubled)
  }

  lemma StatusWritten(t: seq<Event>, status: Word32)
    requires Going(t) && !Bit(status, 2)
    ensures var t' := t + [Wrote(Status, status)];
            && Going(t') && SameSelects(t, t') && Calmed(Summary(t), Summary(t'))
            && (status == 0 ==> !Summary(t').exposed && Summary(t').reset)
            && SetupOf(t') == SetupOf(t).(phase := AfterStatus(SetupOf(t).phase, status))
  {
    hide Summary, AllFine, LastSelectWritten, FirstSelectRead, SetupOf, AllPermitted, Bit, AfterStatus;
    AppendEvent(t, Wrote(Status, status));
  }

  method WriteStatus(m: Registers, status: Word32) returns (ok: bool)
    requires Going(m.trace) && !Bit(status, 2)
    modifies m
    ensures Going(m.trace) && SameSelects(old(m.trace), m.trace) && Calmed(Summary(old(m.trace)), Summary(m.trace))
    ensures ok <==> m.Accessible(Status)
    ensures ok && status == 0 ==> !Summary(m.trace).exposed && Summary(m.trace).reset
    ensures status != 0 ==> m.device == old(m.device)
    ensures m.device.offered == old(m.device.offered)
    ensures var u := SetupOf(old(m.trace));
            SetupOf(m.trace) == if ok then u.(phase := AfterStatus(u.phase, status)) else u
  {
    hide Summary, AllFine, LastSelectWritten, FirstSelectRead, SetupOf, AllPermitted, Bit, AfterStatus, Going;
    StatusWritten(m.trace, status);
    ok := m.Write(Status, status);
    assert !ok ==> m.trace == old(m.trace);
  }

  method ReadStatus(m: Registers) returns (v: Option<Word32>)
    requires Going(m.trace)
    modifies m`trace
    ensures Going(m.trace) && SameSelects(old(m.trace), m.trace) && Calmed(Summary(old(m.trace)), Summary(m.trace))
    ensures Summary(m.trace).exposed == Summary(old(m.trace)).exposed
    ensures Summary(m.trace).reset == Summary(old(m.trace)).reset
    ensures Summary(old(m.trace)).confirmed ==> Summary(m.trace).confirmed
    ensures v == Some(0) && Summary(m.trace).reset ==> Summary(m.trace).confirmed
    ensures v.Some? <==> m.Accessible(Status)
    ensures var u := SetupOf(old(m.trace));
            SetupOf(m.trace) == if v.Some? then SetupAfter(u, DidRead(Status, v.value)) else u
  {
    ghost var before := m.trace;
    v := m.Read(Status);
    if v.Some? {
      AppendEvent(before, DidRead(Status, v.value));
    }
    hide Summary, AllFine, LastSelectWritten, FirstSelectRead, SetupOf, AllPermitted;
    assert v.None? ==> m.trace == before;
  }

  /** Polls the status until it is `expected` or the time is up. */
  method WaitForStatus(m: Registers, expected: Word32) returns (ok: bool)
    requires Going(m.trace)
    modifies m`trace
    ensures Going(m.trace) && SameSelects(old(m.trace), m.trace) && Calmed(Summary(old(m.trace)), Summary(m.trace))
    ensures Summary(m.trace).exposed == Summary(old(m.trace)).exposed
    ensures Summary(m.trace).reset == Summary(old(m.trace)).reset
    ensures Summary(old(m.trace)).confirmed ==> Summary(m.trace).confirmed
    ensures ok && expected == 0 && Summary(m.trace).reset ==> Summary(m.trace).confirmed
    ensures OnlyPhase(SetupOf(old(m.trace)), SetupOf(m.trace))
    ensures var p, p' := SetupOf(old(m.trace)).phase, SetupOf(m.trace).phase;
            p.ResetWritten? ==>
              && (p'.ResetWritten? || p'.ResetSeen?) && (ok && expected == 0 ==> p'.ResetSeen?)
              && Justified(m, ok, SetupOf(old(m.trace)), SetupOf(m.trace))
  {
    hide Summary, AllFine, LastSelectWritten, FirstSelectRead, SetupOf, AllPermitted;
    var polls: nat := *;
    while polls > 0
      invariant Going(m.trace) && SameSelects(old(m.trace), m.trace) && Calmed(Summary(old(m.trace)), Summary(m.trace))
      invariant Summary(m.trace).exposed == Summary(old(m.trace)).exposed
      invariant Summary(m.trace).reset == Summary(old(m.trace)).reset
      invariant Summary(old(m.trace)).confirmed ==> Summary(m.trace).confirmed
      invariant OnlyPhase(SetupOf(old(m.trace)), SetupOf(m.trace))
      invariant SetupOf(old(m.trace)).phase.ResetWritten? ==>
                  && (SetupOf(m.trace).phase.ResetWritten? || SetupOf(m.trace).phase.ResetSeen?)
                  && SetupOf(m.trace).troubled == SetupOf(old(m.trace)).troubled
    {
      var v := ReadStatus(m);
      if v.None? { return false; }
      if v.value == expected { return true; }
      polls := polls - 1;
    }
    RefusalNoted(m.trace, TimedOut);
    m.trace := m.trace + [TimedOut];
    var actual := ReadStatus(m);
    return false;
  }

  /** Writes status 0 and waits for the device to answer. */
  method ResetDevice(m: Registers) returns (ok: bool)
    requires Going(m.trace)
    modifies m
    ensures Going(m.trace) && SameSelects(old(m.trace), m.trace) && Calmed(Summary(old(m.trace)), Summary(m.trace))
    ensures ok ==> !Summary(m.trace).exposed && Summary(m.trace).confirmed
    ensures m.device.offered == old(m.device.offered)
    ensures OnlyPhase(SetupOf(old(m.trace)), SetupOf(m.trace)) && (ok ==> SetupOf(m.trace).phase.ResetSeen?)
    ensures SetupOf(m.trace).phase.Accepted? ==> SetupOf(old(m.trace)).phase.Accepted?
    ensures Justified(m, ok, SetupOf(old(m.trace)), SetupOf(m.trace))
  {
    hide Summary, AllFine, LastSelectWritten, FirstSelectRead, SetupOf, AllPermitted;
    NoDriverOk();
    ok := WriteStatus(m, 0);
    if !ok { return; }
    ok := WaitForStatus(m, 0);
    if !ok { return; }
    var shown := ReadStatus(m);
    return shown.Some?;
  }

  /** The status values the driver writes; none has the DRIVER_OK bit. */
  lemma NoDriverOk()
    ensures !Bit(0, 2) && !Bit(ACKNOWLEDGE, 2) && !Bit(ACKNOWLEDGE + DRIVER, 2)
    ensures !Bit(ACKNOWLEDGE + DRIVER + FEATURES_OK, 2)
    ensures Bit(DRIVER_OK, 2)
  {
    assert Bit(1, 2) == Bit(0, 1) && Bit(3, 2) == Bit(1, 1) == Bit(0, 0);
    assert Bit(11, 2) == Bit(5, 1) == Bit(2, 0) && Bit(4, 2) == Bit(2, 1) == Bit(1, 0);
  }

  // ----- negotiation -----

  function OfferedWords(d: Device): seq<Word32> {
    seq(FEATURE_WORDS, i requires 0 <= i < FEATURE_WORDS => Lookup(d.offered, i))
  }

  /** The device has been told features that are among those it offers and include the modern interface. */
  ghost predicate Negotiated(d: Device) {
    exists guest :: HoldsWords(d.guest, guest) && Subset(guest, OfferedWords(d)) && Bit(guest[1], 0)
  }

  /** Reset, ACKNOWLEDGE, DRIVER, each read back. */
  method GreetDevice(m: Registers) returns (ok: bool)
    requires Going(m.trace)
    modifies m
    ensures Going(m.trace) && SameSelects(old(m.trace), m.trace) && Calmed(Summary(old(m.trace)), Summary(m.trace))
    ensures m.device.offered == old(m.device.offered)
    ensures OnlyPhase(SetupOf(old(m.trace)), SetupOf(m.trace)) && (ok ==> SetupOf(m.trace).phase.DriverKnown?)
    ensures SetupOf(m.trace).phase.Accepted? ==> SetupOf(old(m.trace)).phase.Accepted?
    ensures Justified(m, ok, SetupOf(old(m.trace)), SetupOf(m.trace))
  {
    hide Summary, AllFine, LastSelectWritten, FirstSelectRead, SetupOf, AllPermitted;
    NoDriverOk();
    ok := ResetDevice(m);
    if !ok { return; }
    ok := WriteStatus(m, ACKNOWLEDGE);
    if !ok { return; }
    var acknowledged := ReadStatus(m);
    if acknowledged.None? { return false; }
    ok := WriteStatus(m, ACKNOWLEDGE + DRIVER);
    if !ok { return; }
    var driver := ReadStatus(m);
    return driver.Some?;
  }

  /** The device offers the modern interface. */
  ghost predicate ModernOffered(d: Device) {
    Bit(Lookup(d.offered, 1), 0)
  }

  lemma ModernWord(d: Device)
    ensures ModernOffered(d) <==> Bit(OfferedWords(d)[1], 0)
  {
  }

  /** The driver reads what is offered and writes what it accepts. */
  method ExchangeFeatures(m: Registers) returns (ok: bool)
    requires Going(m.trace) && SetupOf(m.trace).phase.DriverKnown?
    modifies m
    ensures Going(m.trace) && SameSelects(old(m.trace), m.trace) && Summary(m.trace) == Summary(old(m.trace))
    ensures SetupOf(m.trace) == SetupOf(old(m.trace)) && m.device.offered == old(m.device.offered)
    ensures ok ==> Negotiated(m.device)
    ensures m.AllAccessible() && ModernOffered(m.device) ==> ok
  {
    hide Summary, AllFine, LastSelectWritten, FirstSelectRead, SetupOf, AllPermitted, MinimalGuestFeatures, Subset,
         OnlyTouches, Going;
    ghost var t0 := m.trace;
    var words := ReadFeatureWords(m, FEATURE_WORDS);
    TouchesDoNotMatter(t0, m.trace, {DfSelect, Df});
    if words.None? { return false; }
    assert words.value == OfferedWords(m.device);
    GuestFeaturesAreOffered(words.value);
    ModernWord(m.device);
    var guest := MinimalGuestFeatures(words.value);
    if guest.None? { return false; }
    ghost var t1 := m.trace;
    ok := WriteGuestFeatureWords(m, guest.value);
    TouchesDoNotMatter(t1, m.trace, {GfSelect, Gf});
  }

  /** Reset, ACKNOWLEDGE, DRIVER, features, FEATURES_OK. It succeeds exactly when the device has read back
      FEATURES_OK. */
  method NegotiateMinimalFeatures(m: Registers) returns (ok: bool)
    requires Going(m.trace)
    modifies m
    ensures Going(m.trace) && SameSelects(old(m.trace), m.trace) && Calmed(Summary(old(m.trace)), Summary(m.trace))
    ensures m.device.offered == old(m.device.offered)
    ensures ok ==> Negotiated(m.device)
    ensures OnlyPhase(SetupOf(old(m.trace)), SetupOf(m.trace)) && (ok ==> SetupOf(m.trace).phase.Accepted?)
    ensures SetupOf(m.trace).phase.Accepted? ==> ok || SetupOf(old(m.trace)).phase.Accepted?
    ensures ModernOffered(m.device) ==> Justified(m, ok, SetupOf(old(m.trace)), SetupOf(m.trace))
  {
    hide Summary, AllFine, LastSelectWritten, FirstSelectRead, SetupOf, AllPermitted, Going, Negotiated;
    NoDriverOk();
    ok := GreetDevice(m);
    if !ok { return; }
    ok := ExchangeFeatures(m);
    if !ok { return; }
    ok := WriteStatus(m, FEATURES_WRITTEN);
    if !ok { return; }
    var accepted := ReadStatus(m);
    if accepted.Some? { FeaturesOkBit(accepted.value); }
    return accepted.Some? && And(accepted.value, FEATURES_OK) != 0;
  }

  /** `status & FEATURES_OK` tests bit 3. */
  lemma FeaturesOkBit(status: Word32)
    ensures And(status, FEATURES_OK) != 0 <==> Bit(status, 3)
  {
    assert Pow2(3) == 8;
    AndBit(status, 3);
  }

  // ----- guards -----

  lemma SelectNoted(t: seq<Event>, v: Word32)
    requires Going(t)
    ensures var t' := t + [Wrote(QSelect, v)];
            && Going(t') && Summary(t') == Summary(t) && FirstSelectRead(t') == FirstSelectRead(t)
            && LastSelectWritten(t') == Some(v) && SetupOf(t') == SetupAfter(SetupOf(t), Wrote(QSelect, v))
  {
    hide Summary, AllFine, LastSelectWritten, FirstSelectRead, SetupOf, AllPermitted, SetupAfter;
    AppendEvent(t, Wrote(QSelect, v));
  }

  /** `QueueSelectionGuard`. */
  class SelectionGuard {
    const m: Registers
    const original: Word16
    var changed: bool

    constructor (m: Registers, original: Word16)
      ensures this.m == m && this.original == original && !changed
    {
      this.m, this.original, changed := m, original, false;
    }

    /** Once it has selected a queue it can restore the selector; until then the selector is not written. */
    ghost predicate Valid()
      reads this, m
    {
      && Going(m.trace)
      && (changed ==> m.Accessible(QSelect))
      && (!changed ==> LastSelectWritten(m.trace) in {None, Some(original)})
    }

    method Select(queue: Word16) returns (ok: bool)
      requires Valid()
      modifies this`changed, m
      ensures Valid() && Summary(m.trace) == Summary(old(m.trace)) && (changed <==> ok || old(changed))
      ensures FirstSelectRead(m.trace) == FirstSelectRead(old(m.trace))
      ensures m.AllAccessible() ==> ok
      ensures ok ==> m.device == old(m.device).(queueSelect := queue)
      ensures var u := SetupOf(old(m.trace));
              SetupOf(m.trace) == if ok then SetupAfter(u, Wrote(QSelect, queue)) else u
    {
      hide Summary, AllFine, LastSelectWritten, FirstSelectRead, SetupOf, AllPermitted, SetupAfter, Going;
      SelectNoted(m.trace, queue);
      ok := m.Write(QSelect, queue);
      assert !ok ==> m.trace == old(m.trace);
      if ok { changed := true; }
    }

    method Restore() returns (ok: bool)
      requires Valid()
      modifies this`changed, m
      ensures Valid() && ok && !changed && Summary(m.trace) == Summary(old(m.trace))
      ensures FirstSelectRead(m.trace) == FirstSelectRead(old(m.trace))
      ensures var u := SetupOf(old(m.trace));
              SetupOf(m.trace) == if old(changed) then SetupAfter(u, Wrote(QSelect, original)) else u
    {
      if !changed { return true; }
      hide Summary, AllFine, LastSelectWritten, FirstSelectRead, SetupOf, AllPermitted, SetupAfter, Going;
      SelectNoted(m.trace, original);
      ok := m.Write(QSelect, original);
      changed := false;
    }
  }

  /** `DeviceResetGuard`. */
  class ResetGuard {
    const m: Registers
    var active: bool

    constructor (m: Registers)
      ensures this.m == m && active
    {
      this.m, active := m, true;
    }

    method Disarm()
      modifies this
      ensures !active
    {
      active := false;
    }

    /** The destructor. The register was accessible before, so the write is not swallowed. */
    method Destroy()
      requires Going(m.trace) && m.Accessible(Status)
      modifies m
      ensures Going(m.trace) && SameSelects(old(m.trace), m.trace) && Calmed(Summary(old(m.trace)), Summary(m.trace))
      ensures active ==> !Summary(m.trace).exposed
      ensures !active ==> m.trace == old(m.trace)
      ensures OnlyPhase(SetupOf(old(m.trace)), SetupOf(m.trace))
    {
      if active {
        NoDriverOk();
        var written := WriteStatus(m, 0);
      }
    }
  }

  /** `DmaMapping`: the buffer mapped at an address the device can use. */
  class DmaMapping {
    const m: Registers
    var active: bool

    constructor (m: Registers)
      ensures this.m == m && active
    {
      this.m, active := m, true;
    }

    /** The kernel may refuse to unmap. */
    method Unmap() returns (ok: bool)
      requires Going(m.trace) && !Summary(m.trace).exposed
      modifies this`active, m`trace
      ensures Going(m.trace) && SameSelects(old(m.trace), m.trace)
      ensures old(active) ==> !Summary(m.trace).held
      ensures !Summary(m.trace).exposed && Summary(m.trace).told == Summary(old(m.trace)).told
      ensures var u := SetupOf(old(m.trace)); SetupOf(m.trace) == if ok then u else u.(troubled := true)
      ensures ok ==> !active
      ensures ok && old(active) ==>
                && Summary(m.trace).unmapped
                && Summary(m.trace).early == (Summary(old(m.trace)).early || !Summary(old(m.trace)).confirmed)
      ensures !old(active) ==> m.trace == old(m.trace) && ok
    {
      if !active { return true; }
      var fails: bool := *;
      ghost var e := if fails then DmaUnmapFailed else DmaUnmapped;
      AppendEvent(m.trace, e);
      hide Summary, AllFine, LastSelectWritten, FirstSelectRead, SetupOf, AllPermitted;
      m.trace := m.trace + [e];
      if fails { return false; }
      active := false;
      return true;
    }

    /** The destructor. */
    method Destroy()
      requires Going(m.trace) && !Summary(m.trace).exposed
      modifies this`active, m`trace
      ensures Going(m.trace) && SameSelects(old(m.trace), m.trace) && !Summary(m.trace).exposed
      ensures old(active) ==> !Summary(m.trace).held
      ensures Summary(m.trace).told == Summary(old(m.trace)).told
      ensures OnlyPhase(SetupOf(old(m.trace)), SetupOf(m.trace))
      ensures SetupOf(m.trace).phase == SetupOf(old(m.trace)).phase
      ensures !old(active) ==> SetupOf(m.trace) == SetupOf(old(m.trace))
      ensures !old(active) ==> m.trace == old(m.trace)
    {
      var ignored := Unmap();
    }
  }

  /** `VFIO_IOMMU_MAP_DMA`, which may fail. */
  method MapDma(m: Registers) returns (d: DmaMapping?)
    requires Going(m.trace)
    modifies m`trace
    ensures d == null ==>
              && Going(m.trace) && SameSelects(old(m.trace), m.trace) && Summary(m.trace) == Summary(old(m.trace))
              && SetupOf(m.trace) == SetupOf(old(m.trace)).(troubled := true)
    ensures d != null ==> fresh(d) && d.m == m && d.active && Going(m.trace) && SameSelects(old(m.trace), m.trace)
                          && Summary(m.trace) == Summary(old(m.trace)).(backed := true, held := true)
                          && SetupOf(m.trace) == SetupOf(old(m.trace))
  {
    var fails: bool := *;
    ghost var e := if fails then DmaMapFailed else DmaMapped;
    AppendEvent(m.trace, e);
    hide Summary, AllFine, LastSelectWritten, FirstSelectRead, SetupOf, AllPermitted;
    m.trace := m.trace + [e];
    if fails { return null; }
    d := new DmaMapping(m);
  }

  // ----- the run -----

  datatype Options = Options(queue: Word16, queueSize: Option<Word16>, iova: Word64, align: Word64)

  /** What the run knows of the rest of the machine. */
  datatype Machine = Machine(pageSize: Word64, notify: Notify.NotifyCap, notifyRegion: Notify.Region)

  method EnableQueue(m: Registers) returns (ok: bool)
    requires Going(m.trace) && Summary(m.trace).backed
    requires SetupOf(m.trace).phase.Accepted? && QueueReady(SetupOf(m.trace))
    modifies m
    ensures Going(m.trace) && SameSelects(old(m.trace), m.trace) && SameMemory(Summary(old(m.trace)), Summary(m.trace))
    ensures var u := SetupOf(old(m.trace));
            SetupOf(m.trace) == u.(programmed := u.programmed || ok, enabled := u.enabled || ok)
    ensures m.AllAccessible() ==> ok
    ensures ok ==> MayBecome(old(m.device), QEnable, 1, m.device)
  {
    AppendEvent(m.trace, Wrote(QEnable, 1));
    hide Summary, AllFine, LastSelectWritten, FirstSelectRead, SetupOf, AllPermitted;
    ok := m.Write(QEnable, 1);
    assert !ok ==> m.trace == old(m.trace);
  }

  /** The place in the device's file where the capability puts the notifications of the selected queue. */
  function NotifyPlace(env: Machine, queueNotifyOff: Word16): Word64 {
    (env.notifyRegion.offset + Notify.TrueOffset(env.notify, queueNotifyOff)) % 0x1_0000_0000_0000_0000
  }

  /** The window mapped puts the notification there. */
  lemma WindowAtPlace(env: Machine, w: Notify.Window, queueNotifyOff: Word16)
    requires Notify.MapsNotification(w, env.notifyRegion, env.pageSize)
    requires w.barOffset == Notify.TrueOffset(env.notify, queueNotifyOff)
    ensures Add64(w.mmapOffset, w.mappingDelta) == NotifyPlace(env, queueNotifyOff)
  {
    hide Notify.TrueOffset, Notify.PageMultiple;
  }

  lemma NotificationNoted(t: seq<Event>, e: Event)
    requires Going(t) && Summary(t).backed && SetupOf(t).phase.Accepted? && SetupOf(t).programmed && e.Notified?
    ensures Going(t + [e]) && SameSelects(t, t + [e]) && SetupOf(t + [e]) == SetupOf(t)
    ensures Summary(t + [e]) == Summary(t).(told := Summary(t).told + [e])
  {
    hide Summary, AllFine, LastSelectWritten, FirstSelectRead, SetupOf, AllPermitted;
    AppendEvent(t, e);
  }

  /** Maps the window and writes the notification; any of it may fail. */
  method SendNotification(m: Registers, env: Machine, queueNotifyOff: Word16, value: Word32) returns (ok: bool)
    requires Going(m.trace) && Summary(m.trace).backed && IsPow2(env.pageSize)
    requires SetupOf(m.trace).phase.Accepted? && SetupOf(m.trace).programmed
    modifies m`trace
    ensures Going(m.trace) && SameSelects(old(m.trace), m.trace)
    ensures var u, u' := SetupOf(old(m.trace)), SetupOf(m.trace); u' == u.(troubled := u'.troubled)
    ensures ok ==> SetupOf(m.trace) == SetupOf(old(m.trace))
    ensures ok ==> Notify.Accepts(env.notify, env.notifyRegion, queueNotifyOff)
    ensures Notify.Accepts(env.notify, env.notifyRegion, queueNotifyOff) ==> ok || SetupOf(m.trace).troubled
    ensures SetupOf(old(m.trace)).troubled ==> SetupOf(m.trace).troubled
    ensures var w, sent := Summary(old(m.trace)), Notified(value, NotifyPlace(env, queueNotifyOff), m.device);
            Summary(m.trace) == if ok then w.(told := w.told + [sent]) else w
  {
    hide Summary, AllFine, LastSelectWritten, FirstSelectRead, SetupOf, AllPermitted, Add64, NotifyPlace,
         Notify.MapsNotification, Notify.Accepts, Going;
    var window := Notify.MapNotifyWindow(env.notify, env.notifyRegion, queueNotifyOff, env.pageSize);
    var mmapFails: bool := *;
    if window.Err? { return false; }
    if mmapFails {
      RefusalNoted(m.trace, MmapFailed);
      m.trace := m.trace + [MmapFailed];
      return false;
    }
    var w := window.value;
    if w.mappingDelta > w.mappingSize || 2 > w.mappingSize - w.mappingDelta { return false; }
    WindowAtPlace(env, w, queueNotifyOff);
    ghost var e := Notified(value, Add64(w.mmapOffset, w.mappingDelta), m.device);
    NotificationNoted(m.trace, e);
    m.trace := m.trace + [e];
    return true;
  }

  /** Nothing of the run's memory is in the device's hands. */
  ghost predicate Idle(w: Watch) {
    !w.exposed && !w.backed && !w.held && !w.unmapped && !w.early && w.told == []
  }

  /** The buffer is mapped for DMA but not yet known to the device. */
  ghost predicate Mapped(w: Watch) {
    !w.exposed && w.backed && w.held && !w.unmapped && !w.early && w.told == []
  }

  ghost predicate Finished(w: Watch, ok: bool) {
    !w.exposed && !w.held && (ok ==> w.unmapped && !w.early && w.told != [])
  }

  /** Device `d` is as `d0` but for its selected queue, which is enabled with this size and these ring addresses. */
  ghost predicate Enabled(d0: Device, d: Device, layout: Vring.Layout, base: Word64) {
    && d.queueSelect == d0.queueSelect && d.guest == d0.guest && d.offered == d0.offered
    && Programmed(d, layout, base) && ViewOf(d).enable == 1
  }

  /** A notification of the queue asked for, at its place, while it was enabled. */
  ghost predicate SentEnabled(e: Event, d0: Device, layout: Vring.Layout, o: Options, env: Machine) {
    && e.Notified? && e.value == o.queue && e.at == NotifyPlace(env, ViewOf(e.device).notifyOff % 0x1_0000)
    && Enabled(d0, e.device, layout, o.iova)
  }

  ghost predicate ToldEnabled(told: seq<Event>, d0: Device, layout: Vring.Layout, o: Options, env: Machine) {
    |told| <= 1 && forall e | e in told :: SentEnabled(e, d0, layout, o, env)
  }

  /** Enabling a queue leaves its addresses, and the rest of the device, as they are. */
  lemma EnablingKeepsProgram(d0: Device, d: Device, d': Device, layout: Vring.Layout, base: Word64)
    requires OnlySelectedQueue(d0, d) && Programmed(d, layout, base) && MayBecome(d, QEnable, 1, d')
    ensures ViewOf(d').enable == 1 ==> Enabled(d0, d', layout, base)
  {
    hide Joined;
  }

  /** Of the setup only what programming and enabling a queue adds has changed. */
  ghost predicate OnlyProgram(u: Setup, u': Setup) {
    && u' == u.(programmed := u'.programmed, enabled := u'.enabled, readBack := u'.readBack, notifyOff := u'.notifyOff)
    && (u.programmed ==> u'.programmed)
  }

  /** Programs and enables the queue, and reads it back each time. */
  method ProgramAndEnable(m: Registers, layout: Vring.Layout, base: Word64) returns (enabled: Option<QueueView>)
    requires Going(m.trace) && Summary(m.trace).backed && m.device.queueSelect in m.device.queues
    requires FirstSelectRead(m.trace).Some?
    requires SetupOf(m.trace).phase.Accepted? && QueueReady(SetupOf(m.trace))
    requires !SetupOf(m.trace).enabled
    modifies m
    ensures Going(m.trace) && SameSelects(old(m.trace), m.trace) && SameMemory(Summary(old(m.trace)), Summary(m.trace))
    ensures OnlyProgram(SetupOf(old(m.trace)), SetupOf(m.trace))
    ensures enabled.Some? ==>
              var u := SetupOf(m.trace);
              u.programmed && u.readBack == Some(1) && u.notifyOff == Some(enabled.value.notifyOff)
    ensures m.AllAccessible() && enabled.None? ==>
              SetupOf(m.trace).readBack.Some? && SetupOf(m.trace).readBack.value != 1
    ensures enabled.Some? ==> enabled.value == ViewOf(m.device) && m.Accessible(QNotifyData)
    ensures enabled.Some? ==> Enabled(old(m.device), m.device, layout, base)
  {
    hide Summary, AllFine, LastSelectWritten, FirstSelectRead, SetupOf, AllPermitted, OnlyWrites, OnlyReads,
         EndsWithWrite, Programmed, MayBecome;
    ghost var t0 := m.trace;
    var ok := ProgramQueueAddresses(m, layout, base);
    WritesDoNotRelease(t0, m.trace);
    if !ok { return None; }
    ghost var t1 := m.trace;
    var afterProgram := ReadQueueView(m);
    ReadsDoNotMatter(t1, m.trace);
    if afterProgram.None? { return None; }
    ghost var programmed := m.device;
    ok := EnableQueue(m);
    if !ok { return None; }
    ghost var t2 := m.trace;
    var afterEnable := ReadQueueView(m);
    ReadsDoNotMatter(t2, m.trace);
    if afterEnable.Some? { ViewSeen(t2, m.trace, afterEnable.value); }
    if afterEnable.None? || afterEnable.value.enable != 1 { return None; }
    EnablingKeepsProgram(old(m.device), programmed, m.device, layout, base);
    return afterEnable;
  }

  /** A size that the device gives can be used: there is a size to choose, with a layout that fits. */
  ghost predicate SizeFits(deviceSize: Word32, o: Options, env: Machine) {
    var size := Vring.ChooseQueueSize(deviceSize % 0x1_0000, o.queueSize);
    && size.Ok? && Vring.ComputeVringLayout(size.value, o.align).Ok?
    && Vring.RoundUpToPage(Vring.ComputeVringLayout(size.value, o.align).value.totalSize, env.pageSize).Ok?
  }

  /** The run has met with a refusal: by the rest of the machine or of the features; or the queue does not exist, is
      enabled already or has no usable size; or it did not read back as enabled, or its notifications have no place. */
  ghost predicate Refused(u: Setup, o: Options, env: Machine) {
    || u.troubled
    || (u.count.Some? && o.queue >= u.count.value)
    || (u.enable.Some? && u.enable.value != 0)
    || (u.size.Some? && !SizeFits(u.size.value, o, env))
    || (u.readBack.Some? && u.readBack.value != 1)
    || (u.notifyOff.Some? && !Notify.Accepts(env.notify, env.notifyRegion, u.notifyOff.value % 0x1_0000))
  }

  /** An event with which the run meets a refusal, after the setup so far. */
  ghost predicate Objection(u: Setup, e: Event, o: Options, env: Machine) {
    || Refusal(e)
    || (e.DidRead? && match e.reg
                      case Status => u.phase.FeaturesOk? && !Bit(e.value, 3)
                      case NumQueues => !u.programmed && o.queue >= e.value
                      case QEnable => if u.enabled then e.value != 1 else !u.programmed && e.value != 0
                      case QSize => !u.programmed && !SizeFits(e.value, o, env)
                      case QNotifyOff => u.enabled && !Notify.Accepts(env.notify, env.notifyRegion, e.value % 0x1_0000)
                      case _ => false)
  }

  lemma RefusedByRead(u: Setup, r: Reg, v: Word32, o: Options, env: Machine)
    requires Refused(SetupAfter(u, DidRead(r, v)), o, env) && !Refused(u, o, env)
    ensures Objection(u, DidRead(r, v), o, env)
  {
    hide SizeFits, Notify.Accepts, AfterRead, Bit;
    match r
    case Status =>
    case NumQueues =>
    case QEnable =>
    case QSize =>
    case QNotifyOff =>
    case _ =>
  }

  /** Writes refuse nothing. */
  lemma RefusedByWrite(u: Setup, r: Reg, v: Word32, o: Options, env: Machine)
    requires Refused(SetupAfter(u, Wrote(r, v)), o, env)
    ensures Refused(u, o, env)
  {
    var u' := SetupAfter(u, Wrote(r, v));
    WriteKeepsAnswers(u, r, v);
    hide SizeFits, Notify.Accepts, SetupAfter;
    assert u'.size.Some? ==> u'.size == u.size;
  }

  lemma WriteKeepsAnswers(u: Setup, r: Reg, v: Word32)
    ensures var u' := SetupAfter(u, Wrote(r, v));
            && u'.troubled == u.troubled && u'.count == u.count
            && u'.readBack == u.readBack && u'.notifyOff == u.notifyOff
            && (u'.size.Some? ==> u'.size == u.size) && (u'.enable.Some? ==> u'.enable == u.enable)
  {
    hide AfterStatus, Exposes;
  }

  lemma RefusedNow(u: Setup, e: Event, o: Options, env: Machine)
    requires Refused(SetupAfter(u, e), o, env) && !Refused(u, o, env)
    ensures Objection(u, e, o, env)
  {
    hide SizeFits, Notify.Accepts;
    match e
    case DidRead(r, v) =>
      RefusedByRead(u, r, v, o, env);
      hide Refused, Objection, SetupAfter;
    case Wrote(r, v) =>
      RefusedByWrite(u, r, v, o, env);
      hide Refused, Objection, SetupAfter;
    case _ =>
  }

  /** A run that has met with a refusal shows the event. */
  lemma {:induction false} RefusalShown(t: seq<Event>, o: Options, env: Machine) returns (k: nat)
    requires Refused(SetupOf(t), o, env)
    ensures k < |t| && Objection(SetupOf(t[..k]), t[k], o, env)
  {
    hide Refused, Objection, SetupAfter;
    var n := |t| - 1;
    if t == [] {
      NothingRefused(o, env);
    } else if Refused(SetupOf(t[..n]), o, env) {
      k := RefusalShown(t[..n], o, env);
      assert t[..n][..k] == t[..k];
    } else {
      RefusedNow(SetupOf(t[..n]), t[n], o, env);
      k := n;
    }
  }

  lemma NothingRefused(o: Options, env: Machine)
    ensures !Refused(NOTHING, o, env)
  {
  }

  /** It succeeded without a refusal, or was refused. */
  ghost predicate ForAReason(m: Registers, ok: bool, o: Options, env: Machine)
    reads m
  {
    && (ok ==> !Refused(SetupOf(m.trace), o, env))
    && (m.AllAccessible() ==> ok || Refused(SetupOf(m.trace), o, env))
  }

  /** The queue selected and the size its device gave are as before. */
  ghost predicate SameChoice(u: Setup, u': Setup) {
    u'.selected == u.selected && u'.size == u.size && u'.enable == u.enable && u'.count == u.count
  }

  /** Programs, enables and notifies the queue, then restores the selector, resets the device and unmaps. The guards
      that are still active when it throws have not been released. */
  method ProgramAndNotify(m: Registers, o: Options, env: Machine, layout: Vring.Layout, g: SelectionGuard,
                          r: ResetGuard, d: DmaMapping)
    returns (ok: bool)
    requires g.m == m && r.m == m && d.m == m && g.Valid() && r.active && d.active
    requires Mapped(Summary(m.trace)) && FirstSelectRead(m.trace).Some? && IsPow2(env.pageSize)
    requires m.device.queueSelect in m.device.queues && m.device.queueSelect == o.queue
    requires SetupOf(m.trace).phase.Accepted? && QueueReady(SetupOf(m.trace)) && !SetupOf(m.trace).enabled
    requires !Refused(SetupOf(m.trace), o, env)
    modifies m, g, r, d
    ensures g.Valid() && FirstSelectRead(m.trace) == FirstSelectRead(old(m.trace))
    ensures r.active || !Summary(m.trace).exposed
    ensures d.active || !Summary(m.trace).held
    ensures SameChoice(SetupOf(old(m.trace)), SetupOf(m.trace)) && ForAReason(m, ok, o, env)
    ensures Summary(m.trace).told != [] ==> SetupOf(m.trace).programmed
    ensures ToldEnabled(Summary(m.trace).told, old(m.device), layout, o, env)
    ensures ok ==> !r.active && !d.active && Finished(Summary(m.trace), ok) && m.Accessible(QNotifyData)
  {
    hide Summary, AllFine, LastSelectWritten, FirstSelectRead, SetupOf, AllPermitted, Programmed, NotifyPlace;
    var afterEnable := ProgramAndEnable(m, layout, o.iova);
    if afterEnable.None? { return false; }
    ok := SendNotification(m, env, afterEnable.value.notifyOff % 0x1_0000, afterEnable.value.selected);
    if !ok { return; }
    ok := g.Restore();
    ok := ResetDevice(m);
    if !ok { return; }
    r.Disarm();
    ok := d.Unmap();
  }

  method WithMapping(m: Registers, o: Options, env: Machine, layout: Vring.Layout, g: SelectionGuard, d: DmaMapping)
    returns (ok: bool)
    requires g.m == m && d.m == m && g.Valid() && d.active
    requires Mapped(Summary(m.trace)) && FirstSelectRead(m.trace).Some? && IsPow2(env.pageSize)
    requires m.device.queueSelect in m.device.queues && m.device.queueSelect == o.queue && m.Accessible(Status)
    requires SetupOf(m.trace).phase.Accepted? && QueueReady(SetupOf(m.trace)) && !SetupOf(m.trace).enabled
    requires !Refused(SetupOf(m.trace), o, env)
    modifies m, g, d
    ensures g.Valid() && FirstSelectRead(m.trace) == FirstSelectRead(old(m.trace))
    ensures !Summary(m.trace).exposed && (d.active || !Summary(m.trace).held)
    ensures SameChoice(SetupOf(old(m.trace)), SetupOf(m.trace)) && ForAReason(m, ok, o, env)
    ensures Summary(m.trace).told != [] ==> SetupOf(m.trace).programmed
    ensures ToldEnabled(Summary(m.trace).told, old(m.device), layout, o, env)
    ensures ok ==> !d.active && Finished(Summary(m.trace), ok) && m.Accessible(QNotifyData)
  {
    hide Summary, AllFine, LastSelectWritten, FirstSelectRead, SetupOf, AllPermitted;
    var r := new ResetGuard(m);
    ok := ProgramAndNotify(m, o, env, layout, g, r, d);
    r.Destroy();
  }

  method WithBuffer(m: Registers, o: Options, env: Machine, layout: Vring.Layout, g: SelectionGuard)
    returns (ok: bool)
    requires g.m == m && g.Valid()
    requires Idle(Summary(m.trace)) && FirstSelectRead(m.trace).Some? && IsPow2(env.pageSize)
    requires m.device.queueSelect in m.device.queues && m.device.queueSelect == o.queue && m.Accessible(Status)
    requires SetupOf(m.trace).phase.Accepted? && QueueReady(SetupOf(m.trace)) && !SetupOf(m.trace).enabled
    requires !Refused(SetupOf(m.trace), o, env)
    modifies m, g
    ensures g.Valid() && FirstSelectRead(m.trace) == FirstSelectRead(old(m.trace))
    ensures SameChoice(SetupOf(old(m.trace)), SetupOf(m.trace)) && ForAReason(m, ok, o, env)
    ensures Summary(m.trace).told != [] ==> SetupOf(m.trace).programmed
    ensures ToldEnabled(Summary(m.trace).told, old(m.device), layout, o, env)
    ensures Finished(Summary(m.trace), ok) && (ok ==> m.Accessible(QNotifyData))
  {
    hide Summary, AllFine, LastSelectWritten, FirstSelectRead, SetupOf, AllPermitted;
    var d := MapDma(m);
    if d == null { return false; }
    ok := WithMapping(m, o, env, layout, g, d);
    d.Destroy();
  }

  method FreeBuffer(m: Registers)
    requires Going(m.trace) && !Summary(m.trace).exposed && !Summary(m.trace).held
    modifies m`trace
    ensures Going(m.trace) && SameSelects(old(m.trace), m.trace)
    ensures Summary(m.trace) == Summary(old(m.trace)).(backed := false) && SetupOf(m.trace) == SetupOf(old(m.trace))
  {
    AppendEvent(m.trace, BufferFreed);
    hide Summary, AllFine, LastSelectWritten, FirstSelectRead, SetupOf, AllPermitted;
    m.trace := m.trace + [BufferFreed];
  }

  /** The queue asked for is enabled, at the address asked for, with the layout of the size asked for or else of the
      size that the device gave. */
  ghost predicate BroughtUp(d: Device, o: Options, deviceSize: Word32) {
    && d.queueSelect == o.queue && ViewOf(d).enable == 1
    && var size := Vring.ChooseQueueSize(deviceSize % 0x1_0000, o.queueSize);
       size.Ok? && LaidOutFor(d, o, size.value)
  }

  ghost predicate LaidOutFor(d: Device, o: Options, size: Word16) {
    && ViewOf(d).size == size && Vring.ComputeVringLayout(size, o.align).Ok?
    && Programmed(d, Vring.ComputeVringLayout(size, o.align).value, o.iova)
  }

  /** The queue is selected and its size chosen; then the buffer is allocated. */
  method WithSelection(m: Registers, o: Options, env: Machine, g: SelectionGuard)
    returns (ok: bool)
    requires g.m == m && g.Valid() && !g.changed
    requires Idle(Summary(m.trace)) && FirstSelectRead(m.trace).Some? && IsPow2(env.pageSize) && m.Accessible(Status)
    requires var u := SetupOf(m.trace);
             && u.phase.Accepted? && u.selected.None? && !u.reselected && !u.programmed
             && u.count.Some? && o.queue < u.count.value
             && !u.troubled && !u.enabled && u.size.None? && u.enable.None? && u.readBack.None? && u.notifyOff.None?
    modifies m, g
    ensures g.Valid() && FirstSelectRead(m.trace) == FirstSelectRead(old(m.trace)) && ForAReason(m, ok, o, env)
    ensures var u := SetupOf(m.trace); u.selected in {None, Some(o.queue)} && (g.changed ==> u.selected.Some?)
    ensures Summary(m.trace).told != [] ==> SetupOf(m.trace).programmed
    ensures ToldBroughtUp(Summary(m.trace).told, old(m.device), o, env, SetupOf(m.trace).size)
    ensures Finished(Summary(m.trace), ok) && (ok ==> m.Accessible(QNotifyData))
  {
    hide Summary, AllFine, LastSelectWritten, FirstSelectRead, SetupOf, AllPermitted, OnlyReads, OnlyReadsAddresses;
    ok := g.Select(o.queue);
    if !ok { return; }
    ghost var t0 := m.trace;
    var before := ReadQueueView(m);
    ReadsDoNotMatter(t0, m.trace);
    if before.None? { return false; }
    ViewSeen(t0, m.trace, before.value);
    if before.value.enable != 0 { return false; }
    assert before.value.size != 0 ==> m.device.queueSelect in m.device.queues;
    hide ForAReason, Refused;
    ok := WithQueue(m, o, env, g, before.value.size);
  }

  /** The size is chosen and the layout computed; then the buffer is allocated. */
  method WithQueue(m: Registers, o: Options, env: Machine, g: SelectionGuard, deviceSize: Word32) returns (ok: bool)
    requires g.m == m && g.Valid() && g.changed
    requires Idle(Summary(m.trace)) && FirstSelectRead(m.trace).Some? && IsPow2(env.pageSize) && m.Accessible(Status)
    requires m.device.queueSelect == o.queue && (deviceSize != 0 ==> o.queue in m.device.queues)
    requires var u := SetupOf(m.trace);
             && u.phase.Accepted? && QueueReady(u) && u.selected == Some(o.queue) && u.size == Some(deviceSize)
             && !u.programmed && !u.enabled && !u.troubled && u.readBack.None? && u.notifyOff.None?
             && u.count.Some? && o.queue < u.count.value
    modifies m, g
    ensures g.Valid() && FirstSelectRead(m.trace) == FirstSelectRead(old(m.trace)) && ForAReason(m, ok, o, env)
    ensures SetupOf(m.trace).selected == Some(o.queue)
    ensures Summary(m.trace).told != [] ==> SetupOf(m.trace).programmed
    ensures ToldBroughtUp(Summary(m.trace).told, old(m.device), o, env, SetupOf(m.trace).size)
    ensures Finished(Summary(m.trace), ok) && (ok ==> m.Accessible(QNotifyData))
  {
    hide Summary, AllFine, LastSelectWritten, FirstSelectRead, SetupOf, AllPermitted;
    var size := Vring.ChooseQueueSize(deviceSize % 0x1_0000, o.queueSize);
    if size.Err? { return false; }
    assert deviceSize != 0;
    var layout := Vring.ComputeVringLayout(size.value, o.align);
    if layout.Err? { return false; }
    var mappedSize := Vring.RoundUpToPage(layout.value.totalSize, env.pageSize);
    if mappedSize.Err? { return false; }
    assert SizeFits(deviceSize, o, env);
    hide SizeFits, Vring.ChooseQueueSize, Vring.ComputeVringLayout, Vring.RoundUpToPage;
    var noMemory: bool := *;
    if noMemory {
      RefusalNoted(m.trace, NoMemory);
      m.trace := m.trace + [NoMemory];
      return false;
    }
    ghost var selected := m.device;
    ok := WithBuffer(m, o, env, layout.value, g);
    BringsUp(Summary(m.trace).told, selected, o, env, deviceSize, size.value, layout.value);
    FreeBuffer(m);
  }

  /** A notification of the queue asked for, at its place, while it was brought up. */
  ghost predicate SentBroughtUp(e: Event, o: Options, env: Machine, deviceSize: Word32) {
    && e.Notified? && e.value == o.queue && e.at == NotifyPlace(env, ViewOf(e.device).notifyOff % 0x1_0000)
    && BroughtUp(e.device, o, deviceSize)
  }

  ghost predicate ToldBroughtUp(told: seq<Event>, d0: Device, o: Options, env: Machine, deviceSize: Option<Word32>) {
    && |told| <= 1 && (told != [] ==> deviceSize.Some?)
    && forall e | e in told ::
         SentBroughtUp(e, o, env, deviceSize.value) && e.device.guest == d0.guest && e.device.offered == d0.offered
  }

  lemma BringsUp(told: seq<Event>, d0: Device, o: Options, env: Machine, deviceSize: Word32, size: Word16,
                 layout: Vring.Layout)
    requires ToldEnabled(told, d0, layout, o, env) && d0.queueSelect == o.queue
    requires Vring.ChooseQueueSize(deviceSize % 0x1_0000, o.queueSize) == Ok(size)
    requires Vring.ComputeVringLayout(size, o.align) == Ok(layout)
    ensures ToldBroughtUp(told, d0, o, env, Some(deviceSize))
  {
    Vring.LayoutShape(size, o.align);
    hide Vring.ComputeVringLayout, Vring.ChooseQueueSize, NotifyPlace;
    forall e | e in told ensures BroughtUp(e.device, o, deviceSize) {
      assert SentEnabled(e, d0, layout, o, env);
      assert LaidOutFor(e.device, o, size);
    }
  }

  /** Each notification was sent while the device had accepted only features that it offers. */
  ghost predicate ToldNegotiated(told: seq<Event>, o: Options, env: Machine, deviceSize: Option<Word32>) {
    && |told| <= 1 && (told != [] ==> deviceSize.Some?)
    && forall e | e in told :: SentBroughtUp(e, o, env, deviceSize.value) && Negotiated(e.device)
  }

  /** The first access to the selector. */
  method ReadSelector(m: Registers) returns (original: Option<Word32>)
    requires Going(m.trace) && FirstSelectRead(m.trace).None?
    modifies m`trace
    ensures Going(m.trace) && Summary(m.trace) == Summary(old(m.trace))
    ensures LastSelectWritten(m.trace) == LastSelectWritten(old(m.trace)) && FirstSelectRead(m.trace) == original
    ensures SetupOf(m.trace) == SetupOf(old(m.trace)) && (m.AllAccessible() ==> original.Some?)
    ensures original.Some? ==> original.value < 0x1_0000
  {
    ghost var t := m.trace;
    original := m.Read(QSelect);
    if original.Some? {
      AppendEvent(t, DidRead(QSelect, original.value));
    }
    hide Summary, AllFine, LastSelectWritten, FirstSelectRead, SetupOf, AllPermitted;
    assert original.None? ==> m.trace == t;
  }

  /** The number of queues. */
  method ReadCount(m: Registers) returns (count: Option<Word32>)
    requires Going(m.trace) && !SetupOf(m.trace).programmed && !SetupOf(m.trace).enabled
    modifies m`trace
    ensures Going(m.trace) && Summary(m.trace) == Summary(old(m.trace)) && SameSelects(old(m.trace), m.trace)
    ensures m.AllAccessible() ==> count.Some?
    ensures var u := SetupOf(old(m.trace)); SetupOf(m.trace) == if count.Some? then u.(count := count) else u
  {
    ghost var t := m.trace;
    count := m.Read(NumQueues);
    if count.Some? {
      AppendEvent(t, DidRead(NumQueues, count.value));
    }
    hide Summary, AllFine, LastSelectWritten, FirstSelectRead, SetupOf, AllPermitted;
    assert count.None? ==> m.trace == t;
  }

  lemma StartsGoing(t: seq<Event>)
    requires t == []
    ensures Going(t) && Summary(t) == START && SetupOf(t) == NOTHING
    ensures LastSelectWritten(t).None? && FirstSelectRead(t).None?
  {
  }

  /** The whole of `run_notify_write` after the registers have been mapped. */
  method WithRegisters(m: Registers, o: Options, env: Machine) returns (ok: bool)
    requires m.trace == [] && IsPow2(env.pageSize)
    modifies m
    ensures Going(m.trace) && Finished(Summary(m.trace), ok) && (ok ==> m.Accessible(QNotifyData))
    ensures LastSelectWritten(m.trace).Some? ==> LastSelectWritten(m.trace) == FirstSelectRead(m.trace)
    ensures SetupOf(m.trace).selected in {None, Some(o.queue)}
    ensures ModernOffered(old(m.device)) ==> ForAReason(m, ok, o, env)
    ensures ToldNegotiated(Summary(m.trace).told, o, env, SetupOf(m.trace).size)
  {
    StartsGoing(m.trace);
    hide Summary, AllFine, LastSelectWritten, FirstSelectRead, SetupOf, AllPermitted, BroughtUp, NotifyPlace,
         Negotiated, Going;
    var status := ReadStatus(m);
    if status.None? { return false; }
    ok := NegotiateMinimalFeatures(m);
    if !ok { return; }
    ok := WithDevice(m, o, env);
  }

  lemma NegotiatedThen(told: seq<Event>, d0: Device, o: Options, env: Machine, deviceSize: Option<Word32>)
    requires ToldBroughtUp(told, d0, o, env, deviceSize) && Negotiated(d0)
    ensures ToldNegotiated(told, o, env, deviceSize)
  {
    hide SentBroughtUp, Subset;
  }

  /** The queues are counted and one is selected. */
  method WithDevice(m: Registers, o: Options, env: Machine) returns (ok: bool)
    requires Going(m.trace) && Idle(Summary(m.trace)) && IsPow2(env.pageSize) && m.Accessible(Status)
    requires LastSelectWritten(m.trace).None? && FirstSelectRead(m.trace).None?
    requires SetupOf(m.trace) == NOTHING.(phase := Accepted) && Negotiated(m.device)
    modifies m
    ensures Going(m.trace) && Finished(Summary(m.trace), ok) && (ok ==> m.Accessible(QNotifyData))
    ensures LastSelectWritten(m.trace).Some? ==> LastSelectWritten(m.trace) == FirstSelectRead(m.trace)
    ensures SetupOf(m.trace).selected in {None, Some(o.queue)} && ForAReason(m, ok, o, env)
    ensures ToldNegotiated(Summary(m.trace).told, o, env, SetupOf(m.trace).size)
  {
    hide Summary, AllFine, LastSelectWritten, FirstSelectRead, SetupOf, AllPermitted, BroughtUp, NotifyPlace,
         Negotiated, SizeFits, Notify.Accepts;
    var numQueues := ReadCount(m);
    if numQueues.None? { return false; }
    var original := ReadSelector(m);
    if original.None? { return false; }
    if o.queue >= numQueues.value { return false; }
    var g := new SelectionGuard(m, original.value);
    ghost var device := m.device;
    ok := WithSelection(m, o, env, g);
    NegotiatedThen(Summary(m.trace).told, device, o, env, SetupOf(m.trace).size);
    hide ToldBroughtUp, ToldNegotiated;
    var restored := g.Restore();
  }

  /** A read of the queue's size before anything was exposed. */
  ghost predicate SizeRead(t: seq<Event>, z: nat)
    requires z < |t|
  {
    t[z].DidRead? && t[z].reg == QSize && forall i | 0 <= i < z :: !Exposes(t[i])
  }

  /** A notification for the queue asked for, at the place its capability and registers say, while the device had it
      enabled with its layout, in the size asked for or else the one read before, and had accepted only features that it
      offers. */
  ghost predicate WellNotified(t: seq<Event>, k: nat, o: Options, env: Machine)
    requires k < |t|
  {
    && t[k].Notified? && Negotiated(t[k].device)
    && exists z :: 0 <= z < k && SizeRead(t, z) && SentBroughtUp(t[k], o, env, t[z].value)
  }

  /** Every run, whatever the device answers and wherever it throws: the device is reset after the last address or
      enable write and before the buffer is unmapped or freed; addresses are written only while the buffer is mapped;
      DRIVER_OK is never written; the registers are unmapped last; and the queue selector is left as it was found.
      Nothing is exposed and no notification sent before the device has read back FEATURES_OK in a handshake in the
      proper order, and the queue, below the number of queues, was read as not enabled. At most one notification is
      sent, and it is well notified. A run that returns normally has sent it, and has unmapped its buffer only after
      reading the reset back; and its device had a notification data register, so devices with the shorter structure
      are never brought up. With an address that is not at a page nothing is done. With one that is, accessible
      registers and a device that offers the modern interface, a run fails exactly when it is refused something, and
      then shows the event (`RefusalShown`). */
  method RunNotifyWrite(m: Registers, o: Options, env: Machine) returns (ok: bool)
    requires m.trace == [] && IsPow2(env.pageSize)
    modifies m
    ensures Orderly(m.trace) && SetUpFirst(m.trace, o.queue)
    ensures LastSelectWritten(m.trace).Some? ==> LastSelectWritten(m.trace) == FirstSelectRead(m.trace)
    ensures ok ==> m.Accessible(QNotifyData)
    ensures ok ==> UnmappedAfterConfirmedReset(m.trace)
    ensures ok ==> exists k :: 0 <= k < |m.trace| && m.trace[k].Notified?
    ensures OneWellNotified(m.trace, o, env)
    ensures ModernOffered(old(m.device)) && o.iova % env.pageSize == 0 ==> ForAReason(m, ok, o, env)
    ensures o.iova % env.pageSize != 0 ==> !ok && m.trace == []
  {
    hide SetUpFirst, Orderly, OneWellNotified, UnmappedAfterConfirmedReset, LastSelectWritten, FirstSelectRead;
    Vring.NotZero();
    if o.iova % env.pageSize != 0 {
      NothingDone(o, env);
      return false;
    }
    ok := RunAligned(m, o, env);
  }

  method RunAligned(m: Registers, o: Options, env: Machine) returns (ok: bool)
    requires m.trace == [] && IsPow2(env.pageSize)
    modifies m
    ensures Orderly(m.trace) && SetUpFirst(m.trace, o.queue)
    ensures LastSelectWritten(m.trace).Some? ==> LastSelectWritten(m.trace) == FirstSelectRead(m.trace)
    ensures ok ==> m.Accessible(QNotifyData)
    ensures ok ==> UnmappedAfterConfirmedReset(m.trace)
    ensures ok ==> exists k :: 0 <= k < |m.trace| && m.trace[k].Notified?
    ensures OneWellNotified(m.trace, o, env)
    ensures ModernOffered(old(m.device)) ==> ForAReason(m, ok, o, env)
  {
    hide Summary, AllFine, LastSelectWritten, FirstSelectRead, SetupOf, AllPermitted, SetUpFirst, Orderly,
         OneWellNotified, UnmappedAfterConfirmedReset, ToldNegotiated;
    ok := WithRegisters(m, o, env);
    AppendEvent(m.trace, RegistersUnmapped);
    m.trace := m.trace + [RegistersUnmapped];
    RunMeans(m.trace, ok, o, env);
  }

  /** Each notification is the only one, and well notified. */
  ghost predicate OneWellNotified(t: seq<Event>, o: Options, env: Machine) {
    forall i, k | 0 <= i <= k < |t| && t[i].Notified? && t[k].Notified? :: i == k && WellNotified(t, k, o, env)
  }

  /** What the summaries of a run say of its events. */
  lemma RunMeans(t: seq<Event>, ok: bool, o: Options, env: Machine)
    requires AllFine(t) && AllPermitted(t) && SetupOf(t).selected in {None, Some(o.queue)}
    requires ToldNegotiated(Summary(t).told, o, env, SetupOf(t).size) && Finished(Summary(t), ok)
    ensures Orderly(t) && SetUpFirst(t, o.queue) && OneWellNotified(t, o, env)
    ensures ok ==> UnmappedAfterConfirmedReset(t) && exists k :: 0 <= k < |t| && t[k].Notified?
  {
    hide Summary, AllFine, SetupOf, AllPermitted, SetUpFirst, Orderly, OneWellNotified, UnmappedAfterConfirmedReset,
         ToldNegotiated;
    FineIsOrderly(t);
    PermittedIsSetUpFirst(t, o.queue);
    AllWellNotified(t, o, env);
    if ok {
      UnmappedInTime(t);
      var k := ToldSomewhere(t);
    }
  }

  lemma AllWellNotified(t: seq<Event>, o: Options, env: Machine)
    requires AllPermitted(t) && ToldNegotiated(Summary(t).told, o, env, SetupOf(t).size) && SetUpFirst(t, o.queue)
    ensures OneWellNotified(t, o, env)
  {
    hide Summary, AllPermitted, ToldNegotiated, SetUpFirst, WellNotified, SetupOf;
    forall i, k | 0 <= i <= k < |t| && t[i].Notified? && t[k].Notified? ensures i == k && WellNotified(t, k, o, env) {
      NotifiedAsTold(t, i, k, o, env);
    }
  }

  lemma NothingDone(o: Options, env: Machine)
    ensures Orderly([]) && SetUpFirst([], o.queue) && LastSelectWritten([]).None? && OneWellNotified([], o, env)
  {
  }

  lemma NotifiedAsTold(t: seq<Event>, i: nat, k: nat, o: Options, env: Machine)
    requires AllPermitted(t) && ToldNegotiated(Summary(t).told, o, env, SetupOf(t).size) && SetUpFirst(t, o.queue)
    requires i <= k < |t| && t[i].Notified? && t[k].Notified?
    ensures i == k && WellNotified(t, k, o, env)
  {
    hide Summary, SetupOf, AllPermitted, Exposes, SentBroughtUp, Negotiated, Handshake, Checked;
    SummaryTold(t, k);
    if i < k { ToldTwice(t, i, k); }
    var z := SizeMeans(t);
    var j :| 0 <= j < k && Exposes(t[j]);
    assert z <= j;
    hide SetUpFirst;
    assert SizeRead(t, z);
  }
}
