/** What the driver has to do before the device may use its memory: the handshake over the status register, and the
    checks of the queue it is about to program. */
module DeviceSetup {
  import opened Bits
  import opened Words
  import opened Wrappers
  import opened CommonConfig

  /** A write after which the device may use memory the driver has given it. */
  predicate Exposes(e: Event) {
    e.Wrote? && e.reg in ADDRESS_REGS + {QEnable}
  }

  predicate Resets(e: Event) {
    e == Wrote(Status, 0)
  }

  predicate WritesStatus(e: Event) {
    e.Wrote? && e.reg == Status
  }

  predicate WritesFeatures(e: Event) {
    e.Wrote? && e.reg == Gf
  }

  predicate Selects(e: Event) {
    e.Wrote? && e.reg == QSelect
  }

  const FEATURES_WRITTEN: Word32 := ACKNOWLEDGE + DRIVER + FEATURES_OK

  // ----- what must hold of a run -----

  /** The events of a handshake, by their places in the run. */
  datatype Marks = Marks(reset: nat, seen: nat, ack: nat, driver: nat, features: nat, accepted: nat)

  /** Up to event `k` the run has, in this order: reset the device and read back the reset, written ACKNOWLEDGE and then
      DRIVER, written the features, written FEATURES_OK and read it back; and has written no other status, nor features
      at any other time. */
  ghost predicate Handshake(t: seq<Event>, k: nat, h: Marks)
    requires k <= |t|
  {
    && h.reset < h.seen < h.ack < h.driver < h.features < h.accepted < k
    && Resets(t[h.reset]) && t[h.seen] == DidRead(Status, 0)
    && t[h.ack] == Wrote(Status, ACKNOWLEDGE) && t[h.driver] == Wrote(Status, ACKNOWLEDGE + DRIVER)
    && t[h.features] == Wrote(Status, FEATURES_WRITTEN)
    && t[h.accepted].DidRead? && t[h.accepted].reg == Status && Bit(t[h.accepted].value, 3)
    && (forall i | h.reset < i < k && WritesStatus(t[i]) :: i == h.ack || i == h.driver || i == h.features)
    && (forall i | h.reset < i < k && WritesFeatures(t[i]) :: h.driver < i < h.features)
  }

  /** The places of the checks of a queue. */
  datatype Checks = Checks(count: nat, select: nat, size: nat, enable: nat)

  /** Before event `k` the run has read the number of queues, selected queue `queue`, which is below it, and no other,
      and then, before anything was exposed, read its size and that it is not enabled. */
  ghost predicate Checked(t: seq<Event>, k: nat, queue: Word32, c: Checks)
    requires k <= |t|
  {
    && c.count < k && t[c.count].DidRead? && t[c.count].reg == NumQueues && queue < t[c.count].value
    && c.select < c.size < k && c.select < c.enable < k && t[c.select] == Wrote(QSelect, queue)
    && t[c.size].DidRead? && t[c.size].reg == QSize && t[c.enable] == DidRead(QEnable, 0)
    && (forall i | 0 <= i < k && Selects(t[i]) :: i == c.select)
    && (forall i | 0 <= i < c.size || 0 <= i < c.enable :: !Exposes(t[i]))
  }

  /** Nothing is exposed, and no notification sent, before the handshake is complete and queue `queue` checked. */
  ghost predicate SetUpFirst(t: seq<Event>, queue: Word32) {
    && (forall k | 0 <= k < |t| && (Exposes(t[k]) || t[k].Notified?) :: exists h :: Handshake(t, k, h))
    && (forall k | 0 <= k < |t| && Exposes(t[k]) :: exists c :: Checked(t, k, queue, c))
    && (forall k | 0 <= k < |t| && t[k].Notified? :: exists i :: 0 <= i < k && Exposes(t[i]))
  }

  // ----- a finite summary of the setup so far -----

  datatype Phase = Unknown | ResetWritten | ResetSeen | Acknowledged | DriverKnown | FeaturesOk | Accepted

  /** How far the handshake is; the number of queues; the queue selected first, and whether another selection
      followed; the size and the enable register of the selected queue, read before anything was exposed; whether
      anything was, and the queue enabled; what the queue then read as, and its notify offset; and whether the
      device refused the features or the rest of the machine something else. */
  datatype Setup = Setup(
    phase: Phase, count: Option<Word32>, selected: Option<Word32>, reselected: bool,
    size: Option<Word32>, enable: Option<Word32>, programmed: bool, enabled: bool,
    readBack: Option<Word32>, notifyOff: Option<Word32>, troubled: bool)

  const NOTHING: Setup := Setup(Unknown, None, None, false, None, None, false, false, None, None, false)

  function AfterRead(p: Phase, v: Word32): Phase {
    match p
    case ResetWritten => if v == 0 then ResetSeen else p
    case FeaturesOk => if Bit(v, 3) then Accepted else p
    case _ => p
  }

  function AfterStatus(p: Phase, v: Word32): Phase {
    if v == 0 then ResetWritten
    else if p.ResetSeen? && v == ACKNOWLEDGE then Acknowledged
    else if p.Acknowledged? && v == ACKNOWLEDGE + DRIVER then DriverKnown
    else if p.DriverKnown? && v == FEATURES_WRITTEN then FeaturesOk
    else Unknown
  }

  function SetupAfter(u: Setup, e: Event): Setup {
    match e
    case DidRead(r, v) =>
      if r == Status then
        u.(phase := AfterRead(u.phase, v), troubled := u.troubled || (u.phase.FeaturesOk? && !Bit(v, 3)))
      else if u.enabled then
        if r == QEnable then u.(readBack := Some(v)) else if r == QNotifyOff then u.(notifyOff := Some(v)) else u
      else if u.programmed then u
      else if r == NumQueues then u.(count := Some(v))
      else if r == QSize then u.(size := Some(v))
      else if r == QEnable then u.(enable := Some(v))
      else u
    case Wrote(r, v) =>
      if r == Status then u.(phase := AfterStatus(u.phase, v))
      else if r == Gf then u.(phase := if u.phase.DriverKnown? then u.phase else Unknown)
      else if r == QSelect then
        if u.selected.None? then u.(selected := Some(v), size := None, enable := None) else u.(reselected := true)
      else u.(programmed := u.programmed || Exposes(e), enabled := u.enabled || e == Wrote(QEnable, 1))
    case _ => u.(troubled := u.troubled || Refusal(e))
  }

  /** The rest of the machine refuses something. */
  predicate Refusal(e: Event) {
    e.TimedOut? || e.NoMemory? || e.MmapFailed? || e.DmaMapFailed? || e.DmaUnmapFailed?
  }

  predicate QueueReady(u: Setup) {
    && u.selected.Some? && !u.reselected && u.size.Some? && u.enable == Some(0)
    && u.count.Some? && u.selected.value < u.count.value
  }

  /** Whether an event is allowed after the setup so far. */
  predicate Permitted(u: Setup, e: Event) {
    && (Exposes(e) || e.Notified? ==> u.phase.Accepted?)
    && (Exposes(e) ==> QueueReady(u))
    && (e.Notified? ==> u.programmed)
  }

  function SetupOf(t: seq<Event>): Setup {
    if t == [] then NOTHING else SetupAfter(SetupOf(t[..|t| - 1]), t[|t| - 1])
  }

  predicate AllPermitted(t: seq<Event>) {
    t == [] || (AllPermitted(t[..|t| - 1]) && Permitted(SetupOf(t[..|t| - 1]), t[|t| - 1]))
  }

  lemma SetupAppend(t: seq<Event>, e: Event)
    ensures SetupOf(t + [e]) == SetupAfter(SetupOf(t), e)
    ensures AllPermitted(t + [e]) <==> AllPermitted(t) && Permitted(SetupOf(t), e)
  {
    assert (t + [e])[..|t + [e]| - 1] == t;
  }

  lemma {:induction false} PermittedAt(t: seq<Event>, k: nat)
    requires AllPermitted(t) && k < |t|
    ensures Permitted(SetupOf(t[..k]), t[k])
  {
    var n := |t| - 1;
    hide Permitted, SetupAfter;
    if k < n {
      PermittedAt(t[..n], k);
      assert t[..n][..k] == t[..k];
    }
  }

  // ----- the summary means what it says -----

  /** The part of a handshake that phase `p` stands for. */
  ghost predicate Through(t: seq<Event>, p: Phase, h: Marks) {
    p.Unknown? ||
    (&& h.reset < |t| && Resets(t[h.reset])
     && (p.ResetWritten? || (h.reset < h.seen < |t| && t[h.seen] == DidRead(Status, 0)))
     && (p.ResetWritten? || p.ResetSeen? || (h.seen < h.ack < |t| && t[h.ack] == Wrote(Status, ACKNOWLEDGE)))
     && (DriverWritten(p) ==> h.ack < h.driver < |t| && t[h.driver] == Wrote(Status, ACKNOWLEDGE + DRIVER))
     && (p.FeaturesOk? || p.Accepted? ==>
           h.driver < h.features < |t| && t[h.features] == Wrote(Status, FEATURES_WRITTEN))
     && (p.Accepted? ==>
           h.features < h.accepted < |t| && t[h.accepted].DidRead? && t[h.accepted].reg == Status
           && Bit(t[h.accepted].value, 3))
     && forall i | h.reset < i < |t| :: InOrder(p, h, i, t[i]))
  }

  predicate DriverWritten(p: Phase) {
    p.DriverKnown? || p.FeaturesOk? || p.Accepted?
  }

  predicate InOrder(p: Phase, h: Marks, i: nat, e: Event) {
    && (WritesStatus(e) ==>
          || (i == h.ack && (p.Acknowledged? || DriverWritten(p)))
          || (i == h.driver && DriverWritten(p))
          || (i == h.features && (p.FeaturesOk? || p.Accepted?)))
    && (WritesFeatures(e) ==> DriverWritten(p) && h.driver < i && (p.DriverKnown? || i < h.features))
  }

  /** The marks of a run one event longer. */
  function NextMarks(p: Phase, h: Marks, n: nat, e: Event): Marks {
    if Resets(e) then h.(reset := n)
    else if e.DidRead? && e.reg == Status then
      if p.ResetWritten? && e.value == 0 then h.(seen := n)
      else if p.FeaturesOk? && Bit(e.value, 3) then h.(accepted := n)
      else h
    else if WritesStatus(e) then
      if p.ResetSeen? then h.(ack := n) else if p.Acknowledged? then h.(driver := n) else h.(features := n)
    else h
  }

  /** An event that is no part of a handshake leaves the marks. */
  lemma ThroughKept(t: seq<Event>, e: Event, p: Phase, h: Marks)
    requires Through(t, p, h) && !WritesStatus(e) && (WritesFeatures(e) ==> p.DriverKnown?)
    ensures Through(t + [e], p, h)
  {
    var t' := t + [e];
    hide Bit, Resets;
    assert forall i | 0 <= i < |t| :: t'[i] == t[i];
    forall i | h.reset < i < |t'| && !p.Unknown? ensures InOrder(p, h, i, t'[i]) {
      if i < |t| { assert InOrder(p, h, i, t[i]); }
    }
  }

  lemma ThroughRead(t: seq<Event>, v: Word32, p: Phase, h: Marks)
    requires Through(t, p, h)
    ensures Through(t + [DidRead(Status, v)], AfterRead(p, v), NextMarks(p, h, |t|, DidRead(Status, v)))
  {
    var e := DidRead(Status, v);
    var p', h', t' := AfterRead(p, v), NextMarks(p, h, |t|, e), t + [e];
    hide Bit, Resets;
    assert forall i | 0 <= i < |t| :: t'[i] == t[i];
    forall i | h'.reset < i < |t'| && !p'.Unknown? ensures InOrder(p', h', i, t'[i]) {
      if i < |t| { assert InOrder(p, h, i, t[i]); }
    }
  }

  lemma ThroughStatus(t: seq<Event>, v: Word32, p: Phase, h: Marks)
    requires Through(t, p, h)
    ensures Through(t + [Wrote(Status, v)], AfterStatus(p, v), NextMarks(p, h, |t|, Wrote(Status, v)))
  {
    var e := Wrote(Status, v);
    var p', h', t' := AfterStatus(p, v), NextMarks(p, h, |t|, e), t + [e];
    hide Bit;
    assert forall i | 0 <= i < |t| :: t'[i] == t[i];
    forall i | h'.reset < i < |t'| && !p'.Unknown? ensures InOrder(p', h', i, t'[i]) {
      if i < |t| { assert InOrder(p, h, i, t[i]); }
    }
  }

  lemma ThroughStep(t: seq<Event>, e: Event, u: Setup, h: Marks)
    requires Through(t, u.phase, h)
    ensures Through(t + [e], SetupAfter(u, e).phase, NextMarks(u.phase, h, |t|, e))
  {
    hide Through, AfterRead, AfterStatus;
    if WritesStatus(e) {
      ThroughStatus(t, e.value, u.phase, h);
    } else if e.DidRead? && e.reg == Status {
      ThroughRead(t, e.value, u.phase, h);
    } else if WritesFeatures(e) && !u.phase.DriverKnown? {
      ThroughUnknown(t + [e], h);
    } else {
      ThroughKept(t, e, u.phase, h);
    }
  }

  lemma ThroughUnknown(t: seq<Event>, h: Marks)
    ensures Through(t, Unknown, h)
  {
  }

  lemma {:induction false} PhaseMeans(t: seq<Event>) returns (h: Marks)
    ensures Through(t, SetupOf(t).phase, h)
  {
    h := Marks(0, 0, 0, 0, 0, 0);
    if t != [] {
      var n := |t| - 1;
      var before := PhaseMeans(t[..n]);
      ThroughStep(t[..n], t[n], SetupOf(t[..n]), before);
      h := NextMarks(SetupOf(t[..n]).phase, before, n, t[n]);
      assert t[..n] + [t[n]] == t;
      hide Through, SetupAfter;
    }
  }

  lemma AcceptedMeans(t: seq<Event>, k: nat)
    requires k <= |t| && SetupOf(t[..k]).phase.Accepted?
    ensures exists h :: Handshake(t, k, h)
  {
    var front := t[..k];
    var h := PhaseMeans(front);
    hide SetupOf, WritesStatus, WritesFeatures, Resets, Bit;
    assert forall i | 0 <= i < k :: front[i] == t[i];
    forall i | h.reset < i < k ensures InOrder(Accepted, h, i, t[i]) {
      assert InOrder(Accepted, h, i, front[i]);
    }
    assert Handshake(t, k, h);
  }

  /** What the part of the summary about the queue stands for. */
  ghost predicate QueueMeans(t: seq<Event>, u: Setup, c: Checks) {
    && (u.count.Some? ==> c.count < |t| && t[c.count] == DidRead(NumQueues, u.count.value))
    && (u.selected.Some? ==> c.select < |t| && t[c.select] == Wrote(QSelect, u.selected.value))
    && (u.selected.None? ==> forall i | 0 <= i < |t| :: !Selects(t[i]))
    && (u.selected.Some? && !u.reselected ==> forall i | 0 <= i < |t| && Selects(t[i]) :: i == c.select)
    && (u.size.Some? ==>
          && c.size < |t| && t[c.size] == DidRead(QSize, u.size.value) && (u.selected.Some? ==> c.select < c.size)
          && forall i | 0 <= i < c.size :: !Exposes(t[i]))
    && (u.enable.Some? ==>
          && c.enable < |t| && t[c.enable] == DidRead(QEnable, u.enable.value)
          && (u.selected.Some? ==> c.select < c.enable)
          && forall i | 0 <= i < c.enable :: !Exposes(t[i]))
    && (!u.programmed ==> forall i | 0 <= i < |t| :: !Exposes(t[i]))
    && (u.programmed ==> exists i :: 0 <= i < |t| && Exposes(t[i]))
  }

  function NextChecks(u: Setup, c: Checks, n: nat, e: Event): Checks {
    if e.DidRead? && !u.programmed && !u.enabled then
      if e.reg == NumQueues then c.(count := n)
      else if e.reg == QSize then c.(size := n)
      else if e.reg == QEnable then c.(enable := n)
      else c
    else if Selects(e) && u.selected.None? then c.(select := n)
    else c
  }

  /** An event that neither selects nor exposes leaves what was seen. */
  lemma QueueKept(t: seq<Event>, e: Event, u: Setup, c: Checks)
    requires QueueMeans(t, u, c) && !Selects(e) && !Exposes(e)
    ensures QueueMeans(t + [e], u, c)
  {
    var t' := t + [e];
    hide Exposes, Selects;
    assert forall i | 0 <= i < |t| :: t'[i] == t[i];
    if u.programmed {
      var i :| 0 <= i < |t| && Exposes(t[i]);
      assert Exposes(t'[i]);
    }
  }

  lemma QueueRead(t: seq<Event>, r: Reg, v: Word32, u: Setup, c: Checks)
    requires QueueMeans(t, u, c) && !u.programmed && !u.enabled && r != Status
    ensures QueueMeans(t + [DidRead(r, v)], SetupAfter(u, DidRead(r, v)), NextChecks(u, c, |t|, DidRead(r, v)))
  {
    var e := DidRead(r, v);
    var t' := t + [e];
    assert !Selects(e) && !Exposes(e);
    hide Exposes, Selects;
    assert forall i | 0 <= i < |t| :: t'[i] == t[i];
  }

  lemma QueueSelect(t: seq<Event>, v: Word32, u: Setup, c: Checks)
    requires QueueMeans(t, u, c) && (u.programmed ==> u.selected.Some?)
    ensures QueueMeans(t + [Wrote(QSelect, v)], SetupAfter(u, Wrote(QSelect, v)),
                       NextChecks(u, c, |t|, Wrote(QSelect, v)))
  {
    var e := Wrote(QSelect, v);
    var t' := t + [e];
    assert !Exposes(e) && Selects(e);
    hide Exposes, Selects;
    assert forall i | 0 <= i < |t| :: t'[i] == t[i];
    if u.programmed {
      var i :| 0 <= i < |t| && Exposes(t[i]);
      assert Exposes(t'[i]);
    }
  }

  lemma QueueExposed(t: seq<Event>, e: Event, u: Setup, c: Checks)
    requires QueueMeans(t, u, c) && Exposes(e)
    ensures QueueMeans(t + [e], SetupAfter(u, e), c)
  {
    var t' := t + [e];
    assert !Selects(e);
    hide Exposes, Selects;
    assert forall i | 0 <= i < |t| :: t'[i] == t[i];
    assert Exposes(t'[|t|]);
  }

  lemma SamePart(t: seq<Event>, u: Setup, u': Setup, c: Checks)
    requires QueueMeans(t, u, c)
    requires u' == u.(phase := u'.phase, readBack := u'.readBack, notifyOff := u'.notifyOff, troubled := u'.troubled)
    ensures QueueMeans(t, u', c)
  {
  }

  lemma QueueStep(t: seq<Event>, e: Event, u: Setup, c: Checks)
    requires QueueMeans(t, u, c) && (u.programmed ==> u.selected.Some?)
    ensures QueueMeans(t + [e], SetupAfter(u, e), NextChecks(u, c, |t|, e))
  {
    hide QueueMeans, AfterRead, AfterStatus;
    if Exposes(e) {
      QueueExposed(t, e, u, c);
    } else if Selects(e) {
      QueueSelect(t, e.value, u, c);
    } else if e.DidRead? && e.reg != Status && !u.programmed && !u.enabled {
      QueueRead(t, e.reg, e.value, u, c);
    } else {
      QueueKept(t, e, u, c);
      SamePart(t + [e], u, SetupAfter(u, e), c);
    }
  }

  lemma {:induction false} SummaryMeans(t: seq<Event>) returns (c: Checks)
    requires AllPermitted(t)
    ensures QueueMeans(t, SetupOf(t), c) && (SetupOf(t).programmed ==> SetupOf(t).selected.Some?)
  {
    hide QueueMeans, SetupAfter, NextChecks, Permitted;
    if t == [] {
      c := Checks(0, 0, 0, 0);
      NothingMeans(c);
    } else {
      var n := |t| - 1;
      var before := SummaryMeans(t[..n]);
      QueueStep(t[..n], t[n], SetupOf(t[..n]), before);
      ProgrammedSelected(SetupOf(t[..n]), t[n]);
      c := NextChecks(SetupOf(t[..n]), before, n, t[n]);
      assert t[..n] + [t[n]] == t;
    }
  }

  lemma NothingMeans(c: Checks)
    ensures QueueMeans([], NOTHING, c)
  {
  }

  lemma ProgrammedSelected(u: Setup, e: Event)
    requires Permitted(u, e) && (u.programmed ==> u.selected.Some?)
    ensures SetupAfter(u, e).programmed ==> SetupAfter(u, e).selected.Some?
  {
  }

  lemma {:induction false} SelectedStays(t: seq<Event>, k: nat)
    requires k <= |t| && SetupOf(t[..k]).selected.Some?
    ensures SetupOf(t).selected == SetupOf(t[..k]).selected
    decreases |t|
  {
    var n := |t| - 1;
    if k < |t| {
      assert t[..n][..k] == t[..k];
      SelectedStays(t[..n], k);
    } else {
      assert t[..k] == t;
    }
  }

  lemma {:induction false} FrontPermitted(t: seq<Event>, k: nat)
    requires AllPermitted(t) && k <= |t|
    ensures AllPermitted(t[..k])
  {
    hide Permitted;
    if k < |t| {
      FrontPermitted(t[..|t| - 1], k);
      assert t[..|t| - 1][..k] == t[..k];
    } else {
      assert t[..k] == t;
    }
  }

  lemma ReadyMeans(t: seq<Event>, k: nat)
    requires AllPermitted(t) && k <= |t| && QueueReady(SetupOf(t[..k]))
    ensures SetupOf(t).selected.Some?
    ensures exists c :: Checked(t, k, SetupOf(t).selected.value, c)
  {
    var front := t[..k];
    SelectedStays(t, k);
    FrontPermitted(t, k);
    var c := SummaryMeans(front);
    hide SetupOf, AllPermitted, Exposes, Selects;
    assert forall i | 0 <= i < k :: front[i] == t[i];
    assert Checked(t, k, SetupOf(t).selected.value, c);
  }

  lemma ProgrammedMeans(t: seq<Event>, k: nat)
    requires AllPermitted(t) && k <= |t| && SetupOf(t[..k]).programmed
    ensures exists i :: 0 <= i < k && Exposes(t[i])
  {
    FrontPermitted(t, k);
    var c := SummaryMeans(t[..k]);
    hide SetupOf, AllPermitted, Exposes;
    var i :| 0 <= i < k && Exposes(t[..k][i]);
    assert t[..k][i] == t[i];
  }

  /** A run whose events are all permitted sets the device up first. */
  lemma PermittedIsSetUpFirst(t: seq<Event>, queue: Word32)
    requires AllPermitted(t) && SetupOf(t).selected in {None, Some(queue)}
    ensures SetUpFirst(t, queue)
  {
    forall k | 0 <= k < |t| ensures Permitted(SetupOf(t[..k]), t[k]) {
      PermittedAt(t, k);
    }
    hide SetupOf, AllPermitted, Exposes, QueueReady, Handshake, Checked;
    forall k | 0 <= k < |t| && (Exposes(t[k]) || t[k].Notified?) ensures exists h :: Handshake(t, k, h) {
      AcceptedMeans(t, k);
    }
    forall k | 0 <= k < |t| && Exposes(t[k]) ensures exists c :: Checked(t, k, queue, c) {
      ReadyMeans(t, k);
    }
    forall k | 0 <= k < |t| && t[k].Notified? ensures exists i :: 0 <= i < k && Exposes(t[i]) {
      ProgrammedMeans(t, k);
    }
  }

  /** The size in the summary is one that was read before anything was exposed. */
  lemma SizeMeans(t: seq<Event>) returns (z: nat)
    requires AllPermitted(t) && SetupOf(t).size.Some?
    ensures z < |t| && t[z] == DidRead(QSize, SetupOf(t).size.value) && forall i | 0 <= i < z :: !Exposes(t[i])
  {
    var c := SummaryMeans(t);
    z := c.size;
  }
}
