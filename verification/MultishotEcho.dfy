/** The echo server with provided buffers and multi-shot accept and recv, together with the kernel side of its
    ring: which buffer ids the kernel may take, which submissions it holds and which completions wait. */
module MultishotEcho {
  import opened Wrappers
  import Counting

  const NUM_BUFS: nat := 4096
  const BUF_SIZE: nat := 4096
  const ENOBUFS: int := 105

  /** Heap objects; the user_data of every submission is the address of one of them. */
  datatype Event =
    | AcceptEvent(fd: int)
    | RecvEvent(fd: int)
    | SendEvent(fd: int, bid: nat, len: nat, offset: nat, rearm: bool)

  datatype Cqe = Cqe(ev: nat, res: int, more: bool, buf: Option<nat>)

  /** `armed` holds the events of submissions that are queued or held by the kernel; `freed` logs deletions. */
  datatype State = State(
    pool: seq<nat>,
    heap: map<nat, Event>,
    nextEvent: nat,
    freed: seq<nat>,
    clients: set<int>,
    closed: seq<int>,
    armed: set<nat>,
    cq: seq<Cqe>,
    listenFd: int)

  function Init(listenFd: int): State {
    State(seq(NUM_BUFS, i requires 0 <= i < NUM_BUFS => i),
          map[0 := AcceptEvent(listenFd)], 1, [], {}, [], {0}, [], listenFd)
  }

  // ----- the program's actions -----

  function Allocate(s: State, e: Event): State {
    s.(heap := s.heap[s.nextEvent := e], nextEvent := s.nextEvent + 1, armed := s.armed + {s.nextEvent})
  }

  function Delete(s: State, e: nat): State {
    s.(heap := s.heap - {e}, freed := s.freed + [e])
  }

  function Recycle(s: State, bid: nat): State {
    s.(pool := s.pool + [bid])
  }

  function Close(s: State, fd: int): State {
    s.(clients := s.clients - {fd}, closed := s.closed + [fd])
  }

  function HandleAccept(s: State, c: Cqe): State {
    var s1 := if c.res >= 0
              then Allocate(s.(clients := s.clients + {c.res}), RecvEvent(c.res))
              else s;
    if c.more then s1 else Delete(Allocate(s1, AcceptEvent(s.listenFd)), c.ev)
  }

  function HandleRecv(s: State, c: Cqe, fd: int): State {
    var s1 := if c.res == -ENOBUFS then Allocate(s, RecvEvent(fd))
              else if c.res <= 0 || c.buf.None? then Close(s, fd)
              else Allocate(s, SendEvent(fd, c.buf.value, c.res, 0, !c.more));
    if c.more then s1 else Delete(s1, c.ev)
  }

  function HandleSend(s: State, c: Cqe, e: Event): State
    requires e.SendEvent?
  {
    if c.res <= 0 then
      Delete(Close(Recycle(s, e.bid), e.fd), c.ev)
    else if e.offset + c.res < e.len then
      s.(heap := s.heap[c.ev := e.(offset := e.offset + c.res)], armed := s.armed + {c.ev})
    else
      var s1 := Recycle(s, e.bid);
      Delete(if e.rearm && e.fd in s.clients then Allocate(s1, RecvEvent(e.fd)) else s1, c.ev)
  }

  /** One iteration of the event loop: take the oldest completion and dispatch on its event. */
  function Handle(s: State): State
    requires s.cq != [] && s.cq[0].ev in s.heap
  {
    var c := s.cq[0];
    var s1 := s.(cq := s.cq[1..]);
    match s.heap[c.ev]
    case AcceptEvent(_) => HandleAccept(s1, c)
    case RecvEvent(fd) => HandleRecv(s1, c, fd)
    case SendEvent(_, _, _, _, _) => HandleSend(s1, c, s.heap[c.ev])
  }

  // ----- the kernel's actions -----

  /** What the kernel may post for an armed submission. A result that is not positive ends a multi-shot
      operation and carries no buffer, a buffer is the oldest one of the pool, and a send transmits at most
      what was asked. */
  predicate KernelMay(s: State, c: Cqe) {
    && c.ev in s.armed
    && c.ev in s.heap
    && match s.heap[c.ev]
       case AcceptEvent(_) => c.buf.None? && (c.res < 0 ==> !c.more)
       case RecvEvent(_) =>
         && c.res <= BUF_SIZE
         && (c.res <= 0 ==> !c.more && c.buf.None?)
         && (c.buf.Some? ==> s.pool != [] && c.buf.value == s.pool[0])
       case SendEvent(_, _, len, offset, _) => !c.more && c.buf.None? && c.res <= len - offset
  }

  function Posted(s: State, c: Cqe): State
    requires c.buf.Some? ==> s.pool != []
  {
    s.(cq := s.cq + [c],
       armed := if c.more then s.armed else s.armed - {c.ev},
       pool := if c.buf.Some? then s.pool[1..] else s.pool)
  }

  // ----- the invariant -----

  /** Events whose last completion is waiting. */
  ghost function Finished(cq: seq<Cqe>): set<nat> {
    set i | 0 <= i < |cq| && !cq[i].more :: cq[i].ev
  }

  ghost predicate Fits(s: State, c: Cqe)
    requires c.ev in s.heap
  {
    && (c.buf.Some? ==> s.heap[c.ev].RecvEvent? && c.res > 0)
    && match s.heap[c.ev]
       case AcceptEvent(_) => c.res < 0 ==> !c.more
       case RecvEvent(_) => c.res <= BUF_SIZE && (c.res <= 0 ==> !c.more)
       case SendEvent(_, _, len, offset, _) => !c.more && c.res <= len - offset
  }

  /** Ownership of events. */
  ghost predicate EventsOwned(s: State) {
    && s.heap.Keys == s.armed + Finished(s.cq)
    && s.armed !! Finished(s.cq)
    && (forall i | 0 <= i < |s.cq| :: s.cq[i].ev in s.heap && Fits(s, s.cq[i]))
    && (forall i, j | 0 <= i < j < |s.cq| && !s.cq[i].more :: s.cq[i].ev != s.cq[j].ev)
  }

  /** Every event ever allocated is either live or was deleted, once. */
  ghost predicate DeletedOnce(s: State) {
    && (forall i, j | 0 <= i < j < |s.freed| :: s.freed[i] != s.freed[j])
    && (forall e | e in s.freed :: e < s.nextEvent && e !in s.heap)
    && (forall e | e in s.heap :: e < s.nextEvent)
    && (forall e: nat | e < s.nextEvent :: e in s.heap || e in s.freed)
  }

  ghost function SendIds(heap: map<nat, Event>): set<nat> {
    set e | e in heap && heap[e].SendEvent? :: heap[e].bid
  }

  ghost function CompletionIds(cq: seq<Cqe>): set<nat> {
    set i | 0 <= i < |cq| && cq[i].buf.Some? :: cq[i].buf.value
  }

  ghost function PoolIds(pool: seq<nat>): set<nat> {
    set b | b in pool
  }

  predicate IsBufferId(b: nat) { b < NUM_BUFS }

  ghost function AllIds(): set<nat> {
    set b: nat | b < NUM_BUFS && IsBufferId(b)
  }

  /** The three kinds of holder partition the buffer ids, and no two holders of a kind share one. */
  ghost predicate BuffersOwned(s: State) {
    && (forall i, j | 0 <= i < j < |s.pool| :: s.pool[i] != s.pool[j])
    && (forall i, j | 0 <= i < j < |s.cq| && s.cq[i].buf.Some? && s.cq[j].buf.Some? ::
          s.cq[i].buf.value != s.cq[j].buf.value)
    && (forall d, e | d in s.heap && e in s.heap && d != e && s.heap[d].SendEvent? && s.heap[e].SendEvent? ::
          s.heap[d].bid != s.heap[e].bid)
    && PoolIds(s.pool) !! CompletionIds(s.cq)
    && PoolIds(s.pool) !! SendIds(s.heap)
    && CompletionIds(s.cq) !! SendIds(s.heap)
    && PoolIds(s.pool) + CompletionIds(s.cq) + SendIds(s.heap) == AllIds()
  }

  ghost predicate SlicesValid(s: State) {
    forall e | e in s.heap && s.heap[e].SendEvent? :: s.heap[e].offset < s.heap[e].len <= BUF_SIZE
  }

  ghost predicate Inv(s: State) {
    EventsOwned(s) && DeletedOnce(s) && BuffersOwned(s) && SlicesValid(s)
  }

  lemma FinishedAppend(cq: seq<Cqe>, c: Cqe)
    ensures Finished(cq + [c]) == if c.more then Finished(cq) else Finished(cq) + {c.ev}
  {
    var cq' := cq + [c];
    forall e | e in Finished(cq) ensures e in Finished(cq') {
      var i :| 0 <= i < |cq| && !cq[i].more && cq[i].ev == e;
      assert cq'[i] == cq[i];
    }
    assert cq'[|cq|] == c;
  }

  lemma FinishedDrop(cq: seq<Cqe>)
    requires cq != []
    ensures Finished(cq) == if cq[0].more then Finished(cq[1..]) else Finished(cq[1..]) + {cq[0].ev}
  {
    forall e | e in Finished(cq[1..]) ensures e in Finished(cq) {
      var i :| 0 <= i < |cq[1..]| && !cq[1..][i].more && cq[1..][i].ev == e;
      assert cq[i + 1] == cq[1..][i];
    }
    forall e | e in Finished(cq) && (cq[0].more || e != cq[0].ev) ensures e in Finished(cq[1..]) {
      var i :| 0 <= i < |cq| && !cq[i].more && cq[i].ev == e;
      assert cq[1..][i - 1] == cq[i];
    }
  }

  lemma CompletionIdsAppend(cq: seq<Cqe>, c: Cqe)
    ensures CompletionIds(cq + [c]) == CompletionIds(cq) + if c.buf.Some? then {c.buf.value} else {}
  {
    var cq' := cq + [c];
    forall b | b in CompletionIds(cq) ensures b in CompletionIds(cq') {
      var i :| 0 <= i < |cq| && cq[i].buf.Some? && cq[i].buf.value == b;
      assert cq'[i] == cq[i];
    }
    assert cq'[|cq|] == c;
  }

  lemma CompletionIdsDrop(cq: seq<Cqe>)
    requires cq != []
    ensures CompletionIds(cq) == CompletionIds(cq[1..]) + if cq[0].buf.Some? then {cq[0].buf.value} else {}
  {
    forall b | b in CompletionIds(cq[1..]) ensures b in CompletionIds(cq) {
      var i :| 0 <= i < |cq[1..]| && cq[1..][i].buf.Some? && cq[1..][i].buf.value == b;
      assert cq[i + 1] == cq[1..][i];
    }
    forall b | b in CompletionIds(cq) && (cq[0].buf.Some? ==> b != cq[0].buf.value)
      ensures b in CompletionIds(cq[1..])
    {
      var i :| 0 <= i < |cq| && cq[i].buf.Some? && cq[i].buf.value == b;
      assert cq[1..][i - 1] == cq[i];
    }
  }

  lemma InitInv(listenFd: int)
    ensures Inv(Init(listenFd))
  {
    var s := Init(listenFd);
    forall b: nat | b < NUM_BUFS ensures b in s.pool {
      assert s.pool[b] == b;
    }
    assert PoolIds(s.pool) == AllIds();
  }

  lemma PostKeepsEvents(s: State, c: Cqe)
    requires EventsOwned(s) && KernelMay(s, c)
    ensures EventsOwned(Posted(s, c))
  {
    var t := Posted(s, c);
    FinishedAppend(s.cq, c);
    forall i | 0 <= i < |t.cq| ensures t.cq[i].ev in t.heap && Fits(t, t.cq[i]) {
      assert i < |s.cq| ==> t.cq[i] == s.cq[i] && Fits(s, s.cq[i]);
    }
    forall i, j | 0 <= i < j < |t.cq| && !t.cq[i].more ensures t.cq[i].ev != t.cq[j].ev {
      assert t.cq[i] == s.cq[i] && s.cq[i].ev in Finished(s.cq);
    }
  }

  lemma PostKeepsBuffers(s: State, c: Cqe)
    requires BuffersOwned(s) && KernelMay(s, c)
    ensures BuffersOwned(Posted(s, c))
  {
    CompletionIdsAppend(s.cq, c);
    var t := Posted(s, c);
    if c.buf.Some? {
      assert s.pool == [c.buf.value] + t.pool;
      assert PoolIds(s.pool) == {c.buf.value} + PoolIds(t.pool);
      forall i | 0 <= i < |s.cq| && s.cq[i].buf.Some? ensures s.cq[i].buf.value != c.buf.value {
        assert s.cq[i].buf.value in CompletionIds(s.cq);
      }
    }
  }

  lemma PostInv(s: State, c: Cqe)
    requires Inv(s) && KernelMay(s, c)
    ensures Inv(Posted(s, c))
  {
    PostKeepsEvents(s, c);
    PostKeepsBuffers(s, c);
  }

  // ----- the handler, seen as: take a completion in hand, allocate, give the hand back -----

  /** Events while the completion `c` is in hand: its event belongs to the handler if `c` was the last one. */
  ghost predicate EventsInHand(s: State, c: Cqe) {
    && c.ev in s.heap
    && s.heap.Keys == s.armed + Finished(s.cq) + (if c.more then {} else {c.ev})
    && s.armed !! Finished(s.cq)
    && (!c.more ==> c.ev !in s.armed && c.ev !in Finished(s.cq))
    && (forall i | 0 <= i < |s.cq| :: s.cq[i].ev in s.heap && Fits(s, s.cq[i]) && (!c.more ==> s.cq[i].ev != c.ev))
    && (forall i, j | 0 <= i < j < |s.cq| && !s.cq[i].more :: s.cq[i].ev != s.cq[j].ev)
  }

  /** Buffers while the ids of `hand` belong to the handler. */
  ghost predicate BuffersInHand(s: State, hand: set<nat>) {
    && (forall i, j | 0 <= i < j < |s.pool| :: s.pool[i] != s.pool[j])
    && (forall i, j | 0 <= i < j < |s.cq| && s.cq[i].buf.Some? && s.cq[j].buf.Some? ::
          s.cq[i].buf.value != s.cq[j].buf.value)
    && (forall d, e | d in s.heap && e in s.heap && d != e && s.heap[d].SendEvent? && s.heap[e].SendEvent? ::
          s.heap[d].bid != s.heap[e].bid)
    && PoolIds(s.pool) !! CompletionIds(s.cq) !! SendIds(s.heap) !! hand
    && PoolIds(s.pool) + CompletionIds(s.cq) + SendIds(s.heap) + hand == AllIds()
  }

  lemma TakeEvents(s: State)
    requires EventsOwned(s) && s.cq != []
    ensures EventsInHand(s.(cq := s.cq[1..]), s.cq[0])
  {
    var c, t := s.cq[0], s.(cq := s.cq[1..]);
    FinishedDrop(s.cq);
    forall i | 0 <= i < |t.cq| ensures t.cq[i].ev in t.heap && Fits(t, t.cq[i]) && (!c.more ==> t.cq[i].ev != c.ev) {
      assert s.cq[i + 1] == t.cq[i];
    }
  }

  ghost function InHand(c: Cqe): set<nat> {
    if c.buf.Some? then {c.buf.value} else {}
  }

  lemma TakeBuffers(s: State)
    requires BuffersOwned(s) && s.cq != []
    ensures BuffersInHand(s.(cq := s.cq[1..]), InHand(s.cq[0]))
  {
    var c, t := s.cq[0], s.(cq := s.cq[1..]);
    CompletionIdsDrop(s.cq);
    forall i | 0 <= i < |t.cq| && t.cq[i].buf.Some? ensures c.buf.Some? ==> t.cq[i].buf.value != c.buf.value {
      assert s.cq[i + 1] == t.cq[i];
    }
  }

  lemma AllocateEvents(s: State, c: Cqe, e: Event)
    requires EventsInHand(s, c) && DeletedOnce(s)
    ensures EventsInHand(Allocate(s, e), c) && DeletedOnce(Allocate(s, e))
  {
    var t := Allocate(s, e);
    forall i | 0 <= i < |t.cq| ensures t.cq[i].ev in t.heap && Fits(t, t.cq[i]) {
      assert s.cq[i].ev in s.heap && Fits(s, s.cq[i]);
    }
  }

  lemma AllocateBuffers(s: State, hand: set<nat>, e: Event)
    requires BuffersInHand(s, hand) && DeletedOnce(s)
    requires e.SendEvent? ==> e.bid in hand
    ensures BuffersInHand(Allocate(s, e), if e.SendEvent? then hand - {e.bid} else hand)
  {
    var t := Allocate(s, e);
    var n := s.nextEvent;
    forall d | d in s.heap && s.heap[d].SendEvent? ensures s.heap[d].bid in SendIds(s.heap) {}
    assert SendIds(t.heap) == SendIds(s.heap) + (if e.SendEvent? then {e.bid} else {}) by {
      forall b | b in SendIds(s.heap) ensures b in SendIds(t.heap) {
        var d :| d in s.heap && s.heap[d].SendEvent? && s.heap[d].bid == b;
        assert t.heap[d] == s.heap[d];
      }
      assert t.heap[n] == e;
    }
  }

  lemma ReleaseEvents(s: State, c: Cqe)
    requires EventsInHand(s, c) && DeletedOnce(s)
    ensures c.more ==> EventsOwned(s)
    ensures !c.more ==> EventsOwned(Delete(s, c.ev)) && DeletedOnce(Delete(s, c.ev))
  {
    if !c.more {
      var t := Delete(s, c.ev);
      forall i | 0 <= i < |t.cq| ensures t.cq[i].ev in t.heap && Fits(t, t.cq[i]) {
        assert s.cq[i].ev in s.heap && Fits(s, s.cq[i]);
      }
    }
  }

  lemma DeleteKeepsBuffers(s: State, hand: set<nat>, e: nat)
    requires BuffersInHand(s, hand) && e in s.heap && !s.heap[e].SendEvent?
    ensures BuffersInHand(Delete(s, e), hand)
  {
    var t := Delete(s, e);
    assert SendIds(t.heap) == SendIds(s.heap) by {
      forall b | b in SendIds(s.heap) ensures b in SendIds(t.heap) {
        var d :| d in s.heap && s.heap[d].SendEvent? && s.heap[d].bid == b;
        assert t.heap[d] == s.heap[d];
      }
    }
  }

  /** A send event that ends gives its buffer back: it leaves the heap and its id enters the pool. */
  lemma ReturnBuffer(s: State, e: nat)
    requires BuffersInHand(s, {}) && e in s.heap && s.heap[e].SendEvent?
    ensures BuffersInHand(Delete(Recycle(s, s.heap[e].bid), e), {})
    ensures |s.pool| < NUM_BUFS
  {
    var bid := s.heap[e].bid;
    var t := Delete(Recycle(s, bid), e);
    assert bid in SendIds(s.heap);
    assert SendIds(s.heap) == SendIds(t.heap) + {bid} by {
      forall b | b in SendIds(s.heap) && b != bid ensures b in SendIds(t.heap) {
        var d :| d in s.heap && s.heap[d].SendEvent? && s.heap[d].bid == b;
        assert t.heap[d] == s.heap[d];
      }
    }
    assert PoolIds(t.pool) == PoolIds(s.pool) + {bid};
    PoolHasRoom(s.pool, bid);
  }

  /** A pool of distinct ids that misses one id is not full. */
  lemma PoolHasRoom(pool: seq<nat>, missing: nat)
    requires forall i, j | 0 <= i < j < |pool| :: pool[i] != pool[j]
    requires missing in AllIds() && missing !in PoolIds(pool) && PoolIds(pool) <= AllIds()
    ensures |pool| < NUM_BUFS
  {
    Counting.DistinctCount(pool);
    AllIdsCount(NUM_BUFS);
    assert PoolIds(pool) < AllIds();
    Counting.SubsetCount(PoolIds(pool), AllIds());
  }

  lemma {:induction false} AllIdsCount(n: nat)
    ensures |(set b: nat | b < n && IsBufferId(b))| <= n
    ensures n <= NUM_BUFS ==> |(set b: nat | b < n && IsBufferId(b))| == n
  {
    if n != 0 {
      AllIdsCount(n - 1);
      var smaller := set b: nat | b < n - 1 && IsBufferId(b);
      assert (set b: nat | b < n && IsBufferId(b)) == smaller + if IsBufferId(n - 1) then {n - 1} else {};
    }
  }

  /** The state of a handler between taking completion `c` and returning. */
  ghost predicate Working(s: State, c: Cqe, hand: set<nat>) {
    EventsInHand(s, c) && DeletedOnce(s) && BuffersInHand(s, hand) && SlicesValid(s)
  }

  lemma Take(s: State)
    requires Inv(s) && s.cq != []
    ensures Working(s.(cq := s.cq[1..]), s.cq[0], InHand(s.cq[0]))
  {
    TakeEvents(s);
    TakeBuffers(s);
  }

  lemma AllocateWorks(s: State, c: Cqe, hand: set<nat>, e: Event)
    requires Working(s, c, hand)
    requires e.SendEvent? ==> e.bid in hand && e.offset < e.len <= BUF_SIZE
    ensures Working(Allocate(s, e), c, if e.SendEvent? then hand - {e.bid} else hand)
    ensures Allocate(s, e).heap[c.ev] == s.heap[c.ev]
  {
    AllocateEvents(s, c, e);
    AllocateBuffers(s, hand, e);
  }

  lemma Release(s: State, c: Cqe)
    requires Working(s, c, {}) && !s.heap[c.ev].SendEvent?
    ensures Inv(if c.more then s else Delete(s, c.ev))
  {
    ReleaseEvents(s, c);
    DeleteKeepsBuffers(s, {}, c.ev);
  }

  lemma AcceptKeepsInv(s: State, c: Cqe)
    requires Working(s, c, {}) && s.heap[c.ev].AcceptEvent?
    ensures Inv(HandleAccept(s, c))
  {
    var s1 := s;
    if c.res >= 0 {
      s1 := s.(clients := s.clients + {c.res});
      assert Working(s1, c, {});
      AllocateWorks(s1, c, {}, RecvEvent(c.res));
      s1 := Allocate(s1, RecvEvent(c.res));
    }
    if !c.more {
      AllocateWorks(s1, c, {}, AcceptEvent(s.listenFd));
      s1 := Allocate(s1, AcceptEvent(s.listenFd));
    }
    Release(s1, c);
  }

  lemma RecvKeepsInv(s: State, c: Cqe, fd: int)
    requires Working(s, c, InHand(c)) && s.heap[c.ev] == RecvEvent(fd)
    requires c.res <= BUF_SIZE && (c.buf.Some? ==> c.res > 0)
    ensures Inv(HandleRecv(s, c, fd))
  {
    var s1;
    if c.res == -ENOBUFS {
      AllocateWorks(s, c, {}, RecvEvent(fd));
      s1 := Allocate(s, RecvEvent(fd));
    } else if c.res <= 0 || c.buf.None? {
      s1 := Close(s, fd);
      assert Working(s1, c, {});
    } else {
      AllocateWorks(s, c, InHand(c), SendEvent(fd, c.buf.value, c.res, 0, !c.more));
      assert InHand(c) - {c.buf.value} == {};
      s1 := Allocate(s, SendEvent(fd, c.buf.value, c.res, 0, !c.more));
    }
    Release(s1, c);
  }

  lemma SameSendIds(heap: map<nat, Event>, k: nat, e: Event)
    requires k in heap && heap[k].SendEvent? && e.SendEvent? && e.bid == heap[k].bid
    ensures SendIds(heap[k := e]) == SendIds(heap)
  {
    forall b | b in SendIds(heap) ensures b in SendIds(heap[k := e]) {
      var d :| d in heap && heap[d].SendEvent? && heap[d].bid == b;
      assert heap[k := e][d].bid == b;
    }
  }

  lemma PartialSendKeepsInv(s: State, c: Cqe)
    requires Working(s, c, {}) && s.heap[c.ev].SendEvent? && !c.more
    requires 0 < c.res && s.heap[c.ev].offset + c.res < s.heap[c.ev].len
    ensures Inv(HandleSend(s, c, s.heap[c.ev]))
  {
    var e := s.heap[c.ev];
    var t := HandleSend(s, c, e);
    SameSendIds(s.heap, c.ev, t.heap[c.ev]);
    hide SendIds;
    forall i | 0 <= i < |t.cq| ensures t.cq[i].ev in t.heap && Fits(t, t.cq[i]) {
      assert s.cq[i].ev in s.heap && Fits(s, s.cq[i]);
    }
  }

  /** Ending a send: its buffer goes back and its event is deleted. */
  lemma EndSend(s: State, c: Cqe)
    requires Working(s, c, {}) && s.heap[c.ev].SendEvent? && !c.more
    ensures Inv(Delete(Recycle(s, s.heap[c.ev].bid), c.ev))
    ensures |s.pool| < NUM_BUFS
  {
    var s1 := Recycle(s, s.heap[c.ev].bid);
    ReturnBuffer(s, c.ev);
    assert EventsInHand(s1, c) && DeletedOnce(s1);
    ReleaseEvents(s1, c);
  }

  /** ... and the next recv of the client is queued. */
  lemma EndSendAndRearm(s: State, c: Cqe, e: Event)
    requires Working(s, c, {}) && s.heap[c.ev].SendEvent? && !c.more && e.RecvEvent?
    ensures Inv(Delete(Allocate(Recycle(s, s.heap[c.ev].bid), e), c.ev))
  {
    RearmEvents(Recycle(s, s.heap[c.ev].bid), c, e);
    RearmBuffers(s, c, e);
  }

  lemma NothingInHand(s: State)
    requires BuffersInHand(s, {})
    ensures BuffersOwned(s)
  {
  }

  lemma DeleteCommutes(s: State, k: nat, e: Event)
    requires k < s.nextEvent
    ensures Delete(Allocate(s, e), k) == Allocate(Delete(s, k), e)
  {
    assert Delete(Allocate(s, e), k).heap == Allocate(Delete(s, k), e).heap;
  }

  lemma RearmBuffers(s: State, c: Cqe, e: Event)
    requires BuffersInHand(s, {}) && DeletedOnce(s) && c.ev in s.heap && s.heap[c.ev].SendEvent? && e.RecvEvent?
    ensures BuffersOwned(Delete(Allocate(Recycle(s, s.heap[c.ev].bid), e), c.ev))
  {
    var s1 := Recycle(s, s.heap[c.ev].bid);
    var t := Delete(s1, c.ev);
    assert c.ev < s.nextEvent && DeletedOnce(t);
    hide BuffersInHand, BuffersOwned, DeletedOnce;
    ReturnBuffer(s, c.ev);
    AllocateBuffers(t, {}, e);
    DeleteCommutes(s1, c.ev, e);
    NothingInHand(Allocate(t, e));
  }

  lemma RearmEvents(s: State, c: Cqe, e: Event)
    requires EventsInHand(s.(pool := []), c) && DeletedOnce(s.(pool := [])) && !c.more
    ensures EventsOwned(Delete(Allocate(s, e), c.ev)) && DeletedOnce(Delete(Allocate(s, e), c.ev))
  {
    assert EventsInHand(s, c) && DeletedOnce(s);
    AllocateEvents(s, c, e);
    ReleaseEvents(Allocate(s, e), c);
  }

  lemma EndedSendKeepsInv(s: State, c: Cqe)
    requires Working(s, c, {}) && s.heap[c.ev].SendEvent? && !c.more
    requires c.res <= 0 || s.heap[c.ev].offset + c.res >= s.heap[c.ev].len
    ensures Inv(HandleSend(s, c, s.heap[c.ev]))
    ensures |s.pool| < NUM_BUFS
  {
    var e := s.heap[c.ev];
    EndSend(s, c);
    if 0 < c.res && e.rearm && e.fd in s.clients {
      EndSendAndRearm(s, c, RecvEvent(e.fd));
    }
  }

  lemma HandleInv(s: State)
    requires Inv(s) && s.cq != []
    ensures Inv(Handle(s))
  {
    var c, t := s.cq[0], s.(cq := s.cq[1..]);
    Take(s);
    assert Fits(s, c);
    match s.heap[c.ev]
    case AcceptEvent(_) => AcceptKeepsInv(t, c);
    case RecvEvent(fd) => RecvKeepsInv(t, c, fd);
    case SendEvent(_, _, _, _, _) =>
      if 0 < c.res && s.heap[c.ev].offset + c.res < s.heap[c.ev].len {
        PartialSendKeepsInv(t, c);
      } else {
        EndedSendKeepsInv(t, c);
      }
  }

  // ----- runs -----

  datatype Action = KernelPosts(c: Cqe) | ProgramHandles

  ghost predicate Allowed(s: State, a: Action) {
    match a
    case KernelPosts(c) => KernelMay(s, c)
    case ProgramHandles => s.cq != [] && s.cq[0].ev in s.heap
  }

  ghost function Apply(s: State, a: Action): State
    requires Allowed(s, a)
  {
    match a
    case KernelPosts(c) => Posted(s, c)
    case ProgramHandles => Handle(s)
  }

  /** States reached by some interleaving of completions and loop iterations. */
  ghost predicate Reaches(s: State, acts: seq<Action>, t: State)
    decreases |acts|
  {
    if acts == [] then s == t
    else Allowed(s, acts[0]) && Reaches(Apply(s, acts[0]), acts[1..], t)
  }

  lemma {:induction false} ReachesKeepsInv(s: State, acts: seq<Action>, t: State)
    requires Inv(s) && Reaches(s, acts, t)
    ensures Inv(t)
    decreases |acts|
  {
    if acts != [] {
      match acts[0] {
        case KernelPosts(c) => PostInv(s, c);
        case ProgramHandles => HandleInv(s);
      }
      ReachesKeepsInv(Apply(s, acts[0]), acts[1..], t);
    }
  }

  // ----- what the invariant means -----

  datatype Place = InPool(index: nat) | InCompletion(index: nat) | InSend(event: nat)

  ghost predicate Holds(s: State, p: Place, b: nat) {
    match p
    case InPool(i) => i < |s.pool| && s.pool[i] == b
    case InCompletion(i) => i < |s.cq| && s.cq[i].buf == Some(b)
    case InSend(e) => e in s.heap && s.heap[e].SendEvent? && s.heap[e].bid == b
  }

  /** Buffer conservation: in every reachable state each buffer id is in exactly one place, and nothing else is
      ever taken for a buffer id. */
  lemma BufferConservation(listenFd: int, acts: seq<Action>, s: State, b: nat)
    requires Reaches(Init(listenFd), acts, s)
    ensures b < NUM_BUFS <==> exists p :: Holds(s, p, b)
    ensures forall p, q :: Holds(s, p, b) && Holds(s, q, b) ==> p == q
  {
    InitInv(listenFd);
    ReachesKeepsInv(Init(listenFd), acts, s);
    PlaceExists(s, b);
    forall p, q | Holds(s, p, b) && Holds(s, q, b) ensures p == q {
      PlaceIds(s, p, b);
      PlaceIds(s, q, b);
    }
  }

  lemma PlaceIds(s: State, p: Place, b: nat)
    requires Holds(s, p, b)
    ensures match p
            case InPool(_) => b in PoolIds(s.pool)
            case InCompletion(_) => b in CompletionIds(s.cq)
            case InSend(_) => b in SendIds(s.heap)
  {
    match p
    case InPool(_) =>
    case InCompletion(i) => assert s.cq[i].buf.Some? && s.cq[i].buf.value == b;
    case InSend(e) => assert s.heap[e].bid == b;
  }

  lemma PlaceExists(s: State, b: nat)
    requires Inv(s)
    ensures b < NUM_BUFS <==> exists p :: Holds(s, p, b)
  {
    if b < NUM_BUFS {
      assert b in AllIds();
      if b in PoolIds(s.pool) {
        var i :| 0 <= i < |s.pool| && s.pool[i] == b;
        assert Holds(s, InPool(i), b);
      } else if b in CompletionIds(s.cq) {
        var i :| 0 <= i < |s.cq| && s.cq[i].buf.Some? && s.cq[i].buf.value == b;
        assert Holds(s, InCompletion(i), b);
      } else {
        var e :| e in s.heap && s.heap[e].SendEvent? && s.heap[e].bid == b;
        assert Holds(s, InSend(e), b);
      }
    }
    forall p | Holds(s, p, b) ensures b < NUM_BUFS {
      PlaceIds(s, p, b);
      assert b in AllIds();
    }
  }

  /** Event ownership: in every reachable state the events of waiting completions are live, an event is live
      exactly while its submission is armed or its last completion waits, and of all events ever allocated each is
      live or was deleted exactly once. */
  lemma EventOwnership(listenFd: int, acts: seq<Action>, s: State)
    requires Reaches(Init(listenFd), acts, s)
    ensures forall i | 0 <= i < |s.cq| :: s.cq[i].ev in s.heap
    ensures forall e ::
              e in s.heap <==> (e in s.armed) != (exists i :: 0 <= i < |s.cq| && !s.cq[i].more && s.cq[i].ev == e)
    ensures forall e: nat :: e < s.nextEvent <==> (e in s.heap) != (e in s.freed)
    ensures forall i, j | 0 <= i < j < |s.freed| :: s.freed[i] != s.freed[j]
  {
    InitInv(listenFd);
    ReachesKeepsInv(Init(listenFd), acts, s);
    assert forall e :: e in Finished(s.cq) <==> exists i :: 0 <= i < |s.cq| && !s.cq[i].more && s.cq[i].ev == e;
  }

  /** First byte and end of the slice of the buffer pool that a send still has to transmit. */
  function SliceStart(e: Event): nat
    requires e.SendEvent?
  {
    e.bid * BUF_SIZE + e.offset
  }

  function SliceEnd(e: Event): nat
    requires e.SendEvent?
  {
    e.bid * BUF_SIZE + e.len
  }

  /** Slices of two live sends are disjoint, lie inside the pool's memory, and touch no buffer the kernel may
      fill. */
  lemma SlicesDisjoint(listenFd: int, acts: seq<Action>, s: State, d: nat, e: nat)
    requires Reaches(Init(listenFd), acts, s)
    requires d in s.heap && s.heap[d].SendEvent? && e in s.heap && s.heap[e].SendEvent?
    ensures SliceStart(s.heap[d]) < SliceEnd(s.heap[d]) <= NUM_BUFS * BUF_SIZE
    ensures d != e ==> SliceEnd(s.heap[d]) <= SliceStart(s.heap[e]) || SliceEnd(s.heap[e]) <= SliceStart(s.heap[d])
    ensures forall i | 0 <= i < |s.pool| ::
              SliceEnd(s.heap[d]) <= s.pool[i] * BUF_SIZE || (s.pool[i] + 1) * BUF_SIZE <= SliceStart(s.heap[d])
  {
    InitInv(listenFd);
    ReachesKeepsInv(Init(listenFd), acts, s);
    PlaceExists(s, s.heap[d].bid);
    assert Holds(s, InSend(d), s.heap[d].bid);
    forall i | 0 <= i < |s.pool| ensures s.pool[i] != s.heap[d].bid {
      PlaceIds(s, InSend(d), s.heap[d].bid);
    }
  }

  /** Why the kernel must not attach a buffer to a result that is not positive: the handler would close the
      connection and forget the id, which from then on is nowhere. */
  lemma BufferOfFailedRecvIsLost(s: State, b: nat)
    requires BuffersOwned(s) && s.cq != [] && s.cq[0].ev in s.heap && s.heap[s.cq[0].ev].RecvEvent?
    requires s.cq[0].res <= 0 && s.cq[0].buf == Some(b) && (forall e | e in s.heap :: e < s.nextEvent)
    ensures forall p :: !Holds(Handle(s), p, b)
  {
    TakeBuffers(s);
    var t := Handle(s);
    assert forall i | 0 <= i < |t.cq| && t.cq[i].buf.Some? :: t.cq[i].buf.value in CompletionIds(s.cq[1..]);
    forall p ensures !Holds(t, p, b) {
      match p
      case InPool(i) => assert b !in PoolIds(s.pool);
      case InCompletion(i) =>
      case InSend(e) =>
        assert e in t.heap && t.heap[e].SendEvent? ==> e in s.heap && t.heap[e].bid in SendIds(s.heap);
    }
  }

  ghost function Accepts(heap: map<nat, Event>): set<nat> {
    set e | e in heap && heap[e].AcceptEvent?
  }

  /** There is exactly one accept event, on the listener. */
  ghost predicate OneAccept(s: State) {
    exists a :: Accepts(s.heap) == {a} && s.heap[a] == AcceptEvent(s.listenFd)
  }

  lemma {:induction false} RunKeepsOneAccept(s: State, acts: seq<Action>, t: State)
    requires Inv(s) && OneAccept(s) && Reaches(s, acts, t)
    ensures OneAccept(t) && t.listenFd == s.listenFd
    decreases |acts|
  {
    if acts != [] {
      match acts[0] {
        case KernelPosts(c) => PostInv(s, c);
        case ProgramHandles =>
          HandleInv(s);
          HandleKeepsOneAccept(s);
      }
      RunKeepsOneAccept(Apply(s, acts[0]), acts[1..], t);
    }
  }

  /** In every reachable state exactly one accept is armed, queued or about to be handled. */
  lemma ListenerAlwaysServed(listenFd: int, acts: seq<Action>, s: State)
    requires Reaches(Init(listenFd), acts, s)
    ensures OneAccept(s) && s.listenFd == listenFd
  {
    InitInv(listenFd);
    assert Accepts(Init(listenFd).heap) == {0};
    RunKeepsOneAccept(Init(listenFd), acts, s);
  }

  lemma HandleKeepsOneAccept(s: State)
    requires OneAccept(s) && s.cq != [] && s.cq[0].ev in s.heap
    requires forall e | e in s.heap :: e < s.nextEvent
    ensures OneAccept(Handle(s)) && Handle(s).listenFd == s.listenFd
  {
    var a :| Accepts(s.heap) == {a} && s.heap[a] == AcceptEvent(s.listenFd);
    var c, t := s.cq[0], Handle(s);
    var s1 := s.(cq := s.cq[1..]);
    match s.heap[c.ev]
    case AcceptEvent(_) =>
      assert c.ev == a by { assert c.ev in Accepts(s.heap); }
      var s2 := if c.res >= 0 then Allocate(s1.(clients := s1.clients + {c.res}), RecvEvent(c.res)) else s1;
      assert Accepts(s2.heap) == {a};
      assert Accepts(t.heap) == if c.more then {a} else {s2.nextEvent};
    case RecvEvent(fd) =>
      assert Accepts(t.heap) == {a};
    case SendEvent(_, _, _, _, _) =>
      assert Accepts(t.heap) == {a};
  }

  /** Event `e` receives for connection `fd`, or sends and will go back to receiving. */
  ghost predicate KeepsReceiving(heap: map<nat, Event>, e: nat, fd: int) {
    e in heap && heap[e].fd == fd && (heap[e].RecvEvent? || (heap[e].SendEvent? && heap[e].rearm))
  }

  ghost predicate ClientsServed(s: State) {
    forall fd | fd in s.clients :: exists e :: KeepsReceiving(s.heap, e, fd)
  }

  lemma HandleKeepsClients(s: State)
    requires ClientsServed(s) && s.cq != [] && s.cq[0].ev in s.heap
    requires forall e | e in s.heap :: e < s.nextEvent
    ensures ClientsServed(Handle(s))
  {
    var c, t := s.cq[0], Handle(s);
    var n := s.nextEvent;
    forall fd | fd in t.clients ensures exists e :: KeepsReceiving(t.heap, e, fd) {
      if fd in s.clients {
        var e :| KeepsReceiving(s.heap, e, fd);
        assert KeepsReceiving(t.heap, if e in t.heap then e else n, fd);
      } else {
        assert KeepsReceiving(t.heap, n, fd);
      }
    }
  }

  lemma {:induction false} RunKeepsClients(s: State, acts: seq<Action>, t: State)
    requires Inv(s) && ClientsServed(s) && Reaches(s, acts, t)
    ensures ClientsServed(t)
    decreases |acts|
  {
    if acts != [] {
      match acts[0] {
        case KernelPosts(c) => PostInv(s, c);
        case ProgramHandles =>
          HandleInv(s);
          HandleKeepsClients(s);
      }
      RunKeepsClients(Apply(s, acts[0]), acts[1..], t);
    }
  }

  /** No connection is forgotten: in every reachable state each connected descriptor has an armed or waiting recv, or a
      live send that will re-arm one. */
  lemma NoClientForgotten(listenFd: int, acts: seq<Action>, s: State, fd: int)
    requires Reaches(Init(listenFd), acts, s) && fd in s.clients
    ensures exists e :: KeepsReceiving(s.heap, e, fd)
  {
    InitInv(listenFd);
    RunKeepsClients(Init(listenFd), acts, s);
  }

  // ----- closing -----

  /** The handling of the oldest completion closes its descriptor. */
  predicate Closes(s: State)
    requires s.cq != [] && s.cq[0].ev in s.heap
  {
    var c := s.cq[0];
    match s.heap[c.ev]
    case AcceptEvent(_) => false
    case RecvEvent(_) => c.res != -ENOBUFS && (c.res <= 0 || c.buf.None?)
    case SendEvent(_, _, _, _, _) => c.res <= 0
  }

  /** It closes no descriptor, or a connected one to which no surviving event refers. */
  ghost predicate ClosesCleanly(s: State)
    requires s.cq != [] && s.cq[0].ev in s.heap
  {
    var fd, t := s.heap[s.cq[0].ev].fd, Handle(s);
    t.closed == s.closed ||
    (t.closed == s.closed + [fd] && fd in s.clients &&
     forall e | e in t.heap && !t.heap[e].AcceptEvent? :: t.heap[e].fd != fd)
  }

  /** What must hold of a completion that closes: it is the last of its event, the descriptor is connected, and no other
      event refers to it. */
  ghost predicate SoleEvent(s: State)
    requires s.cq != [] && s.cq[0].ev in s.heap
  {
    var c := s.cq[0];
    var fd := s.heap[c.ev].fd;
    && fd in s.clients && (c.more ==> s.heap[c.ev].SendEvent?)
    && forall e | e in s.heap && e != c.ev && !s.heap[e].AcceptEvent? :: s.heap[e].fd != fd
  }

  /** Unlike with single-shot operations a connection may have several events, and a close is not always clean: it is if
      and only if the event is the only one of a connected descriptor. */
  lemma CleanCloseCondition(s: State)
    requires s.cq != [] && s.cq[0].ev in s.heap
    ensures ClosesCleanly(s) <==> (Closes(s) ==> SoleEvent(s))
  {
    var c, t := s.cq[0], Handle(s);
    var fd := s.heap[c.ev].fd;
    assert Closes(s) <==> t.closed == s.closed + [fd];
    assert !Closes(s) <==> t.closed == s.closed by {
      assert |s.closed + [fd]| == |s.closed| + 1;
    }
    if Closes(s) {
      assert forall e :: e in t.heap <==> e in s.heap && (e != c.ev || (c.more && s.heap[e].RecvEvent?));
      assert forall e | e in t.heap :: t.heap[e] == s.heap[e];
    }
  }

  lemma {:induction false} ReachesAppend(s: State, acts: seq<Action>, t: State, a: Action)
    requires Reaches(s, acts, t) && Allowed(t, a)
    ensures Reaches(s, acts + [a], Apply(t, a))
    decreases |acts|
  {
    hide Allowed, Apply;
    if acts == [] {
      assert (acts + [a])[1..] == [];
    } else {
      ReachesAppend(Apply(s, acts[0]), acts[1..], t, a);
      assert (acts + [a])[1..] == acts[1..] + [a];
    }
  }

  /** The kernel posts a completion, and the program handles it, when none waited. */
  lemma PostAndHandle(s: State, acts: seq<Action>, t: State, c: Cqe) returns (acts': seq<Action>, t': State)
    requires Reaches(s, acts, t) && t.cq == [] && KernelMay(t, c)
    ensures Reaches(s, acts', t') && t' == Handle(Posted(t, c))
  {
    ReachesAppend(s, acts, t, KernelPosts(c));
    var posted := Posted(t, c);
    assert posted.cq == [c];
    ReachesAppend(s, acts + [KernelPosts(c)], posted, ProgramHandles);
    hide Reaches, Handle, Posted, KernelMay;
    acts', t' := acts + [KernelPosts(c)] + [ProgramHandles], Handle(posted);
  }

  /** The state in which the late send of a connection fails: descriptor `fd` has been closed, accepted again, and has a
      new recv, while the send of the old connection is still to be handled. */
  ghost predicate LateSend(s: State, fd: int) {
    && s.cq == [Cqe(2, -1, false, None)]
    && s.heap.Keys == {0, 2, 3} && s.heap[2] == SendEvent(fd, 0, 1, 0, false) && s.heap[3] == RecvEvent(fd)
    && 3 in s.armed && s.clients == {fd} && s.closed == [fd]
  }

  /** A run that ends there: accept, recv of one byte, end of the stream, accept of the same descriptor, failed send. */
  lemma LateSendReached(listenFd: int, fd: int) returns (acts: seq<Action>, s: State)
    requires fd >= 0
    ensures Reaches(Init(listenFd), acts, s) && LateSend(s, fd)
  {
    var s0 := Init(listenFd);
    var accepted := Cqe(0, fd, true, None);
    assert Reaches(s0, [], s0);
    var a1, s1 := PostAndHandle(s0, [], s0, accepted);
    assert s1.heap == map[0 := AcceptEvent(listenFd), 1 := RecvEvent(fd)] && s1.armed == {0, 1};
    assert s1.clients == {fd} && s1.closed == [] && s1.cq == [] && s1.nextEvent == 2 && s1.pool == s0.pool;
    hide Init;
    assert s1.pool[0] == 0;
    var a2, s2 := LateSendFrom(s0, a1, s1, listenFd, fd);
    acts, s := a2, s2;
  }

  lemma LateSendFrom(s0: State, a1: seq<Action>, s1: State, listenFd: int, fd: int)
    returns (acts: seq<Action>, s: State)
    requires Reaches(s0, a1, s1) && fd >= 0
    requires s1.heap == map[0 := AcceptEvent(listenFd), 1 := RecvEvent(fd)] && s1.armed == {0, 1}
    requires s1.clients == {fd} && s1.closed == [] && s1.cq == [] && s1.nextEvent == 2
    requires s1.pool != [] && s1.pool[0] == 0
    ensures Reaches(s0, acts, s) && LateSend(s, fd)
  {
    var a2, s2 := PostAndHandle(s0, a1, s1, Cqe(1, 1, true, Some(0)));
    assert s2.heap[2] == SendEvent(fd, 0, 1, 0, false) && s2.heap.Keys == {0, 1, 2} && s2.armed == {0, 1, 2};
    var a3, s3 := PostAndHandle(s0, a2, s2, Cqe(1, 0, false, None));
    assert s3.heap.Keys == {0, 2} && s3.clients == {} && s3.closed == [fd] && s3.armed == {0, 2};
    var a4, s4 := PostAndHandle(s0, a3, s3, Cqe(0, fd, true, None));
    assert s4.heap.Keys == {0, 2, 3} && s4.clients == {fd} && s4.armed == {0, 2, 3};
    var c := Cqe(2, -1, false, None);
    ReachesAppend(s0, a4, s4, KernelPosts(c));
    acts, s := a4 + [KernelPosts(c)], Posted(s4, c);
  }

  /** A send that fails late closes another client's connection: one that was accepted on the same descriptor after the
      connection of the send had been closed, and that has a recv armed. */
  lemma LateSendClosesAnother(listenFd: int, fd: int)
    requires fd >= 0
    ensures exists acts, s ::
              && Reaches(Init(listenFd), acts, s) && LateSend(s, fd) && !ClosesCleanly(s)
              && Handle(s).closed == [fd, fd] && fd !in Handle(s).clients
              && 3 in Handle(s).heap && Handle(s).heap[3] == RecvEvent(fd) && 3 in Handle(s).armed
  {
    var acts, s := LateSendReached(listenFd, fd);
    hide Reaches, Init;
    CleanCloseCondition(s);
    assert s.heap[3].fd == fd;
  }

  // ----- the program -----

  /** The provided-buffer ring: an array of slots, the program's tail and the kernel's head. */
  class BufferRing {
    const slots: array<nat>
    var tail: nat
    var head: nat

    ghost predicate Valid()
      reads this, slots
    {
      slots.Length == NUM_BUFS && head <= tail <= head + NUM_BUFS
    }

    /** The ids the kernel may take, oldest first. */
    function Available(): (ids: seq<nat>)
      requires Valid()
      reads this, slots
      ensures |ids| == tail - head
    {
      seq(tail - head, i requires Valid() && 0 <= i < tail - head reads this, slots => slots[(head + i) % NUM_BUFS])
    }

    constructor ()
      ensures Valid() && fresh(slots)
      ensures Available() == Init(0).pool
    {
      slots := new nat[NUM_BUFS];
      tail := 0;
      head := 0;
      new;
      for i := 0 to NUM_BUFS
        invariant head == tail == 0
        invariant forall k | 0 <= k < i :: slots[k] == k
      {
        slots[(tail + i) % NUM_BUFS] := i;
      }
      tail := tail + NUM_BUFS;
    }

    /** `recycle_buf`: write the slot at the tail and advance. With room in the ring no slot the kernel has yet to
        consume is overwritten. */
    method Recycle(bid: nat)
      requires Valid() && |Available()| < NUM_BUFS
      modifies this`tail, slots
      ensures Valid() && head == old(head)
      ensures Available() == old(Available()) + [bid]
    {
      ghost var before := Available();
      slots[tail % NUM_BUFS] := bid;
      tail := tail + 1;
      forall i | 0 <= i < |before| ensures slots[(head + i) % NUM_BUFS] == before[i] {
        DifferentSlots(head + i, tail - 1);
      }
      assert Available() == before + [bid];
    }

    /** The kernel takes the oldest id. */
    method Take() returns (bid: nat)
      requires Valid() && Available() != []
      modifies this`head
      ensures Valid() && bid == old(Available())[0] && Available() == old(Available())[1..]
    {
      bid := slots[head % NUM_BUFS];
      ghost var before := Available();
      head := head + 1;
      forall i | 0 <= i < tail - head ensures Available()[i] == before[1..][i] {
        assert before[i + 1] == slots[(head - 1 + (i + 1)) % NUM_BUFS];
      }
    }
  }

  lemma DifferentSlots(p: nat, q: nat)
    requires p < q < p + NUM_BUFS
    ensures p % NUM_BUFS != q % NUM_BUFS
  {
  }

  class Server {
    const br: BufferRing
    const listenFd: int
    var heap: map<nat, Event>
    var nextEvent: nat
    var freed: seq<nat>
    var clients: set<int>
    var closed: seq<int>
    var armed: set<nat>
    var cq: seq<Cqe>

    ghost predicate Valid()
      reads this, br, br.slots
    {
      br.Valid()
    }

    function View(): State
      requires Valid()
      reads this, br, br.slots
    {
      State(br.Available(), heap, nextEvent, freed, clients, closed, armed, cq, listenFd)
    }

    constructor (listenFd: int)
      ensures Valid() && View() == Init(listenFd)
    {
      br := new BufferRing();
      this.listenFd := listenFd;
      heap, nextEvent, freed := map[0 := AcceptEvent(listenFd)], 1, [];
      clients, closed, armed, cq := {}, [], {0}, [];
    }

    /** The kernel posts a completion, with the oldest buffer of the ring if the completion has one. */
    method Post(c: Cqe)
      requires Valid() && KernelMay(View(), c)
      modifies this`armed, this`cq, br`head
      ensures Valid() && View() == Posted(old(View()), c)
    {
      if c.buf.Some? {
        var bid := br.Take();
      }
      cq := cq + [c];
      if !c.more {
        armed := armed - {c.ev};
      }
    }

    /** Allocates an event and queues a submission that carries its address. */
    method Queue(e: Event)
      requires Valid()
      modifies this`heap, this`nextEvent, this`armed
      ensures Valid() && View() == Allocate(old(View()), e)
    {
      heap, armed, nextEvent := heap[nextEvent := e], armed + {nextEvent}, nextEvent + 1;
    }

    method CloseClient(fd: int)
      requires Valid()
      modifies this`clients, this`closed
      ensures Valid() && View() == Close(old(View()), fd)
    {
      clients, closed := clients - {fd}, closed + [fd];
    }

    method Free(e: nat)
      requires Valid() && e in heap
      modifies this`heap, this`freed
      ensures Valid() && View() == Delete(old(View()), e)
    {
      heap, freed := heap - {e}, freed + [e];
    }

    method OnAccept(c: Cqe)
      requires Valid() && c.ev in heap && c.ev < nextEvent
      modifies this`heap, this`nextEvent, this`armed, this`clients, this`freed
      ensures Valid() && View() == HandleAccept(old(View()), c)
    {
      if c.res >= 0 {
        clients := clients + {c.res};
        Queue(RecvEvent(c.res));
      }
      if !c.more {
        Queue(AcceptEvent(listenFd));
        Free(c.ev);
      }
    }

    method OnRecv(c: Cqe, fd: int)
      requires Valid() && c.ev in heap && c.ev < nextEvent
      modifies this`heap, this`nextEvent, this`armed, this`clients, this`closed, this`freed
      ensures Valid() && View() == HandleRecv(old(View()), c, fd)
    {
      if c.res == -ENOBUFS {
        Queue(RecvEvent(fd));
      } else if c.res <= 0 || c.buf.None? {
        CloseClient(fd);
      } else {
        Queue(SendEvent(fd, c.buf.value, c.res, 0, !c.more));
      }
      if !c.more {
        Free(c.ev);
      }
    }

    method OnFailedSend(c: Cqe, e: Event)
      requires Valid() && c.ev in heap && c.ev < nextEvent && heap[c.ev] == e && e.SendEvent?
      requires c.res <= 0 && |br.Available()| < NUM_BUFS
      modifies this`heap, this`clients, this`closed, this`freed, br`tail, br.slots
      ensures Valid() && View() == HandleSend(old(View()), c, e)
    {
      br.Recycle(e.bid);
      CloseClient(e.fd);
      Free(c.ev);
    }

    /** Everything is sent; `e` is the event with its final offset. */
    method EndSend(ev: nat, e: Event)
      requires Valid() && ev in heap && ev < nextEvent && heap[ev] == e && e.SendEvent?
      requires |br.Available()| < NUM_BUFS
      modifies this`heap, this`nextEvent, this`armed, this`freed, br`tail, br.slots
      ensures Valid()
      ensures var s1 := Recycle(old(View()), e.bid);
              View() == Delete(if e.rearm && e.fd in s1.clients then Allocate(s1, RecvEvent(e.fd)) else s1, ev)
    {
      br.Recycle(e.bid);
      if e.rearm && e.fd in clients {
        Queue(RecvEvent(e.fd));
      }
      Free(ev);
    }

    method OnSend(c: Cqe, e: Event)
      requires Valid() && c.ev in heap && c.ev < nextEvent && heap[c.ev] == e && e.SendEvent?
      requires c.res <= 0 || e.offset + c.res >= e.len ==> |br.Available()| < NUM_BUFS
      modifies this`heap, this`nextEvent, this`armed, this`clients, this`closed, this`freed, br`tail, br.slots
      ensures Valid() && View() == HandleSend(old(View()), c, e)
    {
      if c.res <= 0 {
        OnFailedSend(c, e);
      } else {
        var sent := e.(offset := e.offset + c.res);
        heap := heap[c.ev := sent];
        if sent.offset < sent.len {
          armed := armed + {c.ev};
        } else {
          EndSend(c.ev, sent);
          assert heap == HandleSend(old(View()), c, e).heap;
        }
      }
    }

    /** What a handler may rely on when it has taken the oldest completion. */
    lemma Ready()
      requires Valid() && Inv(View()) && cq != []
      ensures cq[0].ev in heap && cq[0].ev < nextEvent
      ensures heap[cq[0].ev].SendEvent? &&
                (cq[0].res <= 0 || heap[cq[0].ev].offset + cq[0].res >= heap[cq[0].ev].len) ==>
              |br.Available()| < NUM_BUFS
      ensures Inv(Handle(View()))
    {
      var s := View();
      HandleInv(s);
      var c, t := s.cq[0], s.(cq := s.cq[1..]);
      Take(s);
      assert Fits(s, c);
      if s.heap[c.ev].SendEvent? && (c.res <= 0 || s.heap[c.ev].offset + c.res >= s.heap[c.ev].len) {
        EndedSendKeepsInv(t, c);
      }
    }

    /** One iteration of the event loop, from `peek` to the end of the switch. */
    method ReapOne()
      requires Valid() && Inv(View()) && cq != []
      modifies this, br`tail, br.slots
      ensures Valid() && Inv(View()) && View() == Handle(old(View()))
    {
      hide Inv;
      Ready();
      var c := cq[0];
      var e := heap[c.ev];
      cq := cq[1..];
      match e {
        case AcceptEvent(_) => OnAccept(c);
        case RecvEvent(fd) => OnRecv(c, fd);
        case SendEvent(_, _, _, _, _) => OnSend(c, e);
      }
    }

    /** A batch: reaps `ready` completions, or all there are if they are fewer. */
    method Drain(ready: nat)
      requires Valid() && Inv(View())
      modifies this, br`tail, br.slots
      ensures Valid() && Inv(View())
      ensures var n := Fewer(ready, |old(cq)|);
              Reaches(old(View()), Handlings(n), View()) && cq == old(cq)[n..]
    {
      hide Inv, Reaches, Handle, Handlings;
      ghost var start, waiting := View(), cq;
      NothingHandled(start);
      var j := 0;
      while j < ready && cq != []
        invariant j <= ready && j <= |waiting| && Valid() && Inv(View())
        invariant Reaches(start, Handlings(j), View()) && cq == waiting[j..]
      {
        Ready();
        HandlesOne(start, j, View());
        ReapOne();
        j := j + 1;
      }
    }

    /** The event loop for some rounds: in each the kernel posts whatever completions it may, and a batch is reaped.
        What happens is a run of the machine whose properties are proved above. */
    method Serve(rounds: nat) returns (ghost acts: seq<Action>)
      requires Valid() && Inv(View())
      modifies this, br`head, br`tail, br.slots
      ensures Valid() && Inv(View()) && Reaches(old(View()), acts, View())
    {
      hide Inv, Reaches, KernelMay, Handlings;
      ghost var start := View();
      acts := [];
      NoSteps(start);
      var round := 0;
      while round < rounds
        invariant Valid() && Inv(View()) && Reaches(start, acts, View())
        decreases rounds - round
      {
        acts := KernelPostsSome(start, acts);
        var ready: nat := *;
        ghost var before := View();
        Drain(ready);
        ghost var n := Fewer(ready, |before.cq|);
        ReachesThenReaches(start, acts, before, Handlings(n), View());
        acts := acts + Handlings(n);
        round := round + 1;
      }
    }

    method KernelPostsSome(ghost start: State, ghost before: seq<Action>) returns (ghost acts: seq<Action>)
      requires Valid() && Inv(View()) && Reaches(start, before, View())
      modifies this`armed, this`cq, br`head
      ensures Valid() && Inv(View()) && Reaches(start, acts, View())
    {
      hide Inv, Reaches, KernelMay, Posted;
      acts := before;
      var posts: nat := *;
      while posts > 0
        invariant Valid() && Inv(View()) && Reaches(start, acts, View())
      {
        var c: Cqe := *;
        if KernelMay(View(), c) {
          PostInv(View(), c);
          ReachesAppend(start, acts, View(), KernelPosts(c));
          acts := acts + [KernelPosts(c)];
          Post(c);
        }
        posts := posts - 1;
      }
    }
  }

  lemma NoSteps(s: State)
    ensures Reaches(s, [], s)
  {
  }

  function Fewer(a: nat, b: nat): nat {
    if a < b then a else b
  }

  /** `n` steps of the program. */
  function Handlings(n: nat): seq<Action> {
    seq(n, _ => ProgramHandles)
  }

  lemma NothingHandled(s: State)
    ensures Reaches(s, Handlings(0), s)
  {
  }

  lemma HandlesOne(start: State, n: nat, s: State)
    requires Reaches(start, Handlings(n), s) && s.cq != [] && s.cq[0].ev in s.heap
    ensures Reaches(start, Handlings(n + 1), Handle(s)) && Handle(s).cq == s.cq[1..]
  {
    assert Handle(s).cq == s.cq[1..];
    hide Reaches, Handle;
    ReachesAppend(start, Handlings(n), s, ProgramHandles);
    assert Handlings(n) + [ProgramHandles] == Handlings(n + 1);
  }

  lemma {:induction false} ReachesThenReaches(s: State, a: seq<Action>, t: State, b: seq<Action>, u: State)
    requires Reaches(s, a, t) && Reaches(t, b, u)
    ensures Reaches(s, a + b, u)
    decreases |a|
  {
    hide Allowed, Apply;
    if a == [] {
      assert a + b == b;
    } else {
      ReachesThenReaches(Apply(s, a[0]), a[1..], t, b, u);
      assert (a + b)[1..] == a[1..] + b;
    }
  }
}
