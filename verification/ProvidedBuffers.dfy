/** The single-shot echo server over the same buffer pool. Its handlers are those of the multi-shot server on
    completions that never announce more, and in exchange each client has exactly one operation. */
module ProvidedBuffers {
  import opened MultishotEcho

  // ----- the handlers as this server writes them: a send event carries no rearm flag -----

  function SingleAccept(s: State, c: Cqe): State {
    var s1 := if c.res >= 0
              then Allocate(s.(clients := s.clients + {c.res}), RecvEvent(c.res))
              else s;
    Delete(Allocate(s1, AcceptEvent(s.listenFd)), c.ev)
  }

  function SingleRecv(s: State, c: Cqe, fd: int): State {
    Delete(if c.res == -ENOBUFS then Allocate(s, RecvEvent(fd))
           else if c.res <= 0 || c.buf.None? then Close(s, fd)
           else Allocate(s, SendEvent(fd, c.buf.value, c.res, 0, true)),
           c.ev)
  }

  function SingleSend(s: State, c: Cqe, e: Event): State
    requires e.SendEvent?
  {
    if c.res <= 0 then
      Delete(Close(Recycle(s, e.bid), e.fd), c.ev)
    else if e.offset + c.res < e.len then
      s.(heap := s.heap[c.ev := e.(offset := e.offset + c.res)], armed := s.armed + {c.ev})
    else
      var s1 := Recycle(s, e.bid);
      Delete(if e.fd in s.clients then Allocate(s1, RecvEvent(e.fd)) else s1, c.ev)
  }

  function SingleHandle(s: State): State
    requires s.cq != [] && s.cq[0].ev in s.heap
  {
    var c := s.cq[0];
    var s1 := s.(cq := s.cq[1..]);
    match s.heap[c.ev]
    case AcceptEvent(_) => SingleAccept(s1, c)
    case RecvEvent(fd) => SingleRecv(s1, c, fd)
    case SendEvent(_, _, _, _, _) => SingleSend(s1, c, s.heap[c.ev])
  }

  /** Without MORE the two servers do the same. */
  lemma SingleIsMultiWithoutMore(s: State)
    requires s.cq != [] && s.cq[0].ev in s.heap && !s.cq[0].more
    requires s.heap[s.cq[0].ev].SendEvent? ==> s.heap[s.cq[0].ev].rearm
    ensures SingleHandle(s) == Handle(s)
  {
  }

  // ----- one operation per client -----

  ghost function ClientFds(heap: map<nat, Event>): set<int> {
    set e | e in heap && !heap[e].AcceptEvent? :: heap[e].fd
  }

  /** The connected descriptors are exactly those of the client events, one event each. */
  ghost predicate OneEach(heap: map<nat, Event>, clients: set<int>) {
    && (forall d, e | d in heap && e in heap && d != e && !heap[d].AcceptEvent? && !heap[e].AcceptEvent? ::
          heap[d].fd != heap[e].fd)
    && ClientFds(heap) == clients
  }

  ghost predicate OneOp(s: State) {
    && Inv(s)
    && OneAccept(s)
    && OneEach(s.heap, s.clients)
    && (forall i | 0 <= i < |s.cq| :: !s.cq[i].more)
    && (forall e | e in s.heap && s.heap[e].SendEvent? :: s.heap[e].rearm)
    && (forall i | 0 <= i < |s.cq| && s.heap[s.cq[i].ev].AcceptEvent? && s.cq[i].res >= 0 ::
          s.cq[i].res !in s.clients)
  }

  /** One-shot submissions post one completion, and `accept` returns a descriptor that is not open. */
  ghost predicate KernelMayOnce(s: State, c: Cqe) {
    && KernelMay(s, c)
    && !c.more
    && (s.heap[c.ev].AcceptEvent? && c.res >= 0 ==> c.res !in s.clients)
  }

  ghost predicate AllowedOnce(s: State, a: Action) {
    match a
    case KernelPosts(c) => KernelMayOnce(s, c)
    case ProgramHandles => s.cq != [] && s.cq[0].ev in s.heap
  }

  function ApplyOnce(s: State, a: Action): State
    requires a.KernelPosts? ==> (a.c.buf.Some? ==> s.pool != [])
    requires a.ProgramHandles? ==> s.cq != [] && s.cq[0].ev in s.heap
  {
    match a
    case KernelPosts(c) => Posted(s, c)
    case ProgramHandles => SingleHandle(s)
  }

  ghost predicate ReachesOnce(s: State, acts: seq<Action>, t: State)
    decreases |acts|
  {
    if acts == [] then s == t
    else AllowedOnce(s, acts[0]) && ReachesOnce(ApplyOnce(s, acts[0]), acts[1..], t)
  }

  lemma PostKeepsOneOp(s: State, c: Cqe)
    requires OneOp(s) && KernelMayOnce(s, c)
    ensures OneOp(Posted(s, c)) && Posted(s, c).listenFd == s.listenFd
  {
    PostInv(s, c);
    hide BuffersOwned, SlicesValid, DeletedOnce, OneEach;
  }

  lemma OneEachRemove(heap: map<nat, Event>, clients: set<int>, e: nat)
    requires OneEach(heap, clients) && e in heap
    ensures OneEach(heap - {e}, if heap[e].AcceptEvent? then clients else clients - {heap[e].fd})
    ensures !heap[e].AcceptEvent? ==> heap[e].fd in clients
  {
    var heap' := heap - {e};
    assert !heap[e].AcceptEvent? ==> heap[e].fd in ClientFds(heap);
    forall fd | fd in clients && (heap[e].AcceptEvent? || fd != heap[e].fd) ensures fd in ClientFds(heap') {
      var d :| d in heap && !heap[d].AcceptEvent? && heap[d].fd == fd;
      assert heap'[d] == heap[d];
    }
  }

  lemma OneEachAdd(heap: map<nat, Event>, clients: set<int>, n: nat, e: Event)
    requires OneEach(heap, clients) && n !in heap
    requires !e.AcceptEvent? ==> e.fd !in clients
    ensures OneEach(heap[n := e], if e.AcceptEvent? then clients else clients + {e.fd})
  {
    var heap' := heap[n := e];
    forall fd | fd in clients ensures fd in ClientFds(heap') {
      var d :| d in heap && !heap[d].AcceptEvent? && heap[d].fd == fd;
      assert heap'[d] == heap[d];
    }
    assert heap'[n] == e;
    forall d | d in heap && !heap[d].AcceptEvent? ensures heap[d].fd in clients {
      assert heap[d].fd in ClientFds(heap);
    }
  }

  /** Ending one event of a client and starting the next. */
  lemma OneEachReplace(heap: map<nat, Event>, clients: set<int>, k: nat, n: nat, e: Event)
    requires OneEach(heap, clients) && k in heap && !heap[k].AcceptEvent? && n !in heap
    requires !e.AcceptEvent? && e.fd == heap[k].fd
    ensures OneEach(heap[n := e] - {k}, clients)
  {
    OneEachRemove(heap, clients, k);
    OneEachAdd(heap - {k}, clients - {e.fd}, n, e);
    assert heap[n := e] - {k} == (heap - {k})[n := e];
    assert clients - {e.fd} + {e.fd} == clients;
  }

  lemma OneEachAdvance(heap: map<nat, Event>, clients: set<int>, k: nat, e: Event)
    requires OneEach(heap, clients) && k in heap && !heap[k].AcceptEvent?
    requires !e.AcceptEvent? && e.fd == heap[k].fd
    ensures OneEach(heap[k := e], clients)
  {
    OneEachRemove(heap, clients, k);
    OneEachAdd(heap - {k}, clients - {e.fd}, k, e);
    assert heap[k := e] == (heap - {k})[k := e];
    assert clients - {e.fd} + {e.fd} == clients;
  }

  /** The pending accept, if any, is the one completion of the one accept event. */
  lemma OtherAcceptsAbsent(s: State)
    requires OneOp(s) && s.cq != [] && s.heap[s.cq[0].ev].AcceptEvent?
    ensures forall i | 0 < i < |s.cq| :: !s.heap[s.cq[i].ev].AcceptEvent?
  {
    assert s.cq[0].ev in Accepts(s.heap);
    forall d | d in s.heap && s.heap[d].AcceptEvent? ensures d == s.cq[0].ev {
      assert d in Accepts(s.heap);
    }
  }

  lemma AcceptKeepsOneEach(s: State, c: Cqe)
    requires OneEach(s.heap, s.clients) && c.ev in s.heap && s.heap[c.ev].AcceptEvent?
    requires forall e | e in s.heap :: e < s.nextEvent
    requires c.res >= 0 ==> c.res !in s.clients
    ensures OneEach(SingleAccept(s, c).heap, SingleAccept(s, c).clients)
  {
    var n, a := s.nextEvent, AcceptEvent(s.listenFd);
    if c.res >= 0 {
      var h1 := s.heap[n := RecvEvent(c.res)];
      OneEachAdd(s.heap, s.clients, n, RecvEvent(c.res));
      OneEachAdd(h1, s.clients + {c.res}, n + 1, a);
      OneEachRemove(h1[n + 1 := a], s.clients + {c.res}, c.ev);
    } else {
      OneEachAdd(s.heap, s.clients, n, a);
      OneEachRemove(s.heap[n := a], s.clients, c.ev);
    }
  }

  lemma RecvKeepsOneEach(s: State)
    requires OneOp(s) && s.cq != [] && s.heap[s.cq[0].ev].RecvEvent?
    ensures OneEach(SingleHandle(s).heap, SingleHandle(s).clients)
    ensures SingleHandle(s).clients <= s.clients
  {
    var c := s.cq[0];
    var fd := s.heap[c.ev].fd;
    if c.res == -ENOBUFS {
      OneEachReplace(s.heap, s.clients, c.ev, s.nextEvent, RecvEvent(fd));
    } else if c.res <= 0 || c.buf.None? {
      OneEachRemove(s.heap, s.clients, c.ev);
    } else {
      OneEachReplace(s.heap, s.clients, c.ev, s.nextEvent, SendEvent(fd, c.buf.value, c.res, 0, true));
    }
  }

  lemma SendKeepsOneEach(s: State)
    requires OneOp(s) && s.cq != [] && s.heap[s.cq[0].ev].SendEvent?
    ensures OneEach(SingleHandle(s).heap, SingleHandle(s).clients)
    ensures SingleHandle(s).clients <= s.clients
  {
    var c := s.cq[0];
    var e := s.heap[c.ev];
    OneEachRemove(s.heap, s.clients, c.ev);
    if 0 < c.res {
      if e.offset + c.res < e.len {
        OneEachAdvance(s.heap, s.clients, c.ev, e.(offset := e.offset + c.res));
      } else {
        OneEachReplace(s.heap, s.clients, c.ev, s.nextEvent, RecvEvent(e.fd));
      }
    }
  }

  lemma SingleKeepsInv(s: State)
    requires OneOp(s) && s.cq != []
    ensures Inv(SingleHandle(s)) && OneAccept(SingleHandle(s)) && SingleHandle(s).listenFd == s.listenFd
  {
    assert s.cq[0].ev in s.heap;
    hide OneAccept, OneEach, SingleHandle, Handle;
    SingleIsMultiWithoutMore(s);
    HandleInv(s);
    HandleKeepsOneAccept(s);
  }

  /** What is said of the waiting completions stays true of those left. */
  lemma QueueFollows(s: State, t: State)
    requires OneOp(s) && s.cq != [] && t.cq == s.cq[1..]
    requires forall i | 0 <= i < |t.cq| :: t.cq[i].ev in t.heap && t.heap[t.cq[i].ev] == s.heap[s.cq[i + 1].ev]
    requires forall i | 0 < i < |s.cq| && s.heap[s.cq[i].ev].AcceptEvent? && s.cq[i].res >= 0 ::
               s.cq[i].res !in t.clients
    ensures forall i | 0 <= i < |t.cq| :: !t.cq[i].more
    ensures forall i | 0 <= i < |t.cq| && t.heap[t.cq[i].ev].AcceptEvent? && t.cq[i].res >= 0 ::
              t.cq[i].res !in t.clients
  {
    hide OneAccept, OneEach, EventsOwned, DeletedOnce, BuffersOwned, SlicesValid;
    forall i | 0 <= i < |t.cq|
      ensures !t.cq[i].more
      ensures t.heap[t.cq[i].ev].AcceptEvent? && t.cq[i].res >= 0 ==> t.cq[i].res !in t.clients
    {
      assert t.cq[i] == s.cq[i + 1];
    }
  }

  lemma HandleKeepsOneOp(s: State)
    requires OneOp(s) && s.cq != []
    ensures OneOp(SingleHandle(s)) && SingleHandle(s).listenFd == s.listenFd
  {
    assert s.cq[0].ev in s.heap;
    hide OneOp, Inv, OneAccept, OneEach, SingleHandle;
    SingleKeepsInv(s);
    HandleKeepsOneEach(s);
    HandleKeepsQueue(s);
    QueueFollows(s, SingleHandle(s));
    OneOpWhen(SingleHandle(s));
  }

  lemma OneOpWhen(s: State)
    requires Inv(s) && OneAccept(s) && OneEach(s.heap, s.clients)
    requires forall i | 0 <= i < |s.cq| :: s.cq[i].ev in s.heap && !s.cq[i].more
    requires forall e | e in s.heap && s.heap[e].SendEvent? :: s.heap[e].rearm
    requires forall i | 0 <= i < |s.cq| && s.heap[s.cq[i].ev].AcceptEvent? && s.cq[i].res >= 0 ::
               s.cq[i].res !in s.clients
    ensures OneOp(s)
  {
    hide Inv, OneAccept, OneEach;
  }

  /** The connected descriptors still have one event each, and no accept waits that could return one of them. */
  lemma HandleKeepsOneEach(s: State)
    requires OneOp(s) && s.cq != []
    ensures s.cq[0].ev in s.heap
    ensures OneEach(SingleHandle(s).heap, SingleHandle(s).clients)
    ensures forall i | 0 < i < |s.cq| && s.heap[s.cq[i].ev].AcceptEvent? && s.cq[i].res >= 0 ::
              s.cq[i].res !in SingleHandle(s).clients
  {
    var c := s.cq[0];
    hide BuffersOwned, SlicesValid, OneAccept;
    match s.heap[c.ev]
    case AcceptEvent(_) =>
      AcceptKeepsOneEach(s.(cq := s.cq[1..]), c);
      OtherAcceptsAbsent(s);
    case RecvEvent(_) => RecvKeepsOneEach(s);
    case SendEvent(_, _, _, _, _) => SendKeepsOneEach(s);
  }

  lemma HandleKeepsOther(s: State, e: nat)
    requires s.cq != [] && s.cq[0].ev in s.heap && e in s.heap && e != s.cq[0].ev && e < s.nextEvent
    ensures e in SingleHandle(s).heap && SingleHandle(s).heap[e] == s.heap[e]
  {
  }

  lemma HandleKeepsRearm(s: State)
    requires s.cq != [] && s.cq[0].ev in s.heap
    requires forall e | e in s.heap && s.heap[e].SendEvent? :: s.heap[e].rearm
    ensures SingleHandle(s).cq == s.cq[1..]
    ensures forall e | e in SingleHandle(s).heap && SingleHandle(s).heap[e].SendEvent? :: SingleHandle(s).heap[e].rearm
  {
  }

  lemma HandleKeepsQueue(s: State)
    requires OneOp(s) && s.cq != []
    ensures var t := SingleHandle(s);
            && t.cq == s.cq[1..]
            && (forall i | 0 <= i < |t.cq| :: t.cq[i].ev in t.heap && t.heap[t.cq[i].ev] == s.heap[s.cq[i + 1].ev])
            && (forall e | e in t.heap && t.heap[e].SendEvent? :: t.heap[e].rearm)
  {
    hide SingleHandle, OneAccept, OneEach;
    HandleKeepsRearm(s);
    var t := SingleHandle(s);
    forall i | 0 <= i < |t.cq|
      ensures t.cq[i].ev in t.heap && t.heap[t.cq[i].ev] == s.heap[s.cq[i + 1].ev]
    {
      assert s.cq[0].ev != s.cq[i + 1].ev;
      assert s.cq[i + 1].ev < s.nextEvent;
      HandleKeepsOther(s, s.cq[i + 1].ev);
    }
  }

  lemma {:induction false} ReachesKeepsOneOp(s: State, acts: seq<Action>, t: State)
    requires OneOp(s) && ReachesOnce(s, acts, t)
    ensures OneOp(t) && t.listenFd == s.listenFd
    decreases |acts|
  {
    hide OneOp, SingleHandle, Posted;
    if acts != [] {
      match acts[0] {
        case KernelPosts(c) => PostKeepsOneOp(s, c);
        case ProgramHandles => HandleKeepsOneOp(s);
      }
      ReachesKeepsOneOp(ApplyOnce(s, acts[0]), acts[1..], t);
    }
  }

  /** In every reachable state a descriptor is connected exactly if one recv or send event carries it, never two,
      and exactly one accept event exists; each buffer id is in exactly one place. */
  lemma OneOperationPerClient(listenFd: int, acts: seq<Action>, s: State, fd: int)
    requires ReachesOnce(Init(listenFd), acts, s)
    ensures fd in s.clients <==> exists e :: e in s.heap && !s.heap[e].AcceptEvent? && s.heap[e].fd == fd
    ensures forall d, e | d in s.heap && e in s.heap && !s.heap[d].AcceptEvent? && !s.heap[e].AcceptEvent? ::
              s.heap[d].fd == s.heap[e].fd ==> d == e
    ensures OneAccept(s) && s.listenFd == listenFd
    ensures BuffersOwned(s)
  {
    var s0 := Init(listenFd);
    InitInv(listenFd);
    assert Accepts(s0.heap) == {0};
    ReachesKeepsOneOp(s0, acts, s);
    assert fd in ClientFds(s.heap) <==> exists e :: e in s.heap && !s.heap[e].AcceptEvent? && s.heap[e].fd == fd;
  }

  /** What a close leaves behind, by the kind of the event handled. */
  lemma HandleCloses(s: State)
    requires s.cq != [] && s.cq[0].ev in s.heap
    ensures var t, e := SingleHandle(s), s.heap[s.cq[0].ev];
            t.closed == s.closed ||
            (!e.AcceptEvent? && t.closed == s.closed + [e.fd] && t.clients == s.clients - {e.fd}
             && t.heap == s.heap - {s.cq[0].ev})
  {
    assert |s.closed + [s.heap[s.cq[0].ev].fd]| == |s.closed| + 1;
  }

  lemma OneOpCloses(s: State)
    requires OneOp(s) && s.cq != []
    ensures s.cq[0].ev in s.heap
    ensures var t := SingleHandle(s);
            t.closed == s.closed ||
            exists fd :: t.closed == s.closed + [fd] && fd in s.clients && fd !in t.clients
                         && forall e | e in t.heap && !t.heap[e].AcceptEvent? :: t.heap[e].fd != fd
  {
    var k := s.cq[0].ev;
    assert k in s.heap;
    HandleCloses(s);
    OneEachRemove(s.heap, s.clients, k);
    hide Inv, SingleHandle, OneAccept;
    var t, fd := SingleHandle(s), s.heap[k].fd;
    if t.closed != s.closed {
      forall e | e in t.heap && !t.heap[e].AcceptEvent? ensures t.heap[e].fd != fd {
        assert t.heap[e].fd in ClientFds(t.heap);
      }
    }
  }

  /** Whenever the loop closes a descriptor, it is a connected one, and no event that survives refers to it. */
  lemma ClosesOnlyConnected(listenFd: int, acts: seq<Action>, s: State)
    requires ReachesOnce(Init(listenFd), acts, s) && s.cq != []
    ensures s.cq[0].ev in s.heap
    ensures var t := SingleHandle(s);
            t.closed == s.closed ||
            exists fd :: t.closed == s.closed + [fd] && fd in s.clients && fd !in t.clients
                         && forall e | e in t.heap && !t.heap[e].AcceptEvent? :: t.heap[e].fd != fd
  {
    var s0 := Init(listenFd);
    InitInv(listenFd);
    assert Accepts(s0.heap) == {0};
    ReachesKeepsOneOp(s0, acts, s);
    hide OneOp, ReachesOnce, SingleHandle, Init;
    OneOpCloses(s);
  }

  // ----- the program -----

  method AcceptOnce(srv: Server, c: Cqe)
    requires srv.Valid() && c.ev in srv.heap && c.ev < srv.nextEvent
    modifies srv`heap, srv`nextEvent, srv`armed, srv`clients, srv`freed
    ensures srv.Valid() && srv.View() == SingleAccept(old(srv.View()), c)
  {
    if c.res >= 0 {
      srv.clients := srv.clients + {c.res};
      srv.Queue(RecvEvent(c.res));
    }
    srv.Queue(AcceptEvent(srv.listenFd));
    srv.Free(c.ev);
  }

  method RecvOnce(srv: Server, c: Cqe, fd: int)
    requires srv.Valid() && c.ev in srv.heap && c.ev < srv.nextEvent
    modifies srv`heap, srv`nextEvent, srv`armed, srv`clients, srv`closed, srv`freed
    ensures srv.Valid() && srv.View() == SingleRecv(old(srv.View()), c, fd)
  {
    if c.res == -ENOBUFS {
      srv.Queue(RecvEvent(fd));
    } else if c.res <= 0 || c.buf.None? {
      srv.CloseClient(fd);
    } else {
      srv.Queue(SendEvent(fd, c.buf.value, c.res, 0, true));
    }
    srv.Free(c.ev);
  }

  method SendOnce(srv: Server, c: Cqe, e: Event)
    requires srv.Valid() && c.ev in srv.heap && c.ev < srv.nextEvent && srv.heap[c.ev] == e && e.SendEvent?
    requires c.res <= 0 || e.offset + c.res >= e.len ==> |srv.br.Available()| < NUM_BUFS
    modifies srv`heap, srv`nextEvent, srv`armed, srv`clients, srv`closed, srv`freed, srv.br`tail, srv.br.slots
    ensures srv.Valid() && srv.View() == SingleSend(old(srv.View()), c, e)
  {
    if c.res <= 0 {
      srv.br.Recycle(e.bid);
      srv.CloseClient(e.fd);
      srv.Free(c.ev);
    } else {
      var sent := e.(offset := e.offset + c.res);
      srv.heap := srv.heap[c.ev := sent];
      if sent.offset < sent.len {
        srv.armed := srv.armed + {c.ev};
      } else {
        FinishSend(srv, c.ev, sent);
        assert srv.heap == SingleSend(old(srv.View()), c, e).heap;
      }
    }
  }

  /** Everything is sent. */
  method FinishSend(srv: Server, ev: nat, e: Event)
    requires srv.Valid() && ev in srv.heap && ev < srv.nextEvent && e.SendEvent? && |srv.br.Available()| < NUM_BUFS
    modifies srv`heap, srv`nextEvent, srv`armed, srv`freed, srv.br`tail, srv.br.slots
    ensures srv.Valid()
    ensures var s1 := Recycle(old(srv.View()), e.bid);
            srv.View() == Delete(if e.fd in s1.clients then Allocate(s1, RecvEvent(e.fd)) else s1, ev)
  {
    srv.br.Recycle(e.bid);
    if e.fd in srv.clients {
      srv.Queue(RecvEvent(e.fd));
    }
    srv.Free(ev);
  }

  method DispatchOnce(srv: Server)
    requires srv.Valid() && srv.cq != [] && srv.cq[0].ev in srv.heap && srv.cq[0].ev < srv.nextEvent
    requires var c, e := srv.cq[0], srv.heap[srv.cq[0].ev];
             e.SendEvent? && (c.res <= 0 || e.offset + c.res >= e.len) ==> |srv.br.Available()| < NUM_BUFS
    modifies srv, srv.br`tail, srv.br.slots
    ensures srv.Valid() && srv.View() == SingleHandle(old(srv.View()))
  {
    hide SingleAccept, SingleRecv, SingleSend;
    var c := srv.cq[0];
    var e := srv.heap[c.ev];
    srv.cq := srv.cq[1..];
    match e {
      case AcceptEvent(_) => AcceptOnce(srv, c);
      case RecvEvent(fd) => RecvOnce(srv, c, fd);
      case SendEvent(_, _, _, _, _) => SendOnce(srv, c, e);
    }
  }

  /** One iteration of the event loop of the single-shot server. */
  method ReapOnce(srv: Server)
    requires srv.Valid() && OneOp(srv.View()) && srv.cq != []
    modifies srv, srv.br`tail, srv.br.slots
    ensures srv.Valid() && OneOp(srv.View()) && srv.View() == SingleHandle(old(srv.View()))
  {
    srv.Ready();
    HandleKeepsOneOp(srv.View());
    hide OneOp, SingleHandle;
    DispatchOnce(srv);
  }
}
