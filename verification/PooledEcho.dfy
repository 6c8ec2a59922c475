/** The bytes that flow through the single-shot server with pooled buffers. Because a buffer id is only ever in one
    place, what the kernel stores for one connection never disturbs what another still has to send. */
module PooledEcho {
  import opened Words
  import opened Wrappers
  import opened MultishotEcho
  import opened ProvidedBuffers
  import Kernel = EchoKernel

  /** The server, the contents of the pool's buffers as far as they were filled, and the bytes of each connection. */
  datatype World = World(s: State, mem: map<nat, seq<Byte>>, streams: map<int, Kernel.Stream>)

  /** A completion, with the data a recv delivers into its buffer; or the program handles the oldest completion. */
  datatype Step = Completes(c: Cqe, data: seq<Byte>) | Handles

  function Transferred(res: int): nat {
    if res > 0 then res else 0
  }

  /** A recv delivers as many bytes as its result says. */
  ghost predicate Possible(w: World, step: Step) {
    match step
    case Completes(c, data) =>
      KernelMayOnce(w.s, c) && |data| == if c.buf.Some? then Transferred(c.res) else 0
    case Handles => w.s.cq != [] && w.s.cq[0].ev in w.s.heap
  }

  function Receive(streams: map<int, Kernel.Stream>, fd: int, data: seq<Byte>): map<int, Kernel.Stream> {
    if fd !in streams then streams
    else streams[fd := streams[fd].(received := streams[fd].received + data)]
  }

  function Send(streams: map<int, Kernel.Stream>, fd: int, data: seq<Byte>): map<int, Kernel.Stream> {
    if fd !in streams then streams
    else streams[fd := streams[fd].(sent := streams[fd].sent + data)]
  }

  /** The first `n` bytes from `from` on in buffer `bid`. */
  function Slice(mem: map<nat, seq<Byte>>, bid: nat, from: nat, n: nat): seq<Byte> {
    if bid in mem && from + n <= |mem[bid]| then mem[bid][from..from + n] else []
  }

  /** Received bytes enter the chosen buffer; sent bytes leave from the buffer of the send. */
  function Complete(w: World, c: Cqe, data: seq<Byte>): World
    requires c.ev in w.s.heap && (c.buf.Some? ==> w.s.pool != [])
  {
    var w1 := w.(s := Posted(w.s, c));
    match w.s.heap[c.ev]
    case AcceptEvent(_) => w1
    case RecvEvent(fd) =>
      if c.buf.None? then w1
      else w1.(mem := w.mem[c.buf.value := data], streams := Receive(w.streams, fd, data))
    case SendEvent(fd, bid, len, offset, _) =>
      w1.(streams := Send(w.streams, fd, Slice(w.mem, bid, offset, Transferred(c.res))))
  }

  /** A new connection starts with nothing received and nothing sent. */
  function HandleOldest(w: World): World
    requires w.s.cq != [] && w.s.cq[0].ev in w.s.heap
  {
    var c := w.s.cq[0];
    World(SingleHandle(w.s), w.mem,
          if w.s.heap[c.ev].AcceptEvent? && c.res >= 0 then w.streams[c.res := Kernel.Stream([], [])] else w.streams)
  }

  function Apply(w: World, step: Step): World
    requires Possible(w, step)
  {
    match step
    case Completes(c, data) => Complete(w, c, data)
    case Handles => HandleOldest(w)
  }

  // ----- the invariant -----

  /** The connection has received what it has sent, and `rest`. */
  ghost predicate Owes(streams: map<int, Kernel.Stream>, fd: int, rest: seq<Byte>) {
    fd in streams && streams[fd].received == streams[fd].sent + rest
  }

  /** What a connection owes while its operation is outstanding. */
  ghost predicate ArmedOk(w: World, ev: Event) {
    match ev
    case AcceptEvent(_) => true
    case RecvEvent(fd) => Owes(w.streams, fd, [])
    case SendEvent(fd, bid, len, offset, _) =>
      bid in w.mem && |w.mem[bid]| == len && offset <= len && Owes(w.streams, fd, w.mem[bid][offset..])
  }

  /** What it owes when completion `c` of its operation waits. */
  ghost predicate CompletedOk(w: World, ev: Event, c: Cqe) {
    match ev
    case AcceptEvent(_) => true
    case RecvEvent(fd) =>
      if c.buf.None? then Owes(w.streams, fd, [])
      else c.buf.value in w.mem && |w.mem[c.buf.value]| == c.res && Owes(w.streams, fd, w.mem[c.buf.value])
    case SendEvent(fd, bid, len, offset, _) =>
      && bid in w.mem && |w.mem[bid]| == len && offset + Transferred(c.res) <= len
      && Owes(w.streams, fd, w.mem[bid][offset + Transferred(c.res)..])
  }

  ghost predicate StreamsOk(w: World) {
    && (forall e | e in w.s.armed && e in w.s.heap :: ArmedOk(w, w.s.heap[e]))
    && (forall i | 0 <= i < |w.s.cq| && w.s.cq[i].ev in w.s.heap :: CompletedOk(w, w.s.heap[w.s.cq[i].ev], w.s.cq[i]))
  }

  ghost predicate WorldInv(w: World) {
    OneOp(w.s) && StreamsOk(w)
  }

  /** Events of other connections, whose buffers are others too, keep what they owe. */
  lemma OthersKeep(w: World, w': World, ev: Event, fd: int, b: Option<nat>)
    requires ev.AcceptEvent? || ev.fd != fd || w'.streams == w.streams
    requires ev.SendEvent? ==> b != Some(ev.bid)
    requires w'.streams - {fd} == w.streams - {fd}
    requires w'.mem == w.mem || (b.Some? && w'.mem - {b.value} == w.mem - {b.value})
    ensures ArmedOk(w, ev) ==> ArmedOk(w', ev)
    ensures forall c: Cqe | CompletedOk(w, ev, c) && (c.buf.Some? ==> c.buf != b) :: CompletedOk(w', ev, c)
  {
    if w'.streams != w.streams {
      forall g | g in w.streams && g != fd ensures g in w'.streams && w'.streams[g] == w.streams[g] {
        assert g in w.streams - {fd} && (w.streams - {fd})[g] == w.streams[g];
        assert g in w'.streams - {fd};
      }
    }
    forall k | k in w.mem && b != Some(k) ensures k in w'.mem && w'.mem[k] == w.mem[k] {
      if b.Some? && w'.mem != w.mem {
        assert k in w.mem - {b.value} && (w.mem - {b.value})[k] == w.mem[k];
        assert k in w'.mem - {b.value};
      }
    }
  }

  /** A completion changes the stream of its connection and the buffer it was given, which nobody else holds. */
  lemma CompleteTouches(w: World, c: Cqe, data: seq<Byte>)
    requires OneOp(w.s) && Possible(w, Completes(c, data))
    ensures var w' := Complete(w, c, data);
            var fd := w.s.heap[c.ev].fd;
            && (w.s.heap[c.ev].AcceptEvent? ==> w'.streams == w.streams)
            && w'.streams - {fd} == w.streams - {fd}
            && (w'.mem == w.mem || (c.buf.Some? && w'.mem - {c.buf.value} == w.mem - {c.buf.value}))
    ensures forall e | e in w.s.heap && w.s.heap[e].SendEvent? :: c.buf != Some(w.s.heap[e].bid)
    ensures forall i | 0 <= i < |w.s.cq| && w.s.cq[i].buf.Some? :: c.buf != w.s.cq[i].buf
  {
    var s := w.s;
    if c.buf.Some? {
      assert c.buf.value in PoolIds(s.pool);
      forall e | e in s.heap && s.heap[e].SendEvent? ensures s.heap[e].bid != c.buf.value {
        assert s.heap[e].bid in SendIds(s.heap);
      }
      forall i | 0 <= i < |s.cq| && s.cq[i].buf.Some? ensures s.cq[i].buf != c.buf {
        assert s.cq[i].buf.value in CompletionIds(s.cq);
      }
    }
  }

  /** Two events of the same connection are the same. */
  lemma OtherConnection(s: State, d: nat, e: nat)
    requires OneOp(s) && d in s.heap && e in s.heap && d != e && !s.heap[d].AcceptEvent? && !s.heap[e].AcceptEvent?
    ensures s.heap[d].fd != s.heap[e].fd
  {
  }

  lemma OtherArmed(w: World, c: Cqe, data: seq<Byte>, e: nat)
    requires WorldInv(w) && Possible(w, Completes(c, data)) && e in w.s.armed && e in w.s.heap && e != c.ev
    ensures ArmedOk(Complete(w, c, data), w.s.heap[e])
  {
    assert ArmedOk(w, w.s.heap[e]);
    CompleteTouches(w, c, data);
    if !w.s.heap[c.ev].AcceptEvent? && !w.s.heap[e].AcceptEvent? { OtherConnection(w.s, c.ev, e); }
    hide OneOp, StreamsOk, Complete, ArmedOk, KernelMayOnce;
    OthersKeep(w, Complete(w, c, data), w.s.heap[e], w.s.heap[c.ev].fd, c.buf);
  }

  lemma OtherCompleted(w: World, c: Cqe, data: seq<Byte>, i: nat)
    requires WorldInv(w) && Possible(w, Completes(c, data)) && i < |w.s.cq|
    ensures w.s.cq[i].ev in w.s.heap && CompletedOk(Complete(w, c, data), w.s.heap[w.s.cq[i].ev], w.s.cq[i])
  {
    var e := w.s.cq[i].ev;
    assert e in w.s.heap && CompletedOk(w, w.s.heap[e], w.s.cq[i]);
    assert e in Finished(w.s.cq) && e != c.ev;
    CompleteTouches(w, c, data);
    if !w.s.heap[c.ev].AcceptEvent? && !w.s.heap[e].AcceptEvent? { OtherConnection(w.s, c.ev, e); }
    hide OneOp, StreamsOk, Complete, CompletedOk, KernelMayOnce;
    OthersKeep(w, Complete(w, c, data), w.s.heap[e], w.s.heap[c.ev].fd, c.buf);
  }

  lemma RecvCompleted(w: World, c: Cqe, data: seq<Byte>)
    requires Possible(w, Completes(c, data)) && w.s.heap[c.ev].RecvEvent? && ArmedOk(w, w.s.heap[c.ev])
    ensures CompletedOk(Complete(w, c, data), w.s.heap[c.ev], c)
  {
  }

  lemma SendCompleted(w: World, c: Cqe, data: seq<Byte>)
    requires Possible(w, Completes(c, data)) && w.s.heap[c.ev].SendEvent? && ArmedOk(w, w.s.heap[c.ev])
    ensures CompletedOk(Complete(w, c, data), w.s.heap[c.ev], c)
  {
    var ev := w.s.heap[c.ev];
    Owed(w.streams, ev.fd, w.mem[ev.bid], ev.offset, Transferred(c.res));
    hide Owes, Send;
  }

  lemma ThisCompleted(w: World, c: Cqe, data: seq<Byte>)
    requires WorldInv(w) && Possible(w, Completes(c, data))
    ensures CompletedOk(Complete(w, c, data), w.s.heap[c.ev], c)
  {
    assert ArmedOk(w, w.s.heap[c.ev]);
    match w.s.heap[c.ev]
    case AcceptEvent(_) =>
    case RecvEvent(_) => RecvCompleted(w, c, data);
    case SendEvent(_, _, _, _, _) => SendCompleted(w, c, data);
  }

  /** Sending the first `n` of the bytes owed leaves the others owed. */
  lemma Owed(streams: map<int, Kernel.Stream>, fd: int, bytes: seq<Byte>, from: nat, n: nat)
    requires from + n <= |bytes| && Owes(streams, fd, bytes[from..])
    ensures Owes(Send(streams, fd, bytes[from..from + n]), fd, bytes[from + n..])
  {
    assert bytes[from..] == bytes[from..from + n] + bytes[from + n..];
    var t := streams[fd];
    assert t.sent + (bytes[from..from + n] + bytes[from + n..]) == t.sent + bytes[from..from + n] + bytes[from + n..];
  }

  lemma CompleteKeepsInv(w: World, c: Cqe, data: seq<Byte>)
    requires WorldInv(w) && Possible(w, Completes(c, data))
    ensures WorldInv(Complete(w, c, data))
  {
    PostKeepsOneOp(w.s, c);
    var w' := Complete(w, c, data);
    assert w'.s == Posted(w.s, c);
    forall e | e in w'.s.armed && e in w'.s.heap ensures ArmedOk(w', w'.s.heap[e]) {
      OtherArmed(w, c, data, e);
    }
    forall i | 0 <= i < |w'.s.cq|
      ensures w'.s.cq[i].ev in w'.s.heap && CompletedOk(w', w'.s.heap[w'.s.cq[i].ev], w'.s.cq[i])
    {
      if i < |w.s.cq| {
        OtherCompleted(w, c, data, i);
      } else {
        ThisCompleted(w, c, data);
      }
    }
  }

  // ----- handling -----

  /** The connection that an accept reports is a new one, so its stream is nobody else's. */
  lemma StreamsOfOthers(w: World, ev: Event, e: nat)
    requires WorldInv(w) && w.s.cq != [] && e in w.s.heap && w.s.heap[e] == ev
    ensures ArmedOk(w, ev) ==> ArmedOk(HandleOldest(w), ev)
    ensures forall c | CompletedOk(w, ev, c) :: CompletedOk(HandleOldest(w), ev, c)
  {
    var c, w' := w.s.cq[0], HandleOldest(w);
    if w.s.heap[c.ev].AcceptEvent? && c.res >= 0 {
      if !ev.AcceptEvent? { assert ev.fd in ClientFds(w.s.heap); }
      assert w'.streams - {c.res} == w.streams - {c.res};
      hide WorldInv, ArmedOk, CompletedOk, HandleOldest;
      OthersKeep(w, w', ev, c.res, None);
    }
  }

  /** What the handler leaves armed: what was armed before, the events it allocates, and a send it continues. */
  lemma ArmedAfter(s: State, e: nat)
    requires OneOp(s) && s.cq != [] && e in SingleHandle(s).armed && e in SingleHandle(s).heap
    ensures var c, t := s.cq[0], SingleHandle(s);
            || (e in s.armed && e in s.heap && t.heap[e] == s.heap[e])
            || (e == c.ev && s.heap[e].SendEvent? && 0 < c.res && s.heap[e].offset + c.res < s.heap[e].len
                && t.heap[e] == s.heap[e].(offset := s.heap[e].offset + c.res))
            || t.heap[e].AcceptEvent?
            || (s.heap[c.ev].AcceptEvent? && c.res >= 0 && t.heap[e] == RecvEvent(c.res))
            || (s.heap[c.ev].RecvEvent? && c.buf.None? && t.heap[e] == RecvEvent(s.heap[c.ev].fd))
            || (s.heap[c.ev].RecvEvent? && c.buf.Some?
                && t.heap[e] == SendEvent(s.heap[c.ev].fd, c.buf.value, c.res, 0, true))
            || (s.heap[c.ev].SendEvent? && 0 < c.res && s.heap[c.ev].offset + c.res >= s.heap[c.ev].len
                && t.heap[e] == RecvEvent(s.heap[c.ev].fd))
  {
    hide OneEach, OneAccept, BuffersOwned;
    assert Fits(s, s.cq[0]);
    assert e in s.armed ==> e < s.nextEvent;
  }

  lemma HandleArmed(w: World, e: nat)
    requires WorldInv(w) && w.s.cq != []
    requires e in SingleHandle(w.s).armed && e in SingleHandle(w.s).heap
    ensures ArmedOk(HandleOldest(w), SingleHandle(w.s).heap[e])
  {
    var c, t := w.s.cq[0], SingleHandle(w.s);
    ArmedAfter(w.s, e);
    if e in w.s.armed && e in w.s.heap && t.heap[e] == w.s.heap[e] {
      assert ArmedOk(w, w.s.heap[e]);
      StreamsOfOthers(w, w.s.heap[e], e);
    } else {
      assert c.ev in w.s.heap && CompletedOk(w, w.s.heap[c.ev], c);
      NextArmed(w, t.heap[e]);
    }
  }

  /** The next operation of the connection owes what the completion left. */
  lemma NextArmed(w: World, ev: Event)
    requires w.s.cq != [] && w.s.cq[0].ev in w.s.heap && CompletedOk(w, w.s.heap[w.s.cq[0].ev], w.s.cq[0])
    requires var c := w.s.cq[0];
             var old' := w.s.heap[c.ev];
             || ev.AcceptEvent?
             || (old'.AcceptEvent? && c.res >= 0 && ev == RecvEvent(c.res))
             || (old'.RecvEvent? && c.buf.None? && ev == RecvEvent(old'.fd))
             || (old'.RecvEvent? && c.buf.Some? && ev == SendEvent(old'.fd, c.buf.value, c.res, 0, true))
             || (old'.SendEvent? && 0 < c.res && old'.offset + c.res >= old'.len && ev == RecvEvent(old'.fd))
             || (old'.SendEvent? && 0 < c.res && old'.offset + c.res < old'.len
                 && ev == old'.(offset := old'.offset + c.res))
    ensures ArmedOk(HandleOldest(w), ev)
  {
    hide SingleHandle;
    var c := w.s.cq[0];
    if ev.SendEvent? && w.s.heap[c.ev].RecvEvent? {
      assert w.mem[c.buf.value][0..] == w.mem[c.buf.value];
    }
  }

  lemma HandleKeepsInv(w: World)
    requires WorldInv(w) && w.s.cq != []
    ensures w.s.cq[0].ev in w.s.heap && WorldInv(HandleOldest(w))
  {
    HandleKeepsOneOp(w.s);
    HandleKeepsQueue(w.s);
    var w' := HandleOldest(w);
    var t := SingleHandle(w.s);
    assert w'.s == t;
    forall e | e in t.armed && e in t.heap ensures ArmedOk(w', t.heap[e]) {
      HandleArmed(w, e);
    }
    forall i | 0 <= i < |t.cq| ensures t.cq[i].ev in t.heap && CompletedOk(w', t.heap[t.cq[i].ev], t.cq[i]) {
      var d := w.s.cq[i + 1];
      assert d.ev in w.s.heap && CompletedOk(w, w.s.heap[d.ev], d);
      StreamsOfOthers(w, w.s.heap[d.ev], d.ev);
    }
  }

  // ----- runs -----

  ghost predicate Runs(w: World, steps: seq<Step>, w': World)
    decreases |steps|
  {
    if steps == [] then w == w'
    else Possible(w, steps[0]) && Runs(Apply(w, steps[0]), steps[1..], w')
  }

  function Start(listenFd: int): World {
    World(Init(listenFd), map[], map[])
  }

  lemma StartInv(listenFd: int)
    ensures WorldInv(Start(listenFd))
  {
    InitInv(listenFd);
    assert Accepts(Init(listenFd).heap) == {0};
  }

  /** The operation of event `e` accounts for what connection `fd` has received and not yet sent: nothing, the bytes in
      the buffer just received, or the unsent tail of the buffer being sent. */
  ghost predicate Accounts(w: World, e: nat, fd: int) {
    && e in w.s.heap && !w.s.heap[e].AcceptEvent? && w.s.heap[e].fd == fd
    && ((e in w.s.armed && ArmedOk(w, w.s.heap[e]))
        || exists i :: 0 <= i < |w.s.cq| && w.s.cq[i].ev == e && CompletedOk(w, w.s.heap[e], w.s.cq[i]))
  }

  /** On every connection the bytes sent are a prefix of those received. The stream of a closed connection stays until
      its descriptor is accepted again. */
  ghost predicate SentIsPrefix(streams: map<int, Kernel.Stream>) {
    forall fd | fd in streams :: streams[fd].sent <= streams[fd].received
  }

  /** A step does not touch the streams of connections that are closed afterwards. */
  lemma ClosedStreams(w: World, step: Step, fd: int)
    requires WorldInv(w) && Possible(w, step)
    requires fd in Apply(w, step).streams && fd !in Apply(w, step).s.clients
    ensures fd in w.streams && Apply(w, step).streams[fd] == w.streams[fd]
  {
    hide StreamsOk, Inv, OneAccept;
    match step
    case Completes(c, data) =>
      if !w.s.heap[c.ev].AcceptEvent? { assert w.s.heap[c.ev].fd in ClientFds(w.s.heap); }
    case Handles =>
  }

  lemma StepKeepsPrefix(w: World, step: Step)
    requires WorldInv(w) && Possible(w, step) && SentIsPrefix(w.streams)
    ensures WorldInv(Apply(w, step)) && SentIsPrefix(Apply(w, step).streams)
  {
    match step {
      case Completes(c, data) => CompleteKeepsInv(w, c, data);
      case Handles => HandleKeepsInv(w);
    }
    hide WorldInv, Possible, Complete, HandleOldest;
    var w' := Apply(w, step);
    forall fd | fd in w'.streams ensures w'.streams[fd].sent <= w'.streams[fd].received {
      if fd in w'.s.clients {
        InvMeansSafety(w', fd);
      } else {
        ClosedStreams(w, step, fd);
      }
    }
  }

  lemma {:induction false} RunKeepsPrefix(w: World, steps: seq<Step>, w': World)
    requires WorldInv(w) && SentIsPrefix(w.streams) && Runs(w, steps, w')
    ensures WorldInv(w') && SentIsPrefix(w'.streams)
    decreases |steps|
  {
    if steps != [] {
      StepKeepsPrefix(w, steps[0]);
      RunKeepsPrefix(Apply(w, steps[0]), steps[1..], w');
    }
  }

  /** Echo safety with pooled buffers: on every connection, open or closed, the bytes sent are a prefix of the bytes
      received; while it is open the rest is exactly what its one operation still holds. */
  lemma EchoSafety(listenFd: int, steps: seq<Step>, w: World, fd: int)
    requires Runs(Start(listenFd), steps, w)
    ensures fd in w.streams ==> w.streams[fd].sent <= w.streams[fd].received
    ensures fd in w.s.clients ==> fd in w.streams && exists e :: Accounts(w, e, fd)
  {
    StartInv(listenFd);
    RunKeepsPrefix(Start(listenFd), steps, w);
    if fd in w.s.clients { InvMeansSafety(w, fd); }
  }

  lemma InvMeansSafety(w: World, fd: int)
    requires WorldInv(w) && fd in w.s.clients
    ensures fd in w.streams && w.streams[fd].sent <= w.streams[fd].received
    ensures exists e :: Accounts(w, e, fd)
  {
    assert fd in ClientFds(w.s.heap);
    var e :| e in w.s.heap && !w.s.heap[e].AcceptEvent? && w.s.heap[e].fd == fd;
    if e !in w.s.armed {
      assert e in Finished(w.s.cq);
      var i :| 0 <= i < |w.s.cq| && !w.s.cq[i].more && w.s.cq[i].ev == e;
      assert CompletedOk(w, w.s.heap[e], w.s.cq[i]);
    }
    assert Accounts(w, e, fd);
  }
}
