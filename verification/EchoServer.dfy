/** What the echo servers ask of the kernel, and what the kernel may answer. */
module EchoKernel {

  import opened Words

  const CLIENT_BUF_SIZE: nat := 4096

  type Buffer = b: seq<Byte> | |b| == CLIENT_BUF_SIZE witness seq(CLIENT_BUF_SIZE, _ => 0)

  function ZeroBuffer(): Buffer {
    seq(CLIENT_BUF_SIZE, _ => 0)
  }

  datatype Request =
    | AcceptRequest
    | RecvRequest(fd: int)
    | SendRequest(fd: int, bytes: seq<Byte>)

  /** What a server does that can be seen from outside: submissions and closed descriptors, in order. A submission is
      known by its index in the log. */
  datatype Effect = Submit(req: Request) | CloseFd(fd: int)

  type Log = seq<Effect>

  datatype Stage = InFlight | Done(res: int)

  /** The bytes of one connection. */
  datatype Stream = Stream(received: seq<Byte>, sent: seq<Byte>)

  /** One step of a run: the kernel completes a submission, or the server takes a completion. */
  datatype Action = Completes(i: nat, res: int, data: seq<Byte>) | Takes(i: nat)

  /** A descriptor is open from the first submission on it to its close. */
  predicate IsOpen(log: Log, fd: int) {
    if log == [] then false
    else
      var last := log[|log| - 1];
      if last == CloseFd(fd) then false
      else if last.Submit? && !last.req.AcceptRequest? && last.req.fd == fd then true
      else IsOpen(log[..|log| - 1], fd)
  }

  /** A submission completes once; `accept` returns a descriptor that is not open; `recv` and `send` move at most what
      was asked. */
  ghost predicate Allowed(log: Log, ops: map<nat, Stage>, listenFd: int, a: Action) {
    match a
    case Takes(i) => i in ops && ops[i].Done?
    case Completes(i, res, data) =>
      && i in ops && ops[i].InFlight?
      && i < |log| && log[i].Submit?
      && match log[i].req
         case AcceptRequest => data == [] && res < 0x8000_0000 && (res >= 0 ==> res != listenFd && !IsOpen(log, res))
         case RecvRequest(_) => res <= CLIENT_BUF_SIZE && |data| == if res > 0 then res else 0
         case SendRequest(_, bytes) => data == [] && res <= |bytes|
  }

  /** A receive fills the front of the buffer. */
  function Fill(buf: Buffer, data: seq<Byte>): Buffer
    requires |data| <= CLIENT_BUF_SIZE
  {
    data + buf[|data|..]
  }
}

/** The callback server: one dispatch function over a table of clients. */
module EchoServer {
  import opened Words
  import opened EchoKernel
  import Counting
  import EchoCodec

  datatype Client = Client(fd: int, buf: Buffer, sendLen: nat, sendOffset: nat)

  /** `tags` maps submissions to their user_data; `streams` records the bytes of each open connection. */
  datatype State = State(
    listenFd: int,
    clients: map<int, Client>,
    log: Log,
    tags: map<nat, Word64>,
    ops: map<nat, Stage>,
    streams: map<int, Stream>)

  predicate IsFd(fd: int) { 0 <= fd < 0x8000_0000 }

  function Queue(s: State, req: Request, op: EchoCodec.Op, fd: int): State
    requires IsFd(fd)
  {
    s.(log := s.log + [Submit(req)],
       tags := s.tags[|s.log| := EchoCodec.Encode(op, fd)],
       ops := s.ops[|s.log| := InFlight])
  }

  function Close(s: State, fd: int): State {
    s.(log := s.log + [CloseFd(fd)], clients := s.clients - {fd})
  }

  function QueueAccept(s: State): State
    requires IsFd(s.listenFd)
  {
    Queue(s, AcceptRequest, EchoCodec.Accept, s.listenFd)
  }

  function QueueRecv(s: State, fd: int): State
    requires IsFd(fd)
  {
    Queue(s, RecvRequest(fd), EchoCodec.Recv, fd)
  }

  /** Sends what is left of the client's buffer. */
  function QueueSend(s: State, fd: int, c: Client): State
    requires IsFd(fd) && c.sendOffset <= c.sendLen <= CLIENT_BUF_SIZE
  {
    Queue(s.(clients := s.clients[fd := c]), SendRequest(fd, c.buf[c.sendOffset..c.sendLen]), EchoCodec.Send, fd)
  }

  function Init(listenFd: int): State
    requires IsFd(listenFd)
  {
    QueueAccept(State(listenFd, map[], [], map[], map[], map[]))
  }

  function HandleAccept(s: State, res: int): State
    requires IsFd(s.listenFd) && res < 0x8000_0000
  {
    if res < 0 then QueueAccept(s)
    else
      var s1 := s.(clients := s.clients[res := Client(res, ZeroBuffer(), 0, 0)],
                   streams := s.streams[res := Stream([], [])]);
      QueueAccept(QueueRecv(s1, res))
  }

  /** `clients[fd]` default-constructs an entry that is missing. */
  function Lookup(s: State, fd: int): Client {
    if fd in s.clients then s.clients[fd] else Client(0, ZeroBuffer(), 0, 0)
  }

  function HandleRecv(s: State, fd: int, res: int): State
    requires IsFd(fd) && res <= CLIENT_BUF_SIZE
  {
    if res <= 0 then Close(s, fd)
    else QueueSend(s, fd, Lookup(s, fd).(sendLen := res, sendOffset := 0))
  }

  function HandleSend(s: State, fd: int, res: int): State
    requires IsFd(fd) && (fd in s.clients ==> s.clients[fd].sendLen <= CLIENT_BUF_SIZE)
  {
    if fd !in s.clients then s
    else if res <= 0 then Close(s, fd)
    else
      var c := s.clients[fd].(sendOffset := s.clients[fd].sendOffset + res);
      if c.sendOffset < c.sendLen then QueueSend(s, fd, c)
      else QueueRecv(s.(clients := s.clients[fd := c]), fd)
  }

  /** `handle_cqe`, dispatching on the operation decoded from the user_data. */
  function HandleCqe(s: State, ud: Word64, res: int): State
    requires IsFd(s.listenFd) && IsFd(EchoCodec.DecodeFd(ud))
    requires res < 0x8000_0000
    requires EchoCodec.DecodeOp(ud) == EchoCodec.Code(EchoCodec.Recv) ==> res <= CLIENT_BUF_SIZE
    requires forall fd | fd in s.clients :: s.clients[fd].sendLen <= CLIENT_BUF_SIZE
  {
    var op, fd := EchoCodec.DecodeOp(ud), EchoCodec.DecodeFd(ud);
    if op == EchoCodec.Code(EchoCodec.Accept) then HandleAccept(s, res)
    else if op == EchoCodec.Code(EchoCodec.Recv) then HandleRecv(s, fd, res)
    else if op == EchoCodec.Code(EchoCodec.Send) then HandleSend(s, fd, res)
    else s
  }

  /** The kernel's side of a completion: received bytes enter the client's buffer, sent bytes leave on the wire. */
  function Complete(s: State, i: nat, res: int, data: seq<Byte>): State
    requires i < |s.log| && s.log[i].Submit? && |data| <= CLIENT_BUF_SIZE
    requires s.log[i].req.SendRequest? ==> res <= |s.log[i].req.bytes|
    requires !s.log[i].req.AcceptRequest? ==> s.log[i].req.fd in s.clients && s.log[i].req.fd in s.streams
  {
    var s1 := s.(ops := s.ops[i := Done(res)]);
    match s.log[i].req
    case AcceptRequest => s1
    case RecvRequest(fd) =>
      var c, t := s.clients[fd], s.streams[fd];
      s1.(clients := s.clients[fd := c.(buf := Fill(c.buf, data))],
          streams := s.streams[fd := t.(received := t.received + data)])
    case SendRequest(fd, bytes) =>
      var t := s.streams[fd];
      s1.(streams := s.streams[fd := t.(sent := t.sent + if res > 0 then bytes[..res] else [])])
  }

  // ----- the invariant -----

  /** The user_data a request carries. */
  function TagOf(s: State, req: Request): Word64
    requires IsFd(s.listenFd) && (!req.AcceptRequest? ==> IsFd(req.fd))
  {
    match req
    case AcceptRequest => EchoCodec.Encode(EchoCodec.Accept, s.listenFd)
    case RecvRequest(fd) => EchoCodec.Encode(EchoCodec.Recv, fd)
    case SendRequest(fd, _) => EchoCodec.Encode(EchoCodec.Send, fd)
  }

  /** The client, its stream and its outstanding operation agree: received is what was sent followed by what the
      buffer still holds to be sent. */
  ghost predicate InStep(s: State, req: Request, stage: Stage)
    requires !req.AcceptRequest? && req.fd in s.clients && req.fd in s.streams
  {
    var c, t := s.clients[req.fd], s.streams[req.fd];
    match req
    case AcceptRequest => true
    case RecvRequest(_) =>
      && (stage.Done? ==> stage.res <= CLIENT_BUF_SIZE)
      && t.received == t.sent + (if stage.Done? && stage.res > 0 then c.buf[..stage.res] else [])
    case SendRequest(_, bytes) =>
      && c.sendOffset < c.sendLen <= CLIENT_BUF_SIZE
      && bytes == c.buf[c.sendOffset..c.sendLen]
      && (stage.Done? ==> stage.res <= |bytes|)
      && t.received == t.sent + (if stage.Done? && stage.res > 0 then bytes[stage.res..] else bytes)
  }

  ghost predicate OperationOk(s: State, i: nat)
    requires i in s.ops && IsFd(s.listenFd)
  {
    && i < |s.log| && i in s.tags && s.log[i].Submit?
    && var req := s.log[i].req;
    && (!req.AcceptRequest? ==>
          && IsFd(req.fd) && req.fd != s.listenFd && req.fd in s.clients && req.fd in s.streams
          && InStep(s, req, s.ops[i]))
    && (req.AcceptRequest? && s.ops[i].Done? && s.ops[i].res >= 0 ==>
          s.ops[i].res < 0x8000_0000 && s.ops[i].res != s.listenFd && !IsOpen(s.log, s.ops[i].res))
    && (req.AcceptRequest? && s.ops[i].Done? ==> s.ops[i].res < 0x8000_0000)
    && s.tags[i] == TagOf(s, req)
  }

  /** Whom a submission serves: the listener or a connection. */
  function Party(listenFd: int, req: Request): int {
    if req.AcceptRequest? then listenFd else req.fd
  }

  /** `current` maps each party that is not in `idle` to the one operation that serves it. */
  ghost predicate Served(s: State, idle: set<int>, current: map<int, nat>) {
    && current.Keys == s.clients.Keys + {s.listenFd} - idle
    && (forall p | p in current :: current[p] in s.ops)
    && (forall i | i in s.ops ::
          && i < |s.log| && s.log[i].Submit?
          && var p := Party(s.listenFd, s.log[i].req);
          p in current && current[p] == i)
    && (forall p | p in current :: Party(s.listenFd, s.log[current[p]].req) == p)
  }

  ghost predicate TableOk(s: State, idle: set<int>) {
    && IsFd(s.listenFd)
    && (forall fd | fd in s.clients :: IsFd(fd) && fd != s.listenFd && fd in s.streams
                                       && s.clients[fd].sendLen <= CLIENT_BUF_SIZE)
    && (forall fd | IsOpen(s.log, fd) :: fd in s.clients)
    && (forall fd | fd in s.clients && fd !in idle :: IsOpen(s.log, fd))
  }

  /** The invariant, except that no operation serves the parties in `idle`. */
  ghost predicate Almost(s: State, idle: set<int>, current: map<int, nat>) {
    && TableOk(s, idle)
    && Served(s, idle, current)
    && (forall i | i in s.ops :: OperationOk(s, i))
  }

  ghost predicate Inv(s: State) {
    exists current :: Almost(s, {}, current)
  }

  lemma OpenAfter(log: Log, e: Effect, fd: int)
    ensures IsOpen(log + [e], fd) ==
              if e == CloseFd(fd) then false
              else if e.Submit? && !e.req.AcceptRequest? && e.req.fd == fd then true
              else IsOpen(log, fd)
  {
    assert (log + [e])[..|log|] == log;
  }

  /** No accept has produced `fd` that the server has yet to take. */
  ghost predicate NotPending(s: State, fd: int) {
    forall i | i in s.ops && i < |s.log| && s.log[i] == Submit(AcceptRequest) && s.ops[i].Done? :: s.ops[i].res != fd
  }

  lemma QueueTable(s: State, idle: set<int>, req: Request, op: EchoCodec.Op, fd: int)
    requires TableOk(s, idle) && IsFd(fd) && fd == Party(s.listenFd, req)
    requires !req.AcceptRequest? ==> fd in s.clients
    ensures TableOk(Queue(s, req, op, fd), idle - {fd})
  {
    var t := Queue(s, req, op, fd);
    forall g ensures IsOpen(t.log, g) == if !req.AcceptRequest? && g == fd then true else IsOpen(s.log, g) {
      OpenAfter(s.log, Submit(req), g);
    }
  }

  lemma QueueServed(s: State, idle: set<int>, current: map<int, nat>, req: Request, op: EchoCodec.Op, fd: int)
    requires Served(s, idle, current) && fd in idle && IsFd(fd) && fd == Party(s.listenFd, req)
    requires !req.AcceptRequest? ==> fd in s.clients
    ensures Served(Queue(s, req, op, fd), idle - {fd}, current[fd := |s.log|])
  {
    var t := Queue(s, req, op, fd);
    forall i | i in s.ops ensures i < |s.log| && t.log[i] == s.log[i] {}
    assert t.log[|s.log|] == Submit(req);
  }

  lemma QueueOperations(s: State, req: Request, op: EchoCodec.Op, fd: int)
    requires IsFd(s.listenFd) && IsFd(fd) && fd == Party(s.listenFd, req)
    requires TagOf(s, req) == EchoCodec.Encode(op, fd)
    requires forall i | i in s.ops :: OperationOk(s, i)
    requires !req.AcceptRequest? ==> fd != s.listenFd && fd in s.clients && fd in s.streams && InStep(s, req, InFlight)
    requires NotPending(s, fd)
    ensures forall i | i in Queue(s, req, op, fd).ops :: OperationOk(Queue(s, req, op, fd), i)
  {
    var t := Queue(s, req, op, fd);
    forall i | i in t.ops ensures OperationOk(t, i) {
      if i in s.ops {
        assert OperationOk(s, i) && t.log[i] == s.log[i] && t.ops[i] == s.ops[i] && t.tags[i] == s.tags[i];
        if s.ops[i].Done? { OpenAfter(s.log, Submit(req), s.ops[i].res); }
      }
    }
  }

  /** Queueing an operation for an idle party. */
  lemma QueueAlmost(s: State, idle: set<int>, current: map<int, nat>, req: Request, op: EchoCodec.Op, fd: int)
    requires Almost(s, idle, current) && fd in idle && IsFd(fd)
    requires fd == Party(s.listenFd, req) && TagOf(s, req) == EchoCodec.Encode(op, fd)
    requires !req.AcceptRequest? ==> fd in s.clients && InStep(s, req, InFlight)
    requires NotPending(s, fd)
    ensures Almost(Queue(s, req, op, fd), idle - {fd}, current[fd := |s.log|])
  {
    QueueTable(s, idle, req, op, fd);
    QueueServed(s, idle, current, req, op, fd);
    QueueOperations(s, req, op, fd);
  }

  lemma Take(s: State, current: map<int, nat>, i: nat)
    requires Almost(s, {}, current) && i in s.ops
    ensures i < |s.log| && s.log[i].Submit?
    ensures var p := Party(s.listenFd, s.log[i].req);
            Almost(s.(ops := s.ops - {i}), {p}, current - {p})
  {
    var p := Party(s.listenFd, s.log[i].req);
    var t := s.(ops := s.ops - {i});
    assert p in current && current[p] == i;
    assert t.clients.Keys + {t.listenFd} - {p} == (current - {p}).Keys;
    forall j | j in t.ops ensures OperationOk(t, j) {
      assert OperationOk(s, j);
    }
  }

  /** Changing the entry and the stream of an idle client. */
  lemma UpdateIdle(s: State, idle: set<int>, current: map<int, nat>, fd: int, c: Client)
    requires Almost(s, idle, current) && fd in idle && fd in s.clients && c.sendLen <= CLIENT_BUF_SIZE
    ensures Almost(s.(clients := s.clients[fd := c]), idle, current)
  {
    var t := s.(clients := s.clients[fd := c]);
    assert t.clients.Keys == s.clients.Keys;
    forall j | j in t.ops ensures OperationOk(t, j) {
      assert OperationOk(s, j);
    }
  }

  lemma AddClient(s: State, current: map<int, nat>, fd: int, c: Client, t: Stream)
    requires Almost(s, {s.listenFd}, current) && IsFd(fd) && fd != s.listenFd && !IsOpen(s.log, fd)
    requires c.sendLen <= CLIENT_BUF_SIZE && fd !in s.clients
    ensures Almost(s.(clients := s.clients[fd := c], streams := s.streams[fd := t]), {s.listenFd, fd}, current)
  {
    var u := s.(clients := s.clients[fd := c], streams := s.streams[fd := t]);
    assert u.clients.Keys == s.clients.Keys + {fd};
    assert u.clients.Keys + {s.listenFd} - {s.listenFd, fd} == s.clients.Keys + {s.listenFd} - {s.listenFd};
    forall j | j in u.ops ensures OperationOk(u, j) {
      assert OperationOk(s, j);
    }
  }

  lemma CloseIdle(s: State, current: map<int, nat>, fd: int)
    requires Almost(s, {fd}, current) && fd in s.clients
    ensures Almost(Close(s, fd), {}, current)
  {
    var t := Close(s, fd);
    forall g ensures IsOpen(t.log, g) == if g == fd then false else IsOpen(s.log, g) {
      OpenAfter(s.log, CloseFd(fd), g);
    }
    assert t.clients.Keys + {t.listenFd} - {} == s.clients.Keys + {s.listenFd} - {fd};
    forall j | j in t.ops ensures OperationOk(t, j) {
      assert OperationOk(s, j);
      assert t.log[j] == s.log[j];
      assert Party(s.listenFd, s.log[j].req) in current;
    }
  }

  /** While the listener is idle there is no accept that could produce a descriptor. */
  lemma NothingPending(s: State, idle: set<int>, current: map<int, nat>, fd: int)
    requires Served(s, idle, current) && s.listenFd in idle
    ensures NotPending(s, fd)
  {
    forall i | i in s.ops ensures s.log[i] != Submit(AcceptRequest) {
      assert Party(s.listenFd, s.log[i].req) in current;
    }
  }

  lemma QueueAcceptKeepsInv(s: State, current: map<int, nat>)
    requires Almost(s, {s.listenFd}, current)
    ensures Inv(QueueAccept(s))
  {
    NothingPending(s, {s.listenFd}, current, s.listenFd);
    QueueAlmost(s, {s.listenFd}, current, AcceptRequest, EchoCodec.Accept, s.listenFd);
    assert {s.listenFd} - {s.listenFd} == {};
  }

  lemma NewClientAlmost(s: State, current: map<int, nat>, res: int, c: Client)
    requires Almost(s, {s.listenFd}, current) && IsFd(res) && res != s.listenFd && !IsOpen(s.log, res)
    requires c.sendLen <= CLIENT_BUF_SIZE
    ensures var s1 := s.(clients := s.clients[res := c], streams := s.streams[res := Stream([], [])]);
            Almost(QueueRecv(s1, res), {s.listenFd}, current[res := |s.log|])
  {
    AddClient(s, current, res, c, Stream([], []));
    var s1 := s.(clients := s.clients[res := c], streams := s.streams[res := Stream([], [])]);
    NothingPending(s1, {s.listenFd, res}, current, res);
    QueueAlmost(s1, {s.listenFd, res}, current, RecvRequest(res), EchoCodec.Recv, res);
    assert {s.listenFd, res} - {res} == {s.listenFd};
  }

  lemma AcceptKeepsInv(s: State, current: map<int, nat>, res: int)
    requires Almost(s, {s.listenFd}, current) && res < 0x8000_0000
    requires res >= 0 ==> res != s.listenFd && !IsOpen(s.log, res)
    ensures Inv(HandleAccept(s, res))
  {
    if res < 0 {
      QueueAcceptKeepsInv(s, current);
    } else {
      var c := Client(res, ZeroBuffer(), 0, 0);
      NewClientAlmost(s, current, res, c);
      var s1 := s.(clients := s.clients[res := c], streams := s.streams[res := Stream([], [])]);
      QueueAcceptKeepsInv(QueueRecv(s1, res), current[res := |s.log|]);
    }
  }

  /** An open client's descriptor is not what a pending accept produced. */
  lemma OpenNotPending(s: State, fd: int)
    requires IsFd(s.listenFd) && (forall i | i in s.ops :: OperationOk(s, i)) && IsOpen(s.log, fd) && fd >= 0
    ensures NotPending(s, fd)
  {
    forall i | i in s.ops && s.log[i] == Submit(AcceptRequest) && s.ops[i].Done? ensures s.ops[i].res != fd {
      assert OperationOk(s, i);
    }
  }

  lemma QueueForClient(s: State, current: map<int, nat>, fd: int, c: Client, req: Request, op: EchoCodec.Op)
    requires Almost(s, {fd}, current) && fd in s.clients && IsOpen(s.log, fd) && IsFd(fd)
    requires c.sendLen <= CLIENT_BUF_SIZE && !req.AcceptRequest? && req.fd == fd
    requires TagOf(s, req) == EchoCodec.Encode(op, fd)
    requires InStep(s.(clients := s.clients[fd := c]), req, InFlight)
    ensures Inv(Queue(s.(clients := s.clients[fd := c]), req, op, fd))
  {
    var s1 := s.(clients := s.clients[fd := c]);
    UpdateIdle(s, {fd}, current, fd, c);
    OpenNotPending(s1, fd);
    QueueAlmost(s1, {fd}, current, req, op, fd);
    assert {fd} - {fd} == {};
  }

  lemma RecvKeepsInv(s: State, current: map<int, nat>, fd: int, res: int)
    requires Almost(s, {fd}, current) && fd in s.clients && IsOpen(s.log, fd) && IsFd(fd)
    requires res <= CLIENT_BUF_SIZE
    requires var t := s.streams[fd];
             t.received == t.sent + if res > 0 then s.clients[fd].buf[..res] else []
    ensures Inv(HandleRecv(s, fd, res))
  {
    if res <= 0 {
      CloseIdle(s, current, fd);
    } else {
      var c := s.clients[fd].(sendLen := res, sendOffset := 0);
      QueueForClient(s, current, fd, c, SendRequest(fd, c.buf[0..res]), EchoCodec.Send);
    }
  }

  lemma SendKeepsInv(s: State, current: map<int, nat>, fd: int, res: int)
    requires Almost(s, {fd}, current) && fd in s.clients && IsOpen(s.log, fd) && IsFd(fd)
    requires var c, t := s.clients[fd], s.streams[fd];
             && c.sendOffset < c.sendLen <= CLIENT_BUF_SIZE
             && res <= c.sendLen - c.sendOffset
             && (res > 0 ==> t.received == t.sent + c.buf[c.sendOffset + res..c.sendLen])
    ensures Inv(HandleSend(s, fd, res))
  {
    if res <= 0 {
      CloseIdle(s, current, fd);
    } else {
      var c := s.clients[fd].(sendOffset := s.clients[fd].sendOffset + res);
      if c.sendOffset < c.sendLen {
        QueueForClient(s, current, fd, c, SendRequest(fd, c.buf[c.sendOffset..c.sendLen]), EchoCodec.Send);
      } else {
        QueueForClient(s, current, fd, c, RecvRequest(fd), EchoCodec.Recv);
      }
    }
  }

  // ----- steps -----

  ghost function TakeCompletion(s: State, i: nat): State
    requires Inv(s) && i in s.ops && s.ops[i].Done?
  {
    TakeDefined(s, i);
    HandleCqe(s.(ops := s.ops - {i}), s.tags[i], s.ops[i].res)
  }

  /** The user_data of an outstanding operation decodes to that operation. */
  lemma TakeDefined(s: State, i: nat)
    requires Inv(s) && i in s.ops
    ensures i in s.tags && i < |s.log| && s.log[i].Submit? && IsFd(s.listenFd)
    ensures var req := s.log[i].req;
            var ud := s.tags[i];
            && EchoCodec.DecodeFd(ud) == Party(s.listenFd, req)
            && IsFd(EchoCodec.DecodeFd(ud))
            && EchoCodec.DecodeOp(ud) ==
                 EchoCodec.Code(match req
                                case AcceptRequest => EchoCodec.Accept
                                case RecvRequest(_) => EchoCodec.Recv
                                case SendRequest(_, _) => EchoCodec.Send)
            && (s.ops[i].Done? ==> s.ops[i].res < 0x8000_0000 && (req.RecvRequest? ==> s.ops[i].res <= CLIENT_BUF_SIZE))
    ensures forall fd | fd in s.clients :: s.clients[fd].sendLen <= CLIENT_BUF_SIZE
  {
    assert OperationOk(s, i);
    match s.log[i].req
    case AcceptRequest => EchoCodec.RoundTrip(EchoCodec.Accept, s.listenFd);
    case RecvRequest(fd) => EchoCodec.RoundTrip(EchoCodec.Recv, fd);
    case SendRequest(fd, _) => EchoCodec.RoundTrip(EchoCodec.Send, fd);
  }

  lemma TakeKeepsInv(s: State, i: nat)
    requires Inv(s) && i in s.ops && s.ops[i].Done?
    ensures Inv(TakeCompletion(s, i))
  {
    TakeDefined(s, i);
    match s.log[i].req
    case AcceptRequest => TakeAccept(s, i);
    case RecvRequest(fd) => TakeRecv(s, i, fd);
    case SendRequest(fd, bytes) => TakeSend(s, i, fd, bytes);
  }

  lemma TakeAccept(s: State, i: nat)
    requires Inv(s) && i in s.ops && s.ops[i].Done? && i < |s.log| && s.log[i] == Submit(AcceptRequest)
    ensures s.ops[i].res < 0x8000_0000 && IsFd(s.listenFd)
    ensures Inv(HandleAccept(s.(ops := s.ops - {i}), s.ops[i].res))
  {
    var current :| Almost(s, {}, current);
    assert OperationOk(s, i);
    Take(s, current, i);
    AcceptKeepsInv(s.(ops := s.ops - {i}), current - {s.listenFd}, s.ops[i].res);
  }

  lemma TakeRecv(s: State, i: nat, fd: int)
    requires Inv(s) && i in s.ops && s.ops[i].Done? && i < |s.log| && s.log[i] == Submit(RecvRequest(fd))
    ensures IsFd(fd) && s.ops[i].res <= CLIENT_BUF_SIZE
    ensures Inv(HandleRecv(s.(ops := s.ops - {i}), fd, s.ops[i].res))
  {
    var current :| Almost(s, {}, current);
    assert OperationOk(s, i);
    Take(s, current, i);
    RecvKeepsInv(s.(ops := s.ops - {i}), current - {fd}, fd, s.ops[i].res);
  }

  lemma TakeSend(s: State, i: nat, fd: int, bytes: seq<Byte>)
    requires Inv(s) && i in s.ops && s.ops[i].Done? && i < |s.log| && s.log[i] == Submit(SendRequest(fd, bytes))
    ensures IsFd(fd) && (fd in s.clients ==> s.clients[fd].sendLen <= CLIENT_BUF_SIZE)
    ensures Inv(HandleSend(s.(ops := s.ops - {i}), fd, s.ops[i].res))
  {
    var current :| Almost(s, {}, current);
    assert OperationOk(s, i);
    var c, res := s.clients[fd], s.ops[i].res;
    if res > 0 {
      assert bytes[res..] == c.buf[c.sendOffset + res..c.sendLen];
    }
    Take(s, current, i);
    SendKeepsInv(s.(ops := s.ops - {i}), current - {fd}, fd, res);
  }

  lemma CompleteDefined(s: State, i: nat)
    requires Inv(s) && i in s.ops
    ensures i < |s.log| && s.log[i].Submit?
    ensures !s.log[i].req.AcceptRequest? ==> s.log[i].req.fd in s.clients && s.log[i].req.fd in s.streams
  {
    assert OperationOk(s, i);
  }

  lemma CompleteKeepsInv(s: State, i: nat, res: int, data: seq<Byte>)
    requires Inv(s) && Allowed(s.log, s.ops, s.listenFd, Completes(i, res, data))
    ensures (CompleteDefined(s, i); Inv(Complete(s, i, res, data)))
  {
    CompleteDefined(s, i);
    var current :| Almost(s, {}, current);
    var t := Complete(s, i, res, data);
    CompletedTables(s, current, i, res, data);
    forall j | j in t.ops ensures OperationOk(t, j) {
      assert OperationOk(s, j) && OperationOk(s, i);
      if j == i {
        CompletedOk(s, i, res, data);
      } else {
        OthersOk(s, i, res, data, j);
      }
    }
    assert Almost(t, {}, current);
  }

  lemma CompletedTables(s: State, current: map<int, nat>, i: nat, res: int, data: seq<Byte>)
    requires TableOk(s, {}) && Served(s, {}, current)
    requires i in s.ops && IsFd(s.listenFd) && OperationOk(s, i)
    requires Allowed(s.log, s.ops, s.listenFd, Completes(i, res, data))
    ensures TableOk(Complete(s, i, res, data), {}) && Served(Complete(s, i, res, data), {}, current)
  {
    var t := Complete(s, i, res, data);
    assert t.ops.Keys == s.ops.Keys && t.clients.Keys == s.clients.Keys;
  }

  lemma OthersOk(s: State, i: nat, res: int, data: seq<Byte>, j: nat)
    requires i in s.ops && j in s.ops && IsFd(s.listenFd) && OperationOk(s, i) && OperationOk(s, j)
    requires Party(s.listenFd, s.log[i].req) != Party(s.listenFd, s.log[j].req)
    requires Allowed(s.log, s.ops, s.listenFd, Completes(i, res, data))
    ensures OperationOk(Complete(s, i, res, data), j)
  {
  }

  lemma RecvCompletedOk(s: State, i: nat, res: int, data: seq<Byte>)
    requires i in s.ops && IsFd(s.listenFd) && OperationOk(s, i) && s.log[i].req.RecvRequest?
    requires Allowed(s.log, s.ops, s.listenFd, Completes(i, res, data))
    ensures OperationOk(Complete(s, i, res, data), i)
  {
    var t := Complete(s, i, res, data);
    hide IsOpen, TagOf;
    assert data == t.clients[s.log[i].req.fd].buf[..|data|];
  }

  lemma SendCompletedOk(s: State, i: nat, res: int)
    requires i in s.ops && IsFd(s.listenFd) && OperationOk(s, i) && s.log[i].req.SendRequest?
    requires Allowed(s.log, s.ops, s.listenFd, Completes(i, res, []))
    ensures OperationOk(Complete(s, i, res, []), i)
  {
    var t := Complete(s, i, res, []);
    hide IsOpen, TagOf;
    if res > 0 {
      var bytes := s.log[i].req.bytes;
      assert bytes == bytes[..res] + bytes[res..];
      assert t.streams[s.log[i].req.fd].sent + bytes[res..] == s.streams[s.log[i].req.fd].sent + bytes;
    }
  }

  lemma CompletedOk(s: State, i: nat, res: int, data: seq<Byte>)
    requires i in s.ops && IsFd(s.listenFd) && OperationOk(s, i)
    requires Allowed(s.log, s.ops, s.listenFd, Completes(i, res, data))
    ensures OperationOk(Complete(s, i, res, data), i)
  {
    match s.log[i].req
    case AcceptRequest =>
    case RecvRequest(_) => RecvCompletedOk(s, i, res, data);
    case SendRequest(_, _) => SendCompletedOk(s, i, res);
  }

  ghost function Apply(s: State, a: Action): State
    requires Inv(s) && Allowed(s.log, s.ops, s.listenFd, a)
  {
    match a
    case Completes(i, res, data) => CompleteDefined(s, i); Complete(s, i, res, data)
    case Takes(i) => TakeCompletion(s, i)
  }

  lemma ApplyKeepsInv(s: State, a: Action)
    requires Inv(s) && Allowed(s.log, s.ops, s.listenFd, a)
    ensures Inv(Apply(s, a))
  {
    match a
    case Completes(i, res, data) => CompleteKeepsInv(s, i, res, data);
    case Takes(i) => TakeKeepsInv(s, i);
  }

  ghost predicate Reaches(s: State, acts: seq<Action>, t: State)
    requires Inv(s)
    decreases |acts|
  {
    if acts == [] then s == t
    else
      && Allowed(s.log, s.ops, s.listenFd, acts[0])
      && (ApplyKeepsInv(s, acts[0]); Reaches(Apply(s, acts[0]), acts[1..], t))
  }

  lemma {:induction false} ReachesKeepsInv(s: State, acts: seq<Action>, t: State)
    requires Inv(s) && Reaches(s, acts, t)
    ensures Inv(t)
    decreases |acts|
  {
    if acts != [] {
      ApplyKeepsInv(s, acts[0]);
      ReachesKeepsInv(Apply(s, acts[0]), acts[1..], t);
    }
  }

  lemma {:induction false} ReachesAppend(s: State, acts: seq<Action>, t: State, a: Action)
    requires Inv(s) && Reaches(s, acts, t) && Inv(t) && Allowed(t.log, t.ops, t.listenFd, a)
    ensures Reaches(s, acts + [a], Apply(t, a)) && Inv(Apply(t, a))
    decreases |acts|
  {
    hide Allowed, Apply, Inv;
    if acts == [] {
      ApplyKeepsInv(s, a);
      assert (acts + [a])[1..] == [];
    } else {
      ApplyKeepsInv(s, acts[0]);
      ReachesAppend(Apply(s, acts[0]), acts[1..], t, a);
      assert (acts + [a])[1..] == acts[1..] + [a];
    }
  }

  lemma InitInv(listenFd: int)
    requires IsFd(listenFd)
    ensures Inv(Init(listenFd))
  {
    var s := State(listenFd, map[], [], map[], map[], map[]);
    assert Almost(s, {listenFd}, map[]);
    QueueAcceptKeepsInv(s, map[]);
  }

  /** The party an outstanding operation serves. */
  ghost predicate Serves(s: State, i: nat, p: int) {
    i in s.ops && i < |s.log| && s.log[i].Submit? && Party(s.listenFd, s.log[i].req) == p
  }

  /** In every reachable state exactly one operation serves the listener and each connected client, and nobody else
      is served; the connected descriptors are the open ones. */
  lemma OneOperationPerClient(listenFd: int, acts: seq<Action>, s: State, p: int)
    requires IsFd(listenFd) && (InitInv(listenFd); Reaches(Init(listenFd), acts, s))
    ensures (p in s.clients || p == s.listenFd) <==> exists i :: Serves(s, i, p)
    ensures forall i, j | Serves(s, i, p) && Serves(s, j, p) :: i == j
    ensures p in s.clients <==> IsOpen(s.log, p)
    ensures forall i | i in s.ops && i in s.tags && Serves(s, i, p) :: EchoCodec.DecodeFd(s.tags[i]) == p
  {
    InitInv(listenFd);
    ReachesKeepsInv(Init(listenFd), acts, s);
    var current :| Almost(s, {}, current);
    if p in s.clients || p == s.listenFd {
      assert Serves(s, current[p], p);
    }
    forall i | i in s.ops && i in s.tags && Serves(s, i, p) ensures EchoCodec.DecodeFd(s.tags[i]) == p {
      TakeDefined(s, i);
    }
  }

  /** What a connection still owes its peer: the unsent tail of the buffer it holds. */
  ghost function Unsent(s: State, i: nat): seq<Byte>
    requires i in s.ops && i < |s.log| && s.log[i].Submit? && !s.log[i].req.AcceptRequest?
    requires IsFd(s.listenFd) && s.log[i].req.fd in s.clients && OperationOk(s, i)
  {
    var c := s.clients[s.log[i].req.fd];
    var moved := if s.ops[i].Done? && s.ops[i].res > 0 then s.ops[i].res else 0;
    if s.log[i].req.RecvRequest? then c.buf[..moved] else c.buf[c.sendOffset + moved..c.sendLen]
  }

  /** On every connection the bytes sent are a prefix of those received. The stream of a closed connection stays until
      its descriptor is accepted again. */
  ghost predicate SentIsPrefix(s: State) {
    forall fd | fd in s.streams :: s.streams[fd].sent <= s.streams[fd].received
  }

  /** A step does not touch the streams of connections that are closed afterwards. */
  lemma ClosedStreams(s: State, a: Action, fd: int)
    requires Inv(s) && Allowed(s.log, s.ops, s.listenFd, a)
    requires fd in Apply(s, a).streams && fd !in Apply(s, a).clients
    ensures fd in s.streams && Apply(s, a).streams[fd] == s.streams[fd]
  {
    match a
    case Completes(i, res, data) =>
      CompleteDefined(s, i);
    case Takes(i) =>
      TakeDispatches(s, i);
      hide Inv, TakeCompletion, Decoded;
  }

  lemma StepKeepsPrefix(s: State, a: Action)
    requires Inv(s) && Allowed(s.log, s.ops, s.listenFd, a) && SentIsPrefix(s)
    ensures Inv(Apply(s, a)) && SentIsPrefix(Apply(s, a))
  {
    ApplyKeepsInv(s, a);
    hide Inv, Apply;
    var t := Apply(s, a);
    forall fd | fd in t.streams ensures t.streams[fd].sent <= t.streams[fd].received {
      if fd in t.clients {
        InvMeansSafety(t, fd);
      } else {
        ClosedStreams(s, a, fd);
      }
    }
  }

  lemma {:induction false} RunKeepsPrefix(s: State, acts: seq<Action>, t: State)
    requires Inv(s) && SentIsPrefix(s) && Reaches(s, acts, t)
    ensures SentIsPrefix(t)
    decreases |acts|
  {
    if acts != [] {
      StepKeepsPrefix(s, acts[0]);
      RunKeepsPrefix(Apply(s, acts[0]), acts[1..], t);
    }
  }

  /** Echo safety: on every connection, open or closed, the bytes sent are a prefix of the bytes received; while it is
      open the rest is exactly the unsent tail of the buffer the client holds. */
  lemma EchoSafety(listenFd: int, acts: seq<Action>, s: State, fd: int)
    requires IsFd(listenFd) && (InitInv(listenFd); Reaches(Init(listenFd), acts, s))
    ensures fd in s.streams ==> s.streams[fd].sent <= s.streams[fd].received
    ensures fd in s.clients ==>
              && fd in s.streams && IsFd(s.listenFd) && fd != s.listenFd
              && exists i :: Serves(s, i, fd) && OperationOk(s, i)
                             && s.streams[fd].received == s.streams[fd].sent + Unsent(s, i)
  {
    InitInv(listenFd);
    ReachesKeepsInv(Init(listenFd), acts, s);
    RunKeepsPrefix(Init(listenFd), acts, s);
    if fd in s.clients { InvMeansSafety(s, fd); }
  }

  lemma InvMeansSafety(s: State, fd: int)
    requires Inv(s) && fd in s.clients
    ensures fd in s.streams && s.streams[fd].sent <= s.streams[fd].received
    ensures IsFd(s.listenFd) && fd != s.listenFd
    ensures exists i :: Serves(s, i, fd) && OperationOk(s, i)
                        && s.streams[fd].received == s.streams[fd].sent + Unsent(s, i)
  {
    var current :| Almost(s, {}, current);
    var i := current[fd];
    assert Serves(s, i, fd) && OperationOk(s, i);
    UnsentIsRest(s, i, fd);
  }

  lemma UnsentIsRest(s: State, i: nat, fd: int)
    requires i in s.ops && IsFd(s.listenFd) && OperationOk(s, i) && Serves(s, i, fd) && fd != s.listenFd
    ensures fd in s.clients && fd in s.streams
    ensures s.streams[fd].received == s.streams[fd].sent + Unsent(s, i)
  {
    var c := s.clients[fd];
    if s.log[i].req.SendRequest? && s.ops[i].Done? && s.ops[i].res > 0 {
      var res := s.ops[i].res;
      assert s.log[i].req.bytes[res..] == c.buf[c.sendOffset + res..c.sendLen];
    }
  }

  // ----- how many submissions a batch queues -----

  const SQ_ENTRIES: nat := 4096

  /** Submissions queued for one completion. */
  function Cost(req: Request, res: int): nat {
    match req
    case AcceptRequest => if res >= 0 then 2 else 1
    case RecvRequest(_) => if res > 0 then 1 else 0
    case SendRequest(_, _) => if res > 0 then 1 else 0
  }

  /** The completions of a batch are distinct ones that are ready. */
  ghost predicate Batch(s: State, batch: seq<nat>) {
    && (forall k | 0 <= k < |batch| :: batch[k] in s.ops && s.ops[batch[k]].Done?
                                      && batch[k] < |s.log| && s.log[batch[k]].Submit?)
    && (forall j, k | 0 <= j < k < |batch| :: batch[j] != batch[k])
  }

  ghost function BatchCost(s: State, batch: seq<nat>): nat
    requires Batch(s, batch)
  {
    if batch == [] then 0
    else
      Cost(s.log[batch[0]].req, s.ops[batch[0]].res) + BatchCost(s, batch[1..])
  }

  /** The client of an outstanding operation is in the table. */
  lemma PartyConnected(s: State, i: nat)
    requires Inv(s) && i in s.ops
    ensures i < |s.log| && s.log[i].Submit?
    ensures !s.log[i].req.AcceptRequest? ==> s.log[i].req.fd in s.clients
  {
    assert OperationOk(s, i);
  }

  /** What the dispatcher sees: the operation and the descriptor of request `req`, with a legal result. */
  ghost predicate Decoded(s: State, ud: Word64, res: int, req: Request) {
    && IsFd(s.listenFd) && res < 0x8000_0000
    && match req
       case AcceptRequest => EchoCodec.DecodeOp(ud) == EchoCodec.Code(EchoCodec.Accept)
       case RecvRequest(fd) =>
         && EchoCodec.DecodeOp(ud) == EchoCodec.Code(EchoCodec.Recv) && EchoCodec.DecodeFd(ud) == fd
         && IsFd(fd) && res <= CLIENT_BUF_SIZE && fd in s.clients
       case SendRequest(fd, _) =>
         && EchoCodec.DecodeOp(ud) == EchoCodec.Code(EchoCodec.Send) && EchoCodec.DecodeFd(ud) == fd
         && IsFd(fd) && fd in s.clients && s.clients[fd].sendLen <= CLIENT_BUF_SIZE
  }

  function HandleRequest(s: State, res: int, req: Request): State
    requires IsFd(s.listenFd) && res < 0x8000_0000
    requires req.RecvRequest? ==> IsFd(req.fd) && res <= CLIENT_BUF_SIZE
    requires req.SendRequest? ==> IsFd(req.fd) && req.fd in s.clients && s.clients[req.fd].sendLen <= CLIENT_BUF_SIZE
  {
    match req
    case AcceptRequest => HandleAccept(s, res)
    case RecvRequest(fd) => HandleRecv(s, fd, res)
    case SendRequest(fd, _) => HandleSend(s, fd, res)
  }

  /** Dispatching on the user_data is dispatching on the request. */
  lemma TakeDispatches(s: State, i: nat)
    requires Inv(s) && i in s.ops && s.ops[i].Done?
    ensures i < |s.log| && s.log[i].Submit? && i in s.tags
    ensures Decoded(s.(ops := s.ops - {i}), s.tags[i], s.ops[i].res, s.log[i].req)
    ensures TakeCompletion(s, i) == HandleRequest(s.(ops := s.ops - {i}), s.ops[i].res, s.log[i].req)
  {
    TakeDefined(s, i);
    PartyConnected(s, i);
  }

  /** What an answered completion adds to the log, and does to the clients. */
  ghost predicate Answers(s: State, t: State, more: Log, clients: set<int>) {
    t.log == s.log + more && t.clients.Keys == clients
  }

  lemma AcceptAnswered(s: State, res: int)
    requires IsFd(s.listenFd) && res < 0x8000_0000
    ensures if res < 0 then Answers(s, HandleAccept(s, res), [Submit(AcceptRequest)], s.clients.Keys)
            else Answers(s, HandleAccept(s, res), [Submit(RecvRequest(res)), Submit(AcceptRequest)],
                         s.clients.Keys + {res})
  {
    hide EchoCodec.Encode;
  }

  lemma RecvAnswered(s: State, fd: int, res: int)
    requires IsFd(fd) && fd in s.clients && res <= CLIENT_BUF_SIZE
    ensures if res <= 0 then Answers(s, HandleRecv(s, fd, res), [CloseFd(fd)], s.clients.Keys - {fd})
            else Answers(s, HandleRecv(s, fd, res), [Submit(SendRequest(fd, s.clients[fd].buf[..res]))], s.clients.Keys)
  {
    hide EchoCodec.Encode;
    assert res > 0 ==> s.clients[fd].buf[0..res] == s.clients[fd].buf[..res];
  }

  lemma SendAnswered(s: State, fd: int, bytes: seq<Byte>, res: int)
    requires IsFd(fd) && fd in s.clients && s.clients[fd].sendOffset < s.clients[fd].sendLen <= CLIENT_BUF_SIZE
    requires bytes == s.clients[fd].buf[s.clients[fd].sendOffset..s.clients[fd].sendLen] && res <= |bytes|
    ensures var t := HandleSend(s, fd, res);
            if res <= 0 then Answers(s, t, [CloseFd(fd)], s.clients.Keys - {fd})
            else if res < |bytes| then Answers(s, t, [Submit(SendRequest(fd, bytes[res..]))], s.clients.Keys)
            else Answers(s, t, [Submit(RecvRequest(fd))], s.clients.Keys)
  {
    hide EchoCodec.Encode;
    var c := s.clients[fd];
    if 0 < res < |bytes| {
      assert bytes[res..] == c.buf[c.sendOffset + res..c.sendLen];
    }
  }

  lemma StepOfClient(s: State, i: nat)
    requires Inv(s) && i in s.ops && s.ops[i].Done?
    ensures i < |s.log| && s.log[i].Submit? && IsFd(s.listenFd) && OperationOk(s, i)
  {
    var current :| Almost(s, {}, current);
  }

  /** What each completion is answered with: an accept, with a recv for the new client and the next accept; data, with
      the send of exactly those bytes; a send, with the send of the bytes that are left of it, or with a recv once none
      is; and an error or the end of the stream, with a close. */
  lemma EachIsAnswered(s: State, i: nat)
    requires Inv(s) && i in s.ops && s.ops[i].Done?
    ensures i < |s.log| && s.log[i].Submit?
    ensures var t, res, clients := TakeCompletion(s, i), s.ops[i].res, s.clients.Keys;
            match s.log[i].req
            case AcceptRequest =>
              if res < 0 then Answers(s, t, [Submit(AcceptRequest)], clients)
              else Answers(s, t, [Submit(RecvRequest(res)), Submit(AcceptRequest)], clients + {res})
            case RecvRequest(fd) =>
              && fd in s.clients && res <= CLIENT_BUF_SIZE
              && (if res <= 0 then Answers(s, t, [CloseFd(fd)], clients - {fd})
                  else Answers(s, t, [Submit(SendRequest(fd, s.clients[fd].buf[..res]))], clients))
            case SendRequest(fd, bytes) =>
              && res <= |bytes|
              && (if res <= 0 then Answers(s, t, [CloseFd(fd)], clients - {fd})
                  else if res < |bytes| then Answers(s, t, [Submit(SendRequest(fd, bytes[res..]))], clients)
                  else Answers(s, t, [Submit(RecvRequest(fd))], clients))
  {
    StepOfClient(s, i);
    hide Inv, TakeCompletion, HandleAccept, HandleRecv, HandleSend, Answers, IsOpen, TagOf;
    TakeDispatches(s, i);
    var s1 := s.(ops := s.ops - {i});
    match s.log[i].req {
      case AcceptRequest => AcceptAnswered(s1, s.ops[i].res);
      case RecvRequest(fd) => RecvAnswered(s1, fd, s.ops[i].res);
      case SendRequest(fd, bytes) => SendAnswered(s1, fd, bytes, s.ops[i].res);
    }
    SameAnswers(s1, s, TakeCompletion(s, i));
  }

  lemma SameAnswers(s: State, s': State, t: State)
    requires s.log == s'.log
    ensures forall more, clients :: Answers(s, t, more, clients) <==> Answers(s', t, more, clients)
  {
  }


  lemma TakeKeepsOthers(s: State, i: nat, j: nat)
    requires Inv(s) && i in s.ops && s.ops[i].Done? && j in s.ops && j != i
    ensures var t := TakeCompletion(s, i);
            j in t.ops && t.ops[j] == s.ops[j] && j < |s.log| <= |t.log| && t.log[j] == s.log[j] && s.log[j].Submit?
  {
    hide Inv, TakeCompletion, Decoded;
    TakeDispatches(s, i);
    TakeDefined(s, j);
  }

  /** The cost of the rest of a batch does not depend on what was taken before. */
  lemma {:induction false} CostOfRest(s: State, i: nat, batch: seq<nat>)
    requires Inv(s) && i in s.ops && s.ops[i].Done? && Batch(s, batch) && i !in batch
    ensures Batch(TakeCompletion(s, i), batch) && BatchCost(TakeCompletion(s, i), batch) == BatchCost(s, batch)
  {
    if batch != [] {
      CostOfRest(s, i, batch[1..]);
      forall k | 0 <= k < |batch|
        ensures var t := TakeCompletion(s, i);
                var j := batch[k];
                j in t.ops && t.ops[j] == s.ops[j] && j < |t.log| && t.log[j] == s.log[j]
      {
        TakeKeepsOthers(s, i, batch[k]);
      }
    }
  }

  /** A batch holds the accept at most once. */
  lemma OneAcceptInBatch(s: State, batch: seq<nat>)
    requires Inv(s) && Batch(s, batch) && batch != [] && s.log[batch[0]] == Submit(AcceptRequest)
    ensures forall k | 0 < k < |batch| :: s.log[batch[k]] != Submit(AcceptRequest)
  {
    var current :| Almost(s, {}, current);
    forall k | 0 < k < |batch| ensures s.log[batch[k]] != Submit(AcceptRequest) {
      assert batch[k] != batch[0];
    }
  }

  /** At most one completion of a batch is an accept, so only one costs two. */
  lemma {:induction false} BatchCostBound(s: State, batch: seq<nat>)
    requires Inv(s) && Batch(s, batch)
    ensures BatchCost(s, batch)
            <= |batch| + if exists k :: 0 <= k < |batch| && s.log[batch[k]] == Submit(AcceptRequest) then 1 else 0
    ensures BatchCost(s, batch) <= |batch| + 1
  {
    if batch != [] {
      hide Inv;
      BatchCostBound(s, batch[1..]);
      if s.log[batch[0]] == Submit(AcceptRequest) {
        OneAcceptInBatch(s, batch);
      } else if k :| 0 <= k < |batch[1..]| && s.log[batch[1..][k]] == Submit(AcceptRequest) {
        assert s.log[batch[k + 1]] == Submit(AcceptRequest);
      }
    }
  }

  /** When everything a full batch reports succeeds, the bound is reached. */
  lemma {:induction false} BatchCostReached(s: State, batch: seq<nat>)
    requires Inv(s) && Batch(s, batch)
    requires forall k | 0 <= k < |batch| :: s.ops[batch[k]].res > 0
    ensures BatchCost(s, batch)
            == |batch| + if exists k :: 0 <= k < |batch| && s.log[batch[k]] == Submit(AcceptRequest) then 1 else 0
  {
    if batch != [] {
      BatchCostReached(s, batch[1..]);
      BatchCostBound(s, batch);
      if k :| 0 <= k < |batch[1..]| && s.log[batch[1..][k]] == Submit(AcceptRequest) {
        assert s.log[batch[k + 1]] == Submit(AcceptRequest);
      }
      if k :| 0 <= k < |batch| && s.log[batch[k]] == Submit(AcceptRequest) {
        assert k > 0 ==> s.log[batch[1..][k - 1]] == Submit(AcceptRequest);
      }
    }
  }

  lemma OperationCount(s: State)
    requires Inv(s)
    ensures |s.ops.Keys| == |s.clients.Keys| + 1
  {
    var current :| Almost(s, {}, current);
    ServedCount(s, current);
  }

  lemma ServedCount(s: State, current: map<int, nat>)
    requires Served(s, {}, current) && s.listenFd !in s.clients
    ensures |s.ops.Keys| == |s.clients.Keys| + 1
  {
    assert current.Keys == s.clients.Keys + {s.listenFd};
    assert forall p | p in current :: Party(s.listenFd, s.log[current[p]].req) == p;
    forall i | i in s.ops ensures i in current.Values {
      var p := Party(s.listenFd, s.log[i].req);
      assert p in current && current[p] == i;
    }
    assert current.Values == s.ops.Keys;
    Counting.InjectiveMapCount(current);
  }

  lemma BatchSize(s: State, batch: seq<nat>)
    requires Inv(s) && Batch(s, batch)
    ensures |batch| <= |s.clients.Keys| + 1
    ensures (forall i | i in s.ops :: i in batch) ==> |batch| == |s.clients.Keys| + 1
  {
    OperationCount(s);
    Counting.DistinctCount(batch);
    var ids := set i | i in batch;
    assert forall i | i in ids :: exists k :: 0 <= k < |batch| && batch[k] == i;
    assert ids <= s.ops.Keys;
    if forall i | i in s.ops :: i in batch {
      assert ids == s.ops.Keys;
    }
    Counting.SubsetCount(ids, s.ops.Keys);
  }

  /** The exact bound: with at most 4094 clients at the start of a round no batch needs more than the 4096 entries of
      the submission queue; with more, the batch in which everything has completed successfully does. */
  lemma QueueBound(s: State, batch: seq<nat>)
    requires Inv(s) && Batch(s, batch)
    ensures |s.clients.Keys| <= SQ_ENTRIES - 2 ==> BatchCost(s, batch) <= SQ_ENTRIES
    ensures |s.clients.Keys| > SQ_ENTRIES - 2 && (forall i | i in s.ops :: i in batch)
              && (forall k | 0 <= k < |batch| :: s.ops[batch[k]].res > 0)
            ==> BatchCost(s, batch) > SQ_ENTRIES
  {
    BatchSize(s, batch);
    BatchCostBound(s, batch);
    if (forall i | i in s.ops :: i in batch) && forall k | 0 <= k < |batch| :: s.ops[batch[k]].res > 0 {
      BatchCostReached(s, batch);
      var current :| Almost(s, {}, current);
      var a := current[s.listenFd];
      assert OperationOk(s, a) && a in batch;
      var k :| 0 <= k < |batch| && batch[k] == a;
      assert s.log[batch[k]] == Submit(AcceptRequest);
    }
  }

  lemma EmptyBatch(s: State, batch: seq<nat>)
    requires batch == []
    ensures Batch(s, batch) && BatchCost(s, batch) == 0
  {
  }

  /** Splitting the next completion off a batch. */
  /** A batch as steps of a run. */
  function Taken(batch: seq<nat>): seq<Action> {
    seq(|batch|, k requires 0 <= k < |batch| => Takes(batch[k]))
  }

  /** Taking completion `i` is a step, after which it is no longer outstanding, and nothing submitted so far becomes
      so. */
  lemma TakeIsStep(s: State, i: nat)
    requires Inv(s) && i in s.ops && s.ops[i].Done?
    ensures Allowed(s.log, s.ops, s.listenFd, Takes(i)) && Apply(s, Takes(i)) == TakeCompletion(s, i)
    ensures var t := TakeCompletion(s, i);
            i < |s.log| <= |t.log| && i !in t.ops && forall j | j in t.ops && j < |s.log| :: j in s.ops
  {
    hide Inv, TakeCompletion, Decoded;
    TakeDispatches(s, i);
  }

  lemma RunTakes(s0: State, batch: seq<nat>, j: nat, s: State)
    requires Inv(s0) && j < |batch| && Inv(s) && Reaches(s0, Taken(batch[..j]), s)
    requires batch[j] in s.ops && s.ops[batch[j]].Done?
    ensures Reaches(s0, Taken(batch[..j + 1]), TakeCompletion(s, batch[j]))
  {
    hide Inv, Reaches, TakeCompletion;
    TakeIsStep(s, batch[j]);
    ReachesAppend(s0, Taken(batch[..j]), s, Takes(batch[j]));
    assert Taken(batch[..j]) + [Takes(batch[j])] == Taken(batch[..j + 1]);
  }

  lemma BatchNext(s: State, batch: seq<nat>, j: nat)
    requires j < |batch| && Batch(s, batch[j..])
    ensures batch[j] in s.ops && s.ops[batch[j]].Done? && batch[j] < |s.log| && s.log[batch[j]].Submit?
    ensures Batch(s, batch[j + 1..]) && batch[j] !in batch[j + 1..]
    ensures BatchCost(s, batch[j..]) == Cost(s.log[batch[j]].req, s.ops[batch[j]].res) + BatchCost(s, batch[j + 1..])
  {
    var rest := batch[j..];
    assert rest[0] == batch[j] && rest[1..] == batch[j + 1..];
  }

  // ----- the program -----

  /** The table of clients and the ring: `log`, `tags` and `ops` hold what was submitted and not yet taken back,
      `queued` counts the submission queue entries in use since the last submit. */
  class Server {
    const listenFd: int
    var clients: map<int, Client>
    var queued: nat
    var log: Log
    var tags: map<nat, Word64>
    var ops: map<nat, Stage>
    ghost var streams: map<int, Stream>

    ghost function View(): State
      reads this
    {
      State(listenFd, clients, log, tags, ops, streams)
    }

    constructor (listenFd: int)
      requires IsFd(listenFd)
      ensures View() == Init(listenFd) && Inv(View()) && queued == 1
    {
      this.listenFd := listenFd;
      clients, queued, streams := map[], 1, map[];
      log := [Submit(AcceptRequest)];
      tags := map[0 := EchoCodec.Encode(EchoCodec.Accept, listenFd)];
      ops := map[0 := InFlight];
      InitInv(listenFd);
    }

    /** `get_sqe` and the preparation of the entry; fails when the submission queue is full. */
    method Prepare(req: Request, op: EchoCodec.Op, fd: int) returns (ok: bool)
      requires IsFd(fd)
      modifies this`queued, this`log, this`tags, this`ops
      ensures ok <==> old(queued) < SQ_ENTRIES
      ensures ok ==> queued == old(queued) + 1 && View() == Queue(old(View()), req, op, fd)
      ensures !ok ==> queued == old(queued) && View() == old(View())
    {
      if queued >= SQ_ENTRIES {
        return false;
      }
      queued := queued + 1;
      ops, tags, log := ops[|log| := InFlight], tags[|log| := EchoCodec.Encode(op, fd)], log + [Submit(req)];
      return true;
    }

    method CloseClient(fd: int)
      modifies this`clients, this`log
      ensures View() == Close(old(View()), fd)
    {
      log, clients := log + [CloseFd(fd)], clients - {fd};
    }

    method OnAccept(res: int) returns (ok: bool)
      requires IsFd(listenFd) && res < 0x8000_0000
      modifies this
      ensures ok <==> old(queued) + Cost(AcceptRequest, res) <= SQ_ENTRIES
      ensures ok ==> View() == HandleAccept(old(View()), res) && queued == old(queued) + Cost(AcceptRequest, res)
    {
      if res >= 0 {
        clients := clients[res := Client(res, ZeroBuffer(), 0, 0)];
        streams := streams[res := Stream([], [])];
        ok := Prepare(RecvRequest(res), EchoCodec.Recv, res);
        if !ok {
          return;
        }
      }
      ok := Prepare(AcceptRequest, EchoCodec.Accept, listenFd);
    }

    method OnRecv(fd: int, res: int) returns (ok: bool)
      requires IsFd(fd) && res <= CLIENT_BUF_SIZE && fd in clients
      modifies this
      ensures ok <==> old(queued) + Cost(RecvRequest(fd), res) <= SQ_ENTRIES || res <= 0
      ensures ok ==> View() == HandleRecv(old(View()), fd, res) && queued == old(queued) + Cost(RecvRequest(fd), res)
    {
      if res <= 0 {
        CloseClient(fd);
        return true;
      }
      var c := clients[fd].(sendLen := res, sendOffset := 0);
      clients := clients[fd := c];
      ok := Prepare(SendRequest(fd, c.buf[0..c.sendLen]), EchoCodec.Send, fd);
    }

    method OnSend(fd: int, res: int) returns (ok: bool)
      requires IsFd(fd) && fd in clients && clients[fd].sendLen <= CLIENT_BUF_SIZE
      modifies this
      ensures ok <==> old(queued) + Cost(SendRequest(fd, []), res) <= SQ_ENTRIES || res <= 0
      ensures ok ==> View() == HandleSend(old(View()), fd, res)
      ensures ok ==> queued == old(queued) + Cost(SendRequest(fd, []), res)
    {
      if res <= 0 {
        CloseClient(fd);
        return true;
      }
      var c := clients[fd].(sendOffset := clients[fd].sendOffset + res);
      clients := clients[fd := c];
      if c.sendOffset < c.sendLen {
        ok := Prepare(SendRequest(fd, c.buf[c.sendOffset..c.sendLen]), EchoCodec.Send, fd);
      } else {
        ok := Prepare(RecvRequest(fd), EchoCodec.Recv, fd);
      }
    }

    /** `handle_cqe`: dispatches on the decoded user_data. */
    method Dispatch(ud: Word64, res: int, ghost req: Request) returns (ok: bool)
      requires Decoded(View(), ud, res, req)
      modifies this
      ensures ok <==> old(queued) + Cost(req, res) <= SQ_ENTRIES || Cost(req, res) == 0
      ensures ok ==> View() == HandleRequest(old(View()), res, req) && queued == old(queued) + Cost(req, res)
    {
      hide EchoCodec.DecodeOp, EchoCodec.DecodeFd;
      var op, fd := EchoCodec.DecodeOp(ud), EchoCodec.DecodeFd(ud);
      if op == EchoCodec.Code(EchoCodec.Accept) {
        ok := OnAccept(res);
      } else if op == EchoCodec.Code(EchoCodec.Recv) {
        ok := OnRecv(fd, res);
      } else {
        ok := OnSend(fd, res);
      }
    }

    /** Takes one completion off the ring and handles it. */
    method TakeOne(i: nat) returns (ok: bool)
      requires Inv(View()) && i in ops && ops[i].Done? && queued <= SQ_ENTRIES
      modifies this
      ensures i < |old(log)| && old(log)[i].Submit?
      ensures ok <==> old(queued) + Cost(old(log)[i].req, old(ops)[i].res) <= SQ_ENTRIES
      ensures ok ==> Inv(View()) && View() == TakeCompletion(old(View()), i)
                     && queued == old(queued) + Cost(old(log)[i].req, old(ops)[i].res)
    {
      hide Inv, TakeCompletion, Decoded, HandleRequest;
      TakeDispatches(View(), i);
      TakeKeepsInv(View(), i);
      var ud, res := tags[i], ops[i].res;
      ops := ops - {i};
      ok := Dispatch(ud, res, log[i].req);
    }

    /** One round of the event loop: everything queued has been submitted, and the completions found ready are taken,
        in their order and each once. With at most 4094 clients at the start the submission queue is never found
        full. */
    method Round(batch: seq<nat>) returns (ok: bool)
      requires Inv(View()) && Batch(View(), batch)
      modifies this
      ensures ok <==> BatchCost(old(View()), batch) <= SQ_ENTRIES
      ensures |old(clients).Keys| <= SQ_ENTRIES - 2 ==> ok
      ensures ok ==> Inv(View()) && queued == BatchCost(old(View()), batch)
      ensures ok ==> Reaches(old(View()), Taken(batch), View())
      ensures ok ==> forall k | 0 <= k < |batch| :: batch[k] !in ops
    {
      hide Inv, TakeCompletion, Batch, BatchCost, Cost, Reaches, Taken;
      QueueBound(View(), batch);
      queued := 0;
      ghost var s0, total := View(), BatchCost(View(), batch);
      assert batch[0..] == batch;
      NothingTaken(s0, batch);
      var j := 0;
      while j < |batch|
        invariant 0 <= j <= |batch| && Inv(View()) && Batch(View(), batch[j..])
        invariant queued + BatchCost(View(), batch[j..]) == total
        invariant queued <= SQ_ENTRIES
        invariant Reaches(s0, Taken(batch[..j]), View())
        invariant forall k | 0 <= k < j :: batch[k] !in ops && batch[k] < |log|
      {
        BatchNext(View(), batch, j);
        CostOfRest(View(), batch[j], batch[j + 1..]);
        RunTakes(s0, batch, j, View());
        TakeIsStep(View(), batch[j]);
        ok := TakeOne(batch[j]);
        if !ok {
          return;
        }
        j := j + 1;
      }
      EmptyBatch(View(), batch[j..]);
      assert batch[..j] == batch;
      return true;
    }
  }

  lemma NothingTaken(s: State, batch: seq<nat>)
    requires Inv(s)
    ensures Reaches(s, Taken(batch[..0]), s)
  {
    hide Inv;
    assert Taken(batch[..0]) == [];
  }
}
