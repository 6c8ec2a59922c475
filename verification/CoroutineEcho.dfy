/** The coroutine server: one coroutine per client and one that accepts, each suspended at an await. */
module CoroutineEcho {
  import opened Words
  import opened Wrappers
  import opened EchoKernel

  /** A suspended client coroutine: its program counter and its locals. */
  datatype Frame =
    | AtRecv(fd: int, buf: Buffer)
    | AtSend(fd: int, buf: Buffer, n: nat, totalSent: nat)

  /** What a resumed coroutine does up to its next await or its end, given the result of the awaited operation. */
  function ResumeFrame(f: Frame, res: int): (r: (Option<Frame>, Log))
    requires res <= CLIENT_BUF_SIZE
    requires f.AtSend? ==> f.n <= CLIENT_BUF_SIZE
  {
    match f
    case AtRecv(fd, buf) =>
      if res <= 0 then (None, [CloseFd(fd)])
      else (Some(AtSend(fd, buf, res, 0)), [Submit(SendRequest(fd, buf[..res]))])
    case AtSend(fd, buf, n, totalSent) =>
      if res <= 0 then (None, [CloseFd(fd)])
      else if totalSent + res < n
      then (Some(AtSend(fd, buf, n, totalSent + res)), [Submit(SendRequest(fd, buf[totalSent + res..n]))])
      else (Some(AtRecv(fd, buf)), [Submit(RecvRequest(fd))])
  }

  /** Received bytes enter the buffer in the frame. */
  function FillFrame(f: Frame, data: seq<Byte>): Frame
    requires |data| <= CLIENT_BUF_SIZE
  {
    if f.AtRecv? then f.(buf := Fill(f.buf, data)) else f
  }

  // ----- the coroutine as the program writes it -----

  /** The result of one await, with the bytes a recv delivered. */
  datatype Input = Input(res: int, data: seq<Byte>)

  ghost predicate ValidInput(x: Input) {
    x.res <= CLIENT_BUF_SIZE && |x.data| <= CLIENT_BUF_SIZE
  }

  /** What a suspended coroutine does when it is resumed with one input after the other. */
  function Trace(f: Frame, inputs: seq<Input>): Log
    requires forall k | 0 <= k < |inputs| :: ValidInput(inputs[k])
    requires f.AtSend? ==> f.n <= CLIENT_BUF_SIZE
    decreases |inputs|
  {
    if inputs == [] then []
    else
      assert ValidInput(inputs[0]);
      var r := ResumeFrame(FillFrame(f, inputs[0].data), inputs[0].res);
      r.1 + if r.0.Some? then Trace(r.0.value, inputs[1..]) else []
  }

  /** The operation a frame is suspended at. */
  function Pending(f: Frame): Request
    requires f.AtSend? ==> f.totalSent <= f.n <= CLIENT_BUF_SIZE
  {
    match f
    case AtRecv(fd, _) => RecvRequest(fd)
    case AtSend(fd, buf, n, totalSent) => SendRequest(fd, buf[totalSent..n])
  }

  ghost predicate Suspended(f: Frame, inputs: seq<Input>) {
    && (forall k | 0 <= k < |inputs| :: ValidInput(inputs[k]))
    && (f.AtSend? ==> f.totalSent < f.n <= CLIENT_BUF_SIZE)
  }

  /** What a coroutine does that is about to await. */
  ghost function Awaiting(f: Frame, inputs: seq<Input>): Log
    requires Suspended(f, inputs)
  {
    [Submit(Pending(f))] + Trace(f, inputs)
  }

  /** One await: its submission, then what follows the input. */
  lemma AwaitOne(done: Log, f: Frame, inputs: seq<Input>)
    requires Suspended(f, inputs) && inputs != []
    ensures ValidInput(inputs[0])
    ensures var r := ResumeFrame(FillFrame(f, inputs[0].data), inputs[0].res);
            match r.0
            case None => done + Awaiting(f, inputs) == done + [Submit(Pending(f))] + r.1
            case Some(g) =>
              && Suspended(g, inputs[1..]) && r.1 == [Submit(Pending(g))]
              && done + Awaiting(f, inputs) == done + [Submit(Pending(f))] + Awaiting(g, inputs[1..])
  {
    assert ValidInput(inputs[0]);
    var r := ResumeFrame(FillFrame(f, inputs[0].data), inputs[0].res);
    ResumeAwaits(FillFrame(f, inputs[0].data), inputs[0].res);
    var later := Trace(f, inputs);
    assert later == r.1 + if r.0.Some? then Trace(r.0.value, inputs[1..]) else [];
    assert done + ([Submit(Pending(f))] + later) == done + [Submit(Pending(f))] + later;
  }

  /** With no input left it stays suspended. */
  lemma AwaitForever(done: Log, f: Frame, inputs: seq<Input>)
    requires Suspended(f, inputs) && inputs == []
    ensures done + Awaiting(f, inputs) == done + [Submit(Pending(f))]
  {
  }

  /** A coroutine that does not end awaits its next operation. */
  lemma ResumeAwaits(f: Frame, res: int)
    requires res <= CLIENT_BUF_SIZE && (f.AtSend? ==> f.totalSent < f.n <= CLIENT_BUF_SIZE)
    ensures var r := ResumeFrame(f, res);
            r.0.Some? ==>
              var g := r.0.value;
              && (g.AtSend? ==> g.totalSent < g.n <= CLIENT_BUF_SIZE)
              && r.1 == [Submit(Pending(g))]
  {
  }

  /** How the send loop of `client_handler` ends: everything sent, or the coroutine over, or suspended for good. */
  datatype SendLoop = AllSent | Over

  /** The inner loop: sends until `n` bytes are out. */
  method SendAll(fd: int, buf: Buffer, n: nat, inputs: seq<Input>, start: nat, before: Log)
    returns (end: SendLoop, effects: Log, k: nat)
    requires (forall j | 0 <= j < |inputs| :: ValidInput(inputs[j])) && start <= |inputs|
    requires 0 < n <= CLIENT_BUF_SIZE
    ensures start <= k <= |inputs|
    ensures var goal := before + Awaiting(AtSend(fd, buf, n, 0), inputs[start..]);
            goal == if end.Over? then effects else effects + Awaiting(AtRecv(fd, buf), inputs[k..])
  {
    ghost var goal := before + Awaiting(AtSend(fd, buf, n, 0), inputs[start..]);
    hide Awaiting;
    effects, k := before, start;
    var totalSent := 0;
    while totalSent < n
      invariant start <= k <= |inputs|
      invariant goal == effects + Awaiting(if totalSent < n then AtSend(fd, buf, n, totalSent) else AtRecv(fd, buf),
                                           inputs[k..])
      decreases n - totalSent
    {
      ghost var rest := inputs[k..];
      if k == |inputs| {
        AwaitForever(effects, AtSend(fd, buf, n, totalSent), rest);
        return Over, effects + [Submit(SendRequest(fd, buf[totalSent..n]))], k;
      }
      AwaitOne(effects, AtSend(fd, buf, n, totalSent), rest);
      effects := effects + [Submit(SendRequest(fd, buf[totalSent..n]))];
      var sent := inputs[k].res;
      k := k + 1;
      assert rest[1..] == inputs[k..];
      if sent <= 0 {
        return Over, effects + [CloseFd(fd)], k;
      }
      totalSent := totalSent + sent;
    }
    return AllSent, effects, k;
  }

  /** `client_handler`. Awaits take the inputs in turn; when they run out the coroutine stays suspended. Its effects
      are those of the frame machine. */
  method ClientHandler(fd: int, inputs: seq<Input>) returns (effects: Log)
    requires forall k | 0 <= k < |inputs| :: ValidInput(inputs[k])
    ensures effects != [] && effects[0] == Submit(RecvRequest(fd))
    ensures effects[1..] == Trace(AtRecv(fd, ZeroBuffer()), inputs)
  {
    var buf := ZeroBuffer();
    ghost var goal := Awaiting(AtRecv(fd, buf), inputs);
    assert goal == [Submit(RecvRequest(fd))] + Trace(AtRecv(fd, ZeroBuffer()), inputs);
    hide Awaiting, Trace;
    effects := [];
    var k := 0;
    assert inputs[0..] == inputs;
    while true
      invariant 0 <= k <= |inputs|
      invariant goal == effects + Awaiting(AtRecv(fd, buf), inputs[k..])
      decreases |inputs| - k
    {
      ghost var rest := inputs[k..];
      if k == |inputs| {
        AwaitForever(effects, AtRecv(fd, buf), rest);
        return effects + [Submit(RecvRequest(fd))];
      }
      AwaitOne(effects, AtRecv(fd, buf), rest);
      effects := effects + [Submit(RecvRequest(fd))];
      var n := inputs[k].res;
      buf := Fill(buf, inputs[k].data);
      k := k + 1;
      assert rest[1..] == inputs[k..];
      if n <= 0 {
        return effects + [CloseFd(fd)];
      }
      var end;
      end, effects, k := SendAll(fd, buf, n, inputs, k, effects);
      if end.Over? {
        return;
      }
    }
  }

  // ----- the server -----

  const ACCEPT_LOOP: nat := 0

  /** `tags` maps submissions to the coroutine that awaits them; handle 0 is the accept loop. */
  datatype State = State(
    listenFd: int,
    frames: map<nat, Frame>,
    nextHandle: nat,
    log: Log,
    tags: map<nat, nat>,
    ops: map<nat, Stage>)

  function Await(s: State, req: Request, handle: nat): State {
    s.(log := s.log + [Submit(req)], tags := s.tags[|s.log| := handle], ops := s.ops[|s.log| := InFlight])
  }

  function Init(listenFd: int): State {
    Await(State(listenFd, map[], 1, [], map[], map[]), AcceptRequest, ACCEPT_LOOP)
  }

  /** `accept_loop`: a new client runs to its first await before the loop accepts again. */
  function ResumeAccept(s: State, res: int): State {
    if res < 0 then Await(s, AcceptRequest, ACCEPT_LOOP)
    else
      var h := s.nextHandle;
      var s1 := s.(frames := s.frames[h := AtRecv(res, ZeroBuffer())], nextHandle := h + 1);
      Await(Await(s1, RecvRequest(res), h), AcceptRequest, ACCEPT_LOOP)
  }

  function ResumeClient(s: State, h: nat, res: int): State
    requires h in s.frames && res <= CLIENT_BUF_SIZE
    requires s.frames[h].AtSend? ==> s.frames[h].n <= CLIENT_BUF_SIZE
  {
    var r := ResumeFrame(s.frames[h], res);
    match r.0
    case None => s.(frames := s.frames - {h}, log := s.log + r.1)
    case Some(f) =>
      s.(frames := s.frames[h := f], log := s.log + r.1,
         tags := s.tags[|s.log| := h], ops := s.ops[|s.log| := InFlight])
  }

  /** The frame an operation resumes is live, suspended at that kind of operation. */
  predicate Awaited(s: State, i: nat) {
    && i < |s.log| && s.log[i].Submit? && i in s.tags
    && match s.log[i].req
       case AcceptRequest => s.tags[i] == ACCEPT_LOOP
       case RecvRequest(fd) => s.tags[i] in s.frames && s.frames[s.tags[i]].AtRecv? && s.frames[s.tags[i]].fd == fd
       case SendRequest(fd, _) =>
         && s.tags[i] in s.frames && s.frames[s.tags[i]].AtSend? && s.frames[s.tags[i]].fd == fd
         && s.frames[s.tags[i]].n <= CLIENT_BUF_SIZE
  }

  function Apply(s: State, a: Action): State
    requires Awaited(s, a.i)
    requires a.Takes? ==> a.i in s.ops && s.ops[a.i].Done?
    requires a.Takes? && !s.log[a.i].req.AcceptRequest? ==> s.ops[a.i].res <= CLIENT_BUF_SIZE
    requires a.Completes? ==> |a.data| <= CLIENT_BUF_SIZE
  {
    match a
    case Completes(i, res, data) =>
      var s1 := s.(ops := s.ops[i := Done(res)]);
      if s.log[i].req.RecvRequest?
      then s1.(frames := s.frames[s.tags[i] := FillFrame(s.frames[s.tags[i]], data)])
      else s1
    case Takes(i) =>
      var s1 := s.(ops := s.ops - {i});
      if s.log[i].req.AcceptRequest? then ResumeAccept(s1, s.ops[i].res)
      else ResumeClient(s1, s.tags[i], s.ops[i].res)
  }
}

/** The two servers, given the same completions, do the same. */
module EchoEquivalence {
  import opened Words
  import opened EchoKernel
  import EchoCodec
  import Callback = EchoServer
  import Coroutine = CoroutineEcho

  /** A client's entry in the table is the local state of its coroutine. */
  ghost predicate SameClient(c: Callback.Client, f: Coroutine.Frame, req: Request) {
    match req
    case AcceptRequest => false
    case RecvRequest(fd) => f == Coroutine.AtRecv(fd, c.buf)
    case SendRequest(fd, _) =>
      c.sendOffset < c.sendLen <= CLIENT_BUF_SIZE && f == Coroutine.AtSend(fd, c.buf, c.sendLen, c.sendOffset)
  }

  ghost predicate SameOperation(s: Callback.State, t: Coroutine.State, i: nat)
    requires i < |s.log| && s.log[i].Submit?
  {
    && i in t.tags
    && match s.log[i].req
       case AcceptRequest => t.tags[i] == Coroutine.ACCEPT_LOOP
       case RecvRequest(fd) =>
         t.tags[i] in t.frames && fd in s.clients && SameClient(s.clients[fd], t.frames[t.tags[i]], s.log[i].req)
       case SendRequest(fd, _) =>
         t.tags[i] in t.frames && fd in s.clients && SameClient(s.clients[fd], t.frames[t.tags[i]], s.log[i].req)
  }

  ghost predicate Related(s: Callback.State, t: Coroutine.State) {
    && s.log == t.log && s.ops == t.ops && s.listenFd == t.listenFd
    && (forall h | h in t.frames :: h < t.nextHandle)
    && (forall i | i in s.ops :: i < |s.log| && s.log[i].Submit? && SameOperation(s, t, i))
  }

  lemma RelatedIsAwaited(s: Callback.State, t: Coroutine.State, a: Action)
    requires Callback.Inv(s) && Related(s, t) && Allowed(s.log, s.ops, s.listenFd, a)
    ensures Coroutine.Awaited(t, a.i)
    ensures a.Takes? ==> a.i in t.ops && t.ops[a.i].Done?
    ensures a.Takes? && !t.log[a.i].req.AcceptRequest? ==> t.ops[a.i].res <= CLIENT_BUF_SIZE
    ensures a.Completes? ==> |a.data| <= CLIENT_BUF_SIZE
  {
    assert SameOperation(s, t, a.i);
    assert exists current :: Callback.Almost(s, {}, current);
    assert Callback.OperationOk(s, a.i);
  }

  lemma CompleteKeepsRelated(s: Callback.State, t: Coroutine.State, i: nat, res: int, data: seq<Byte>)
    requires Callback.Inv(s) && Related(s, t) && Allowed(s.log, s.ops, s.listenFd, Completes(i, res, data))
    ensures (RelatedIsAwaited(s, t, Completes(i, res, data));
             Related(Callback.Apply(s, Completes(i, res, data)), Coroutine.Apply(t, Completes(i, res, data))))
  {
    var a := Completes(i, res, data);
    RelatedIsAwaited(s, t, a);
    var s', t' := Callback.Apply(s, a), Coroutine.Apply(t, a);
    var current :| Callback.Almost(s, {}, current);
    forall j | j in s'.ops ensures j < |s'.log| && s'.log[j].Submit? && SameOperation(s', t', j) {
      assert SameOperation(s, t, j) && SameOperation(s, t, i);
      assert current[Callback.Party(s.listenFd, s.log[j].req)] == j;
      assert current[Callback.Party(s.listenFd, s.log[i].req)] == i;
    }
  }

  /** The coroutine's resumption matches the handler's branch. */
  lemma TakeKeepsRelated(s: Callback.State, t: Coroutine.State, i: nat)
    requires Callback.Inv(s) && Related(s, t) && Allowed(s.log, s.ops, s.listenFd, Takes(i))
    ensures (RelatedIsAwaited(s, t, Takes(i));
             Related(Callback.Apply(s, Takes(i)), Coroutine.Apply(t, Takes(i))))
  {
    RelatedIsAwaited(s, t, Takes(i));
    Callback.TakeDispatches(s, i);
    assert SameOperation(s, t, i);
    hide EchoCodec.Encode, EchoCodec.DecodeOp, EchoCodec.DecodeFd;
    var s1, t1 := s.(ops := s.ops - {i}), t.(ops := t.ops - {i});
    match s.log[i].req
    case AcceptRequest =>
      assert Callback.OperationOk(s, i) by { assert exists current :: Callback.Almost(s, {}, current); }
      AcceptRelated(s1, t1, s.ops[i].res);
    case RecvRequest(fd) =>
      OthersElsewhere(s, t, i);
      RecvRelated(s1, t1, t.tags[i], fd, s.ops[i].res);
    case SendRequest(fd, bytes) =>
      OthersElsewhere(s, t, i);
      SendRelated(s1, t1, t.tags[i], fd, s.ops[i].res, bytes);
  }

  /** Outstanding operations other than a client's own concern other clients and other frames. */
  ghost predicate Elsewhere(s: Callback.State, t: Coroutine.State, h: nat, fd: int) {
    forall j | j in s.ops && j < |s.log| && s.log[j].Submit? && !s.log[j].req.AcceptRequest? ::
      s.log[j].req.fd != fd && j in t.tags && t.tags[j] != h
  }

  lemma OthersElsewhere(s: Callback.State, t: Coroutine.State, i: nat)
    requires Callback.Inv(s) && Related(s, t) && i in s.ops && !s.log[i].req.AcceptRequest?
    ensures i in t.tags
    ensures Elsewhere(s.(ops := s.ops - {i}), t.(ops := t.ops - {i}), t.tags[i], s.log[i].req.fd)
  {
    var current :| Callback.Almost(s, {}, current);
    assert SameOperation(s, t, i);
    forall j | j in s.ops && j != i && !s.log[j].req.AcceptRequest?
      ensures s.log[j].req.fd != s.log[i].req.fd && j in t.tags && t.tags[j] != t.tags[i]
    {
      assert SameOperation(s, t, j);
      assert current[Callback.Party(s.listenFd, s.log[j].req)] == j;
      assert current[Callback.Party(s.listenFd, s.log[i].req)] == i;
    }
  }

  lemma AcceptRelated(s: Callback.State, t: Coroutine.State, res: int)
    requires Related(s, t) && Callback.IsFd(s.listenFd) && res < 0x8000_0000
    requires res !in s.clients
    ensures Related(Callback.HandleAccept(s, res), Coroutine.ResumeAccept(t, res))
  {
    var s', t' := Callback.HandleAccept(s, res), Coroutine.ResumeAccept(t, res);
    forall j | j in s'.ops ensures j < |s'.log| && s'.log[j].Submit? && SameOperation(s', t', j) {
      if j in s.ops {
        assert SameOperation(s, t, j);
        assert s'.log[j] == s.log[j];
      }
    }
  }

  /** After the client at frame `h` has moved on, the other operations still match. */
  lemma OthersStillSame(s: Callback.State, t: Coroutine.State, h: nat, fd: int, s': Callback.State, t': Coroutine.State)
    requires Related(s, t) && Elsewhere(s, t, h, fd)
    requires s.log <= s'.log && s'.clients - {fd} == s.clients - {fd}
    requires t'.frames - {h} == t.frames - {h}
    requires forall j | j in t.tags && j < |t.log| :: j in t'.tags && t'.tags[j] == t.tags[j]
    ensures forall j | j in s.ops :: j < |s'.log| && s'.log[j].Submit? && SameOperation(s', t', j)
  {
    forall j | j in s.ops ensures j < |s'.log| && s'.log[j].Submit? && SameOperation(s', t', j) {
      assert SameOperation(s, t, j);
      assert s'.log[j] == s.log[j];
      if !s.log[j].req.AcceptRequest? {
        var g := s.log[j].req.fd;
        assert g in s.clients - {fd} && (s.clients - {fd})[g] == s.clients[g];
        assert t.tags[j] in t.frames - {h} && (t.frames - {h})[t.tags[j]] == t.frames[t.tags[j]];
        assert g in s'.clients - {fd} && t.tags[j] in t'.frames - {h};
      }
    }
  }

  lemma RecvRelated(s: Callback.State, t: Coroutine.State, h: nat, fd: int, res: int)
    requires Related(s, t) && Elsewhere(s, t, h, fd) && h in t.frames && fd in s.clients
    requires SameClient(s.clients[fd], t.frames[h], RecvRequest(fd))
    requires Callback.IsFd(fd) && res <= CLIENT_BUF_SIZE
    ensures Related(Callback.HandleRecv(s, fd, res), Coroutine.ResumeClient(t, h, res))
  {
    hide EchoCodec.Encode, Related, Elsewhere;
    if res <= 0 {
      CloseRelated(s, t, h, fd);
    } else {
      var c := s.clients[fd].(sendLen := res, sendOffset := 0);
      assert c.buf[0..res] == c.buf[..res];
      SubmitRelated(s, t, h, fd, c, Coroutine.AtSend(fd, c.buf, res, 0), SendRequest(fd, c.buf[..res]), EchoCodec.Send);
    }
  }

  /** One more submission for the client whose coroutine stays suspended at frame `g`. */
  lemma SubmitRelated(s: Callback.State, t: Coroutine.State, h: nat, fd: int, c: Callback.Client, g: Coroutine.Frame,
                      req: Request, op: EchoCodec.Op)
    requires Related(s, t) && Elsewhere(s, t, h, fd) && h in t.frames && fd in s.clients && Callback.IsFd(fd)
    requires !req.AcceptRequest? && req.fd == fd && SameClient(c, g, req)
    ensures Related(Callback.Queue(s.(clients := s.clients[fd := c]), req, op, fd),
                    Coroutine.Await(t.(frames := t.frames[h := g]), req, h))
  {
    hide EchoCodec.Encode;
    OthersStillSame(s, t, h, fd, Callback.Queue(s.(clients := s.clients[fd := c]), req, op, fd),
                    Coroutine.Await(t.(frames := t.frames[h := g]), req, h));
  }

  lemma SendRelated(s: Callback.State, t: Coroutine.State, h: nat, fd: int, res: int, bytes: seq<Byte>)
    requires Related(s, t) && Elsewhere(s, t, h, fd) && h in t.frames && fd in s.clients
    requires SameClient(s.clients[fd], t.frames[h], SendRequest(fd, bytes))
    requires Callback.IsFd(fd) && res <= CLIENT_BUF_SIZE && s.clients[fd].sendLen <= CLIENT_BUF_SIZE
    ensures Related(Callback.HandleSend(s, fd, res), Coroutine.ResumeClient(t, h, res))
  {
    hide EchoCodec.Encode, Related, Elsewhere;
    if res <= 0 {
      CloseRelated(s, t, h, fd);
    } else {
      var c := s.clients[fd].(sendOffset := s.clients[fd].sendOffset + res);
      if c.sendOffset < c.sendLen {
        SubmitRelated(s, t, h, fd, c, Coroutine.AtSend(fd, c.buf, c.sendLen, c.sendOffset),
                      SendRequest(fd, c.buf[c.sendOffset..c.sendLen]), EchoCodec.Send);
      } else {
        SubmitRelated(s, t, h, fd, c, Coroutine.AtRecv(fd, c.buf), RecvRequest(fd), EchoCodec.Recv);
      }
    }
  }

  lemma CloseRelated(s: Callback.State, t: Coroutine.State, h: nat, fd: int)
    requires Related(s, t) && Elsewhere(s, t, h, fd) && h in t.frames && fd in s.clients
    ensures Related(Callback.Close(s, fd), t.(frames := t.frames - {h}, log := t.log + [CloseFd(fd)]))
  {
    OthersStillSame(s, t, h, fd, Callback.Close(s, fd), t.(frames := t.frames - {h}, log := t.log + [CloseFd(fd)]));
  }

  // ----- runs -----

  /** The coroutine server takes the same kind of steps; a step is possible if its log and ring allow it. */
  ghost predicate CoroutineRuns(t: Coroutine.State, acts: seq<Action>, t': Coroutine.State)
    decreases |acts|
  {
    if acts == [] then t == t'
    else
      var a := acts[0];
      && Allowed(t.log, t.ops, t.listenFd, a)
      && Coroutine.Awaited(t, a.i)
      && (a.Takes? && !t.log[a.i].req.AcceptRequest? ==> t.ops[a.i].res <= CLIENT_BUF_SIZE)
      && (a.Completes? ==> |a.data| <= CLIENT_BUF_SIZE)
      && CoroutineRuns(Coroutine.Apply(t, a), acts[1..], t')
  }

  lemma {:induction false} Lockstep(s: Callback.State, t: Coroutine.State, acts: seq<Action>, s': Callback.State)
    returns (t': Coroutine.State)
    requires Callback.Inv(s) && Related(s, t) && Callback.Reaches(s, acts, s')
    ensures CoroutineRuns(t, acts, t') && Related(s', t')
    decreases |acts|
  {
    if acts == [] {
      t' := t;
    } else {
      var a := acts[0];
      RelatedIsAwaited(s, t, a);
      Callback.ApplyKeepsInv(s, a);
      match a {
        case Completes(i, res, data) => CompleteKeepsRelated(s, t, i, res, data);
        case Takes(i) => TakeKeepsRelated(s, t, i);
      }
      t' := Lockstep(Callback.Apply(s, a), Coroutine.Apply(t, a), acts[1..], s');
    }
  }

  lemma {:induction false} LockstepBack(s: Callback.State, t: Coroutine.State, acts: seq<Action>, t': Coroutine.State)
    returns (s': Callback.State)
    requires Callback.Inv(s) && Related(s, t) && CoroutineRuns(t, acts, t')
    ensures Callback.Reaches(s, acts, s') && Related(s', t')
    decreases |acts|
  {
    if acts == [] {
      s' := s;
    } else {
      var a := acts[0];
      Callback.ApplyKeepsInv(s, a);
      match a {
        case Completes(i, res, data) => CompleteKeepsRelated(s, t, i, res, data);
        case Takes(i) => TakeKeepsRelated(s, t, i);
      }
      s' := LockstepBack(Callback.Apply(s, a), Coroutine.Apply(t, a), acts[1..], t');
    }
  }

  lemma InitRelated(listenFd: int)
    requires Callback.IsFd(listenFd)
    ensures Related(Callback.Init(listenFd), Coroutine.Init(listenFd))
  {
    hide EchoCodec.Encode;
  }

  /** The servers are equivalent: for every sequence of completions, one can take it exactly when the other can, and
      then both have submitted the same requests with the same bytes and closed the same descriptors, in the same
      order, and the same operations are outstanding. */
  lemma SameBehaviour(listenFd: int, acts: seq<Action>, log: Log, ops: map<nat, Stage>)
    requires Callback.IsFd(listenFd)
    ensures (Callback.InitInv(listenFd);
             (exists s :: Callback.Reaches(Callback.Init(listenFd), acts, s) && s.log == log && s.ops == ops)
             <==> (exists t :: CoroutineRuns(Coroutine.Init(listenFd), acts, t) && t.log == log && t.ops == ops))
  {
    Callback.InitInv(listenFd);
    var s0, t0 := Callback.Init(listenFd), Coroutine.Init(listenFd);
    InitRelated(listenFd);
    if s :| Callback.Reaches(s0, acts, s) && s.log == log && s.ops == ops {
      var t := Lockstep(s0, t0, acts, s);
    }
    if t :| CoroutineRuns(t0, acts, t) && t.log == log && t.ops == ops {
      var s := LockstepBack(s0, t0, acts, t);
    }
  }
}
