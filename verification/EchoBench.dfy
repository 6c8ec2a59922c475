/** The benchmark client: many connections, each sending its message and checking the echo for a number of rounds,
    driven by one event loop. */
module EchoBench {
  import opened Words
  import opened Wrappers
  import EchoCodec

  const MSG_SIZE: nat := 32

  datatype Kind = Connect | Send | Recv

  /** `remaining` counts rounds left, `sendOff` and `recvOff` the progress of the current round. */
  datatype Client = Client(
    fd: int,
    remaining: int,
    ok: bool,
    sendLen: nat,
    sendOff: nat,
    recvOff: nat,
    sendBuf: seq<Byte>,
    recvBuf: seq<Byte>)

  /** A submission: what it does, for which client, where in that client's buffer it starts, and how many bytes it asks
      for. */
  datatype Op = Op(kind: Kind, id: nat, from: nat, asked: nat)

  /** Handling one completion: the client afterwards, the next submission if any; without one the client is done. */
  datatype Outcome = Outcome(c: Client, next: Option<Op>)

  function FailAndClose(c: Client): Outcome {
    Outcome(c.(ok := false, fd := -1), None)
  }

  function OnConnect(c: Client, id: nat, res: int): Outcome {
    if res < 0 then Outcome(c.(ok := false), None)
    else Outcome(c.(sendOff := 0, recvOff := 0), Some(Op(Send, id, 0, c.sendLen)))
  }

  function OnSend(c: Client, id: nat, res: int): Outcome {
    if res <= 0 then FailAndClose(c)
    else
      var c1 := c.(sendOff := c.sendOff + res);
      if c1.sendOff < c1.sendLen then Outcome(c1, Some(Op(Send, id, c1.sendOff, c1.sendLen - c1.sendOff)))
      else Outcome(c1.(recvOff := 0), Some(Op(Recv, id, 0, c1.sendLen)))
  }

  function OnRecv(c: Client, id: nat, res: int): Outcome
    requires c.sendLen <= |c.recvBuf| && c.sendLen <= |c.sendBuf|
  {
    if res <= 0 then FailAndClose(c)
    else
      var c1 := c.(recvOff := c.recvOff + res);
      if c1.recvOff < c1.sendLen then Outcome(c1, Some(Op(Recv, id, c1.recvOff, c1.sendLen - c1.recvOff)))
      else
        var c2 := c1.(ok := c1.ok && c1.recvBuf[..c1.sendLen] == c1.sendBuf[..c1.sendLen],
                      remaining := c1.remaining - 1);
        if c2.remaining <= 0 || !c2.ok then Outcome(c2.(fd := -1), None)
        else Outcome(c2.(sendOff := 0), Some(Op(Send, id, 0, c2.sendLen)))
  }

  function Handle(c: Client, op: Op, res: int): Outcome
    requires c.sendLen <= |c.recvBuf| && c.sendLen <= |c.sendBuf|
  {
    match op.kind
    case Connect => OnConnect(c, op.id, res)
    case Send => OnSend(c, op.id, res)
    case Recv => OnRecv(c, op.id, res)
  }

  /** What the kernel may answer: a transfer moves at most what was asked. */
  ghost predicate Legal(op: Op, res: int, data: seq<Byte>) {
    match op.kind
    case Connect => data == []
    case Send => data == [] && res <= op.asked
    case Recv => res <= op.asked && |data| == if res > 0 then res else 0
  }

  // ----- the kernel's side of a completion -----

  /** A receive puts `data` into the client's buffer, where the submission said. */
  function Filled(c: Client, op: Op, data: seq<Byte>): Client {
    if op.kind == Recv && op.from + |data| <= |c.recvBuf|
    then c.(recvBuf := c.recvBuf[..op.from] + data + c.recvBuf[op.from + |data|..])
    else c
  }

  /** A send takes bytes out of the client's buffer, from where the submission said. */
  function Taken(c: Client, op: Op, res: int): seq<Byte> {
    if op.kind == Send && res > 0 && op.from + res <= |c.sendBuf| then c.sendBuf[op.from..op.from + res] else []
  }

  /** The answer of the kernel to one operation. */
  datatype Answer = Answer(kind: Kind, res: int)

  /** What happened on a connection, as the kernel and the peer see it: the bytes, and the answers to its operations. */
  datatype Wire = Wire(sent: seq<Byte>, received: seq<Byte>, answers: seq<Answer>)

  function OnWire(c: Client, op: Op, res: int, data: seq<Byte>, w: Wire): Wire {
    Answered(w.(sent := w.sent + Taken(c, op, res), received := w.received + data), op, res)
  }

  function Answered(w: Wire, op: Op, res: int): Wire {
    w.(answers := w.answers + [Answer(op.kind, res)])
  }

  /** An operation failed: a connect with an error, a transfer with an error or without progress. */
  predicate Failed(a: Answer) {
    if a.kind == Connect then a.res < 0 else a.res <= 0
  }

  ghost predicate SomeFailed(w: Wire) {
    exists k :: 0 <= k < |w.answers| && Failed(w.answers[k])
  }

  ghost predicate ConnectFailed(w: Wire) {
    exists k :: 0 <= k < |w.answers| && w.answers[k].kind == Connect && w.answers[k].res < 0
  }

  lemma FailedNow(w: Wire, op: Op, res: int)
    ensures SomeFailed(Answered(w, op, res)) <==> SomeFailed(w) || Failed(Answer(op.kind, res))
  {
    var w' := Answered(w, op, res);
    assert w'.answers[|w.answers|] == Answer(op.kind, res);
    if k :| 0 <= k < |w.answers| && Failed(w.answers[k]) {
      assert w'.answers[k] == w.answers[k];
    }
  }

  // ----- one client -----

  /** Rounds a client has to complete: at least one is always played. */
  function Rounds(rounds: int): nat {
    if rounds > 1 then rounds else 1
  }

  function Message(c: Client): seq<Byte>
    requires c.sendLen <= |c.sendBuf|
  {
    c.sendBuf[..c.sendLen]
  }

  /** `n` copies of the message, one after the other. */
  function Times(m: seq<Byte>, n: nat): seq<Byte> {
    if n == 0 then [] else Times(m, n - 1) + m
  }

  ghost predicate Shape(c: Client) {
    0 < c.sendLen <= MSG_SIZE && |c.sendBuf| == MSG_SIZE && |c.recvBuf| == MSG_SIZE
  }

  /** The bytes of a connection with operation `op` outstanding, after `played` rounds: each of them moved the message
      out and back; of the current one, the message has left up to the send offset, and what has come back is in the
      buffer up to the receive offset. */
  ghost predicate WireOk(c: Client, op: Op, played: nat, w: Wire)
    requires Shape(c)
  {
    var m := Message(c);
    match op.kind
    case Connect => played == 0 && op.asked == 0 && w.sent == [] && w.received == []
    case Send =>
      && op.from == c.sendOff < c.sendLen && op.asked == c.sendLen - c.sendOff
      && w.sent == Times(m, played) + m[..c.sendOff] && w.received == Times(m, played)
    case Recv =>
      && op.from == c.recvOff < c.sendLen && op.asked == c.sendLen - c.recvOff
      && w.sent == Times(m, played) + m && w.received == Times(m, played) + c.recvBuf[..c.recvOff]
  }

  /** A client with operation `op` outstanding. */
  ghost predicate Active(c: Client, op: Op, rounds: int, w: Wire) {
    && Shape(c) && c.ok
    && Rounds(c.remaining) <= Rounds(rounds)
    && WireOk(c, op, Rounds(rounds) - Rounds(c.remaining), w)
    && !SomeFailed(w)
  }

  /** After some rounds that brought the message back, one brought other bytes. */
  ghost predicate WrongEcho(m: seq<Byte>, received: seq<Byte>) {
    exists r: nat, x: seq<Byte> :: received == Times(m, r) + x && |x| == |m| && x != m
  }

  /** A client that is done. It passed if and only if the bytes received are its message, once for each round; those
      sent never go beyond that, and reach it if it passed. It did not pass if and only if one of its operations failed
      or a round came back wrong. Its socket is closed, except after a connect that failed. */
  ghost predicate Finished(c: Client, rounds: int, w: Wire) {
    && Shape(c)
    && var all := Times(Message(c), Rounds(rounds));
    && (c.ok <==> w.received == all)
    && w.sent <= all
    && (c.ok ==> w.sent == all)
    && (!c.ok <==> SomeFailed(w) || WrongEcho(Message(c), w.received))
    && (c.fd == -1 || ConnectFailed(w))
  }

  lemma {:induction false} TimesGrows(m: seq<Byte>, d: nat, r: nat)
    requires d <= r && m != []
    ensures Times(m, d) <= Times(m, r) && |Times(m, r)| >= |Times(m, d)| + (r - d)
    decreases r - d
  {
    if d < r { TimesGrows(m, d, r - 1); }
  }

  /** What follows `d` copies makes all `r` of them only if it is the last one. */
  lemma OnlyLastCopy(m: seq<Byte>, d: nat, r: nat, x: seq<Byte>)
    requires d < r && m != [] && |x| <= |m|
    ensures Times(m, d) + x == Times(m, r) <==> d + 1 == r && x == m
    ensures x <= m ==> Times(m, d) + x <= Times(m, r)
  {
    TimesGrows(m, d + 1, r);
    var a, b := Times(m, d) + x, Times(m, d) + m;
    assert b == Times(m, d + 1);
    assert a[|Times(m, d)|..] == x && b[|Times(m, d)|..] == m;
    if x <= m { assert a <= b; }
  }

  /** An earlier copy of the message is the message. */
  lemma CopyBefore(m: seq<Byte>, n: nat, part: seq<Byte>, r: nat, x: seq<Byte>)
    requires m != [] && r < n && |x| == |m| && Times(m, n) + part == Times(m, r) + x
    ensures x == m
  {
    TimesGrows(m, r + 1, n);
    assert Times(m, r + 1) == Times(m, r) + m;
    hide Times;
    SamePlace(Times(m, r), x, m, Times(m, n) + part);
  }

  lemma SamePlace(p: seq<Byte>, x: seq<Byte>, y: seq<Byte>, all: seq<Byte>)
    requires p + x <= all && p + y <= all && |x| == |y|
    ensures x == y
  {
    assert all[|p|..|p| + |x|] == x && all[|p|..|p| + |y|] == y;
  }

  /** The message, any number of times, is no wrong echo, not even with a part of another copy. */
  lemma RightEcho(m: seq<Byte>, n: nat, part: seq<Byte>)
    requires m != [] && |part| < |m|
    ensures !WrongEcho(m, Times(m, n) + part)
  {
    hide Times;
    forall r: nat, x: seq<Byte> | Times(m, n) + part == Times(m, r) + x && |x| == |m| ensures x == m {
      if r < n {
        CopyBefore(m, n, part, r, x);
      } else {
        TimesGrows(m, n, r);
        assert |Times(m, n) + part| < |Times(m, r) + x|;
      }
    }
  }

  /** An upper bound on the completions a client still needs. */
  function Work(c: Client, kind: Kind): int {
    var perRound := 2 * c.sendLen;
    match kind
    case Connect => 1 + perRound * Rounds(c.remaining)
    case Send => perRound * Rounds(c.remaining) - c.sendOff
    case Recv => perRound * Rounds(c.remaining) - c.sendLen - c.recvOff
  }

  lemma FirstRound(p: nat, r: nat)
    requires r >= 1
    ensures p * r == p + p * (r - 1) && p * (r - 1) >= 0
  {
  }

  lemma WorkIsPositive(c: Client, op: Op, rounds: int, w: Wire)
    requires Active(c, op, rounds, w)
    ensures Work(c, op.kind) > 0
  {
    FirstRound(2 * c.sendLen, Rounds(c.remaining));
  }

  ghost predicate Progresses(c: Client, op: Op, o: Outcome, rounds: int, w: Wire) {
    match o.next
    case None => Finished(o.c, rounds, w)
    case Some(op') => op'.id == op.id && Active(o.c, op', rounds, w) && Work(o.c, op'.kind) < Work(c, op.kind)
  }

  lemma ConnectProgresses(c: Client, op: Op, res: int, rounds: int, w: Wire)
    requires Active(c, op, rounds, w) && op.kind == Connect
    ensures Progresses(c, op, OnConnect(c, op.id, res), rounds, Answered(w, op, res))
  {
    FailedNow(w, op, res);
    assert Answered(w, op, res).answers[|w.answers|] == Answer(Connect, res);
    FirstRound(2 * c.sendLen, Rounds(c.remaining));
    var m := Message(c);
    OnlyLastCopy(m, 0, Rounds(rounds), []);
    RightEcho(m, 0, []);
    assert Times(m, 0) + [] == [] && m[..0] == [];
    hide SomeFailed, WrongEcho;
  }

  lemma SendFails(c: Client, op: Op, res: int, rounds: int, w: Wire)
    requires Active(c, op, rounds, w) && Legal(op, res, []) && op.kind == Send && res <= 0
    ensures Progresses(c, op, OnSend(c, op.id, res), rounds,
                       Answered(w.(sent := w.sent + Taken(c, op, res)), op, res))
  {
    hide Times, SomeFailed, WrongEcho;
    var m, d := Message(c), Rounds(rounds) - Rounds(c.remaining);
    OnlyLastCopy(m, d, Rounds(rounds), []);
    OnlyLastCopy(m, d, Rounds(rounds), m[..c.sendOff]);
    FailedNow(w.(sent := w.sent + Taken(c, op, res)), op, res);
    RightEcho(m, d, []);
    assert Times(m, d) + [] == Times(m, d);
  }

  lemma SendMoves(c: Client, op: Op, res: int, rounds: int, w: Wire)
    requires Active(c, op, rounds, w) && Legal(op, res, []) && op.kind == Send && res > 0
    ensures Progresses(c, op, OnSend(c, op.id, res), rounds,
                       Answered(w.(sent := w.sent + Taken(c, op, res)), op, res))
  {
    FirstRound(2 * c.sendLen, Rounds(c.remaining));
    var m, d := Message(c), Rounds(rounds) - Rounds(c.remaining);
    FailedNow(w.(sent := w.sent + Taken(c, op, res)), op, res);
    hide Times, SomeFailed;
    assert m[..c.sendOff] + Taken(c, op, res) == m[..c.sendOff + res];
    assert Times(m, d) + m[..c.sendOff] + Taken(c, op, res) == Times(m, d) + m[..c.sendOff + res];
    assert m[..c.sendLen] == m && c.recvBuf[..0] == [];
  }

  lemma SendProgresses(c: Client, op: Op, res: int, rounds: int, w: Wire)
    requires Active(c, op, rounds, w) && Legal(op, res, []) && op.kind == Send
    ensures Progresses(c, op, OnSend(c, op.id, res), rounds,
                       Answered(w.(sent := w.sent + Taken(c, op, res)), op, res))
  {
    if res <= 0 {
      SendFails(c, op, res, rounds, w);
    } else {
      SendMoves(c, op, res, rounds, w);
    }
  }

  /** What a receive stores continues what the buffer holds. */
  lemma FilledFront(c: Client, op: Op, data: seq<Byte>)
    requires Shape(c) && op.kind == Recv && op.from == c.recvOff && c.recvOff + |data| <= c.sendLen
    ensures var f := Filled(c, op, data);
            && Shape(f) && f == c.(recvBuf := f.recvBuf)
            && f.recvBuf[..c.recvOff + |data|] == c.recvBuf[..c.recvOff] + data
  {
  }

  lemma RecvProgresses(c: Client, op: Op, res: int, data: seq<Byte>, rounds: int, w: Wire)
    requires Active(c, op, rounds, w) && Legal(op, res, data) && op.kind == Recv
    ensures Shape(Filled(c, op, data))
    ensures Progresses(c, op, OnRecv(Filled(c, op, data), op.id, res), rounds,
                       Answered(w.(received := w.received + data), op, res))
  {
    FilledFront(c, op, data);
    var m, d, f := Message(c), Rounds(rounds) - Rounds(c.remaining), Filled(c, op, data);
    var front := f.recvBuf[..c.recvOff + |data|];
    assert w.received + data == Times(m, d) + front;
    hide Filled;
    ReceivedProgresses(c, f, op, res, rounds, w.(received := w.received + data), d, front);
  }

  lemma RecvFails(c: Client, f: Client, op: Op, res: int, rounds: int, w: Wire, d: nat,
                  front: seq<Byte>)
    requires Shape(c) && Shape(f) && f == c.(recvBuf := f.recvBuf) && op.kind == Recv && f.ok
    requires Rounds(c.remaining) <= Rounds(rounds) && d == Rounds(rounds) - Rounds(c.remaining)
    requires c.recvOff < c.sendLen && c.recvOff + res <= c.sendLen && !SomeFailed(w)
    requires front == f.recvBuf[..c.recvOff + if res > 0 then res else 0]
    requires w.sent == Times(Message(c), d) + Message(c) && w.received == Times(Message(c), d) + front
    requires res <= 0
    ensures Progresses(c, op, OnRecv(f, op.id, res), rounds, Answered(w, op, res))
  {
    FailedNow(w, op, res);
    var m := Message(c);
    OnlyLastCopy(m, d, Rounds(rounds), front);
    OnlyLastCopy(m, d, Rounds(rounds), m);
    EchoJudged(m, d, front);
    hide SomeFailed, WrongEcho, Times;
  }

  lemma RecvContinues(c: Client, f: Client, op: Op, res: int, rounds: int, w: Wire, d: nat,
                      front: seq<Byte>)
    requires Shape(c) && Shape(f) && f == c.(recvBuf := f.recvBuf) && op.kind == Recv && f.ok
    requires Rounds(c.remaining) <= Rounds(rounds) && d == Rounds(rounds) - Rounds(c.remaining)
    requires c.recvOff < c.sendLen && c.recvOff + res <= c.sendLen && !SomeFailed(w)
    requires front == f.recvBuf[..c.recvOff + if res > 0 then res else 0]
    requires w.sent == Times(Message(c), d) + Message(c) && w.received == Times(Message(c), d) + front
    requires res > 0 && c.recvOff + res < c.sendLen
    ensures Progresses(c, op, OnRecv(f, op.id, res), rounds, Answered(w, op, res))
  {
    FailedNow(w, op, res);
    hide SomeFailed, Times;
  }

  lemma RoundEnds(c: Client, f: Client, op: Op, res: int, rounds: int, w: Wire, d: nat,
                  front: seq<Byte>)
    requires Shape(c) && Shape(f) && f == c.(recvBuf := f.recvBuf) && op.kind == Recv && f.ok
    requires Rounds(c.remaining) <= Rounds(rounds) && d == Rounds(rounds) - Rounds(c.remaining)
    requires c.recvOff < c.sendLen && c.recvOff + res <= c.sendLen && !SomeFailed(w)
    requires front == f.recvBuf[..c.recvOff + if res > 0 then res else 0]
    requires w.sent == Times(Message(c), d) + Message(c) && w.received == Times(Message(c), d) + front
    requires res > 0 && c.recvOff + res == c.sendLen
    ensures Progresses(c, op, OnRecv(f, op.id, res), rounds, Answered(w, op, res))
  {
    FailedNow(w, op, res);
    FirstRound(2 * c.sendLen, Rounds(c.remaining));
    var m := Message(c);
    OnlyLastCopy(m, d, Rounds(rounds), front);
    OnlyLastCopy(m, d, Rounds(rounds), m);
    EchoJudged(m, d, front);
    if front == m {
      assert m[..0] == [] && Times(m, d + 1) + [] == Times(m, d + 1);
    }
    hide SomeFailed, WrongEcho;
  }

  lemma ReceivedProgresses(c: Client, f: Client, op: Op, res: int, rounds: int, w: Wire, d: nat,
                           front: seq<Byte>)
    requires Shape(c) && Shape(f) && f == c.(recvBuf := f.recvBuf) && op.kind == Recv && f.ok
    requires Rounds(c.remaining) <= Rounds(rounds) && d == Rounds(rounds) - Rounds(c.remaining)
    requires c.recvOff < c.sendLen && c.recvOff + res <= c.sendLen && !SomeFailed(w)
    requires front == f.recvBuf[..c.recvOff + if res > 0 then res else 0]
    requires w.sent == Times(Message(c), d) + Message(c) && w.received == Times(Message(c), d) + front
    ensures Progresses(c, op, OnRecv(f, op.id, res), rounds, Answered(w, op, res))
  {
    if res <= 0 {
      RecvFails(c, f, op, res, rounds, w, d, front);
    } else if c.recvOff + res < c.sendLen {
      RecvContinues(c, f, op, res, rounds, w, d, front);
    } else {
      RoundEnds(c, f, op, res, rounds, w, d, front);
    }
  }

  /** A whole round is a wrong echo if and only if its bytes are not the message; less than a round is none. */
  lemma EchoJudged(m: seq<Byte>, d: nat, front: seq<Byte>)
    requires m != [] && |front| <= |m|
    ensures WrongEcho(m, Times(m, d) + front) <==> |front| == |m| && front != m
  {
    if |front| < |m| {
      RightEcho(m, d, front);
    } else if front == m {
      RightEcho(m, d + 1, []);
      assert Times(m, d) + front == Times(m, d + 1) + [];
    }
  }

  /** Each completion either finishes the client or leaves strictly less work. */
  lemma HandleProgresses(c: Client, op: Op, res: int, data: seq<Byte>, rounds: int, w: Wire)
    requires Active(c, op, rounds, w) && Legal(op, res, data)
    ensures var filled := Filled(c, op, data);
            Shape(filled)
            && Progresses(c, op, Handle(filled, op, res), rounds, OnWire(c, op, res, data, w))
  {
    assert w.sent + [] == w.sent && w.received + [] == w.received;
    match op.kind
    case Connect => ConnectProgresses(c, op, res, rounds, w);
    case Send => SendProgresses(c, op, res, rounds, w);
    case Recv => RecvProgresses(c, op, res, data, rounds, w);
  }

  // ----- all clients -----

  /** The outstanding operations belong to different clients and every other client is finished. */
  ghost predicate Consistent(cs: seq<Client>, ops: seq<Op>, rounds: int, wires: seq<Wire>) {
    && |wires| == |cs|
    && (forall k | 0 <= k < |ops| ::
          ops[k].id < |cs| && Active(cs[ops[k].id], ops[k], rounds, wires[ops[k].id]))
    && (forall j, k | 0 <= j < k < |ops| :: ops[j].id != ops[k].id)
    && (forall i | 0 <= i < |cs| && (forall k | 0 <= k < |ops| :: ops[k].id != i) ::
          Finished(cs[i], rounds, wires[i]))
  }

  function TotalWork(cs: seq<Client>, ops: seq<Op>): int
    requires forall k | 0 <= k < |ops| :: ops[k].id < |cs|
  {
    if ops == [] then 0
    else TotalWork(cs, ops[..|ops| - 1]) + Work(cs[ops[|ops| - 1].id], ops[|ops| - 1].kind)
  }

  function Without(ops: seq<Op>, k: nat): seq<Op>
    requires k < |ops|
  {
    ops[..k] + ops[k + 1..]
  }

  lemma {:induction false} WorkWithout(cs: seq<Client>, ops: seq<Op>, k: nat)
    requires (forall j | 0 <= j < |ops| :: ops[j].id < |cs|) && k < |ops|
    ensures TotalWork(cs, ops) == TotalWork(cs, Without(ops, k)) + Work(cs[ops[k].id], ops[k].kind)
  {
    var last := |ops| - 1;
    if k == last {
      assert Without(ops, k) == ops[..last];
    } else {
      WorkWithout(cs, ops[..last], k);
      assert Without(ops, k) == Without(ops[..last], k) + [ops[last]];
      assert Without(ops, k)[..last - 1] == Without(ops[..last], k);
    }
  }

  lemma {:induction false} WorkOfOthers(cs: seq<Client>, ops: seq<Op>, i: nat, c: Client)
    requires (forall j | 0 <= j < |ops| :: ops[j].id < |cs| && ops[j].id != i) && i < |cs|
    ensures TotalWork(cs[i := c], ops) == TotalWork(cs, ops)
  {
    if ops != [] {
      WorkOfOthers(cs, ops[..|ops| - 1], i, c);
    }
  }

  lemma {:induction false} TotalIsPositive(cs: seq<Client>, ops: seq<Op>, rounds: int, wires: seq<Wire>)
    requires |wires| == |cs|
    requires forall k | 0 <= k < |ops| :: ops[k].id < |cs| && Active(cs[ops[k].id], ops[k], rounds, wires[ops[k].id])
    ensures TotalWork(cs, ops) >= |ops|
  {
    if ops != [] {
      var op := ops[|ops| - 1];
      TotalIsPositive(cs, ops[..|ops| - 1], rounds, wires);
      WorkIsPositive(cs[op.id], op, rounds, wires[op.id]);
    }
  }

  /** What is outstanding after operation `k` has been handled. */
  function After(ops: seq<Op>, k: nat, next: Option<Op>): seq<Op>
    requires k < |ops|
  {
    Without(ops, k) + if next.Some? then [next.value] else []
  }

  lemma AfterMoves(submitted: seq<Op>, queued: seq<Op>, k: nat, next: Option<Op>)
    requires k < |submitted|
    ensures Without(submitted, k) + (queued + if next.Some? then [next.value] else [])
            == After(submitted + queued, k, next)
  {
  }

  lemma AfterElements(ops: seq<Op>, k: nat, next: Option<Op>)
    requires k < |ops|
    ensures |After(ops, k, next)| == |ops| - if next.Some? then 0 else 1
    ensures forall l | 0 <= l < |ops| - 1 :: After(ops, k, next)[l] == ops[if l < k then l else l + 1]
    ensures next.Some? ==> After(ops, k, next)[|ops| - 1] == next.value
  {
  }

  /** Handling keeps what the client sends. */
  lemma HandleKeepsMessage(c: Client, op: Op, res: int)
    requires c.sendLen <= |c.recvBuf| && c.sendLen <= |c.sendBuf|
    ensures Handle(c, op, res).c.sendLen == c.sendLen && Handle(c, op, res).c.sendBuf == c.sendBuf
  {
  }

  /** One completion keeps all clients consistent and does work. */
  lemma StepProgresses(cs: seq<Client>, ops: seq<Op>, k: nat, res: int, data: seq<Byte>, rounds: int,
                       wires: seq<Wire>, filled: Client, o: Outcome)
    requires Consistent(cs, ops, rounds, wires) && k < |ops| && Legal(ops[k], res, data)
    requires filled == Filled(cs[ops[k].id], ops[k], data)
    requires Shape(filled) && o == Handle(filled, ops[k], res)
    ensures var i := ops[k].id;
            var cs' := cs[i := o.c];
            var ops' := After(ops, k, o.next);
            var wires' := wires[i := OnWire(cs[i], ops[k], res, data, wires[i])];
            Consistent(cs', ops', rounds, wires') && TotalWork(cs', ops') < TotalWork(cs, ops)
  {
    var op := ops[k];
    HandleProgresses(cs[op.id], op, res, data, rounds, wires[op.id]);
    hide TotalWork, Filled, Handle, OnWire, Without, After, Active, Finished, Work, Shape, Legal;
    var w := OnWire(cs[op.id], op, res, data, wires[op.id]);
    StepConsistent(cs, ops, k, o, rounds, wires, w);
    StepWorksOff(cs, ops, k, o, rounds, wires);
  }

  /** The work of the one client that moves decreases; that of the others stays. */
  lemma StepWorksOff(cs: seq<Client>, ops: seq<Op>, k: nat, o: Outcome, rounds: int, wires: seq<Wire>)
    requires Consistent(cs, ops, rounds, wires) && k < |ops|
    requires o.next.Some? ==> o.next.value.id == ops[k].id
    requires o.next.Some? ==> Work(o.c, o.next.value.kind) < Work(cs[ops[k].id], ops[k].kind)
    ensures forall j | 0 <= j < |After(ops, k, o.next)| :: After(ops, k, o.next)[j].id < |cs|
    ensures TotalWork(cs[ops[k].id := o.c], After(ops, k, o.next)) < TotalWork(cs, ops)
  {
    var i, rest := ops[k].id, Without(ops, k);
    WithoutElements(ops, k);
    WorkWithout(cs, ops, k);
    WorkIsPositive(cs[i], ops[k], rounds, wires[i]);
    hide Active, Finished, Without, Work;
    WorkOfOthers(cs, rest, i, o.c);
    if o.next.Some? {
      assert After(ops, k, o.next)[..|rest|] == rest;
    } else {
      assert After(ops, k, o.next) == rest;
    }
  }

  lemma WithoutElements(ops: seq<Op>, k: nat)
    requires k < |ops|
    ensures forall j | 0 <= j < |Without(ops, k)| :: Without(ops, k)[j] == ops[if j < k then j else j + 1]
  {
  }

  lemma StepConsistent(cs: seq<Client>, ops: seq<Op>, k: nat, o: Outcome, rounds: int,
                       wires: seq<Wire>, w: Wire)
    requires Consistent(cs, ops, rounds, wires) && k < |ops|
    requires match o.next
             case None => Finished(o.c, rounds, w)
             case Some(op') => op'.id == ops[k].id && Active(o.c, op', rounds, w)
    ensures var i := ops[k].id;
            Consistent(cs[i := o.c], After(ops, k, o.next), rounds, wires[i := w])
  {
    AfterElements(ops, k, o.next);
    hide Active, Finished, After, Without;
    var i := ops[k].id;
    var cs', ops', wires' := cs[i := o.c], After(ops, k, o.next), wires[i := w];
    forall j | 0 <= j < |cs'| && (forall l | 0 <= l < |ops'| :: ops'[l].id != j)
      ensures Finished(cs'[j], rounds, wires'[j])
    {
      if j != i {
        forall l | 0 <= l < |ops| ensures ops[l].id != j {
          assert l < k ==> ops'[l] == ops[l];
          assert l > k ==> ops'[l - 1] == ops[l];
        }
      } else {
        assert o.next.None?;
      }
    }
  }

  /** What the event loop may need at most. */
  function Budget(clients: nat, maxLen: nat, rounds: int): nat {
    clients * (1 + 2 * maxLen * Rounds(rounds))
  }

  function Connects(n: nat): (ops: seq<Op>)
    ensures |ops| == n && forall i | 0 <= i < n :: ops[i] == Op(Connect, i, 0, 0)
  {
    seq(n, i requires 0 <= i < n => Op(Connect, i, 0, 0))
  }

  lemma MoreClients(len: nat, maxLen: nat, rounds: nat, n: nat)
    requires len <= maxLen
    ensures 2 * len * rounds <= 2 * maxLen * rounds
    ensures (n + 1) * (1 + 2 * maxLen * rounds) == n * (1 + 2 * maxLen * rounds) + (1 + 2 * maxLen * rounds)
  {
    assert (maxLen - len) * rounds >= 0;
    assert 2 * maxLen * rounds - 2 * len * rounds == 2 * ((maxLen - len) * rounds);
  }

  lemma {:induction false} InitialWork(cs: seq<Client>, ops: seq<Op>, maxLen: nat, rounds: int)
    requires forall k | 0 <= k < |ops| ::
               ops[k].id < |cs| && ops[k].kind == Connect && cs[ops[k].id].remaining == rounds
               && cs[ops[k].id].sendLen <= maxLen
    ensures TotalWork(cs, ops) <= Budget(|ops|, maxLen, rounds)
  {
    if ops != [] {
      var last := |ops| - 1;
      InitialWork(cs, ops[..last], maxLen, rounds);
      MoreClients(cs[ops[last].id].sendLen, maxLen, Rounds(rounds), last);
    }
  }

  function NewClient(message: seq<Byte>, fd: int, rounds: int): Client
    requires |message| <= MSG_SIZE
  {
    Client(fd, rounds, true, |message|, 0, 0, message + seq(MSG_SIZE - |message|, _ => 0), seq(MSG_SIZE, _ => 0))
  }

  function Initial(messages: seq<seq<Byte>>, rounds: int): seq<Client>
    requires forall i | 0 <= i < |messages| :: |messages[i]| <= MSG_SIZE
  {
    seq(|messages|, i requires 0 <= i < |messages| => NewClient(messages[i], i, rounds))
  }

  /** `snprintf` wrote a nonempty message that fits the buffer. */
  ghost predicate Printed(messages: seq<seq<Byte>>, maxLen: nat) {
    maxLen <= MSG_SIZE && forall i | 0 <= i < |messages| :: 0 < |messages[i]| <= maxLen
  }

  lemma InitialLength(messages: seq<seq<Byte>>, rounds: int)
    requires forall i | 0 <= i < |messages| :: |messages[i]| <= MSG_SIZE
    ensures |Initial(messages, rounds)| == |messages| && |Connects(|messages|)| == |messages|
  {
  }

  lemma InitialConsistent(messages: seq<seq<Byte>>, rounds: int, maxLen: nat)
    requires Printed(messages, maxLen)
    ensures var cs, ops := Initial(messages, rounds), Connects(|messages|);
            && Consistent(cs, ops, rounds, seq(|messages|, _ => Wire([], [], [])))
            && TotalWork(cs, ops) <= Budget(|messages|, maxLen, rounds)
            && forall i | 0 <= i < |messages| :: Shape(cs[i]) && Message(cs[i]) == messages[i]
  {
    var cs, ops := Initial(messages, rounds), Connects(|messages|);
    forall i | 0 <= i < |messages| ensures Shape(cs[i]) && Message(cs[i]) == messages[i] && ops[i].id == i {}
    InitialWork(cs, ops, maxLen, rounds);
  }

  /** Two snapshots of the clients agree on what is sent. */
  ghost predicate SameMessages(a: seq<Client>, b: seq<Client>) {
    |a| == |b| && forall i | 0 <= i < |a| :: a[i].sendLen == b[i].sendLen && a[i].sendBuf == b[i].sendBuf
  }

  lemma SameAfter(cs: seq<Client>, i: nat, c: Client)
    requires i < |cs| && c.sendLen == cs[i].sendLen && c.sendBuf == cs[i].sendBuf
    ensures SameMessages(cs[i := c], cs)
  {
  }

  // ----- the program -----

  function OpCode(kind: Kind): Word64 {
    EchoCodec.TopByte(match kind case Connect => 1 case Send => 2 case Recv => 3)
  }

  function UserData(op: Op): Word64
    requires op.id < 0x8000_0000
  {
    EchoCodec.Pack(OpCode(op.kind), op.id)
  }

  /** The user_data of a completion decodes to the operation and the client it belongs to. */
  lemma UserDataDecodes(op: Op)
    requires op.id < 0x8000_0000
    ensures EchoCodec.DecodeFd(UserData(op)) == op.id
    ensures forall kind :: EchoCodec.DecodeOp(UserData(op)) == OpCode(kind) <==> op.kind == kind
  {
    EchoCodec.PackRoundTrip(match op.kind case Connect => 1 case Send => 2 case Recv => 3, op.id);
  }

  class Bench {
    const rounds: int
    const clients: array<Client>
    var clientsDone: nat
    var submitted: seq<Op>               // held by the kernel
    var queued: seq<Op>                  // prepared, to be submitted by the next call
    ghost var wires: seq<Wire>

    ghost predicate Valid()
      reads this, clients
    {
      && clients.Length < 0x8000_0000
      && Consistent(clients[..], submitted + queued, rounds, wires)
      && clientsDone + |submitted| + |queued| == clients.Length
    }

    ghost function Left(): int
      requires Valid()
      reads this, clients
    {
      TotalWork(clients[..], submitted + queued)
    }

    /** Sockets created and connects queued for all clients. */
    constructor (messages: seq<seq<Byte>>, rounds: int, maxLen: nat)
      requires |messages| < 0x8000_0000
      requires Printed(messages, maxLen)
      ensures Valid() && fresh(clients) && clients.Length == |messages| && clientsDone == 0 && this.rounds == rounds
      ensures Left() <= Budget(|messages|, maxLen, rounds)
      ensures clients[..] == Initial(messages, rounds)
    {
      hide Consistent, TotalWork, Initial, Connects;
      var cs := Initial(messages, rounds);
      InitialLength(messages, rounds);
      this.rounds := rounds;
      clients := new Client[|messages|](i requires 0 <= i < |messages| => cs[i]);
      clientsDone := 0;
      submitted, queued := [], Connects(|messages|);
      wires := seq(|messages|, _ => Wire([], [], []));
      new;
      assert clients[..] == cs;
      assert submitted + queued == queued;
      InitialConsistent(messages, rounds, maxLen);
    }

    /** `submit_and_wait`: the kernel takes what is queued. It has at least one operation to complete whenever some
        client is not done, so the call returns. */
    method Submit() returns (ready: nat)
      requires Valid() && clientsDone < clients.Length
      modifies this`submitted, this`queued
      ensures Valid() && Left() == old(Left()) && queued == []
      ensures 1 <= ready <= |submitted|
    {
      assert submitted + queued + [] == submitted + queued;
      submitted, queued := submitted + queued, [];
      ready :| 1 <= ready <= |submitted|;
    }

    lemma Ready(k: nat, data: seq<Byte>)
      requires Valid() && k < |submitted|
      ensures submitted[k].id < clients.Length < 0x8000_0000
      ensures var op := (submitted + queued)[k];
              op == submitted[k] && Shape(Filled(clients[op.id], op, data))
              && Filled(clients[op.id], op, data).sendLen == clients[op.id].sendLen
              && Filled(clients[op.id], op, data).sendBuf == clients[op.id].sendBuf
    {
      assert (submitted + queued)[k] == submitted[k];
    }

    /** One completion, chosen by the kernel among the submitted operations, is reaped and handled. */
    method ReapOne()
      requires Valid() && submitted != []
      modifies this`clientsDone, this`submitted, this`queued, this`wires, clients
      ensures Valid() && Left() < old(Left()) && |submitted| == |old(submitted)| - 1
      ensures SameMessages(clients[..], old(clients[..]))
    {
      ghost var ops, cs := submitted + queued, clients[..];
      var k: nat :| k < |submitted|;
      var op := submitted[k];
      var res, data := KernelAnswer(op);
      Ready(k, data);
      UserDataDecodes(op);
      hide Consistent, TotalWork, Handle, OnWire, Filled, Legal, After, Without, Shape, SameMessages,
           EchoCodec.DecodeFd, UserData;
      var ud := UserData(op);
      var id := EchoCodec.DecodeFd(ud);
      var filled := Filled(clients[id], op, data);
      var next := Dispatch(ud, filled, res, op);
      StepProgresses(cs, ops, k, res, data, rounds, wires, filled, next);
      HandleKeepsMessage(filled, op, res);
      SameAfter(cs, id, next.c);
      Settle(k, id, next, OnWire(clients[id], op, res, data, wires[id]));
    }

    /** The completion is consumed, and the client updated; its next operation is queued or it is counted as done. */
    method Settle(k: nat, id: nat, o: Outcome, ghost w: Wire)
      requires k < |submitted| && id < clients.Length && id < |wires|
      modifies this`clientsDone, this`submitted, this`queued, this`wires, clients
      ensures clients[..] == old(clients[..])[id := o.c] && wires == old(wires)[id := w]
      ensures submitted + queued == After(old(submitted + queued), k, o.next)
      ensures |submitted| == |old(submitted)| - 1
      ensures clientsDone + |submitted| + |queued| == old(clientsDone + |submitted| + |queued|)
    {
      AfterMoves(submitted, queued, k, o.next);
      wires := wires[id := w];
      clients[id] := o.c;
      submitted := Without(submitted, k);
      if o.next.Some? {
        queued := queued + [o.next.value];
      } else {
        assert queued + [] == queued;
        clientsDone := clientsDone + 1;
      }
    }

    /** Any answer the kernel may give. */
    method KernelAnswer(op: Op) returns (res: int, data: seq<Byte>)
      ensures Legal(op, res, data)
    {
      var wish: int := *;
      res := if op.kind != Connect && wish > op.asked then op.asked else wish;
      data := [];
      if op.kind == Recv && res > 0 {
        assert |seq(res, _ => 0)| == res;
        data :| |data| == res;
      }
    }

    /** The switch on the decoded operation. */
    method Dispatch(ud: Word64, c: Client, res: int, ghost op: Op) returns (o: Outcome)
      requires op.id < 0x8000_0000 && ud == UserData(op) && Shape(c)
      ensures o == Handle(c, op, res)
    {
      UserDataDecodes(op);
      hide EchoCodec.DecodeOp, EchoCodec.DecodeFd, UserData;
      var code, id := EchoCodec.DecodeOp(ud), EchoCodec.DecodeFd(ud);
      if code == OpCode(Connect) {
        o := OnConnect(c, id, res);
      } else if code == OpCode(Send) {
        o := OnSend(c, id, res);
      } else {
        o := OnRecv(c, id, res);
      }
    }

    /** One pass of the outer loop: submit, then reap what is ready. */
    method Pass() returns (reaped: nat)
      requires Valid() && clientsDone < clients.Length
      modifies this, clients
      ensures Valid() && reaped > 0 && reaped + Left() <= old(Left())
      ensures SameMessages(clients[..], old(clients[..]))
    {
      hide Consistent, TotalWork;
      var ready := Submit();
      reaped := 0;
      while reaped < ready && submitted != []
        invariant reaped <= ready && Valid()
        invariant reaped + Left() <= old(Left())
        invariant reaped > 0 || submitted != []
        invariant SameMessages(clients[..], old(clients[..]))
        decreases ready - reaped
      {
        ReapOne();
        reaped := reaped + 1;
      }
    }

    lemma LeftIsNatural()
      requires Valid()
      ensures Left() >= 0
    {
      TotalIsPositive(clients[..], submitted + queued, rounds, wires);
    }

    /** The event loop. It ends, after at most `Budget` completions, and then a client passed if and only if what its
        connection delivered is its message once for each round. */
    method Run(maxLen: nat) returns (completions: nat)
      requires Valid() && clientsDone == 0 && Left() <= Budget(clients.Length, maxLen, rounds)
      modifies this, clients
      ensures completions <= Budget(clients.Length, maxLen, rounds)
      ensures submitted == queued == [] && |wires| == clients.Length
      ensures forall i | 0 <= i < clients.Length :: Finished(clients[i], rounds, wires[i])
      ensures SameMessages(clients[..], old(clients[..]))
    {
      hide Consistent, TotalWork, Finished, Budget;
      completions := 0;
      LeftIsNatural();
      while clientsDone < clients.Length
        invariant Valid() && Left() >= 0 && completions + Left() <= Budget(clients.Length, maxLen, rounds)
        invariant SameMessages(clients[..], old(clients[..]))
        decreases if Valid() then Left() else 0
      {
        var reaped := Pass();
        LeftIsNatural();
        completions := completions + reaped;
      }
      AllFinished();
    }

    lemma AllFinished()
      requires Valid() && clientsDone == clients.Length
      ensures submitted == queued == [] && |wires| == clients.Length
      ensures forall i | 0 <= i < clients.Length :: Finished(clients[i], rounds, wires[i])
    {
      assert submitted + queued == [];
      forall i | 0 <= i < clients.Length ensures Finished(clients[i], rounds, wires[i]) {
        assert clients[..][i] == clients[i];
      }
    }
  }
}
