/** How many clients the batched server can have: runs that connect any number of them, and the batch that then exhausts
    the submission queue. */
module QueueOverflow {
  import opened EchoKernel
  import opened EchoServer

  /** Descriptors, as there are. */
  const FD_LIMIT: nat := 0x7FFF_FFFE

  /** The descriptor of the `k`-th client: the numbers from zero on, without the listener. */
  function Fd(listenFd: int, k: nat): (fd: nat)
    ensures fd != listenFd && k <= fd <= k + 1
  {
    if k < listenFd then k else k + 1
  }

  /** Where the recv of the `k`-th client is in the log. */
  function RecvOf(k: nat): nat {
    2 * k + 1
  }

  /** The submissions after `n` accepts: a recv for each client, at the odd places, and an accept before, between and
      after them. The recvs and the last accept are outstanding. */
  ghost predicate Submitted(s: State, listenFd: int, n: nat) {
    && s.listenFd == listenFd && |s.log| == 2 * n + 1
    && (forall k: nat | k < n :: s.log[RecvOf(k)] == Submit(RecvRequest(Fd(listenFd, k))))
    && s.log[2 * n] == Submit(AcceptRequest)
    && (forall i: nat :: i in s.ops <==> i == 2 * n || (i < 2 * n && i % 2 == 1))
    && (forall fd | fd in s.clients :: fd < Fd(listenFd, n))
  }

  /** The first `m` recvs have completed with one byte. */
  ghost predicate Answered(s: State, listenFd: int, n: nat, m: nat) {
    && Submitted(s, listenFd, n) && m <= n
    && forall i | i in s.ops :: s.ops[i] == if i < 2 * m then Done(1) else InFlight
  }

  lemma StartAnswered(listenFd: int)
    requires IsFd(listenFd)
    ensures Answered(Init(listenFd), listenFd, 0, 0)
  {
    hide EchoCodec.Encode;
  }

  /** One more client. */
  /** The accept that has completed is taken. */
  lemma AcceptTaken(s: State, i: nat, fd: int)
    requires Inv(s) && i in s.ops && s.ops[i] == Done(fd) && i < |s.log| && s.log[i] == Submit(AcceptRequest)
    ensures Allowed(s.log, s.ops, s.listenFd, Takes(i))
    ensures IsFd(s.listenFd) && fd < 0x8000_0000
    ensures Apply(s, Takes(i)) == HandleAccept(s.(ops := s.ops - {i}), fd)
  {
    TakeDispatches(s, i);
    TakeIsStep(s, i);
    hide Inv, TakeCompletion, HandleAccept, Apply;
  }

  lemma Connect(s: State, listenFd: int, n: nat) returns (t: State)
    requires Inv(s) && Answered(s, listenFd, n, 0) && n < FD_LIMIT && IsFd(listenFd)
    ensures var a := Completes(2 * n, Fd(listenFd, n), []);
            && Allowed(s.log, s.ops, s.listenFd, a)
            && Inv(Apply(s, a)) && Allowed(Apply(s, a).log, Apply(s, a).ops, Apply(s, a).listenFd, Takes(2 * n))
            && t == Apply(Apply(s, a), Takes(2 * n)) && Answered(t, listenFd, n + 1, 0)
  {
    hide Inv, Apply, IsOpen, HandleAccept, Fd;
    AcceptCompletes(s, listenFd, n);
    hide Allowed;
    var s1 := Apply(s, Completes(2 * n, Fd(listenFd, n), []));
    AcceptTaken(s1, 2 * n, Fd(listenFd, n));
    t := Apply(s1, Takes(2 * n));
    AcceptAnswered(s1.(ops := s1.ops - {2 * n}), listenFd, n, t);
  }

  /** The kernel accepts the `n`-th descriptor. */
  lemma AcceptCompletes(s: State, listenFd: int, n: nat)
    requires Inv(s) && Submitted(s, listenFd, n) && s.ops[2 * n] == InFlight && n < FD_LIMIT && IsFd(listenFd)
    ensures var a := Completes(2 * n, Fd(listenFd, n), []);
            && Allowed(s.log, s.ops, s.listenFd, a) && Inv(Apply(s, a))
            && Apply(s, a) == s.(ops := s.ops[2 * n := Done(Fd(listenFd, n))])
  {
    var a := Completes(2 * n, Fd(listenFd, n), []);
    NotOpen(s, Fd(listenFd, n));
    hide Inv, IsOpen;
    assert Allowed(s.log, s.ops, s.listenFd, a);
    ApplyKeepsInv(s, a);
    CompleteDefined(s, 2 * n);
  }

  lemma NotOpen(s: State, fd: int)
    requires Inv(s) && fd !in s.clients
    ensures !IsOpen(s.log, fd)
  {
  }

  /** What the handler of an accept leaves. */
  lemma AcceptAnswered(s: State, listenFd: int, n: nat, t: State)
    requires s.listenFd == listenFd && IsFd(listenFd) && n < FD_LIMIT
    requires t == HandleAccept(s, Fd(listenFd, n))
    requires |s.log| == 2 * n + 1
    requires forall k: nat | k < n :: s.log[RecvOf(k)] == Submit(RecvRequest(Fd(listenFd, k)))
    requires forall i: nat :: i in s.ops <==> i < 2 * n && i % 2 == 1
    requires forall i | i in s.ops :: s.ops[i] == InFlight
    requires forall fd | fd in s.clients :: fd < Fd(listenFd, n)
    ensures Answered(t, listenFd, n + 1, 0)
  {
    hide HandleAccept, Fd, RecvOf, Answered;
    AcceptQueues(s, Fd(listenFd, n));
    AcceptedOps(s.ops, n);
    AcceptedLog(s.log, t.log, listenFd, n);
    FdGrows(listenFd, n);
    AnsweredWhen(t, listenFd, n + 1);
  }

  lemma AnsweredWhen(s: State, listenFd: int, n: nat)
    requires s.listenFd == listenFd && |s.log| == 2 * n + 1 && s.log[2 * n] == Submit(AcceptRequest)
    requires forall k: nat | k < n :: s.log[RecvOf(k)] == Submit(RecvRequest(Fd(listenFd, k)))
    requires forall i: nat :: i in s.ops <==> i == 2 * n || (i < 2 * n && i % 2 == 1)
    requires forall i | i in s.ops :: s.ops[i] == InFlight
    requires forall fd | fd in s.clients :: fd < Fd(listenFd, n)
    ensures Answered(s, listenFd, n, 0)
  {
    hide Fd, RecvOf;
  }

  lemma AcceptedLog(log: Log, log': Log, listenFd: int, n: nat)
    requires |log| == 2 * n + 1 && log' == log + [Submit(RecvRequest(Fd(listenFd, n))), Submit(AcceptRequest)]
    requires forall k: nat | k < n :: log[RecvOf(k)] == Submit(RecvRequest(Fd(listenFd, k)))
    ensures |log'| == 2 * (n + 1) + 1 && log'[2 * (n + 1)] == Submit(AcceptRequest)
    ensures forall k: nat | k < n + 1 :: log'[RecvOf(k)] == Submit(RecvRequest(Fd(listenFd, k)))
  {
    hide Fd;
    forall k: nat | k < n + 1 ensures log'[RecvOf(k)] == Submit(RecvRequest(Fd(listenFd, k))) {
      if k < n { assert log[RecvOf(k)] == log'[RecvOf(k)]; }
    }
  }

  lemma AcceptedOps(ops: map<nat, Stage>, n: nat)
    requires forall i: nat :: i in ops <==> i < 2 * n && i % 2 == 1
    requires forall i | i in ops :: ops[i] == InFlight
    ensures var ops' := ops[2 * n + 1 := InFlight][2 * n + 2 := InFlight];
            && (forall i: nat :: i in ops' <==> i == 2 * (n + 1) || (i < 2 * (n + 1) && i % 2 == 1))
            && (forall i | i in ops' :: ops'[i] == InFlight)
  {
  }

  lemma FdGrows(listenFd: int, n: nat)
    ensures Fd(listenFd, n) < Fd(listenFd, n + 1)
  {
  }

  lemma AcceptQueues(s: State, fd: nat)
    requires IsFd(s.listenFd) && fd < 0x8000_0000
    ensures var t := HandleAccept(s, fd);
            && t.listenFd == s.listenFd
            && t.log == s.log + [Submit(RecvRequest(fd)), Submit(AcceptRequest)]
            && t.ops == s.ops[|s.log| := InFlight][|s.log| + 1 := InFlight]
            && t.clients.Keys == s.clients.Keys + {fd}
  {
    hide EchoCodec.Encode;
  }

  lemma NoSteps(s: State)
    requires Inv(s)
    ensures Reaches(s, [], s)
  {
    hide Inv;
  }

  lemma ConnectNext(s0: State, before: seq<Action>, s1: State, listenFd: int, n: nat)
    returns (acts: seq<Action>, s: State)
    requires Inv(s0) && Inv(s1) && Reaches(s0, before, s1) && Answered(s1, listenFd, n, 0)
    requires n < FD_LIMIT && IsFd(listenFd)
    ensures Reaches(s0, acts, s) && Inv(s) && Answered(s, listenFd, n + 1, 0)
  {
    hide Inv, Reaches, Apply, Allowed, Answered, Fd;
    s := Connect(s1, listenFd, n);
    var a := Completes(2 * n, Fd(listenFd, n), []);
    ReachesAppend(s0, before, s1, a);
    ReachesAppend(s0, before + [a], Apply(s1, a), Takes(2 * n));
    acts := before + [a] + [Takes(2 * n)];
  }

  lemma {:induction false} ConnectMany(listenFd: int, n: nat) returns (acts: seq<Action>, s: State)
    requires IsFd(listenFd) && n <= FD_LIMIT
    ensures Inv(Init(listenFd)) && Reaches(Init(listenFd), acts, s) && Inv(s) && Answered(s, listenFd, n, 0)
  {
    hide Inv, Answered, Init, Reaches;
    InitInv(listenFd);
    if n == 0 {
      StartAnswered(listenFd);
      NoSteps(Init(listenFd));
      acts, s := [], Init(listenFd);
    } else {
      var before, s1 := ConnectMany(listenFd, n - 1);
      acts, s := ConnectNext(Init(listenFd), before, s1, listenFd, n - 1);
    }
  }

  /** One more recv completes. */
  lemma AnswerOne(s: State, listenFd: int, n: nat, m: nat)
    requires Inv(s) && Answered(s, listenFd, n, m) && m < n
    ensures Allowed(s.log, s.ops, s.listenFd, Completes(RecvOf(m), 1, [0]))
    ensures Answered(Apply(s, Completes(RecvOf(m), 1, [0])), listenFd, n, m + 1)
  {
    var i := RecvOf(m);
    assert s.log[i] == Submit(RecvRequest(Fd(listenFd, m)));
    var a := Completes(i, 1, [0]);
    assert Allowed(s.log, s.ops, s.listenFd, a);
    CompleteDefined(s, i);
    assert Apply(s, a) == Complete(s, i, 1, [0]);
    hide Inv, Apply, Allowed;
    RecvAnswered(s, listenFd, n, m);
  }

  lemma RecvAnswered(s: State, listenFd: int, n: nat, m: nat)
    requires Answered(s, listenFd, n, m) && m < n
    requires s.log[RecvOf(m)] == Submit(RecvRequest(Fd(listenFd, m)))
    requires Fd(listenFd, m) in s.clients && Fd(listenFd, m) in s.streams
    ensures Answered(Complete(s, RecvOf(m), 1, [0]), listenFd, n, m + 1)
  {
    var t := Complete(s, RecvOf(m), 1, [0]);
    hide Fill;
    assert t.ops == s.ops[RecvOf(m) := Done(1)] && t.log == s.log && t.clients.Keys == s.clients.Keys;
    assert t.ops.Keys == s.ops.Keys;
  }

  lemma {:induction false} AnswerMany(listenFd: int, n: nat, m: nat) returns (acts: seq<Action>, s: State)
    requires IsFd(listenFd) && m <= n <= FD_LIMIT
    ensures Inv(Init(listenFd)) && Reaches(Init(listenFd), acts, s) && Inv(s) && Answered(s, listenFd, n, m)
    decreases m
  {
    hide Inv, Reaches, Apply, Allowed, Answered, Init, RecvOf;
    if m == 0 {
      acts, s := ConnectMany(listenFd, n);
    } else {
      var before, s1 := AnswerMany(listenFd, n, m - 1);
      acts, s := AnswerNext(Init(listenFd), before, s1, listenFd, n, m - 1);
    }
  }

  lemma AnswerNext(s0: State, before: seq<Action>, s1: State, listenFd: int, n: nat, m: nat)
    returns (acts: seq<Action>, s: State)
    requires Inv(s0) && Inv(s1) && Reaches(s0, before, s1) && Answered(s1, listenFd, n, m) && m < n
    ensures Reaches(s0, acts, s) && Inv(s) && Answered(s, listenFd, n, m + 1)
  {
    hide Inv, Reaches, Apply, Allowed, Answered, RecvOf;
    AnswerOne(s1, listenFd, n, m);
    var a := Completes(RecvOf(m), 1, [0]);
    ReachesAppend(s0, before, s1, a);
    acts, s := before + [a], Apply(s1, a);
  }

  /** Everything outstanding. */
  function Everything(n: nat): (batch: seq<nat>)
    ensures |batch| == n + 1 && batch[n] == 2 * n && forall k | 0 <= k < n :: batch[k] == RecvOf(k)
  {
    seq(n + 1, k requires 0 <= k < n + 1 => if k < n then RecvOf(k) else 2 * n)
  }

  lemma EverythingIsBatch(s: State, listenFd: int, n: nat)
    requires Submitted(s, listenFd, n) && n > 0
    requires forall i | i in s.ops :: s.ops[i].Done? && s.ops[i].res > 0
    ensures Batch(s, Everything(n)) && (forall i | i in s.ops :: i in Everything(n))
    ensures forall k | 0 <= k < |Everything(n)| :: s.ops[Everything(n)[k]].res > 0
  {
    var batch := Everything(n);
    forall i | i in s.ops ensures i in batch {
      assert i < 2 * n ==> batch[i / 2] == i;
    }
    forall k | 0 <= k < |batch| ensures batch[k] in s.ops && batch[k] < |s.log| && s.log[batch[k]].Submit? {
      if k < n { assert s.log[RecvOf(k)].Submit?; }
    }
  }

  /** Everything outstanding has succeeded. */
  ghost predicate Succeeded(s: State, listenFd: int, n: nat) {
    Submitted(s, listenFd, n) && forall i | i in s.ops :: s.ops[i].Done? && s.ops[i].res > 0
  }

  lemma LastAccepted(s0: State, before: seq<Action>, s1: State, listenFd: int, n: nat)
    returns (acts: seq<Action>, s: State)
    requires Inv(s0) && Inv(s1) && Reaches(s0, before, s1) && Answered(s1, listenFd, n, n)
    requires 0 < n < FD_LIMIT && IsFd(listenFd)
    ensures Reaches(s0, acts, s) && Inv(s) && Succeeded(s, listenFd, n)
  {
    hide Inv, Reaches, Apply, Allowed;
    AcceptCompletes(s1, listenFd, n);
    var a := Completes(2 * n, Fd(listenFd, n), []);
    LastSucceeds(s1, listenFd, n);
    hide Answered, Submitted, Succeeded;
    ReachesAppend(s0, before, s1, a);
    acts, s := before + [a], Apply(s1, a);
  }

  lemma LastSucceeds(s: State, listenFd: int, n: nat)
    requires Answered(s, listenFd, n, n) && n > 0
    ensures Succeeded(s.(ops := s.ops[2 * n := Done(Fd(listenFd, n))]), listenFd, n)
  {
  }

  /** A state with `n` clients in which everything outstanding has succeeded. */
  lemma EverythingSucceeds(listenFd: int, n: nat) returns (acts: seq<Action>, s: State)
    requires IsFd(listenFd) && 0 < n < FD_LIMIT
    ensures Inv(Init(listenFd)) && Reaches(Init(listenFd), acts, s) && Inv(s) && Succeeded(s, listenFd, n)
  {
    hide Inv, Reaches, Init, Answered, Succeeded;
    var before, s1 := AnswerMany(listenFd, n, n);
    acts, s := LastAccepted(Init(listenFd), before, s1, listenFd, n);
  }

  /** With any number of clients above 4094 there is a run after which a batch exhausts the submission queue. */
  lemma OverflowReached(listenFd: int, n: nat) returns (acts: seq<Action>, s: State, batch: seq<nat>)
    requires IsFd(listenFd) && SQ_ENTRIES - 2 < n < FD_LIMIT
    ensures Inv(Init(listenFd)) && Reaches(Init(listenFd), acts, s)
    ensures |s.clients.Keys| == n && Batch(s, batch) && BatchCost(s, batch) > SQ_ENTRIES
  {
    acts, s := EverythingSucceeds(listenFd, n);
    batch := Everything(n);
    EverythingIsBatch(s, listenFd, n);
    hide Inv, Reaches, Init, Succeeded, Submitted, Everything;
    BatchSize(s, batch);
    QueueBound(s, batch);
  }

  /** No batch of a run with at most `n` clients ever exhausts the submission queue if and only if `n` is at most
      4094. */
  lemma ClientLimit(listenFd: int, n: nat)
    requires IsFd(listenFd) && n < FD_LIMIT
    ensures Inv(Init(listenFd))
    ensures n <= SQ_ENTRIES - 2 <==>
              forall acts, s, batch |
                Reaches(Init(listenFd), acts, s) && |s.clients.Keys| <= n && Batch(s, batch) ::
                BatchCost(s, batch) <= SQ_ENTRIES
  {
    InitInv(listenFd);
    hide Inv, Reaches, Init, BatchCost, Batch;
    if n <= SQ_ENTRIES - 2 {
      forall acts, s, batch | Reaches(Init(listenFd), acts, s) && |s.clients.Keys| <= n && Batch(s, batch)
        ensures BatchCost(s, batch) <= SQ_ENTRIES
      {
        ReachesKeepsInv(Init(listenFd), acts, s);
        QueueBound(s, batch);
      }
    } else {
      var acts, s, batch := OverflowReached(listenFd, n);
    }
  }
}
