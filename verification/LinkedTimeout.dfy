/** The coroutine server with idle timeouts: every recv is submitted together with a linked timeout, so it yields two
    completions. The timeout's request is allocated on the heap, because it may complete after the coroutine that
    submitted it has gone on. */
module LinkedTimeout {
  import opened Wrappers
  import opened EchoKernel
  import opened TimeoutCoroutine
  import Counting
  import Callback = EchoServer
  import Coroutine = CoroutineEcho
  import Equivalence = EchoEquivalence

  /** A submitted timeout: the address of its request, and whether its completion is there. */
  datatype Timer = Timer(addr: nat, stage: Stage)

  /** `main` holds the coroutines and their own operations. A timeout is known by the submission it is linked to;
      `heap` maps the address of each allocated request to the timeout it was allocated for, and `deleted` lists the
      timeouts whose request has been deleted. */
  datatype State = State(main: Coroutine.State, timers: map<nat, Timer>, heap: map<nat, nat>, deleted: seq<nat>)

  /** A coroutine's operation completes or is taken, or a timeout does. `address` is the address that `new` returns when
      the coroutine resumed by this step submits a recv. */
  datatype Step = Operation(a: Action, address: nat) | TimerCompletes(i: nat, res: int) | TimerTaken(i: nat)

  predicate IsRecv(log: Log, i: nat) {
    i < |log| && log[i].Submit? && log[i].req.RecvRequest?
  }

  /** `await_suspend` of a recv: its timeout is submitted with a new request. */
  function Arm(s: State, i: nat, address: nat): State {
    s.(timers := s.timers[i := Timer(address, InFlight)], heap := s.heap[address := i])
  }

  /** The effects of coroutine `h`, one after the other: submissions carry its handle, and a timeout is linked to the
      submission before it. */
  function Perform(s: State, h: nat, es: seq<TimedEffect>, address: nat): State
    decreases |es|
  {
    if es == [] then s
    else
      var s1 := match es[0]
                case Plain(Submit(req)) => s.(main := Coroutine.Await(s.main, req, h))
                case Plain(CloseFd(fd)) => s.(main := s.main.(log := s.main.log + [CloseFd(fd)]))
                case LinkTimeout => if s.main.log == [] then s else Arm(s, |s.main.log| - 1, address);
      Perform(s1, h, es[1..], address)
  }

  /** `accept_loop`: a new client runs to its first await before the loop accepts again. */
  function ResumeAcceptor(s: State, res: int, address: nat): State {
    var again := [Plain(Submit(AcceptRequest))];
    if res < 0 then Perform(s, Coroutine.ACCEPT_LOOP, again, address)
    else
      var h := s.main.nextHandle;
      var s1 := s.(main := s.main.(frames := s.main.frames[h := Coroutine.AtRecv(res, ZeroBuffer())],
                                   nextHandle := h + 1));
      Perform(Perform(s1, h, RecvWithTimeout(res), address), Coroutine.ACCEPT_LOOP, again, address)
  }

  function ResumeHandler(s: State, h: nat, res: int, address: nat): State
    requires h in s.main.frames && res <= CLIENT_BUF_SIZE
    requires s.main.frames[h].AtSend? ==> s.main.frames[h].n <= CLIENT_BUF_SIZE
  {
    var r := ResumeTimed(s.main.frames[h], res);
    var frames := if r.0.Some? then s.main.frames[h := r.0.value] else s.main.frames - {h};
    Perform(s.(main := s.main.(frames := frames)), h, r.1, address)
  }

  /** An operation completes, or its completion is taken and resumes the coroutine that awaits it. */
  function Resume(s: State, a: Action, address: nat): State
    requires MainReady(s.main, a)
  {
    match a
    case Completes(_, _, _) => s.(main := Coroutine.Apply(s.main, a))
    case Takes(i) =>
      var s1 := s.(main := s.main.(ops := s.main.ops - {i}));
      if s.main.log[i].req.AcceptRequest? then ResumeAcceptor(s1, s.main.ops[i].res, address)
      else ResumeHandler(s1, s.main.tags[i], s.main.ops[i].res, address)
  }

  ghost predicate MainReady(t: Coroutine.State, a: Action) {
    && Coroutine.Awaited(t, a.i)
    && (a.Takes? ==> a.i in t.ops && t.ops[a.i].Done?)
    && (a.Takes? && !t.log[a.i].req.AcceptRequest? ==> t.ops[a.i].res <= CLIENT_BUF_SIZE)
    && (a.Completes? ==> |a.data| <= CLIENT_BUF_SIZE)
  }

  /** Each submission completes once, and `new` returns an address that is not in use. The two completions of a recv
      come in either order. */
  ghost predicate Possible(s: State, step: Step) {
    match step
    case Operation(a, address) =>
      Allowed(s.main.log, s.main.ops, s.main.listenFd, a) && MainReady(s.main, a) && address !in s.heap
    case TimerCompletes(i, res) => i in s.timers && s.timers[i].stage.InFlight?
    case TimerTaken(i) => i in s.timers && s.timers[i].stage.Done? && s.timers[i].addr in s.heap
  }

  function Apply(s: State, step: Step): State
    requires Possible(s, step)
  {
    match step
    case Operation(a, address) => Resume(s, a, address)
    case TimerCompletes(i, res) => s.(timers := s.timers[i := s.timers[i].(stage := Done(res))])
    case TimerTaken(i) =>
      var addr := s.timers[i].addr;
      s.(timers := s.timers - {i}, heap := s.heap - {addr}, deleted := s.deleted + [s.heap[addr]])
  }

  function Init(listenFd: int): State {
    State(Coroutine.Init(listenFd), map[], map[], [])
  }

  // ----- the coroutines, with and without timeouts -----

  ghost predicate FramesOk(t: Coroutine.State) {
    forall h | h in t.frames :: FrameOk(t.frames[h])
  }

  /** What the coroutine server without timeouts does, and a timeout for the recv that it submits, if any. */
  function WithTimeout(s: State, a: Action, address: nat): State
    requires MainReady(s.main, a)
  {
    var s1 := s.(main := Coroutine.Apply(s.main, a));
    if IsRecv(s1.main.log, |s.main.log|) then Arm(s1, |s.main.log|, address) else s1
  }

  lemma PerformOne(s: State, h: nat, e: Effect, address: nat)
    ensures Perform(s, h, [Plain(e)], address) ==
              match e
              case Submit(req) => s.(main := Coroutine.Await(s.main, req, h))
              case CloseFd(fd) => s.(main := s.main.(log := s.main.log + [CloseFd(fd)]))
  {
  }

  lemma PerformRecv(s: State, h: nat, fd: int, address: nat)
    ensures Perform(s, h, RecvWithTimeout(fd), address)
            == Arm(s.(main := Coroutine.Await(s.main, RecvRequest(fd), h)), |s.main.log|, address)
  {
    var es := RecvWithTimeout(fd);
    var s1 := s.(main := Coroutine.Await(s.main, RecvRequest(fd), h));
    assert es[1..] == [LinkTimeout] && [LinkTimeout][1..] == [];
    assert Perform(s, h, es, address) == Perform(s1, h, [LinkTimeout], address);
  }

  /** What a resumed client coroutine performs: one effect, and the timeout if that is a recv. */
  lemma HandlerEffects(f: Coroutine.Frame, res: int)
    requires FrameOk(f) && res <= CLIENT_BUF_SIZE
    ensures var r := Coroutine.ResumeFrame(f, res);
            && ResumeTimed(f, res).0 == r.0
            && |r.1| == 1 && (r.0.None? ==> r.1[0].CloseFd?)
            && (r.0.Some? ==> r.1[0].Submit? && !r.1[0].req.AcceptRequest?)
            && ResumeTimed(f, res).1 == if IsRecv(r.1, 0) then RecvWithTimeout(r.1[0].req.fd) else [Plain(r.1[0])]
  {
    if f.AtRecv? && res > 0 { assert f.buf[0..res] == f.buf[..res]; }
  }

  lemma HandlerRefines(s: State, i: nat, address: nat)
    requires MainReady(s.main, Takes(i)) && FramesOk(s.main) && !s.main.log[i].req.AcceptRequest?
    ensures Resume(s, Takes(i), address) == WithTimeout(s, Takes(i), address)
  {
    var h, res := s.main.tags[i], s.main.ops[i].res;
    var f := s.main.frames[h];
    HandlerEffects(f, res);
    var r := Coroutine.ResumeFrame(f, res);
    var frames := if r.0.Some? then s.main.frames[h := r.0.value] else s.main.frames - {h};
    var s1 := s.(main := s.main.(ops := s.main.ops - {i}, frames := frames));
    if IsRecv(r.1, 0) {
      PerformRecv(s1, h, r.1[0].req.fd, address);
    } else {
      PerformOne(s1, h, r.1[0], address);
    }
    hide Perform, ResumeTimed, Coroutine.ResumeFrame, RecvWithTimeout;
  }

  lemma AcceptorRefines(s: State, i: nat, address: nat)
    requires MainReady(s.main, Takes(i)) && s.main.log[i].req.AcceptRequest?
    ensures Resume(s, Takes(i), address) == WithTimeout(s, Takes(i), address)
  {
    var s1 := s.(main := s.main.(ops := s.main.ops - {i}));
    var res := s.main.ops[i].res;
    if res < 0 {
      PerformOne(s1, Coroutine.ACCEPT_LOOP, Submit(AcceptRequest), address);
    } else {
      var h := s.main.nextHandle;
      var s2 := s1.(main := s1.main.(frames := s1.main.frames[h := Coroutine.AtRecv(res, ZeroBuffer())],
                                     nextHandle := h + 1));
      PerformRecv(s2, h, res, address);
      var s3 := Arm(s2.(main := Coroutine.Await(s2.main, RecvRequest(res), h)), |s2.main.log|, address);
      PerformOne(s3, Coroutine.ACCEPT_LOOP, Submit(AcceptRequest), address);
    }
    hide Perform, RecvWithTimeout;
  }

  /** Each step of the coroutines is one without timeouts, and a timeout for the recv that it submits, if any. */
  lemma ResumeRefines(s: State, a: Action, address: nat)
    requires MainReady(s.main, a) && FramesOk(s.main)
    ensures Resume(s, a, address) == WithTimeout(s, a, address)
    ensures FramesOk(Coroutine.Apply(s.main, a))
  {
    StepKeepsFrames(s.main, a);
    match a
    case Completes(i, res, data) => CompletionSubmitsNothing(s, a);
    case Takes(i) =>
      if s.main.log[i].req.AcceptRequest? {
        AcceptorRefines(s, i, address);
      } else {
        HandlerRefines(s, i, address);
      }
  }

  lemma CompletionSubmitsNothing(s: State, a: Action)
    requires MainReady(s.main, a) && a.Completes?
    ensures Coroutine.Apply(s.main, a).log == s.main.log
  {
  }

  lemma StepKeepsFrames(t: Coroutine.State, a: Action)
    requires MainReady(t, a) && FramesOk(t)
    ensures FramesOk(Coroutine.Apply(t, a))
  {
    if a.Takes? && !t.log[a.i].req.AcceptRequest? {
      ResumesAlike(t.frames[t.tags[a.i]], t.ops[a.i].res);
      hide ResumeTimed, Coroutine.ResumeFrame, Untimed;
    }
  }

  // ----- accounting -----

  /** The allocated requests are exactly those of the outstanding timeouts, one each. */
  ghost predicate HeapMatches(timers: map<nat, Timer>, heap: map<nat, nat>) {
    && (forall i | i in timers :: timers[i].addr in heap && heap[timers[i].addr] == i)
    && (forall addr | addr in heap :: heap[addr] in timers && timers[heap[addr]].addr == addr)
  }

  /** Every recv submitted so far has its timeout outstanding, or the timeout's request was deleted, once. */
  ghost predicate EachRecvTimed(log: Log, timers: map<nat, Timer>, deleted: seq<nat>) {
    && (forall i | i in timers :: IsRecv(log, i) && i !in deleted)
    && (forall i | i in deleted :: IsRecv(log, i))
    && (forall i: nat | IsRecv(log, i) :: i in timers || i in deleted)
    && (forall j, k | 0 <= j < k < |deleted| :: deleted[j] != deleted[k])
  }

  /** The coroutines are where some state of the callback server has its clients. */
  ghost predicate MainSound(t: Coroutine.State) {
    exists s :: Callback.Inv(s) && Equivalence.Related(s, t)
  }

  /** `current` pairs every coroutine that is alive with the one outstanding operation it awaits. */
  ghost predicate Current(t: Coroutine.State, current: map<nat, nat>) {
    && current.Keys == t.frames.Keys + {Coroutine.ACCEPT_LOOP}
    && (forall h | h in current ::
          h < t.nextHandle && current[h] in t.ops && current[h] in t.tags && t.tags[current[h]] == h)
    && (forall i | i in t.ops :: i < |t.log| && i in t.tags && t.tags[i] in current && current[t.tags[i]] == i)
    && Coroutine.ACCEPT_LOOP !in t.frames
  }

  ghost predicate OneAwait(t: Coroutine.State) {
    exists current :: Current(t, current)
  }

  ghost predicate Inv(s: State) {
    && MainSound(s.main)
    && OneAwait(s.main)
    && FramesOk(s.main)
    && HeapMatches(s.timers, s.heap)
    && EachRecvTimed(s.main.log, s.timers, s.deleted)
  }

  lemma InitInv(listenFd: int)
    requires Callback.IsFd(listenFd)
    ensures Inv(Init(listenFd))
  {
    InitSound(listenFd);
    InitOneAwait(listenFd);
    InitLog(listenFd);
    hide MainSound, OneAwait, Coroutine.Init;
    NothingTimedYet(Coroutine.Init(listenFd).log);
    hide HeapMatches, EachRecvTimed;
  }

  lemma InitLog(listenFd: int)
    ensures Coroutine.Init(listenFd).log == [Submit(AcceptRequest)]
  {
  }

  lemma NothingTimedYet(log: Log)
    requires log == [Submit(AcceptRequest)]
    ensures HeapMatches(map[], map[]) && EachRecvTimed(log, map[], [])
  {
  }

  lemma InitOneAwait(listenFd: int)
    ensures OneAwait(Coroutine.Init(listenFd))
  {
    var current: map<nat, nat> := map[Coroutine.ACCEPT_LOOP := 0];
    assert Current(Coroutine.Init(listenFd), current);
  }

  lemma InitSound(listenFd: int)
    requires Callback.IsFd(listenFd)
    ensures MainSound(Coroutine.Init(listenFd))
  {
    Callback.InitInv(listenFd);
    Equivalence.InitRelated(listenFd);
    hide Callback.Inv, Callback.Init, Equivalence.Related, Coroutine.Init;
    var s := Callback.Init(listenFd);
    assert Callback.Inv(s) && Equivalence.Related(s, Coroutine.Init(listenFd));
  }

  /** Every outstanding operation resumes a coroutine that is still suspended, at that operation. */
  lemma MainStepSound(t: Coroutine.State, a: Action)
    requires MainSound(t) && Allowed(t.log, t.ops, t.listenFd, a)
    ensures MainReady(t, a) && MainSound(Coroutine.Apply(t, a))
  {
    var s :| Callback.Inv(s) && Equivalence.Related(s, t);
    Equivalence.RelatedIsAwaited(s, t, a);
    Callback.ApplyKeepsInv(s, a);
    hide Callback.Inv, Equivalence.Related;
    match a {
      case Completes(i, res, data) => Equivalence.CompleteKeepsRelated(s, t, i, res, data);
      case Takes(i) => Equivalence.TakeKeepsRelated(s, t, i);
    }
  }

  /** The log only grows, and a step submits a recv at most as its first effect. */
  lemma MainStepLog(t: Coroutine.State, a: Action)
    requires MainReady(t, a)
    ensures t.log <= Coroutine.Apply(t, a).log
    ensures forall i: nat | IsRecv(Coroutine.Apply(t, a).log, i) :: i <= |t.log|
  {
  }

  /** A resumed coroutine that does not end awaits again; one that ends awaits nothing. */
  lemma StepKeepsOneAwait(t: Coroutine.State, a: Action)
    requires OneAwait(t) && MainReady(t, a) && a.i in t.ops
    ensures OneAwait(Coroutine.Apply(t, a))
  {
    var current :| Current(t, current);
    match a
    case Completes(i, res, data) => CompletionKeepsCurrent(t, a, current);
    case Takes(i) =>
      if t.log[i].req.AcceptRequest? {
        AcceptKeepsCurrent(t, i, current);
      } else {
        ClientKeepsCurrent(t, i, current);
      }
  }

  lemma CompletionKeepsCurrent(t: Coroutine.State, a: Action, current: map<nat, nat>)
    requires Current(t, current) && MainReady(t, a) && a.i in t.ops && a.Completes?
    ensures Current(Coroutine.Apply(t, a), current)
  {
    assert Coroutine.Apply(t, a).frames.Keys == t.frames.Keys;
  }

  lemma AcceptKeepsCurrent(t: Coroutine.State, i: nat, current: map<nat, nat>)
    requires Current(t, current) && MainReady(t, Takes(i)) && t.log[i].req.AcceptRequest?
    ensures OneAwait(Coroutine.Apply(t, Takes(i)))
  {
    if t.ops[i].res < 0 {
      AwaitsAgain(t, Coroutine.Apply(t, Takes(i)), i, current);
    } else {
      StartsAwaiting(t, Coroutine.Apply(t, Takes(i)), i, current);
    }
  }

  /** A new coroutine awaits its first recv, and the accept loop accepts again. */
  lemma StartsAwaiting(t: Coroutine.State, t': Coroutine.State, i: nat, current: map<nat, nat>)
    requires Current(t, current) && i in t.ops && t.tags[i] == Coroutine.ACCEPT_LOOP
    requires |t'.log| == |t.log| + 2 && t'.nextHandle == t.nextHandle + 1
    requires t'.frames.Keys == t.frames.Keys + {t.nextHandle}
    requires t'.ops == (t.ops - {i})[|t.log| := InFlight][|t.log| + 1 := InFlight]
    requires t'.tags == t.tags[|t.log| := t.nextHandle][|t.log| + 1 := Coroutine.ACCEPT_LOOP]
    ensures OneAwait(t')
  {
    var n := |t.log|;
    var current' := current[t.nextHandle := n][Coroutine.ACCEPT_LOOP := n + 1];
    forall h | h in current'
      ensures h < t'.nextHandle && current'[h] in t'.ops && current'[h] in t'.tags && t'.tags[current'[h]] == h
    {
      if h != t.nextHandle && h != Coroutine.ACCEPT_LOOP {
        assert h in current && current[h] != i && current[h] < n;
      }
    }
    forall j | j in t'.ops
      ensures j < |t'.log| && j in t'.tags && t'.tags[j] in current' && current'[t'.tags[j]] == j
    {
      if j < n {
        assert j in t.ops && t.tags[j] != t.nextHandle && t.tags[j] != t.tags[i];
      }
    }
    assert Current(t', current');
  }

  lemma ClientKeepsCurrent(t: Coroutine.State, i: nat, current: map<nat, nat>)
    requires Current(t, current) && MainReady(t, Takes(i)) && !t.log[i].req.AcceptRequest?
    ensures OneAwait(Coroutine.Apply(t, Takes(i)))
  {
    var t' := Coroutine.Apply(t, Takes(i));
    var c := t.tags[i];
    if c in t'.frames {
      assert t'.frames.Keys == t.frames.Keys;
      AwaitsAgain(t, t', i, current);
    } else {
      Ends(t, t', i, current);
    }
  }

  /** The coroutine that awaited `i` awaits the next submission. */
  lemma AwaitsAgain(t: Coroutine.State, t': Coroutine.State, i: nat, current: map<nat, nat>)
    requires Current(t, current) && i in t.ops
    requires |t'.log| == |t.log| + 1 && t'.nextHandle == t.nextHandle && t'.frames.Keys == t.frames.Keys
    requires t'.ops == (t.ops - {i})[|t.log| := InFlight] && t'.tags == t.tags[|t.log| := t.tags[i]]
    ensures OneAwait(t')
  {
    var n := |t.log|;
    var current' := current[t.tags[i] := n];
    forall h | h in current'
      ensures h < t'.nextHandle && current'[h] in t'.ops && current'[h] in t'.tags && t'.tags[current'[h]] == h
    {
      if h != t.tags[i] {
        assert h in current && current[h] != i && current[h] < n;
      }
    }
    forall j | j in t'.ops
      ensures j < |t'.log| && j in t'.tags && t'.tags[j] in current' && current'[t'.tags[j]] == j
    {
      if j < n {
        assert j in t.ops && t.tags[j] != t.tags[i];
      }
    }
    assert Current(t', current');
  }

  lemma Ends(t: Coroutine.State, t': Coroutine.State, i: nat, current: map<nat, nat>)
    requires Current(t, current) && i in t.ops && t.tags[i] in t.frames
    requires |t'.log| >= |t.log| && t'.nextHandle == t.nextHandle && t'.frames == t.frames - {t.tags[i]}
    requires t'.ops == t.ops - {i} && t'.tags == t.tags
    ensures OneAwait(t')
  {
    assert Current(t', current - {t.tags[i]});
  }

  lemma ArmKeepsHeap(timers: map<nat, Timer>, heap: map<nat, nat>, i: nat, address: nat)
    requires HeapMatches(timers, heap) && i !in timers && address !in heap
    ensures HeapMatches(timers[i := Timer(address, InFlight)], heap[address := i])
  {
  }

  /** The recv that a step submits, if any, is at the end of the log before it. */
  lemma ArmKeepsTimed(log: Log, log': Log, timers: map<nat, Timer>, deleted: seq<nat>, address: nat)
    requires EachRecvTimed(log, timers, deleted) && log <= log'
    requires forall i: nat | IsRecv(log', i) :: i <= |log|
    ensures |log| !in timers
    ensures var armed := if IsRecv(log', |log|) then timers[|log| := Timer(address, InFlight)] else timers;
            EachRecvTimed(log', armed, deleted)
  {
    forall i: nat | i < |log| ensures IsRecv(log', i) == IsRecv(log, i) {
      assert log'[i] == log[i];
    }
  }

  lemma MainStepTimed(s: State, a: Action, address: nat)
    requires MainReady(s.main, a) && address !in s.heap
    requires HeapMatches(s.timers, s.heap) && EachRecvTimed(s.main.log, s.timers, s.deleted)
    ensures var s' := WithTimeout(s, a, address);
            HeapMatches(s'.timers, s'.heap) && EachRecvTimed(s'.main.log, s'.timers, s'.deleted)
  {
    hide Coroutine.Apply, HeapMatches, EachRecvTimed, IsRecv;
    MainStepLog(s.main, a);
    ArmKeepsTimed(s.main.log, Coroutine.Apply(s.main, a).log, s.timers, s.deleted, address);
    ArmKeepsHeap(s.timers, s.heap, |s.main.log|, address);
  }

  lemma StepKeepsInv(s: State, step: Step)
    requires Inv(s) && Possible(s, step)
    ensures Inv(Apply(s, step))
  {
    hide Inv, Apply, Possible;
    match step
    case Operation(a, address) => OperationKeepsInv(s, a, address);
    case TimerCompletes(i, res) => TimerCompletionKeepsInv(s, i, res);
    case TimerTaken(i) => TimerTakenKeepsInv(s, i);
  }

  lemma TimerCompletionKeepsInv(s: State, i: nat, res: int)
    requires Inv(s) && Possible(s, TimerCompletes(i, res))
    ensures Inv(Apply(s, TimerCompletes(i, res)))
  {
    hide MainSound, OneAwait, FramesOk;
  }

  lemma TimerTakenKeepsInv(s: State, i: nat)
    requires Inv(s) && Possible(s, TimerTaken(i))
    ensures Inv(Apply(s, TimerTaken(i)))
  {
    TakenTimed(s, i);
    hide MainSound, OneAwait, FramesOk, HeapMatches, EachRecvTimed;
  }

  lemma TimedMain(s: State, a: Action, address: nat)
    requires MainReady(s.main, a)
    ensures WithTimeout(s, a, address).main == Coroutine.Apply(s.main, a)
  {
    hide Coroutine.Apply;
  }

  lemma OperationKeepsInv(s: State, a: Action, address: nat)
    requires Inv(s) && Possible(s, Operation(a, address))
    ensures Inv(Apply(s, Operation(a, address)))
  {
    assert a.i in s.main.ops;
    hide MainSound, OneAwait, HeapMatches, EachRecvTimed, FramesOk, Coroutine.Apply, Resume, Allowed, WithTimeout;
    MainStepSound(s.main, a);
    StepKeepsOneAwait(s.main, a);
    MainStepTimed(s, a, address);
    ResumeRefines(s, a, address);
    TimedMain(s, a, address);
  }

  lemma TakenTimed(s: State, i: nat)
    requires HeapMatches(s.timers, s.heap) && EachRecvTimed(s.main.log, s.timers, s.deleted) && i in s.timers
    ensures s.timers[i].addr in s.heap && s.heap[s.timers[i].addr] == i
    ensures HeapMatches(s.timers - {i}, s.heap - {s.timers[i].addr})
    ensures EachRecvTimed(s.main.log, s.timers - {i}, s.deleted + [i])
  {
  }

  ghost predicate Reaches(s: State, steps: seq<Step>, s': State)
    decreases |steps|
  {
    if steps == [] then s == s'
    else Possible(s, steps[0]) && Reaches(Apply(s, steps[0]), steps[1..], s')
  }

  lemma {:induction false} RunKeepsInv(s: State, steps: seq<Step>, s': State)
    requires Inv(s) && Reaches(s, steps, s')
    ensures Inv(s')
    decreases |steps|
  {
    if steps != [] {
      StepKeepsInv(s, steps[0]);
      RunKeepsInv(Apply(s, steps[0]), steps[1..], s');
    }
  }

  // ----- main results -----

  /** Along every run, whatever the order of the two completions: there is one allocated request for each outstanding
      timeout, and every recv's request is either allocated or has been deleted, exactly once. */
  lemma TimeoutAccounting(listenFd: int, steps: seq<Step>, s: State)
    requires Callback.IsFd(listenFd) && Reaches(Init(listenFd), steps, s)
    ensures |s.heap| == |s.timers|
    ensures forall i: nat | IsRecv(s.main.log, i) ::
              multiset(s.deleted)[i] + (if i in s.timers then 1 else 0) == 1
    ensures forall i | i in s.timers :: s.timers[i].addr in s.heap && s.heap[s.timers[i].addr] == i
  {
    InitInv(listenFd);
    RunKeepsInv(Init(listenFd), steps, s);
    HeapCount(s.timers, s.heap);
    forall i: nat | IsRecv(s.main.log, i)
      ensures multiset(s.deleted)[i] + (if i in s.timers then 1 else 0) == 1
    {
      OccursOnce(s.deleted, i);
    }
  }

  lemma HeapCount(timers: map<nat, Timer>, heap: map<nat, nat>)
    requires HeapMatches(timers, heap)
    ensures |heap| == |timers|
  {
    assert heap.Values == timers.Keys by {
      forall i | i in timers ensures i in heap.Values {
        assert timers[i].addr in heap && heap[timers[i].addr] == i;
      }
    }
    Counting.InjectiveMapCount(heap);
    assert |heap| == |heap.Keys| && |timers| == |timers.Keys|;
  }

  lemma {:induction false} OccursOnce(s: seq<nat>, i: nat)
    requires forall j, k | 0 <= j < k < |s| :: s[j] != s[k]
    ensures multiset(s)[i] == if i in s then 1 else 0
  {
    if s != [] {
      var last := |s| - 1;
      OccursOnce(s[..last], i);
      assert s == s[..last] + [s[last]];
    }
  }

  /** Every coroutine alive awaits exactly one outstanding operation, of the kind it is suspended at, and every
      completion taken resumes one of them. */
  lemma ResumesSuspendedOnce(listenFd: int, steps: seq<Step>, s: State)
    requires Callback.IsFd(listenFd) && Reaches(Init(listenFd), steps, s)
    ensures forall i | i in s.main.ops :: Coroutine.Awaited(s.main, i)
    ensures exists current :: Current(s.main, current)
  {
    InitInv(listenFd);
    RunKeepsInv(Init(listenFd), steps, s);
    forall i | i in s.main.ops ensures Coroutine.Awaited(s.main, i) {
      OutstandingIsAwaited(s.main, i);
    }
  }

  lemma OutstandingIsAwaited(t: Coroutine.State, i: nat)
    requires MainSound(t) && i in t.ops
    ensures Coroutine.Awaited(t, i)
  {
    var s :| Callback.Inv(s) && Equivalence.Related(s, t);
    if t.ops[i].Done? {
      Equivalence.RelatedIsAwaited(s, t, Takes(i));
    } else if t.log[i].req.RecvRequest? {
      Equivalence.RelatedIsAwaited(s, t, Completes(i, 0, []));
    } else {
      Equivalence.RelatedIsAwaited(s, t, Completes(i, -1, []));
    }
  }

  // ----- the timeouts are invisible -----

  /** The steps of the coroutines alone. */
  function Erase(steps: seq<Step>): seq<Action> {
    if steps == [] then []
    else (if steps[0].Operation? then [steps[0].a] else []) + Erase(steps[1..])
  }

  lemma {:induction false} ErasedRun(s: State, steps: seq<Step>, s': State)
    requires Reaches(s, steps, s') && FramesOk(s.main)
    ensures Equivalence.CoroutineRuns(s.main, Erase(steps), s'.main)
    decreases |steps|
  {
    if steps != [] {
      if steps[0].Operation? { ResumeRefines(s, steps[0].a, steps[0].address); }
      hide Resume, FramesOk;
      ErasedRun(Apply(s, steps[0]), steps[1..], s');
      if steps[0].Operation? {
        assert Erase(steps)[1..] == Erase(steps[1..]);
      } else {
        assert Erase(steps) == Erase(steps[1..]);
      }
    }
  }

  /** An address above all that are in use. */
  lemma {:induction false} UnusedAddress(used: set<nat>) returns (address: nat)
    ensures address !in used && forall b | b in used :: b < address
    decreases |used|
  {
    address := 0;
    if used != {} {
      var b :| b in used;
      var above := UnusedAddress(used - {b});
      address := if above > b then above else b + 1;
      forall c | c in used ensures c < address {
        assert c == b || c in used - {b};
      }
    }
  }

  lemma {:induction false} TimedRun(s: State, acts: seq<Action>, t': Coroutine.State)
    returns (steps: seq<Step>, s': State)
    requires Equivalence.CoroutineRuns(s.main, acts, t') && FramesOk(s.main)
    ensures Reaches(s, steps, s') && Erase(steps) == acts && s'.main == t'
    decreases |acts|
  {
    if acts == [] {
      steps, s' := [], s;
    } else {
      var address := UnusedAddress(s.heap.Keys);
      var first := Operation(acts[0], address);
      TimedFirst(s, acts, t', address);
      hide Possible, Apply, FramesOk, Equivalence.CoroutineRuns;
      var later;
      later, s' := TimedRun(Apply(s, first), acts[1..], t');
      steps := [first] + later;
      assert steps[1..] == later;
      assert acts == [acts[0]] + acts[1..];
    }
  }

  lemma TimedFirst(s: State, acts: seq<Action>, t': Coroutine.State, address: nat)
    requires Equivalence.CoroutineRuns(s.main, acts, t') && acts != [] && FramesOk(s.main) && address !in s.heap
    ensures Possible(s, Operation(acts[0], address))
    ensures var s1 := Apply(s, Operation(acts[0], address));
            Equivalence.CoroutineRuns(s1.main, acts[1..], t') && FramesOk(s1.main)
  {
    ResumeRefines(s, acts[0], address);
    hide Resume, FramesOk, Coroutine.Apply;
  }

  /** The coroutines cannot tell: leaving out the timeouts' completions, the runs of this server are exactly those of
      the coroutine server without timeouts. */
  lemma TimeoutsAreInvisible(listenFd: int, acts: seq<Action>, t: Coroutine.State)
    ensures Equivalence.CoroutineRuns(Coroutine.Init(listenFd), acts, t)
            <==> exists steps, s :: Reaches(Init(listenFd), steps, s) && Erase(steps) == acts && s.main == t
  {
    if Equivalence.CoroutineRuns(Coroutine.Init(listenFd), acts, t) {
      var steps, s := TimedRun(Init(listenFd), acts, t);
    }
    if steps, s :| Reaches(Init(listenFd), steps, s) && Erase(steps) == acts && s.main == t {
      ErasedRun(Init(listenFd), steps, s);
    }
  }

  /** A resumed recv closes the descriptor exactly when it brought no data. */
  lemma RecvResumption(s: State, i: nat, address: nat)
    requires MainReady(s.main, Takes(i)) && FramesOk(s.main) && s.main.log[i].req.RecvRequest?
    ensures var s' := Resume(s, Takes(i), address);
            var closed := s'.main.log == s.main.log + [CloseFd(s.main.log[i].req.fd)];
            && (closed <==> s.main.ops[i].res <= 0)
            && (closed <==> s.main.tags[i] !in s'.main.frames)
            && (closed ==> s'.main.ops == s.main.ops - {i} && s'.timers == s.timers)
  {
    ResumeRefines(s, Takes(i), address);
    hide Resume;
  }

  /** In every run a recv whose completion brings no data, be it the end of the stream, an error or the cancellation by
      its timeout, and no other one, makes its coroutine close the descriptor and end, with nothing submitted. */
  lemma IdleClientIsClosed(listenFd: int, steps: seq<Step>, s: State, i: nat, address: nat)
    requires Callback.IsFd(listenFd) && Reaches(Init(listenFd), steps, s)
    requires i in s.main.ops && s.main.ops[i].Done? && IsRecv(s.main.log, i)
    ensures i in s.main.tags && MainReady(s.main, Takes(i))
    ensures var s' := Resume(s, Takes(i), address);
            var closed := s'.main.log == s.main.log + [CloseFd(s.main.log[i].req.fd)];
            && (closed <==> s.main.ops[i].res <= 0)
            && (closed <==> s.main.tags[i] !in s'.main.frames)
            && (closed ==> s'.main.ops == s.main.ops - {i} && s'.timers == s.timers)
  {
    InitInv(listenFd);
    RunKeepsInv(Init(listenFd), steps, s);
    OutstandingIsAwaited(s.main, i);
    MainStepSound(s.main, Takes(i));
    RecvResumption(s, i, address);
    hide Inv, Reaches, Resume, MainSound, OneAwait, FramesOk, Callback.Inv;
  }

  // ----- the event loop -----

  /** What a completion points to: a request on the heap, whose handle does nothing, or the awaitable in the frame of
      the coroutine to resume. */
  datatype UserData = HeapRequest(addr: nat) | Awaitable(handle: nat)

  predicate Pending(s: State, i: nat, ud: UserData, res: int) {
    match ud
    case HeapRequest(addr) => i in s.timers && s.timers[i] == Timer(addr, Done(res))
    case Awaitable(h) => i in s.main.ops && i in s.main.tags && s.main.tags[i] == h && s.main.ops[i] == Done(res)
  }

  lemma PendingTimer(s: State, i: nat, addr: nat, res: int)
    requires Inv(s) && Pending(s, i, HeapRequest(addr), res)
    ensures addr in s.heap && Possible(s, TimerTaken(i))
    ensures Apply(s, TimerTaken(i)) == State(s.main, s.timers - {i}, s.heap - {addr}, s.deleted + [s.heap[addr]])
  {
    hide MainSound, OneAwait, EachRecvTimed;
  }

  lemma PendingOperation(s: State, i: nat, h: nat, res: int, address: nat)
    requires Inv(s) && Pending(s, i, Awaitable(h), res)
    ensures MainReady(s.main, Takes(i))
    ensures address !in s.heap ==>
              && Possible(s, Operation(Takes(i), address))
              && Apply(s, Operation(Takes(i), address)) == Resume(s, Takes(i), address)
  {
    hide MainSound, OneAwait, HeapMatches, EachRecvTimed, MainReady, Coroutine.Apply, Resume;
    MainStepSound(s.main, Takes(i));
  }

  lemma {:induction false} ReachesAppend(s: State, steps: seq<Step>, mid: State, step: Step)
    requires Reaches(s, steps, mid) && Possible(mid, step)
    ensures Reaches(s, steps + [step], Apply(mid, step))
    decreases |steps|
  {
    hide Possible, Apply;
    if steps == [] {
      assert (steps + [step])[1..] == [];
    } else {
      ReachesAppend(Apply(s, steps[0]), steps[1..], mid, step);
      assert (steps + [step])[1..] == steps[1..] + [step];
    }
  }

  class EventLoop {
    var main: Coroutine.State
    var timers: map<nat, Timer>
    var heap: map<nat, nat>
    var deleted: seq<nat>

    function Now(): State
      reads this
    {
      State(main, timers, heap, deleted)
    }

    /** `new IoRequest`: any address that is not in use. */
    method New() returns (address: nat)
      ensures address !in heap
    {
      ghost var free := UnusedAddress(heap.Keys);
      address :| address !in heap;
    }

    /** Handles completion `i`: deletes the request of a timeout, or resumes the coroutine that awaits the operation,
        which may submit a recv and its timeout. */
    method Dispatch(i: nat, ud: UserData, res: int) returns (ghost step: Step)
      requires Inv(Now()) && Pending(Now(), i, ud, res)
      modifies this
      ensures Possible(old(Now()), step) && Now() == Apply(old(Now()), step)
      ensures ud.HeapRequest? ==> step == TimerTaken(i)
      ensures ud.Awaitable? ==> step.Operation? && step.a == Takes(i)
    {
      hide Inv, MainReady, Possible, Apply, Resume;
      ghost var before := Now();
      match ud
      case HeapRequest(addr) =>
        PendingTimer(before, i, addr, res);
        step := TimerTaken(i);
        Delete(i, addr);
      case Awaitable(h) =>
        PendingOperation(before, i, h, res, 0);
        var address := ResumeCoroutine(i);
        PendingOperation(before, i, h, res, address);
        step := Operation(Takes(i), address);
    }

    method Delete(i: nat, addr: nat)
      requires i in timers && addr in heap
      modifies this`timers, this`heap, this`deleted
      ensures timers == old(timers) - {i} && heap == old(heap) - {addr} && deleted == old(deleted) + [old(heap)[addr]]
    {
      timers, heap, deleted := timers - {i}, heap - {addr}, deleted + [heap[addr]];
    }

    method ResumeCoroutine(i: nat) returns (address: nat)
      requires MainReady(main, Takes(i))
      modifies this`main, this`timers, this`heap
      ensures address !in old(heap) && Now() == Resume(old(Now()), Takes(i), address)
    {
      hide Perform, ResumeTimed;
      address := New();
      var res := main.ops[i].res;
      var accepting := main.log[i].req.AcceptRequest?;
      main := main.(ops := main.ops - {i});
      if accepting {
        if res >= 0 {
          var h := main.nextHandle;
          main := main.(frames := main.frames[h := Coroutine.AtRecv(res, ZeroBuffer())], nextHandle := h + 1);
          PerformAll(h, RecvWithTimeout(res), address);
        }
        PerformAll(Coroutine.ACCEPT_LOOP, [Plain(Submit(AcceptRequest))], address);
      } else {
        var h := main.tags[i];
        var r := ResumeTimed(main.frames[h], res);
        main := main.(frames := if r.0.Some? then main.frames[h := r.0.value] else main.frames - {h});
        PerformAll(h, r.1, address);
      }
    }

    method PerformAll(h: nat, es: seq<TimedEffect>, address: nat)
      modifies this`main, this`timers, this`heap
      ensures Now() == Perform(old(Now()), h, es, address)
    {
      ghost var goal := Perform(Now(), h, es, address);
      assert es[0..] == es;
      var j := 0;
      while j < |es|
        invariant 0 <= j <= |es| && Perform(Now(), h, es[j..], address) == goal && deleted == old(deleted)
      {
        assert es[j..][0] == es[j] && es[j..][1..] == es[j + 1..];
        match es[j] {
          case Plain(Submit(req)) => main := Coroutine.Await(main, req, h);
          case Plain(CloseFd(fd)) => main := main.(log := main.log + [CloseFd(fd)]);
          case LinkTimeout =>
            if main.log != [] {
              var i := |main.log| - 1;
              timers, heap := timers[i := Timer(address, InFlight)], heap[address := i];
            }
        }
        j := j + 1;
      }
    }

    /** A completion that is there, whichever the kernel has posted first. */
    method Peek() returns (next: Option<(nat, UserData, int)>)
      requires Inv(Now())
      ensures next.Some? ==> Pending(Now(), next.value.0, next.value.1, next.value.2)
      ensures next.None? ==> NothingPending(Now())
    {
      var timerFirst: bool := *;
      if timerFirst {
        next := PeekTimer();
        if next.None? { next := PeekOperation(); }
      } else {
        next := PeekOperation();
        if next.None? { next := PeekTimer(); }
      }
    }

    method PeekTimer() returns (next: Option<(nat, UserData, int)>)
      ensures next.Some? ==> Pending(Now(), next.value.0, next.value.1, next.value.2)
      ensures next.None? ==> forall i | i in timers :: !timers[i].stage.Done?
    {
      if i :| i in timers && timers[i].stage.Done? {
        return Some((i, HeapRequest(timers[i].addr), timers[i].stage.res));
      }
      return None;
    }

    method PeekOperation() returns (next: Option<(nat, UserData, int)>)
      requires Inv(Now())
      ensures next.Some? ==> Pending(Now(), next.value.0, next.value.1, next.value.2)
      ensures next.None? ==> forall i | i in main.ops :: !main.ops[i].Done?
    {
      if i :| i in main.ops && main.ops[i].Done? {
        OutstandingIsAwaited(main, i);
        return Some((i, Awaitable(main.tags[i]), main.ops[i].res));
      }
      return None;
    }

    /** The inner loop: `ready` completions, whichever the kernel has posted, or fewer if there are no more. */
    method Drain(ready: nat) returns (ghost steps: seq<Step>)
      requires Inv(Now())
      modifies this
      ensures Inv(Now()) && |steps| <= ready && Reaches(old(Now()), steps, Now())
      ensures |steps| == ready || NothingPending(Now())
    {
      hide Inv, Pending, Possible, Apply, NothingPending;
      steps := [];
      var j := 0;
      while j < ready
        invariant 0 <= j <= ready && |steps| == j
        invariant Inv(Now()) && Reaches(old(Now()), steps, Now())
      {
        var next := Peek();
        if next.None? { return; }
        ghost var before := Now();
        ghost var step := Dispatch(next.value.0, next.value.1, next.value.2);
        StepKeepsInv(before, step);
        ReachesAppend(old(Now()), steps, before, step);
        steps := steps + [step];
        j := j + 1;
      }
    }
  }

  /** No completion waits to be handled. */
  ghost predicate NothingPending(s: State) {
    && (forall i | i in s.timers :: !s.timers[i].stage.Done?)
    && (forall i | i in s.main.ops :: !s.main.ops[i].Done?)
  }
}
