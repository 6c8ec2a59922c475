/** The client coroutine of the server with idle timeouts, as that program writes it: every recv is submitted together
    with a linked timeout, a recv that was cancelled ends the coroutine, and so does a send loop left early. */
module TimeoutCoroutine {
  import opened Words
  import opened Wrappers
  import opened EchoKernel
  import opened CoroutineEcho

  const ECANCELED: int := 125

  /** What the coroutine does: an effect as without timeouts, or the submission of a timeout linked to the submission
      before it. */
  datatype TimedEffect = Plain(e: Effect) | LinkTimeout

  /** `await_suspend` of a recv. */
  function RecvWithTimeout(fd: int): seq<TimedEffect> {
    [Plain(Submit(RecvRequest(fd))), LinkTimeout]
  }

  /** What follows the send loop. */
  function LeaveLoop(fd: int, buf: Buffer, n: nat, totalSent: nat): (Option<Frame>, seq<TimedEffect>) {
    if totalSent < n then (None, [Plain(CloseFd(fd))])
    else (Some(AtRecv(fd, buf)), RecvWithTimeout(fd))
  }

  /** The send loop from its test on. */
  function SendRest(fd: int, buf: Buffer, n: nat, totalSent: nat): (Option<Frame>, seq<TimedEffect>)
    requires n <= CLIENT_BUF_SIZE
  {
    if totalSent < n then (Some(AtSend(fd, buf, n, totalSent)), [Plain(Submit(SendRequest(fd, buf[totalSent..n])))])
    else LeaveLoop(fd, buf, n, totalSent)
  }

  /** What the resumed coroutine does up to its next await or its end. */
  function ResumeTimed(f: Frame, res: int): (Option<Frame>, seq<TimedEffect>)
    requires res <= CLIENT_BUF_SIZE && (f.AtSend? ==> f.n <= CLIENT_BUF_SIZE)
  {
    match f
    case AtRecv(fd, buf) =>
      if res == -ECANCELED then (None, [Plain(CloseFd(fd))])
      else if res <= 0 then (None, [Plain(CloseFd(fd))])
      else SendRest(fd, buf, res, 0)
    case AtSend(fd, buf, n, totalSent) =>
      if res <= 0 then LeaveLoop(fd, buf, n, totalSent)
      else SendRest(fd, buf, n, totalSent + res)
  }

  /** A coroutine suspended at a send has something left to send. */
  predicate FrameOk(f: Frame) {
    f.AtSend? ==> f.totalSent < f.n <= CLIENT_BUF_SIZE
  }

  /** The effects without the timeouts. */
  function Untimed(es: seq<TimedEffect>): Log {
    if es == [] then []
    else Untimed(es[..|es| - 1]) + if es[|es| - 1].Plain? then [es[|es| - 1].e] else []
  }

  lemma {:induction false} UntimedConcat(a: seq<TimedEffect>, b: seq<TimedEffect>)
    ensures Untimed(a + b) == Untimed(a) + Untimed(b)
    decreases |b|
  {
    if b == [] {
      assert a + b == a;
    } else {
      var last := |b| - 1;
      UntimedConcat(a, b[..last]);
      assert (a + b)[..|a + b| - 1] == a + b[..last];
    }
  }

  lemma UntimedOne(e: Effect)
    ensures Untimed([Plain(e)]) == [e] && Untimed([Plain(e), LinkTimeout]) == [e]
  {
    assert [Plain(e), LinkTimeout][..1] == [Plain(e)] && [Plain(e)][..0] == [];
  }

  /** One resumption does what the coroutine without timeouts does, whichever way the program writes it. */
  lemma ResumesAlike(f: Frame, res: int)
    requires FrameOk(f) && res <= CLIENT_BUF_SIZE
    ensures ResumeTimed(f, res).0 == ResumeFrame(f, res).0
    ensures Untimed(ResumeTimed(f, res).1) == ResumeFrame(f, res).1
    ensures ResumeTimed(f, res).0.Some? ==> FrameOk(ResumeTimed(f, res).0.value)
  {
    forall e: Effect ensures Untimed([Plain(e)]) == [e] && Untimed([Plain(e), LinkTimeout]) == [e] {
      UntimedOne(e);
    }
    if f.AtRecv? && res > 0 { assert f.buf[0..res] == f.buf[..res]; }
    hide Untimed;
  }

  predicate IsRecvSubmission(e: TimedEffect) {
    e.Plain? && e.e.Submit? && e.e.req.RecvRequest?
  }

  /** A timeout is what directly follows a recv. */
  predicate InPlace(es: seq<TimedEffect>, k: nat)
    requires k < |es|
  {
    es[k].LinkTimeout? <==> k > 0 && IsRecvSubmission(es[k - 1])
  }

  /** Every recv is directly followed by its timeout, and nothing else is. */
  ghost predicate Linked(es: seq<TimedEffect>) {
    && (forall k: nat | k < |es| :: InPlace(es, k))
    && (es != [] ==> !IsRecvSubmission(es[|es| - 1]))
  }

  lemma LinkedConcat(a: seq<TimedEffect>, b: seq<TimedEffect>)
    requires Linked(a) && Linked(b)
    ensures Linked(a + b)
  {
    var es := a + b;
    forall k: nat | k < |es| ensures InPlace(es, k) {
      if k < |a| {
        assert InPlace(a, k);
      } else {
        var j := k - |a|;
        assert es[k] == b[j] && InPlace(b, j);
        assert k > 0 ==> es[k - 1] == if j > 0 then b[j - 1] else a[|a| - 1];
      }
    }
    if b != [] {
      assert es[|es| - 1] == b[|b| - 1];
    } else {
      assert es == a;
    }
  }

  lemma ResumptionLinked(f: Frame, res: int)
    requires FrameOk(f) && res <= CLIENT_BUF_SIZE
    ensures Linked(ResumeTimed(f, res).1)
  {
  }

  // ----- the coroutine as the program writes it -----

  function TimedTrace(f: Frame, inputs: seq<Input>): seq<TimedEffect>
    requires FrameOk(f) && forall k | 0 <= k < |inputs| :: ValidInput(inputs[k])
    decreases |inputs|
  {
    if inputs == [] then []
    else
      assert ValidInput(inputs[0]);
      var g := FillFrame(f, inputs[0].data);
      ResumesAlike(g, inputs[0].res);
      var r := ResumeTimed(g, inputs[0].res);
      r.1 + if r.0.Some? then TimedTrace(r.0.value, inputs[1..]) else []
  }

  /** On any results the coroutine does what the one without timeouts does. */
  lemma {:induction false} TracesAlike(f: Frame, inputs: seq<Input>)
    requires FrameOk(f) && forall k | 0 <= k < |inputs| :: ValidInput(inputs[k])
    ensures Untimed(TimedTrace(f, inputs)) == Trace(f, inputs)
    decreases |inputs|
  {
    if inputs != [] {
      assert ValidInput(inputs[0]);
      var g := FillFrame(f, inputs[0].data);
      ResumesAlike(g, inputs[0].res);
      var r := ResumeTimed(g, inputs[0].res);
      hide ResumeTimed, ResumeFrame;
      if r.0.Some? {
        TracesAlike(r.0.value, inputs[1..]);
        UntimedConcat(r.1, TimedTrace(r.0.value, inputs[1..]));
      } else {
        assert r.1 + [] == r.1;
      }
    }
  }

  lemma {:induction false} TraceLinked(f: Frame, inputs: seq<Input>)
    requires FrameOk(f) && forall k | 0 <= k < |inputs| :: ValidInput(inputs[k])
    ensures Linked(TimedTrace(f, inputs))
    decreases |inputs|
  {
    if inputs != [] {
      assert ValidInput(inputs[0]);
      var g := FillFrame(f, inputs[0].data);
      ResumesAlike(g, inputs[0].res);
      ResumptionLinked(g, inputs[0].res);
      var r := ResumeTimed(g, inputs[0].res);
      hide ResumeTimed, Linked;
      if r.0.Some? {
        TraceLinked(r.0.value, inputs[1..]);
        LinkedConcat(r.1, TimedTrace(r.0.value, inputs[1..]));
      } else {
        assert r.1 + [] == r.1;
      }
    }
  }

  /** The submissions with which a coroutine suspends at a frame. */
  function Suspension(f: Frame): seq<TimedEffect>
    requires FrameOk(f)
  {
    match f
    case AtRecv(fd, _) => RecvWithTimeout(fd)
    case AtSend(fd, buf, n, totalSent) => [Plain(Submit(SendRequest(fd, buf[totalSent..n])))]
  }

  /** What a coroutine does that is about to await. */
  ghost function TimedAwaiting(f: Frame, inputs: seq<Input>): seq<TimedEffect>
    requires FrameOk(f) && forall k | 0 <= k < |inputs| :: ValidInput(inputs[k])
  {
    Suspension(f) + TimedTrace(f, inputs)
  }

  /** A suspended coroutine takes one input. */
  lemma TraceOne(f: Frame, inputs: seq<Input>)
    requires FrameOk(f) && inputs != [] && forall k | 0 <= k < |inputs| :: ValidInput(inputs[k])
    ensures ValidInput(inputs[0])
    ensures var r := ResumeTimed(FillFrame(f, inputs[0].data), inputs[0].res);
            match r.0
            case None => TimedTrace(f, inputs) == r.1
            case Some(g) =>
              && FrameOk(g) && r.1 == Suspension(g)
              && TimedTrace(f, inputs) == TimedAwaiting(g, inputs[1..])
  {
    assert ValidInput(inputs[0]);
    var g := FillFrame(f, inputs[0].data);
    ResumesAlike(g, inputs[0].res);
    Suspends(g, inputs[0].res);
    var r := ResumeTimed(g, inputs[0].res);
    hide ResumeTimed, Suspension;
    assert r.1 + [] == r.1;
  }

  /** One await: its submissions, then what follows the input. */
  lemma TimedAwaitOne(done: seq<TimedEffect>, f: Frame, inputs: seq<Input>)
    requires FrameOk(f) && inputs != [] && forall k | 0 <= k < |inputs| :: ValidInput(inputs[k])
    ensures ValidInput(inputs[0])
    ensures var r := ResumeTimed(FillFrame(f, inputs[0].data), inputs[0].res);
            match r.0
            case None => done + TimedAwaiting(f, inputs) == done + Suspension(f) + r.1
            case Some(g) =>
              && FrameOk(g) && r.1 == Suspension(g)
              && done + TimedAwaiting(f, inputs) == done + Suspension(f) + TimedAwaiting(g, inputs[1..])
  {
    hide ResumeTimed, Suspension, TimedTrace;
    TraceOne(f, inputs);
    var later := TimedTrace(f, inputs);
    assert done + (Suspension(f) + later) == done + Suspension(f) + later;
  }

  lemma Suspends(f: Frame, res: int)
    requires FrameOk(f) && res <= CLIENT_BUF_SIZE
    ensures var r := ResumeTimed(f, res); r.0.Some? ==> FrameOk(r.0.value) && r.1 == Suspension(r.0.value)
  {
  }

  lemma TimedAwaitForever(done: seq<TimedEffect>, f: Frame)
    requires FrameOk(f)
    ensures done + TimedAwaiting(f, []) == done + Suspension(f)
  {
  }

  /** The inner loop: sends until `n` bytes are out, or until a send brings no progress. */
  method SendLoop(fd: int, buf: Buffer, n: nat, inputs: seq<Input>, start: nat, before: seq<TimedEffect>)
    returns (totalSent: nat, suspended: bool, effects: seq<TimedEffect>, k: nat)
    requires (forall j | 0 <= j < |inputs| :: ValidInput(inputs[j])) && start <= |inputs|
    requires 0 < n <= CLIENT_BUF_SIZE
    ensures start <= k <= |inputs|
    ensures var goal := before + TimedAwaiting(AtSend(fd, buf, n, 0), inputs[start..]);
            goal == if suspended then effects
                    else if totalSent < n then effects + [Plain(CloseFd(fd))]
                    else effects + TimedAwaiting(AtRecv(fd, buf), inputs[k..])
  {
    ghost var goal := before + TimedAwaiting(AtSend(fd, buf, n, 0), inputs[start..]);
    hide TimedAwaiting;
    effects, k := before, start;
    totalSent, suspended := 0, false;
    while totalSent < n
      invariant start <= k <= |inputs| && !suspended
      invariant var f := if totalSent < n then AtSend(fd, buf, n, totalSent) else AtRecv(fd, buf);
                goal == effects + TimedAwaiting(f, inputs[k..])
      decreases n - totalSent
    {
      ghost var f, rest := AtSend(fd, buf, n, totalSent), inputs[k..];
      if k == |inputs| {
        assert rest == [];
        TimedAwaitForever(effects, f);
        return totalSent, true, effects + [Plain(Submit(SendRequest(fd, buf[totalSent..n])))], k;
      }
      TimedAwaitOne(effects, f, rest);
      effects := effects + [Plain(Submit(SendRequest(fd, buf[totalSent..n])))];
      var sent := inputs[k].res;
      k := k + 1;
      assert rest[1..] == inputs[k..];
      if sent <= 0 {
        break;
      }
      totalSent := totalSent + sent;
    }
  }

  /** `client_handler`. Awaits take the inputs in turn; when they run out the coroutine stays suspended. Its effects
      are those of the machine, so `HandlerAlike` speaks of them. */
  method ClientHandler(fd: int, inputs: seq<Input>) returns (effects: seq<TimedEffect>)
    requires forall k | 0 <= k < |inputs| :: ValidInput(inputs[k])
    ensures effects == TimedAwaiting(AtRecv(fd, ZeroBuffer()), inputs)
  {
    var buf := ZeroBuffer();
    ghost var goal := TimedAwaiting(AtRecv(fd, buf), inputs);
    hide TimedAwaiting, TimedTrace;
    effects := [];
    var k := 0;
    assert inputs[0..] == inputs;
    while true
      invariant 0 <= k <= |inputs|
      invariant goal == effects + TimedAwaiting(AtRecv(fd, buf), inputs[k..])
      decreases |inputs| - k
    {
      ghost var rest := inputs[k..];
      if k == |inputs| {
        assert rest == [];
        TimedAwaitForever(effects, AtRecv(fd, buf));
        return effects + RecvWithTimeout(fd);
      }
      TimedAwaitOne(effects, AtRecv(fd, buf), rest);
      effects := effects + RecvWithTimeout(fd);
      var n := inputs[k].res;
      buf := Fill(buf, inputs[k].data);
      k := k + 1;
      assert rest[1..] == inputs[k..];
      if n == -ECANCELED {
        break;
      }
      if n <= 0 {
        break;
      }
      var totalSent, suspended;
      totalSent, suspended, effects, k := SendLoop(fd, buf, n, inputs, k, effects);
      if suspended {
        return;
      }
      if totalSent < n {
        break;
      }
    }
    return effects + [Plain(CloseFd(fd))];
  }

  /** Without the timeouts the coroutine does what the one that has none does, on any results; and a timeout follows
      each recv and nothing else. */
  lemma {:induction false} HandlerAlike(fd: int, buf: Buffer, inputs: seq<Input>)
    requires forall k | 0 <= k < |inputs| :: ValidInput(inputs[k])
    ensures var effects := TimedAwaiting(AtRecv(fd, buf), inputs);
            && Untimed(effects) == [Submit(RecvRequest(fd))] + Trace(AtRecv(fd, buf), inputs)
            && Linked(effects)
  {
    hide Untimed, Trace, TimedTrace, Linked;
    var first, later := RecvWithTimeout(fd), TimedTrace(AtRecv(fd, buf), inputs);
    FirstRecv(fd);
    TraceLinked(AtRecv(fd, buf), inputs);
    LinkedConcat(first, later);
    TracesAlike(AtRecv(fd, buf), inputs);
    UntimedConcat(first, later);
  }

  lemma FirstRecv(fd: int)
    ensures Linked(RecvWithTimeout(fd)) && Untimed(RecvWithTimeout(fd)) == [Submit(RecvRequest(fd))]
  {
    UntimedOne(Submit(RecvRequest(fd)));
  }
}
