/** Handing accepted descriptors to a worker thread: a lock-free single-producer single-consumer ring and an
    eventfd. Each atomic load or store, each plain access to the ring's array and each system call is one step of
    its own, and the steps of the accept thread and of the worker interleave in any order. */
module MultithreadEcho {
  import opened Bits

  const CAPACITY: nat := 4096
  const EVENTFD_MAX: nat := 0xFFFF_FFFF_FFFF_FFFE

  datatype Queue = Queue(data: seq<int>, head: nat, tail: nat)

  ghost predicate ValidQueue(q: Queue) {
    |q.data| == CAPACITY && q.head < CAPACITY && q.tail < CAPACITY
  }

  function Next(i: nat): nat {
    (i + 1) % CAPACITY
  }

  function Length(q: Queue): (n: nat)
    requires q.head < CAPACITY && q.tail < CAPACITY
    ensures n < CAPACITY
    ensures n == 0 <==> q.head == q.tail
    ensures n == CAPACITY - 1 <==> Next(q.tail) == q.head
  {
    if q.tail >= q.head then q.tail - q.head else q.tail + CAPACITY - q.head
  }

  function Slot(q: Queue, i: nat): nat {
    (q.head + i) % CAPACITY
  }

  /** What the ring stores, oldest first. */
  function Contents(q: Queue): (c: seq<int>)
    requires ValidQueue(q)
    ensures |c| == Length(q)
  {
    seq(Length(q), i requires ValidQueue(q) && 0 <= i < Length(q) => q.data[Slot(q, i)])
  }

  lemma WriteOutside(q: Queue, fd: int)
    requires ValidQueue(q)
    ensures Contents(q.(data := q.data[q.tail := fd])) == Contents(q)
  {
  }

  lemma PublishTail(q: Queue)
    requires ValidQueue(q) && Next(q.tail) != q.head
    ensures ValidQueue(q.(tail := Next(q.tail)))
    ensures Contents(q.(tail := Next(q.tail))) == Contents(q) + [q.data[q.tail]]
  {
    var q' := q.(tail := Next(q.tail));
    assert Length(q') == Length(q) + 1;
    assert Slot(q', Length(q)) == q.tail;
  }

  lemma PublishHead(q: Queue)
    requires ValidQueue(q) && q.head != q.tail
    ensures ValidQueue(q.(head := Next(q.head)))
    ensures Contents(q) == [q.data[q.head]] + Contents(q.(head := Next(q.head)))
  {
    var q' := q.(head := Next(q.head));
    assert Length(q) == Length(q') + 1;
    forall i | 0 <= i < Length(q') ensures Contents(q)[i + 1] == Contents(q')[i] {
      assert Slot(q', i) == Slot(q, i + 1);
    }
  }

  // ----- the machine -----

  /** Where the accept thread stands; the arguments are its local variables. */
  datatype Producer =
    | Accepting
    | LoadedTail(fd: int, t: nat)
    | HasRoom(fd: int, t: nat, next: nat)
    | Wrote(fd: int, next: nat)
    | Waking

  /** Where the worker stands. */
  datatype Worker =
    | Waiting
    | PollDone(ready: bool)
    | Draining
    | LoadedHead(h: nat)
    | NonEmpty(h: nat)
    | HasFd(h: nat, fd: int)
    | Spawning(fd: int)
    | Rearming

  /** `pushed`, `dropped`, `popped` and `handled` record what happened to the descriptors. */
  datatype State = State(
    q: Queue,
    counter: nat,
    polls: nat,
    producer: Producer,
    worker: Worker,
    pushed: seq<int>,
    dropped: seq<int>,
    popped: seq<int>,
    handled: seq<int>)

  datatype Action = Accepted(fd: int) | ProducerStep | PollCompletes(ready: bool) | WorkerStep

  function Init(data: seq<int>): State {
    State(Queue(data, 0, 0), 0, 1, Accepting, Waiting, [], [], [], [])
  }

  ghost predicate Enabled(s: State, a: Action) {
    match a
    case Accepted(_) => s.producer.Accepting?
    case ProducerStep => !s.producer.Accepting?
    case PollCompletes(ready) => s.worker.Waiting? && s.polls > 0 && (ready ==> s.counter > 0)
    case WorkerStep => !s.worker.Waiting?
  }

  function StepProducer(s: State): State
    requires ValidQueue(s.q)
    requires s.producer.HasRoom? ==> s.producer.t < CAPACITY
  {
    match s.producer
    case Accepting => s
    case LoadedTail(fd, t) =>
      if Next(t) == s.q.head
      then s.(producer := Waking, dropped := s.dropped + [fd])
      else s.(producer := HasRoom(fd, t, Next(t)))
    case HasRoom(fd, t, next) =>
      s.(q := s.q.(data := s.q.data[t := fd]), producer := Wrote(fd, next))
    case Wrote(fd, next) =>
      s.(q := s.q.(tail := next), pushed := s.pushed + [fd], producer := Waking)
    case Waking =>
      s.(counter := if s.counter < EVENTFD_MAX then s.counter + 1 else s.counter, producer := Accepting)
  }

  function StepWorker(s: State): State
    requires ValidQueue(s.q)
    requires s.worker.NonEmpty? ==> s.worker.h < CAPACITY
  {
    match s.worker
    case Waiting => s
    case PollDone(ready) => if ready then s.(counter := 0, worker := Draining) else s.(worker := Rearming)
    case Draining => s.(worker := LoadedHead(s.q.head))
    case LoadedHead(h) => if h == s.q.tail then s.(worker := Rearming) else s.(worker := NonEmpty(h))
    case NonEmpty(h) => s.(worker := HasFd(h, s.q.data[h]))
    case HasFd(h, fd) => s.(q := s.q.(head := Next(h)), popped := s.popped + [fd], worker := Spawning(fd))
    case Spawning(fd) => s.(handled := s.handled + [fd], worker := Draining)
    case Rearming => s.(polls := s.polls + 1, worker := Waiting)
  }

  function Apply(s: State, a: Action): State
    requires ValidQueue(s.q)
    requires s.producer.HasRoom? ==> s.producer.t < CAPACITY
    requires s.worker.NonEmpty? ==> s.worker.h < CAPACITY
    requires s.polls > 0 || !a.PollCompletes?
  {
    match a
    case Accepted(fd) => s.(producer := LoadedTail(fd, s.q.tail))
    case ProducerStep => StepProducer(s)
    case PollCompletes(ready) => s.(polls := s.polls - 1, worker := PollDone(ready))
    case WorkerStep => StepWorker(s)
  }

  // ----- the invariant -----

  ghost predicate ProducerInv(s: State)
    requires ValidQueue(s.q)
  {
    match s.producer
    case Accepting => true
    case LoadedTail(_, t) => t == s.q.tail
    case HasRoom(_, t, next) => t == s.q.tail && next == Next(t) && next != s.q.head
    case Wrote(fd, next) => next == Next(s.q.tail) && next != s.q.head && s.q.data[s.q.tail] == fd
    case Waking => true
  }

  ghost predicate WorkerInv(s: State)
    requires ValidQueue(s.q)
  {
    match s.worker
    case PollDone(ready) => ready ==> s.counter > 0
    case LoadedHead(h) => h == s.q.head
    case NonEmpty(h) => h == s.q.head != s.q.tail
    case HasFd(h, fd) => h == s.q.head != s.q.tail && s.q.data[h] == fd
    case _ => true
  }

  /** The worker will still look at the tail before it waits again. */
  predicate WillLook(w: Worker) {
    w.Draining? || w.LoadedHead? || w.NonEmpty? || w.HasFd? || w.Spawning?
  }

  ghost predicate Inv(s: State) {
    && ValidQueue(s.q)
    && ProducerInv(s)
    && WorkerInv(s)
    && s.pushed == s.popped + Contents(s.q)
    && s.popped == s.handled + (if s.worker.Spawning? then [s.worker.fd] else [])
    && s.polls == (if s.worker.Waiting? then 1 else 0)
    && (s.q.head != s.q.tail ==> s.counter > 0 || s.producer.Waking? || WillLook(s.worker))
  }

  lemma InitInv(data: seq<int>)
    requires |data| == CAPACITY
    ensures Inv(Init(data))
  {
  }

  lemma StoreKeepsInv(s: State)
    requires Inv(s) && s.producer.HasRoom?
    ensures Inv(StepProducer(s))
  {
    WriteOutside(s.q, s.producer.fd);
    hide Contents;
  }

  lemma PublishKeepsInv(s: State)
    requires Inv(s) && s.producer.Wrote?
    ensures Inv(StepProducer(s))
  {
    PublishTail(s.q);
    hide Contents, ValidQueue;
  }

  lemma ProducerKeepsInv(s: State)
    requires Inv(s)
    ensures Inv(StepProducer(s))
  {
    hide Contents;
    match s.producer
    case HasRoom(_, _, _) =>
      StoreKeepsInv(s);
      hide Inv;
    case Wrote(_, _) =>
      PublishKeepsInv(s);
      hide Inv;
    case _ =>
  }

  lemma PopKeepsInv(s: State)
    requires Inv(s) && s.worker.HasFd?
    ensures Inv(StepWorker(s))
  {
    PublishHead(s.q);
    hide Contents, ValidQueue;
  }

  lemma WorkerKeepsInv(s: State)
    requires Inv(s)
    ensures s.worker.Waiting? || Inv(StepWorker(s))
  {
    hide Contents;
    match s.worker
    case HasFd(_, _) =>
      PopKeepsInv(s);
      hide Inv;
    case _ =>
  }

  lemma ApplyKeepsInv(s: State, a: Action)
    requires Inv(s) && Enabled(s, a)
    ensures Inv(Apply(s, a))
  {
    match a
    case ProducerStep => ProducerKeepsInv(s);
    case WorkerStep => WorkerKeepsInv(s);
    case _ =>
  }

  ghost predicate Reaches(s: State, acts: seq<Action>, t: State)
    requires Inv(s)
    decreases |acts|
  {
    if acts == [] then s == t
    else
      && Enabled(s, acts[0])
      && (ApplyKeepsInv(s, acts[0]); Reaches(Apply(s, acts[0]), acts[1..], t))
  }

  lemma {:induction false} ReachesKeepsInv(s: State, acts: seq<Action>, t: State)
    requires Inv(s) && Reaches(s, acts, t)
    ensures Inv(t)
    decreases |acts|
  {
    if acts != [] {
      ApplyKeepsInv(s, acts[0]);
      ReachesKeepsInv(Apply(s, acts[0]), acts[1..], t);
    }
  }

  // ----- what the machine guarantees -----

  /** The ring refines a FIFO: what was popped is a prefix of what was pushed, at most CAPACITY - 1 descriptors are
      in between, and the worker serves them in that order. */
  lemma FifoRefinement(data: seq<int>, acts: seq<Action>, s: State)
    requires |data| == CAPACITY && (InitInv(data); Reaches(Init(data), acts, s))
    ensures ValidQueue(s.q)
    ensures s.handled <= s.popped <= s.pushed
    ensures |s.popped| - |s.handled| <= 1
    ensures |s.pushed| - |s.popped| <= CAPACITY - 1
    ensures s.pushed[|s.popped|..] == Contents(s.q)
  {
    InitInv(data);
    ReachesKeepsInv(Init(data), acts, s);
  }

  /** Accesses to the ring's array never race: the slot the accept thread is about to write is none of those the
      worker may read, whatever interleaving led here. */
  lemma NoRace(data: seq<int>, acts: seq<Action>, s: State)
    requires |data| == CAPACITY && (InitInv(data); Reaches(Init(data), acts, s))
    requires s.producer.HasRoom?
    ensures ValidQueue(s.q) && s.producer.t < CAPACITY
    ensures s.worker.NonEmpty? ==> s.worker.h != s.producer.t
    ensures forall i | 0 <= i < Length(s.q) :: Slot(s.q, i) != s.producer.t
  {
    InitInv(data);
    ReachesKeepsInv(Init(data), acts, s);
  }

  /** A `push` reports failure exactly when the ring is full at the moment it loads the head, and a `pop` exactly
      when the ring is empty at the moment it loads the tail. */
  lemma FailuresJustified(data: seq<int>, acts: seq<Action>, s: State)
    requires |data| == CAPACITY && (InitInv(data); Reaches(Init(data), acts, s))
    ensures ValidQueue(s.q)
    ensures s.producer.LoadedTail? ==>
              (StepProducer(s).dropped != s.dropped <==> |Contents(s.q)| == CAPACITY - 1)
    ensures s.worker.LoadedHead? ==> (StepWorker(s).worker.Rearming? <==> Contents(s.q) == [])
  {
    InitInv(data);
    ReachesKeepsInv(Init(data), acts, s);
  }

  /** No wakeup is lost: while descriptors wait in the ring, the eventfd is readable, or the accept thread is about
      to write it, or the worker will look at the ring before it waits; and the worker waits with exactly one poll
      in flight. */
  lemma NoLostWakeup(data: seq<int>, acts: seq<Action>, s: State)
    requires |data| == CAPACITY && (InitInv(data); Reaches(Init(data), acts, s))
    ensures ValidQueue(s.q)
    ensures Contents(s.q) != [] ==> s.counter > 0 || s.producer.Waking? || WillLook(s.worker)
    ensures s.polls == if s.worker.Waiting? then 1 else 0
  {
    InitInv(data);
    ReachesKeepsInv(Init(data), acts, s);
  }

  // ----- progress: with no further connection, everything pushed is served -----

  /** Steps other than a new connection or a failed poll. */
  ghost predicate Quiet(a: Action) {
    !a.Accepted? && a != PollCompletes(false)
  }

  function ProducerRank(p: Producer): nat {
    match p
    case Accepting => 0
    case LoadedTail(_, _) => 19
    case HasRoom(_, _, _) => 18
    case Wrote(_, _) => 17
    case Waking => 11
  }

  function WorkerRank(w: Worker): int {
    match w
    case Waiting => 0
    case PollDone(ready) => if ready then -1 else 2
    case Draining => 3
    case LoadedHead(_) => 2
    case NonEmpty(_) => 1
    case HasFd(_, _) => 0
    case Spawning(_) => 4
    case Rearming => 1
  }

  /** How many quiet steps are left at most. */
  function Work(s: State): int
    requires ValidQueue(s.q)
  {
    ProducerRank(s.producer) + WorkerRank(s.worker) + 5 * Length(s.q) + if s.counter > 0 then 10 else 0
  }

  lemma WorkIsBounded(s: State)
    requires Inv(s)
    ensures 0 <= Work(s) <= 5 * CAPACITY + 28
  {
  }

  lemma ProducerWorks(s: State)
    requires Inv(s) && !s.producer.Accepting?
    ensures ValidQueue(StepProducer(s).q) && Work(StepProducer(s)) < Work(s)
  {
    if s.producer.Wrote? { PublishTail(s.q); }
  }

  lemma WorkerWorks(s: State)
    requires Inv(s) && !s.worker.Waiting?
    ensures ValidQueue(StepWorker(s).q) && Work(StepWorker(s)) < Work(s)
  {
    if s.worker.HasFd? { PublishHead(s.q); }
  }

  lemma QuietStepsDoWork(s: State, a: Action)
    requires Inv(s) && Enabled(s, a) && Quiet(a)
    ensures Inv(Apply(s, a)) && Work(Apply(s, a)) < Work(s)
  {
    ApplyKeepsInv(s, a);
    match a
    case ProducerStep => ProducerWorks(s);
    case WorkerStep => WorkerWorks(s);
    case PollCompletes(_) =>
  }

  /** A state without quiet steps has served every descriptor that was ever pushed. */
  lemma NothingLeftMeansServed(s: State)
    requires Inv(s)
    requires forall a | Quiet(a) :: !Enabled(s, a)
    ensures s.handled == s.pushed && s.worker.Waiting? && s.producer.Accepting?
  {
    assert Quiet(ProducerStep) && Quiet(WorkerStep) && Quiet(PollCompletes(true));
    assert !Enabled(s, ProducerStep);
    assert !Enabled(s, WorkerStep);
    assert !Enabled(s, PollCompletes(true));
  }

  /** Every descriptor is eventually served: from any reachable state, a run of quiet steps takes at most Work(s) of
      them, in whatever order, and one that cannot be continued has handed every pushed descriptor to a handler. */
  lemma {:induction false} EverythingIsServed(s: State, acts: seq<Action>, t: State)
    requires Inv(s) && Reaches(s, acts, t) && (forall i | 0 <= i < |acts| :: Quiet(acts[i]))
    ensures |acts| <= Work(s) <= 5 * CAPACITY + 28
    ensures (forall a | Quiet(a) :: !Enabled(t, a)) ==> t.handled == t.pushed && s.pushed <= t.pushed
    decreases |acts|
  {
    WorkIsBounded(s);
    if acts == [] {
      if forall a | Quiet(a) :: !Enabled(t, a) {
        NothingLeftMeansServed(t);
      }
    } else {
      QuietStepsDoWork(s, acts[0]);
      var s1 := Apply(s, acts[0]);
      assert s.pushed <= s1.pushed;
      EverythingIsServed(s1, acts[1..], t);
    }
  }

  // ----- round robin -----

  /** The worker that gets the `k`-th accepted descriptor. The counter is an unsigned that wraps at `range`, which
      is 2^32 on the platforms the program is built for. */
  function WorkerOf(k: nat, workers: nat, range: nat): nat
    requires workers > 0 && range > 0
  {
    (k % range) % workers
  }

  /** How many of the first `k` descriptors go to worker `w`. */
  function Share(w: nat, k: nat, workers: nat, range: nat): nat
    requires workers > 0 && range > 0
  {
    if k == 0 then 0 else Share(w, k - 1, workers, range) + if WorkerOf(k - 1, workers, range) == w then 1 else 0
  }

  lemma DivisionStep(k: nat, n: nat)
    requires n > 0
    ensures (k + 1) / n == k / n + (if k % n == n - 1 then 1 else 0)
    ensures (k + 1) % n == if k % n == n - 1 then 0 else k % n + 1
  {
    var q, r := k / n, k % n;
    if r == n - 1 {
      RemainderUnique(k + 1, n, q + 1, 0);
    } else {
      RemainderUnique(k + 1, n, q, r + 1);
    }
  }

  /** Without wrap, or with a number of workers that divides the counter's range, worker `k mod workers` is next. */
  lemma NextWorker(k: nat, workers: nat, range: nat)
    requires workers > 0 && range > 0
    requires k < range || range % workers == 0
    ensures WorkerOf(k, workers, range) == k % workers
  {
    if k < range {
      RemainderUnique(k, range, 0, k);
    } else {
      var c, low, q := k / range, k % range, range / workers;
      assert range == workers * q;
      assert k == workers * q * c + low;
      assert workers * q * c == workers * (q * c);
      var p, r := low / workers, low % workers;
      assert k == workers * (q * c + p) + r;
      RemainderUnique(k, workers, q * c + p, r);
    }
  }

  /** Then the shares are as even as they can be. */
  lemma {:induction false} EvenShare(w: nat, k: nat, workers: nat, range: nat)
    requires w < workers && range > 0
    requires k <= range || range % workers == 0
    ensures Share(w, k, workers, range) == k / workers + if w < k % workers then 1 else 0
  {
    if k == 0 {
      RemainderUnique(0, workers, 0, 0);
    } else {
      EvenShare(w, k - 1, workers, range);
      NextWorker(k - 1, workers, range);
      DivisionStep(k - 1, workers);
    }
  }

  lemma WrappedWorker(j: nat, workers: nat, range: nat)
    requires workers > 0 && range > 0
    ensures WorkerOf(range + j, workers, range) == WorkerOf(j, workers, range)
  {
    assert range + j == range * (j / range + 1) + j % range;
    RemainderUnique(range + j, range, j / range + 1, j % range);
  }

  lemma {:induction false} ShareAfterWrap(w: nat, k: nat, workers: nat, range: nat)
    requires w < workers && range > 0
    ensures Share(w, range + k, workers, range) == Share(w, range, workers, range) + Share(w, k, workers, range)
  {
    if k != 0 {
      ShareAfterWrap(w, k - 1, workers, range);
      WrappedWorker(k - 1, workers, range);
      hide WorkerOf;
      assert range + k - 1 == range + (k - 1);
    }
  }

  /** All shares of the first `k` descriptors are within one of each other. */
  ghost predicate Even(k: nat, workers: nat, range: nat)
    requires workers > 0 && range > 0
  {
    forall v: nat, w: nat | v < workers && w < workers ::
      Share(v, k, workers, range) <= Share(w, k, workers, range) + 1
  }

  /** Round robin is even for any number of connections if and only if the number of workers divides the range of
      the counter; otherwise two wraps already favour the first worker over the last by two. */
  lemma RoundRobinEven(workers: nat, range: nat)
    requires workers > 0 && range > 0
    ensures (forall k: nat :: Even(k, workers, range)) <==> range % workers == 0
    ensures forall k: nat | k <= range :: Even(k, workers, range)
  {
    forall k: nat, w: nat | w < workers && (k <= range || range % workers == 0)
      ensures Share(w, k, workers, range) == k / workers + if w < k % workers then 1 else 0
    {
      EvenShare(w, k, workers, range);
    }
    if range % workers != 0 {
      var last: nat := workers - 1;
      ShareAfterWrap(0, range, workers, range);
      ShareAfterWrap(last, range, workers, range);
      assert Share(0, range + range, workers, range) == Share(last, range + range, workers, range) + 2;
      assert !Even(range + range, workers, range);
    }
  }

  // ----- the ring as the program writes it -----

  class FdQueue {
    const data: array<int>
    var head: nat
    var tail: nat

    ghost predicate Valid()
      reads this, data
    {
      ValidQueue(View())
    }

    ghost function View(): Queue
      reads this, data
    {
      Queue(data[..], head, tail)
    }

    constructor ()
      ensures Valid() && fresh(data) && Contents(View()) == []
    {
      data := new int[CAPACITY];
      head, tail := 0, 0;
    }

    /** Uninterrupted, the producer's four steps append to the ring unless it is full. */
    method Push(fd: int) returns (ok: bool)
      requires Valid()
      modifies this`tail, data
      ensures Valid()
      ensures ok <==> |old(Contents(View()))| < CAPACITY - 1
      ensures Contents(View()) == if ok then old(Contents(View())) + [fd] else old(Contents(View()))
    {
      var t := tail;
      var next := (t + 1) % CAPACITY;
      if next == head {
        return false;
      }
      WriteOutside(View(), fd);
      ghost var wrote := View().(data := View().data[t := fd]);
      PublishTail(wrote);
      data[t] := fd;
      assert View() == wrote;
      tail := next;
      return true;
    }

    /** Uninterrupted, the consumer's steps take the oldest descriptor unless the ring is empty. */
    method Pop() returns (ok: bool, fd: int)
      requires Valid()
      modifies this`head
      ensures Valid()
      ensures ok <==> old(Contents(View())) != []
      ensures ok ==> old(Contents(View())) == [fd] + Contents(View())
      ensures !ok ==> View() == old(View())
    {
      var h := head;
      if h == tail {
        return false, 0;
      }
      PublishHead(View());
      fd := data[h];
      head := (h + 1) % CAPACITY;
      return true, fd;
    }

    /** The worker's drain loop: pop until the ring is empty. */
    method Drain() returns (fds: seq<int>)
      requires Valid()
      modifies this`head
      ensures Valid() && Contents(View()) == [] && fds == old(Contents(View()))
    {
      hide Contents;
      fds := [];
      var ok, fd := Pop();
      while ok
        invariant Valid()
        invariant ok ==> old(Contents(View())) == fds + [fd] + Contents(View())
        invariant !ok ==> old(Contents(View())) == fds && Contents(View()) == []
        decreases |Contents(View())|, ok
      {
        fds := fds + [fd];
        ok, fd := Pop();
      }
    }
  }
}
