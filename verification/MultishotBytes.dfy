/** The bytes that flow through the multi-shot server. Several receives of one connection may be under way at once, so
    the account is kept for each of them: what was received, and what has been sent out of its buffer since. */
module MultishotBytes {
  import opened Words
  import opened Wrappers
  import opened MultishotEcho

  /** Bytes that the kernel transmitted on a descriptor. */
  datatype Packet = Packet(fd: int, bytes: seq<Byte>)

  /** A receive that brought data: the descriptor, the buffer, the data, whether its submission announced no more; the
      packets transmitted out of the buffer since then; and whether a send of it failed. */
  datatype Chunk = Chunk(fd: int, bid: nat, data: seq<Byte>, last: bool, packets: seq<Packet>, failed: bool)

  /** The server, the contents of the buffers as far as they were filled, all receives so far, and for each buffer the
      latest one that filled it. */
  datatype World = World(s: State, mem: map<nat, seq<Byte>>, chunks: seq<Chunk>, owner: map<nat, nat>)

  /** A completion, with the data a recv delivers into its buffer; or the program handles the oldest completion. */
  datatype Step = Completes(c: Cqe, data: seq<Byte>) | Handles

  function Transferred(res: int): nat {
    if res > 0 then res else 0
  }

  /** A recv delivers as many bytes as its result says. */
  ghost predicate Possible(w: World, step: Step) {
    match step
    case Completes(c, data) => KernelMay(w.s, c) && |data| == if c.buf.Some? then Transferred(c.res) else 0
    case Handles => w.s.cq != [] && w.s.cq[0].ev in w.s.heap
  }

  /** The first `n` bytes from `from` on in buffer `bid`. */
  function Slice(mem: map<nat, seq<Byte>>, bid: nat, from: nat, n: nat): seq<Byte> {
    if bid in mem && from + n <= |mem[bid]| then mem[bid][from..from + n] else []
  }

  /** A send out of buffer `bid` transmits or fails; it goes on the account of the receive that filled the buffer. */
  function Account(chunks: seq<Chunk>, owner: map<nat, nat>, bid: nat, fd: int, res: int, bytes: seq<Byte>)
    : seq<Chunk>
  {
    if bid !in owner || owner[bid] >= |chunks| then chunks
    else
      var ch := chunks[owner[bid]];
      chunks[owner[bid] := if res > 0 then ch.(packets := ch.packets + [Packet(fd, bytes)]) else ch.(failed := true)]
  }

  function Complete(w: World, c: Cqe, data: seq<Byte>): World
    requires c.ev in w.s.heap && (c.buf.Some? ==> w.s.pool != [])
  {
    var w1 := w.(s := Posted(w.s, c));
    match w.s.heap[c.ev]
    case AcceptEvent(_) => w1
    case RecvEvent(fd) =>
      if c.buf.None? then w1
      else w1.(mem := w.mem[c.buf.value := data],
               chunks := w.chunks + [Chunk(fd, c.buf.value, data, !c.more, [], false)],
               owner := w.owner[c.buf.value := |w.chunks|])
    case SendEvent(fd, bid, len, offset, _) =>
      w1.(chunks := Account(w.chunks, w.owner, bid, fd, c.res, Slice(w.mem, bid, offset, Transferred(c.res))))
  }

  function HandleOldest(w: World): World
    requires w.s.cq != [] && w.s.cq[0].ev in w.s.heap
  {
    w.(s := Handle(w.s))
  }

  function Apply(w: World, step: Step): World
    requires Possible(w, step)
  {
    match step
    case Completes(c, data) => Complete(w, c, data)
    case Handles => HandleOldest(w)
  }

  // ----- the invariant -----

  /** The bytes of packets, in order. */
  function Bytes(packets: seq<Packet>): seq<Byte> {
    if packets == [] then [] else Bytes(packets[..|packets| - 1]) + packets[|packets| - 1].bytes
  }

  function Sent(ch: Chunk): seq<Byte> {
    Bytes(ch.packets)
  }

  /** Every packet of a receive went back to where the data came from. */
  ghost predicate SentBack(ch: Chunk) {
    (forall i | 0 <= i < |ch.packets| :: ch.packets[i].fd == ch.fd) && Sent(ch) <= ch.data
  }

  /** Event `ev` sends the data of the receive that filled its buffer, and `n` bytes have gone. */
  ghost predicate Sends(w: World, ev: Event, n: int) {
    && ev.SendEvent? && ev.bid in w.owner && w.owner[ev.bid] < |w.chunks|
    && var ch := w.chunks[w.owner[ev.bid]];
    && ch.fd == ev.fd && ch.bid == ev.bid && |ch.data| == ev.len && ch.last == ev.rearm
    && ev.bid in w.mem && w.mem[ev.bid] == ch.data
    && 0 <= n <= ev.len && Sent(ch) == ch.data[..n]
  }

  ghost predicate HasFailed(w: World, ev: Event)
    requires ev.SendEvent? && ev.bid in w.owner && w.owner[ev.bid] < |w.chunks|
  {
    w.chunks[w.owner[ev.bid]].failed
  }

  ghost predicate ArmedOk(w: World, ev: Event) {
    ev.SendEvent? ==> Sends(w, ev, ev.offset) && !HasFailed(w, ev)
  }

  ghost predicate CompletedOk(w: World, ev: Event, c: Cqe) {
    match ev
    case AcceptEvent(_) => true
    case RecvEvent(fd) =>
      c.buf.Some? ==>
        && c.buf.value in w.owner && w.owner[c.buf.value] < |w.chunks| && c.buf.value in w.mem
        && var data := w.mem[c.buf.value];
           |data| == c.res && w.chunks[w.owner[c.buf.value]] == Chunk(fd, c.buf.value, data, !c.more, [], false)
    case SendEvent(_, _, _, offset, _) =>
      Sends(w, ev, offset + Transferred(c.res)) && (HasFailed(w, ev) <==> c.res <= 0)
  }

  /** The buffer of receive `k` still holds its data, and is not back in the pool. */
  ghost predicate UnderWay(w: World, k: nat)
    requires k < |w.chunks|
  {
    var bid := w.chunks[k].bid;
    bid in w.owner && w.owner[bid] == k && bid !in w.s.pool
  }

  ghost predicate ChunkOk(w: World, k: nat)
    requires k < |w.chunks|
  {
    var ch := w.chunks[k];
    SentBack(ch) && ch.bid < NUM_BUFS && (UnderWay(w, k) || ch.failed || Sent(ch) == ch.data)
  }

  ghost predicate EventsOk(w: World) {
    && (forall e | e in w.s.armed && e in w.s.heap :: ArmedOk(w, w.s.heap[e]))
    && (forall i | 0 <= i < |w.s.cq| && w.s.cq[i].ev in w.s.heap :: CompletedOk(w, w.s.heap[w.s.cq[i].ev], w.s.cq[i]))
  }

  ghost predicate ChunksOk(w: World) {
    forall k | 0 <= k < |w.chunks| :: ChunkOk(w, k)
  }

  ghost predicate WorldInv(w: World) {
    Inv(w.s) && EventsOk(w) && ChunksOk(w)
  }

  // ----- completions -----

  lemma BytesAppend(packets: seq<Packet>, p: Packet)
    ensures Bytes(packets + [p]) == Bytes(packets) + p.bytes
  {
    assert (packets + [p])[..|packets + [p]| - 1] == packets;
  }

  /** Events keep their account when the one for their buffer is untouched. */
  lemma SameAccount(w: World, w': World, ev: Event)
    requires ev.SendEvent? && ev.bid in w.owner ==>
               && ev.bid in w'.owner && w'.owner[ev.bid] == w.owner[ev.bid] && |w.chunks| <= |w'.chunks|
               && (ev.bid in w.mem ==> ev.bid in w'.mem && w'.mem[ev.bid] == w.mem[ev.bid])
               && (w.owner[ev.bid] < |w.chunks| ==> w'.chunks[w.owner[ev.bid]] == w.chunks[w.owner[ev.bid]])
    ensures ArmedOk(w, ev) ==> ArmedOk(w', ev)
    ensures forall c: Cqe | ev.SendEvent? && CompletedOk(w, ev, c) :: CompletedOk(w', ev, c)
  {
    hide Sent;
  }

  lemma SameReceive(w: World, w': World, ev: Event, c: Cqe)
    requires CompletedOk(w, ev, c) && !ev.SendEvent?
    requires ev.RecvEvent? && c.buf.Some? && c.buf.value in w.owner ==>
               var b := c.buf.value;
               && b in w'.owner && w'.owner[b] == w.owner[b] && |w.chunks| <= |w'.chunks|
               && (b in w.mem ==> b in w'.mem && w'.mem[b] == w.mem[b])
               && (w.owner[b] < |w.chunks| ==> w'.chunks[w.owner[b]] == w.chunks[w.owner[b]])
    ensures CompletedOk(w', ev, c)
  {
  }

  /** A receive takes a buffer that no event holds. */
  lemma FreshBuffer(s: State, b: nat)
    requires Inv(s) && s.pool != [] && b == s.pool[0]
    ensures forall e | e in s.heap && s.heap[e].SendEvent? :: s.heap[e].bid != b
    ensures forall i | 0 <= i < |s.cq| && s.cq[i].buf.Some? :: s.cq[i].buf.value != b
    ensures b !in s.pool[1..] && b < NUM_BUFS
  {
    assert b in PoolIds(s.pool) && b in AllIds();
    forall e | e in s.heap && s.heap[e].SendEvent? ensures s.heap[e].bid != b {
      assert s.heap[e].bid in SendIds(s.heap);
    }
    forall i | 0 <= i < |s.cq| && s.cq[i].buf.Some? ensures s.cq[i].buf.value != b {
      assert s.cq[i].buf.value in CompletionIds(s.cq);
    }
  }

  lemma RecvCompletesEvents(w: World, c: Cqe, data: seq<Byte>)
    requires WorldInv(w) && Possible(w, Completes(c, data)) && w.s.heap[c.ev].RecvEvent? && c.buf.Some?
    ensures EventsOk(Complete(w, c, data))
  {
    var w' := Complete(w, c, data);
    FreshBuffer(w.s, c.buf.value);
    hide Inv, Sent, ChunksOk;
    forall e | e in w'.s.armed && e in w'.s.heap ensures ArmedOk(w', w'.s.heap[e]) {
      assert ArmedOk(w, w.s.heap[e]);
      SameAccount(w, w', w.s.heap[e]);
    }
    forall i | 0 <= i < |w'.s.cq| && w'.s.cq[i].ev in w'.s.heap
      ensures CompletedOk(w', w'.s.heap[w'.s.cq[i].ev], w'.s.cq[i])
    {
      if i < |w.s.cq| { CompletionKept(w, w', i); }
    }
  }

  lemma RecvCompletes(w: World, c: Cqe, data: seq<Byte>)
    requires WorldInv(w) && Possible(w, Completes(c, data)) && w.s.heap[c.ev].RecvEvent? && c.buf.Some?
    ensures EventsOk(Complete(w, c, data)) && ChunksOk(Complete(w, c, data))
  {
    var w' := Complete(w, c, data);
    RecvCompletesEvents(w, c, data);
    FreshBuffer(w.s, c.buf.value);
    hide Inv, Sent, EventsOk;
    forall k | 0 <= k < |w'.chunks| ensures ChunkOk(w', k) {
      if k < |w.chunks| {
        assert ChunkOk(w, k);
      } else {
        NothingSent(w'.chunks[k]);
      }
    }
  }

  lemma NothingSent(ch: Chunk)
    requires ch.packets == []
    ensures Sent(ch) == [] && SentBack(ch)
  {
  }

  /** A waiting completion keeps its account when the buffers of sends and completions keep theirs. */
  lemma CompletionKept(w: World, w': World, i: nat)
    requires i < |w.s.cq| && w.s.cq[i].ev in w.s.heap && CompletedOk(w, w.s.heap[w.s.cq[i].ev], w.s.cq[i])
    requires var ev, c := w.s.heap[w.s.cq[i].ev], w.s.cq[i];
             forall b | b in w.owner && ((ev.SendEvent? && ev.bid == b) || (ev.RecvEvent? && c.buf == Some(b))) ::
               && b in w'.owner && w'.owner[b] == w.owner[b] && |w.chunks| <= |w'.chunks|
               && (b in w.mem ==> b in w'.mem && w'.mem[b] == w.mem[b])
               && (w.owner[b] < |w.chunks| ==> w'.chunks[w.owner[b]] == w.chunks[w.owner[b]])
    ensures CompletedOk(w', w.s.heap[w.s.cq[i].ev], w.s.cq[i])
  {
    hide Sends;
    var ev := w.s.heap[w.s.cq[i].ev];
    if ev.SendEvent? {
      SameAccount(w, w', ev);
    } else {
      SameReceive(w, w', ev, w.s.cq[i]);
    }
  }

  /** The next bytes of the data, sent back to where they came from. */
  lemma GoesOn(ch: Chunk, from: nat, n: nat)
    requires SentBack(ch) && from + n <= |ch.data| && Sent(ch) == ch.data[..from]
    ensures var ch' := ch.(packets := ch.packets + [Packet(ch.fd, ch.data[from..from + n])]);
            SentBack(ch') && Sent(ch') == ch.data[..from + n]
  {
    BytesAppend(ch.packets, Packet(ch.fd, ch.data[from..from + n]));
    assert ch.data[..from] + ch.data[from..from + n] == ch.data[..from + n];
    hide Bytes;
  }

  /** What a send leaves on the account of its receive. */
  lemma Accounted(w: World, ev: Event, res: int)
    requires ev.SendEvent? && Sends(w, ev, ev.offset) && !HasFailed(w, ev) && res <= ev.len - ev.offset
    requires SentBack(w.chunks[w.owner[ev.bid]])
    ensures var w' := w.(chunks := Account(w.chunks, w.owner, ev.bid, ev.fd, res,
                                           Slice(w.mem, ev.bid, ev.offset, Transferred(res))));
            && Sends(w', ev, ev.offset + Transferred(res)) && (HasFailed(w', ev) <==> res <= 0)
            && SentBack(w'.chunks[w.owner[ev.bid]])
  {
    var ch := w.chunks[w.owner[ev.bid]];
    GoesOn(ch, ev.offset, Transferred(res));
    if res <= 0 { SameSent(ch); }
    hide Sent, SentBack;
  }

  lemma SameSent(ch: Chunk)
    ensures Sent(ch.(failed := true)) == Sent(ch) && (SentBack(ch) ==> SentBack(ch.(failed := true)))
  {
  }

  lemma SendCompletesArmed(w: World, c: Cqe, data: seq<Byte>)
    requires WorldInv(w) && Possible(w, Completes(c, data)) && w.s.heap[c.ev].SendEvent?
    ensures var w' := Complete(w, c, data); forall e | e in w'.s.armed && e in w'.s.heap :: ArmedOk(w', w'.s.heap[e])
  {
    var w', ev := Complete(w, c, data), w.s.heap[c.ev];
    assert ArmedOk(w, ev);
    OtherSends(w.s, c.ev);
    AccountOthers(w.chunks, w.owner, ev.bid, ev.fd, c.res, Slice(w.mem, ev.bid, ev.offset, Transferred(c.res)));
    hide Inv, Account, Slice, SentBack, Sent, ChunksOk;
    forall e | e in w'.s.armed && e in w'.s.heap ensures ArmedOk(w', w'.s.heap[e]) {
      assert ArmedOk(w, w.s.heap[e]);
      SameAccount(w, w', w.s.heap[e]);
    }
  }

  lemma SendCompletesEvents(w: World, c: Cqe, data: seq<Byte>)
    requires WorldInv(w) && Possible(w, Completes(c, data)) && w.s.heap[c.ev].SendEvent?
    ensures EventsOk(Complete(w, c, data))
  {
    var w', ev := Complete(w, c, data), w.s.heap[c.ev];
    SendCompletesArmed(w, c, data);
    assert ArmedOk(w, ev) && ChunkOk(w, w.owner[ev.bid]);
    Accounted(w, ev, c.res);
    OtherSends(w.s, c.ev);
    AccountOthers(w.chunks, w.owner, ev.bid, ev.fd, c.res, Slice(w.mem, ev.bid, ev.offset, Transferred(c.res)));
    hide Inv, Account, Slice, SentBack, Sent, ChunksOk, ArmedOk;
    forall i | 0 <= i < |w'.s.cq| && w'.s.cq[i].ev in w'.s.heap
      ensures CompletedOk(w', w'.s.heap[w'.s.cq[i].ev], w'.s.cq[i])
    {
      if i < |w.s.cq| { CompletionKept(w, w', i); }
    }
  }

  lemma SendCompletes(w: World, c: Cqe, data: seq<Byte>)
    requires WorldInv(w) && Possible(w, Completes(c, data)) && w.s.heap[c.ev].SendEvent?
    ensures EventsOk(Complete(w, c, data)) && ChunksOk(Complete(w, c, data))
  {
    var w', ev := Complete(w, c, data), w.s.heap[c.ev];
    SendCompletesEvents(w, c, data);
    assert ArmedOk(w, ev) && ChunkOk(w, w.owner[ev.bid]);
    Accounted(w, ev, c.res);
    AccountOthers(w.chunks, w.owner, ev.bid, ev.fd, c.res, Slice(w.mem, ev.bid, ev.offset, Transferred(c.res)));
    hide Inv, Account, Slice, SentBack, Sent, EventsOk;
    forall k | 0 <= k < |w'.chunks| ensures ChunkOk(w', k) {
      assert ChunkOk(w, k);
    }
  }

  lemma AccountOthers(chunks: seq<Chunk>, owner: map<nat, nat>, bid: nat, fd: int, res: int, bytes: seq<Byte>)
    ensures var after := Account(chunks, owner, bid, fd, res, bytes);
            && |after| == |chunks|
            && (forall k | 0 <= k < |chunks| :: after[k].bid == chunks[k].bid)
            && forall k | 0 <= k < |chunks| && (bid in owner ==> owner[bid] != k) :: after[k] == chunks[k]
  {
  }

  /** The buffer of a live send is no other event's, nor in a completion. */
  lemma OtherSends(s: State, e: nat)
    requires Inv(s) && e in s.armed && e in s.heap && s.heap[e].SendEvent?
    ensures forall d | d in s.heap && d != e && s.heap[d].SendEvent? :: s.heap[d].bid != s.heap[e].bid
    ensures forall i | 0 <= i < |s.cq| && s.cq[i].buf.Some? :: s.cq[i].buf.value != s.heap[e].bid
    ensures forall i | 0 <= i < |s.cq| && s.cq[i].ev in s.heap && s.heap[s.cq[i].ev].SendEvent? :: s.cq[i].ev != e
  {
    assert s.heap[e].bid in SendIds(s.heap);
    forall i | 0 <= i < |s.cq| && s.cq[i].buf.Some? ensures s.cq[i].buf.value != s.heap[e].bid {
      assert s.cq[i].buf.value in CompletionIds(s.cq);
    }
    forall i | 0 <= i < |s.cq| && s.cq[i].ev in s.heap && s.heap[s.cq[i].ev].SendEvent? ensures s.cq[i].ev != e {
      assert Fits(s, s.cq[i]) && s.cq[i].ev in Finished(s.cq);
    }
  }

  /** Completions without a buffer leave all accounts as they are. */
  lemma OtherCompletes(w: World, c: Cqe, data: seq<Byte>)
    requires WorldInv(w) && Possible(w, Completes(c, data)) && !w.s.heap[c.ev].SendEvent? && c.buf.None?
    ensures EventsOk(Complete(w, c, data)) && ChunksOk(Complete(w, c, data))
  {
    var w' := Complete(w, c, data);
    hide Inv, Sent, SentBack;
    forall e | e in w'.s.armed && e in w'.s.heap ensures ArmedOk(w', w'.s.heap[e]) {
      assert ArmedOk(w, w.s.heap[e]);
      SameAccount(w, w', w.s.heap[e]);
    }
    forall i | 0 <= i < |w'.s.cq| && w'.s.cq[i].ev in w'.s.heap
      ensures CompletedOk(w', w'.s.heap[w'.s.cq[i].ev], w'.s.cq[i])
    {
      if i < |w.s.cq| { CompletionKept(w, w', i); }
    }
    forall k | 0 <= k < |w'.chunks| ensures ChunkOk(w', k) {
      assert ChunkOk(w, k);
    }
  }

  lemma CompleteKeepsInv(w: World, c: Cqe, data: seq<Byte>)
    requires WorldInv(w) && Possible(w, Completes(c, data))
    ensures WorldInv(Complete(w, c, data))
  {
    PostInv(w.s, c);
    if w.s.heap[c.ev].SendEvent? {
      SendCompletes(w, c, data);
    } else if c.buf.Some? {
      RecvCompletes(w, c, data);
    } else {
      OtherCompletes(w, c, data);
    }
    hide Inv, EventsOk, ChunksOk, Posted;
  }

  // ----- handling -----

  /** The events and completions that a step of the program leaves alone. */
  lemma HandleKeepsOthers(s: State)
    requires Inv(s) && s.cq != []
    ensures s.cq[0].ev in s.heap && Handle(s).cq == s.cq[1..]
    ensures forall i | 0 < i < |s.cq| ::
              s.cq[i].ev in s.heap && s.cq[i].ev in Handle(s).heap
              && Handle(s).heap[s.cq[i].ev] == s.heap[s.cq[i].ev]
  {
    var c := s.cq[0];
    assert Fits(s, c);
    hide BuffersOwned, SlicesValid;
    forall i | 0 < i < |s.cq|
      ensures s.cq[i].ev in s.heap && s.cq[i].ev in Handle(s).heap
              && Handle(s).heap[s.cq[i].ev] == s.heap[s.cq[i].ev]
    {
      assert s.cq[i].ev < s.nextEvent && (!c.more ==> s.cq[i].ev != c.ev);
    }
  }

  /** What is armed afterwards: what was before; the accept; a recv; the rest of a send; or the send of the data that a
      recv brought, all of it and from its start. */
  lemma ArmedAfter(s: State, e: nat)
    requires Inv(s) && s.cq != [] && e in Handle(s).armed && e in Handle(s).heap
    ensures s.cq[0].ev in s.heap
    ensures var c, ev, old' := s.cq[0], Handle(s).heap[e], s.heap[s.cq[0].ev];
            || (e in s.armed && e in s.heap && ev == s.heap[e])
            || !ev.SendEvent?
            || (old'.SendEvent? && 0 < c.res && ev == old'.(offset := old'.offset + c.res))
            || (old'.RecvEvent? && c.buf.Some? && ev == SendEvent(old'.fd, c.buf.value, c.res, 0, !c.more))
  {
    assert Fits(s, s.cq[0]);
    hide BuffersOwned, SlicesValid;
    assert e in s.armed ==> e < s.nextEvent;
    assert s.cq[0].ev in s.armed ==> s.cq[0].more by {
      if !s.cq[0].more { assert s.cq[0].ev in Finished(s.cq); }
    }
  }

  lemma HandleArmed(w: World, e: nat)
    requires WorldInv(w) && w.s.cq != [] && e in Handle(w.s).armed && e in Handle(w.s).heap
    ensures w.s.cq[0].ev in w.s.heap && ArmedOk(HandleOldest(w), Handle(w.s).heap[e])
  {
    ArmedAfter(w.s, e);
    var c, w', ev := w.s.cq[0], HandleOldest(w), Handle(w.s).heap[e];
    hide Inv, Handle, Sent;
    SameAccount(w, w', ev);
    assert CompletedOk(w, w.s.heap[c.ev], c);
    if e in w.s.armed && e in w.s.heap && ev == w.s.heap[e] {
      assert ArmedOk(w, ev);
    } else if ev.SendEvent? && w.s.heap[c.ev].RecvEvent? {
      NothingSent(w.chunks[w.owner[c.buf.value]]);
    }
  }

  /** A buffer comes back into the pool only when its data has been sent, or a send of it has failed. */
  lemma HandleChunks(w: World, k: nat)
    requires WorldInv(w) && w.s.cq != [] && k < |w.chunks| && w.s.cq[0].ev in w.s.heap
    ensures ChunkOk(HandleOldest(w), k)
  {
    var c, ch := w.s.cq[0], w.chunks[k];
    assert ChunkOk(w, k) && CompletedOk(w, w.s.heap[c.ev], c);
    PoolAfter(w.s);
    if UnderWay(w, k) && !UnderWay(HandleOldest(w), k) {
      var ev := w.s.heap[c.ev];
      assert ev.SendEvent? && ch.bid == ev.bid;
      if c.res > 0 { assert ch.data[..ev.len] == ch.data; }
    }
    hide Inv, Handle, Sent;
  }

  lemma PoolAfter(s: State)
    requires Inv(s) && s.cq != [] && s.cq[0].ev in s.heap
    ensures var c, ev := s.cq[0], s.heap[s.cq[0].ev];
            Handle(s).pool == if ev.SendEvent? && (c.res <= 0 || ev.offset + c.res == ev.len) then s.pool + [ev.bid]
                              else s.pool
  {
    assert Fits(s, s.cq[0]);
  }

  lemma HandleKeepsInv(w: World)
    requires WorldInv(w) && w.s.cq != []
    ensures w.s.cq[0].ev in w.s.heap && WorldInv(HandleOldest(w))
  {
    HandleInv(w.s);
    HandleKeepsOthers(w.s);
    var w' := HandleOldest(w);
    hide Inv, Handle;
    forall e | e in w'.s.armed && e in w'.s.heap ensures ArmedOk(w', w'.s.heap[e]) {
      HandleArmed(w, e);
    }
    forall i | 0 <= i < |w'.s.cq| && w'.s.cq[i].ev in w'.s.heap
      ensures CompletedOk(w', w'.s.heap[w'.s.cq[i].ev], w'.s.cq[i])
    {
      assert w'.s.cq[i] == w.s.cq[i + 1];
      assert CompletedOk(w, w.s.heap[w.s.cq[i + 1].ev], w.s.cq[i + 1]);
      CompletionKept(w, w', i + 1);
    }
    forall k | 0 <= k < |w'.chunks| ensures ChunkOk(w', k) {
      HandleChunks(w, k);
    }
  }

  // ----- runs -----

  ghost predicate Runs(w: World, steps: seq<Step>, w': World)
    decreases |steps|
  {
    if steps == [] then w == w'
    else Possible(w, steps[0]) && Runs(Apply(w, steps[0]), steps[1..], w')
  }

  function Start(listenFd: int): World {
    World(Init(listenFd), map[], [], map[])
  }

  lemma {:induction false} RunKeepsInv(w: World, steps: seq<Step>, w': World)
    requires WorldInv(w) && Runs(w, steps, w')
    ensures WorldInv(w')
    decreases |steps|
  {
    if steps != [] {
      match steps[0] {
        case Completes(c, data) => CompleteKeepsInv(w, c, data);
        case Handles => HandleKeepsInv(w);
      }
      hide WorldInv, Possible, Apply;
      RunKeepsInv(Apply(w, steps[0]), steps[1..], w');
    }
  }

  lemma StartInv(listenFd: int)
    ensures WorldInv(Start(listenFd))
  {
    InitInv(listenFd);
  }

  /** Completion `i` is receive `k`, still to be handled. */
  ghost predicate Waits(w: World, i: nat, k: nat)
    requires k < |w.chunks|
  {
    var ch := w.chunks[k];
    && i < |w.s.cq| && w.s.cq[i].buf == Some(ch.bid) && ch.bid in w.owner && w.owner[ch.bid] == k
    && w.s.cq[i].ev in w.s.heap && w.s.heap[w.s.cq[i].ev] == RecvEvent(ch.fd)
    && w.s.cq[i].res == |ch.data| && w.s.cq[i].more == !ch.last && ch.packets == [] && !ch.failed
  }

  /** Event `e` sends receive `k`: all of its data, to where it came from, from as far as it has gone. */
  ghost predicate Sending(w: World, e: nat, k: nat)
    requires k < |w.chunks|
  {
    var ch := w.chunks[k];
    && ch.bid in w.owner && w.owner[ch.bid] == k && ch.bid in w.mem && w.mem[ch.bid] == ch.data
    && e in w.s.heap && w.s.heap[e].SendEvent?
    && var offset := w.s.heap[e].offset;
       && w.s.heap[e] == SendEvent(ch.fd, ch.bid, |ch.data|, offset, ch.last) && offset <= |ch.data|
       && (e in w.s.armed ==> Sent(ch) == ch.data[..offset] && !ch.failed)
  }

  /** Every receive is echoed: whatever the run, the bytes sent out of its buffer went back to the descriptor they came
      from and are a prefix of its data. It waits to be handled, or exactly one event sends it, or all of it has been
      sent, or a send of it has failed. */
  lemma EveryReceiveIsEchoed(listenFd: int, steps: seq<Step>, w: World, k: nat)
    requires Runs(Start(listenFd), steps, w) && k < |w.chunks|
    ensures SentBack(w.chunks[k])
    ensures (exists i :: Waits(w, i, k)) || (exists e :: Sending(w, e, k))
            || w.chunks[k].failed || Sent(w.chunks[k]) == w.chunks[k].data
    ensures forall d, e | Sending(w, d, k) && Sending(w, e, k) :: d == e
    ensures forall i, j | Waits(w, i, k) && Waits(w, j, k) :: i == j
    ensures forall i, e | Waits(w, i, k) :: !Sending(w, e, k)
  {
    StartInv(listenFd);
    RunKeepsInv(Start(listenFd), steps, w);
    hide Runs, Start;
    assert ChunkOk(w, k);
    if UnderWay(w, k) { HasItsPlace(w, k); }
    OnePlace(w, k);
    hide WorldInv, ChunkOk;
  }

  lemma OnePlace(w: World, k: nat)
    requires Inv(w.s) && k < |w.chunks|
    ensures forall d, e | Sending(w, d, k) && Sending(w, e, k) :: d == e
    ensures forall i, j | Waits(w, i, k) && Waits(w, j, k) :: i == j
    ensures forall i, e | Waits(w, i, k) :: !Sending(w, e, k)
  {
    forall i: nat, e: nat | Waits(w, i, k) ensures !Sending(w, e, k) {
      assert w.s.cq[i].buf.value in CompletionIds(w.s.cq);
      assert e in w.s.heap && w.s.heap[e].SendEvent? ==> w.s.heap[e].bid in SendIds(w.s.heap);
    }
  }

  lemma HasItsPlace(w: World, k: nat)
    requires WorldInv(w) && k < |w.chunks| && UnderWay(w, k) && ChunkOk(w, k)
    ensures (exists i :: Waits(w, i, k)) || (exists e :: Sending(w, e, k))
  {
    var b := w.chunks[k].bid;
    assert b in AllIds() && b !in PoolIds(w.s.pool);
    if b in CompletionIds(w.s.cq) {
      var i :| 0 <= i < |w.s.cq| && w.s.cq[i].buf.Some? && w.s.cq[i].buf.value == b;
      assert w.s.cq[i].ev in w.s.heap && Fits(w.s, w.s.cq[i]);
      assert CompletedOk(w, w.s.heap[w.s.cq[i].ev], w.s.cq[i]);
      assert Waits(w, i, k);
    } else {
      assert b in SendIds(w.s.heap);
      var e :| e in w.s.heap && w.s.heap[e].SendEvent? && w.s.heap[e].bid == b;
      SendOfChunk(w, e);
      assert Sending(w, e, k);
    }
  }

  lemma SendOfChunk(w: World, e: nat)
    requires WorldInv(w) && e in w.s.heap && w.s.heap[e].SendEvent?
    ensures exists n :: Sends(w, w.s.heap[e], n) && (e in w.s.armed ==> n == w.s.heap[e].offset)
    ensures e in w.s.armed ==> !HasFailed(w, w.s.heap[e])
  {
    if e in w.s.armed {
      assert ArmedOk(w, w.s.heap[e]);
    } else {
      assert e in Finished(w.s.cq);
      var i :| 0 <= i < |w.s.cq| && !w.s.cq[i].more && w.s.cq[i].ev == e;
      assert CompletedOk(w, w.s.heap[e], w.s.cq[i]);
    }
  }

  // ----- what each completion is answered with -----

  /** The events that the handling of the oldest completion allocates. */
  ghost function NewEvents(s: State): set<nat>
    requires s.cq != [] && s.cq[0].ev in s.heap
  {
    Handle(s).heap.Keys - s.heap.Keys
  }

  /** The receive that waits at the head is answered with one new event, which is to send all of its data from the start
      and to go back to receiving exactly if the recv announced no more; a recv that announced more stays armed or
      waiting, and otherwise its event is deleted. */
  lemma ReceiveIsAnswered(listenFd: int, steps: seq<Step>, w: World, k: nat)
    requires Runs(Start(listenFd), steps, w) && k < |w.chunks| && Waits(w, 0, k)
    ensures var ch, c, t := w.chunks[k], w.s.cq[0], Handle(w.s);
            exists e :: NewEvents(w.s) == {e} && e in t.armed
                        && t.heap[e] == SendEvent(ch.fd, ch.bid, |ch.data|, 0, ch.last)
                        && Sending(HandleOldest(w), e, k)
                        && (c.ev in t.heap <==> !ch.last)
  {
    StartInv(listenFd);
    RunKeepsInv(Start(listenFd), steps, w);
    hide Runs, Start;
    var e := w.s.nextEvent;
    assert CompletedOk(w, w.s.heap[w.s.cq[0].ev], w.s.cq[0]);
    HandleKeepsInv(w);
    assert w.s.cq[0].ev < e && e !in w.s.heap;
    assert NewEvents(w.s) == {e};
    assert ArmedOk(HandleOldest(w), Handle(w.s).heap[e]);
  }

  /** A completed send that leaves data goes on from there; one that ends allocates a recv exactly if its receive
      was the last of its submission and the descriptor is connected; one that fails closes the descriptor. */
  lemma SendIsAnswered(s: State)
    requires Inv(s) && s.cq != [] && s.cq[0].ev in s.heap && s.heap[s.cq[0].ev].SendEvent?
    ensures var c, ev, t := s.cq[0], s.heap[s.cq[0].ev], Handle(s);
            if c.res <= 0 then
              NewEvents(s) == {} && c.ev !in t.heap && t.closed == s.closed + [ev.fd] && t.pool == s.pool + [ev.bid]
            else if ev.offset + c.res < ev.len then
              && NewEvents(s) == {} && t.heap[c.ev] == ev.(offset := ev.offset + c.res) && c.ev in t.armed
              && t.closed == s.closed && t.pool == s.pool
            else
              && c.ev !in t.heap && t.closed == s.closed && t.pool == s.pool + [ev.bid]
              && if ev.rearm && ev.fd in s.clients
                 then exists e :: NewEvents(s) == {e} && e in t.armed && t.heap[e] == RecvEvent(ev.fd)
                 else NewEvents(s) == {}
  {
    assert s.cq[0].ev < s.nextEvent && s.nextEvent !in s.heap;
    hide EventsOwned, BuffersOwned, SlicesValid;
    var c, ev, t := s.cq[0], s.heap[s.cq[0].ev], Handle(s);
    if c.res > 0 && ev.offset + c.res >= ev.len && ev.rearm && ev.fd in s.clients {
      assert NewEvents(s) == {s.nextEvent};
    } else {
      assert NewEvents(s) == {};
    }
  }

  /** A recv without data: when the buffers ran out it is queued again, and otherwise its descriptor is closed. */
  lemma EmptyRecvIsAnswered(s: State)
    requires Inv(s) && s.cq != [] && s.cq[0].ev in s.heap && s.heap[s.cq[0].ev].RecvEvent?
    requires s.cq[0].buf.None?
    ensures var c, fd, t := s.cq[0], s.heap[s.cq[0].ev].fd, Handle(s);
            if c.res == -ENOBUFS then
              t.closed == s.closed && exists e :: NewEvents(s) == {e} && e in t.armed && t.heap[e] == RecvEvent(fd)
            else
              NewEvents(s) == {} && t.closed == s.closed + [fd] && fd !in t.clients
  {
    assert s.cq[0].ev < s.nextEvent && s.nextEvent !in s.heap;
    hide EventsOwned, BuffersOwned, SlicesValid;
    if s.cq[0].res == -ENOBUFS {
      assert NewEvents(s) == {s.nextEvent};
    } else {
      assert NewEvents(s) == {};
    }
  }

  /** Every descriptor that is accepted becomes connected and has a recv armed for it. */
  lemma AcceptIsAnswered(s: State)
    requires Inv(s) && s.cq != [] && s.cq[0].ev in s.heap && s.heap[s.cq[0].ev].AcceptEvent?
    ensures var c, t := s.cq[0], Handle(s);
            && t.clients == s.clients + (if c.res >= 0 then {c.res} else {}) && t.closed == s.closed
            && (c.res >= 0 ==> exists e :: e in NewEvents(s) && e in t.armed && t.heap[e] == RecvEvent(c.res))
            && (!c.more <==> exists e :: e in NewEvents(s) && e in t.armed && t.heap[e] == AcceptEvent(s.listenFd))
  {
    assert s.cq[0].ev < s.nextEvent && s.nextEvent !in s.heap && s.nextEvent + 1 !in s.heap;
    hide EventsOwned, BuffersOwned, SlicesValid;
    var c, t, n := s.cq[0], Handle(s), s.nextEvent;
    if c.res >= 0 { assert n in NewEvents(s); }
    var a := if c.res >= 0 then n + 1 else n;
    if c.more {
      assert NewEvents(s) == if c.res >= 0 then {n} else {};
    } else {
      assert a in NewEvents(s);
    }
  }
}
