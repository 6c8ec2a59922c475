/** Copying a file through a ring: the serial loop with one buffer, and the pipelined loop that reads the next chunk
    into one buffer while the previous chunk is written from the other. The kernel may touch the buffers of
    in-flight operations at any moment, complete them in any order and report any result. */
module FileCopy {
  import opened Words
  import opened Wrappers

  const BUF_SIZE: nat := 65536

  datatype Tag = Read | Write

  /** An operation on `len` bytes of buffer `buf` and of a file from `off` on. */
  datatype Operation = Operation(buf: nat, off: nat, len: nat)

  /** What the kernel chooses for a completion: whether a read comes before a write, and what it would like each to
      return. */
  datatype Choice = Choice(readFirst: bool, read: int, write: int)

  /** A kernel that fails no operation and writes everything; its reads may be short. */
  ghost predicate Obliging(plan: nat -> Choice) {
    forall n :: plan(n).read >= 0 && plan(n).write >= BUF_SIZE
  }

  /** Writing one byte of a file; a gap before it reads as zeros. */
  function Put(file: seq<Byte>, pos: nat, b: Byte): (r: seq<Byte>)
    ensures |r| == if pos < |file| then |file| else pos + 1
    ensures r[pos] == b
    ensures forall k | 0 <= k < |file| && k != pos :: r[k] == file[k]
  {
    if pos < |file| then file[pos := b]
    else file + seq(pos - |file|, _ => 0) + [b]
  }

  /** The ring, the two files and the two buffers. `plan` holds the kernel's choices, one for each completion; any plan
      is a possible kernel. */
  class Kernel {
    const src: seq<Byte>
    const plan: nat -> Choice
    const buf0: array<Byte>
    const buf1: array<Byte>
    var dst: seq<Byte>
    var reading: Option<Operation>
    var writing: Option<Operation>
    ghost var copied: set<nat>         // which bytes of the write in flight already reached the file
    ghost var base: seq<Byte>          // the file when that write was submitted
    ghost var content: seq<Byte>       // and the bytes submitted
    var shortRead: bool                // whether any read or write so far moved less than was asked
    var shortWrite: bool
    var waits: nat                     // completions so far

    function Buffer(b: nat): array<Byte> {
      if b == 0 then buf0 else buf1
    }

    ghost predicate Valid()
      reads this, buf0, buf1
    {
      && buf0 != buf1 && buf0.Length == BUF_SIZE && buf1.Length == BUF_SIZE
      && (reading.Some? ==> reading.value.buf < 2 && reading.value.len <= BUF_SIZE)
      && (writing.Some? ==> writing.value.buf < 2 && writing.value.len <= BUF_SIZE)
      && (reading.Some? && writing.Some? ==> reading.value.buf != writing.value.buf)
      && (writing.Some? ==> WriteUnderWay(writing.value))
    }

    /** The buffer still holds what was submitted, and the file differs from what it was only by copied bytes. */
    ghost predicate WriteUnderWay(w: Operation)
      requires w.len <= BUF_SIZE && buf0.Length == BUF_SIZE && buf1.Length == BUF_SIZE
      reads this, buf0, buf1
    {
      && Buffer(w.buf)[..w.len] == content
      && |base| <= |dst| <= (if |base| > w.off + w.len then |base| else w.off + w.len)
      && (forall k | 0 <= k < |base| && !(w.off <= k < w.off + w.len) :: dst[k] == base[k])
      && (forall j | j in copied :: j < w.len && w.off + j < |dst| && dst[w.off + j] == content[j])
    }

    /** What a completed read leaves behind: `res` bytes of the file, zero only at its end or when asked for
        nothing. */
    ghost predicate ReadDone(r: Operation, res: nat)
      reads this, buf0, buf1
    {
      && res <= r.len
      && (res == 0 <==> r.len == 0 || r.off >= |src|)
      && (res > 0 ==> r.off + res <= |src|)
      && Buffer(r.buf).Length == BUF_SIZE >= r.len
      && (res > 0 ==> Buffer(r.buf)[..res] == src[r.off..r.off + res])
    }

    /** Buffer `b` is not the target of a read. */
    predicate Quiet(b: nat)
      reads this
    {
      !(reading.Some? && Buffer(reading.value.buf) == Buffer(b))
    }

    constructor (src: seq<Byte>, plan: nat -> Choice)
      ensures Valid() && this.src == src && this.plan == plan && waits == 0
      ensures dst == [] && reading.None? && writing.None?
      ensures !shortRead && !shortWrite && fresh(buf0) && fresh(buf1)
    {
      this.src, this.plan, waits := src, plan, 0;
      buf0 := new Byte[BUF_SIZE](_ => 0);
      buf1 := new Byte[BUF_SIZE](_ => 0);
      dst, reading, writing := [], None, None;
      copied, base, content, shortRead, shortWrite := {}, [], [], false, false;
    }

    method SubmitRead(b: nat, len: nat, off: nat)
      requires Valid() && reading.None? && b < 2 && len <= BUF_SIZE
      requires writing.Some? ==> writing.value.buf != b
      modifies this`reading
      ensures Valid() && reading == Some(Operation(b, off, len))
    {
      reading := Some(Operation(b, off, len));
    }

    method SubmitWrite(b: nat, len: nat, off: nat)
      requires Valid() && writing.None? && b < 2 && len <= BUF_SIZE && off + len >= |dst|
      requires reading.Some? ==> reading.value.buf != b
      modifies this`writing, this`copied, this`base, this`content
      ensures Valid() && writing == Some(Operation(b, off, len))
      ensures base == dst && content == Buffer(b)[..len]
    {
      writing := Some(Operation(b, off, len));
      copied, base, content := {}, dst, Buffer(b)[..len];
    }

    /** While it waits the kernel stores anything into a buffer being read and copies bytes of a write in any
        order. */
    method Progress()
      requires Valid()
      modifies this`dst, this`copied, buf0, buf1
      ensures Valid()
      ensures writing.None? ==> dst == old(dst) && copied == old(copied)
      ensures Quiet(0) ==> buf0[..] == old(buf0[..])
      ensures Quiet(1) ==> buf1[..] == old(buf1[..])
    {
      var steps: nat :| true;
      while steps > 0
        invariant Valid()
        invariant writing.None? ==> dst == old(dst) && copied == old(copied)
        invariant Quiet(0) ==> buf0[..] == old(buf0[..])
        invariant Quiet(1) ==> buf1[..] == old(buf1[..])
      {
        var i: nat :| true;
        var junk: Byte :| true;
        if reading.Some? && i < reading.value.len {
          Buffer(reading.value.buf)[i] := junk;
        } else if writing.Some? && i < writing.value.len {
          CopyByte(i);
        }
        steps := steps - 1;
      }
    }

    method CopyByte(i: nat)
      requires Valid() && writing.Some? && i < writing.value.len
      modifies this`dst, this`copied
      ensures Valid() && copied == old(copied) + {i}
    {
      var w := writing.value;
      assert Buffer(w.buf)[i] == content[i];
      dst := Put(dst, w.off + i, Buffer(w.buf)[i]);
      copied := copied + {i};
    }

    /** Waits for a completion. Which one comes, and with what result, is the kernel's choice: an error, or a count
        up to what was asked. A read returns zero only if there is nothing to read. */
    method Wait() returns (tag: Tag, res: int)
      requires Valid() && (reading.Some? || writing.Some?)
      modifies this, buf0, buf1
      ensures Valid() && waits == old(waits) + 1
      ensures old(Quiet(0)) ==> buf0[..] == old(buf0[..])
      ensures old(Quiet(1)) ==> buf1[..] == old(buf1[..])
      ensures tag == Read ==>
                && old(reading).Some? && reading.None? && writing == old(writing)
                && base == old(base) && content == old(content)
                && (writing.None? ==> dst == old(dst))
                && shortWrite == old(shortWrite)
                && (res < 0 <==> plan(old(waits)).read < 0)
                && (plan(old(waits)).read >= 1 ==> res <= plan(old(waits)).read)
                && (res >= 0 ==>
                      && ReadDone(old(reading).value, res)
                      && shortRead == (old(shortRead) || res < old(reading).value.len))
      ensures tag == Write ==>
                && old(writing).Some? && writing.None? && reading == old(reading)
                && shortRead == old(shortRead)
                && (res < 0 <==> plan(old(waits)).write < 0)
                && (plan(old(waits)).write >= BUF_SIZE ==> res == old(writing).value.len)
                && (res >= 0 ==> WriteDone(old(writing).value, res) && base == old(base) && content == old(content)
                                 && shortWrite == (old(shortWrite) || res < old(writing).value.len))
    {
      Progress();
      var choice := plan(waits);
      waits := waits + 1;
      if reading.Some? && (choice.readFirst || writing.None?) {
        tag := Read;
        res := FinishRead(choice.read);
      } else {
        tag := Write;
        res := FinishWrite(choice.write);
      }
    }

    /** Completes the read with a legal result close to `wish`. */
    method FinishRead(wish: int) returns (res: int)
      requires Valid() && reading.Some?
      modifies this`reading, this`shortRead, Buffer(reading.value.buf)
      ensures Valid() && reading.None?
      ensures (res < 0 <==> wish < 0) && (wish >= 1 ==> res <= wish)
      ensures res >= 0 ==> ReadDone(old(reading).value, res)
                           && shortRead == (old(shortRead) || res < old(reading).value.len)
    {
      var r := reading.value;
      reading := None;
      if wish < 0 {
        return wish;
      }
      var left := if r.off >= |src| then 0 else |src| - r.off;
      var most := if r.len < left then r.len else left;
      res := if wish > most then most else if wish == 0 && most > 0 then 1 else wish;
      Store(r.buf, r.off, res);
      shortRead := shortRead || res < r.len;
    }

    /** Stores bytes of the file in a buffer that no write in flight uses. */
    method Store(b: nat, off: nat, n: nat)
      requires Valid() && reading.None? && b < 2 && (writing.Some? ==> writing.value.buf != b)
      requires n <= BUF_SIZE && (n > 0 ==> off + n <= |src|)
      modifies Buffer(b)
      ensures Valid()
      ensures n > 0 ==> Buffer(b)[..n] == src[off..off + n]
    {
      var buffer := Buffer(b);
      forall i | 0 <= i < n {
        buffer[i] := src[off + i];
      }
      if writing.Some? {
        var other := Buffer(writing.value.buf);
        assert other != buffer && other[..] == old(other[..]);
        assert other[..writing.value.len] == other[..][..writing.value.len];
      }
    }

    /** What a completed write leaves behind: it grows the file at most to its end, and if it was not short and began
        at the end of the file it appended its bytes. */
    ghost predicate WriteDone(w: Operation, res: nat)
      reads this
    {
      && res <= w.len
      && |dst| <= (if |base| > w.off + w.len then |base| else w.off + w.len)
      && (res == w.len && w.off == |base| ==> dst == base + content)
    }

    /** Once every byte has been copied the file is the old one with the bytes appended. */
    lemma FullyCopied(w: Operation)
      requires w.len <= BUF_SIZE && buf0.Length == BUF_SIZE && buf1.Length == BUF_SIZE && WriteUnderWay(w)
      requires w.off == |base| && forall j: nat | j < w.len :: j in copied
      ensures dst == base + content
    {
      assert |content| == w.len;
      assert w.len > 0 ==> w.len - 1 in copied;
    }

    method FinishWrite(wish: int) returns (res: int)
      requires Valid() && writing.Some?
      modifies this`writing, this`dst, this`copied, this`shortWrite
      ensures Valid() && writing.None?
      ensures (res < 0 <==> wish < 0) && (wish >= old(writing).value.len ==> res == old(writing).value.len)
      ensures res >= 0 ==> WriteDone(old(writing).value, res)
                           && shortWrite == (old(shortWrite) || res < old(writing).value.len)
    {
      var w := writing.value;
      if wish < 0 {
        writing := None;
        return wish;
      }
      res := if wish > w.len then w.len else wish;
      for i := 0 to res
        invariant Valid() && writing == old(writing) && shortWrite == old(shortWrite)
        invariant forall j: nat | j < i :: j in copied
      {
        CopyByte(i);
      }
      if res == w.len && w.off == |base| {
        FullyCopied(w);
      }
      shortWrite := shortWrite || res < w.len;
      writing := None;
    }
  }

  function Min(a: int, b: int): int {
    if a < b then a else b
  }

  /** The serial loop. If no call fails and no write is short, the destination is the source, however short the reads
      are. */
  method SerialCopy(k: Kernel) returns (ok: bool, copied: nat)
    requires k.Valid() && k.reading.None? && k.writing.None? && k.dst == []
    requires !k.shortRead && !k.shortWrite
    modifies k, k.buf0, k.buf1
    ensures k.Valid()
    ensures ok ==> k.reading.None? && k.writing.None?
    ensures ok && !k.shortWrite ==> k.dst == k.src && copied == |k.src|
    ensures Obliging(k.plan) ==> ok && !k.shortWrite
  {
    var offset := 0;
    hide Kernel.Valid, Obliging;
    while true
      invariant k.Valid() && k.reading.None? && k.writing.None?
      invariant offset <= |k.src|
      invariant !k.shortWrite ==> k.dst == k.src[..offset]
      invariant |k.dst| <= offset
      invariant Obliging(k.plan) ==> !k.shortWrite
      decreases |k.src| - offset
    {
      var bytesRead := ReadNext(k, offset);
      if bytesRead < 0 {
        return false, offset;
      }
      if bytesRead == 0 {
        break;
      }
      var res := WriteRead(k, offset, bytesRead);
      if res < 0 {
        return false, offset;
      }
      offset := offset + bytesRead;
    }
    return true, offset;
  }

  /** Reads up to a buffer from `offset` on. */
  method ReadNext(k: Kernel, offset: nat) returns (bytesRead: int)
    requires k.Valid() && k.reading.None? && k.writing.None? && offset <= |k.src|
    modifies k, k.buf0, k.buf1
    ensures k.Valid() && k.reading.None? && k.writing.None?
    ensures k.dst == old(k.dst) && k.shortWrite == old(k.shortWrite)
    ensures Obliging(k.plan) ==> bytesRead >= 0
    ensures bytesRead >= 0 ==> bytesRead <= BUF_SIZE && offset + bytesRead <= |k.src|
    ensures bytesRead == 0 ==> offset == |k.src|
    ensures bytesRead > 0 ==> k.buf0[..bytesRead] == k.src[offset..offset + bytesRead]
  {
    k.SubmitRead(0, BUF_SIZE, offset);
    var tag;
    tag, bytesRead := k.Wait();
  }

  /** Writes what was read. */
  method WriteRead(k: Kernel, offset: nat, bytesRead: nat) returns (res: int)
    requires k.Valid() && k.reading.None? && k.writing.None? && |k.dst| <= offset
    requires 0 < bytesRead <= BUF_SIZE && offset + bytesRead <= |k.src|
    requires k.buf0[..bytesRead] == k.src[offset..offset + bytesRead]
    modifies k, k.buf0, k.buf1
    ensures k.Valid() && k.reading.None? && k.writing.None?
    ensures Obliging(k.plan) ==> res >= 0 && k.shortWrite == old(k.shortWrite)
    ensures res >= 0 ==> |k.dst| <= offset + bytesRead
    ensures res >= 0 && !k.shortWrite ==> !old(k.shortWrite)
    ensures res >= 0 && !k.shortWrite && old(k.dst) == k.src[..offset] ==> k.dst == k.src[..offset + bytesRead]
  {
    k.SubmitWrite(0, bytesRead, offset);
    assert k.src[..offset] + k.src[offset..offset + bytesRead] == k.src[..offset + bytesRead];
    var tag;
    tag, res := k.Wait();
  }

  /** What the file will hold once the write in flight, if any, has completed in full. */
  ghost function Settled(k: Kernel): seq<Byte>
    reads k
  {
    if k.writing.Some? then k.base + k.content else k.dst
  }

  /** How long the file can get before the next submission. */
  ghost function Extent(k: Kernel): nat
    reads k
  {
    if k.writing.Some? && |k.dst| < k.writing.value.off + k.writing.value.len
    then k.writing.value.off + k.writing.value.len
    else |k.dst|
  }

  /** A read of `len` bytes is to return some of them, but not all. */
  predicate CutsShort(c: Choice, len: nat) {
    1 <= c.read < len
  }

  /** Reaps the read in flight and, if there is one, the previous write, in whichever order they arrive. */
  method ReapAll(k: Kernel, toReap: nat) returns (ok: bool, bytesRead: nat)
    requires toReap == if k.writing.Some? then 2 else 1
    requires k.Valid() && k.reading.Some? && k.reading.value.off + k.reading.value.len <= |k.src|
    requires k.writing.Some? ==> k.writing.value.off == |k.base| || k.shortWrite
    modifies k, k.buf0, k.buf1
    ensures k.Valid()
    ensures ok ==> k.reading.None? && k.writing.None?
    ensures ok && !k.shortWrite ==> k.dst == old(Settled(k)) && !old(k.shortWrite)
    ensures ok ==> |k.dst| <= old(Extent(k))
    ensures Obliging(k.plan) ==> ok && k.shortWrite == old(k.shortWrite)
    ensures toReap == 1 && 1 <= k.plan(old(k.waits)).read ==> bytesRead <= k.plan(old(k.waits)).read
    ensures ok ==> k.ReadDone(old(k.reading).value, bytesRead)
                   && k.shortRead == (old(k.shortRead) || bytesRead < old(k.reading).value.len)
  {
    ghost var r := k.reading.value;
    bytesRead := 0;
    var i := 0;
    while i < toReap
      invariant 0 <= i <= toReap <= 2
      invariant k.Valid()
      invariant (if k.reading.Some? then 1 else 0) + (if k.writing.Some? then 1 else 0) == toReap - i
      invariant k.reading.Some? ==> k.reading == old(k.reading) && k.shortRead == old(k.shortRead)
      invariant k.writing.Some? ==>
                  k.writing == old(k.writing) && k.base == old(k.base) && k.content == old(k.content)
                  && k.shortWrite == old(k.shortWrite)
      invariant k.shortWrite || (Settled(k) == old(Settled(k)) && !old(k.shortWrite))
      invariant Extent(k) <= old(Extent(k))
      invariant Obliging(k.plan) ==> k.shortWrite == old(k.shortWrite)
      invariant i == 0 ==> bytesRead == 0 && k.waits == old(k.waits)
      invariant toReap == 1 && 1 <= k.plan(old(k.waits)).read ==> bytesRead <= k.plan(old(k.waits)).read
      invariant k.reading.None? ==>
                  k.ReadDone(r, bytesRead) && k.shortRead == (old(k.shortRead) || bytesRead < r.len)
    {
      var tag, res := k.Wait();
      if res < 0 {
        return false, bytesRead;
      }
      if tag == Read {
        bytesRead := res;
      }
      i := i + 1;
    }
    return true, bytesRead;
  }

  /** The bytes accounted for once the write in flight completes, when the read in flight starts at `start`: all of
      the source up to there if no read was short, fewer otherwise. */
  ghost predicate Accounted(k: Kernel, writeOff: nat, start: nat)
    reads k
  {
    && Extent(k) <= writeOff
    && (k.writing.Some? ==> k.shortWrite || k.writing.value.off == |k.base|)
    && (!k.shortWrite ==> |Settled(k)| == writeOff)
    && (!k.shortWrite && !k.shortRead ==> writeOff == start <= |k.src| && Settled(k) == k.src[..start])
    && (!k.shortWrite && k.shortRead ==> writeOff < start)
  }

  /** Between reaping and submitting: nothing in flight, and the buffer of the read `r` filled. */
  ghost predicate Reaped(k: Kernel, writeOff: nat, r: Operation, bytesRead: nat)
    reads k, k.buf0, k.buf1
  {
    && k.reading.None? && k.writing.None? && r.len <= BUF_SIZE && r.off + r.len <= |k.src|
    && k.ReadDone(r, bytesRead)
    && |k.dst| <= writeOff
    && (!k.shortWrite ==> |k.dst| == writeOff)
    && (!k.shortWrite && !k.shortRead ==> writeOff == r.off && k.dst == k.src[..r.off] && bytesRead == r.len)
    && (!k.shortWrite && k.shortRead ==> writeOff < r.off || (writeOff == r.off && bytesRead < r.len))
  }

  /** If no write was short: `copied` bytes are there, and they are the source exactly when no read was short. */
  ghost predicate CopiedUnlessShort(k: Kernel, copied: nat)
    reads k
  {
    !k.shortWrite ==> copied == |k.dst| && (k.dst == k.src <==> !k.shortRead)
  }

  /** The last read brought nothing. */
  lemma NothingRead(k: Kernel, writeOff: nat, r: Operation)
    requires Reaped(k, writeOff, r, 0) && (r.len == 0 <==> |k.src| == 0)
    ensures k.reading.None? && k.writing.None?
    ensures CopiedUnlessShort(k, writeOff)
  {
  }

  /** At the top of the loop: the last read submitted is in flight. */
  ghost predicate Underway(k: Kernel, cur: nat, chunk: nat, readOff: nat, writeOff: nat)
    reads k, k.buf0, k.buf1
  {
    && k.Valid() && cur < 2 && chunk <= readOff <= |k.src|
    && k.reading == Some(Operation(cur, readOff - chunk, chunk))
    && Accounted(k, writeOff, readOff - chunk)
  }

  method ReapForWrite(k: Kernel, toReap: nat, ghost cur: nat, ghost chunk: nat, ghost readOff: nat, ghost writeOff: nat)
    returns (ok: bool, bytesRead: nat)
    requires toReap == if k.writing.Some? then 2 else 1
    requires Underway(k, cur, chunk, readOff, writeOff)
    modifies k, k.buf0, k.buf1
    ensures k.Valid()
    ensures ok ==> Reaped(k, writeOff, Operation(cur, readOff - chunk, chunk), bytesRead)
    ensures ok ==> k.reading.None? && k.writing.None?
    ensures Obliging(k.plan) ==> ok && k.shortWrite == old(k.shortWrite)
    ensures ok ==> (old(k.shortRead) || (toReap == 1 && CutsShort(k.plan(old(k.waits)), chunk)) ==> k.shortRead)
  {
    ok, bytesRead := ReapAll(k, toReap);
  }

  method SubmitFilled(k: Kernel, filled: nat, bytesRead: nat, writeOff: nat, ghost start: nat, ghost chunk: nat)
    requires k.Valid() && filled < 2 && bytesRead > 0
    requires Reaped(k, writeOff, Operation(filled, start, chunk), bytesRead)
    modifies k`writing, k`copied, k`base, k`content
    ensures k.Valid() && k.writing == Some(Operation(filled, writeOff, bytesRead))
    ensures Accounted(k, writeOff + bytesRead, start + chunk)
  {
    k.SubmitWrite(filled, bytesRead, writeOff);
    assert k.content == k.src[start..start + bytesRead];
    assert k.src[..start] + k.content == k.src[..start + bytesRead];
  }

  /** The final drain: one completion is left, that of the last write. */
  method DrainWrite(k: Kernel, ghost writeOff: nat) returns (ok: bool)
    requires k.Valid() && k.reading.None? && k.writing.Some? && Accounted(k, writeOff, |k.src|)
    modifies k, k.buf0, k.buf1
    ensures k.Valid()
    ensures ok ==> k.reading.None? && k.writing.None?
    ensures ok ==> CopiedUnlessShort(k, writeOff)
    ensures Obliging(k.plan) ==> ok && k.shortWrite == old(k.shortWrite)
    ensures k.shortRead == old(k.shortRead)
  {
    var tag, res := k.Wait();
    ok := res >= 0;
  }

  /** Submits the read of the next chunk into buffer `cur`. */
  method SubmitNext(k: Kernel, cur: nat, off: nat, ghost writeOff: nat)
    returns (chunk: nat, readOff: nat, readDone: bool)
    requires k.Valid() && k.reading.None? && cur < 2 && off <= |k.src|
    requires k.writing.Some? ==> k.writing.value.buf != cur
    requires Accounted(k, writeOff, off)
    modifies k`reading
    ensures k.Valid() && Underway(k, cur, chunk, readOff, writeOff)
    ensures readOff == off + chunk <= |k.src| && chunk == Min(|k.src| - off, BUF_SIZE)
    ensures readDone == (readOff >= |k.src|)
  {
    chunk := Min(|k.src| - off, BUF_SIZE);
    k.SubmitRead(cur, chunk, off);
    readOff := off + chunk;
    readDone := readOff >= |k.src|;
  }

  /** Submits the write of what was read and, unless everything has been asked for, the next read. */
  method SubmitBoth(k: Kernel, filled: nat, bytesRead: nat, writeOff: nat, len: nat, off: nat, more: bool)
    returns (chunk: nat, readOff: nat)
    requires k.Valid() && filled < 2 && bytesRead > 0 && len <= off <= |k.src| && more == (off < |k.src|)
    requires Reaped(k, writeOff, Operation(filled, off - len, len), bytesRead)
    modifies k`reading, k`writing, k`copied, k`base, k`content
    ensures k.Valid() && k.writing.Some?
    ensures if more then Underway(k, 1 - filled, chunk, readOff, writeOff + bytesRead) && off < readOff <= |k.src|
            else k.reading.None? && readOff == off && Accounted(k, writeOff + bytesRead, |k.src|)
    ensures chunk <= readOff && (more ==> chunk > 0)
  {
    SubmitFilled(k, filled, bytesRead, writeOff, off - len, len);
    chunk, readOff := 0, off;
    if more {
      var readDone;
      chunk, readOff, readDone := SubmitNext(k, 1 - filled, off, writeOff + bytesRead);
    }
  }

  /** The pipelined loop. At every wait the read and the write in flight use different buffers; a run without error
      ends with nothing in flight; and if no write was short, the destination equals the source exactly when no read
      was short, because the next read starts where a full one would have ended. A kernel that fails nothing lets it
      finish, and one that cuts the first read short makes it end with a short read. */
  method PipelinedCopy(k: Kernel) returns (ok: bool, copied: nat)
    requires k.Valid() && k.reading.None? && k.writing.None? && k.dst == []
    requires !k.shortRead && !k.shortWrite
    modifies k, k.buf0, k.buf1
    ensures k.Valid()
    ensures ok ==> k.reading.None? && k.writing.None?
    ensures ok ==> CopiedUnlessShort(k, copied)
    ensures Obliging(k.plan) ==> ok && !k.shortWrite
    ensures ok && CutsShort(k.plan(old(k.waits)), Min(|k.src|, BUF_SIZE)) ==> k.shortRead
  {
    var writeOff := 0;
    var cur := 0;
    var chunk, readOff, readDone := SubmitNext(k, cur, 0, 0);
    hide Underway, Accounted, Reaped, CopiedUnlessShort, Kernel.Valid, Obliging, CutsShort;
    var hasPendingWrite := false;

    while true
      invariant k.Valid()
      invariant 0 <= cur < 2 && 0 <= writeOff && 0 <= chunk <= readOff <= |k.src|
      invariant chunk == 0 <==> |k.src| == 0
      invariant hasPendingWrite == k.writing.Some?
      invariant readDone == (readOff >= |k.src|)
      invariant Underway(k, cur, chunk, readOff, writeOff)
      invariant Obliging(k.plan) ==> !k.shortWrite
      invariant CutsShort(k.plan(old(k.waits)), Min(|k.src|, BUF_SIZE)) ==>
                  k.shortRead || (k.waits == old(k.waits) && !hasPendingWrite && chunk == Min(|k.src|, BUF_SIZE))
      decreases |k.src| - readOff, !readDone
    {
      ghost var start := readOff - chunk;
      var toReap := 1 + if hasPendingWrite then 1 else 0;
      var bytesRead;
      ok, bytesRead := ReapForWrite(k, toReap, cur, chunk, readOff, writeOff);
      if !ok {
        return false, writeOff;
      }
      if bytesRead == 0 {
        NothingRead(k, writeOff, Operation(cur, start, chunk));
        break;
      }
      var filled, more := cur, !readDone;
      cur := 1 - cur;
      chunk, readOff := SubmitBoth(k, filled, bytesRead, writeOff, chunk, readOff, more);
      readDone := readOff >= |k.src|;
      writeOff := writeOff + bytesRead;
      hasPendingWrite := true;
      if !more {
        ok := DrainWrite(k, writeOff);
        return ok, writeOff;
      }
    }
    return true, writeOff;
  }

  /** On any file, when both finish without error and no pipelined read and no write is short, the two loops leave
      the same destination, whatever the kernel chooses. */
  method CopyTwice(src: seq<Byte>, plan1: nat -> Choice, plan2: nat -> Choice)
    returns (ok: bool, short: bool, serial: seq<Byte>, pipelined: seq<Byte>)
    ensures ok && !short ==> serial == src && pipelined == src
  {
    var k1 := new Kernel(src, plan1);
    var ok1, n1 := SerialCopy(k1);
    var k2 := new Kernel(src, plan2);
    var ok2, n2 := PipelinedCopy(k2);
    return ok1 && ok2, k1.shortWrite || k2.shortWrite || k2.shortRead, k1.dst, k2.dst;
  }

  /** Every file of two bytes or more, and every count that is short for its first read, has a run of the pipelined
      loop in which nothing fails, no write is short, and the destination is not the source. With the same kernel the
      serial loop copies the file. */
  method ShortReadCorrupts(src: seq<Byte>, got: nat) returns (ok: bool, serial: seq<Byte>, pipelined: seq<Byte>)
    requires 1 <= got < Min(|src|, BUF_SIZE)
    ensures ok && serial == src && pipelined != src
  {
    var plan := (n: nat) => Choice(true, if n == 0 then got else BUF_SIZE, BUF_SIZE);
    assert CutsShort(plan(0), Min(|src|, BUF_SIZE));
    var k1 := new Kernel(src, plan);
    var ok1, n1 := SerialCopy(k1);
    var k2 := new Kernel(src, plan);
    var ok2, n2 := PipelinedCopy(k2);
    return ok1 && ok2, k1.dst, k2.dst;
  }
}
