# Verified models of the low-level I/O examples

This project models four components of the repository in Dafny and proves what they are for.

- **Echo servers and clients on io_uring.** Event loops take completions one at a time and submit the next operation.
  The kernel is a nondeterministic environment: it may complete outstanding operations in any order, with any result
  that the assumptions below allow. `MultishotEcho` and `ProvidedBuffers` are the servers with a pool of
  kernel-selected buffers, `MultishotBytes` and `PooledEcho` add the bytes to them; `EchoServer` is the server with one
  buffer per client, and `QueueOverflow` how many clients its submission queue serves; `CoroutineEcho` is its coroutine
  form and `EchoEquivalence` relates the two; `TimeoutCoroutine` is the client coroutine with an idle timeout on every
  recv, and `LinkedTimeout` the server that runs it; `EchoBench` is the benchmark client; `EchoCodec` is the packing of
  operation and descriptor into a word.
- **A lock-free handover between two threads** (`MultithreadEcho`): a ring buffer with one producer and one consumer and
  an eventfd, as a machine whose steps are single loads, stores and system calls of either thread.
- **Copying a file with reads and writes in flight at once** (`FileCopy`): the serial and the double-buffered loop, on a
  kernel that may touch the buffers of in-flight operations at any moment.
- **Bringing up a virtio queue from user space**: the capability list (`VirtioCaps`), the ring layout (`VringLayout`),
  the notification and configuration windows (`NotifyWindow`, `CommonWindow`), the registers behind selectors
  (`CommonConfig`), what has to precede the use of memory (`DeviceSetup`), and the whole bring-up with its guards and
  its teardown at every point where it may throw (`BringUp`). `NumberParsing` holds the number parsers of the DPDK
  examples.

`Bits` turns the masks of the sources into division and remainder, `Counting` counts finite sets, `Words` and `Wrappers`
hold shared types.

Check it with `dafny verify dfyconfig.toml`.

## How it is built

Each program is a class (`MultishotEcho.Server`, which `ProvidedBuffers.ReapOnce` also works on,
`MultishotEcho.BufferRing`, `EchoServer.Server`, `EchoBench.Bench`, `FileCopy.Kernel`, `MultithreadEcho.FdQueue`,
`LinkedTimeout.EventLoop`, `CommonConfig.Registers`, the guards of `BringUp`) or methods with the loops of the source.
Where the properties speak of all runs, each method is proved equal to a step function on values, and the run theorems
are lemmas about sequences of such steps and of steps of the kernel; `PooledEcho`, `MultishotBytes` and `QueueOverflow`
hold only such lemmas, and so does `MultithreadEcho` where both threads take part. Where a single run is the subject
(`FileCopy`, `BringUp`), the environment is nondeterminism inside the methods, and the theorems are the methods'
postconditions. In `FileCopy` the kernel's choices of completions and results are a parameter, so that a theorem can
also speak of one run. A C++ exception is a `false` result or an error value.

No proof relies on automatic induction (`--manual-lemma-induction`): every induction is written out.

Assumptions about the environment, stated in the predicates `KernelMay`, `KernelMayOnce`, `Allowed`, `Legal` and
`Possible`, or in the contracts of `FileCopy.Kernel`:

- a one-shot operation yields one completion, a multi-shot operation several that announce more and then one that does
  not; a result that is not positive announces no more and carries no buffer;
- a buffer is taken from the front of the pool; `send` and `recv` move at most what was asked;
- `accept` returns a descriptor that is not open (not needed for the multi-shot server);
- `new` returns an address that is not in use;
- handles returned by `std::noop_coroutine()` are equal to each other and to no handle of a client, which the C++
  standard does not promise; the loop of `14_timeout.cpp` tells its two kinds of request apart by comparing them, the
  model by the constructors of `LinkedTimeout.UserData`;
- loads and stores of the two indices of the lock-free ring interleave, with acquire and release ordering what lies
  between them.

`MultishotEcho.BufferOfFailedRecvIsLost` shows that the second half of the first assumption is needed.

## Properties that do not hold

- Packing keeps the descriptor always, the operation only for non-negative descriptors (`EchoCodec.RoundTrip`).
- A failing send that completes late, on a descriptor that has been accepted again, makes the multi-shot server close
  the connection of another client (`MultishotEcho.LateSendClosesAnother`). It closes cleanly if and only if, when it
  closes, the descriptor is connected, no other event carries it, and no more completions of its recv are announced
  (`MultishotEcho.CleanCloseCondition`). The single-shot server always does (`ProvidedBuffers.ClosesOnlyConnected`).
- The submission queue of the batched server suffices for every run with at most `n` clients if and only if `n` is at
  most 4094 (`QueueOverflow.ClientLimit`). For each greater `n` that descriptors can number, a run leads to a batch that
  exhausts it (`QueueOverflow.OverflowReached`).
- A benchmark client that is done has closed its socket, except after a connect that failed (`EchoBench.Finished`, which
  `EchoBench.Bench.Run` ensures for every client).
- The pipelined copy equals the source if and only if no read was short (`FileCopy.PipelinedCopy`); the serial copy does
  not have this condition (`FileCopy.SerialCopy`). Every file of two bytes or more has a run in which the first read is
  short, nothing fails, and only the serial copy is right (`FileCopy.ShortReadCorrupts`).
- Round robin over the workers stays even for ever if and only if their number divides the range of the counter
  (`MultithreadEcho.RoundRobinEven`).
- The used ring is aligned if and only if the alignment is at least 4 or the queue has one entry
  (`VringLayout.RingAlignment`); the command line enforces the former, the layout function does not.
- A virtio capability with 32-bit fields that is padded to 24 bytes or more is read as one with 64-bit fields: a
  notification capability at offset 0x3000 with multiplier 4 is understood to be at 0x4_0000_3000
  (`VirtioCaps.PaddedNotifyExample`). A list is read as it was meant if and only if each of its virtio capabilities has
  64-bit fields, or is shorter than 24 bytes, or has zeros in its bytes 16 to 23 (`VirtioCaps.RoundTrip`).
- A notification that passes the range checks is inside the BAR if and only if the end of its address does not wrap
  (`NotifyWindow.ChecksMeanInBounds`); with 32-bit capabilities it never does (`NotifyWindow.ShortCapChecksExact`), with
  a padded capability walked in configuration space it can (`NotifyWindow.WrappedEndIsAccepted`).
- A COMMON_CFG structure that passes the checks has all its queue address registers if and only if they end inside the
  BAR (`CommonWindow.AcceptedRegisters`).
- A device whose structure ends before the notification data register passes the checks but is never brought up
  (`BringUp.RunNotifyWrite`).

## Model

| member | source | states |
|---|---|---|
| `EchoCodec.PackRoundTrip` | io_uring/08_echo_bench.cpp:32-37 | Any top byte below 255 packed with a 32-bit number: the number is always recovered; the byte is if and only if the number is not negative |
| `EchoCodec.RoundTrip` | io_uring/echo_common.hpp:21-32 | The same for the three operations of the echo servers |
| `EchoCodec.Injective` | io_uring/echo_common.hpp:30-32 | On non-negative descriptors, equal words mean the same operation and descriptor |
| `MultishotEcho.PostInv` | io_uring/11_multishot.cpp:155-169 | Whatever completion the kernel may post next, ownership of events and of buffers stays exclusive and complete |
| `MultishotEcho.HandleInv` | io_uring/11_multishot.cpp:171-258 | So it does through the handling of any completion, in every branch |
| `MultishotEcho.BufferConservation` | io_uring/11_multishot.cpp:106-139 | In every reachable state each of the 4096 ids, and nothing else, is in exactly one place: the pool, an unprocessed completion, or one live send |
| `MultishotEcho.EventOwnership` | io_uring/11_multishot.cpp:162-254 | Waiting completions refer to live events; an event is live exactly while its operation is armed or its last completion waits; every event ever allocated is live or was freed, once |
| `MultishotEcho.SlicesDisjoint` | io_uring/11_multishot.cpp:134-139 | What two live sends still transmit never overlaps, lies inside the pool's memory, and touches no buffer the kernel may fill |
| `MultishotEcho.BufferOfFailedRecvIsLost` | io_uring/11_multishot.cpp:204-211 | If the kernel attached a buffer to a failed recv, its id would be nowhere afterwards |
| `MultishotEcho.ListenerAlwaysServed` | io_uring/11_multishot.cpp:173-195 | From the start, in every run, there is exactly one accept event, and it is on the listener |
| `MultishotEcho.NoClientForgotten` | io_uring/11_multishot.cpp:124-132 | In every reachable state each connected descriptor has a live recv, or a live send that will re-arm one, however completions announce or end multi-shot operations |
| `MultishotEcho.CleanCloseCondition` | io_uring/11_multishot.cpp:197-254 | A step closes no descriptor, or a connected one that no event carries afterwards, if and only if a step that closes handles the only event on a connected descriptor, with nothing more announced for a recv |
| `MultishotEcho.LateSendClosesAnother` | io_uring/11_multishot.cpp:233-242 | A run from the start in which a late failing send closes a descriptor for the second time, while the recv of the client that now has it stays armed |
| `MultishotEcho.BufferRing.constructor` | io_uring/11_multishot.cpp:106-112 | Initially every id is available once |
| `MultishotEcho.BufferRing.Recycle` | io_uring/11_multishot.cpp:116-122 | With room in the ring, appends the id and overwrites nothing the kernel has yet to consume |
| `MultishotEcho.Server.Ready` | io_uring/11_multishot.cpp:233-248 | When a send ends there is room in the ring to recycle its buffer, and its event is live |
| `MultishotEcho.Server.ReapOne` | io_uring/11_multishot.cpp:159-259 | The imperative dispatch updates pool, heap, clients and submissions exactly as the step whose invariants are proved |
| `MultishotEcho.Server.Drain` | io_uring/11_multishot.cpp:155-260 | A batch is that many steps, or as many as completions wait if those are fewer, and keeps the invariant |
| `MultishotEcho.Server.Post` | io_uring/11_multishot.cpp:155-169 | Posting a completion takes its buffer from the front of the ring, and is the step of the machine |
| `MultishotEcho.Server.Serve` | io_uring/11_multishot.cpp:155-260 | Whatever the kernel posts in each round, what the event loop does is a run of the machine whose invariants are proved |
| `MultishotBytes.CompleteKeepsInv` | io_uring/11_multishot.cpp:155-169 | Whatever the kernel delivers or transmits, each receive's account stays right: its data is in its buffer, and what was sent out of it went back to where it came from |
| `MultishotBytes.HandleKeepsInv` | io_uring/11_multishot.cpp:197-254 | The handling of any completion hands each receive on without losing or adding a byte, and recycles a buffer only when all of it was sent or a send failed |
| `MultishotBytes.EveryReceiveIsEchoed` | io_uring/11_multishot.cpp:197-254 | In every run, for every receive that brought data: what has been sent out of its buffer is a prefix of its data, all to the descriptor it came from; and it waits, or exactly one event sends it, or all of it was sent, or a send of it failed |
| `MultishotBytes.ReceiveIsAnswered` | io_uring/11_multishot.cpp:220-228 | In every run, a receive is handled by allocating exactly one event, armed, that sends all its bytes from the start to its descriptor, and re-arms exactly if the recv announced no more |
| `MultishotBytes.SendIsAnswered` | io_uring/11_multishot.cpp:233-252 | A send goes on where it stopped; its end recycles the buffer and allocates a recv exactly if it is to re-arm and the client is connected; its failure recycles the buffer and closes |
| `MultishotBytes.EmptyRecvIsAnswered` | io_uring/11_multishot.cpp:201-219 | A recv without a buffer is queued again when the pool ran out, and otherwise closes its descriptor |
| `MultishotBytes.AcceptIsAnswered` | io_uring/11_multishot.cpp:173-195 | Each accepted descriptor is connected and gets a recv, and the accept is queued again exactly when it announced no more |
| `ProvidedBuffers.SingleIsMultiWithoutMore` | io_uring/10_provided_buffers.cpp:173-255 | The single-shot handlers are the multi-shot ones on completions that never announce more |
| `ProvidedBuffers.HandleKeepsOneOp` | io_uring/10_provided_buffers.cpp:173-255 | Handling any completion keeps one event per connected descriptor, none for others, and the buffers in one place each |
| `ProvidedBuffers.OneOperationPerClient` | io_uring/10_provided_buffers.cpp:158-257 | In every reachable state a descriptor is connected if and only if one recv or send event carries it, never two; one accept event exists |
| `ProvidedBuffers.ClosesOnlyConnected` | io_uring/10_provided_buffers.cpp:198-239 | A descriptor is closed only while connected, and no surviving event refers to it |
| `ProvidedBuffers.ReapOnce` | io_uring/10_provided_buffers.cpp:158-257 | The imperative dispatch of the single-shot server is its step, and keeps one operation per client |
| `PooledEcho.CompleteKeepsInv` | io_uring/10_provided_buffers.cpp:161-171 | A completion that fills or empties a buffer leaves what every other connection owes unchanged |
| `PooledEcho.HandleKeepsInv` | io_uring/10_provided_buffers.cpp:173-255 | The next operation of a connection owes exactly what the completion left, through recv, partial sends, re-arming and exhaustion of the pool |
| `PooledEcho.EchoSafety` | io_uring/10_provided_buffers.cpp:193-251 | On every connection of every run, open or closed, bytes sent are a prefix of bytes received; while it is open the rest is what its one operation still holds in its buffer |
| `EchoServer.TakeDispatches` | io_uring/07_echo_server.cpp:43-48 | Decoding the word and dispatching on it is handling the request that was submitted |
| `EchoServer.EachIsAnswered` | io_uring/07_echo_common.hpp:26-112 | Each completion of any reachable state is answered: an accept with a recv and the next accept, data with the send of exactly those bytes, a send with the rest of its bytes or a recv, anything else with a close |
| `EchoServer.TakeKeepsInv` | io_uring/07_echo_common.hpp:26-112 | Handling any completion keeps one operation per client, the accept, the words they carry and the streams in step |
| `EchoServer.CompleteKeepsInv` | io_uring/07_echo_common.hpp:39-42 | So does any completion the kernel may produce |
| `EchoServer.OneOperationPerClient` | io_uring/07_echo_common.hpp:26-112 | In every reachable state the connected descriptors and the listener have exactly one operation each, no other has one, connected means open, and the words decode to their descriptor |
| `EchoServer.EchoSafety` | io_uring/07_echo_common.hpp:55-107 | On every connection of every run, open or closed, bytes sent are a prefix of bytes received; while it is open the rest is exactly the unsent tail of the client's buffer |
| `EchoServer.BatchCostBound` | io_uring/07_echo_server.cpp:35-51 | A batch queues at most one entry per completion, and one more if it has an accept |
| `EchoServer.QueueBound` | io_uring/07_echo_server.cpp:21-51 | With at most 4094 clients at its start no batch exhausts the 4096 entries; with more, any batch of everything outstanding in which everything succeeded does |
| `QueueOverflow.OverflowReached` | io_uring/07_echo_server.cpp:21-51 | For each number of clients above 4094, a run from the start that connects them and a batch that exhausts the entries |
| `QueueOverflow.ClientLimit` | io_uring/07_echo_server.cpp:21-51 | No batch of any run with at most n clients exhausts the entries if and only if n is at most 4094 |
| `EchoServer.Server.OnAccept` | io_uring/07_echo_common.hpp:33-53 | Queues recv and accept and adds the client; fails exactly when the entries do not suffice |
| `EchoServer.Server.OnRecv` | io_uring/07_echo_common.hpp:55-75 | Closes, or queues the send of what was received |
| `EchoServer.Server.OnSend` | io_uring/07_echo_common.hpp:77-107 | Closes, or queues the rest of the send or the next recv |
| `EchoServer.Server.Round` | io_uring/07_echo_server.cpp:35-51 | A round succeeds exactly when its cost fits the submission queue, always with at most 4094 clients; it is then the run that takes the completions of the batch, each once and in order, and none of them is left |
| `CoroutineEcho.SendAll` | io_uring/12_coroutine_echo.cpp:159-174 | The inner loop does what the suspended machine does on the same results, for any partial sends |
| `CoroutineEcho.ClientHandler` | io_uring/12_coroutine_echo.cpp:139-179 | The coroutine, as nested loops, submits and closes what the machine of its suspension points does, on any sequence of results |
| `EchoEquivalence.CompleteKeepsRelated` | io_uring/12_coroutine_echo.cpp:92-132 | A completion keeps each client's table entry equal to the locals of its coroutine |
| `EchoEquivalence.TakeKeepsRelated` | io_uring/12_coroutine_echo.cpp:221-237 | Resuming the coroutine matches the branch of the dispatcher |
| `EchoEquivalence.Lockstep` | io_uring/12_coroutine_echo.cpp:139-199 | Every run of the callback server is a run of the coroutine server |
| `EchoEquivalence.LockstepBack` | io_uring/12_coroutine_echo.cpp:139-199 | And conversely |
| `EchoEquivalence.SameBehaviour` | io_uring/12_coroutine_echo.cpp:139-237 | For every sequence of completions one server can take it if and only if the other can, and then both have submitted the same requests with the same bytes and closed the same descriptors in the same order |
| `TimeoutCoroutine.ResumesAlike` | io_uring/14_timeout.cpp:144-190 | A resumption with any result leaves the coroutine where the one without timeouts is, with the same effects but for the timeouts |
| `TimeoutCoroutine.TracesAlike` | io_uring/14_timeout.cpp:144-190 | So do all resumptions: without the timeouts the effects on any results are the same |
| `TimeoutCoroutine.SendLoop` | io_uring/14_timeout.cpp:171-187 | The inner loop, left when a send makes no progress, does what the machine of suspension points does |
| `TimeoutCoroutine.ClientHandler` | io_uring/14_timeout.cpp:144-190 | The coroutine with its own loops and breaks does what the machine of suspension points does, on any results |
| `TimeoutCoroutine.HandlerAlike` | io_uring/14_timeout.cpp:144-190 | Without the timeouts these effects are those of the coroutine that has none, on any results; and a timeout follows each recv and nothing else |
| `LinkedTimeout.ResumeRefines` | io_uring/14_timeout.cpp:144-208 | Performing the effects of the resumed coroutine is the step of the server without timeouts, plus a request for the timeout of the recv it submits, if any |
| `LinkedTimeout.StepKeepsInv` | io_uring/14_timeout.cpp:229-248 | Every step of coroutines, kernel and event loop keeps the accounting of timeout requests and coroutines |
| `LinkedTimeout.TimeoutAccounting` | io_uring/14_timeout.cpp:100-134 | In every reachable state, whatever the order of the two completions of a recv, live heap requests equal outstanding timeouts, and each recv's request is live or was deleted, exactly once in all |
| `LinkedTimeout.ResumesSuspendedOnce` | io_uring/14_timeout.cpp:229-248 | Coroutines alive and outstanding operations correspond one to one, and every completion resumes a coroutine still suspended at that kind of operation on that descriptor |
| `LinkedTimeout.TimeoutsAreInvisible` | io_uring/14_timeout.cpp:144-208 | Without the timeouts' completions its runs, in which its own coroutine is resumed, are exactly those of the coroutine server without timeouts |
| `LinkedTimeout.IdleClientIsClosed` | io_uring/14_timeout.cpp:153-166 | In every run, taking the completion of a recv closes its descriptor and ends its coroutine exactly when it brings no data, as a recv cancelled by its timeout does; then nothing is submitted |
| `LinkedTimeout.EventLoop.Dispatch` | io_uring/14_timeout.cpp:236-247 | Deletes the request of a timeout, or resumes the coroutine, which arms a timeout for each recv it submits |
| `LinkedTimeout.EventLoop.Drain` | io_uring/14_timeout.cpp:229-248 | The loop performs a run of `ready` steps, or of fewer if then no completion waits, and keeps the invariant |
| `EchoBench.HandleProgresses` | io_uring/08_echo_bench.cpp:125-213 | A completion leaves a client with one operation and strictly less work, its buffers in step with the bytes on the wire and nothing failed so far, or finishes it: passed if and only if the bytes received are its message once for each round, and otherwise because an operation failed or a round came back wrong |
| `EchoBench.StepProgresses` | io_uring/08_echo_bench.cpp:113-214 | So the whole client set stays consistent and its total work decreases |
| `EchoBench.InitialWork` | io_uring/08_echo_bench.cpp:80-105 | The work at the start is at most clients * (1 + 2 * longest message * max(rounds, 1)) |
| `EchoBench.Bench.constructor` | io_uring/08_echo_bench.cpp:80-105 | One connect per client is queued, none is done |
| `EchoBench.Bench.Submit` | io_uring/08_echo_bench.cpp:110-111 | While a client is not done, something is in flight, so the wait returns |
| `EchoBench.Bench.ReapOne` | io_uring/08_echo_bench.cpp:113-214 | Done clients plus operations stay equal to all clients, and the work decreases |
| `EchoBench.Bench.Run` | io_uring/08_echo_bench.cpp:107-215 | Ends within that many completions, with nothing outstanding; a client is ok if and only if the bytes it received are its message once for each round, and then it has sent the same; it is not ok if and only if one of its operations failed or a complete round came back wrong; it never sends anything else, and its socket is closed unless its connect failed |
| `MultithreadEcho.FifoRefinement` | io_uring/19_multithread_echo.cpp:148-172 | Under every interleaving popped values are a prefix of pushed ones, at most 4095 lie between, and they are served in order |
| `MultithreadEcho.NoRace` | io_uring/19_multithread_echo.cpp:154-170 | The slot about to be written is never one the consumer may read |
| `MultithreadEcho.FailuresJustified` | io_uring/19_multithread_echo.cpp:157-167 | A push fails exactly when the ring is full, a pop exactly when it is empty, at the load that decides |
| `MultithreadEcho.NoLostWakeup` | io_uring/19_multithread_echo.cpp:180-230 | While descriptors wait, the eventfd is readable, or the acceptor is about to write it, or the worker will look before it waits; it waits with exactly one poll in flight |
| `MultithreadEcho.QuietStepsDoWork` | io_uring/19_multithread_echo.cpp:206-221 | Every step other than a new connection or a failed poll decreases a measure |
| `MultithreadEcho.EverythingIsServed` | io_uring/19_multithread_echo.cpp:206-218 | From every reachable state a run of such steps has bounded length, and when none is possible every pushed descriptor has been served |
| `MultithreadEcho.EvenShare` | io_uring/19_multithread_echo.cpp:303-311 | Until the counter wraps, or if the workers divide its range, worker shares are the quotient or one more |
| `MultithreadEcho.RoundRobinEven` | io_uring/19_multithread_echo.cpp:287-311 | Shares stay within one of each other for ever if and only if the number of workers divides the range of the counter |
| `MultithreadEcho.FdQueue.Push` | io_uring/19_multithread_echo.cpp:154-162 | Appends exactly when fewer than 4095 are stored, and otherwise changes nothing |
| `MultithreadEcho.FdQueue.Pop` | io_uring/19_multithread_echo.cpp:164-171 | Takes the oldest, unless empty |
| `MultithreadEcho.FdQueue.Drain` | io_uring/19_multithread_echo.cpp:212-217 | Takes everything, in order |
| `FileCopy.Kernel.Progress` | io_uring/05_pipeline_copy.cpp:91-114 | Whatever the kernel does while it waits, buffers that no read targets are unchanged and the write's bytes stay those submitted |
| `FileCopy.Kernel.Wait` | io_uring/05_pipeline_copy.cpp:99-114 | Any completion in any order: a read leaves the file's bytes in its buffer, a full write at the end has appended its bytes |
| `FileCopy.SerialCopy` | io_uring/03_file_copy.cpp:41-70 | Without errors and short writes the destination is the source, however short the reads; with a kernel that fails nothing and writes in full it gets there |
| `FileCopy.ReapAll` | io_uring/05_pipeline_copy.cpp:96-114 | Reaps read and previous write in either order with the same outcome |
| `FileCopy.PipelinedCopy` | io_uring/05_pipeline_copy.cpp:62-156 | For any file and choices of the kernel: read and write never share a buffer, a run without error ends with nothing in flight, and without short writes the destination is the source if and only if no read was short; a kernel that fails nothing and writes in full lets it finish |
| `FileCopy.CopyTwice` | io_uring/05_pipeline_copy.cpp:62-156 | Whatever the kernel chooses, with full reads and writes the two loops leave the same destination |
| `FileCopy.ShortReadCorrupts` | io_uring/05_pipeline_copy.cpp:121-141 | For every file and every count that is short for its first read, a run of the pipelined loop in which nothing fails and no write is short, whose destination is not the source; with the same kernel the serial loop copies the file |
| `VirtioCaps.PointerMask` | userspace_drivers/19_virtio_vfio_notify_write.cpp:878 | The mask rounds a pointer down to a multiple of four |
| `VirtioCaps.ReadVirtioCaps` | userspace_drivers/19_virtio_vfio_notify_write.cpp:867-923 | On any configuration space the loop computes the recursive first-visit walk without a hop limit; at most 48 elements are visited |
| `VirtioCaps.ElementErrors` | userspace_drivers/19_virtio_vfio_notify_write.cpp:884-918 | Reading an element fails exactly when its length byte is missing or a NOTIFY_CFG capability that fits is shorter than its multiplier; every other read is in bounds |
| `VirtioCaps.Le32RoundTrip` | userspace_drivers/19_virtio_vfio_notify_write.cpp:848-856 | Four little-endian bytes read back as the word |
| `VirtioCaps.HalvesSum` | userspace_drivers/19_virtio_vfio_notify_write.cpp:858-865 | Two 32-bit halves read from anywhere make the lower one plus 2^32 times the upper one |
| `VirtioCaps.ParsedAsMeant` | userspace_drivers/19_virtio_vfio_notify_write.cpp:899-918 | What is read from a well-formed capability is what was meant if and only if it has 64-bit fields, is shorter than 24 bytes, or has zeros where the upper halves would be |
| `VirtioCaps.ReadsBack` | userspace_drivers/19_virtio_vfio_notify_write.cpp:884-918 | A capability laid out in any of the three forms, with any padding, reads back field by field, with bytes 16 to 23 as upper halves once it has them |
| `VirtioCaps.RoundTrip` | userspace_drivers/19_virtio_vfio_notify_write.cpp:867-923 | Laying out any list of aligned, disjoint capabilities, vendor ones too short included, with any low bits in the pointers and an end that is null, outside the region or back in the list, and walking it returns the virtio ones as parsed, in list order; they are those meant if and only if each is unambiguous |
| `VirtioCaps.NoListAnnounced` | userspace_drivers/19_virtio_vfio_notify_write.cpp:867-873 | Without the bit in the status register there are no capabilities |
| `VirtioCaps.PaddedNotifyIsMisread` | userspace_drivers/19_virtio_vfio_notify_write.cpp:903-916 | Any 20-byte notification capability padded to 24 is walked with its multiplier as the upper half of its offset |
| `VirtioCaps.PaddedNotifyExample` | userspace_drivers/19_virtio_vfio_notify_write.cpp:903-916 | A legal input on which the property fails: offset 0x3000 with multiplier 4 is read as 0x4_0000_3000 |
| `VirtioCaps.FindCap` | userspace_drivers/19_virtio_vfio_notify_write.cpp:925-939 | The first capability of the type, or an error exactly when there is none |
| `VringLayout.AlignUpIsLeastMultiple` | userspace_drivers/19_virtio_vfio_notify_write.cpp:331-341 | The mask form is the least multiple not below the value; it fails exactly for alignments that are no powers of two and when no multiple fits a word |
| `VringLayout.LayoutSucceeds` | userspace_drivers/19_virtio_vfio_notify_write.cpp:1229-1249 | The layout exists exactly for power-of-two queues and alignments, and no sum wraps |
| `VringLayout.RingsFit` | userspace_drivers/19_virtio_vfio_notify_write.cpp:1229-1249 | The three rings have the sizes of section 2.7 of VIRTIO 1.2, are disjoint, and lie inside the total size and the page-rounded mapping |
| `VringLayout.RingAlignment` | userspace_drivers/19_virtio_vfio_notify_write.cpp:1229-1249 | From a page-aligned base, descriptors and available ring are always aligned to 16 and 2; the used ring to 4 if and only if the alignment is at least 4 or the queue has one entry |
| `VringLayout.UnalignedUsedRing` | userspace_drivers/19_virtio_vfio_notify_write.cpp:1513-1516 | A queue of two without the command line's check on the alignment is misplaced |
| `VringLayout.AddressesInsideMapping` | userspace_drivers/19_virtio_vfio_notify_write.cpp:1314-1327 | With the mapping inside the address space the ring addresses do not wrap, keep their order and stay inside it |
| `VringLayout.ChosenSizeHasLayout` | userspace_drivers/19_virtio_vfio_notify_write.cpp:1267-1280 | The size asked for, or else the device's, is chosen exactly when it is a power of two within the device's limit, and then its layout exists and has that size |
| `NotifyWindow.ContainsIsInclusion` | userspace_drivers/19_virtio_vfio_notify_write.cpp:224-232 | Containment computed with subtractions is inclusion of intervals of integers |
| `NotifyWindow.FindArea` | userspace_drivers/19_virtio_vfio_notify_write.cpp:1029-1036 | Finds a sparse area exactly when one includes the range |
| `NotifyWindow.AcceptedIsTrueOffset` | userspace_drivers/19_virtio_vfio_notify_write.cpp:1020-1028 | An address that passes the check is the sum without wrap-around |
| `NotifyWindow.ChecksMeanInBounds` | userspace_drivers/19_virtio_vfio_notify_write.cpp:1020-1028 | An accepted notification is inside the BAR and NOTIFY_CFG if and only if its end does not wrap |
| `NotifyWindow.ShortCapChecksExact` | userspace_drivers/19_virtio_vfio_notify_write.cpp:1020-1028 | With 32-bit offset and length nothing wraps, and exactly the notifications in bounds are accepted |
| `NotifyWindow.WrappedEndIsAccepted` | userspace_drivers/19_virtio_vfio_notify_write.cpp:1020-1028 | A configuration space whose walk yields a capability with which a notification outside the BAR is accepted |
| `NotifyWindow.MapNotifyWindow` | userspace_drivers/19_virtio_vfio_notify_write.cpp:1006-1051 | Acceptance is exactly: usable region, both range checks passed, inside one sparse area if there are any; for 32-bit capabilities the checks are being in bounds; the mapping is page-aligned and holds the two bytes |
| `CommonWindow.MapCommonCfg` | userspace_drivers/19_virtio_vfio_notify_write.cpp:948-1004 | When the structure is accepted, how much of it is inspected, and the page-aligned mapping that holds it |
| `CommonWindow.AcceptedRegisters` | userspace_drivers/19_virtio_vfio_notify_write.cpp:959-975 | Of an accepted structure the queue addresses can be accessed if and only if they end inside the BAR; what can be accessed is inside BAR and structure |
| `CommonConfig.GuestFeaturesAreOffered` | userspace_drivers/19_virtio_vfio_notify_write.cpp:1162-1177 | Negotiation succeeds exactly if VERSION_1 is offered; the accepted bits are a subset of the offered ones, with VERSION_1, and ACCESS_PLATFORM exactly if offered |
| `CommonConfig.ReadFeatureWords` | userspace_drivers/19_virtio_vfio_notify_write.cpp:1143-1160 | Returns the device's words and restores the selector; succeeds if the registers are mapped |
| `CommonConfig.WriteGuestFeatureWords` | userspace_drivers/19_virtio_vfio_notify_write.cpp:1179-1194 | Afterwards the device holds the words, the selector is restored and nothing else has changed |
| `CommonConfig.WriteAddress` | userspace_drivers/19_virtio_vfio_notify_write.cpp:1095-1102 | Two halves make the address in the selected queue; its other fields and all other queues are unchanged |
| `CommonConfig.ReadAddress` | userspace_drivers/19_virtio_vfio_notify_write.cpp:1086-1093 | Reads the address the device holds |
| `CommonConfig.ReadQueueView` | userspace_drivers/19_virtio_vfio_notify_write.cpp:1104-1126 | Reads the selected queue without changing anything; succeeds only if the notification data register is mapped |
| `CommonConfig.ProgramQueueAddresses` | userspace_drivers/19_virtio_vfio_notify_write.cpp:1314-1327 | Size and ring addresses of the selected queue read back as computed from the layout; no other queue is touched |
| `DeviceSetup.PermittedIsSetUpFirst` | userspace_drivers/19_virtio_vfio_notify_write.cpp:1196-1227 | A run whose events a finite summary permits has, before each address or enable write and each notification, a complete handshake: reset read back, ACKNOWLEDGE, DRIVER, features, FEATURES_OK read back as set, in this order and with nothing else in between; and before the first such write it has read that the queue exists and is not enabled |
| `DeviceSetup.PhaseMeans` | userspace_drivers/19_virtio_vfio_notify_write.cpp:1196-1227 | Each phase of the summary stands for the part of the handshake that has happened |
| `BringUp.FineIsOrderly` | userspace_drivers/19_virtio_vfio_notify_write.cpp:468-585 | Events that are each allowed by a finite summary of the past satisfy the ordering rules stated over the whole run |
| `BringUp.UnmappedInTime` | userspace_drivers/19_virtio_vfio_notify_write.cpp:1466-1471 | If the summary says so, every unmapping is preceded by a reset that was read back, with nothing exposed since |
| `BringUp.ResetDevice` | userspace_drivers/19_virtio_vfio_notify_write.cpp:1053-1084 | On success the device has been reset and has answered |
| `BringUp.NegotiateMinimalFeatures` | userspace_drivers/19_virtio_vfio_notify_write.cpp:1196-1227 | On success the device holds a subset of the features it offers, with VERSION_1, and has read back FEATURES_OK; if it has, the run goes on; on every path, a throwing read of the status included, memory and selector are untouched; with accessible registers and VERSION_1 offered it fails only for a timeout or refused features |
| `BringUp.RefusalShown` | userspace_drivers/19_virtio_vfio_notify_write.cpp:1338-1476 | A run that was refused shows the event: features not accepted, no such queue, queue enabled already or not read back as enabled, no usable size, no place for the notification, or a refusal by the rest of the machine |
| `BringUp.SelectionGuard.Select` | userspace_drivers/19_virtio_vfio_notify_write.cpp:479-482 | Selects the queue; from then on the selector can be restored |
| `BringUp.SelectionGuard.Restore` | userspace_drivers/19_virtio_vfio_notify_write.cpp:484-490 | Cannot fail, and leaves the last value written the original one |
| `BringUp.ResetGuard.Destroy` | userspace_drivers/19_virtio_vfio_notify_write.cpp:507-532 | If armed, ends the device's access to memory; its write cannot be swallowed once the status has been accessible |
| `BringUp.DmaMapping.Unmap` | userspace_drivers/19_virtio_vfio_notify_write.cpp:558-570 | Unmaps at most once, and only while the device has no access |
| `BringUp.SendNotification` | userspace_drivers/19_virtio_vfio_notify_write.cpp:1444-1463 | On success one notification is recorded, with its value, the place in the device's file that capability and offset determine, and the device at that moment; otherwise none |
| `BringUp.ProgramAndNotify` | userspace_drivers/19_virtio_vfio_notify_write.cpp:1406-1475 | Wherever it throws, the guards not released still cover device access and mapping; on success both are gone, in order. On every path at most one notification is sent, of this queue, to its place, and at that moment the device had the queue enabled with the layout's addresses |
| `BringUp.WithSelection` | userspace_drivers/19_virtio_vfio_notify_write.cpp:1366-1405 | Wherever the part from the selection on throws, the device ends without access and the buffer without mapping |
| `BringUp.RunNotifyWrite` | userspace_drivers/19_virtio_vfio_notify_write.cpp:1338-1476 | For an exception at any step: reset after the last address or enable write and before any unmap or release, addresses only while mapped and only after the complete handshake and the checks of the queue, never DRIVER_OK, registers unmapped last, selector restored; at most one notification, of the queue asked for, at its place, sent while the device had it enabled with the layout of the size asked for, or else of the size it had given, and had accepted only offered features. On normal return it was sent, and the reset was read back before the unmap. With accessible registers, VERSION_1 offered and an aligned address it returns normally exactly if nothing was refused; with an unaligned address nothing is done |
| `NumberParsing.GuardIsExact` | dpdk/04_ethdev_configure.cpp:114-118 | The division in the guard detects overflow exactly |
| `NumberParsing.ParseUnsigned` | dpdk/dpdk_static_compat.cpp:45-99 | For every string and base: the minimum of the number and 2^64 - 1, the error number exactly when it is greater, the end of the longest run of digits, the sign |
| `NumberParsing.ReadsParts` | dpdk/dpdk_static_compat.cpp:45-99 | A text of white space, a sign, a prefix, digits and a rest is read as the number the digits denote in the base that the prefix and the argument give, with the sign, up to the rest |
| `NumberParsing.EveryTextHasParts` | dpdk/dpdk_static_compat.cpp:45-99 | Every text has such parts, for every base |
| `NumberParsing.ReadsBack` | dpdk/dpdk_static_compat.cpp:45-99 | Every number, after any white space and sign, in decimal, octal after a zero, hexadecimal after either prefix, or the digits of any base up to 36, with small or capital letters, is read back to the end by readers called with base 0 or the base itself |
| `NumberParsing.Strtol` | dpdk/dpdk_static_compat.cpp:101-119 | The signed number clamped to the range of a long, the error number set exactly when it is outside |
| `NumberParsing.ParseU64` | dpdk/04_ethdev_configure.cpp:83-121 | Accepts exactly the well-formed decimal or hexadecimal strings whose number fits 64 bits, with that number; a string with faults gives the one at the first offending position |
| `NumberParsing.FirstFaultUnique` | dpdk/04_ethdev_configure.cpp:105-121 | There is at most one first fault, at one position and of one kind |
| `NumberParsing.ParseU16` | dpdk/04_ethdev_configure.cpp:123-128 | The same for 16 bits |
| `NumberParsing.ParseU32` | dpdk/04_ethdev_configure.cpp:130-135 | The same for 32 bits |
| `NumberParsing.RoundTrip` | dpdk/04_ethdev_configure.cpp:83-121 | Every 64-bit number, written in decimal or with either hexadecimal prefix, with small or capital letters, is read back |
| `NumberParsing.SignedRoundTrip` | dpdk/dpdk_static_compat.cpp:101-119 | Every number, written in decimal with its sign, is read back to the end of the string |

## Left out

- Sockets, files, `mmap`, `ioctl`, `sysfs`, opening VFIO groups, clocks and printing: environment; outcomes are nondeterministic or parameters.
- A full submission queue in `io_uring/10_provided_buffers.cpp`, `11_multishot.cpp`, `12_coroutine_echo.cpp`, `14_timeout.cpp` and `08_echo_bench.cpp`: `get_sqe` throws and the process ends; only `07_echo_server.cpp` is modelled with it.
- The 16-bit tail of the provided-buffer ring: modelled unbounded, which makes no difference because 4096 divides its range.
- MultishotBytes.EveryReceiveIsEchoed: promises nothing about the order of the echo, because several sends may be in flight on one descriptor and the program does not order them; on values, as is PooledEcho.
- MultithreadEcho.FifoRefinement: says nothing of descriptors whose `push` fails; the program ignores that result and the descriptor is lost (`dropped` in the model).
- The reads and sends of the coroutines inside a worker of `io_uring/19_multithread_echo.cpp`: the same coroutine as in `12_coroutine_echo.cpp`.
- Memory ordering below interleavings of single loads and stores.
- PooledEcho.HandleKeepsInv: on values; the imperative dispatch is `ProvidedBuffers.ReapOnce`, which holds no bytes.
- QueueOverflow.OverflowReached: on values; the imperative round that fails on such a batch is `EchoServer.Server.Round`.
- FileCopy.SerialCopy: promises nothing about the destination after a short write, because the program does not look at the count written.
- FileCopy.PipelinedCopy: promises nothing about the destination after a short write, for the same reason.
- FileCopy.Kernel.Wait: a read that fails leaves its buffer arbitrary, and a failed write may have copied any of its bytes; the loops stop then.
- BringUp.RunNotifyWrite: the capability walk, the choice of BAR regions and the mapping of COMMON_CFG come before it and are in `VirtioCaps` and `CommonWindow`; the register mapping is a parameter here.
- BringUp.RunNotifyWrite: on a path that throws, the reset is written but not read back before the unmap, as in the source.
- A device that answers reads of queue registers with other values than were written, apart from `queue_enable`.
- `VIRTIO_PCI_COMMON_Q_NDATA` undefined at compile time: the model has the notification data register.
- I/O errors of `pread` on the configuration region, and the options of the command line apart from the number parsers.
- Termination of `walk_caps` in `userspace_drivers/02_config_space.cpp` and of `parse_region_caps`: not provided on cyclic input.
- `__isoc23_strtoul`, `__isoc23_strtoull` and a bare `0x` prefix: they differ from the C library on negated overflow and on the prefix, so no conformance is stated; NumberParsing.ParseUnsigned follows the code on the prefix.
- The HTTP, epoll, splice and Boost.Asio variants, `15_graceful_shutdown.cpp`, `06_fixed_buffers.cpp` and the other virtio examples: repeats of the modelled loops, or thin calls into libraries.
