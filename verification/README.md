# Verification of the migration proxies

The repository tunnels QEMU migration streams between hosts. This project models its three loops in
Dafny and proves what they deliver:

* the **queued TCP tunnel** of `migrate-proxy`: a reader task and a writer task per direction, joined by
  a bounded `CircularQueue`, two such hops in two processes, connection teardown, any number of
  connections;
* the **WebSocket tunnel** of `migrate-websocket`: forwarders without a queue, the table of active
  connections;
* the **benchmark loops** of `proxy-perf`: rate limiter and interval reports.

`dafny verify dfyconfig.toml` checks everything.

## How it is modelled

| file | models |
|---|---|
| `QueueSpec.dfy` | the queue's value with a ledger that numbers every accepted item; histories of calls |
| `AsyncQueue.dfy` | the queue under asyncio: atomic steps (`AtomicQueue`) and micro-steps with lock, wait, notify and scheduling (`AsyncQueue`) |
| `CircularQueue.dfy` | the queue as a mutable object whose methods refine the atomic steps |
| `ProgressLog.dfy` | the forwarders' progress lines |
| `Forwarder.dfy` | one `forward_data` call as a transition system; `Next` follows `read_task` and `write_task` (migrate-proxy/tcp-migration-client.py:119-178) |
| `ForwarderTask.dfy` | the same closure as an object with the source's loop, refining `Forwarder.Next` |
| `EventLoop.dfy` | the same call under asyncio's own schedule, fed from a stream buffer |
| `ConnectionHandler.dfy` | the handler of client and server (client lines 70-117, server lines 46-96): `up` is accepted -> opened socket, `down` the reverse |
| `Tunnel.dfy`, `TunnelRuns.dfy` | client process, TCP connection and server process together; runs that exist |
| `Proxy.dfy` | one process with its counter, histogram and all its connections |
| `Network.dfy` | both processes with any number of connection pairs |
| `WebSocketTunnel.dfy`, `Registry.dfy` | the WebSocket forwarders and the connection tables |
| `Retry.dfy`, `RateLimiter.dfy` | the retry loop; the senders' and receivers' loops |

The environment chooses read sizes (1..8192), end-of-file, errors, schedules, which `write` raises and
which `wait_closed` raises. Properties are stated over every run: every list of events that `CanRun`
admits.

There are two levels of scheduling. In `Forwarder` and everything built on it any task may run between
two iterations of another, which is more than asyncio does; results about eviction there are results
about arbitrary schedules. `EventLoop` narrows this to what asyncio does, and `Tunnel.ForwardsAllUnderFifo`
and `Network.EveryPairUnderFifo` carry its results to the whole service.

Assumptions about the libraries:

* an asyncio lock that is free is acquired without suspending; `Condition.wait` releases the lock before
  it suspends and re-acquires it afterwards; `notify` wakes one task that waits un-notified;
* a cancellation reaches a task only where it is suspended, and `gather` passes it on to both tasks and
  waits for them; a task cancelled before its first step runs nothing, not even its `finally` block;
* a link delivers the written bytes or messages in order, and end-of-file after the writer's `close` and
  all bytes written before it; a `send` that is interrupted has put its message on the link or has not;
* the clock does not go back and a sleep takes at least the requested time; times and rates are reals.

Assumptions of `EventLoop` only:

* the ready queue is first-in first-out, and the reader task is created before the writer task: a writer
  that is notified or not started yet runs before a reader that new data wakes up;
* `read` returns at once, with as much of the buffer as fits, unless the buffer is empty; the transport
  adds at most 256 KiB at a time, stops above twice the stream's `limit` and goes on at `limit`. The
  proxies leave `limit` at its default, 65536.

## Where the code meets its documentation, and where it falls short

`migrate-proxy/README.md:33-35` says that the proxies forward all data.

* Under asyncio's schedule the 1000-chunk queue loses nothing: `EventLoop.BurstBoundExact` shows that the
  stream buffers bound a burst, so that chunks can be lost exactly if `limit` is set to 3964929 or more, and
  `Tunnel.ForwardsAllUnderFifo` that for smaller limits everything arrives when both hops run to
  end-of-file. `TunnelRuns.CanDeliver` and `TunnelRuns.LosesIffUnsafe` give the runs.
* A direction that is cancelled can lose chunks that were already read, because the handler cancels it as
  soon as the other direction has ended (`ConnectionHandler.CancelledDirectionCanLoseData`, and
  `EventLoop.CancellationCanLose` under asyncio's schedule). It loses nothing if and only if its queue was
  empty when the cancellation was issued and no write raised: `EventLoop.DeliversIffUndisturbed`, and for
  arbitrary schedules, where in addition no read may find 1000 chunks queued, `Forwarder.DeliversIffClean`.
  `Tunnel.ForwardsAllDataIff` is the exact condition from end to end, for every way the two hops can end.
* The accepted socket's writer stays open at exit if and only if the `wait_closed` of the opened socket
  raised: `ConnectionHandler.Teardown`, with the run `ConnectionHandler.AcceptedCanStayOpen`.
* Of the two directions of a connection at most one is ever forwarded to end-of-file on both hops, because a
  process closes its sockets only after both its hops are over: `Tunnel.OnlyOneDirectionCompletes`.
* The WebSocket server closes a handler's Unix socket if and only if forwarding ended by itself; a cancelled
  handler leaves it open: `Registry.ServerClosesIffForwardingEnds`.
* The WebSocket client keeps the entry of a connection whose cleanup raised: `Registry.ClientRegistry`, with
  the run `Registry.EntryCanLeak`.
* The client runs its cleanup also for a connection that was never established. If its id is that of a live
  connection, the live one is closed and its entry deleted: `Registry.CollisionDeletesLiveEntry`. With fresh ids
  that never happens: `Registry.ClientClosesOwnSockets`. The tables
  are right if and only if every id is fresh when it is stored and when connecting under it fails:
  `Registry.ExactIffFreshIds`.

## Model

| member | source | states |
|---|---|---|
| QueueSpec.ContiguousBlock | migrate-proxy/tcp-migration-client.py:9-28 | after any history the queue is the newest accepted items without a gap, at most maxsize; delivered, lost and queued numbers partition the accepted ones; delivered numbers increase and carry the delivered values |
| QueueSpec.RunIsValid | migrate-proxy/tcp-migration-client.py:16-33 | accepted items are exactly the puts before the first close, for every history and every maxsize including 0 |
| QueueSpec.LossExact | migrate-proxy/tcp-migration-client.py:16-20 | item i is lost if and only if item i+maxsize was accepted while i had not been delivered |
| AtomicQueue.NoLostWakeup | migrate-proxy/tcp-migration-client.py:16-33 | for any number of getters: while a waiter is un-notified, the queue is open and no longer than the number of notified tasks still to resume; a sole waiter waits on an empty open queue |
| AtomicQueue.PutWakesOne | migrate-proxy/tcp-migration-client.py:16-20 | an accepted put wakes exactly one waiting task if there is one, a refused put none |
| AtomicQueue.OthersWake | migrate-proxy/tcp-migration-client.py:22-33 | a close wakes all waiting tasks; get, wait and a cancellation wake nobody and move only the task that makes them |
| AsyncQueue.StepRefines | migrate-proxy/tcp-migration-client.py:16-33 | each micro-step (acquire, act, wait, notify, release, resume, cancel) is invisible or exactly one atomic put, get, park, close or cancelled wait |
| AsyncQueue.Reduction | migrate-proxy/tcp-migration-client.py:16-33 | every fine-grained run has the same effects, order and results as a run of atomic operations |
| AsyncQueue.EveryCallActs | migrate-proxy/tcp-migration-client.py:16-33 | the calls that a task has entered are, in order, those that have ended in their own put, get, close or cancelled wait, and at most one that is still pending |
| AsyncQueue.NeverStuck | migrate-proxy/tcp-migration-client.py:16-33 | the lock never blocks progress: a running task can always take its next step, and so can a notified one when none runs |
| AsyncQueue.LockExcludes | migrate-proxy/tcp-migration-client.py:16-33 | while one task holds the lock no step of another gets it or touches the items |
| AsyncQueue.SuspensionPoints | migrate-proxy/tcp-migration-client.py:124-143 | at every suspension point, where a cancellation can land: the lock is free and nobody queues for it; all items that reads have returned so far have been put, in order; no waiter is forgotten |
| CircularQueues.CircularQueue.Put | migrate-proxy/tcp-migration-server.py:18-22 | the mutating method performs one atomic put, including eviction, refusal when closed, and notification |
| CircularQueues.CircularQueue.Get | migrate-proxy/tcp-migration-server.py:24-30 | one pass of get, fresh or resumed, performs one atomic get, end-of-queue or park |
| CircularQueues.CircularQueue.CloseQueue | migrate-proxy/tcp-migration-server.py:32-35 | close sets the flag and notifies all waiters, as one atomic step |
| Forwarder.RunsOnAtomicQueue | migrate-proxy/tcp-migration-client.py:119-171 | every run of the reader and writer task, cancellation included, is a run of the condition-guarded queue, with the same states; so a parked writer waits on an open empty queue |
| Forwarder.PutNeverRefuses | migrate-proxy/tcp-migration-client.py:124-143 | in every run, also with cancellation and failing writes, every chunk read entered the queue, and the queue is open while the reader reads |
| Forwarder.HopConserves | migrate-proxy/tcp-migration-client.py:124-163 | in every run bytes read equal bytes written, evicted, queued and in the failing write |
| Forwarder.ChunkLossExact | migrate-proxy/tcp-migration-client.py:119-163 | under arbitrary schedules, chunk i is lost if and only if at some point chunk i+1000 had been read while chunk i had not been taken |
| Forwarder.PrefixWithoutLoss | migrate-proxy/tcp-migration-client.py:145-163 | without eviction the written chunks are a prefix of the chunks read, and all of them once the writer has drained |
| Forwarder.LosesIffOverflows | migrate-proxy/tcp-migration-client.py:122-136 | under arbitrary schedules, a run evicts if and only if some read finds 1000 chunks queued |
| Forwarder.DeliversIffClean | migrate-proxy/tcp-migration-client.py:119-178 | a finished forwarder, however it ended, has written all it read if and only if no chunk was read while 1000 were queued, no write raised and no cancellation was issued over queued chunks |
| Forwarder.WritesAreReads | migrate-proxy/tcp-migration-client.py:124-163 | whatever is lost, raised or cancelled, the chunks written are chunks that were read, at strictly increasing positions |
| EventLoop.NothingEvicted | migrate-proxy/tcp-migration-client.py:119-171 | under asyncio's schedule with a safe limit: written is always a prefix of read, nothing is evicted unless a write raised, the queue is empty whenever the reader is woken, an undisturbed forwarder ends with everything written |
| EventLoop.ReadsWhatWasFed | migrate-proxy/tcp-migration-client.py:124-136 | in every run of asyncio the chunks read, followed by what is buffered, are the bytes received, in order; a reader at end-of-file has read all of them |
| EventLoop.EveryRunCanFinish | migrate-proxy/tcp-migration-client.py:119-171 | every run of asyncio in which nothing failed or was cancelled can go on, without new data, to end-of-file, with everything read, and written if the limit is safe |
| EventLoop.BurstBoundExact | migrate-proxy/tcp-migration-client.py:119-171 | under asyncio's schedule data can be lost exactly for stream limits from 3964929 on, and then also in a run to end-of-file |
| EventLoop.DeliversIffUndisturbed | migrate-proxy/tcp-migration-client.py:94-171 | with a safe limit a finished forwarder has written all it read if and only if no write raised and no cancellation was issued over queued chunks |
| EventLoop.CancellationCanLose | migrate-proxy/tcp-migration-client.py:100-106 | a run of asyncio in which a cancelled forwarder drops a chunk although nothing was evicted |
| Forwarder.Terminates | migrate-proxy/tcp-migration-client.py:142-171 | once the reader has ended or the forwarder is cancelled, runs have at most queue length + 4 steps, keep every chunk in order, and stop only when forward_data has returned |
| Forwarder.DrainsExactly | migrate-proxy/tcp-migration-client.py:145-151 | after the reader's end, a writer that stops on None has written exactly the remaining chunks in order |
| Forwarder.TurnIsRun | migrate-proxy/tcp-migration-client.py:147-157 | one turn of the writer task is a run of single steps with at most queue length + 1 calls of get |
| Forwarder.TurnDrains | migrate-proxy/tcp-migration-client.py:147-157 | a turn without a failing write empties the queue into the sink in queue length + 1 calls, then parks or stops |
| ProgressLog.LogIncreases | migrate-proxy/tcp-migration-client.py:157-158 | logged megabyte numbers are positive, strictly increasing, and at most total / 2^20 many |
| ProgressLog.LogExact | migrate-proxy/tcp-migration-client.py:155-158 | k is logged if and only if some write completed exactly k megabytes |
| ProgressLog.LogCompleteForFullChunks | migrate-proxy/tcp-migration-client.py:155-158 | with 8192-byte chunks the log is 1, 2, ... one line per whole megabyte |
| Forwarder.LogFollowsWrites | migrate-proxy/tcp-migration-client.py:127-158 | in every run total_bytes is the bytes written and the log fits it, since no empty chunk is queued |
| ForwarderTask.ForwardAll | migrate-proxy/tcp-migration-server.py:118-177 | a whole call on a new object, from the start of both tasks to the return: for every list of chunks all of them come out, in order, and each is counted once under its size |
| ForwarderTask.ForwardData.CancelReader | migrate-proxy/tcp-migration-server.py:136-142 | a cancelled reader closes the queue and wakes the writer, unless it never started |
| ForwarderTask.ForwardData.CancelWriter | migrate-proxy/tcp-migration-server.py:159-160 | a cancelled writer leaves the condition's waiters and writes nothing more |
| ForwarderTask.ForwardData.ReadChunk | migrate-proxy/tcp-migration-server.py:126-135 | the reader's iteration updates queue, writer wakeup and histogram as the transition system says |
| ForwarderTask.ForwardData.ReadEnds | migrate-proxy/tcp-migration-server.py:127-142 | end-of-file or an error closes the queue and wakes the writer |
| ForwarderTask.ForwardData.WriteIteration | migrate-proxy/tcp-migration-server.py:148-157 | one loop iteration is exactly one step of the transition system |
| ForwarderTask.ForwardData.WriteTurn | migrate-proxy/tcp-migration-server.py:144-162 | the writer's loop computes the specified turn, with that number of get calls, for any failing write |
| ConnectionHandler.Teardown | migrate-proxy/tcp-migration-client.py:86-117 | both forwarders are over before any writer is closed; at exit the opened writer is closed, the accepted one if and only if the first wait_closed did not raise; at most one direction is cancelled, after the other is over |
| ConnectionHandler.FailedOpenCloses | migrate-proxy/tcp-migration-client.py:76-117 | a connection is forwarded exactly if its second socket opened; after a failed open nothing was forwarded, exactly the accepted writer is closed, and only the end of that close is left |
| ConnectionHandler.NeverStuck | migrate-proxy/tcp-migration-client.py:79-117 | in every reachable state before the exit some step is possible |
| ConnectionHandler.DeliveredIffClean | migrate-proxy/tcp-migration-client.py:86-116 | before a close both forwarders are over, and one that is over has written all it read if and only if its own steps, the handler's cancellation included, were clean |
| ConnectionHandler.AcceptedCanStayOpen | migrate-proxy/tcp-migration-client.py:110-116 | a run whose first wait_closed raises and that exits with the accepted socket's writer open |
| ConnectionHandler.CancelledDirectionCanLoseData | migrate-proxy/tcp-migration-client.py:94-106 | a run in which a read chunk of the cancelled direction is never written although no queue was full |
| ConnectionHandler.NothingAfterClose | migrate-proxy/tcp-migration-server.py:89-96 | once the opened writer is closed no run reads or writes anything more |
| ConnectionHandler.TeardownTerminates | migrate-proxy/tcp-migration-server.py:77-96 | from the first end of a forwarder, or from a failed open, runs are bounded and stop only at the handler's exit |
| Tunnel.PathDelivers | migrate-proxy/README.md:33-35 | bytes out plus bytes missing equal bytes in; without eviction the output is a prefix; it is complete exactly when nothing is missing |
| Tunnel.EndToEnd | migrate-proxy/tcp-migration-server.py:118-177 | the same for both directions in every reachable state of the two processes, for every interleaving and re-chunking |
| Tunnel.ForwardsAllDataIff | migrate-proxy/README.md:33-35 | for every run in which both hops of a direction are over, however they ended: output equals input if and only if both read all there was and both were clean |
| Tunnel.EofForwardsAllIff | migrate-proxy/README.md:33-35 | when both ran to end-of-file, output equals input if and only if no read on the path found 1000 chunks queued |
| Tunnel.ForwardsAllUnderFifo | migrate-proxy/README.md:33-35 | under asyncio's schedule with a safe limit, as the default is, the output is always a prefix of the input, and all of it when both hops ran to end-of-file |
| Tunnel.OnlyOneDirectionCompletes | migrate-proxy/tcp-migration-client.py:94-116 | no run takes both directions of a connection to end-of-file on both hops |
| Tunnel.InputIsWritten | migrate-proxy/README.md:33-35 | the input of a direction is what its QEMU process wrote, in order, and closed exactly if it closed |
| TunnelRuns.CanDeliver | migrate-proxy/README.md:33-35 | for any data and either direction there is a run of asyncio that ends at end-of-file on both hops with exactly that input and output |
| TunnelRuns.LosesIffUnsafe | migrate-proxy/tcp-migration-client.py:119-171 | in either direction, a run of asyncio to end-of-file on both hops with output different from input exists exactly for stream limits from 3964929 on |
| Tunnel.OutputIndependentOfSchedule | migrate-proxy/tcp-migration-client.py:119-178 | two such complete runs with the same input give the same output |
| Proxy.HistogramConserves | migrate-proxy/tcp-migration-server.py:126-154 | at every step the sum of k * frequency is the bytes written, evicted, queued and in failed writes over all connections; keys lie in 1..8192; frequencies count the non-empty reads |
| Proxy.Isolation | migrate-proxy/tcp-migration-client.py:70-98 | ids are exactly 1..n; each connection's state is what its own events alone lead to; each direction has written only chunks that it read itself, in order |
| Network.EveryPairForwardsOnlyItsOwn | migrate-proxy/tcp-migration-client.py:70-98 | in every run of both processes with any number of pairs: what is written at one end of a pair are chunks, in order, of what that pair's own other end wrote |
| Network.EveryPairForwardsAllIff | migrate-proxy/README.md:33-35 | for every pair and direction: prefix without eviction on its own path, and all data exactly under the pair's own end-to-end condition |
| Network.EveryPairUnderFifo | migrate-proxy/README.md:33-35 | under asyncio's schedule with a safe limit every pair forwards all its data |
| Network.TwoPairsCanDeliver | migrate-proxy/tcp-migration-client.py:70-98 | for any data and directions some run delivers all of it on two pairs that the two processes number differently |
| Network.BothHistogramsConserve | migrate-proxy/tcp-migration-server.py:126-154 | in every such run both processes' histograms account for all bytes they have read |
| Proxy.MigrationProxy.HandleNewConnection | migrate-proxy/tcp-migration-client.py:70-77 | gives the next number, which no earlier connection has, and changes nothing else |
| Proxy.MigrationProxy.Advance | migrate-proxy/tcp-migration-server.py:126-135 | a step of one connection leaves all others and the counter unchanged; a read raises the frequency of exactly its own size by one |
| WebSocketTunnel.PrefixAlways | migrate-websocket/websocket-migration-client.py:142-156 | with no backlog condition the far end has written a prefix of the source, text messages change nothing, at most one chunk is in hand |
| WebSocketTunnel.CompleteIff | migrate-websocket/websocket-migration-server.py:135-176 | at any moment the stream is complete if and only if the source was read to its end, no chunk is in the sender's hand, the sender was not stopped with one, and no binary message is left on the link; always so when neither forwarder was stopped early |
| WebSocketTunnel.CountsUnderCancellation | migrate-websocket/websocket-migration-server.py:137-176 | at any moment the sender has counted exactly its completed sends, all messages on the link but for one whose send is going on or was stopped; the receiver everything it wrote but for one message, exactly if its drain is going on or was stopped |
| WebSocketTunnel.EveryRunCanFinish | migrate-websocket/websocket-migration-server.py:135-176 | every run in which no forwarder was stopped can go on until both end, and then exactly the bytes the source wrote have come out and both totals are their number, with any text messages between |
| WebSocketTunnel.InputsAreKept | migrate-websocket/websocket-migration-server.py:137-176 | the stream is what the source wrote, and the link carries the chunks and the texts, each in order |
| WebSocketTunnel.ForwardUnixToWs | migrate-websocket/websocket-migration-client.py:142-163 | the loop's sends, total and log for any interruption |
| WebSocketTunnel.ForwardWsToUnix | migrate-websocket/websocket-migration-client.py:165-183 | the loop writes the binary messages in order, skips text, and counts all but an interrupted last one |
| Registry.ExactIffFreshIds | migrate-websocket/websocket-migration-client.py:75-140 | every handler and every cleanup finds its own entry, and there is no other entry, in every state of a run if and only if ids are fresh when stored and when connecting failed |
| Registry.ServerRegistry | migrate-websocket/websocket-migration-server.py:58-109 | the keys are exactly the ids of handlers between registration and their final block |
| Registry.ClientRegistry | migrate-websocket/websocket-migration-client.py:75-140 | the same on the client, with handlers that never connected, if and only if no cleanup raised |
| Registry.ClientClosesOwnSockets | migrate-websocket/websocket-migration-client.py:120-140 | with fresh ids no client cleanup closes a connection that is opening or forwarding; a handler that left normally has closed both its sockets exactly if it had stored them |
| Registry.ServerClosesIffForwardingEnds | migrate-websocket/websocket-migration-server.py:82-109 | a server handler closes its Unix socket exactly if its forwarding ended by itself |
| Registry.EveryHandlerCanLeave | migrate-websocket/websocket-migration-client.py:92-140 | from every exact state a handler can reach its normal end by its own steps, its entry removed, its sockets closed, all else unchanged |
| Registry.FailedIffRaised | migrate-websocket/websocket-migration-client.py:125-140 | a handler ends by an exception exactly in runs where a close in a cleanup raised or the key to delete was gone |
| Registry.EntryCanLeak | migrate-websocket/websocket-migration-client.py:125-140 | a run with fresh ids that leaves an entry behind for ever |
| Registry.CollisionDeletesLiveEntry | migrate-websocket/websocket-migration-client.py:120-140 | a run in which a handler that never connected deletes a live connection's entry |
| Registry.ConnectionTable.Store | migrate-websocket/websocket-migration-server.py:58-63 | the id then maps to this handler, also if it mapped to another one, and all other ids are as before |
| Registry.ConnectionTable.Remove | migrate-websocket/websocket-migration-server.py:105-108 | the id is gone and all other entries stay; the client's unguarded deletion raises exactly when the key is missing |
| Retry.ConnectToUnixSocket | migrate-proxy/tcp-migration-server.py:98-116 | connected exactly if some attempt before max_retries opens and all earlier ones found no file, were refused or lost the file; the same for any other error passed through; gives up exactly if all max_retries attempts fail so; one sleep per such failure |
| RateLimiter.RateBound | proxy-perf/tcp/send.py:191-199 | after every iteration the bytes sent are at most the target rate times the elapsed time |
| RateLimiter.TotalBound | proxy-perf/tcp/send.py:92-111 | the total is below the target rate times the duration plus one chunk |
| RateLimiter.ReportsTelescope | proxy-perf/tcp/send.py:201-216 | interval counts add up to the bytes at the last report, reports are at least one second apart, and no more than the seconds passed |
| RateLimiter.ReportsWhenDue | proxy-perf/tcp/send.py:113-128 | an iteration that reaches the report block reports exactly if a second has passed since the previous report or the start, with its time and the bytes since then |
| RateLimiter.SleepsIffTarget | proxy-perf/tcp/send.py:183-199 | the sender sleeps exactly for a positive target |
| RateLimiter.BenchmarkSend | proxy-perf/tcp/send.py:177-216 | full-chunk loop: stops exactly at the duration or an error, one sleep per chunk for a positive target, exact counts, exactly the due reports, both rate bounds |
| RateLimiter.BenchmarkSendUnix | proxy-perf/tcp/send.py:77-132 | Unix-mode loop with short reads, timeouts and socket errors: the same |
| RateLimiter.HandleClient | proxy-perf/tcp/receive.py:131-168 | receive loop: stops exactly at an empty read or an error, exact counts, exactly the due reports |

The loop of `proxy-perf/websocket/send.py:51-90` has the same steps as `RateLimiter.BenchmarkSend`, and
`create_unix_connection` (migrate-websocket/websocket-migration-server.py:111-133) those of
`Retry.ConnectToUnixSocket`.

## Left out

- TLS contexts, certificates, QMP scripts, BPF programs, `reuse-addr`, `reuse-port`, echo servers: foreign calls or one-branch members.
- Cancellation of a connection handler from outside, and of a task inside `Condition.wait` other than the writer task: the code gives no clean guarantee there.
- The WebSocket client's shutdown loop over its table, which overlaps with the handlers' own cleanup.
- Uuid generation: ids are inputs, and freshness is a stated condition.
- Lost connections: bytes written to a socket whose peer is gone count as written and are never read.
- AsyncQueue.SuspensionPoints: a notified getter that is cancelled while other getters wait is not a step; versions of asyncio differ in passing the notification on, and the code has one getter per queue.
- The order of a forwarder's turns relative to other forwarders and handlers of the same process: `EventLoop` leaves it free.
- The WebSocket handlers' task cancellation, which has the form proved for `ConnectionHandler`; each WebSocket forwarder can be stopped at any point instead.
- Real buffering in `drain` and `send`, fragmentation of WebSocket messages, and empty-message log lines.
- The final averages and percentages that are only printed, and floating-point rounding.
