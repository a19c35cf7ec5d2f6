# p-ripple-event core: socket overflow buffer, worker supervisor, process reaper

This Dafny project models three stateful components of the PHP event library
p-ripple-event and proves properties of them. Each component is a class whose
fields are updated in place, as in the PHP code. The operating system, the
event loop and the promises become inputs and ghost logs.

- **SocketStream** (`socket_stream.dfy`, module `SocketStreams`). A write
  goes straight to a non-blocking socket. When the socket takes only a
  prefix, the stream switches to blocking mode and spills the unsent suffix
  into a temporary file: a write handle plus a separate read cursor. Later
  writes append to that file. A writable-readiness callback drains it in
  chunks of at most `SO_SNDLOWAT` bytes. At end of file it removes the file
  and returns to direct mode. The module also covers `receive`,
  `readContinuously`, and the `host:port` split of the peer address
  (`explode` and `intval`).
  - The socket is the ghost sequence `accepted` of the bytes it took.
  - `written` is the concatenation of every payload `write` took from callers.
  - `InOrder()` states the FIFO property: `accepted + Unread() == written`.
- **Process** (`process.dfy`, module `Processes`). The parent side of `task`
  registers each fork result in two pid-keyed tables. The SIGCHLD handler
  drains `pcntl_wait` results. It settles each tracked pid's promise once and
  removes the pid from both tables. SIGTERM, SIGINT and SIGQUIT send the same
  signal to every tracked child and then exit.
  - Settlements and sent signals are ghost logs.
  - A promise is named by a serial number.
- **WorkerContext** (`worker_context.dfy`, module `Workers`).
  - On the manager side, `run` calls `guard` for slots 1..count.
  - `guard` records a stream and a runtime under the slot.
  - `onExit` tears the slot down and schedules a restart with capped
    exponential backoff: at most 10 attempts, delay `min(0.1·2^(n-1), 30)` s.
    The model counts the delay in deciseconds.
  - `terminate` is an idempotent latch.
  - On the worker side, commands go through a `switch`. The reload and
    terminate names call hooks. The sync name resolves a pending reply in
    `queue`. Any other name calls `onCommand`.
  - Manager calls, closed streams, scheduled restarts and hook calls are
    ghost logs.
- `common.dfy` (module `Common`) holds `byte`, `Option`, `Result` and one
  sequence lemma.

The two models are linked by the exit code: lemmas take the reaper's outcome
for a wait result through the worker's `finally` mapping into the restart
decision.

Where the intended design and the code differ, the model follows the code:

- The restart counter of a slot is never reset.
- The restart timer calls `guard` without checking `terminated` again.
- `terminate` sends one terminate command addressed to the worker's name.
- A reaped pid without an entry ends the whole reap call (`return`). It is
  not skipped.
- A wait result of -1 is truthy, so it enters the loop body.
- A fork result of -1 is registered like any pid.
- In blocking mode, `write` has no path that resolves the caller's promise.
- The drain ends on the read handle's end-of-file flag, not on the bytes left
  unread. See "## Findings".

## Model

| member | source | states |
|---|---|---|
| SocketStreams.Explode | src/Core/Socket/SocketStream.php:121 | `explode(':', s)` always yields at least one field |
| SocketStreams.JoinExplode | src/Core/Socket/SocketStream.php:121 | joining the fields of `explode` with ':' gives back the address; no field contains ':' |
| SocketStreams.ExplodeJoin | src/Core/Socket/SocketStream.php:121 | exploding colon-free fields joined by ':' gives back those fields (round trip) |
| SocketStreams.IntValDecimal | src/Core/Socket/SocketStream.php:123 | `intval` reads back the decimal spelling of any natural number |
| SocketStreams.EndpointHost | src/Core/Socket/SocketStream.php:120-124 | for a truthy address the host is the prefix before the first ':' (the whole address if there is none) and holds no ':' |
| SocketStreams.EndpointRoundTrip | src/Core/Socket/SocketStream.php:120-124 | `host:port` with a colon-free host splits back into exactly that host and port |
| SocketStreams.EndpointWithoutPort | src/Core/Socket/SocketStream.php:120-124 | an address without ':' is all host, and the port falls back to 0 |
| SocketStreams.ReadContinuously | src/Core/Socket/SocketStream.php:333-345 | stops at the first read that is falsy ('' or '0') or throws, and makes no read after it; when that read was falsy it returns the concatenation of all earlier reads, and when it threw the content is lost (no result) |
| SocketStreams.NextChunk | src/Core/Socket/SocketStream.php:255 | a drain read takes the next contiguous unread bytes of the file, at most `lowat` of them, fewer only at end of file |
| SocketStreams.LatchedEofDropsAppend | src/Core/Socket/SocketStream.php:247-255 | a short drain read sets the end-of-file flag; a byte appended next is left unread when the following firing removes the file, while the corrected step sends it; with a low-water mark of 1 the empty read after the last byte sets the flag with the same result |
| SocketStreams.FixedDrainStepKeepsOrder | src/Core/Socket/SocketStream.php:247-261 | the corrected drain step removes the file only with nothing unread, and each chunk it sends is followed by exactly the remaining unread bytes, whatever was appended before |
| SocketStreams.DrainStepAgrees | src/Core/Socket/SocketStream.php:247-255 | while nothing was appended after the flag was set, the code's drain step equals the corrected one, and the next state keeps that condition |
| SocketStreams.DrainChunksDeliverUnread | src/Core/Socket/SocketStream.php:246-262 | successive ticks of the corrected drain (`FixedDrainStep`; the code's ticks take the same steps while nothing is appended after the end-of-file flag is set, by `DrainStepAgrees`) deliver exactly the unread bytes in FIFO order, in chunks of at most `lowat` bytes, all non-empty but the last, and then remove the file |
| SocketStreams.SocketStream.constructor | src/Core/Socket/SocketStream.php:100-125 | fresh stream: direct mode, no overflow file, no callbacks; the address is the given peer name when truthy, else the socket's own peer name (`PeerAddress`), and host and port are split from it as `Endpoint` gives them |
| SocketStreams.SocketStream.Write | src/Core/Socket/SocketStream.php:185-229 | while a file exists a write only appends to it, and waits (`Queued`) unless a failed drain has rejected the pending write, in which case it is CONNECTION_WRITE_FAIL; in blocking mode it creates the file and appends; a full socket write returns the length; a partial one spills exactly the unsent suffix into a new file and raises `blocking`; a failed socket write is CONNECTION_WRITE_FAIL; `InOrder` is preserved in every case |
| SocketStreams.SocketStream.AppendOverflow | src/Core/Socket/SocketStream.php:202-205 | appending to the file adds the payload after the unread bytes and preserves `InOrder` |
| SocketStreams.SocketStream.PrepareBlockingMode | src/Core/Socket/SocketStream.php:234-264 | creates an empty file and registers both callbacks only when no file exists; an existing file is never recreated or reset |
| SocketStreams.SocketStream.CleanupTempFiles | src/Core/Socket/SocketStream.php:281-290 | both handles become null |
| SocketStreams.SocketStream.DrainTick | src/Core/Socket/SocketStream.php:246-262 | takes the code's drain step: when the end-of-file flag is set it leaves blocking mode, removes the file and cancels both callbacks, and the bytes lost are exactly those still unread, so `InOrder` survives exactly when nothing was appended after the flag was set; otherwise it sends the next chunk of at most `lowat` bytes, a short read sets the flag, and a failed write cancels the callback and rejects the pending write; `InOrder` is kept when the socket takes the whole chunk |
| SocketStreams.SocketStream.OnClose | src/Core/Socket/SocketStream.php:242-244 | closing while buffered removes the file and leaves `blocking` and the drain callback unchanged |
| Processes.ExitOutcome | src/Store/System/Process/Process.php:149-160 | a normally exited child resolves with its exit status; any other child is rejected with code -1 |
| Processes.ReapedPrefix | src/Store/System/Process/Process.php:145-164 | one reap call settles a prefix of the wait results, each a tracked non-zero pid with its own promise and outcome, and stops only at pid 0 or at an untracked pid |
| Processes.ReapedTables | src/Store/System/Process/Process.php:162-163 | a reap call removes exactly the settled pids from both tables; other entries are untouched |
| Processes.ReapedDistinct | src/Store/System/Process/Process.php:150-163 | no pid is settled twice in one reap call |
| Processes.ReapedSettlesTrackedPrefix | src/Store/System/Process/Process.php:143-165 | the three facts above together |
| Processes.ReapedKeepsTablesAligned | src/Store/System/Process/Process.php:162-163 | reaping keeps the two tables on the same key set |
| Processes.SettleKeepsConsistent | src/Store/System/Process/Process.php:156-163 | settling a tracked pid and dropping it keeps the tables consistent and every promise settled at most once |
| Processes.SignalHandlersWiring | src/Store/System/Process/Process.php:69-86 | SIGCHLD reaps; SIGTERM, SIGINT and SIGQUIT each forward themselves; no other signal is handled |
| Processes.Process.constructor | src/Store/System/Process/Process.php:69-86 | empty tables and the four handlers registered |
| Processes.Process.Task | src/Store/System/Process/Process.php:122-136 | the fork result, whatever its value, is registered in both tables with a fresh promise, and the returned runtime wraps it |
| Processes.Process.SignalSIGCHLDHandler | src/Store/System/Process/Process.php:143-165 | the tables and the settlement log end as `Reaped` of the wait results gives them, and the tables stay consistent |
| Processes.Process.Destroy | src/Store/System/Process/Process.php:181-186 | sends the signal exactly once to each pid in the runtime table and to nothing else |
| Processes.Process.OnQuitSignal | src/Store/System/Process/Process.php:171-175 | forwards the signal to every tracked child, then exits; the tables are unchanged |
| Processes.Process.OnSignal | src/Store/System/Process/Process.php:71-85 | a delivered signal runs the handler registered for it: SIGCHLD reaps as `Reaped` says and sends no signal; a quit signal sends itself once to each tracked child, keeps the earlier signal log, leaves the tables and settlements unchanged, and exits |
| Workers.RestartDelay | src/Worker/WorkerContext.php:247 | the delay for any attempt is between 0.1 s and 30 s |
| Workers.RestartDelayMonotone | src/Worker/WorkerContext.php:247 | the delay never decreases with the attempt number |
| Workers.RestartDelayDoubles | src/Worker/WorkerContext.php:247 | each attempt doubles the previous delay until the 30 s cap |
| Workers.RestartDelaySchedule | src/Worker/WorkerContext.php:247 | attempts 1..10 wait 0.1, 0.2, 0.4, ..., 25.6 and 30 s |
| Workers.RestartPolicy | src/Worker/WorkerContext.php:233-251 | status 128 or a terminated context changes no counter and restarts nothing; otherwise only this slot's counter goes up by one, and a restart is scheduled after `RestartDelay` of the new count exactly when the count stays within 10 |
| Workers.CrashLoopSchedule | src/Worker/WorkerContext.php:239-251 | successive crashes of one slot get the delays for attempts a+1, a+2, ... up to the tenth and no restart after that, because the counter is never reset |
| Workers.TenRestartsThenGiveUp | src/Worker/WorkerContext.php:240-245 | a fresh slot that keeps crashing is restarted at exactly its first ten exits |
| Workers.TerminatedNeverRestarts | src/Worker/WorkerContext.php:239 | once terminated, no exit schedules a restart |
| Workers.ReapedExitCode | src/Worker/WorkerContext.php:201-208 | the exit code `onExit` sees for a reaped child is its exit status if it exited normally, -1 otherwise; it is 128 only for a normal exit with status 128 |
| Workers.BootFailureIsNotRestarted | src/Worker/WorkerContext.php:233-236 | a worker that exits with 128 after a failed boot is never restarted and no counter changes |
| Workers.CommandRouting | src/Worker/WorkerContext.php:167-188 | reload and terminate call their hooks, unreserved names call `onCommand`; only a sync with a pending id changes the queue, removing that entry and resolving it with `sync`; a sync with an unknown id does nothing |
| Workers.DispatchedResolvesOnce | src/Worker/WorkerContext.php:163-190 | over any run of commands the queue only loses entries; each resolution uses its id's own resolver and removes the id; no id is resolved twice; every removed id was resolved |
| Workers.FirstFailure | src/Worker/WorkerContext.php:277-283 | the number of slots filled before the first failing `guard`: all earlier setups succeeded and the next one failed |
| Workers.SlotsFilled | src/Worker/WorkerContext.php:277-283 | filling slots 1..k records in each slot the stream and pid of its own setup, and no other slot |
| Workers.Forwards | src/Worker/WorkerContext.php:147-155 | each command from a worker is passed to the manager, in order, with the worker's name and slot |
| Workers.WorkerContext.constructor | src/Worker/WorkerContext.php:48-96 | empty maps, not terminated, not running, parent side, not booted |
| Workers.WorkerContext.GetName | src/Worker/WorkerContext.php:295-301 | returns the name, fixing it to the class name on first use |
| Workers.WorkerContext.Terminate | src/Worker/WorkerContext.php:106-120 | first call: latch set, exactly one terminate command to this worker, not running; later calls change nothing and send nothing |
| Workers.WorkerContext.Guard | src/Worker/WorkerContext.php:130-214 | when the socket pair fails nothing changes and it returns false; otherwise the slot gets its stream and runtime and it returns true |
| Workers.WorkerContext.ForwardCommands | src/Worker/WorkerContext.php:147-156 | the manager gets exactly the calls `Forwards` lists |
| Workers.WorkerContext.OnExit | src/Worker/WorkerContext.php:222-252 | the slot's stream is closed if present and the slot leaves both maps, other slots unchanged; counters and scheduled restarts follow `RestartPlan` |
| Workers.WorkerContext.OnSettled | src/Worker/WorkerContext.php:201-211 | the settled value is mapped to an exit code (an int is itself, a ProcessException gives its code, anything else 0) and `onExit` applied: the slot's stream, if any, is closed, the slot leaves both maps, and counters and restarts follow `RestartPlan` |
| Workers.WorkerContext.GuardSlots | src/Worker/WorkerContext.php:276-283 | `guard` runs for slots 1..n in order and stops at the first failure; the slots before it are filled as `SlotStreams`/`SlotRuntimes` say |
| Workers.WorkerContext.Run | src/Worker/WorkerContext.php:263-287 | a failed `register` removes the worker and starts nothing; otherwise `guard` runs for `Replicas` slots (1 without process control, else the configured count); success means every `guard` succeeded and sets `running`; the first failure terminates the worker (at most one terminate command) and removes it |
| Workers.WorkerContext.Boot | src/Worker/WorkerContext.php:159-198 | in the child the context stops being the parent; a successful boot sets `booted`, a failed one ends the process with 128 |
| Workers.WorkerContext.DispatchCommands | src/Worker/WorkerContext.php:163-190 | the queue and the hook log end as `Dispatched` of the decoded commands gives them |

## Left out

- Promise and coroutine semantics (`promise`, `await`, `finally`) are left
  out, as is the event loop (`onWritable`, `onReadable`, `onClose`,
  `delay`, `onSignal`). Each callback firing is a method call, and scheduled
  restarts and sent commands are ghost logs.
- The buffered case of `write` returns `Queued`, or CONNECTION_WRITE_FAIL
  once a failed drain has rejected the pending write. The model does not claim
  the caller is resumed after draining: no such path exists in the code.
- OS calls become inputs:
  - `socket_recv` (`RecvResult`);
  - the socket write (`SendResult`);
  - successive `read` calls (`ReadResult`);
  - `socket_create_pair` and the fork (`SlotSetup`, `forkPid`);
  - `pcntl_wait` (the wait results);
  - `getOption(SO_SNDLOWAT)` (`lowat`).

  `posix_kill` is a `Signal` log entry.
- Opening the overflow file, `unlink`, `uniqid` and file-system paths are not
  modelled. The model assumes that opening the overflow file and appending to
  it always succeed.
- SocketStreams.SocketStream.Write does not model an overflow file that fails
  to open or to take an append. In the code that failure
  (SocketStream.php:203, 211 and 238-240) reaches `write`'s catch and surfaces
  as CONNECTION_WRITE_FAIL. The state it leaves behind is not modelled.
- SocketStreams.SocketStream.PrepareBlockingMode does not model a failing file
  open. Both handles are created together.
- The framing codec (Zx7e) and `Command::fromString` are external. Decoded
  commands are given as a sequence.
- The application hooks (`register`, `boot`, `onReload`, `onTerminate`,
  `onCommand`) and `Output` logging are left out. Hooks are events or
  boolean inputs. Log text is not modelled.
- The child branch of `task` (resetting the event-loop driver, running the
  closure, `run()`), the `exit` calls and the Windows socket-domain fallback
  are left out. `Boot` stands for the part of the worker's child branch that
  the supervisor relies on.
- `Runtime` is reduced to the pid it wraps, and `signal` to a `Signal(pid, n)`
  log entry.
- Processes.Process.Destroy: `foreach` visits the runtime table in insertion
  order. The model visits it in an arbitrary order and states the result
  as "each tracked pid exactly once".
- SocketStreams.SocketStream.DrainTick: the count `parent::write` reports is
  discarded, as in the code, so `InOrder` is promised only when the socket
  takes the whole chunk. On Linux, `SO_SNDLOWAT` is 1 and a writable socket
  takes one byte.
- SocketStreams.SocketStream.DrainTick requires an existing overflow file. If
  the close callback has already removed the file, the code's drain callback
  would fail on a null handle. That path is not modelled.
- The end-of-file flag follows PHP's buffered plain-file streams. A read
  that returns fewer bytes than asked for sets the flag. A seek would clear
  it, but this code never seeks the read handle, so the flag stays set until
  the handle is closed.
- SocketStreams.IntVal models base-10 `intval` of a string: leading
  whitespace, a sign and leading digits. It does not model exponent notation
  or saturation at PHP_INT_MAX. `explode` is modelled exactly.
- Workers.RestartDelay counts deciseconds in integers. The code computes
  `0.1 * pow(2, n - 1)` in floating point.
- Workers.ArrayKey maps a null id to the key "". PHP's normalisation of
  numeric-string keys to integers is not modelled.
- Workers.WorkerContext.Run takes the outcome of `register` and of each
  `guard` setup as inputs. It requires one setup per slot it may fill.
- SocketStreams.Receive has no contract of its own. It is the two cases of
  `socket_recv`: CONNECTION_READ_FAIL on `false`, else the count and bytes.
  `length` and `flags` are passed through to `socket_recv`, so they are not
  modelled.
- Processes.Process.SignalSIGCHLDHandler takes the `pcntl_wait` results of
  one call as a finite sequence ending in 0 (`WNOHANG` with no child ready). A
  wait that never returns 0 is not modelled.

## Findings

| source | as written | input that shows it | evidently intended | confidence | as-written member | corrected member |
|---|---|---|---|---|---|---|
| src/Core/Socket/SocketStream.php:247-255 | the drain callback removes the overflow file as soon as the read handle reports end of file. That flag stays set after a short read, even when a later `write` appends through the other handle (202-205) | two bytes buffered, `SO_SNDLOWAT` 4: one firing reads both and sets the flag; `write` appends a byte; the next firing removes the file with that byte unsent, and its caller never resolves. With `SO_SNDLOWAT` 1 (Linux): one byte buffered; a firing reads it and leaves the flag clear; the next reads 0 bytes, sets the flag and sends ""; `write` appends a byte; the following firing removes the file with that byte unsent | end the drain only when nothing is left unread, so every byte written reaches the socket in order | medium, not executed; it rests on PHP's end-of-file flag for plain files | SocketStreams.LatchedEofDropsAppend | SocketStreams.FixedDrainStepKeepsOrder |

`SocketStream.DrainTick` keeps the code's behaviour. Its contract states the
loss exactly: at teardown the dropped bytes are the unread ones. The
corrected step `FixedDrainStep` is what the drain specification `DrainChunks`
and its lemma `DrainChunksDeliverUnread` use. `DrainStepAgrees` proves that the
code takes the same steps as long as nothing is appended after the flag is
set.
