/**
 * The worker supervisor. On the manager side, `run` calls `guard` for slots
 * 1..count; each `guard` pairs a socket with a forked worker and records both
 * under the slot. `onExit` tears a slot down and schedules a restart with
 * capped exponential backoff, and `terminate` is a latch. On the worker
 * side, commands read from the parent socket are routed to hooks or resolve
 * pending replies in `queue`.
 *
 * Socket pairs, forks, the framing codec and the application hooks become
 * inputs or entries of ghost logs. Delays are counted in deciseconds.
 */
module Workers {
  import opened Common
  import Processes

  const COMMAND_RELOAD: string := "__worker__.reload"
  const COMMAND_TERMINATE: string := "__worker__.terminate"
  const COMMAND_SYNC_ID: string := "__worker__.sync.id"

  /** A slot is restarted at most this many times. */
  const MAX_RESTART_ATTEMPTS: nat := 10

  /** The exit status of a worker whose `boot` threw; such a worker is never restarted. */
  const BOOT_FAILURE_STATUS: int := 128

  /** The cap on the restart delay: 30 seconds, in deciseconds. */
  const MAX_DELAY: nat := 300

  // ---------------------------------------------------------------------
  // Restart backoff
  // ---------------------------------------------------------------------

  function Pow2(n: nat): (p: nat)
    ensures p >= 1
  {
    if n == 0 then 1 else 2 * Pow2(n - 1)
  }

  lemma {:induction false} Pow2Monotone(m: nat, n: nat)
    requires m <= n
    ensures Pow2(m) <= Pow2(n)
    decreases n
  {
    if m < n {
      Pow2Monotone(m, n - 1);
    }
  }

  /**
   * The delay before restart number `attempt`, in deciseconds:
   * `min(0.1 * 2^(attempt - 1), 30)` seconds.
   */
  function RestartDelay(attempt: nat): (d: nat)
    requires attempt >= 1
    ensures 1 <= d <= MAX_DELAY
  {
    if Pow2(attempt - 1) < MAX_DELAY then Pow2(attempt - 1) else MAX_DELAY
  }

  /** A later attempt never waits less. */
  lemma RestartDelayMonotone(m: nat, n: nat)
    requires 1 <= m <= n
    ensures RestartDelay(m) <= RestartDelay(n)
  {
    Pow2Monotone(m - 1, n - 1);
  }

  /** Each attempt doubles the previous delay until the cap is reached. */
  lemma RestartDelayDoubles(n: nat)
    requires n >= 1
    ensures RestartDelay(n + 1) == if 2 * RestartDelay(n) < MAX_DELAY then 2 * RestartDelay(n) else MAX_DELAY
  {
    assert Pow2(n) == 2 * Pow2(n - 1);
  }

  /** The ten delays a crashing slot goes through: 0.1 s, 0.2 s, ..., 25.6 s, then 30 s. */
  lemma RestartDelaySchedule()
    ensures RestartDelay(1) == 1 && RestartDelay(2) == 2 && RestartDelay(3) == 4
    ensures RestartDelay(4) == 8 && RestartDelay(5) == 16 && RestartDelay(6) == 32
    ensures RestartDelay(7) == 64 && RestartDelay(8) == 128 && RestartDelay(9) == 256
    ensures RestartDelay(10) == 300
  {
    assert Pow2(0) == 1;
    assert Pow2(1) == 2;
    assert Pow2(2) == 4;
    assert Pow2(3) == 8;
    assert Pow2(4) == 16;
    assert Pow2(5) == 32;
    assert Pow2(6) == 64;
    assert Pow2(7) == 128;
    assert Pow2(8) == 256;
    assert Pow2(9) == 512;
  }

  /** The restart counter of a slot, 0 when it has none yet (`?? 0`). */
  function Attempts(attempts: map<int, nat>, index: int): nat {
    if index in attempts then attempts[index] else 0
  }

  /**
   * The restart decision of `onExit` for slot `index`: the restart counters
   * afterwards, and the delay of the restart it schedules, if any.
   */
  function RestartPlan(attempts: map<int, nat>, index: int, exitCode: int, terminated: bool): (map<int, nat>, Option<nat>) {
    if exitCode == BOOT_FAILURE_STATUS || terminated then (attempts, None)
    else
      var n := Attempts(attempts, index) + 1;
      (attempts[index := n], if n > MAX_RESTART_ATTEMPTS then None else Some(RestartDelay(n)))
  }

  /**
   * A boot failure or a terminated context leaves the counters alone and
   * restarts nothing; any other exit bumps only this slot's counter by one
   * and restarts it, after `RestartDelay` of the new count, exactly when the
   * count stays within `MAX_RESTART_ATTEMPTS`.
   */
  lemma RestartPolicy(attempts: map<int, nat>, index: int, exitCode: int, terminated: bool)
    ensures var (after, delay) := RestartPlan(attempts, index, exitCode, terminated);
      && (exitCode == BOOT_FAILURE_STATUS || terminated ==> after == attempts && delay == None)
      && (exitCode != BOOT_FAILURE_STATUS && !terminated ==>
            && after.Keys == attempts.Keys + {index}
            && Attempts(after, index) == Attempts(attempts, index) + 1
            && (forall i :: i in attempts && i != index ==> after[i] == attempts[i]))
      && (delay.Some? <==> exitCode != BOOT_FAILURE_STATUS && !terminated && Attempts(attempts, index) < MAX_RESTART_ATTEMPTS)
      && (delay.Some? ==> delay.value == RestartDelay(Attempts(after, index)))
  {
  }

  /** The restart delays chosen by successive exits of slot `index` with exit codes `codes`. */
  function ExitSchedule(attempts: map<int, nat>, index: int, codes: seq<int>, terminated: bool): seq<Option<nat>>
    decreases |codes|
  {
    if codes == [] then []
    else
      var plan := RestartPlan(attempts, index, codes[0], terminated);
      [plan.1] + ExitSchedule(plan.0, index, codes[1..], terminated)
  }

  /**
   * A slot that keeps crashing (never with the boot-failure status) is
   * restarted with the delays for attempts a+1, a+2, ... up to the tenth, and
   * never again after that: the counter is never reset.
   */
  lemma {:induction false} CrashLoopSchedule(attempts: map<int, nat>, index: int, codes: seq<int>)
    requires forall k :: 0 <= k < |codes| ==> codes[k] != BOOT_FAILURE_STATUS
    decreases |codes|
    ensures var s := ExitSchedule(attempts, index, codes, false);
      && |s| == |codes|
      && forall k :: 0 <= k < |s| ==>
           s[k] == if Attempts(attempts, index) + k + 1 <= MAX_RESTART_ATTEMPTS then Some(RestartDelay(Attempts(attempts, index) + k + 1)) else None
  {
    if codes != [] {
      var plan := RestartPlan(attempts, index, codes[0], false);
      assert Attempts(plan.0, index) == Attempts(attempts, index) + 1;
      CrashLoopSchedule(plan.0, index, codes[1..]);
      var s := ExitSchedule(attempts, index, codes, false);
      forall k | 0 <= k < |s|
        ensures s[k] == if Attempts(attempts, index) + k + 1 <= MAX_RESTART_ATTEMPTS then Some(RestartDelay(Attempts(attempts, index) + k + 1)) else None
      {
        if k > 0 {
          assert s[k] == ExitSchedule(plan.0, index, codes[1..], false)[k - 1];
        }
      }
    }
  }

  /** A fresh slot that crashes over and over is restarted exactly ten times, at the first ten exits. */
  lemma TenRestartsThenGiveUp(index: int, codes: seq<int>)
    requires forall k :: 0 <= k < |codes| ==> codes[k] != BOOT_FAILURE_STATUS
    ensures var s := ExitSchedule(map[], index, codes, false);
      forall k :: 0 <= k < |s| ==> (s[k].Some? <==> k < MAX_RESTART_ATTEMPTS)
  {
    CrashLoopSchedule(map[], index, codes);
  }

  /** Once the context is terminated, no exit restarts anything. */
  lemma {:induction false} TerminatedNeverRestarts(attempts: map<int, nat>, index: int, codes: seq<int>)
    ensures var s := ExitSchedule(attempts, index, codes, true);
      |s| == |codes| && forall k :: 0 <= k < |s| ==> s[k] == None
    decreases |codes|
  {
    if codes != [] {
      TerminatedNeverRestarts(attempts, index, codes[1..]);
    }
  }

  // ---------------------------------------------------------------------
  // Exit codes
  // ---------------------------------------------------------------------

  /** What a worker's runtime promise settles with, as the `finally` continuation sees it. */
  datatype SettledValue = IntValue(i: int) | ProcessFailure(code: int) | OtherValue

  /** The `finally` mapping: an int is the exit code, a ProcessException gives its code, anything else is 0. */
  function ExitCode(v: SettledValue): int {
    match v
    case IntValue(i) => i
    case ProcessFailure(code) => code
    case OtherValue => 0
  }

  /** A runtime promise settled by the reaper: resolved with an int, or rejected with a ProcessException. */
  function FromOutcome(o: Processes.Outcome): SettledValue {
    match o
    case Resolved(code) => IntValue(code)
    case Rejected(code) => ProcessFailure(code)
  }

  /**
   * The exit code `onExit` sees for a reaped child: its exit status when it
   * exited normally, -1 otherwise; so a child that did not exit normally is
   * treated as a crash, never as a boot failure.
   */
  lemma ReapedExitCode(w: Processes.WaitResult)
    ensures ExitCode(FromOutcome(Processes.ExitOutcome(w))) == if w.exited then w.status else Processes.ABNORMAL_EXIT
    ensures ExitCode(FromOutcome(Processes.ExitOutcome(w))) == BOOT_FAILURE_STATUS <==> w.exited && w.status == BOOT_FAILURE_STATUS
  {
  }

  /** A worker whose boot failed exits with 128 and is not restarted, whatever the counters say. */
  lemma BootFailureIsNotRestarted(pid: int, attempts: map<int, nat>, index: int, terminated: bool)
    ensures var code := ExitCode(FromOutcome(Processes.ExitOutcome(Processes.WaitResult(pid, true, BOOT_FAILURE_STATUS))));
      RestartPlan(attempts, index, code, terminated) == (attempts, None)
  {
  }

  // ---------------------------------------------------------------------
  // Commands on the worker side
  // ---------------------------------------------------------------------

  /** A command argument: PHP `null` (also what a missing argument reads as) or a string. */
  datatype Value = Null | Text(s: string)

  /** A decoded command: a name and its arguments. */
  datatype Command = Command(name: string, arguments: map<string, Value>)

  /** `$command->arguments[key]`, `null` when absent. */
  function Argument(cmd: Command, key: string): Value {
    if key in cmd.arguments then cmd.arguments[key] else Null
  }

  /** The array key a value is used as: `null` becomes the empty string. */
  function ArrayKey(v: Value): string {
    match v
    case Null => ""
    case Text(s) => s
  }

  /** What the worker does with one command: call a hook, or resolve a pending reply with its resolver. */
  datatype Event = Reloaded | Terminated | Resolved(id: string, resolver: nat, value: Value) | Commanded(command: Command)

  /** One pass of the command `switch` over the pending-reply queue (id to resolver). */
  function DispatchStep(queue: map<string, nat>, cmd: Command): (map<string, nat>, seq<Event>) {
    if cmd.name == COMMAND_RELOAD then (queue, [Reloaded])
    else if cmd.name == COMMAND_TERMINATE then (queue, [Terminated])
    else if cmd.name == COMMAND_SYNC_ID then
      var id := ArrayKey(Argument(cmd, "id"));
      if id in queue then (queue - {id}, [Resolved(id, queue[id], Argument(cmd, "sync"))])
      else (queue, [])
    else (queue, [Commanded(cmd)])
  }

  /**
   * Routing: the reload and terminate names call their hooks, any other
   * unreserved name calls `onCommand`; only a sync whose id is pending
   * touches the queue, removing that one entry and resolving it with `sync`;
   * a sync with an unknown id does nothing at all.
   */
  lemma CommandRouting(queue: map<string, nat>, cmd: Command)
    ensures var (after, events) := DispatchStep(queue, cmd);
      var id := ArrayKey(Argument(cmd, "id"));
      && (events == [Reloaded] <==> cmd.name == COMMAND_RELOAD)
      && (events == [Terminated] <==> cmd.name == COMMAND_TERMINATE)
      && (events == [Commanded(cmd)] <==> cmd.name !in {COMMAND_RELOAD, COMMAND_TERMINATE, COMMAND_SYNC_ID})
      && (after != queue <==> cmd.name == COMMAND_SYNC_ID && id in queue)
      && (after != queue ==> after == queue - {id} && events == [Resolved(id, queue[id], Argument(cmd, "sync"))])
      && (events == [] <==> cmd.name == COMMAND_SYNC_ID && id !in queue)
  {
    var (after, events) := DispatchStep(queue, cmd);
    if cmd.name == COMMAND_SYNC_ID && ArrayKey(Argument(cmd, "id")) in queue {
      assert ArrayKey(Argument(cmd, "id")) !in after;
    }
  }

  /** The queue and the events after dispatching `cmds` in order. */
  function Dispatched(queue: map<string, nat>, cmds: seq<Command>): (map<string, nat>, seq<Event>) {
    if cmds == [] then (queue, [])
    else
      var prev := Dispatched(queue, cmds[..|cmds| - 1]);
      var step := DispatchStep(prev.0, cmds[|cmds| - 1]);
      (step.0, prev.1 + step.1)
  }

  /** Dispatching one more command continues from where the earlier ones left the queue. */
  lemma DispatchedSnoc(queue: map<string, nat>, cmds: seq<Command>, i: nat)
    requires i < |cmds|
    ensures var prev := Dispatched(queue, cmds[..i]);
      var step := DispatchStep(prev.0, cmds[i]);
      Dispatched(queue, cmds[..i + 1]) == (step.0, prev.1 + step.1)
  {
    assert cmds[..i + 1][..i] == cmds[..i];
  }

  /**
   * Over any run of commands, the queue only loses entries; every resolution
   * uses the resolver queued under its id and removes that id; no id is
   * resolved twice; and every id that disappeared was resolved. Each command
   * gives at most one event.
   */
  lemma {:induction false} DispatchedResolvesOnce(queue: map<string, nat>, cmds: seq<Command>)
    ensures var (after, events) := Dispatched(queue, cmds);
      && |events| <= |cmds|
      && after.Keys <= queue.Keys
      && (forall k :: k in after ==> after[k] == queue[k])
      && (forall i :: 0 <= i < |events| && events[i].Resolved? ==>
            events[i].id in queue && events[i].id !in after && events[i].resolver == queue[events[i].id])
      && (forall i, j :: 0 <= i < j < |events| && events[i].Resolved? && events[j].Resolved? ==> events[i].id != events[j].id)
      && (forall k :: k in queue && k !in after ==> exists i :: 0 <= i < |events| && events[i].Resolved? && events[i].id == k)
  {
    if cmds != [] {
      var init := cmds[..|cmds| - 1];
      DispatchedResolvesOnce(queue, init);
      var prev := Dispatched(queue, init);
      var cmd := cmds[|cmds| - 1];
      var step := DispatchStep(prev.0, cmd);
      CommandRouting(prev.0, cmd);
      var (after, events) := Dispatched(queue, cmds);
      assert after == step.0 && events == prev.1 + step.1;
      forall i | 0 <= i < |events| && events[i].Resolved?
        ensures events[i].id in queue && events[i].id !in after && events[i].resolver == queue[events[i].id]
      {
        if i < |prev.1| {
          assert events[i] == prev.1[i];
        } else {
          assert events[i] == step.1[i - |prev.1|];
        }
      }
      forall i, j | 0 <= i < j < |events| && events[i].Resolved? && events[j].Resolved?
        ensures events[i].id != events[j].id
      {
        if j >= |prev.1| {
          assert events[j] == step.1[j - |prev.1|];
          assert events[j].id in prev.0;
          if i < |prev.1| {
            assert events[i] == prev.1[i];
          } else {
            assert false;
          }
        } else {
          assert events[i] == prev.1[i] && events[j] == prev.1[j];
        }
      }
      forall k | k in queue && k !in after
        ensures exists i :: 0 <= i < |events| && events[i].Resolved? && events[i].id == k
      {
        if k in prev.0 {
          assert events[|prev.1|] == step.1[0];
        } else {
          var i :| 0 <= i < |prev.1| && prev.1[i].Resolved? && prev.1[i].id == k;
          assert events[i] == prev.1[i];
        }
      }
    }
  }

  // ---------------------------------------------------------------------
  // Manager side
  // ---------------------------------------------------------------------

  /** What `socket_create_pair` and the fork gave one `guard` call: a failure, or the manager's end of the pair and the child's pid. */
  datatype SlotSetup = PairFailed | Spawned(stream: nat, pid: int)

  /** A call into the worker manager. */
  datatype ManagerCall =
    | SendCommand(command: Command, target: string)
    | Remove(target: string)
    | OnCommand(command: Command, target: string, index: int)

  /** A restart scheduled by `onExit`: the slot and the delay in deciseconds. */
  datatype Restart = Restart(index: int, delay: nat)

  /** The number of slots `run` fills: 1 without process control, otherwise `count` (none when it is not positive). */
  function Replicas(processControl: bool, count: int): nat {
    if !processControl then 1 else if count < 0 then 0 else count
  }

  /** The number of `guard` calls among the first `n` that succeed before the first one fails. */
  function FirstFailure(setups: seq<SlotSetup>, n: nat): (f: nat)
    requires n <= |setups|
    ensures f <= n
    ensures forall i :: 0 <= i < f ==> setups[i].Spawned?
    ensures f < n ==> setups[f].PairFailed?
  {
    if n == 0 then 0
    else
      var f := FirstFailure(setups, n - 1);
      if f < n - 1 then f else if setups[n - 1].PairFailed? then n - 1 else n
  }

  /** The streams slots 1..k hold after `guard` filled them from `setups`. */
  function SlotStreams(setups: seq<SlotSetup>, k: nat): map<int, nat>
    requires k <= |setups|
    requires forall i :: 0 <= i < k ==> setups[i].Spawned?
  {
    if k == 0 then map[] else SlotStreams(setups, k - 1)[k := setups[k - 1].stream]
  }

  /** The runtimes slots 1..k hold after `guard` filled them from `setups`. */
  function SlotRuntimes(setups: seq<SlotSetup>, k: nat): map<int, Processes.Runtime>
    requires k <= |setups|
    requires forall i :: 0 <= i < k ==> setups[i].Spawned?
  {
    if k == 0 then map[] else SlotRuntimes(setups, k - 1)[k := Processes.Runtime(setups[k - 1].pid)]
  }

  /** Updating the right operand of a map union updates the union. */
  lemma UnionUpdate<V>(m: map<int, V>, n: map<int, V>, k: int, v: V)
    ensures m + n[k := v] == (m + n)[k := v]
  {
  }

  /** `run` fills exactly the slots 1..k, each with the stream and pid of its own setup. */
  lemma {:induction false} SlotsFilled(setups: seq<SlotSetup>, k: nat)
    requires k <= |setups|
    requires forall i :: 0 <= i < k ==> setups[i].Spawned?
    ensures forall i :: i in SlotStreams(setups, k) <==> 1 <= i <= k
    ensures forall i :: i in SlotRuntimes(setups, k) <==> 1 <= i <= k
    ensures forall i :: 1 <= i <= k ==> SlotStreams(setups, k)[i] == setups[i - 1].stream
    ensures forall i :: 1 <= i <= k ==> SlotRuntimes(setups, k)[i] == Processes.Runtime(setups[i - 1].pid)
  {
    if k > 0 {
      SlotsFilled(setups, k - 1);
    }
  }

  /** The manager calls made while forwarding `cmds` from slot `index` of worker `name`. */
  function Forwards(cmds: seq<Command>, name: string, index: int): (calls: seq<ManagerCall>)
    ensures |calls| == |cmds|
    ensures forall i :: 0 <= i < |cmds| ==> calls[i] == OnCommand(cmds[i], name, index)
  {
    if cmds == [] then [] else Forwards(cmds[..|cmds| - 1], name, index) + [OnCommand(cmds[|cmds| - 1], name, index)]
  }

  /**
   * One worker class's context. On the manager side: per-slot `streams` and
   * `runtimes`, the `restartAttempts` counters and the `terminated` and
   * `running` flags. On the worker side (the same object after the fork):
   * `parent`, `parentSocket`, `booted` and the pending-reply `queue`.
   * Ghost logs record manager calls, closed streams, scheduled restarts and
   * the hooks the worker ran.
   */
  class WorkerContext {
    const className: string
    const count: int
    var name: Option<string>
    var streams: map<int, nat>
    var runtimes: map<int, Processes.Runtime>
    var restartAttempts: map<int, nat>
    var queue: map<string, nat>
    var terminated: bool
    var running: bool
    var parent: bool
    var parentSocket: Option<nat>
    var booted: bool
    ghost var managerCalls: seq<ManagerCall>
    ghost var closedStreams: seq<nat>
    ghost var restarts: seq<Restart>
    ghost var events: seq<Event>

    /** Every slot with a stream has a runtime and the other way round. */
    ghost predicate Valid()
      reads this
    {
      streams.Keys == runtimes.Keys
    }

    /** A fresh context for the worker class `className` with `count` replicas. */
    constructor (className: string, count: int)
      ensures Valid()
      ensures this.className == className && this.count == count && name == None
      ensures streams == map[] && runtimes == map[] && restartAttempts == map[] && queue == map[]
      ensures !terminated && !running && parent && parentSocket == None && !booted
      ensures managerCalls == [] && closedStreams == [] && restarts == [] && events == []
    {
      this.className := className;
      this.count := count;
      name := None;
      streams := map[];
      runtimes := map[];
      restartAttempts := map[];
      queue := map[];
      terminated := false;
      running := false;
      parent := true;
      parentSocket := None;
      booted := false;
      managerCalls := [];
      closedStreams := [];
      restarts := [];
      events := [];
    }

    /** The worker's name: the one set, else the class name. */
    function Name(): string
      reads this
    {
      if name.Some? then name.value else className
    }

    /** `getName`: the name, which is fixed to the class name on first use. */
    method GetName() returns (n: string)
      modifies this`name
      ensures n == old(Name()) && name == Some(n)
      ensures old(name).Some? ==> name == old(name)
    {
      if name.None? {
        name := Some(className);
      }
      n := name.value;
    }

    /** `terminate`: a latch; the first call sends one terminate command to this worker and stops it, later calls do nothing. */
    method Terminate()
      modifies this`terminated, this`running, this`name, this`managerCalls
      ensures terminated && Name() == old(Name())
      ensures old(terminated) ==> running == old(running) && managerCalls == old(managerCalls) && name == old(name)
      ensures !old(terminated) ==>
        && !running
        && managerCalls == old(managerCalls) + [SendCommand(Command(COMMAND_TERMINATE, map[]), old(Name()))]
    {
      if terminated {
        return;
      }
      terminated := true;
      var n := GetName();
      managerCalls := managerCalls + [SendCommand(Command(COMMAND_TERMINATE, map[]), n)];
      running := false;
    }

    /**
     * The manager side of `guard(index)`: when the socket pair cannot be
     * created nothing changes; otherwise the slot records its stream and
     * the runtime of the forked worker.
     */
    method Guard(index: int, setup: SlotSetup) returns (ok: bool)
      requires Valid()
      modifies this`streams, this`runtimes
      ensures Valid()
      ensures ok <==> setup.Spawned?
      ensures !ok ==> streams == old(streams) && runtimes == old(runtimes)
      ensures ok ==> streams == old(streams)[index := setup.stream] && runtimes == old(runtimes)[index := Processes.Runtime(setup.pid)]
    {
      if setup.PairFailed? {
        return false;
      }
      streams := streams[index := setup.stream];
      runtimes := runtimes[index := Processes.Runtime(setup.pid)];
      return true;
    }

    /**
     * The parent end's `onReadable` callback for slot `index`: every command
     * the worker sent is handed to the manager with this worker's name and
     * the slot.
     */
    method ForwardCommands(index: int, cmds: seq<Command>)
      modifies this`name, this`managerCalls
      ensures Name() == old(Name())
      ensures managerCalls == old(managerCalls) + Forwards(cmds, old(Name()), index)
    {
      var i := 0;
      while i < |cmds|
        invariant 0 <= i <= |cmds|
        invariant Name() == old(Name())
        invariant managerCalls == old(managerCalls) + Forwards(cmds[..i], old(Name()), index)
      {
        var n := GetName();
        assert cmds[..i + 1][..i] == cmds[..i];
        managerCalls := managerCalls + [OnCommand(cmds[i], n, index)];
        i := i + 1;
      }
      assert cmds[..|cmds|] == cmds;
    }

    /**
     * `onExit(index, exitCode)`: the slot's stream is closed and both its
     * entries go; then the restart decision of `RestartPlan` is applied.
     */
    method OnExit(index: int, exitCode: int)
      requires Valid()
      modifies this`streams, this`runtimes, this`closedStreams, this`restartAttempts, this`restarts
      ensures Valid()
      ensures streams == old(streams) - {index} && runtimes == old(runtimes) - {index}
      ensures closedStreams == old(closedStreams) + (if index in old(streams) then [old(streams)[index]] else [])
      ensures var plan := RestartPlan(old(restartAttempts), index, exitCode, terminated);
        && restartAttempts == plan.0
        && restarts == old(restarts) + (if plan.1.Some? then [Restart(index, plan.1.value)] else [])
    {
      if index in streams {
        closedStreams := closedStreams + [streams[index]];
        streams := streams - {index};
      }
      if index in runtimes {
        runtimes := runtimes - {index};
      }
      if exitCode == BOOT_FAILURE_STATUS {
        return;
      }
      if !terminated {
        var attempts := Attempts(restartAttempts, index) + 1;
        restartAttempts := restartAttempts[index := attempts];
        if attempts > MAX_RESTART_ATTEMPTS {
          return;
        }
        restarts := restarts + [Restart(index, RestartDelay(attempts))];
      }
    }

    /** The `finally` continuation of slot `index`'s runtime: map the settled value to an exit code and run `onExit`. */
    method OnSettled(index: int, result: SettledValue)
      requires Valid()
      modifies this`streams, this`runtimes, this`closedStreams, this`restartAttempts, this`restarts
      ensures Valid()
      ensures streams == old(streams) - {index} && runtimes == old(runtimes) - {index}
      ensures closedStreams == old(closedStreams) + (if index in old(streams) then [old(streams)[index]] else [])
      ensures var plan := RestartPlan(old(restartAttempts), index, ExitCode(result), terminated);
        && restartAttempts == plan.0
        && restarts == old(restarts) + (if plan.1.Some? then [Restart(index, plan.1.value)] else [])
    {
      OnExit(index, ExitCode(result));
    }

    /**
     * `run`: when `register` throws, the worker is removed and nothing is
     * started; otherwise `guard` runs for slots 1..n in order, and the first
     * failure terminates the worker, removes it and stops; when all succeed
     * the worker is running.
     */
    method Run(registerOk: bool, processControl: bool, setups: seq<SlotSetup>) returns (ok: bool)
      requires Valid()
      requires Replicas(processControl, count) <= |setups|
      modifies this`streams, this`runtimes, this`terminated, this`running, this`name, this`managerCalls
      ensures Valid()
      ensures Name() == old(Name())
      ensures ok <==> registerOk && FirstFailure(setups, Replicas(processControl, count)) == Replicas(processControl, count)
      ensures !registerOk ==>
        && streams == old(streams) && runtimes == old(runtimes)
        && terminated == old(terminated) && running == old(running)
        && managerCalls == old(managerCalls) + [Remove(old(Name()))]
      ensures registerOk ==>
        var f := FirstFailure(setups, Replicas(processControl, count));
        && streams == old(streams) + SlotStreams(setups, f)
        && runtimes == old(runtimes) + SlotRuntimes(setups, f)
      ensures ok ==> running && terminated == old(terminated) && managerCalls == old(managerCalls)
      ensures registerOk && !ok ==> terminated
      ensures registerOk && !ok && old(terminated) ==> running == old(running) && managerCalls == old(managerCalls) + [Remove(old(Name()))]
      ensures registerOk && !ok && !old(terminated) ==>
        && !running
        && managerCalls == old(managerCalls) + [SendCommand(Command(COMMAND_TERMINATE, map[]), old(Name())), Remove(old(Name()))]
    {
      if !registerOk {
        var n := GetName();
        managerCalls := managerCalls + [Remove(n)];
        return false;
      }
      var replicas := Replicas(processControl, count);
      var spawned := GuardSlots(replicas, setups);
      if spawned < replicas {
        Terminate();
        var n := GetName();
        managerCalls := managerCalls + [Remove(n)];
        return false;
      }
      running := true;
      return true;
    }

    /**
     * The `for` loop of `run`: `guard` for slots 1..replicas in ascending
     * order, stopping at the first failure. Gives how many slots were filled.
     */
    method GuardSlots(replicas: nat, setups: seq<SlotSetup>) returns (filled: nat)
      requires Valid()
      requires replicas <= |setups|
      modifies this`streams, this`runtimes
      ensures Valid()
      ensures filled == FirstFailure(setups, replicas)
      ensures streams == old(streams) + SlotStreams(setups, filled)
      ensures runtimes == old(runtimes) + SlotRuntimes(setups, filled)
    {
      var index := 1;
      while index <= replicas
        invariant 1 <= index <= replicas + 1
        invariant Valid()
        invariant forall i :: 0 <= i < index - 1 ==> setups[i].Spawned?
        invariant streams == old(streams) + SlotStreams(setups, index - 1)
        invariant runtimes == old(runtimes) + SlotRuntimes(setups, index - 1)
      {
        var spawned := Guard(index, setups[index - 1]);
        if !spawned {
          assert FirstFailure(setups, replicas) == index - 1;
          return index - 1;
        }
        UnionUpdate(old(streams), SlotStreams(setups, index - 1), index, setups[index - 1].stream);
        UnionUpdate(old(runtimes), SlotRuntimes(setups, index - 1), index, Processes.Runtime(setups[index - 1].pid));
        index := index + 1;
      }
      assert FirstFailure(setups, replicas) == replicas;
      return replicas;
    }

    /**
     * The worker side of the fork: the context stops being the parent,
     * keeps its end of the pair, and runs `boot`; a boot that throws ends
     * the worker with `BOOT_FAILURE_STATUS`.
     */
    method Boot(parentStream: nat, bootOk: bool) returns (exit: Option<int>)
      modifies this`parent, this`parentSocket, this`booted
      ensures !parent && parentSocket == Some(parentStream)
      ensures bootOk ==> exit == None && booted
      ensures !bootOk ==> exit == Some(BOOT_FAILURE_STATUS) && booted == old(booted)
    {
      parent := false;
      parentSocket := Some(parentStream);
      if !bootOk {
        return Some(BOOT_FAILURE_STATUS);
      }
      booted := true;
      return None;
    }

    /** The worker end's `onReadable` callback: the decoded commands go through the `switch` in order. */
    method DispatchCommands(cmds: seq<Command>)
      modifies this`queue, this`events
      ensures queue == Dispatched(old(queue), cmds).0
      ensures events == old(events) + Dispatched(old(queue), cmds).1
    {
      var i := 0;
      while i < |cmds|
        invariant 0 <= i <= |cmds|
        invariant queue == Dispatched(old(queue), cmds[..i]).0
        invariant events == old(events) + Dispatched(old(queue), cmds[..i]).1
      {
        var cmd := cmds[i];
        DispatchedSnoc(old(queue), cmds, i);
        AppendAssoc(old(events), Dispatched(old(queue), cmds[..i]).1, DispatchStep(queue, cmd).1);
        if cmd.name == COMMAND_RELOAD {
          events := events + [Reloaded];
        } else if cmd.name == COMMAND_TERMINATE {
          events := events + [Terminated];
        } else if cmd.name == COMMAND_SYNC_ID {
          var id := ArrayKey(Argument(cmd, "id"));
          var sync := Argument(cmd, "sync");
          if id in queue {
            var resolver := queue[id];
            queue := queue - {id};
            events := events + [Resolved(id, resolver, sync)];
          }
        } else {
          events := events + [Commanded(cmd)];
        }
        i := i + 1;
      }
      assert cmds[..|cmds|] == cmds;
    }
  }
}
