/**
 * The process supervisor: the parent side of `task` registers each forked
 * pid in two pid-keyed tables; the SIGCHLD handler drains `pcntl_wait`
 * results and settles each tracked pid's promise once; SIGTERM, SIGINT and
 * SIGQUIT forward the same signal to every tracked child and then exit.
 *
 * `pcntl_fork` and `pcntl_wait` become inputs. A settled promise and a sent
 * signal are entries of ghost logs; a promise is named by a serial number.
 */
module Processes {
  import opened Common

  const SIGINT: int := 2
  const SIGQUIT: int := 3
  const SIGTERM: int := 15
  const SIGCHLD: int := 17

  /** The code of the ProcessException a child that did not exit normally is rejected with. */
  const ABNORMAL_EXIT: int := -1

  /** What `pcntl_wexitstatus` can return: the low eight bits of the exit status. */
  type ExitStatus = x: int | 0 <= x < 256

  /** A runtime handle, reduced to the pid it wraps. */
  datatype Runtime = Runtime(pid: int)

  /** One `pcntl_wait` result: the pid (0 when no child is ready, -1 on error), whether `pcntl_wifexited` holds, and `pcntl_wexitstatus`. */
  datatype WaitResult = WaitResult(pid: int, exited: bool, status: ExitStatus)

  /** How a child's promise settles: resolved with the exit status, or rejected with a ProcessException carrying a code. */
  datatype Outcome = Resolved(code: int) | Rejected(code: int)

  /** One settlement: the pid, the promise (by serial number) and the outcome. */
  datatype Settlement = Settlement(pid: int, promise: nat, outcome: Outcome)

  /** One `posix_kill(pid, signal)` sent through a runtime handle. */
  datatype Signal = Signal(pid: int, signal: int)

  /** What a registered signal handler does. */
  datatype SignalHandler = ReapChildren | Quit(signal: int)

  /** The outcome the reap loop gives one wait result: the exit status when the child exited normally, otherwise a rejection with code -1. */
  function ExitOutcome(w: WaitResult): (o: Outcome)
    ensures o.Resolved? <==> w.exited
    ensures o.Resolved? ==> o.code == w.status
    ensures o.Rejected? ==> o.code == ABNORMAL_EXIT
  {
    var exit := if w.exited then w.status as int else ABNORMAL_EXIT;
    if exit == ABNORMAL_EXIT then Rejected(exit) else Resolved(exit)
  }

  /** The pids named by a list of settlements. */
  function SettledPids(ss: seq<Settlement>): set<int> {
    set k | 0 <= k < |ss| :: ss[k].pid
  }

  /**
   * One call of the SIGCHLD handler on the wait results `waits`: it stops at
   * pid 0, returns at the first pid without a promise entry, and otherwise
   * settles that pid's promise and removes it from both tables.
   * Gives the two tables afterwards and the settlements made.
   */
  function Reaped(callbacks: map<int, nat>, runtimes: map<int, Runtime>, waits: seq<WaitResult>)
    : (map<int, nat>, map<int, Runtime>, seq<Settlement>)
  {
    if waits == [] || waits[0].pid == 0 || waits[0].pid !in callbacks then (callbacks, runtimes, [])
    else
      var pid := waits[0].pid;
      var rest := Reaped(callbacks - {pid}, runtimes - {pid}, waits[1..]);
      (rest.0, rest.1, [Settlement(pid, callbacks[pid], ExitOutcome(waits[0]))] + rest.2)
  }

  /**
   * The reap loop settles a prefix of the wait results, each a tracked pid
   * with its own promise, and stops only at pid 0 or at a pid with no entry.
   */
  lemma {:induction false} ReapedPrefix(callbacks: map<int, nat>, runtimes: map<int, Runtime>, waits: seq<WaitResult>)
    ensures var r := Reaped(callbacks, runtimes, waits);
      && |r.2| <= |waits|
      && (forall j :: 0 <= j < |r.2| ==>
            && r.2[j].pid == waits[j].pid && r.2[j].pid != 0
            && r.2[j].pid in callbacks && r.2[j].promise == callbacks[r.2[j].pid]
            && r.2[j].outcome == ExitOutcome(waits[j]))
      && (|r.2| < |waits| ==> waits[|r.2|].pid == 0 || waits[|r.2|].pid !in r.0)
  {
    if !(waits == [] || waits[0].pid == 0 || waits[0].pid !in callbacks) {
      var pid := waits[0].pid;
      var rest := Reaped(callbacks - {pid}, runtimes - {pid}, waits[1..]);
      ReapedPrefix(callbacks - {pid}, runtimes - {pid}, waits[1..]);
      var r := Reaped(callbacks, runtimes, waits);
      assert r.2 == [Settlement(pid, callbacks[pid], ExitOutcome(waits[0]))] + rest.2;
      forall j | 0 <= j < |r.2|
        ensures r.2[j].pid == waits[j].pid && r.2[j].pid != 0
        ensures r.2[j].pid in callbacks && r.2[j].promise == callbacks[r.2[j].pid]
        ensures r.2[j].outcome == ExitOutcome(waits[j])
      {
        if j > 0 {
          assert r.2[j] == rest.2[j - 1];
          assert waits[1..][j - 1] == waits[j];
        }
      }
      if |r.2| < |waits| {
        assert waits[|r.2|] == waits[1..][|rest.2|];
      }
    }
  }

  /** The reap loop removes exactly the settled pids from both tables. */
  lemma {:induction false} ReapedTables(callbacks: map<int, nat>, runtimes: map<int, Runtime>, waits: seq<WaitResult>)
    ensures var r := Reaped(callbacks, runtimes, waits);
      r.0 == callbacks - SettledPids(r.2) && r.1 == runtimes - SettledPids(r.2)
  {
    if !(waits == [] || waits[0].pid == 0 || waits[0].pid !in callbacks) {
      var pid := waits[0].pid;
      var rest := Reaped(callbacks - {pid}, runtimes - {pid}, waits[1..]);
      ReapedTables(callbacks - {pid}, runtimes - {pid}, waits[1..]);
      var r := Reaped(callbacks, runtimes, waits);
      assert r.2 == [Settlement(pid, callbacks[pid], ExitOutcome(waits[0]))] + rest.2;
      assert SettledPids(r.2) == {pid} + SettledPids(rest.2) by {
        assert r.2[0].pid == pid;
        forall x | x in SettledPids(r.2) ensures x in {pid} + SettledPids(rest.2) {
          var k :| 0 <= k < |r.2| && r.2[k].pid == x;
          if k > 0 {
            assert rest.2[k - 1].pid == x;
          }
        }
        forall x | x in SettledPids(rest.2) ensures x in SettledPids(r.2) {
          var k :| 0 <= k < |rest.2| && rest.2[k].pid == x;
          assert r.2[k + 1].pid == x;
        }
      }
    }
  }

  /** No pid is settled twice in one reap call. */
  lemma {:induction false} ReapedDistinct(callbacks: map<int, nat>, runtimes: map<int, Runtime>, waits: seq<WaitResult>)
    ensures var r := Reaped(callbacks, runtimes, waits);
      forall i, j :: 0 <= i < j < |r.2| ==> r.2[i].pid != r.2[j].pid
  {
    if !(waits == [] || waits[0].pid == 0 || waits[0].pid !in callbacks) {
      var pid := waits[0].pid;
      var rest := Reaped(callbacks - {pid}, runtimes - {pid}, waits[1..]);
      ReapedDistinct(callbacks - {pid}, runtimes - {pid}, waits[1..]);
      ReapedPrefix(callbacks - {pid}, runtimes - {pid}, waits[1..]);
      var r := Reaped(callbacks, runtimes, waits);
      assert r.2 == [Settlement(pid, callbacks[pid], ExitOutcome(waits[0]))] + rest.2;
      forall i, j | 0 <= i < j < |r.2|
        ensures r.2[i].pid != r.2[j].pid
      {
        assert r.2[j] == rest.2[j - 1];
        if i > 0 {
          assert r.2[i] == rest.2[i - 1];
        }
      }
    }
  }

  /**
   * The reap loop settles a prefix of the wait results, each a tracked pid
   * with its own promise, no pid twice; it removes exactly those pids from
   * both tables; and it stops only at pid 0 or at a pid with no entry.
   */
  lemma ReapedSettlesTrackedPrefix(callbacks: map<int, nat>, runtimes: map<int, Runtime>, waits: seq<WaitResult>)
    ensures var r := Reaped(callbacks, runtimes, waits);
      && |r.2| <= |waits|
      && (forall j :: 0 <= j < |r.2| ==>
            && r.2[j].pid == waits[j].pid && r.2[j].pid != 0
            && r.2[j].pid in callbacks && r.2[j].promise == callbacks[r.2[j].pid]
            && r.2[j].outcome == ExitOutcome(waits[j]))
      && (forall i, j :: 0 <= i < j < |r.2| ==> r.2[i].pid != r.2[j].pid)
      && r.0 == callbacks - SettledPids(r.2)
      && r.1 == runtimes - SettledPids(r.2)
      && (|r.2| < |waits| ==> waits[|r.2|].pid == 0 || waits[|r.2|].pid !in r.0)
  {
    ReapedPrefix(callbacks, runtimes, waits);
    ReapedTables(callbacks, runtimes, waits);
    ReapedDistinct(callbacks, runtimes, waits);
  }

  /** Reaping keeps the two tables on the same key set. */
  lemma ReapedKeepsTablesAligned(callbacks: map<int, nat>, runtimes: map<int, Runtime>, waits: seq<WaitResult>)
    requires callbacks.Keys == runtimes.Keys
    ensures var r := Reaped(callbacks, runtimes, waits); r.0.Keys == r.1.Keys
  {
    ReapedTables(callbacks, runtimes, waits);
  }

  /** The handlers the constructor registers. */
  function SignalHandlers(): map<int, SignalHandler> {
    map[SIGCHLD := ReapChildren, SIGTERM := Quit(SIGTERM), SIGINT := Quit(SIGINT), SIGQUIT := Quit(SIGQUIT)]
  }

  /** SIGCHLD reaps; SIGTERM, SIGINT and SIGQUIT each forward themselves; nothing else is handled. */
  lemma SignalHandlersWiring()
    ensures SignalHandlers().Keys == {SIGCHLD, SIGTERM, SIGINT, SIGQUIT}
    ensures forall s :: s in SignalHandlers() ==> (SignalHandlers()[s] == ReapChildren <==> s == SIGCHLD)
    ensures forall s :: s in SignalHandlers() && SignalHandlers()[s].Quit? ==> SignalHandlers()[s].signal == s
  {
  }

  /** A non-empty set of pids has a member to visit next. */
  lemma NonEmptyHasMember(pids: set<int>)
    requires pids != {}
    ensures exists pid :: pid in pids
  {
    if forall pid :: pid !in pids {
      assert false;
    }
  }

  /** `sent` sends `signal` once to each pid of `pids` and to nothing else. */
  ghost predicate SignalsEachOnce(sent: seq<Signal>, pids: set<int>, signal: int) {
    && (forall k :: 0 <= k < |sent| ==> sent[k].signal == signal && sent[k].pid in pids)
    && (forall pid :: pid in pids ==> Signal(pid, signal) in sent)
    && (forall i, j :: 0 <= i < j < |sent| ==> sent[i].pid != sent[j].pid)
  }

  /** Part way through `destroy`: the pids `done` of `keys` were each signalled once by `sent`, the rest are `pending`. */
  ghost predicate SignalProgress(keys: set<int>, pending: set<int>, done: set<int>, sent: seq<Signal>, signal: int) {
    && done !! pending
    && done + pending == keys
    && SignalsEachOnce(sent, done, signal)
  }

  /** With nothing pending, every pid of `keys` was signalled once. */
  lemma SignalProgressDone(keys: set<int>, done: set<int>, sent: seq<Signal>, signal: int)
    requires SignalProgress(keys, {}, done, sent, signal)
    ensures SignalsEachOnce(sent, keys, signal)
  {
    assert done == keys;
  }

  /** Signalling one pending pid moves it to `done`. */
  lemma SignalProgressStep(keys: set<int>, pending: set<int>, done: set<int>, sent: seq<Signal>, signal: int, pid: int)
    requires SignalProgress(keys, pending, done, sent, signal) && pid in pending
    ensures SignalProgress(keys, pending - {pid}, done + {pid}, sent + [Signal(pid, signal)], signal)
  {
    var more := sent + [Signal(pid, signal)];
    forall p | p in done + {pid}
      ensures Signal(p, signal) in more
    {
      if p != pid {
        var k :| 0 <= k < |sent| && sent[k] == Signal(p, signal);
        assert more[k] == sent[k];
      } else {
        assert more[|sent|] == Signal(pid, signal);
      }
    }
  }

  /**
   * The supervisor's tables are consistent: they share their keys, each
   * handle wraps its own pid, promises are numbered below `next`, and every
   * promise is settled at most once.
   */
  ghost predicate Consistent(callbacks: map<int, nat>, runtimes: map<int, Runtime>, next: nat, settlements: seq<Settlement>) {
    && callbacks.Keys == runtimes.Keys
    && (forall pid :: pid in runtimes ==> runtimes[pid].pid == pid)
    && (forall pid :: pid in callbacks ==> callbacks[pid] < next)
    && (forall k :: 0 <= k < |settlements| ==> settlements[k].promise < next)
    && (forall p, q :: p in callbacks && q in callbacks && p != q ==> callbacks[p] != callbacks[q])
    && (forall pid, k :: pid in callbacks && 0 <= k < |settlements| ==> settlements[k].promise != callbacks[pid])
    && (forall i, j :: 0 <= i < j < |settlements| ==> settlements[i].promise != settlements[j].promise)
  }

  /** Settling a tracked pid's promise and dropping the pid keeps the tables consistent. */
  lemma SettleKeepsConsistent(callbacks: map<int, nat>, runtimes: map<int, Runtime>, next: nat, settlements: seq<Settlement>, pid: int, outcome: Outcome)
    requires Consistent(callbacks, runtimes, next, settlements)
    requires pid in callbacks
    ensures Consistent(callbacks - {pid}, runtimes - {pid}, next, settlements + [Settlement(pid, callbacks[pid], outcome)])
  {
    var ss := settlements + [Settlement(pid, callbacks[pid], outcome)];
    forall i, j | 0 <= i < j < |ss|
      ensures ss[i].promise != ss[j].promise
    {
      if j == |settlements| {
        assert ss[i] == settlements[i];
      } else {
        assert ss[i] == settlements[i] && ss[j] == settlements[j];
      }
    }
  }

  /**
   * Reaping `waits` from the tables `callbacks` and `runtimes`, after the
   * settlements `done`, ends with the tables and the settlements of `total`.
   */
  ghost predicate ReapsTo(callbacks: map<int, nat>, runtimes: map<int, Runtime>, waits: seq<WaitResult>, done: seq<Settlement>,
                          total: (map<int, nat>, map<int, Runtime>, seq<Settlement>)) {
    var r := Reaped(callbacks, runtimes, waits);
    r.0 == total.0 && r.1 == total.1 && total.2 == done + r.2
  }

  /** One step of the reap loop: a tracked, non-zero pid is settled and dropped, and the rest is reaped from the smaller tables. */
  lemma ReapsToStep(callbacks: map<int, nat>, runtimes: map<int, Runtime>, waits: seq<WaitResult>, done: seq<Settlement>,
                    total: (map<int, nat>, map<int, Runtime>, seq<Settlement>))
    requires ReapsTo(callbacks, runtimes, waits, done, total)
    requires waits != [] && waits[0].pid != 0 && waits[0].pid in callbacks
    ensures var pid := waits[0].pid;
      ReapsTo(callbacks - {pid}, runtimes - {pid}, waits[1..], done + [Settlement(pid, callbacks[pid], ExitOutcome(waits[0]))], total)
  {
  }

  /** The reap loop ends at pid 0 or at an untracked pid, with the tables and settlements of the whole call. */
  lemma ReapsToEnd(callbacks: map<int, nat>, runtimes: map<int, Runtime>, waits: seq<WaitResult>, done: seq<Settlement>,
                   total: (map<int, nat>, map<int, Runtime>, seq<Settlement>))
    requires ReapsTo(callbacks, runtimes, waits, done, total)
    requires waits != [] && (waits[0].pid == 0 || waits[0].pid !in callbacks)
    ensures callbacks == total.0 && runtimes == total.1 && total.2 == done
  {
  }

  /**
   * The supervisor. `promiseCallbacks` maps a pid to its pending promise,
   * `runtimes` a pid to its handle; `nextPromise` numbers promises as they
   * are created; `exited` records the final `exit`.
   */
  class Process {
    var promiseCallbacks: map<int, nat>
    var runtimes: map<int, Runtime>
    var nextPromise: nat
    var exited: bool
    const handlers: map<int, SignalHandler>
    ghost var settlements: seq<Settlement>
    ghost var signalsSent: seq<Signal>

    /** The tables share their keys, each handle wraps its own pid, and every promise is settled at most once. */
    ghost predicate Valid()
      reads this
    {
      Consistent(promiseCallbacks, runtimes, nextPromise, settlements)
    }

    /** Registers the SIGCHLD, SIGTERM, SIGINT and SIGQUIT handlers. */
    constructor ()
      ensures Valid()
      ensures promiseCallbacks == map[] && runtimes == map[] && nextPromise == 0 && !exited
      ensures handlers == SignalHandlers()
      ensures settlements == [] && signalsSent == []
    {
      promiseCallbacks := map[];
      runtimes := map[];
      nextPromise := 0;
      exited := false;
      handlers := SignalHandlers();
      settlements := [];
      signalsSent := [];
    }

    /**
     * The parent side of `task` after `pcntl_fork` returned `forkPid`: a new
     * promise and a handle are registered under that pid, whatever its value.
     */
    method Task(forkPid: int) returns (runtime: Runtime)
      requires Valid()
      modifies this
      ensures Valid()
      ensures runtime == Runtime(forkPid)
      ensures promiseCallbacks == old(promiseCallbacks)[forkPid := old(nextPromise)]
      ensures runtimes == old(runtimes)[forkPid := runtime]
      ensures nextPromise == old(nextPromise) + 1
      ensures settlements == old(settlements) && signalsSent == old(signalsSent) && exited == old(exited)
    {
      promiseCallbacks := promiseCallbacks[forkPid := nextPromise];
      runtime := Runtime(forkPid);
      runtimes := runtimes[forkPid := runtime];
      nextPromise := nextPromise + 1;
    }

    /** `signalSIGCHLDHandler`, fed the `pcntl_wait` results of one call, ending with the 0 that means no child is ready. */
    method SignalSIGCHLDHandler(waits: seq<WaitResult>)
      requires Valid()
      requires |waits| > 0 && waits[|waits| - 1].pid == 0
      modifies this`promiseCallbacks, this`runtimes, this`settlements
      ensures Valid()
      ensures var r := Reaped(old(promiseCallbacks), old(runtimes), waits);
        promiseCallbacks == r.0 && runtimes == r.1 && settlements == old(settlements) + r.2
    {
      ghost var total := Reaped(promiseCallbacks, runtimes, waits);
      ghost var done: seq<Settlement> := [];
      var i := 0;
      while waits[i].pid != 0
        invariant 0 <= i < |waits|
        invariant Valid()
        invariant ReapsTo(promiseCallbacks, runtimes, waits[i..], done, total)
        invariant settlements == old(settlements) + done
        decreases |waits| - i
      {
        var pid := waits[i].pid;
        assert waits[i..][0] == waits[i];
        if pid !in promiseCallbacks {
          ReapsToEnd(promiseCallbacks, runtimes, waits[i..], done, total);
          return;
        }
        var settled := Settlement(pid, promiseCallbacks[pid], ExitOutcome(waits[i]));
        ReapsToStep(promiseCallbacks, runtimes, waits[i..], done, total);
        assert waits[i..][1..] == waits[i + 1..];
        SettleKeepsConsistent(promiseCallbacks, runtimes, nextPromise, settlements, pid, settled.outcome);
        settlements := settlements + [settled];
        done := done + [settled];
        promiseCallbacks := promiseCallbacks - {pid};
        runtimes := runtimes - {pid};
        i := i + 1;
      }
      assert waits[i..][0] == waits[i];
      ReapsToEnd(promiseCallbacks, runtimes, waits[i..], done, total);
    }

    /** `destroy`: send `signal` through every handle still in the runtime table. */
    method Destroy(signal: int)
      requires forall pid :: pid in runtimes ==> runtimes[pid].pid == pid
      modifies this`signalsSent
      ensures |signalsSent| >= |old(signalsSent)| && signalsSent[..|old(signalsSent)|] == old(signalsSent)
      ensures SignalsEachOnce(signalsSent[|old(signalsSent)|..], runtimes.Keys, signal)
    {
      var table := runtimes;
      var pending := table.Keys;
      ghost var done: set<int> := {};
      ghost var sent: seq<Signal> := [];
      while pending != {}
        invariant SignalProgress(table.Keys, pending, done, sent, signal)
        invariant signalsSent == old(signalsSent) + sent
        decreases |pending|
      {
        // the order `foreach` visits the table in is not modelled
        NonEmptyHasMember(pending);
        var pid :| pid in pending;
        var runtime := table[pid];
        SignalProgressStep(table.Keys, pending, done, sent, signal, runtime.pid);
        AppendAssoc(old(signalsSent), sent, [Signal(runtime.pid, signal)]);
        signalsSent := signalsSent + [Signal(runtime.pid, signal)];
        sent := sent + [Signal(runtime.pid, signal)];
        done := done + {pid};
        pending := pending - {pid};
      }
      SignalProgressDone(table.Keys, done, sent, signal);
      assert signalsSent[|old(signalsSent)|..] == sent;
    }

    /** `onQuitSignal`: forward the signal to every tracked child, then exit. */
    method OnQuitSignal(signal: int)
      requires Valid()
      modifies this
      ensures Valid()
      ensures exited
      ensures |signalsSent| >= |old(signalsSent)| && signalsSent[..|old(signalsSent)|] == old(signalsSent)
      ensures SignalsEachOnce(signalsSent[|old(signalsSent)|..], old(runtimes).Keys, signal)
      ensures promiseCallbacks == old(promiseCallbacks) && runtimes == old(runtimes) && settlements == old(settlements)
      ensures nextPromise == old(nextPromise)
    {
      Destroy(signal);
      exited := true;
    }

    /** A delivered signal runs the handler the constructor registered for it; `waits` feeds the reap loop. */
    method OnSignal(signal: int, waits: seq<WaitResult>)
      requires Valid() && handlers == SignalHandlers() && signal in handlers
      requires |waits| > 0 && waits[|waits| - 1].pid == 0
      modifies this
      ensures Valid()
      ensures signal == SIGCHLD ==>
        var r := Reaped(old(promiseCallbacks), old(runtimes), waits);
        promiseCallbacks == r.0 && runtimes == r.1 && settlements == old(settlements) + r.2 && exited == old(exited)
      ensures signal == SIGCHLD ==> signalsSent == old(signalsSent) && nextPromise == old(nextPromise)
      ensures signal != SIGCHLD ==>
        && exited
        && |signalsSent| >= |old(signalsSent)|
        && signalsSent[..|old(signalsSent)|] == old(signalsSent)
        && SignalsEachOnce(signalsSent[|old(signalsSent)|..], old(runtimes).Keys, signal)
        && promiseCallbacks == old(promiseCallbacks) && runtimes == old(runtimes)
        && settlements == old(settlements) && nextPromise == old(nextPromise)
    {
      match handlers[signal]
      case ReapChildren =>
        SignalSIGCHLDHandler(waits);
      case Quit(s) =>
        OnQuitSignal(s);
    }
  }
}
