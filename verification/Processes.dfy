/** Child processes as the two supervisors see them: the system calls they make, the trace these leave,
    and the loop that waits for a child (POSIX branches of src/autoswitch/AutoSwitch.cpp and
    src/riecoin/Dispatch.cpp). */
module Processes {

  datatype Command = Command(exe: string, args: seq<string>)

  /** What happened to a process, and when (in milliseconds). */
  datatype Event =
    | Spawned(at: nat, pid: int, cmd: Command)
    | Signalled(at: nat, pid: int)
    | Reaped(at: nat, pid: int)

  datatype Process = Process(cmd: Command, since: nat)

  /** The processes not yet reaped, and whether every call so far made sense: a process is spawned only
      when there is no other one, and only an existing process is signalled or reaped. */
  datatype Table = Table(present: map<int, Process>, last: nat, ok: bool)

  function Apply(t: Table, e: Event): Table {
    var inOrder := t.ok && t.last <= e.at;
    match e
    case Spawned(at, pid, cmd) => Table(t.present[pid := Process(cmd, at)], at, inOrder && t.present == map[])
    case Signalled(at, pid) => Table(t.present, at, inOrder && pid in t.present)
    case Reaped(at, pid) => Table(t.present - {pid}, at, inOrder && pid in t.present)
  }

  function Replay(trace: seq<Event>): Table {
    if trace == [] then Table(map[], 0, true) else Apply(Replay(trace[..|trace| - 1]), trace[|trace| - 1])
  }

  lemma ReplayAppend(trace: seq<Event>, e: Event)
    ensures Replay(trace + [e]) == Apply(Replay(trace), e)
  {
    assert (trace + [e])[..|trace|] == trace;
  }

  // ---- traces that make sense ----

  lemma Singleton(m: map<int, Process>, x: int)
    requires x in m && |m| <= 1
    ensures m.Keys == {x} && m - {x} == map[]
  {
    assert |m.Keys - {x}| == |m.Keys| - 1;
    assert m.Keys == {x};
  }

  lemma {:induction false} PrefixIsOk(trace: seq<Event>, n: nat)
    requires Replay(trace).ok && n <= |trace|
    ensures Replay(trace[..n]).ok
    decreases |trace|
  {
    if n == |trace| {
      assert trace[..n] == trace;
    } else {
      PrefixIsOk(trace[..|trace| - 1], n);
      assert trace[..|trace| - 1][..n] == trace[..n];
    }
  }

  lemma {:induction false} AtMostOne(trace: seq<Event>)
    requires Replay(trace).ok
    ensures |Replay(trace).present| <= 1
    decreases |trace|
  {
    if trace != [] {
      AtMostOne(trace[..|trace| - 1]);
      StaysAlone(Replay(trace[..|trace| - 1]), trace[|trace| - 1]);
    }
  }

  lemma OkPrefix(trace: seq<Event>, n: nat)
    requires Replay(trace).ok && n <= |trace|
    ensures Replay(trace[..n]).ok && |Replay(trace[..n]).present| <= 1
  {
    PrefixIsOk(trace, n);
    AtMostOne(trace[..n]);
  }

  lemma StaysAlone(t: Table, e: Event)
    requires |t.present| <= 1 && Apply(t, e).ok
    ensures |Apply(t, e).present| <= 1
  {
    match e
    case Spawned(at, pid, cmd) => assert t.present[pid := Process(cmd, at)].Keys == {pid};
    case Signalled(_, _) =>
    case Reaped(_, pid) => Singleton(t.present, pid);
  }

  /** At every point of a trace that makes sense at most one process exists, a process is spawned only
      when there is none, and a signal or a reaping reaches only the process that exists. */
  lemma SensibleTrace(trace: seq<Event>, n: nat)
    requires Replay(trace).ok && n < |trace|
    ensures var before := Replay(trace[..n]).present;
            && |before| <= 1
            && (trace[n].Spawned? ==> before == map[])
            && (trace[n].Signalled? || trace[n].Reaped? ==> before.Keys == {trace[n].pid})
  {
    OkPrefix(trace, n + 1);
    OkPrefix(trace, n);
    assert trace[..n + 1][..n] == trace[..n];
    if !trace[n].Spawned? {
      Singleton(Replay(trace[..n]).present, trace[n].pid);
    }
  }

  /** How often a process number was given out. */
  function Spawns(trace: seq<Event>, pid: int): nat {
    if trace == [] then 0
    else
      var e := trace[|trace| - 1];
      Spawns(trace[..|trace| - 1], pid) + (if e.Spawned? && e.pid == pid then 1 else 0)
  }

  /** How often it was reaped. */
  function Reaps(trace: seq<Event>, pid: int): nat {
    if trace == [] then 0
    else
      var e := trace[|trace| - 1];
      Reaps(trace[..|trace| - 1], pid) + (if e.Reaped? && e.pid == pid then 1 else 0)
  }

  /** A process is reaped exactly once for each time it was spawned, except that it may still be there. */
  lemma {:induction false} ReapedOncePerSpawn(trace: seq<Event>, pid: int)
    requires Replay(trace).ok
    ensures Spawns(trace, pid) == Reaps(trace, pid) + (if pid in Replay(trace).present then 1 else 0)
    decreases |trace|
  {
    if trace != [] {
      var n := |trace| - 1;
      OkPrefix(trace, n);
      ReapedOncePerSpawn(trace[..n], pid);
    }
  }

  /** How long a process of this command has existed that is reaped now. */
  function Gain(t: Table, e: Event, cmd: Command): int {
    if e.Reaped? && e.pid in t.present && t.present[e.pid].cmd == cmd then e.at - t.present[e.pid].since else 0
  }

  /** How long the processes of one command have existed, counted when they are reaped. */
  function Spent(trace: seq<Event>, cmd: Command): int {
    if trace == [] then 0
    else
      var before := trace[..|trace| - 1];
      Spent(before, cmd) + Gain(Replay(before), trace[|trace| - 1], cmd)
  }

  function Started(e: Event, cmd: Command): nat {
    if e.Spawned? && e.cmd == cmd then 1 else 0
  }

  /** How often a command was started. */
  function Starts(trace: seq<Event>, cmd: Command): nat {
    if trace == [] then 0 else Starts(trace[..|trace| - 1], cmd) + Started(trace[|trace| - 1], cmd)
  }

  /** The time of `n` spans of this length. */
  function Total(length: nat, n: nat): nat {
    if n == 0 then 0 else Total(length, n - 1) + length
  }

  lemma {:induction false} TotalIsProduct(length: nat, n: nat)
    ensures Total(length, n) == length * n
  {
    if n > 0 {
      TotalIsProduct(length, n - 1);
      assert length * n == length * (n - 1) + length;
    }
  }

  lemma {:induction false} TotalGrows(length: nat, m: nat, n: nat)
    requires m <= n
    ensures Total(length, m) <= Total(length, n)
    decreases n - m
  {
    if m < n {
      TotalGrows(length, m + 1, n);
    }
  }

  // ---- the operating system ----

  datatype Child = Child(pid: int, running: bool)

  const NO_CHILD: Child := Child(-1, false)

  /** The child is the only process, if it runs at all, and was started with this command. */
  ghost predicate Runs(present: map<int, Process>, c: Child, cmd: Command) {
    && present.Keys == (if c.running then {c.pid} else {})
    && (c.running ==> c.pid > 0 && present[c.pid].cmd == cmd)
  }

  /** Time never runs backwards; the shutdown flag, once up, stays up; when a process ends is not known
      in advance. `jitter` bounds by how much a sleep or a kill overshoots. */
  class Os {
    const jitter: nat
    var now: nat
    var down: bool
    var present: map<int, Process>
    ghost var trace: seq<Event>
    ghost var refused: nat   // how often a process could not be started
    ghost var polls: nat     // how often a process was looked at

    ghost predicate Valid()
      reads this
    {
      Replay(trace).present == present && Replay(trace).last <= now
    }

    /** Every call so far made sense. */
    ghost predicate Sane()
      reads this
    {
      Valid() && Replay(trace).ok
    }

    method Fork(cmd: Command) returns (ok: bool, pid: int)
      requires Valid()
      modifies this`present, this`trace, this`refused
      ensures Valid()
      ensures ok ==> pid > 0 && pid !in old(present) && trace == old(trace) + [Spawned(now, pid, cmd)] && refused == old(refused)
      ensures !ok ==> trace == old(trace) && refused == old(refused) + 1
    {
      ok := *;
      pid := *;
      if !(pid > 0 && pid !in present) {
        ok := false;
      }
      if !ok {
        refused := refused + 1;
      } else {
        ReplayAppend(trace, Spawned(now, pid, cmd));
        present := present[pid := Process(cmd, now)];
        trace := trace + [Spawned(now, pid, cmd)];
      }
    }

    method Kill(pid: int)
      requires Valid()
      modifies this`trace
      ensures Valid() && trace == old(trace) + [Signalled(now, pid)]
    {
      ReplayAppend(trace, Signalled(now, pid));
      trace := trace + [Signalled(now, pid)];
    }

    /** `waitpid` with `WNOHANG`: true when the process has ended, which reaps it. */
    method WaitNoHang(pid: int) returns (ended: bool)
      requires Valid()
      modifies this`present, this`trace, this`polls
      ensures Valid() && polls == old(polls) + 1
      ensures ended ==> pid in old(present) && trace == old(trace) + [Reaped(now, pid)]
      ensures !ended ==> trace == old(trace)
    {
      polls := polls + 1;
      ended := *;
      ended := ended && pid in present;
      if ended {
        ReplayAppend(trace, Reaped(now, pid));
        present := present - {pid};
        trace := trace + [Reaped(now, pid)];
      }
    }

    /** `waitpid` for a process that was killed: it ends and is reaped. */
    method WaitKilled(pid: int)
      requires Valid() && pid in present
      modifies this`present, this`trace, this`now
      ensures Valid() && trace == old(trace) + [Reaped(now, pid)]
      ensures old(now) <= now <= old(now) + jitter
    {
      Pass(0);
      ReplayAppend(trace, Reaped(now, pid));
      present := present - {pid};
      trace := trace + [Reaped(now, pid)];
    }

    /** Time passes: at least `ms`, at most `jitter` more. */
    method Pass(ms: nat)
      modifies this`now
      ensures old(now) + ms <= now <= old(now) + ms + jitter
    {
      var more: int := *;
      if !(0 <= more <= jitter) {
        more := 0;
      }
      now := now + ms + more;
    }

    method ShuttingDown() returns (b: bool)
      modifies this`down
      ensures b == down && (old(down) ==> down)
    {
      var signal: bool := *;
      down := down || signal;
      b := down;
    }
  }

  method StartProcess(os: Os, cmd: Command) returns (ok: bool, c: Child)
    requires os.Sane() && os.present == map[]
    modifies os`present, os`trace, os`refused
    ensures os.Sane() && ok == c.running && Runs(os.present, c, cmd)
    ensures os.refused == old(os.refused) + if ok then 0 else 1
    ensures os.trace == old(os.trace) + (if ok then [Spawned(os.now, c.pid, cmd)] else [])
  {
    c := NO_CHILD;
    var pid;
    ok, pid := os.Fork(cmd);
    if ok {
      c := Child(pid, true);
      ReplayAppend(old(os.trace), Spawned(os.now, pid, cmd));
    } else {
      assert os.present == map[];
    }
  }

  /** `waitChild` and `runFor`: poll until the child ends by itself, the time is up or a shutdown is asked
      for. A wait that ends for lack of time has lasted at least `ms`, and overshoots by less than one
      poll step; a shutdown that ended it is still up afterwards. */
  method WaitChild(os: Os, cp: Child, ms: nat) returns (cp': Child, exited: bool)
    requires os.Sane() && cp.running && os.present.Keys == {cp.pid}
    modifies os
    ensures os.Sane() && cp' == cp.(running := !exited)
    ensures os.present == if exited then map[] else old(os.present)
    ensures os.trace == old(os.trace) + (if exited then [Reaped(os.now, cp.pid)] else [])
    ensures os.now >= old(os.now) && (os.now == old(os.now) || os.now < old(os.now) + ms + 100 + os.jitter)
    ensures !exited ==> os.now >= old(os.now) + ms || os.down
    ensures (old(os.down) ==> os.down) && os.refused == old(os.refused) && os.polls > old(os.polls)
  {
    var start := os.now;
    cp' := cp;
    while true
      invariant os.Sane() && os.present == old(os.present) && os.trace == old(os.trace) && cp' == cp
      invariant os.now >= start && (os.now == start || os.now < start + ms + 100 + os.jitter)
      invariant (old(os.down) ==> os.down) && os.refused == old(os.refused) && os.polls >= old(os.polls)
      decreases start + ms - os.now
    {
      var ended := os.WaitNoHang(cp.pid);
      if ended {
        ReplayAppend(old(os.trace), Reaped(os.now, cp.pid));
        assert os.present == map[];
        return cp.(running := false), true;
      }
      var elapsed := os.now - start;
      var down := os.ShuttingDown();
      if down || elapsed >= ms {
        return cp', false;
      }
      os.Pass(100);
    }
  }

  /** A running child was asked to end at `t` and reaped at the end; it was killed only when it had not
      ended `grace` ms after it was asked. */
  ghost predicate Stopped(before: seq<Event>, after: seq<Event>, pid: int, t: nat, end: nat, grace: nat) {
    || after == before + [Signalled(t, pid)] + [Reaped(end, pid)]
    || exists k: nat | k >= t + grace :: after == before + [Signalled(t, pid)] + [Signalled(k, pid)] + [Reaped(end, pid)]
  }

  /** A child was started with this command at `at` and has ended at `end`: by itself, or stopped at `t`,
      which is no earlier than `ms` after its start, or a shutdown. */
  ghost predicate Ended(before: seq<Event>, after: seq<Event>, cmd: Command, ms: nat, grace: nat, down: bool,
                        at: nat, pid: int, t: nat, end: nat) {
    var started := before + [Spawned(at, pid, cmd)];
    || after == started + [Reaped(end, pid)]
    || (Stopped(started, after, pid, t, end, grace) && (t >= at + ms || down))
  }

  ghost predicate RanAndEnded(before: seq<Event>, after: seq<Event>, cmd: Command, ms: nat, grace: nat, down: bool) {
    exists at: nat, pid: int, t: nat, end: nat :: Ended(before, after, cmd, ms, grace, down, at, pid, t, end)
  }

  lemma StartsAppend(trace: seq<Event>, e: Event, cmd: Command)
    ensures Starts(trace + [e], cmd) == Starts(trace, cmd) + Started(e, cmd)
  {
    assert (trace + [e])[..|trace|] == trace;
  }

  /** Which counts as one start of the command, and as no start of another. */
  lemma RanIsOneStart(before: seq<Event>, after: seq<Event>, cmd: Command, ms: nat, grace: nat, down: bool, other: Command)
    requires RanAndEnded(before, after, cmd, ms, grace, down)
    ensures Starts(after, other) == Starts(before, other) + if cmd == other then 1 else 0
  {
    var at: nat, pid: int, t: nat, end: nat :| Ended(before, after, cmd, ms, grace, down, at, pid, t, end);
    var started := before + [Spawned(at, pid, cmd)];
    StartsAppend(before, Spawned(at, pid, cmd), other);
    if after == started + [Reaped(end, pid)] {
      StartsAppend(started, Reaped(end, pid), other);
    } else {
      StoppingStartsNothing(started, after, pid, t, end, grace, other);
    }
  }

  lemma StoppingStartsNothing(before: seq<Event>, after: seq<Event>, pid: int, t: nat, end: nat, grace: nat, cmd: Command)
    requires Stopped(before, after, pid, t, end, grace)
    ensures Starts(after, cmd) == Starts(before, cmd)
  {
    var asked := before + [Signalled(t, pid)];
    StartsAppend(before, Signalled(t, pid), cmd);
    if after == before + [Signalled(t, pid)] + [Reaped(end, pid)] {
      StartsAppend(asked, Reaped(end, pid), cmd);
    } else {
      var k: nat :| k >= t + grace && after == before + [Signalled(t, pid)] + [Signalled(k, pid)] + [Reaped(end, pid)];
      StartsAppend(asked, Signalled(k, pid), cmd);
      StartsAppend(asked + [Signalled(k, pid)], Reaped(end, pid), cmd);
    }
  }

  /** The end of `stopChild` and `stopProcess`, when asking was not enough. */
  method KillChild(os: Os, pid: int)
    requires os.Sane() && os.present.Keys == {pid}
    modifies os
    ensures os.Sane() && os.present == map[] && os.down == old(os.down) && os.refused == old(os.refused)
    ensures old(os.now) <= os.now <= old(os.now) + os.jitter
    ensures os.trace == old(os.trace) + [Signalled(old(os.now), pid)] + [Reaped(os.now, pid)]
  {
    os.Kill(pid);
    ReplayAppend(old(os.trace), Signalled(os.now, pid));
    ghost var before := os.trace;
    os.WaitKilled(pid);
    ReplayAppend(before, Reaped(os.now, pid));
    assert os.present == map[];
  }
}
