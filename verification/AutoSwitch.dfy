/** The supervisor of the automatic mode (`maybeAuto` in src/autoswitch/AutoSwitch.cpp): it keeps one
    mining child on the route that the account service asks for, replaces it by a fee child when a fee
    round is due, and keeps the due time in a state file between program starts. */
module AutoSwitch {
  import opened Basics
  import opened Processes
  import opened FeeSchedule
  import AutoArgs

  datatype Route = Route(coin: string, algo: string, host: string, port: int, user: string, pass: string, tls: bool)

  /** The source's comparison: the coin's name and the password are not looked at. */
  predicate Same(a: Route, b: Route) {
    a.algo == b.algo && a.host == b.host && a.port == b.port && a.user == b.user && a.tls == b.tls
  }

  /** The two routes lead to the same work: they differ in the coin's name and the password at most. */
  ghost predicate Agree(a: Route, b: Route) {
    a == b.(coin := a.coin, pass := a.pass)
  }

  const DONATE_MS: nat := 60000
  const RETRY_S: nat := 30
  const FAILING_REFRESH_S: nat := 30
  const STOP_POLLS: nat := 100
  const STOP_GRACE: nat := 5000

  /** `stopChild`: ask the child to end, look for its end 100 times, 50 ms apart, then kill it. */
  method StopChild(os: Os, cp: Child) returns (cp': Child)
    requires os.Sane() && os.present.Keys == (if cp.running then {cp.pid} else {}) && (cp.running ==> cp.pid > 0)
    modifies os
    ensures os.Sane() && os.present == map[] && cp' == cp.(running := false)
    ensures os.down == old(os.down) && os.refused == old(os.refused)
    ensures old(os.now) <= os.now <= old(os.now) + STOP_POLLS * (50 + os.jitter) + os.jitter
    ensures !cp.running ==> os.trace == old(os.trace) && os.now == old(os.now)
    ensures cp.running ==> Stopped(old(os.trace), os.trace, cp.pid, old(os.now), os.now, 5000)
  {
    cp' := cp.(running := false);
    if !cp.running || cp.pid <= 0 {
      assert os.present == map[];
      return;
    }
    os.Kill(cp.pid);
    ghost var asked := os.trace;
    ReplayAppend(old(os.trace), asked[|asked| - 1]);
    var ended := PollForEnd(os, cp.pid, STOP_POLLS);
    if ended {
      assert os.trace == old(os.trace) + [Signalled(old(os.now), cp.pid)] + [Reaped(os.now, cp.pid)];
    } else {
      ghost var k := os.now;
      KillChild(os, cp.pid);
      assert os.trace == old(os.trace) + [Signalled(old(os.now), cp.pid)] + [Signalled(k, cp.pid)] + [Reaped(os.now, cp.pid)];
    }
  }

  /** The polling loop of `stopChild`. */
  method PollForEnd(os: Os, pid: int, polls: nat) returns (ended: bool)
    requires os.Sane() && os.present.Keys == {pid}
    modifies os
    ensures os.Sane() && os.down == old(os.down) && os.refused == old(os.refused)
    ensures os.present == if ended then map[] else old(os.present)
    ensures os.trace == old(os.trace) + if ended then [Reaped(os.now, pid)] else []
    ensures old(os.now) <= os.now <= old(os.now) + (50 + os.jitter) * polls
    ensures !ended ==> os.now >= old(os.now) + 50 * polls
  {
    ghost var step := 50 + os.jitter;
    TotalIsProduct(step, polls);
    for i := 0 to polls
      invariant os.Sane() && os.present == old(os.present) && os.trace == old(os.trace) && os.down == old(os.down) && os.refused == old(os.refused)
      invariant old(os.now) + 50 * i <= os.now <= old(os.now) + Total(step, i)
    {
      TotalGrows(step, i, polls);
      ended := os.WaitNoHang(pid);
      if ended {
        ReplayAppend(old(os.trace), Reaped(os.now, pid));
        assert os.present == map[];
        return;
      }
      os.Pass(50);
    }
    ended := false;
  }

  /** How the state file behaves: whether it can be read, whether it can be written, and what a failing write
      leaves behind. */
  datatype Disk = Disk(readable: bool, works: bool, debris: Option<int>)

  predicate Fine(disk: Disk) {
    disk.readable && disk.works
  }

  /** The due time of the next fee round, the state file that keeps it, and the log of what was decided. */
  class FeeClock {
    var due: int
    var file: Option<int>
    ghost var log: seq<Entry>
    ghost var missed: bool   // a save left another number in the state file
    ghost var lost: bool     // the state file was empty, or could not be read or written

    /** The schedule has been kept up to the second `now`, and the state file agrees with it unless
        something failed. */
    ghost predicate Valid(now: int)
      reads this
    {
      var c := Watch(log);
      && c.ok && c.at <= now
      && (!missed ==> FileIsKeptOrLost(log) && (file.Some? ==> file == c.due))
      && (!missed && !lost ==> FileIsKept(log) && file == c.due)
    }

    /** What went wrong with the state file stays on record, and nothing goes wrong with one that is fine. */
    twostate predicate Recorded(fine: bool)
      reads this
    {
      (old(missed) ==> missed) && (old(lost) ==> lost) && (fine ==> missed == old(missed) && lost == old(lost))
    }

    /** The program has started, and no round is owed. */
    ghost predicate Settled()
      reads this
    {
      Watch(log).due == Some(due) && !Watch(log).owed
    }

    constructor ()
      ensures Valid(0) && !missed && !lost && log == []
    {
      due, file := 0, None;
      log, missed, lost := [], false, false;
    }

    ghost method Log(e: Entry)
      modifies this`log
      ensures log == old(log) + [e] && Watch(log) == Observe(old(Watch(log)), e)
      ensures var d := Watch(old(log)).due;
              && ((e.Boot? && d.Some? && e.loaded != d) || FileIsKept(log) == old(FileIsKept(log)))
              && ((e.Boot? && d.Some? && e.loaded != d && e.loaded != None) || FileIsKeptOrLost(log) == old(FileIsKeptOrLost(log)))
    {
      WatchAppend(log, e);
      assert (log + [e])[..|log|] == log;
      log := log + [e];
    }

    /** Reading can fail, or find no number. */
    method LoadDue(disk: Disk) returns (r: Option<int>)
      modifies this`lost
      ensures r == if disk.readable then file else None
      ensures lost == (old(lost) || !disk.readable)
    {
      if !disk.readable {
        lost := true;
        return None;
      }
      return file;
    }

    /** Writing can fail and leave anything behind. */
    method SaveDue(disk: Disk)
      modifies this`file, this`missed, this`lost
      ensures file == if disk.works then Some(due) else disk.debris
      ensures missed == (old(missed) || (file.Some? && file != Some(due)))
      ensures lost == (old(lost) || file == None)
    {
      file := if disk.works then Some(due) else disk.debris;
      missed := missed || (file.Some? && file != Some(due));
      lost := lost || file == None;
    }

    /** A random wait of whole seconds in a range. */
    method RandomWait(lo: nat, hi: nat) returns (s: nat)
      requires lo <= hi
      ensures lo <= s <= hi
    {
      s := *;
      if !(lo <= s <= hi) {
        s := lo;
      }
    }

    /** The start of the program: the due time comes from the state file, or is drawn anew and saved. */
    method Start(now: int, disk: Disk)
      requires Valid(now)
      modifies this
      ensures Valid(now) && Settled()
      ensures var loaded := if disk.readable then old(file) else None;
              && log == old(log) + [Boot(now, loaded, due)]
              && (if loaded.Some? then due == loaded.value && file == old(file)
                  else now + 2970 <= due <= now + 8910 && file == if disk.works then Some(due) else disk.debris)
      ensures Recorded(Fine(disk))
    {
      var loaded := LoadDue(disk);
      if loaded.Some? {
        due := loaded.value;
      } else {
        var wait := RandomWait(FIRST_MIN, FIRST_MAX);
        due := now + wait;
      }
      Log(Boot(now, loaded, due));
      if loaded.None? {
        SaveDue(disk);
      }
    }

    /** The test at the head of the loop. */
    method Look(now: int) returns (owed: bool)
      requires Valid(now) && Settled()
      modifies this`log
      ensures Valid(now) && owed == (now >= due) && log == old(log) + [Pass(now)]
      ensures if owed then Owing(now) else Settled()
    {
      Log(Pass(now));
      owed := now >= due;
    }

    /** A round is due, seen at `start`. */
    ghost predicate Owing(start: int)
      reads this
    {
      Watch(log).due == Some(due) && Watch(log).owed && Watch(log).at == start
    }

    /** After a round: the next due time is drawn and saved. */
    method Reschedule(ghost start: int, now: int, disk: Disk)
      requires Valid(now) && Owing(start)
      modifies this
      ensures Valid(now) && Settled() && log == old(log) + [Round(start, now, due)]
      ensures now + 4752 <= due <= now + 7128 && file == if disk.works then Some(due) else disk.debris
      ensures Recorded(Fine(disk))
    {
      var wait := RandomWait(NEXT_MIN, NEXT_MAX);
      due := now + wait;
      Log(Round(start, now, due));
      SaveDue(disk);
    }

    ghost method TouchRoute(now: int)
      requires Valid(now) && Settled()
      modifies this`log
      ensures Valid(now) && Settled() && log == old(log) + [Touch(now)]
    {
      Log(Touch(now));
    }

    /** Fee rounds are far enough apart, whatever happened to the state file short of a wrong number. */
    lemma RoundsApart(now: int)
      requires Valid(now)
      ensures !missed && !lost ==> Spaced(Rounds(log), 4752)
      ensures !missed ==> Spaced(Rounds(log), 2970)
    {
      if !missed {
        FeeRoundsWithLostFile(log);
        if !lost {
          FeeRoundsAreSpaced(log);
        }
      }
    }
  }

  /** What a pass meets outside: the fee route at hand, the route server's answer, if it can be reached and its
      signature holds, whether the child's pool connection is failing, and the state file. */
  datatype World = World(fee: Option<Route>, answer: Option<Route>, failing: bool, disk: Disk)

  /** One program run: the state file it starts with, and what its passes meet. */
  datatype Session = Session(disk: Disk, worlds: seq<World>)

  predicate AllFine(worlds: seq<World>) {
    forall w :: w in worlds ==> Fine(w.disk)
  }

  /** A command line that begins with the pool and the login of a route. */
  ghost predicate LeadsTo(args: seq<string>, r: Route, pass: string, decimal: int -> string) {
    && |args| >= 11
    && args[0] == "-a" && args[1] == r.algo
    && args[2] == "-o" && args[3] == r.host + ":" + decimal(r.port)
    && args[4] == "-u" && args[5] == r.user
    && args[6] == "-p" && args[7] == pass
    && args[8] == "-k" && args[9] == "--donate-level" && args[10] == "0"
    && (r.tls ==> "--tls" in args[11..])
  }

  class Supervisor {
    const os: Os
    const fees: FeeClock
    const self: string
    const api: string
    const passed: seq<string>
    const refresh: nat
    const decimal: int -> string

    var child: Child
    var current: Route
    var haveCurrent: bool

    function CommandFor(r: Route, passed: seq<string>): Command {
      var onLine := AutoArgs.Route(r.algo, r.host + ":" + decimal(r.port), r.user, r.pass, r.tls);
      Command(self, AutoArgs.ChildArgs(onLine, passed, api))
    }

    /** The command line leads to the route, with its password, and hands on the arguments passed. */
    lemma CommandLeads(r: Route, passed: seq<string>)
      ensures var cmd := CommandFor(r, passed);
              && cmd.exe == self && LeadsTo(cmd.args, r, r.pass, decimal)
              && cmd.args[11..] == (if r.tls then ["--tls"] else []) + passed + ["--http-host=127.0.0.1", "--http-port=" + api]
    {
      var onLine := AutoArgs.Route(r.algo, r.host + ":" + decimal(r.port), r.user, r.pass, r.tls);
      AutoArgs.ArgsInOrder(onLine, passed, api);
    }

    /** Two routes that agree lead to the same place, up to the password. */
    lemma AgreeingLeads(cmd: Command, a: Route, b: Route)
      requires cmd == CommandFor(a, passed) && Agree(a, b)
      ensures cmd.exe == self && LeadsTo(cmd.args, b, a.pass, decimal)
    {
      CommandLeads(a, passed);
    }

    /** A process with this command was started between the two. */
    static ghost predicate StartedAnew(before: seq<Event>, after: seq<Event>, cmd: Command) {
      exists n :: |before| <= n < |after| && after[n].Spawned? && after[n].cmd == cmd
    }

    /** The clock in whole seconds. */
    function Seconds(): (s: int)
      reads os
    {
      os.now / 1000
    }

    /** The only process is the child, if it runs, and it was started with the current route. */
    ghost predicate Minding()
      reads this, os
    {
      os.Sane() && haveCurrent == child.running && Runs(os.present, child, CommandFor(current, passed))
    }

    /** What holds whenever the loop begins a pass. */
    ghost predicate AtHead()
      reads this, os, fees
    {
      Minding() && fees.Valid(Seconds()) && fees.Settled()
    }

    /** The state between two program starts: no process is left. */
    ghost predicate AtRest()
      reads os, fees
    {
      os.Sane() && os.present == map[] && fees.Valid(Seconds())
    }

    constructor (os: Os, self: string, api: string, passed: seq<string>, refresh: nat, decimal: int -> string)
      requires os.Sane() && os.present == map[]
      ensures this.os == os && this.passed == passed && fresh(fees) && AtRest()
      ensures !fees.missed && !fees.lost && fees.log == []
    {
      this.os, this.self, this.api, this.passed, this.refresh, this.decimal := os, self, api, passed, refresh, decimal;
      fees := new FeeClock();
      child, haveCurrent := NO_CHILD, false;
    }

    /** The fee child: it runs for a minute, or until it ends or a shutdown is asked for, and is gone. */
    method RunFeeChild(fee: Route) returns (ok: bool)
      requires os.Sane() && os.present == map[]
      modifies os
      ensures os.Sane() && os.present == map[]
      ensures os.now >= old(os.now) && (old(os.down) ==> os.down)
      ensures os.now <= old(os.now) + DONATE_MS + 100 + os.jitter + STOP_POLLS * (50 + os.jitter) + os.jitter
      ensures os.refused == old(os.refused) + if ok then 0 else 1
      ensures if ok then RanAndEnded(old(os.trace), os.trace, CommandFor(fee, []), 60000, 5000, os.down)
              else os.trace == old(os.trace)
    {
      var feeChild;
      ok, feeChild := StartProcess(os, CommandFor(fee, []));
      if ok {
        ghost var at, started := os.now, os.trace;
        var exited;
        feeChild, exited := WaitChild(os, feeChild, DONATE_MS);
        ghost var t := os.now;
        feeChild := StopChild(os, feeChild);
        assert started == old(os.trace) + [Spawned(at, feeChild.pid, CommandFor(fee, []))];
        assert Ended(old(os.trace), os.trace, CommandFor(fee, []), DONATE_MS, STOP_GRACE, os.down, at, feeChild.pid, t, os.now);
      } else {
        assert os.present == map[];
      }
    }

    /** The fee round: the mining child gives way to a fee child, and the next round is scheduled. With no
        fee route there is only the latter. */
    method FeeRound(ghost start: int, fee: Option<Route>, disk: Disk) returns (ok: bool, ghost stopped: seq<Event>)
      requires Minding() && fees.Valid(Seconds()) && fees.Owing(start)
      modifies this`child, this`haveCurrent, fees, os
      ensures AtHead()
      ensures fee.None? ==> child == old(child) && os.trace == old(os.trace)
      ensures fee.Some? ==>
                && !child.running
                && (if old(child.running)
                    then exists end: nat :: Stopped(old(os.trace), stopped, old(child.pid), old(os.now), end, 5000)
                    else stopped == old(os.trace))
                && os.refused == old(os.refused) + (if ok then 0 else 1)
                && (if ok then RanAndEnded(stopped, os.trace, CommandFor(fee.value, []), 60000, 5000, os.down)
                    else os.trace == stopped)
      ensures fees.log == old(fees.log) + [Round(start, Seconds(), fees.due)]
      ensures os.now >= old(os.now) && (old(os.down) ==> os.down) && os.refused >= old(os.refused)
      ensures fees.Recorded(Fine(disk))
    {
      ok, stopped := false, os.trace;
      if fee.Some? {
        if child.running {
          child := StopChild(os, child);
          haveCurrent := false;
        }
        assert os.present == map[];
        stopped := os.trace;
        ok := RunFeeChild(fee.value);
      }
      fees.Reschedule(start, Seconds(), disk);
    }

    // ---- the loop ----

    /** `sleepInterruptible`. */
    method Sleep(seconds: nat)
      modifies os`now, os`down
      ensures os.now >= old(os.now) && (old(os.down) ==> os.down)
      ensures os.now >= old(os.now) + seconds * 1000 || os.down
    {
      var i := 0;
      while i < seconds * 10
        invariant 0 <= i <= seconds * 10
        invariant os.now >= old(os.now) + i * 100 && (old(os.down) ==> os.down)
      {
        var down := os.ShuttingDown();
        if down {
          return;
        }
        os.Pass(100);
        i := i + 1;
      }
    }

    /** Any amount of time passes. */
    method Elapse()
      requires os.Valid()
      modifies os`now
      ensures os.Valid() && os.now >= old(os.now)
    {
      var ms: int := *;
      if ms >= 0 {
        os.Pass(ms);
      }
    }

    /** The shortest time between two questions to the route server. */
    function Pace(): (s: nat)
      ensures s == if refresh < 30 then refresh else 30
    {
      if RETRY_S <= refresh then RETRY_S else refresh
    }

    /** The supervisor did not interrupt the child: if anything happened to it, it ended by itself. */
    static ghost predicate LeftAlone(before: seq<Event>, after: seq<Event>, pid: int) {
      after == before || (|after| > |before| && after[..|before|] == before && after[|before|].Reaped? && after[|before|].pid == pid)
    }

    /** Start a child on route `next`. */
    method StartOn(next: Route) returns (failed: bool)
      requires AtRest() && fees.Settled()
      modifies this`child, this`current, this`haveCurrent, fees`log, os`present, os`trace, os`refused
      ensures if failed then AtRest() && current == old(current) && os.refused == old(os.refused) + 1
              else AtHead() && child.running && current == next && os.refused == old(os.refused)
      ensures old(fees.log) <= fees.log
      ensures os.trace == old(os.trace) + if failed then [] else [Spawned(os.now, child.pid, CommandFor(next, passed))]
    {
      fees.TouchRoute(Seconds());
      var ok;
      ok, child := StartProcess(os, CommandFor(next, passed));
      if !ok {
        assert os.present == map[];
        return true;
      }
      current := next;
      haveCurrent := true;
      return false;
    }

    static lemma LastIsNew(before: seq<Event>, middle: seq<Event>, after: seq<Event>, at: nat, pid: int, cmd: Command)
      requires before <= middle && after == middle + [Spawned(at, pid, cmd)]
      ensures before <= after && StartedAnew(before, after, cmd)
    {
      assert after[|middle|] == Spawned(at, pid, cmd);
    }

    /** Stop the child, if there is one, and start another on route `next`. */
    method Restart(next: Route) returns (failed: bool)
      requires AtHead()
      modifies this`child, this`current, this`haveCurrent, fees`log, os
      ensures if failed then AtRest() && current == old(current) && os.refused == old(os.refused) + 1
              else AtHead() && child.running && current == next && os.refused == old(os.refused)
                   && StartedAnew(old(os.trace), os.trace, CommandFor(next, passed))
      ensures os.now >= old(os.now) && os.down == old(os.down)
      ensures old(fees.log) <= fees.log && old(os.trace) <= os.trace
    {
      if child.running {
        child := StopChild(os, child);
      }
      assert os.present == map[];
      ghost var middle := os.trace;
      failed := StartOn(next);
      if !failed {
        LastIsNew(old(os.trace), middle, os.trace, os.now, child.pid, CommandFor(next, passed));
      }
    }

    /** Put the child on route `next`, if it is not there already. */
    method Replace(next: Route) returns (failed: bool)
      requires AtHead()
      modifies this`child, this`current, this`haveCurrent, fees`log, os
      ensures if failed then AtRest() && current == old(current) && os.refused == old(os.refused) + 1
              else AtHead() && child.running && Agree(current, next) && os.refused == old(os.refused)
      ensures if old(child.running) && Agree(next, old(current))
              then !failed && child == old(child) && current == old(current) && os.trace == old(os.trace)
              else failed || (current == next && StartedAnew(old(os.trace), os.trace, CommandFor(next, passed)))
      ensures os.now >= old(os.now) && os.down == old(os.down)
      ensures old(fees.log) <= fees.log && old(os.trace) <= os.trace
    {
      failed := false;
      if !haveCurrent || !Same(next, current) || !child.running {
        failed := Restart(next);
      }
    }

    /** Look after the child until it is time to ask for the route again. */
    method WatchOver(failing: bool)
      requires AtHead() && child.running
      modifies this`child, this`haveCurrent, os
      ensures AtHead()
      ensures os.now >= old(os.now) && (old(os.down) ==> os.down)
      ensures LeftAlone(old(os.trace), os.trace, old(child.pid)) && os.refused == old(os.refused)
      ensures os.now >= old(os.now) + Pace() * 1000 || os.down
      ensures child.running ==>
                var ms := (if failing && 30 < refresh then 30 else refresh) * 1000;
                (os.now >= old(os.now) + ms || os.down) && os.now <= old(os.now) + ms + 100 + os.jitter
    {
      var wait := if failing && FAILING_REFRESH_S <= refresh then FAILING_REFRESH_S else refresh;
      var ended;
      child, ended := WaitChild(os, child, wait * 1000);
      if ended {
        haveCurrent := false;
        Sleep(RETRY_S);
      }
    }

    /** Notice that the child has ended by itself. */
    method Notice()
      requires AtHead()
      modifies this`child, this`haveCurrent, os
      ensures AtHead()
      ensures os.now >= old(os.now) && (old(os.down) ==> os.down)
      ensures os.refused == old(os.refused) && (old(child.running) ==> os.polls > old(os.polls))
      ensures || (child == old(child) && os.trace == old(os.trace))
              || (!child.running && old(child.running) && os.trace == old(os.trace) + [Reaped(os.now, old(child.pid))])
    {
      if child.running {
        var died;
        child, died := WaitChild(os, child, 0);
        if died {
          haveCurrent := false;
        }
      }
    }

    /** The fee round, if one is due. */
    method Fees(w: World) returns (owed: bool)
      requires AtHead()
      modifies this`child, this`haveCurrent, fees, os
      ensures AtHead() && owed == (old(Seconds()) >= old(fees.due))
      ensures !owed || w.fee.None? ==> child == old(child) && os.trace == old(os.trace)
      ensures owed && w.fee.Some? ==>
                !child.running && (os.refused > old(os.refused) || StartedAnew(old(os.trace), os.trace, CommandFor(w.fee.value, [])))
      ensures fees.log == old(fees.log) + [Pass(old(Seconds()))] + if owed then [Round(old(Seconds()), Seconds(), fees.due)] else []
      ensures os.now >= old(os.now) && (old(os.down) ==> os.down) && os.refused >= old(os.refused) && old(os.trace) <= os.trace
      ensures fees.Recorded(Fine(w.disk))
    {
      ghost var start := Seconds();
      owed := fees.Look(Seconds());
      if owed {
        var ok;
        ghost var stopped;
        ok, stopped := FeeRound(start, w.fee, w.disk);
        if w.fee.Some? {
          FeeRoundStarts(old(child.running), old(child.pid), old(os.now), old(os.trace), stopped, os.trace, ok, CommandFor(w.fee.value, []), os.down);
        }
      }
    }

    /** The part of a pass before the route is known: the fee round, if one is due, and the question. */
    method FeesThenRoute(w: World) returns (owed: bool)
      requires AtHead()
      modifies this`child, this`haveCurrent, fees, os
      ensures AtHead() && owed == (old(Seconds()) >= old(fees.due))
      ensures !owed || w.fee.None? ==> child == old(child) && os.trace == old(os.trace)
      ensures owed && w.fee.Some? ==>
                !child.running && (os.refused > old(os.refused) || StartedAnew(old(os.trace), os.trace, CommandFor(w.fee.value, [])))
      ensures LogGrew(old(fees.log), fees.log, old(Seconds()), owed)
      ensures os.now >= old(os.now) && (old(os.down) ==> os.down) && os.refused >= old(os.refused) && old(os.trace) <= os.trace
      ensures fees.Recorded(Fine(w.disk))
    {
      owed := Fees(w);
      fees.TouchRoute(Seconds());
      Elapse();
    }

    /** The pass is logged, and right after it the fee round, if one is owed. */
    static ghost predicate LogGrew(before: seq<Entry>, after: seq<Entry>, now: int, owed: bool) {
      before + [Pass(now)] <= after && (owed ==> |after| > |before| + 1 && after[|before| + 1].Round?)
    }

    static lemma FeeRoundStarts(running: bool, pid: int, now: nat, before: seq<Event>, stopped: seq<Event>, after: seq<Event>, ok: bool,
                                cmd: Command, down: bool)
      requires if running then exists end: nat :: Stopped(before, stopped, pid, now, end, 5000) else stopped == before
      requires if ok then RanAndEnded(stopped, after, cmd, 60000, 5000, down) else after == stopped
      ensures before <= after && (ok ==> StartedAnew(before, after, cmd))
    {
      assert before <= stopped;
      if ok {
        var at: nat, p: int, t: nat, end: nat :| Ended(stopped, after, cmd, 60000, 5000, down, at, p, t, end);
        assert after[|stopped|] == Spawned(at, p, cmd);
      }
    }

    /** The rest of a pass: the child is put on the route, and watched until it is time to ask again. */
    method Mine(next: Route, failing: bool) returns (failed: bool)
      requires AtHead()
      modifies this, fees`log, os
      ensures if failed then AtRest() else AtHead() && Agree(current, next)
      ensures os.refused == old(os.refused) + if failed then 1 else 0
      ensures if old(child.running) && Agree(next, old(current))
              then LeftAlone(old(os.trace), os.trace, old(child.pid))
              else failed || (current == next && StartedAnew(old(os.trace), os.trace, CommandFor(next, passed)))
      ensures current == old(current) || current == next
      ensures os.now >= old(os.now) && (old(os.down) ==> os.down)
      ensures failed || os.now >= old(os.now) + Pace() * 1000 || os.down
      ensures old(fees.log) <= fees.log && old(os.trace) <= os.trace
    {
      Notice();
      failed := Replace(next);
      if !failed {
        WatchOver(failing);
      }
    }

    /** One pass of the loop. A fee round comes first exactly if it is due. The child then is on the route that the
        server has answered: it was started anew if there was none or the route is another one, and left alone
        otherwise. Without an answer, the child goes on as it is, but after a fee round there is none. */
    method OnePass(w: World) returns (owed: bool, failed: bool)
      requires AtHead()
      modifies this, fees, os
      ensures if failed then AtRest() && os.refused > old(os.refused) else AtHead()
      ensures !failed && w.answer.Some? ==> Agree(current, w.answer.value)
      ensures w.answer.None? ==> current == old(current)
      ensures w.answer.Some? && (!old(child.running) || (owed && w.fee.Some?) || !Agree(w.answer.value, old(current)))
          ==> failed || (current == w.answer.value && StartedAnew(old(os.trace), os.trace, CommandFor(w.answer.value, passed)))
      ensures w.answer.None? && (!old(child.running) || (owed && w.fee.Some?)) ==> !failed && !child.running
      ensures old(child.running) && (!owed || w.fee.None?) && (w.answer.Some? ==> Agree(w.answer.value, old(current)))
          ==> LeftAlone(old(os.trace), os.trace, old(child.pid))
      ensures owed == (old(Seconds()) >= old(fees.due))
      ensures owed && w.fee.Some?
          ==> os.refused > old(os.refused) || StartedAnew(old(os.trace), os.trace, CommandFor(w.fee.value, []))
      ensures LogGrew(old(fees.log), fees.log, old(Seconds()), owed)
      ensures os.now >= old(os.now) && (old(os.down) ==> os.down)
      ensures failed || os.now >= old(os.now) + Pace() * 1000 || os.down
      ensures fees.Recorded(Fine(w.disk))
    {
      owed := FeesThenRoute(w);
      failed := false;
      if w.answer.None? && !haveCurrent {
        Sleep(RETRY_S);
      } else {
        failed := Mine(if w.answer.Some? then w.answer.value else current, w.failing);
      }
    }

    /** A child that runs at the head of the loop is on every route that agrees with the current one: its command
        line names the algorithm, the pool and the login of that route. */
    lemma ChildIsOnRoute(route: Route)
      requires AtHead() && child.running && Agree(current, route)
      ensures child.pid in os.present
      ensures var cmd := os.present[child.pid].cmd; cmd.exe == self && LeadsTo(cmd.args, route, current.pass, decimal)
    {
      AgreeingLeads(os.present[child.pid].cmd, current, route);
    }

    /** One program run, followed for the passes given: either the loop is still going, or the program has returned
        and left no process behind. */
    method Supervise(disk: Disk, worlds: seq<World>) returns (ended: bool)
      requires AtRest()
      modifies this, fees, os
      ensures if ended then AtRest() else AtHead()
      ensures old(fees.log) <= fees.log && (ended || |fees.log| > |old(fees.log)| + |worlds|)
      ensures fees.Recorded(Fine(disk) && AllFine(worlds))
    {
      os.down := false;
      child, haveCurrent := NO_CHILD, false;
      fees.Start(Seconds(), disk);
      ended := false;
      var i := 0;
      while i < |worlds| && !ended
        invariant if ended then AtRest() else AtHead()
        invariant old(fees.log) <= fees.log && i <= |worlds| && (ended || |fees.log| > |old(fees.log)| + i)
        invariant fees.Recorded(Fine(disk) && AllFine(worlds))
      {
        assert worlds[i] in worlds;
        ended := Turn(worlds[i]);
        i := i + 1;
      }
    }

    /** The test at the head of the loop, and a pass or the way out. */
    method Turn(w: World) returns (ended: bool)
      requires AtHead()
      modifies this, fees, os
      ensures if ended then AtRest() else AtHead()
      ensures ended ==> os.down || os.refused > old(os.refused)
      ensures !ended && w.answer.Some? ==> Agree(current, w.answer.value)
      ensures ended || os.down || os.now >= old(os.now) + Pace() * 1000
      ensures old(os.down) ==> ended
      ensures old(fees.log) <= fees.log && (ended || |fees.log| > |old(fees.log)|)
      ensures fees.Recorded(Fine(w.disk))
    {
      ended := os.ShuttingDown();
      if ended {
        child := StopChild(os, child);
      } else {
        var owed;
        owed, ended := OnePass(w);
      }
    }

    /** Any number of program starts, one after the other: with a state file that works, the fee rounds of all of
        them are 4752 s apart; with one that is lost now and then but never wrong, 2970 s. */
    method Lifetimes(sessions: seq<Session>)
      requires AtRest()
      modifies this, fees, os
      ensures AtRest() || AtHead()
      ensures old(fees.log) <= fees.log
      ensures !old(fees.missed) && !old(fees.lost) && (forall s :: s in sessions ==> Fine(s.disk) && AllFine(s.worlds))
          ==> Spaced(Rounds(fees.log), 4752)
      ensures !fees.missed && !fees.lost ==> Spaced(Rounds(fees.log), 4752)
      ensures !fees.missed ==> Spaced(Rounds(fees.log), 2970)
    {
      var i := 0;
      var ended := true;
      while i < |sessions| && ended
        invariant if ended then AtRest() else AtHead()
        invariant old(fees.log) <= fees.log
        invariant (forall s :: s in sessions ==> Fine(s.disk) && AllFine(s.worlds))
              ==> fees.missed == old(fees.missed) && fees.lost == old(fees.lost)
      {
        assert sessions[i] in sessions;
        ended := Supervise(sessions[i].disk, sessions[i].worlds);
        if ended {
          Elapse();
        }
        i := i + 1;
      }
      fees.RoundsApart(Seconds());
    }
  }
}
