/** The Riecoin mode (`maybeDispatch` in src/riecoin/Dispatch.cpp): rieMiner runs for 99 minutes at a time,
    and between two such slots the program starts itself with fee arguments for one minute. */
module Dispatch {
  import opened Basics
  import opened Processes
  import opened Slots

  const FEE_UNIT_MS: nat := 60000
  const NO_TIMER: nat := 0x7fff_ffff_ffff_ffff
  const STOP_MS: nat := 5000

  /** How far a fee process may outlast its minute: one poll step and the time to stop it. */
  function Slack(jitter: nat): nat {
    100 + jitter + STOP_MS + 50 + 2 * jitter
  }

  function PlanFor(rie: Command, fee: Option<Command>, jitter: nat): Plan {
    Plan(rie, fee, if fee.Some? then 99 * FEE_UNIT_MS else NO_TIMER, FEE_UNIT_MS + Slack(jitter))
  }

  /** `stopProcess`: ask the child to end, look for its end every 50 ms until the time is up, then kill
      it. Afterwards it is gone, and it was reaped exactly once. */
  method StopProcess(os: Os, cp: Child, timeout: nat) returns (cp': Child)
    requires os.Sane() && os.present.Keys == (if cp.running then {cp.pid} else {}) && (cp.running ==> cp.pid > 0)
    modifies os
    ensures os.Sane() && os.present == map[] && cp' == cp.(running := false)
    ensures os.down == old(os.down) && os.refused == old(os.refused)
    ensures old(os.now) <= os.now <= old(os.now) + timeout + 50 + 2 * os.jitter
    ensures !cp.running ==> os.trace == old(os.trace) && os.now == old(os.now)
    ensures cp.running ==> Stopped(old(os.trace), os.trace, cp.pid, old(os.now), os.now, timeout)
  {
    cp' := cp.(running := false);
    if !cp.running || cp.pid <= 0 {
      assert os.present == map[];
      return;
    }
    ghost var start := os.now;
    os.Kill(cp.pid);
    ReplayAppend(old(os.trace), Signalled(start, cp.pid));
    var ended := PollForEnd(os, cp.pid, timeout);
    if ended {
      assert os.trace == old(os.trace) + [Signalled(start, cp.pid)] + [Reaped(os.now, cp.pid)];
      return;
    }
    ghost var k := os.now;
    KillChild(os, cp.pid);
    assert os.trace == old(os.trace) + [Signalled(start, cp.pid)] + [Signalled(k, cp.pid)] + [Reaped(os.now, cp.pid)];
  }

  /** The polling loop of `stopProcess`. */
  method PollForEnd(os: Os, pid: int, timeout: nat) returns (ended: bool)
    requires os.Sane() && os.present.Keys == {pid}
    modifies os
    ensures os.Sane() && os.down == old(os.down) && os.refused == old(os.refused)
    ensures os.present == if ended then map[] else old(os.present)
    ensures os.trace == old(os.trace) + if ended then [Reaped(os.now, pid)] else []
    ensures old(os.now) <= os.now <= old(os.now) + timeout + 50 + os.jitter
    ensures !ended ==> os.now >= old(os.now) + timeout
  {
    var start := os.now;
    while true
      invariant os.Sane() && os.present == old(os.present) && os.trace == old(os.trace) && os.down == old(os.down) && os.refused == old(os.refused)
      invariant start <= os.now <= start + timeout + 50 + os.jitter
      decreases start + timeout - os.now
    {
      ended := os.WaitNoHang(pid);
      if ended {
        ReplayAppend(old(os.trace), Reaped(os.now, pid));
        assert os.present == map[];
        return;
      }
      if os.now - start >= timeout {
        return;
      }
      os.Pass(50);
    }
  }

  /** Stopping a process ends its slot. */
  lemma SlotEnds(p: Plan, before: seq<Event>, after: seq<Event>, t: nat, end: nat, grace: nat)
    requires var s := Follow(p, before); (s.RieRuns? || s.FeeRuns?) && Stopped(before, after, s.pid, t, end, grace)
    requires var s := Follow(p, before); s.FeeRuns? ==> end <= s.since + p.most
    ensures var s := Follow(p, before);
            Follow(p, after) == if s.RieRuns? then RieGone(t >= s.since + p.idle) else Free
  {
    var pid := Follow(p, before).pid;
    var asked := before + [Signalled(t, pid)];
    FollowAppend(p, before, Signalled(t, pid));
    if after == before + [Signalled(t, pid)] + [Reaped(end, pid)] {
      FollowAppend(p, asked, Reaped(end, pid));
    } else {
      var k: nat :| k >= t + grace && after == before + [Signalled(t, pid)] + [Signalled(k, pid)] + [Reaped(end, pid)];
      FollowAppend(p, asked, Signalled(k, pid));
      FollowAppend(p, asked + [Signalled(k, pid)], Reaped(end, pid));
    }
  }

  /** The child that was started as `cmd` has ended: by itself, or stopped at `t`. */
  ghost predicate SlotOf(before: seq<Event>, after: seq<Event>, cmd: Command, at: nat, pid: int, exited: bool, t: nat, end: nat) {
    var started := before + [Spawned(at, pid, cmd)];
    if exited then after == started + [Reaped(end, pid)] else Stopped(started, after, pid, t, end, STOP_MS)
  }

  lemma RieSlotFollows(p: Plan, before: seq<Event>, after: seq<Event>, at: nat, pid: int, exited: bool, t: nat, end: nat)
    requires Follow(p, before).Free? || Follow(p, before).RieGone?
    requires SlotOf(before, after, p.rie, at, pid, exited, t, end)
    ensures Follow(p, after) == if exited then Over else RieGone(t >= at + p.idle)
  {
    var started := before + [Spawned(at, pid, p.rie)];
    FollowAppend(p, before, Spawned(at, pid, p.rie));
    if exited {
      FollowAppend(p, started, Reaped(end, pid));
    } else {
      SlotEnds(p, started, after, t, end, STOP_MS);
    }
  }

  lemma FeeSlotFollows(p: Plan, fee: Command, before: seq<Event>, after: seq<Event>, at: nat, pid: int, exited: bool, t: nat, end: nat)
    requires Follow(p, before) == RieGone(true) && p.fee == Some(fee) && p.rie != fee && end <= at + p.most
    requires SlotOf(before, after, fee, at, pid, exited, t, end)
    ensures Follow(p, after).Free?
  {
    var started := before + [Spawned(at, pid, fee)];
    FollowAppend(p, before, Spawned(at, pid, fee));
    if exited {
      FollowAppend(p, started, Reaped(end, pid));
    } else {
      SlotEnds(p, started, after, t, end, STOP_MS);
    }
  }

  datatype Outcome = StartFailed | EndedByItself | SlotOver

  /** rieMiner's slot: it runs until it ends by itself, the slot is over or a shutdown is asked for. */
  method RieSlot(os: Os, ghost p: Plan, rie: Command, idle: nat) returns (r: Outcome)
    requires os.Sane() && os.present == map[] && p.rie == rie && p.idle == idle
    requires Follow(p, os.trace).Free? || Follow(p, os.trace).RieGone?
    modifies os
    ensures os.Sane() && os.present == map[] && (old(os.down) ==> os.down)
    ensures os.refused == old(os.refused) + if r.StartFailed? then 1 else 0
    ensures os.now >= old(os.now) && (r.SlotOver? ==> os.now >= old(os.now) + idle || os.down)
    ensures if r.StartFailed? then os.trace == old(os.trace)
            else RanAndEnded(old(os.trace), os.trace, rie, idle, 5000, os.down)
    ensures r.EndedByItself? ==> Follow(p, os.trace) == Over
    ensures r.SlotOver? ==> Follow(p, os.trace).RieGone? && (Follow(p, os.trace).full || os.down)
  {
    var ok, cp := StartProcess(os, rie);
    if !ok {
      assert os.present == map[];
      return StartFailed;
    }
    ghost var at := os.now;
    var exited;
    cp, exited := WaitChild(os, cp, idle);
    ghost var t := os.now;
    if exited {
      RieSlotFollows(p, old(os.trace), os.trace, at, cp.pid, true, t, t);
      assert Ended(old(os.trace), os.trace, rie, idle, STOP_MS, os.down, at, cp.pid, t, t);
      return EndedByItself;
    }
    assert os.trace == old(os.trace) + [Spawned(at, cp.pid, rie)];
    cp := StopProcess(os, cp, STOP_MS);
    RieSlotFollows(p, old(os.trace), os.trace, at, cp.pid, false, t, os.now);
    assert Ended(old(os.trace), os.trace, rie, idle, STOP_MS, os.down, at, cp.pid, t, os.now);
    return SlotOver;
  }

  /** The fee slot, if its process can be started. */
  method FeeSlot(os: Os, ghost p: Plan, fee: Command) returns (ok: bool)
    requires os.Sane() && os.present == map[] && p.fee == Some(fee) && p.rie != fee
    requires p.most == FEE_UNIT_MS + Slack(os.jitter)
    requires Follow(p, os.trace) == RieGone(true)
    modifies os
    ensures os.Sane() && os.present == map[] && (old(os.down) ==> os.down)
    ensures os.refused == old(os.refused) + (if ok then 0 else 1) && os.now >= old(os.now)
    ensures if !ok then os.trace == old(os.trace)
            else Follow(p, os.trace).Free? && RanAndEnded(old(os.trace), os.trace, fee, 60000, 5000, os.down)
  {
    var cp;
    ok, cp := StartProcess(os, fee);
    if !ok {
      assert os.present == map[];
      return;
    }
    ghost var at := os.now;
    var exited;
    cp, exited := WaitChild(os, cp, FEE_UNIT_MS);
    ghost var t := os.now;
    assert !exited ==> os.trace == old(os.trace) + [Spawned(at, cp.pid, fee)];
    cp := StopProcess(os, cp, STOP_MS);
    FeeSlotFollows(p, fee, old(os.trace), os.trace, at, cp.pid, exited, t, os.now);
    assert Ended(old(os.trace), os.trace, fee, FEE_UNIT_MS, STOP_MS, os.down, at, cp.pid, t, os.now);
  }

  /** The loop, followed for up to `rounds` rounds. At the head of every round and at the end no process
      exists, every system call made sense, and the trace keeps to the plan. A run that goes on has started rieMiner
      in every round and left it 99 minutes (or, without a fee route, as long as a timer can say), and has tried to
      start the fee process after each of these slots. */
  method RieLoop(os: Os, rie: Command, fee: Option<Command>, rounds: nat) returns (ended: bool)
    requires os.Sane() && os.trace == [] && fee != Some(rie)
    modifies os
    ensures os.Sane() && os.present == map[]
    ensures !Follow(PlanFor(rie, fee, os.jitter), os.trace).Broken?
    ensures !ended ==> Starts(os.trace, rie) == rounds
    ensures !ended && fee.Some? ==> Starts(os.trace, fee.value) + (os.refused - old(os.refused)) == rounds
    ensures !ended ==> os.now >= old(os.now) + (if fee.Some? then 5_940_000 * rounds else 0x7fff_ffff_ffff_ffff * rounds)
    ensures fee.Some? ==>
              99 * Spent(os.trace, fee.value) <= Spent(os.trace, rie) + 99 * ((5150 + 3 * os.jitter) * Starts(os.trace, fee.value))
  {
    ghost var p := PlanFor(rie, fee, os.jitter);
    var idle := if fee.Some? then 99 * FEE_UNIT_MS else NO_TIMER;
    var i := 0;
    ended := false;
    ghost var least := 0;
    while i < rounds && !ended
      invariant i <= rounds && os.Sane() && os.present == map[] && !Follow(p, os.trace).Broken?
      invariant !ended ==> Follow(p, os.trace).Free? || Follow(p, os.trace).RieGone?
      invariant !ended ==> Starts(os.trace, rie) == i
      invariant !ended && fee.Some? ==> Starts(os.trace, fee.value) + (os.refused - old(os.refused)) == i
      invariant !ended ==> os.now >= old(os.now) + least
      invariant least == if fee.Some? then 5_940_000 * i else 0x7fff_ffff_ffff_ffff * i
      decreases rounds - i
    {
      ended := Round(os, p, rie, fee, idle);
      least := least + idle;
      i := i + 1;
    }
    if fee.Some? {
      FeeIsOneHundredth(p, fee.value, os.trace, FEE_UNIT_MS, Slack(os.jitter));
    }
  }

  /** One round of the loop. */
  method Round(os: Os, ghost p: Plan, rie: Command, fee: Option<Command>, idle: nat) returns (ended: bool)
    requires os.Sane() && os.present == map[] && fee != Some(rie) && p == PlanFor(rie, fee, os.jitter) && idle == p.idle
    requires Follow(p, os.trace).Free? || Follow(p, os.trace).RieGone?
    modifies os
    ensures os.Sane() && os.present == map[] && !Follow(p, os.trace).Broken?
    ensures !ended ==>
              && (Follow(p, os.trace).Free? || Follow(p, os.trace).RieGone?)
              && Starts(os.trace, rie) == Starts(old(os.trace), rie) + 1
              && os.now >= old(os.now) + idle
              && (fee.Some? ==> Starts(os.trace, fee.value) + os.refused == Starts(old(os.trace), fee.value) + old(os.refused) + 1)
  {
    var slot := RieSlot(os, p, rie, idle);
    if !slot.SlotOver? {
      return true;
    }
    RanIsOneStart(old(os.trace), os.trace, rie, idle, STOP_MS, os.down, rie);
    if fee.Some? {
      RanIsOneStart(old(os.trace), os.trace, rie, idle, STOP_MS, os.down, fee.value);
    }
    ended := os.ShuttingDown();
    if ended {
      return;
    }
    if fee.Some? {
      ghost var before := os.trace;
      var ok := FeeSlot(os, p, fee.value);
      if ok {
        RanIsOneStart(before, os.trace, fee.value, FEE_UNIT_MS, STOP_MS, os.down, rie);
        RanIsOneStart(before, os.trace, fee.value, FEE_UNIT_MS, STOP_MS, os.down, fee.value);
      }
    }
    ended := os.ShuttingDown();
  }
}
