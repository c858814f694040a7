/** The time slots of the Riecoin mode (src/riecoin/Dispatch.cpp): what a trace of rieMiner and fee
    processes has to look like, and how the two share the time in such a trace. */
module Slots {
  import opened Basics
  import opened Processes

  /** The two commands, the length of an idle slot, and the longest time that a fee process may exist. */
  datatype Plan = Plan(rie: Command, fee: Option<Command>, idle: nat, most: nat)

  datatype Phase =
    | Free
    | RieRuns(pid: int, since: nat)
    | RieAsked(pid: int, since: nat, full: bool)
    | RieGone(full: bool)
    | FeeRuns(pid: int, since: nat)
    | FeeAsked(pid: int, since: nat)
    | Over
    | Broken

  /** An idle slot is full when rieMiner was asked to end no earlier than `idle` ms after its start. A fee
      process starts only behind a full slot; after a rieMiner that ended by itself nothing may follow. */
  function Next(p: Plan, s: Phase, e: Event): Phase {
    match e
    case Spawned(at, pid, cmd) =>
      if (s.Free? || s.RieGone?) && cmd == p.rie then RieRuns(pid, at)
      else if s == RieGone(true) && p.fee == Some(cmd) then FeeRuns(pid, at)
      else Broken
    case Signalled(at, pid) =>
      if s.RieRuns? && pid == s.pid then RieAsked(pid, s.since, at >= s.since + p.idle)
      else if s.RieAsked? && pid == s.pid then s
      else if (s.FeeRuns? || s.FeeAsked?) && pid == s.pid then FeeAsked(pid, s.since)
      else Broken
    case Reaped(at, pid) =>
      if s.RieRuns? && pid == s.pid then Over
      else if s.RieAsked? && pid == s.pid then RieGone(s.full)
      else if (s.FeeRuns? || s.FeeAsked?) && pid == s.pid && at <= s.since + p.most then Free
      else Broken
  }

  function Follow(p: Plan, trace: seq<Event>): Phase {
    if trace == [] then Free else Next(p, Follow(p, trace[..|trace| - 1]), trace[|trace| - 1])
  }

  lemma FollowAppend(p: Plan, trace: seq<Event>, e: Event)
    ensures Follow(p, trace + [e]) == Next(p, Follow(p, trace), e)
  {
    assert (trace + [e])[..|trace|] == trace;
  }

  lemma {:induction false} FollowPrefix(p: Plan, trace: seq<Event>, n: nat)
    requires !Follow(p, trace).Broken? && n <= |trace|
    ensures !Follow(p, trace[..n]).Broken?
    decreases |trace|
  {
    if n == |trace| {
      assert trace[..n] == trace;
    } else {
      FollowPrefix(p, trace[..|trace| - 1], n);
      assert trace[..|trace| - 1][..n] == trace[..n];
    }
  }

  // ---- what comes before a fee slot ----

  /** The trace ends with a full idle slot that begins at `j`: rieMiner starts, is asked to end `idle` ms
      later or more, perhaps again, and is reaped. */
  ghost predicate EndsWithFullSlot(p: Plan, trace: seq<Event>, j: nat) {
    && j + 2 < |trace|
    && trace[j].Spawned? && trace[j].cmd == p.rie
    && trace[j + 1].at >= trace[j].at + p.idle
    && (forall k :: j < k < |trace| - 1 ==> trace[k].Signalled? && trace[k].pid == trace[j].pid)
    && trace[|trace| - 1].Reaped? && trace[|trace| - 1].pid == trace[j].pid
  }

  /** The same without the reaping. */
  ghost predicate EndsAsked(p: Plan, trace: seq<Event>, j: nat, pid: int) {
    && j + 1 < |trace|
    && trace[j].Spawned? && trace[j].cmd == p.rie && trace[j].pid == pid
    && trace[j + 1].at >= trace[j].at + p.idle
    && forall k :: j < k < |trace| ==> trace[k].Signalled? && trace[k].pid == pid
  }

  lemma {:induction false} RunningIsLast(p: Plan, trace: seq<Event>)
    ensures var s := Follow(p, trace);
            s.RieRuns? ==> trace != [] && trace[|trace| - 1] == Spawned(s.since, s.pid, p.rie)
  {
  }

  lemma {:induction false} AskedSlot(p: Plan, trace: seq<Event>)
    requires Follow(p, trace).RieAsked? && Follow(p, trace).full
    ensures exists j: nat :: EndsAsked(p, trace, j, Follow(p, trace).pid)
    decreases |trace|
  {
    var n := |trace| - 1;
    var before := trace[..n];
    RunningIsLast(p, before);
    if Follow(p, before).RieAsked? {
      AskedSlot(p, before);
      var j: nat :| EndsAsked(p, before, j, Follow(p, before).pid);
      assert EndsAsked(p, trace, j, Follow(p, trace).pid);
    } else {
      assert EndsAsked(p, trace, n - 1, Follow(p, trace).pid);
    }
  }

  /** Each fee slot comes directly behind a full idle slot. */
  lemma FeeSlotFollowsFullSlot(p: Plan, trace: seq<Event>, n: nat)
    requires !Follow(p, trace).Broken? && n < |trace|
    requires trace[n].Spawned? && p.fee == Some(trace[n].cmd) && trace[n].cmd != p.rie
    ensures exists j: nat :: EndsWithFullSlot(p, trace[..n], j)
  {
    FollowPrefix(p, trace, n + 1);
    assert trace[..n + 1][..n] == trace[..n];
    assert Follow(p, trace[..n]) == RieGone(true);
    GoneSlot(p, trace[..n]);
  }

  lemma GoneSlot(p: Plan, slot: seq<Event>)
    requires Follow(p, slot) == RieGone(true)
    ensures exists j: nat :: EndsWithFullSlot(p, slot, j)
  {
    var asked := slot[..|slot| - 1];
    assert Follow(p, asked).RieAsked? && Follow(p, asked).full && slot[|slot| - 1].pid == Follow(p, asked).pid;
    AskedSlot(p, asked);
    var j: nat :| EndsAsked(p, asked, j, Follow(p, asked).pid);
    assert EndsWithFullSlot(p, slot, j);
  }

  lemma AfterOver(p: Plan, trace: seq<Event>, n: nat)
    requires n < |trace| && Follow(p, trace[..n]) == Over
    ensures Follow(p, trace[..n + 1]) == Broken
  {
    assert trace[..n + 1][..n] == trace[..n];
  }

  /** A rieMiner that ends by itself, without having been asked, is the end of the run. */
  lemma NothingAfterOwnEnd(p: Plan, trace: seq<Event>, n: nat)
    requires !Follow(p, trace).Broken? && n + 1 < |trace|
    requires trace[n].Spawned? && trace[n].cmd == p.rie && p.fee != Some(p.rie) && trace[n + 1].Reaped?
    ensures |trace| == n + 2
  {
    FollowPrefix(p, trace, n + 1);
    FollowPrefix(p, trace, n + 2);
    assert trace[..n + 1][..n] == trace[..n] && trace[..n + 2][..n + 1] == trace[..n + 1];
    assert Follow(p, trace[..n + 2]) == Over;
    if |trace| > n + 2 {
      FollowPrefix(p, trace, n + 3);
      AfterOver(p, trace, n + 2);
    }
  }

  /** Without a fee route no fee process is ever started. */
  lemma {:induction false} NoFeeWithoutRoute(p: Plan, trace: seq<Event>, cmd: Command)
    requires !Follow(p, trace).Broken? && p.fee == None && cmd != p.rie
    ensures Starts(trace, cmd) == 0
    decreases |trace|
  {
    if trace != [] {
      FollowPrefix(p, trace, |trace| - 1);
      NoFeeWithoutRoute(p, trace[..|trace| - 1], cmd);
    }
  }

  // ---- how the time is shared ----

  /** What the phase says about the processes. */
  predicate Agrees(p: Plan, s: Phase, t: Table) {
    match s
    case Free => t.present == map[]
    case RieRuns(pid, since) => t.present == map[pid := Process(p.rie, since)] && since <= t.last
    case RieAsked(pid, since, full) => t.present == map[pid := Process(p.rie, since)] && since + (if full then p.idle else 0) <= t.last
    case RieGone(_) => t.present == map[]
    case FeeRuns(pid, since) => p.fee.Some? && t.present == map[pid := Process(p.fee.value, since)] && since <= t.last
    case FeeAsked(pid, since) => p.fee.Some? && t.present == map[pid := Process(p.fee.value, since)] && since <= t.last
    case Over => t.present == map[]
    case Broken => false
  }

  lemma {:induction false} PhaseAgrees(p: Plan, trace: seq<Event>)
    requires Replay(trace).ok && !Follow(p, trace).Broken?
    ensures Agrees(p, Follow(p, trace), Replay(trace))
    decreases |trace|
  {
    if trace != [] {
      var n := |trace| - 1;
      OkPrefix(trace, n);
      FollowPrefix(p, trace, n);
      PhaseAgrees(p, trace[..n]);
      PhaseStep(p, Follow(p, trace[..n]), Replay(trace[..n]), trace[n]);
    }
  }

  lemma PhaseStep(p: Plan, s: Phase, t: Table, e: Event)
    requires Agrees(p, s, t) && Apply(t, e).ok && !Next(p, s, e).Broken?
    ensures Agrees(p, Next(p, s, e), Apply(t, e))
  {
  }

  /** The idle slot that is complete while its fee slot may still come. */
  function Earned(p: Plan, s: Phase): nat {
    if s == RieGone(true) then p.idle else 0
  }

  /** The time that a fee slot going on may still take. */
  function Allowed(p: Plan, s: Phase): nat {
    if s.FeeRuns? || s.FeeAsked? then p.most else 0
  }

  predicate HasFee(p: Plan, cmd: Command) {
    p.fee == Some(cmd) && cmd != p.rie
  }

  /** One event: an idle slot is earned only by running that long, and a fee slot uses one up and keeps
      to its longest time. */
  lemma EventIsPaid(p: Plan, fee: Command, s: Phase, t: Table, e: Event)
    requires HasFee(p, fee) && Agrees(p, s, t) && Apply(t, e).ok && !Next(p, s, e).Broken?
    ensures Earned(p, s) + Gain(t, e, p.rie) >= (if Started(e, fee) == 1 then p.idle else 0) + Earned(p, Next(p, s, e))
    ensures Gain(t, e, fee) + Allowed(p, Next(p, s, e)) <= (if Started(e, fee) == 1 then p.most else 0) + Allowed(p, s)
  {
  }

  lemma SlotStep(p: Plan, fee: Command, trace: seq<Event>)
    requires HasFee(p, fee) && trace != [] && Replay(trace).ok && !Follow(p, trace).Broken?
    ensures var before := trace[..|trace| - 1];
            && Replay(before).ok && !Follow(p, before).Broken?
            && Spent(trace, p.rie) - Spent(before, p.rie) + Earned(p, Follow(p, before))
               >= (if Starts(trace, fee) > Starts(before, fee) then p.idle else 0) + Earned(p, Follow(p, trace))
            && Spent(trace, fee) - Spent(before, fee) + Allowed(p, Follow(p, trace))
               <= (if Starts(trace, fee) > Starts(before, fee) then p.most else 0) + Allowed(p, Follow(p, before))
            && Starts(before, fee) <= Starts(trace, fee) <= Starts(before, fee) + 1
  {
    var n := |trace| - 1;
    OkPrefix(trace, n);
    FollowPrefix(p, trace, n);
    PhaseAgrees(p, trace[..n]);
    EventIsPaid(p, fee, Follow(p, trace[..n]), Replay(trace[..n]), trace[n]);
  }

  /** rieMiner has had a full idle slot for every fee slot, and one more when a fee slot may come now;
      every finished fee slot has kept to its longest time. */
  lemma {:induction false} SlotTimes(p: Plan, fee: Command, trace: seq<Event>)
    requires Replay(trace).ok && !Follow(p, trace).Broken? && HasFee(p, fee)
    ensures Spent(trace, p.rie) >= Total(p.idle, Starts(trace, fee)) + Earned(p, Follow(p, trace))
    ensures Spent(trace, fee) + Allowed(p, Follow(p, trace)) <= Total(p.most, Starts(trace, fee))
    decreases |trace|
  {
    if trace != [] {
      SlotStep(p, fee, trace);
      SlotTimes(p, fee, trace[..|trace| - 1]);
    }
  }

  lemma Share(donate: nat, slack: nat, n: nat, rieTime: int, feeTime: int)
    requires rieTime >= Total(99 * donate, n) && feeTime <= Total(donate + slack, n)
    ensures 99 * feeTime <= rieTime + 99 * (slack * n)
  {
    TotalIsProduct(99 * donate, n);
    TotalIsProduct(donate + slack, n);
    assert (donate + slack) * n == donate * n + slack * n;
    assert (99 * donate) * n == 99 * (donate * n);
  }

  /** One hundredth: 99 times the time of the fee processes is at most the time of rieMiner, apart from
      the fixed slack by which each fee slot may exceed a 99th of an idle slot. */
  lemma FeeIsOneHundredth(p: Plan, fee: Command, trace: seq<Event>, donate: nat, slack: nat)
    requires Replay(trace).ok && !Follow(p, trace).Broken? && HasFee(p, fee)
    requires p.idle == 99 * donate && p.most == donate + slack
    ensures 99 * Spent(trace, fee) <= Spent(trace, p.rie) + 99 * (slack * Starts(trace, fee))
  {
    SlotTimes(p, fee, trace);
    var n := Starts(trace, fee);
    Share(donate, slack, n, Spent(trace, p.rie), Spent(trace, fee));
  }
}
