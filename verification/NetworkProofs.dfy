/** What holds over every run of the network layer and the miner together. */
module NetworkProofs {
  import opened Basics
  import opened Jobs
  import opened NetworkSteps
  import M = MinerSteps
  import MP = MinerProofs

  ghost predicate Inv(cfg: Config, p: Plane) {
    MP.Inv(cfg.miner, p.miner)
  }

  lemma SetJobKeepsInv(cfg: Config, p: Plane, job: Job, donate: bool)
    requires Inv(cfg, p)
    ensures Inv(cfg, SetJob(cfg, p, job, donate))
  {
    MP.SetJobKeepsInv(cfg.miner, p.miner, job, donate);
    MP.StepKeepsInv(cfg.miner, M.SetJob(p.miner, job, donate), M.OpPause);
  }

  lemma OnJobKeepsInv(cfg: Config, p: Plane, strategy: Strategy, job: Job)
    requires Inv(cfg, p)
    ensures Inv(cfg, OnJob(cfg, p, strategy, job))
  {
    SetJobKeepsInv(cfg, p, job, IsFee(p.net, strategy));
  }

  lemma PauseKeepsInv(cfg: Config, p: Plane)
    requires Inv(cfg, p)
    ensures Inv(cfg, p.(miner := M.Pause(p.miner)))
  {
    MP.StepKeepsInv(cfg.miner, p.miner, M.OpPause);
  }

  lemma OnPauseKeepsInv(cfg: Config, p: Plane, strategy: Strategy, now: nat, resumed: Option<Job>)
    requires Inv(cfg, p)
    ensures Inv(cfg, OnPause(cfg, p, strategy, now, resumed))
  {
    if resumed.Some? {
      OnJobKeepsInv(cfg, p, Main, resumed.value);
      PauseKeepsInv(cfg, OnJob(cfg, p, Main, resumed.value));
    }
    PauseKeepsInv(cfg, p);
  }

  lemma StepKeepsInv(cfg: Config, p: Plane, e: Event)
    requires Inv(cfg, p)
    ensures Inv(cfg, Step(cfg, p, e))
  {
    match e
    case NewJob(strategy, job) => OnJobKeepsInv(cfg, p, strategy, job);
    case Paused(strategy, now, resumed) => OnPauseKeepsInv(cfg, p, strategy, now, resumed);
    case Ticked(_) => PauseKeepsInv(cfg, p);
    case Inside(op) => if !op.OpSetJob? && !op.OpPause? { MP.StepKeepsInv(cfg.miner, p.miner, op); }
    case _ =>
  }

  lemma {:induction false} RunKeepsInv(cfg: Config, p: Plane, es: seq<Event>)
    requires Inv(cfg, p)
    ensures Inv(cfg, Run(cfg, p, es))
    decreases es
  {
    if es != [] {
      StepKeepsInv(cfg, p, es[0]);
      RunKeepsInv(cfg, Step(cfg, p, es[0]), es[1..]);
    }
  }

  // ---- rest ----

  /** The event brings no job to the miner. */
  predicate BringsNoJob(e: Event) {
    !e.NewJob? && (e.Paused? ==> e.resumed.None?)
  }

  lemma RestStep(cfg: Config, p: Plane, e: Event)
    requires Inv(cfg, p) && !p.miner.sw.active && BringsNoJob(e)
    ensures !Step(cfg, p, e).miner.sw.active
  {
    if e.Inside? {
      assert e.op.OpSetJob? || !M.Step(cfg.miner, p.miner, e.op).sw.active;
    }
  }

  lemma {:induction false} RestLasts(cfg: Config, p: Plane, es: seq<Event>)
    requires Inv(cfg, p) && !p.miner.sw.active
    requires forall e | e in es :: BringsNoJob(e)
    ensures var q := Run(cfg, p, es); !q.miner.sw.active && q.miner.nonce.paused
    decreases es
  {
    if es != [] {
      RestStep(cfg, p, es[0]);
      StepKeepsInv(cfg, p, es[0]);
      RestLasts(cfg, Step(cfg, p, es[0]), es[1..]);
    }
  }

  /** Once a Diardi job of the main pool puts the miner to rest, nothing restarts hashing before the
      next job: no resume command, timer, dataset, lost connection or expired grace period. */
  lemma DiardiRest(cfg: Config, p: Plane, job: Job, es: seq<Event>)
    requires Inv(cfg, p) && Accepts(p.net, Main) && job.diardi && cfg.diardiPause
    requires forall e | e in es :: BringsNoJob(e)
    ensures var q := Run(cfg, OnJob(cfg, p, Main, job), es); !q.miner.sw.active && q.miner.nonce.paused
  {
    OnJobKeepsInv(cfg, p, Main, job);
    RestLasts(cfg, OnJob(cfg, p, Main, job), es);
  }

  // ---- the fee job ----

  /** The fee strategy stays active. */
  predicate FeeStays(e: Event) {
    e.Strategies? ==> e.feeActive
  }

  /** While the fee strategy is active, no job of the main pool displaces the fee job, not even the
      one that the main strategy hands out again. */
  lemma {:induction false} FeeJobIsNotDisplaced(cfg: Config, p: Plane, es: seq<Event>)
    requires WellFormed(p) && p.net.hasFee && p.net.feeActive && p.miner.work.job.index == 1
    requires forall e | e in es :: FeeStays(e)
    ensures var q := Run(cfg, p, es); q.miner.work.job.index == 1 && q.miner.work.userJobId == p.miner.work.userJobId
    decreases es
  {
    if es != [] {
      FeeStep(cfg, p, es[0]);
      FeeJobIsNotDisplaced(cfg, Step(cfg, p, es[0]), es[1..]);
    }
  }

  lemma FeeStep(cfg: Config, p: Plane, e: Event)
    requires WellFormed(p) && p.net.hasFee && p.net.feeActive && p.miner.work.job.index == 1 && FeeStays(e)
    ensures var q := Step(cfg, p, e);
            && q.net.hasFee && q.net.feeActive && q.miner.work.job.index == 1
            && q.miner.work.userJobId == p.miner.work.userJobId
  {
    match e
    case Inside(op) =>
      assert op.OpSetJob? || M.Step(cfg.miner, p.miner, op).work.job == p.miner.work.job;
      assert op.OpSetJob? || M.Step(cfg.miner, p.miner, op).work.userJobId == p.miner.work.userJobId;
    case _ =>
  }

  // ---- the grace period of a resilient connection ----

  /** Only the main pool coming back, or its own expiry, ends the grace period. */
  lemma GraceEndsOnlyBy(cfg: Config, p: Plane, e: Event)
    requires WellFormed(p) && p.net.graceUntil != 0
    ensures Step(cfg, p, e).net.graceUntil != p.net.graceUntil
            <==> (e.Active? && !IsFee(p.net, e.strategy)) || (e.Ticked? && e.now > p.net.graceUntil)
    ensures var g := Step(cfg, p, e).net.graceUntil; g == 0 || g == p.net.graceUntil
  {
  }

  /** The main pool stays away and no job arrives. */
  predicate PoolAway(hasFee: bool, e: Event) {
    && BringsNoJob(e)
    && (e.Active? ==> hasFee && e.strategy == Fee)
    && (e.Strategies? ==> !e.mainActive)
  }

  predicate Lost(net: Net, since: nat) {
    !net.mainActive && net.resilient && net.graceUntil == since + GRACE_MS
  }

  lemma {:induction false} GraceIsNotPostponed(cfg: Config, p: Plane, since: nat, es: seq<Event>)
    requires WellFormed(p) && Lost(p.net, since)
    requires forall e | e in es :: PoolAway(p.net.hasFee, e) && (e.Ticked? ==> e.now <= since + GRACE_MS)
    ensures var q := Run(cfg, p, es); Lost(q.net, since) && q.miner.sw.active == p.miner.sw.active
    decreases es
  {
    if es != [] {
      LostStep(cfg, p, since, es[0]);
      GraceIsNotPostponed(cfg, Step(cfg, p, es[0]), since, es[1..]);
    }
  }

  lemma LostStep(cfg: Config, p: Plane, since: nat, e: Event)
    requires WellFormed(p) && Lost(p.net, since)
    requires PoolAway(p.net.hasFee, e) && (e.Ticked? ==> e.now <= since + GRACE_MS)
    ensures var q := Step(cfg, p, e);
            Lost(q.net, since) && q.net.hasFee == p.net.hasFee && q.miner.sw.active == p.miner.sw.active
  {
    if e.Inside? {
      assert e.op.OpSetJob? || e.op.OpPause? || M.Step(cfg.miner, p.miner, e.op).sw.active == p.miner.sw.active;
    }
  }

  /** A resilient main pool lost at `since` that stays away: mining goes on until the first tick after
      `since` + 60 s, whatever pause events come in between, and from that tick on the miner rests. */
  lemma LostPoolPausesOnTime(cfg: Config, p: Plane, since: nat, before: seq<Event>, now: nat, after: seq<Event>)
    requires Inv(cfg, p) && !p.net.mainActive && p.net.resilient && p.net.graceUntil == 0
    requires forall e | e in before :: PoolAway(p.net.hasFee, e) && (e.Ticked? ==> e.now <= since + 60000)
    requires forall e | e in after :: BringsNoJob(e)
    requires now > since + 60000
    ensures var lost := OnPause(cfg, p, Main, since, None);
            var waited := Run(cfg, lost, before);
            && waited.miner.sw.active == p.miner.sw.active
            && var q := Run(cfg, Tick(waited, now), after); !q.miner.sw.active && q.miner.nonce.paused
  {
    var lost := OnPause(cfg, p, Main, since, None);
    OnPauseKeepsInv(cfg, p, Main, since, None);
    GraceIsNotPostponed(cfg, lost, since, before);
    RunKeepsInv(cfg, lost, before);
    var waited := Run(cfg, lost, before);
    StepKeepsInv(cfg, waited, Ticked(now));
    RestLasts(cfg, Tick(waited, now), after);
  }
}
