/** What each callback of the network layer brings about, told from the outside: when the miner goes to rest, when
    it works again, and when a lost pool gets a deadline. */
module NetworkEffects {
  import opened Basics
  import opened Jobs
  import opened NetworkSteps
  import opened NetworkProofs
  import R = RxQueue
  import M = MinerSteps
  import E = MinerEffects

  // ---- jobs ----

  /** A job of the main pool is dropped exactly while the fee strategy is active; otherwise it becomes the
      current one with index 0, and the miner works unless the job is a Diardi one to be sat out. */
  lemma MainJobIsTaken(cfg: Config, p: Plane, job: Job)
    requires WellFormed(p)
    ensures var q := OnJob(cfg, p, Main, job);
            if p.net.hasFee && p.net.feeActive then q == p
            else
              && q.miner.work.job == job.(index := 0) && q.miner.work.userJobId == job.id
              && (q.miner.sw.active <==> !(job.diardi && cfg.diardiPause))
              && q.net == p.net.(height := job.height, diardiPaused := job.diardi && cfg.diardiPause,
                                 quietJob := p.net.quietJob && job.height == p.net.height)
  {
  }

  /** A fee job is always taken, with index 1, and never sat out. */
  lemma FeeJobIsTaken(cfg: Config, p: Plane, job: Job)
    requires WellFormed(p) && p.net.hasFee
    ensures var q := OnJob(cfg, p, Fee, job);
            && q.miner.work.job == job.(index := 1) && q.miner.work.userJobId == p.miner.work.userJobId
            && q.miner.sw.active && q.net == p.net
  {
  }

  /** After a rest of whatever cause, the next job of the main pool that is not to be sat out and finds its
      dataset lets an enabled miner hash again. */
  lemma NextJobEndsRest(cfg: Config, p: Plane, job: Job)
    requires WellFormed(p) && !(p.net.hasFee && p.net.feeActive) && !(job.diardi && cfg.diardiPause)
    requires R.InitReady(p.miner.rx, job)
    ensures var q := OnJob(cfg, p, Main, job);
            q.miner.sw.active && q.miner.workers && (q.miner.nonce.paused <==> !p.miner.sw.enabled)
  {
    E.ReadyJobStarts(p.miner, job, false);
  }

  /** A share goes to the fee strategy exactly if there is one and the share carries index 1. */
  lemma SharesAreRouted(hasFee: bool, index: nat)
    ensures Route(true, 1) == Fee && Route(false, 1) == Main && Route(hasFee, 0) == Main
    ensures Route(hasFee, index) == Fee <==> hasFee && index == 1
  {
  }

  // ---- a pool that goes away ----

  /** An ordinary pool that goes away puts the miner to rest at once, whatever the strategy that says so and the
      job it hands out again, and the rest lasts until the next job. */
  lemma LostPoolStops(cfg: Config, p: Plane, strategy: Strategy, now: nat, resumed: Option<Job>, es: seq<Event>)
    requires Inv(cfg, p) && !p.net.mainActive && !p.net.resilient
    requires forall e | e in es :: BringsNoJob(e)
    ensures var q := OnPause(cfg, p, strategy, now, resumed); !q.miner.sw.active && q.miner.nonce.paused
    ensures var q := Run(cfg, OnPause(cfg, p, strategy, now, resumed), es); !q.miner.sw.active && q.miner.nonce.paused
  {
    OnPauseKeepsInv(cfg, p, strategy, now, resumed);
    RestLasts(cfg, OnPause(cfg, p, strategy, now, resumed), es);
  }

  /** A resilient pool that goes away gets a deadline 60 s later, once, and the miner goes on. */
  lemma LostPoolGetsDeadline(cfg: Config, p: Plane, now: nat)
    requires WellFormed(p) && !p.net.mainActive && p.net.resilient
    ensures OnPause(cfg, p, Main, now, None)
            == p.(net := p.net.(graceUntil := if p.net.graceUntil == 0 then now + 60000 else p.net.graceUntil))
  {
  }

  /** While the main pool is there, a pause event changes nothing, but for the job handed out again at the end
      of a fee round. */
  lemma ActivePoolGoesOn(cfg: Config, p: Plane, strategy: Strategy, now: nat, resumed: Option<Job>)
    requires WellFormed(p) && p.net.mainActive
    ensures OnPause(cfg, p, strategy, now, resumed)
            == if p.net.hasFee && strategy == Fee && resumed.Some? then OnJob(cfg, p, Main, resumed.value) else p
  {
  }

  /** The deadline: before it nothing happens; after it the miner rests, unless the pool is back. */
  lemma DeadlineDecides(p: Plane, now: nat)
    ensures var q := Tick(p, now);
            if p.net.graceUntil == 0 || now <= p.net.graceUntil then q == p
            else
              && q.net == p.net.(graceUntil := 0)
              && (if p.net.mainActive then q.miner == p.miner else !q.miner.sw.active && q.miner.nonce.paused)
  {
  }

  /** The main pool coming up says whether it is resilient and ends a deadline; the fee pool does neither. */
  lemma PoolComesUp(net: Net, resilient: bool)
    ensures var n := OnActive(net, Main, resilient);
            n == net.(resilient := resilient, graceUntil := 0, quietJob := net.quietJob || net.graceUntil != 0)
    ensures net.hasFee ==> OnActive(net, Fee, resilient) == net
  {
  }

  /** The events of a run are the callbacks they stand for. */
  lemma EventsAreCallbacks(cfg: Config, p: Plane, strategy: Strategy, job: Job, resumed: Option<Job>, now: nat, b: bool, c: bool)
    requires WellFormed(p)
    ensures Step(cfg, p, Active(strategy, b)) == p.(net := OnActive(p.net, strategy, b))
    ensures Step(cfg, p, NewJob(strategy, job)) == OnJob(cfg, p, strategy, job)
    ensures Step(cfg, p, Paused(strategy, now, resumed)) == OnPause(cfg, p, strategy, now, resumed)
    ensures Step(cfg, p, Ticked(now)) == Tick(p, now)
    ensures Step(cfg, p, Strategies(b, c)).net == p.net.(mainActive := b, feeActive := c)
  {
  }

  // ---- quiet reconnects ----

  /** All user jobs of the events have this height. */
  predicate AtHeight(e: Event, height: nat) {
    && (e.NewJob? ==> e.job.height == height)
    && (e.Paused? && e.resumed.Some? ==> e.resumed.value.height == height)
  }

  lemma QuietStep(cfg: Config, p: Plane, e: Event)
    requires WellFormed(p) && p.net.quietJob && AtHeight(e, p.net.height)
    ensures var q := Step(cfg, p, e); q.net.quietJob && q.net.height == p.net.height
  {
  }

  /** After a reconnection within the deadline, jobs stay quiet as long as they are about the same block. */
  lemma {:induction false} QuietWhileSameBlock(cfg: Config, p: Plane, es: seq<Event>)
    requires WellFormed(p) && p.net.quietJob && forall e | e in es :: AtHeight(e, p.net.height)
    ensures Run(cfg, p, es).net.quietJob
    decreases es
  {
    if es != [] {
      QuietStep(cfg, p, es[0]);
      QuietWhileSameBlock(cfg, Step(cfg, p, es[0]), es[1..]);
    }
  }
}
