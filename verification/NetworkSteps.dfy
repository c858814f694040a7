/** What the callbacks of the network layer (src/net/Network.cpp) do to its own state and to the miner. */
module NetworkSteps {
  import opened Basics
  import opened Jobs
  import M = MinerSteps

  datatype Strategy = Main | Fee

  /** A strategy is seen through its `isActive` bit. */
  datatype Net = Net(
    hasFee: bool,
    mainActive: bool,
    feeActive: bool,
    resilient: bool,
    quietJob: bool,
    diardiPaused: bool,
    graceUntil: nat,
    height: nat)

  datatype Config = Config(miner: M.Config, diardiPause: bool)

  const GRACE_MS: nat := 60 * 1000

  /** The network layer together with the miner it drives. */
  datatype Plane = Plane(net: Net, miner: M.State)

  predicate WellFormed(p: Plane) {
    M.WellFormed(p.miner)
  }

  predicate IsFee(net: Net, strategy: Strategy) {
    net.hasFee && strategy == Fee
  }

  function OnActive(net: Net, strategy: Strategy, resilient: bool): Net {
    if IsFee(net, strategy) then net
    else net.(resilient := resilient, graceUntil := 0, quietJob := net.quietJob || net.graceUntil != 0)
  }

  /** A user job of the Scala team that the miner sits out. */
  predicate Rests(cfg: Config, job: Job, donate: bool) {
    !donate && job.diardi && cfg.diardiPause
  }

  function SetJob(cfg: Config, p: Plane, job: Job, donate: bool): (q: Plane)
    requires WellFormed(p)
    ensures WellFormed(q)
  {
    var mined := M.SetJob(p.miner, job, donate);
    Plane(
      if donate then p.net
      else p.net.(quietJob := p.net.quietJob && job.height == p.net.height,
                  height := job.height,
                  diardiPaused := Rests(cfg, job, donate)),
      if Rests(cfg, job, donate) then M.Pause(mined) else mined)
  }

  /** A job of the main pool is dropped while the fee strategy is active. */
  predicate Accepts(net: Net, strategy: Strategy) {
    IsFee(net, strategy) || !net.hasFee || !net.feeActive
  }

  function OnJob(cfg: Config, p: Plane, strategy: Strategy, job: Job): (q: Plane)
    requires WellFormed(p)
    ensures WellFormed(q)
  {
    if Accepts(p.net, strategy) then SetJob(cfg, p, job, IsFee(p.net, strategy)) else p
  }

  /** `resumed` is the job that the main strategy hands out again when the fee ends. */
  function OnPause(cfg: Config, p: Plane, strategy: Strategy, now: nat, resumed: Option<Job>): (q: Plane)
    requires WellFormed(p)
    ensures WellFormed(q)
  {
    var r := if IsFee(p.net, strategy) && resumed.Some? then OnJob(cfg, p, Main, resumed.value) else p;
    if r.net.mainActive then r
    else if !r.net.resilient then r.(miner := M.Pause(r.miner))
    else if r.net.graceUntil == 0 then r.(net := r.net.(graceUntil := now + GRACE_MS))
    else r
  }

  predicate Expired(net: Net, now: nat) {
    net.graceUntil != 0 && now > net.graceUntil
  }

  function Tick(p: Plane, now: nat): Plane {
    if !Expired(p.net, now) then p
    else Plane(p.net.(graceUntil := 0), if p.net.mainActive then p.miner else M.Pause(p.miner))
  }

  /** Where a share goes (`Network::onJobResult`). */
  function Route(hasFee: bool, index: nat): Strategy {
    if index == 1 && hasFee then Fee else Main
  }

  /** Events of the control plane. `Inside` is anything that does not reach the miner through the
      network layer; jobs and pauses always do. */
  datatype Event =
    | Active(strategy: Strategy, resilient: bool)
    | NewJob(strategy: Strategy, job: Job)
    | Paused(strategy: Strategy, now: nat, resumed: Option<Job>)
    | Ticked(now: nat)
    | Strategies(mainActive: bool, feeActive: bool)
    | Inside(op: M.Op)

  function Step(cfg: Config, p: Plane, e: Event): (q: Plane)
    requires WellFormed(p)
    ensures WellFormed(q)
  {
    match e
    case Active(strategy, resilient) => p.(net := OnActive(p.net, strategy, resilient))
    case NewJob(strategy, job) => OnJob(cfg, p, strategy, job)
    case Paused(strategy, now, resumed) => OnPause(cfg, p, strategy, now, resumed)
    case Ticked(now) => Tick(p, now)
    case Strategies(main, fee) => p.(net := p.net.(mainActive := main, feeActive := fee))
    case Inside(op) => if op.OpSetJob? || op.OpPause? then p else p.(miner := M.Step(cfg.miner, p.miner, op))
  }

  function Run(cfg: Config, p: Plane, es: seq<Event>): (q: Plane)
    requires WellFormed(p)
    ensures WellFormed(q)
    decreases es
  {
    if es == [] then p else Run(cfg, Step(cfg, p, es[0]), es[1..])
  }
}
