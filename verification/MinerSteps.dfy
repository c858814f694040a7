/** What each entry point of the miner (src/core/Miner.cpp) does to the state it shares with the
    nonce counters (src/crypto/common/Nonce.cpp) and the dataset queue, as functions on values. */
module MinerSteps {
  import opened Basics
  import opened Jobs
  import opened RxQueue

  datatype Config = Config(pauseOnBattery: bool, pauseOnActive: bool)

  datatype Switches = Switches(active: bool, enabled: bool, battery: bool, user: bool, autoPause: int)

  /** The static state of class `Nonce`: counter 0 belongs to the user's jobs, counter 1 to the fee. */
  datatype Nonces = Nonces(paused: bool, counters: seq<nat>, sequence: nat)

  /** `installed` is history: `handleJobChange` has run for the current job. */
  datatype Work = Work(algorithm: Option<Algorithm>, job: Job, userJobId: Option<string>, reset: bool, installed: bool)

  /** A block of nonces given to a worker thread. */
  datatype Block = Block(index: nat, start: nat, count: nat)

  /** History: the counters that were reset and the nonces that were given out, in order. */
  datatype Log = Log(resets: seq<nat>, blocks: seq<Block>)

  /** `workers`: hashing threads may exist. */
  datatype State = State(sw: Switches, nonce: Nonces, work: Work, rx: Rx, workers: bool, ticks: nat, log: Log)

  const INITIAL: State :=
    State(Switches(false, true, false, false, 0), Nonces(true, [0, 0], 1),
          Work(None, NO_JOB, None, true, true), FRESH, false, 0, Log([], []))

  predicate WellFormed(s: State) {
    |s.nonce.counters| == 2 && s.work.job.index < 2
  }

  /** `MinerPrivate::handleJobChange`. */
  function HandleJobChange(s: State): (t: State)
    requires WellFormed(s)
    ensures WellFormed(t)
  {
    var i := s.work.job.index;
    s.(nonce := Nonces(!s.sw.enabled || (s.nonce.paused && !s.sw.active),
                       if s.work.reset then s.nonce.counters[i := 0] else s.nonce.counters,
                       s.nonce.sequence + 1),
       work := s.work.(installed := true),
       workers := true,
       ticks := if s.ticks == 0 then 1 else s.ticks,
       log := if s.work.reset then s.log.(resets := s.log.resets + [i]) else s.log)
  }

  /** The nonce bookkeeping that `Miner::setJob` decides on. */
  predicate ResetNeeded(s: State, job: Job, donate: bool) {
    var sameIndex := s.work.job.index == (if donate then 1 else 0);
    var backFromFee := s.work.job.index == 1 && !donate && s.work.userJobId == job.id;
    || (!backFromFee && !EqualBlob(s.work.job, job))
    || (!InitReady(s.rx, job) && sameIndex)
  }

  /** The RandomX prologue of `Miner::setJob`: a change of algorithm stops the workers, a dataset
      that is not there pauses them. */
  function PrepareRandomX(s: State, job: Job): (t: State) {
    if !IsRandomX(job) then s
    else if s.work.algorithm != Some(job.algorithm) then
      s.(nonce := s.nonce.(paused := false, sequence := 0), workers := false)
    else if !IsReady(s.rx, job) then
      s.(nonce := s.nonce.(paused := true, sequence := s.nonce.sequence + 1))
    else s
  }

  /** The miner once `job` is the current one, before the backends know it. */
  function AdoptJob(s: State, job: Job, donate: bool): (t: State)
    requires WellFormed(s)
    ensures WellFormed(t)
  {
    PrepareRandomX(s, job).(
      sw := s.sw.(active := true),
      work := Work(Some(job.algorithm), job.(index := if donate then 1 else 0),
                   if donate then s.work.userJobId else job.id, ResetNeeded(s, job, donate), false),
      rx := Init(s.rx, job))
  }

  function SetJob(s: State, job: Job, donate: bool): (t: State)
    requires WellFormed(s)
    ensures WellFormed(t)
  {
    var adopted := AdoptJob(s, job, donate);
    if InitReady(s.rx, job) then HandleJobChange(adopted) else adopted
  }

  function Pause(s: State): (t: State) {
    s.(sw := s.sw.(active := false), nonce := s.nonce.(paused := true, sequence := s.nonce.sequence + 1))
  }

  function SetEnabled(cfg: Config, s: State, on: bool): (t: State)
    ensures t.nonce.counters == s.nonce.counters && t.work == s.work && t.rx == s.rx
    ensures t.log == s.log && t.workers == s.workers && t.sw.active == s.sw.active
  {
    if s.sw.enabled == on || (cfg.pauseOnBattery && s.sw.battery && on) then s
    else if !s.sw.active then s.(sw := s.sw.(enabled := on))
    else s.(sw := s.sw.(enabled := on), nonce := s.nonce.(paused := !on, sequence := s.nonce.sequence + 1))
  }

  /** The two flags that the `autoPause` lambda of `Miner::onTimer` is applied to. */
  datatype Flag = Battery | User

  function FlagOf(sw: Switches, flag: Flag): bool {
    if flag == Battery then sw.battery else sw.user
  }

  function AutoPause(cfg: Config, s: State, flag: Flag, raised: bool): (t: State)
    ensures t.nonce.counters == s.nonce.counters && t.work == s.work && t.rx == s.rx
    ensures t.log == s.log && t.workers == s.workers && t.sw.active == s.sw.active
  {
    if raised == FlagOf(s.sw, flag) then s
    else
      var count := s.sw.autoPause + if raised then 1 else -1;
      var sw := if flag == Battery then s.sw.(battery := raised, autoPause := count)
                else s.sw.(user := raised, autoPause := count);
      SetEnabled(cfg, s.(sw := sw), count == 0)
  }

  /** The lambda is applied to a flag only when the configuration asks for it. */
  function Watch(cfg: Config, s: State, flag: Flag, raised: bool): (t: State)
    ensures t.nonce.counters == s.nonce.counters && t.work == s.work && t.rx == s.rx
    ensures t.log == s.log && t.workers == s.workers && t.sw.active == s.sw.active
  {
    if (if flag == Battery then cfg.pauseOnBattery else cfg.pauseOnActive) then AutoPause(cfg, s, flag, raised) else s
  }

  function OnTimer(cfg: Config, s: State, onBattery: bool, isUserActive: bool): (t: State)
    ensures t.nonce.counters == s.nonce.counters && t.work == s.work && t.rx == s.rx
    ensures t.log == s.log && t.workers == s.workers && t.sw.active == s.sw.active
  {
    Watch(cfg, Watch(cfg, s.(ticks := s.ticks + 1), Battery, onBattery), User, isUserActive)
  }

  /** The wake-up of the dataset queue finds the dataset of the current job ready. */
  predicate WakeReachesJob(s: State) {
    s.rx.wake && IsReady(s.rx, s.work.job)
  }

  function DatasetWake(s: State): (t: State)
    requires WellFormed(s)
    ensures WellFormed(t)
  {
    var s1 := s.(rx := s.rx.(wake := false));
    if WakeReachesJob(s) then HandleJobChange(s1) else s1
  }

  /** One round of the loop in `Nonce::next`: a worker takes `count` nonces from a counter. */
  function Reserve(s: State, index: nat, count: nat, mask: nat): (t: State)
    requires WellFormed(s) && index < 2
    ensures WellFormed(t)
  {
    var m := mask % 0x8000_0000_0000_0000;
    if count == 0 || m < count - 1 then s
    else
      var start := s.nonce.counters[index];
      var exhausted := start <= m && m - start <= count - 1;
      var given := start <= m && m - start >= count - 1
                   && (exhausted || 0xFFFF_FFFF - start % 0x1_0000_0000 >= count - 1);
      s.(nonce := s.nonce.(counters := s.nonce.counters[index := start + count],
                           paused := s.nonce.paused || exhausted),
         log := if given then s.log.(blocks := s.log.blocks + [Block(index, start, count)]) else s.log)
  }

  /** Everything that can happen to the miner, from the event loop, the background thread of the
      dataset queue and the worker threads. A timer tick is two `OpWatch` steps. */
  datatype Op =
    | OpSetJob(job: Job, donate: bool)
    | OpPause
    | OpSetEnabled(on: bool)
    | OpWatch(flag: Flag, raised: bool)
    | OpDatasetWake
    | OpTake
    | OpFinish(hasMemory: bool)
    | OpReserve(index: nat, count: nat, mask: nat)

  function Step(cfg: Config, s: State, op: Op): (t: State)
    requires WellFormed(s)
    ensures WellFormed(t)
  {
    match op
    case OpSetJob(job, donate) => SetJob(s, job, donate)
    case OpPause => Pause(s)
    case OpSetEnabled(on) => SetEnabled(cfg, s, on)
    case OpWatch(flag, raised) => Watch(cfg, s, flag, raised)
    case OpDatasetWake => DatasetWake(s)
    case OpTake => s.(rx := Take(s.rx))
    case OpFinish(hasMemory) => s.(rx := Finish(s.rx, hasMemory))
    case OpReserve(index, count, mask) => if index < 2 then Reserve(s, index, count, mask) else s
  }

  function Run(cfg: Config, s: State, ops: seq<Op>): (t: State)
    requires WellFormed(s)
    ensures WellFormed(t)
    decreases ops
  {
    if ops == [] then s else Run(cfg, Step(cfg, s, ops[0]), ops[1..])
  }
}
