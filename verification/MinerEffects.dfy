/** What a job, a command, a timer, a dataset or a reservation brings about in the miner, told from the outside:
    when hashing starts and stops, which counter starts anew, and which nonces are given out. */
module MinerEffects {
  import opened Basics
  import opened Jobs
  import opened RxQueue
  import opened MinerSteps
  import opened MinerProofs

  // ---- jobs ----

  function IndexOf(donate: bool): nat {
    if donate then 1 else 0
  }

  /** A job whose dataset is there, or that needs none, becomes the current one at once, and the workers hash
      exactly if the miner is enabled. */
  lemma ReadyJobStarts(s: State, job: Job, donate: bool)
    requires WellFormed(s) && InitReady(s.rx, job)
    ensures var t := SetJob(s, job, donate);
            && t.work.job == job.(index := if donate then 1 else 0) && t.work.algorithm == Some(job.algorithm)
            && t.work.installed && t.workers && t.sw == s.sw.(active := true) && t.ticks > 0
            && (t.nonce.paused <==> !s.sw.enabled)
            && t.rx == s.rx && t.log.blocks == s.log.blocks
            && t.work.userJobId == (if donate then s.work.userJobId else job.id)
  {
  }

  /** Its counter starts anew, except for the same blob again and for the user's job coming back from a fee
      round; the other counter is not touched. The workers are told. */
  lemma ReadyJobCounters(s: State, job: Job, donate: bool)
    requires WellFormed(s) && InitReady(s.rx, job)
    ensures var t := SetJob(s, job, donate);
            var same := job.blob == s.work.job.blob;
            var back := s.work.job.index == 1 && !donate && s.work.userJobId == job.id;
            && t.nonce.counters[IndexOf(donate)] == (if same || back then s.nonce.counters[IndexOf(donate)] else 0)
            && t.nonce.counters[1 - IndexOf(donate)] == s.nonce.counters[1 - IndexOf(donate)]
            && t.nonce.sequence == (if IsRandomX(job) && s.work.algorithm != Some(job.algorithm) then 1 else s.nonce.sequence + 1)
  {
  }

  /** A job whose dataset is not there is the current one, too, but waits: its dataset is asked for, no
      counter moves, and no worker goes on hashing. */
  lemma UnreadyJobWaits(s: State, job: Job, donate: bool)
    requires WellFormed(s) && !InitReady(s.rx, job)
    ensures var t := SetJob(s, job, donate);
            && t.work.job == job.(index := if donate then 1 else 0) && !t.work.installed && t.sw == s.sw.(active := true)
            && t.rx.pending && t.rx.seed == Some(SeedOf(job))
            && t.nonce.counters == s.nonce.counters && t.log == s.log
            && (t.workers ==> t.nonce.paused && s.workers && t.nonce.sequence == s.nonce.sequence + 1)
  {
  }

  /** Whatever the job, an enabled miner hashes it: at once, or after a known number of steps of the dataset
      thread and the loop when its memory is granted. */
  lemma EveryJobIsHashed(cfg: Config, s: State, job: Job, donate: bool) returns (ops: seq<Op>)
    requires Inv(cfg, s) && s.sw.enabled
    ensures forall op | op in ops :: op == OpTake || op == OpFinish(true) || op == OpDatasetWake
    ensures |ops| <= 4
    ensures var t := Run(cfg, SetJob(s, job, donate), ops);
            && t.work.job == job.(index := if donate then 1 else 0) && t.work.installed
            && t.workers && t.sw.active && t.sw.enabled && !t.nonce.paused
  {
    ops := [];
    if InitReady(s.rx, job) {
      ReadyJobStarts(s, job, donate);
    } else {
      UnreadyJobWaits(s, job, donate);
      SetJobKeepsInv(cfg, s, job, donate);
      ops := WaitingJobIsInstalled(cfg, SetJob(s, job, donate));
    }
  }

  /** The first job of a program run, in particular. */
  lemma FirstJobIsHashed(cfg: Config, job: Job, donate: bool) returns (ops: seq<Op>)
    ensures |ops| <= 4
    ensures var t := Run(cfg, SetJob(INITIAL, job, donate), ops);
            t.work.installed && t.workers && t.sw.active && t.sw.enabled && !t.nonce.paused
  {
    InitialInv(cfg);
    ops := EveryJobIsHashed(cfg, INITIAL, job, donate);
  }

  /** The events of a run are the calls they stand for. */
  lemma EventsAreCalls(cfg: Config, s: State, job: Job, flag: Flag, b: bool, index: nat, count: nat, mask: nat)
    requires WellFormed(s) && index < 2
    ensures Step(cfg, s, OpSetJob(job, b)) == SetJob(s, job, b)
    ensures Step(cfg, s, OpPause) == Pause(s) && Step(cfg, s, OpSetEnabled(b)) == SetEnabled(cfg, s, b)
    ensures Step(cfg, s, OpWatch(flag, b)) == Watch(cfg, s, flag, b) && Step(cfg, s, OpDatasetWake) == DatasetWake(s)
    ensures Step(cfg, s, OpTake).rx == Take(s.rx) && Step(cfg, s, OpFinish(b)).rx == Finish(s.rx, b)
    ensures Step(cfg, s, OpReserve(index, count, mask)) == Reserve(s, index, count, mask)
  {
  }

  /** The wake-up of the dataset queue: the job that waits for it is installed, and the workers of an active
      miner hash exactly if it is enabled; a wake-up that does not reach the job does nothing. */
  lemma WakeStarts(s: State)
    requires WellFormed(s)
    ensures var t := DatasetWake(s);
            if s.rx.wake && s.rx.hasMemory && !s.rx.pending && s.rx.seed == Some(SeedOf(s.work.job)) then
              && t.work == s.work.(installed := true) && t.workers && t.sw == s.sw && t.ticks > 0
              && t.nonce.sequence == s.nonce.sequence + 1
              && (s.sw.active ==> (t.nonce.paused <==> !s.sw.enabled))
              && t.nonce.counters == s.nonce.counters[s.work.job.index := if s.work.reset then 0 else s.nonce.counters[s.work.job.index]]
            else t == s.(rx := s.rx.(wake := false))
  {
  }

  // ---- commands and timers ----

  /** Stopping an active miner pauses its workers, and resuming it lets them hash again, except on battery
      power; nothing else resumes or stops. */
  lemma CommandsDecide(cfg: Config, s: State)
    ensures s.sw.active && s.sw.enabled ==>
              var t := SetEnabled(cfg, s, false);
              !t.sw.enabled && t.nonce.paused && t.nonce.sequence == s.nonce.sequence + 1
    ensures s.sw.active && !s.sw.enabled && !(cfg.pauseOnBattery && s.sw.battery) ==>
              var t := SetEnabled(cfg, s, true);
              t.sw.enabled && !t.nonce.paused && t.nonce.sequence == s.nonce.sequence + 1
    ensures !s.sw.active ==> forall on :: SetEnabled(cfg, s, on).nonce == s.nonce
    ensures forall on :: SetEnabled(cfg, s, on).sw == s.sw.(enabled := if on && cfg.pauseOnBattery && s.sw.battery then s.sw.enabled else on)
  {
  }

  /** A pause stops the workers of any miner, and tells them. */
  lemma PauseStops(s: State)
    ensures var t := Pause(s);
            !t.sw.active && t.sw.enabled == s.sw.enabled && t.nonce.paused && t.nonce.sequence == s.nonce.sequence + 1
            && t.work == s.work && t.nonce.counters == s.nonce.counters
  {
  }

  /** A watched flag that changes decides: the miner is enabled exactly if no flag is raised, and an active one
      hashes exactly then, unless it was so already. */
  lemma TimerFollowsFlags(cfg: Config, s: State, flag: Flag, raised: bool)
    requires WellFormed(s) && PauseInv(cfg, s)
    requires if flag == Battery then cfg.pauseOnBattery && raised != s.sw.battery else cfg.pauseOnActive && raised != s.sw.user
    ensures var t := Watch(cfg, s, flag, raised);
            && t.sw.battery == (if flag == Battery then raised else s.sw.battery)
            && t.sw.user == (if flag == User then raised else s.sw.user)
            && (t.sw.enabled <==> !t.sw.battery && !t.sw.user)
            && (s.sw.active && t.sw.enabled != s.sw.enabled ==> (t.nonce.paused <==> !t.sw.enabled))
  {
  }

  /** A tick leaves the flags as the machine is, where it is asked to look, and everything as it was if
      nothing has changed. */
  lemma TickLooks(cfg: Config, s: State, onBattery: bool, isUserActive: bool)
    ensures var t := OnTimer(cfg, s, onBattery, isUserActive);
            && t.ticks == s.ticks + 1
            && t.sw.battery == (if cfg.pauseOnBattery then onBattery else s.sw.battery)
            && t.sw.user == (if cfg.pauseOnActive then isUserActive else s.sw.user)
            && (t.sw.battery == s.sw.battery && t.sw.user == s.sw.user ==> t == s.(ticks := s.ticks + 1))
  {
  }

  // ---- nonces ----

  /** A reservation of `count` nonces moves the counter by `count`; the nonces are given out exactly when the
      mask holds them all and they do not cross a multiple of 2^32, unless they are the last ones. The counter's
      end pauses the workers. */
  lemma ReserveGives(s: State, index: nat, count: nat, mask: nat)
    requires WellFormed(s) && index < 2 && 0 < count && count - 1 <= mask < 0x8000_0000_0000_0000
    ensures var t := Reserve(s, index, count, mask);
            var start := s.nonce.counters[index];
            && t.nonce.counters == s.nonce.counters[index := start + count]
            && (start <= mask <= start + count - 1 ==> t.nonce.paused)
            && (mask < start || start + count - 1 < mask ==> t.nonce.paused == s.nonce.paused)
            && t.log.resets == s.log.resets
            && t.log.blocks == (if start + count - 1 == mask || (start + count - 1 < mask && start % 0x1_0000_0000 + count <= 0x1_0000_0000)
                                then s.log.blocks + [Block(index, start, count)] else s.log.blocks)
  {
  }

  // ---- datasets ----

  /** Asking for a dataset twice is asking for it once. */
  lemma AskingTwiceIsOnce(rx: Rx, job: Job)
    ensures Init(Init(rx, job), job) == Init(rx, job)
  {
  }

  /** The two RandomX algorithms of one dataset need no rebuilding between them. */
  lemma DatasetIsShared(rx: Rx, job: Job)
    ensures IsReady(rx, job.(algorithm := RX_0)) <==> IsReady(rx, job.(algorithm := RX_V2))
  {
  }

  /** A dataset once built serves the jobs with its seed, and no others. */
  lemma BuiltServes(rx: Rx, job: Job, other: Job)
    requires RxQueue.Valid(rx) && rx.working == Some(SeedOf(job)) && rx.queue == []
    ensures var done := Finish(rx, true);
            && done.wake && IsReady(done, job) && !IsReady(Finish(rx, false), job)
            && (IsReady(done, other) <==> SeedOf(other) == SeedOf(job))
  {
  }
}
