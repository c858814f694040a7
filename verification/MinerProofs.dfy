/** What holds over every run of the miner: when workers may hash, that no job waits for a dataset
    nobody builds, and which nonce counter is reset when. */
module MinerProofs {
  import opened Basics
  import opened Jobs
  import opened RxQueue
  import opened MinerSteps

  function One(b: bool): int { if b then 1 else 0 }

  /** The pause flag of the nonce state is down only while the miner is active, and only while it
      is enabled or has no workers at all. */
  ghost predicate PauseInv(cfg: Config, s: State) {
    && (!s.nonce.paused ==> s.sw.active && (s.sw.enabled || !s.workers))
    && s.sw.autoPause == One(s.sw.battery) + One(s.sw.user)
    && (s.sw.battery ==> cfg.pauseOnBattery && !s.sw.enabled)
  }

  /** A RandomX job that the backends have not seen yet has its dataset queued, under construction,
      or announced by a pending wake-up, unless the memory for it was refused. */
  ghost predicate NotStranded(s: State) {
    && RxQueue.Valid(s.rx)
    && (!s.work.installed ==>
          && s.rx.seed == Some(SeedOf(s.work.job))
          && (s.rx.pending || s.rx.wake || !s.rx.hasMemory))
  }

  ghost predicate Inv(cfg: Config, s: State) {
    WellFormed(s) && PauseInv(cfg, s) && NotStranded(s)
  }

  lemma SetJobKeepsInv(cfg: Config, s: State, job: Job, donate: bool)
    requires Inv(cfg, s)
    ensures Inv(cfg, SetJob(s, job, donate))
  {
    StepsKeepValid(s.rx, job, true);
  }

  lemma SetEnabledKeepsInv(cfg: Config, s: State, on: bool)
    requires Inv(cfg, s)
    ensures Inv(cfg, SetEnabled(cfg, s, on))
  {
  }

  lemma WatchKeepsInv(cfg: Config, s: State, flag: Flag, raised: bool)
    requires Inv(cfg, s)
    ensures Inv(cfg, Watch(cfg, s, flag, raised))
  {
  }

  lemma StepKeepsInv(cfg: Config, s: State, op: Op)
    requires Inv(cfg, s)
    ensures Inv(cfg, Step(cfg, s, op))
  {
    match op
    case OpSetJob(job, donate) => SetJobKeepsInv(cfg, s, job, donate);
    case OpSetEnabled(on) => SetEnabledKeepsInv(cfg, s, on);
    case OpWatch(flag, raised) => WatchKeepsInv(cfg, s, flag, raised);
    case OpFinish(hasMemory) => StepsKeepValid(s.rx, NO_JOB, hasMemory);
    case _ =>
  }

  lemma {:induction false} RunKeepsInv(cfg: Config, s: State, ops: seq<Op>)
    requires Inv(cfg, s)
    ensures Inv(cfg, Run(cfg, s, ops))
    decreases ops
  {
    if ops != [] {
      StepKeepsInv(cfg, s, ops[0]);
      RunKeepsInv(cfg, Step(cfg, s, ops[0]), ops[1..]);
    }
  }

  lemma InitialInv(cfg: Config)
    ensures Inv(cfg, INITIAL)
  {
    assert NotStranded(INITIAL);
    assert PauseInv(cfg, INITIAL);
  }

  /** Over every run from the start: existing workers hash only while the miner is active and
      enabled, the automatic pause counter is the number of raised flags, a machine on battery
      power never hashes, and no job is stranded without a dataset. */
  lemma EveryRunIsSafe(cfg: Config, start: State, ops: seq<Op>)
    requires Inv(cfg, start)
    ensures var s := Run(cfg, start, ops);
            && (s.workers && !s.nonce.paused ==> s.sw.active && s.sw.enabled && !s.sw.battery)
            && s.sw.autoPause == One(s.sw.battery) + One(s.sw.user)
            && NotStranded(s)
  {
    RunKeepsInv(cfg, start, ops);
  }

  /** A miner put to rest stays at rest: no command, timer, dataset or worker restarts it, only the
      next job does. */
  lemma {:induction false} RestLastsUntilNextJob(cfg: Config, s: State, ops: seq<Op>)
    requires Inv(cfg, s) && !s.sw.active
    requires forall op | op in ops :: !op.OpSetJob?
    ensures var t := Run(cfg, s, ops); !t.sw.active && t.nonce.paused && t.work.job == s.work.job
    decreases ops
  {
    if ops != [] {
      StepKeepsInv(cfg, s, ops[0]);
      RestLastsUntilNextJob(cfg, Step(cfg, s, ops[0]), ops[1..]);
    }
  }

  // ---- a job that waits for its dataset ----

  /** How many steps of the background thread and the event loop it takes until the job is installed. */
  function StepsToInstall(rx: Rx): nat {
    if !rx.pending then 1
    else if rx.working.None? then 3
    else if rx.queue == [] then 2
    else 4
  }

  /** The next of these steps. */
  function NextStep(rx: Rx): Op {
    if !rx.pending then OpDatasetWake
    else if rx.working.None? then OpTake
    else OpFinish(true)
  }

  /** The workers of an active miner hash exactly if it is enabled. */
  predicate HashesIfEnabled(s: State) {
    s.workers && (s.sw.active ==> (s.nonce.paused <==> !s.sw.enabled))
  }

  lemma NextStepGetsCloser(cfg: Config, s: State)
    requires Inv(cfg, s) && !s.work.installed && (s.rx.pending || s.rx.hasMemory)
    ensures var t := Step(cfg, s, NextStep(s.rx));
            if s.rx.pending
            then t == s.(rx := t.rx) && (t.rx.pending || t.rx.hasMemory) && StepsToInstall(t.rx) == StepsToInstall(s.rx) - 1
            else t.work == s.work.(installed := true) && t.sw == s.sw && IsReady(t.rx, s.work.job) && HashesIfEnabled(t)
  {
  }

  /** From every state that keeps the invariant, a waiting job is installed after a known number of
      steps, provided its memory is granted, and an active and enabled miner hashes it. */
  lemma {:induction false} WaitingJobIsInstalled(cfg: Config, s: State) returns (ops: seq<Op>)
    requires Inv(cfg, s) && !s.work.installed && (s.rx.pending || s.rx.hasMemory)
    ensures |ops| == StepsToInstall(s.rx)
    ensures forall op | op in ops :: op == OpTake || op == OpFinish(true) || op == OpDatasetWake
    ensures var t := Run(cfg, s, ops);
            t.work == s.work.(installed := true) && t.sw == s.sw && IsReady(t.rx, s.work.job) && HashesIfEnabled(t)
    decreases StepsToInstall(s.rx)
  {
    var op := NextStep(s.rx);
    var t := Step(cfg, s, op);
    StepKeepsInv(cfg, s, op);
    NextStepGetsCloser(cfg, s);
    if !s.rx.pending {
      ops := [op];
      assert Run(cfg, t, ops[1..]) == t;
    } else {
      var rest := WaitingJobIsInstalled(cfg, t);
      ops := [op] + rest;
      assert ops[1..] == rest;
    }
  }

  /** Once its memory was refused, a job waits under every run until the next job comes. */
  lemma {:induction false} RefusedJobWaits(cfg: Config, s: State, ops: seq<Op>)
    requires Inv(cfg, s) && !s.work.installed && !s.rx.pending && !s.rx.hasMemory
    requires forall op | op in ops :: !op.OpSetJob?
    ensures !Run(cfg, s, ops).work.installed
    decreases ops
  {
    if ops != [] {
      StepKeepsInv(cfg, s, ops[0]);
      RefusedJobWaits(cfg, Step(cfg, s, ops[0]), ops[1..]);
    }
  }

  // ---- nonces over a stretch of one user job with fee rounds in between ----

  /** The same work handed out again, possibly with another difficulty or another dataset. */
  predicate SameWork(a: Job, b: Job) {
    a.id == b.id && a.blob == b.blob
  }

  /** User jobs of the stretch repeat `user`; fee jobs and everything else are free. */
  predicate InStretch(user: Job, op: Op) {
    op.OpSetJob? && !op.donate ==> SameWork(op.job, user)
  }

  function ResetsOfUserCounter(s: State): nat {
    multiset(s.log.resets)[0]
  }

  /** The stretch has begun and no fee round interrupts it, or one does. */
  ghost predicate Stretch(s: State, user: Job) {
    && WellFormed(s) && RxQueue.Valid(s.rx)
    && s.work.userJobId == user.id
    && (s.work.job.index == 0 ==> SameWork(s.work.job, user))
  }

  /** A dataset wake-up finds a user job whose reset flag is up. */
  predicate IsHit(s: State, op: Op) {
    op.OpDatasetWake? && WakeReachesJob(s) && s.work.job.index == 0 && s.work.reset
  }

  /** How often that happens in a run. */
  function Hits(cfg: Config, s: State, ops: seq<Op>): nat
    requires WellFormed(s)
    decreases ops
  {
    if ops == [] then 0 else (if IsHit(s, ops[0]) then 1 else 0) + Hits(cfg, Step(cfg, s, ops[0]), ops[1..])
  }

  lemma JobInStretch(user: Job, s: State, job: Job, donate: bool)
    requires Stretch(s, user) && (donate || SameWork(job, user))
    ensures var t := SetJob(s, job, donate);
            && Stretch(t, user) && ResetsOfUserCounter(t) == ResetsOfUserCounter(s)
            && t.nonce.counters[0] == s.nonce.counters[0] && t.log.blocks == s.log.blocks
  {
    StepsKeepValid(s.rx, job, true);
  }

  /** One event of the stretch resets the user's counter exactly when it is a hit; any other event but
      a reservation leaves the counter alone. */
  lemma LaterResetIff(cfg: Config, user: Job, s: State, op: Op)
    requires Stretch(s, user) && InStretch(user, op)
    ensures var t := Step(cfg, s, op);
            && Stretch(t, user)
            && ResetsOfUserCounter(t) == ResetsOfUserCounter(s) + (if IsHit(s, op) then 1 else 0)
            && (op.OpReserve? || IsHit(s, op) || (t.nonce.counters[0] == s.nonce.counters[0] && t.log.blocks == s.log.blocks))
  {
    match op
    case OpSetJob(job, donate) => JobInStretch(user, s, job, donate);
    case OpFinish(hasMemory) => StepsKeepValid(s.rx, NO_JOB, hasMemory);
    case _ =>
  }

  /** Over every run of the stretch, in whatever order things happen and whatever datasets the jobs
      need, the user's counter is reset exactly once per hit. */
  lemma {:induction false} ResetsAreHits(cfg: Config, user: Job, s: State, ops: seq<Op>)
    requires Stretch(s, user) && forall op | op in ops :: InStretch(user, op)
    ensures Stretch(Run(cfg, s, ops), user)
    ensures ResetsOfUserCounter(Run(cfg, s, ops)) == ResetsOfUserCounter(s) + Hits(cfg, s, ops)
    decreases ops
  {
    if ops != [] {
      LaterResetIff(cfg, user, s, ops[0]);
      ResetsAreHits(cfg, user, Step(cfg, s, ops[0]), ops[1..]);
    }
  }

  /** A user job that repeats id and blob puts the reset flag up exactly when it does not come back from
      a fee round and finds its dataset missing, be it a new dataset or the one it still waits for. */
  lemma RepeatRaisesFlagIff(s: State, job: Job)
    requires WellFormed(s) && s.work.userJobId == job.id && (s.work.job.index == 0 ==> EqualBlob(s.work.job, job))
    ensures SetJob(s, job, false).work.reset <==> s.work.job.index == 0 && !InitReady(s.rx, job)
  {
  }

  /** The user nonces given out from position `k` of the log on form increasing, disjoint blocks
      below the counter. */
  ghost predicate ScannedOnce(s: State, k: nat) {
    && WellFormed(s) && k <= |s.log.blocks|
    && (forall i :: k <= i < |s.log.blocks| && s.log.blocks[i].index == 0 ==>
          s.log.blocks[i].start + s.log.blocks[i].count <= s.nonce.counters[0])
    && (forall i, j :: k <= i < j < |s.log.blocks| && s.log.blocks[i].index == 0 && s.log.blocks[j].index == 0 ==>
          s.log.blocks[i].start + s.log.blocks[i].count <= s.log.blocks[j].start)
  }

  lemma ReserveScansOnce(s: State, k: nat, index: nat, count: nat, mask: nat)
    requires ScannedOnce(s, k) && index < 2
    ensures ScannedOnce(Reserve(s, index, count, mask), k)
  {
  }

  /** Over every run of the stretch without a hit, no user nonce is given out twice, however many fee
      rounds and dataset switches come and go. */
  lemma {:induction false} NoUserNonceIsRescanned(cfg: Config, user: Job, s: State, k: nat, ops: seq<Op>)
    requires Stretch(s, user) && (forall op | op in ops :: InStretch(user, op)) && ScannedOnce(s, k)
    requires Hits(cfg, s, ops) == 0
    ensures ScannedOnce(Run(cfg, s, ops), k)
    decreases ops
  {
    if ops != [] {
      var op := ops[0];
      LaterResetIff(cfg, user, s, op);
      if op.OpReserve? && op.index < 2 {
        ReserveScansOnce(s, k, op.index, op.count, op.mask);
      }
      NoUserNonceIsRescanned(cfg, user, Step(cfg, s, op), k, ops[1..]);
    }
  }

  // ---- orderly runs ----

  /** A job completes before the next one arrives, and a dataset wake-up finds a job that waits for it. */
  predicate Orderly(s: State, op: Op) {
    match op
    case OpSetJob(_, _) => s.work.installed
    case OpDatasetWake => WakeReachesJob(s) ==> !s.work.installed
    case _ => true
  }

  ghost predicate OrderlyStretch(cfg: Config, user: Job, s: State, ops: seq<Op>)
    requires WellFormed(s)
    decreases ops
  {
    ops == [] || (InStretch(user, ops[0]) && Orderly(s, ops[0]) && OrderlyStretch(cfg, user, Step(cfg, s, ops[0]), ops[1..]))
  }

  /** A user job arrives with no fee round in between and finds its dataset missing. */
  predicate IsMiss(s: State, op: Op) {
    op.OpSetJob? && !op.donate && s.work.job.index == 0 && !InitReady(s.rx, op.job)
  }

  function Misses(cfg: Config, s: State, ops: seq<Op>): nat
    requires WellFormed(s)
    decreases ops
  {
    if ops == [] then 0 else (if IsMiss(s, ops[0]) then 1 else 0) + Misses(cfg, Step(cfg, s, ops[0]), ops[1..])
  }

  /** A reset that is decided and waits for the dataset. */
  function Owing(s: State): nat {
    if s.work.job.index == 0 && !s.work.installed && s.work.reset then 1 else 0
  }

  lemma OrderlyStep(cfg: Config, user: Job, s: State, op: Op)
    requires Stretch(s, user) && InStretch(user, op) && Orderly(s, op)
    ensures var t := Step(cfg, s, op);
            ResetsOfUserCounter(t) + Owing(t) == ResetsOfUserCounter(s) + Owing(s) + (if IsMiss(s, op) then 1 else 0)
  {
    LaterResetIff(cfg, user, s, op);
    if op.OpSetJob? && !op.donate {
      RepeatRaisesFlagIff(s, op.job);
    }
  }

  /** Over an orderly run of the stretch, the resets done and owed are exactly the misses. */
  lemma {:induction false} ResetsAreMisses(cfg: Config, user: Job, s: State, ops: seq<Op>)
    requires Stretch(s, user) && OrderlyStretch(cfg, user, s, ops)
    ensures var t := Run(cfg, s, ops);
            ResetsOfUserCounter(t) + Owing(t) == ResetsOfUserCounter(s) + Owing(s) + Misses(cfg, s, ops)
    decreases ops
  {
    if ops != [] {
      OrderlyStep(cfg, user, s, ops[0]);
      LaterResetIff(cfg, user, s, ops[0]);
      ResetsAreMisses(cfg, user, Step(cfg, s, ops[0]), ops[1..]);
    }
  }

  lemma StretchBegins(s: State, user: Job)
    requires WellFormed(s) && RxQueue.Valid(s.rx)
    ensures var t := SetJob(s, user, false);
            && Stretch(t, user)
            && ResetsOfUserCounter(t) + Owing(t) == ResetsOfUserCounter(s) + (if ResetNeeded(s, user, false) then 1 else 0)
            && Supplied(t, user)
  {
    StepsKeepValid(s.rx, user, true);
  }

  /** An orderly stretch from its first job on: the resets of the user's counter, done and owed, are the
      one that the first job needs and one for each miss, whatever fee jobs come in between. */
  lemma StretchResets(cfg: Config, s: State, user: Job, ops: seq<Op>)
    requires WellFormed(s) && RxQueue.Valid(s.rx)
    requires OrderlyStretch(cfg, user, SetJob(s, user, false), ops)
    ensures var t := Run(cfg, s, [OpSetJob(user, false)] + ops);
            ResetsOfUserCounter(t) + Owing(t)
            == ResetsOfUserCounter(s) + (if ResetNeeded(s, user, false) then 1 else 0) + Misses(cfg, SetJob(s, user, false), ops)
  {
    var all := [OpSetJob(user, false)] + ops;
    assert all[0] == OpSetJob(user, false) && all[1..] == ops;
    StretchBegins(s, user);
    ResetsAreMisses(cfg, user, SetJob(s, user, false), ops);
  }

  predicate SameDataset(a: Job, b: Job) {
    a.algorithm == b.algorithm && a.seed == b.seed
  }

  /** The user jobs of a run all need the dataset of `user`. */
  predicate OneDataset(user: Job, ops: seq<Op>) {
    forall op | op in ops :: op.OpSetJob? && !op.donate ==> SameDataset(op.job, user)
  }

  /** An installed user job has its dataset. */
  ghost predicate Supplied(s: State, user: Job) {
    s.work.job.index == 0 ==> SameDataset(s.work.job, user) && (s.work.installed ==> InitReady(s.rx, user))
  }

  lemma SuppliedStep(cfg: Config, user: Job, s: State, op: Op)
    requires Stretch(s, user) && Supplied(s, user) && Orderly(s, op)
    requires op.OpSetJob? && !op.donate ==> SameDataset(op.job, user)
    ensures Supplied(Step(cfg, s, op), user) && !IsMiss(s, op)
  {
  }

  /** With one dataset, an orderly stretch has no miss. */
  lemma {:induction false} OneDatasetHasNoMiss(cfg: Config, user: Job, s: State, ops: seq<Op>)
    requires Stretch(s, user) && Supplied(s, user)
    requires OrderlyStretch(cfg, user, s, ops) && OneDataset(user, ops)
    ensures Misses(cfg, s, ops) == 0
    decreases ops
  {
    if ops != [] {
      SuppliedStep(cfg, user, s, ops[0]);
      LaterResetIff(cfg, user, s, ops[0]);
      OneDatasetHasNoMiss(cfg, user, Step(cfg, s, ops[0]), ops[1..]);
    }
  }

  /** A stretch of user jobs with the same work and the same dataset, interleaved with any number of fee
      jobs and dataset switches, resets the user's nonce counter at most once. */
  lemma UserCounterResetAtMostOnce(cfg: Config, s: State, user: Job, ops: seq<Op>)
    requires WellFormed(s) && RxQueue.Valid(s.rx)
    requires OrderlyStretch(cfg, user, SetJob(s, user, false), ops) && OneDataset(user, ops)
    ensures ResetsOfUserCounter(Run(cfg, s, [OpSetJob(user, false)] + ops)) <= ResetsOfUserCounter(s) + 1
  {
    StretchBegins(s, user);
    OneDatasetHasNoMiss(cfg, user, SetJob(s, user, false), ops);
    StretchResets(cfg, s, user, ops);
  }

  // ---- where the counter is reset again ----

  const USER_JOB: Job := NO_JOB.(id := Some("user"), algorithm := RX_0, seed := [1], blob := [1, 1])
  const FEE_JOB: Job := NO_JOB.(id := Some("fee"), algorithm := RX_0, seed := [2], blob := [2, 2])

  /** The background thread builds the dataset asked for and the wake-up reaches the miner. */
  function Built(s: State): (t: State)
    requires WellFormed(s)
    ensures WellFormed(t)
  {
    DatasetWake(s.(rx := Finish(Take(s.rx), true)))
  }

  /** Every user job that comes back after a fee round to a dataset of its own, and is repeated by its
      pool while that dataset is built, is scanned again; one that is not repeated goes on. */
  lemma RepeatWhileWaitingRescans(fee: State, user: Job)
    requires WellFormed(fee) && fee.work.job.index == 1 && fee.work.userJobId == user.id
    requires IsRandomX(user) && RxQueue.Valid(fee.rx) && !fee.rx.pending && !IsReady(fee.rx, user)
    ensures ResetsOfUserCounter(Built(SetJob(fee, user, false))) == ResetsOfUserCounter(fee)
    ensures ResetsOfUserCounter(Built(SetJob(SetJob(fee, user, false), user, false))) == ResetsOfUserCounter(fee) + 1
  {
    var s := SetJob(fee, user, false);
    assert !s.work.reset && s.log == fee.log;
    assert s.rx == fee.rx.(queue := [SeedOf(user)], seed := Some(SeedOf(user)), pending := true);
    var repeated := SetJob(s, user, false);
    assert repeated.work.reset && repeated.log == fee.log && repeated.rx == s.rx;
  }

  /** Every user job that is repeated with the same id and blob but needs another dataset is scanned
      again, also in an orderly run. */
  lemma OtherDatasetRescans(s: State, job: Job)
    requires WellFormed(s) && s.work.installed && s.work.job.index == 0 && SameWork(job, s.work.job)
    requires IsRandomX(job) && RxQueue.Valid(s.rx) && !s.rx.pending && !IsReady(s.rx, job)
    ensures Orderly(s, OpSetJob(job, false))
    ensures ResetsOfUserCounter(Built(SetJob(s, job, false))) == ResetsOfUserCounter(s) + 1
  {
    var t := SetJob(s, job, false);
    assert t.work.reset && t.log == s.log;
    assert t.rx == s.rx.(queue := [SeedOf(job)], seed := Some(SeedOf(job)), pending := true);
  }

  /** The first user job of a program run, with its dataset built. */
  function AfterFirstJob(): (s: State)
    ensures WellFormed(s)
  {
    Built(SetJob(INITIAL, USER_JOB, false))
  }

  lemma FirstJobExample()
    ensures var s := AfterFirstJob();
            && s.work == Work(Some(RX_0), USER_JOB, Some("user"), true, true)
            && s.log.resets == [0]
            && s.rx == Rx(true, false, Some(SeedOf(USER_JOB)), [], None, false)
  {
  }

  lemma OtherSeedExample()
    ensures ResetsOfUserCounter(Built(SetJob(AfterFirstJob(), USER_JOB.(seed := [9]), false))) == 2
  {
    FirstJobExample();
    assert USER_JOB.seed[0] == 1 && [9][0] == 9;
    OtherDatasetRescans(AfterFirstJob(), USER_JOB.(seed := [9]));
  }

  /** The same run after a fee round. */
  function AfterFeeRound(): (s: State)
    ensures WellFormed(s)
  {
    Built(SetJob(AfterFirstJob(), FEE_JOB, true))
  }

  lemma FeeSeedIsOther()
    ensures SeedOf(FEE_JOB) != SeedOf(USER_JOB)
  {
    assert FEE_JOB.seed[0] == 2 && USER_JOB.seed[0] == 1;
  }

  lemma FeeRoundState()
    ensures var s := AfterFeeRound();
            && s.work == Work(Some(RX_0), FEE_JOB.(index := 1), Some("user"), true, true)
            && s.log.resets == [0, 1]
            && s.rx == Rx(true, false, Some(SeedOf(FEE_JOB)), [], None, false)
  {
    FirstJobExample();
    FeeSeedIsOther();
  }

  /** The failing state of `RepeatWhileWaitingRescans` is reached from the start of the program. */
  lemma FeeRoundExample()
    ensures var s := AfterFeeRound();
            && ResetsOfUserCounter(s) == 1
            && ResetsOfUserCounter(Built(SetJob(SetJob(s, USER_JOB, false), USER_JOB, false))) == 2
  {
    FeeRoundState();
    FeeSeedIsOther();
    RepeatWhileWaitingRescans(AfterFeeRound(), USER_JOB);
  }

  /** Every job that needs a reset and finds its dataset ready, while the wake-up of that dataset is still
      pending, is installed twice, with its counter reset twice. */
  lemma StaleWakeRescans(s: State, job: Job, donate: bool)
    requires WellFormed(s) && s.rx.wake && IsRandomX(job) && IsReady(s.rx, job) && ResetNeeded(s, job, donate)
    ensures var i := if donate then 1 else 0;
            var next := SetJob(s, job, donate);
            && next.work.installed && next.log.resets == s.log.resets + [i]
            && DatasetWake(next).log.resets == s.log.resets + [i] + [i]
  {
  }

  /** Such a state is reached from the start of the program: a new job comes while the wake-up for the
      first one is under way. */
  lemma StaleWakeExample(cfg: Config)
    ensures var built := Step(cfg, Step(cfg, SetJob(INITIAL, USER_JOB, false), OpTake), OpFinish(true));
            var next := SetJob(built, USER_JOB.(id := Some("next"), blob := [3]), false);
            && ResetsOfUserCounter(next) == 1
            && ResetsOfUserCounter(DatasetWake(next)) == 2
  {
    var s0 := SetJob(INITIAL, USER_JOB, false);
    var built := Step(cfg, Step(cfg, s0, OpTake), OpFinish(true));
    assert built.rx == Rx(true, false, Some(SeedOf(USER_JOB)), [], None, true) && built.log.resets == [];
    assert built.work.job.blob == [1, 1] && [1, 1] != [3];
    StaleWakeRescans(built, USER_JOB.(id := Some("next"), blob := [3]), false);
  }
}
