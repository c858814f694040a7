/** Network layer, miner, worker threads and result queue together: where a share ends up. */
module ControlPlane {
  import opened Basics
  import opened Jobs
  import opened JobResults
  import R = RxQueue
  import N = NetworkSteps
  import Q = ResultQueue

  /** A job as the miner hands it to its workers, and whether it came from the fee strategy. */
  datatype Install = Install(job: Job, donate: bool)

  /** What a worker found: on which of the jobs installed so far, the nonce and its hash. */
  datatype Origin = Origin(k: nat, nonce: nat, hash: Hash)

  /** History: every job installed so far, for each share submitted so far what was found, and for each bundle
      the position of the job it was found on. */
  datatype State = State(
    plane: N.Plane,
    queue: Q.State,
    installs: seq<Install>,
    origins: seq<Origin>,
    bundleOrigins: seq<nat>)

  /** A worker may find a share on any job ever installed, however old. `Tried`: a thread of the pool checks
      the next bundle of a batch, with the dataset that the miner has at that moment. */
  datatype Event =
    | Control(event: N.Event)
    | Found(k: nat, nonce: nat, hash: Hash)
    | FoundOnGpu(k: nat, nonces: seq<uint32>, device: nat)
    | Tried(batch: nat)
    | Loop(step: Q.Event)

  /** The job that an event of the network layer installs, if any. */
  function Installs(p: N.Plane, e: N.Event): seq<Install> {
    match e
    case NewJob(strategy, job) =>
      if N.Accepts(p.net, strategy) then [InstallOf(job, N.IsFee(p.net, strategy))] else []
    case Paused(strategy, _, resumed) =>
      if N.IsFee(p.net, strategy) && resumed.Some? && N.Accepts(p.net, N.Main) then [InstallOf(resumed.value, false)] else []
    case _ => []
  }

  function InstallOf(job: Job, donate: bool): Install {
    Install(job.(index := if donate then 1 else 0), donate)
  }

  /** The dataset that the next bundle of a batch needs is there. */
  predicate DatasetIsThere(s: State, i: nat) {
    && i < |s.queue.batches| && i < |s.queue.trials| && |s.queue.trials[i]| < |s.queue.batches[i]|
    && R.IsReady(s.plane.miner.rx, s.queue.batches[i][|s.queue.trials[i]|].job)
  }

  function Step(cfg: N.Config, env: Env, s: State, e: Event): (t: State)
    requires N.WellFormed(s.plane)
    ensures N.WellFormed(t.plane)
  {
    match e
    case Control(event) =>
      s.(plane := N.Step(cfg, s.plane, event), installs := s.installs + Installs(s.plane, event))
    case Found(k, nonce, hash) =>
      if k < |s.installs| then
        s.(queue := Q.Step(env, s.queue, Q.Submit(MakeResult(s.installs[k].job, nonce, hash))), origins := s.origins + [Origin(k, nonce, hash)])
      else s
    case FoundOnGpu(k, nonces, device) =>
      if k < |s.installs| && Sized(s.installs[k].job) then
        s.(queue := Q.Step(env, s.queue, Q.SubmitBundle(Report(s.installs[k].job, nonces, device))),
           bundleOrigins := s.bundleOrigins + [k])
      else s
    case Tried(i) => s.(queue := Q.Step(env, s.queue, Q.Check(i, DatasetIsThere(s, i))))
    case Loop(step) =>
      if step.Submit? || step.SubmitBundle? || step.Check? then s else s.(queue := Q.Step(env, s.queue, step))
  }

  function Run(cfg: N.Config, env: Env, s: State, es: seq<Event>): (t: State)
    requires N.WellFormed(s.plane)
    ensures N.WellFormed(t.plane)
    decreases es
  {
    if es == [] then s else Run(cfg, env, Step(cfg, env, s, es[0]), es[1..])
  }

  /** Fee jobs carry index 1, user jobs index 0, and there are fee jobs only with a fee strategy. */
  ghost predicate InstallsTagged(s: State) {
    forall k :: 0 <= k < |s.installs| ==>
      && s.installs[k].job.index == (if s.installs[k].donate then 1 else 0)
      && (s.installs[k].donate ==> s.plane.net.hasFee)
  }

  /** The job of the miner is the one installed last. */
  ghost predicate CurrentJobIsLast(s: State) {
    s.installs != [] ==> s.plane.miner.work.job == s.installs[|s.installs| - 1].job
  }

  /** The share has the nonce and the hash that were found, and everything else from the job. */
  predicate IsShareOf(r: JobResult, job: Job, o: Origin) {
    && r.nonce == o.nonce && r.hash == o.hash
    && r.index == job.index && r.jobId == job.id && r.clientId == job.clientId
    && r.algorithm == job.algorithm && r.diff == job.diff
  }

  ghost predicate OriginsTracked(s: State) {
    && |s.origins| == |s.queue.history.submitted|
    && (forall i :: 0 <= i < |s.origins| ==>
          s.origins[i].k < |s.installs| && IsShareOf(s.queue.history.submitted[i], s.installs[s.origins[i].k].job, s.origins[i]))
    && |s.bundleOrigins| == |s.queue.history.bundles|
    && (forall i :: 0 <= i < |s.bundleOrigins| ==>
          s.bundleOrigins[i] < |s.installs| && s.queue.history.bundles[i].job == s.installs[s.bundleOrigins[i]].job)
  }

  ghost predicate Inv(env: Env, s: State) {
    && N.WellFormed(s.plane) && R.Valid(s.plane.miner.rx) && Q.Inv(env, s.queue)
    && InstallsTagged(s) && CurrentJobIsLast(s) && OriginsTracked(s)
  }

  /** The program has just started; the pools and the fee strategy are not active yet. */
  function Initial(hasFee: bool): State {
    State(N.Plane(N.Net(hasFee, false, false, false, false, false, 0, 0), N.M.INITIAL), Q.EMPTY, [], [], [])
  }

  lemma InitialInv(env: Env, hasFee: bool)
    ensures Inv(env, Initial(hasFee))
  {
    Q.EmptyInv(env);
  }

  lemma ControlKeepsJob(cfg: N.Config, p: N.Plane, e: N.Event)
    requires N.WellFormed(p)
    ensures var q := N.Step(cfg, p, e); var added := Installs(p, e);
            && q.net.hasFee == p.net.hasFee
            && q.miner.work.job == (if added == [] then p.miner.work.job else added[0].job)
  {
    match e
    case Inside(op) =>
      assert op.OpSetJob? || op.OpPause? || N.M.Step(cfg.miner, p.miner, op).work.job == p.miner.work.job;
    case _ =>
  }

  lemma SetJobAsksForDataset(s: N.M.State, job: Job, donate: bool)
    requires N.M.WellFormed(s) && R.Valid(s.rx)
    ensures var t := N.M.SetJob(s, job, donate); t.rx == R.Init(s.rx, job) && R.Valid(t.rx)
  {
    R.StepsKeepValid(s.rx, job, true);
  }

  lemma InsideKeepsDatasets(cfg: N.M.Config, s: N.M.State, op: N.M.Op)
    requires N.M.WellFormed(s) && R.Valid(s.rx) && !op.OpSetJob?
    ensures R.Valid(N.M.Step(cfg, s, op).rx)
  {
    R.StepsKeepValid(s.rx, NO_JOB, op.OpFinish? && op.hasMemory);
  }

  lemma ControlKeepsDatasets(cfg: N.Config, p: N.Plane, e: N.Event)
    requires N.WellFormed(p) && R.Valid(p.miner.rx)
    ensures R.Valid(N.Step(cfg, p, e).miner.rx)
  {
    match e
    case NewJob(strategy, job) => SetJobAsksForDataset(p.miner, job, N.IsFee(p.net, strategy));
    case Paused(_, _, resumed) => if resumed.Some? { SetJobAsksForDataset(p.miner, resumed.value, false); }
    case Inside(op) => if !op.OpSetJob? { InsideKeepsDatasets(cfg.miner, p.miner, op); }
    case _ =>
  }

  lemma ControlKeepsInv(cfg: N.Config, env: Env, s: State, e: N.Event)
    requires Inv(env, s)
    ensures Inv(env, Step(cfg, env, s, Control(e)))
  {
    ControlKeepsJob(cfg, s.plane, e);
    ControlKeepsDatasets(cfg, s.plane, e);
    InstallIsTagged(s, Installs(s.plane, e), N.Step(cfg, s.plane, e));
    InstallKeepsOrigins(s, Installs(s.plane, e), N.Step(cfg, s.plane, e));
  }

  lemma InstallIsTagged(s: State, added: seq<Install>, plane: N.Plane)
    requires InstallsTagged(s) && CurrentJobIsLast(s) && |added| <= 1 && plane.net.hasFee == s.plane.net.hasFee
    requires plane.miner.work.job == (if added == [] then s.plane.miner.work.job else added[0].job)
    requires forall a :: a in added ==> a.job.index == (if a.donate then 1 else 0) && (a.donate ==> plane.net.hasFee)
    ensures var t := s.(plane := plane, installs := s.installs + added); InstallsTagged(t) && CurrentJobIsLast(t)
  {
  }

  lemma InstallKeepsOrigins(s: State, added: seq<Install>, plane: N.Plane)
    requires OriginsTracked(s)
    ensures OriginsTracked(s.(plane := plane, installs := s.installs + added))
  {
  }

  lemma FoundKeepsInv(cfg: N.Config, env: Env, s: State, k: nat, nonce: nat, hash: Hash)
    requires Inv(env, s) && k < |s.installs|
    ensures Inv(env, Step(cfg, env, s, Found(k, nonce, hash)))
  {
    var r := MakeResult(s.installs[k].job, nonce, hash);
    Q.StepKeepsInv(env, s.queue, Q.Submit(r));
    var t := Step(cfg, env, s, Found(k, nonce, hash));
    assert t.queue.history.submitted == s.queue.history.submitted + [r];
  }

  lemma FoundOnGpuKeepsInv(cfg: N.Config, env: Env, s: State, k: nat, nonces: seq<uint32>, device: nat)
    requires Inv(env, s) && k < |s.installs| && Sized(s.installs[k].job)
    ensures Inv(env, Step(cfg, env, s, FoundOnGpu(k, nonces, device)))
  {
    var b := Report(s.installs[k].job, nonces, device);
    Q.StepKeepsInv(env, s.queue, Q.SubmitBundle(b));
    var t := Step(cfg, env, s, FoundOnGpu(k, nonces, device));
    assert t.queue.history.bundles == s.queue.history.bundles + [b];
  }

  lemma QueueKeepsInv(env: Env, s: State, step: Q.Event)
    requires Inv(env, s) && !step.Submit? && !step.SubmitBundle?
    ensures Inv(env, s.(queue := Q.Step(env, s.queue, step)))
  {
    Q.StepKeepsInv(env, s.queue, step);
    LoopSubmitsNothing(env, s.queue, step);
    OnlyQueueChanged(s, Q.Step(env, s.queue, step));
  }

  lemma LoopSubmitsNothing(env: Env, q: Q.State, step: Q.Event)
    requires !step.Submit? && !step.SubmitBundle?
    ensures var t := Q.Step(env, q, step); t.history.submitted == q.history.submitted && t.history.bundles == q.history.bundles
  {
  }

  lemma OnlyQueueChanged(s: State, q: Q.State)
    requires InstallsTagged(s) && CurrentJobIsLast(s) && OriginsTracked(s)
    requires q.history.submitted == s.queue.history.submitted && q.history.bundles == s.queue.history.bundles
    ensures var t := s.(queue := q); InstallsTagged(t) && CurrentJobIsLast(t) && OriginsTracked(t)
  {
  }

  lemma StepKeepsInv(cfg: N.Config, env: Env, s: State, e: Event)
    requires Inv(env, s)
    ensures Inv(env, Step(cfg, env, s, e))
  {
    match e
    case Control(event) => ControlKeepsInv(cfg, env, s, event);
    case Found(k, nonce, hash) => if k < |s.installs| { FoundKeepsInv(cfg, env, s, k, nonce, hash); }
    case FoundOnGpu(k, nonces, device) =>
      if k < |s.installs| && Sized(s.installs[k].job) { FoundOnGpuKeepsInv(cfg, env, s, k, nonces, device); }
    case Tried(i) => QueueKeepsInv(env, s, Q.Check(i, DatasetIsThere(s, i)));
    case Loop(step) => if !step.Submit? && !step.SubmitBundle? { QueueKeepsInv(env, s, step); }
  }

  lemma {:induction false} RunKeepsInv(cfg: N.Config, env: Env, s: State, es: seq<Event>)
    requires Inv(env, s)
    ensures Inv(env, Run(cfg, env, s, es))
    decreases es
  {
    if es != [] {
      StepKeepsInv(cfg, env, s, es[0]);
      RunKeepsInv(cfg, env, Step(cfg, env, s, es[0]), es[1..]);
    }
  }

  /** The strategy that gave out the job. */
  function Owner(install: Install): N.Strategy {
    if install.donate then N.Fee else N.Main
  }

  /** The share belongs to the job that was installed as number `k`, and goes to the strategy that gave
      this job out. */
  predicate GoesToOwner(t: State, r: JobResult, k: nat) {
    && k < |t.installs|
    && r.jobId == t.installs[k].job.id
    && N.Route(t.plane.net.hasFee, r.index) == Owner(t.installs[k])
  }

  lemma QueuedShareGoesToOwner(env: Env, t: State, i: nat)
    requires Inv(env, t) && i < |t.queue.history.delivered|
    ensures i < |t.origins| && GoesToOwner(t, t.queue.history.delivered[i], t.origins[i].k)
            && IsShareOf(t.queue.history.delivered[i], t.installs[t.origins[i].k].job, t.origins[i])
  {
    assert t.queue.history.delivered[i] == t.queue.history.submitted[i];
  }

  /** The share was found in bundle `k` of batch `i`, which is finished. */
  ghost predicate FoundIn(env: Env, t: State, r: JobResult, i: nat, k: nat) {
    && i in t.queue.history.finished && i < |t.queue.batches| && i < |t.queue.trials| && k < |t.queue.trials[i]|
    && r in Accepted(env, t.queue.trials[i][k])
  }

  lemma CheckedShareGoesToOwner(env: Env, t: State, r: JobResult, i: nat, k: nat)
    requires Inv(env, t) && FoundIn(env, t, r, i, k)
    ensures var n := Q.Place(t.queue.batches, i, k);
            n < |t.bundleOrigins| && GoesToOwner(t, r, t.bundleOrigins[n])
  {
    Q.BundleAt(env, t.queue, i, k);
    var n := AcceptedCarries(env, t.queue.trials[i][k], r);
  }

  /** Over every run: the i-th share delivered from the queue was found on the job recorded for it and goes
      back to the strategy that gave out that job, however late it leaves the queue and however often the
      miner switched meanwhile. The shares delivered from the GPU batches are those found in them, batch by
      batch in the order in which these finished, and each goes to the strategy that gave out the job of the
      very bundle it was found in. */
  lemma SharesReachTheirOwner(cfg: N.Config, env: Env, s: State, es: seq<Event>)
    requires Inv(env, s)
    ensures var t := Run(cfg, env, s, es); var h := t.queue.history;
            && |h.delivered| <= |t.origins|
            && (forall i :: 0 <= i < |h.delivered| ==>
                  && GoesToOwner(t, h.delivered[i], t.origins[i].k)
                  && IsShareOf(h.delivered[i], t.installs[t.origins[i].k].job, t.origins[i]))
            && Q.CheckedOnce(env, t.queue)
            && (forall r :: r in h.checked ==> exists i: nat, k: nat :: FoundIn(env, t, r, i, k))
            && (forall r, i: nat, k: nat :: FoundIn(env, t, r, i, k) ==>
                  var n := Q.Place(t.queue.batches, i, k);
                  n < |t.bundleOrigins| && GoesToOwner(t, r, t.bundleOrigins[n]))
  {
    RunKeepsInv(cfg, env, s, es);
    var t := Run(cfg, env, s, es);
    var h := t.queue.history;
    forall i | 0 <= i < |h.delivered|
      ensures i < |t.origins| && GoesToOwner(t, h.delivered[i], t.origins[i].k)
              && IsShareOf(h.delivered[i], t.installs[t.origins[i].k].job, t.origins[i])
    {
      QueuedShareGoesToOwner(env, t, i);
    }
    if |h.delivered| > 0 {
      QueuedShareGoesToOwner(env, t, |h.delivered| - 1);
    }
    forall r | r in h.checked ensures exists i: nat, k: nat :: FoundIn(env, t, r, i, k) {
      var i, k := Q.CheckedComesFrom(env, t.queue, r);
      assert FoundIn(env, t, r, i, k);
    }
    forall r, i: nat, k: nat | FoundIn(env, t, r, i, k)
      ensures var n := Q.Place(t.queue.batches, i, k); n < |t.bundleOrigins| && GoesToOwner(t, r, t.bundleOrigins[n])
    {
      CheckedShareGoesToOwner(env, t, r, i, k);
    }
  }

  // ---- datasets and GPU bundles ----

  /** The event installs a RandomX job whose dataset is not there. */
  predicate SwitchesDataset(p: N.Plane, e: N.Event) {
    Installs(p, e) != [] && !R.InitReady(p.miner.rx, Installs(p, e)[0].job)
  }

  lemma SetJobLosesDatasetIff(s: N.M.State, next: Job, donate: bool, job: Job)
    requires N.M.WellFormed(s) && R.IsReady(s.rx, job)
    ensures R.IsReady(N.M.SetJob(s, next, donate).rx, job) <==> R.InitReady(s.rx, next)
  {
  }

  lemma InsideKeepsDataset(cfg: N.M.Config, s: N.M.State, op: N.M.Op, job: Job)
    requires N.M.WellFormed(s) && R.Valid(s.rx) && R.IsReady(s.rx, job) && !op.OpSetJob?
    ensures R.IsReady(N.M.Step(cfg, s, op).rx, job)
  {
  }

  /** A dataset that is there goes away exactly with an event that installs a job needing another one. */
  lemma DatasetLostIff(cfg: N.Config, p: N.Plane, e: N.Event, job: Job)
    requires N.WellFormed(p) && R.Valid(p.miner.rx) && R.IsReady(p.miner.rx, job)
    ensures !R.IsReady(N.Step(cfg, p, e).miner.rx, job) <==> SwitchesDataset(p, e)
  {
    match e
    case NewJob(strategy, next) => SetJobLosesDatasetIff(p.miner, next, N.IsFee(p.net, strategy), job);
    case Paused(strategy, _, resumed) => if resumed.Some? { SetJobLosesDatasetIff(p.miner, resumed.value, false, job); }
    case Inside(op) => if !op.OpSetJob? { InsideKeepsDataset(cfg.miner, p.miner, op, job); }
    case _ =>
  }

  /** No event of the run installs a job that needs another dataset. */
  ghost predicate KeepsDataset(cfg: N.Config, env: Env, s: State, es: seq<Event>)
    requires N.WellFormed(s.plane)
    decreases es
  {
    es == [] || ((es[0].Control? ==> !SwitchesDataset(s.plane, es[0].event)) && KeepsDataset(cfg, env, Step(cfg, env, s, es[0]), es[1..]))
  }

  /** So until such a job comes, bundles are checked in time. */
  lemma {:induction false} DatasetStays(cfg: N.Config, env: Env, s: State, es: seq<Event>, job: Job)
    requires Inv(env, s) && R.IsReady(s.plane.miner.rx, job) && KeepsDataset(cfg, env, s, es)
    ensures R.IsReady(Run(cfg, env, s, es).plane.miner.rx, job)
    decreases es
  {
    if es != [] {
      StepKeepsInv(cfg, env, s, es[0]);
      if es[0].Control? {
        DatasetLostIff(cfg, s.plane, es[0].event, job);
      }
      DatasetStays(cfg, env, Step(cfg, env, s, es[0]), es[1..], job);
    }
  }

  /** The trial that `Tried` adds carries the state of the dataset at that moment. */
  lemma TriedWithDataset(cfg: N.Config, env: Env, s: State, i: nat)
    requires Inv(env, s) && i < |s.queue.batches| && |s.queue.trials[i]| < |s.queue.batches[i]|
    ensures var b := s.queue.batches[i][|s.queue.trials[i]|];
            Step(cfg, env, s, Tried(i)).queue.trials[i] == s.queue.trials[i] + [Trial(b, R.IsReady(s.plane.miner.rx, b.job))]
  {
  }

  /** A RandomX bundle that waits in the pool while a job with another dataset is installed, a fee job for
      instance, loses all its shares when it is checked right after; before that job it would have
      delivered all of them. */
  lemma SwitchLosesShares(cfg: N.Config, env: Env, s: State, e: N.Event, i: nat)
    requires Inv(env, s) && i < |s.queue.batches| && |s.queue.trials[i]| < |s.queue.batches[i]|
    requires SwitchesDataset(s.plane, e)
    requires var b := s.queue.batches[i][|s.queue.trials[i]|]; IsRandomX(b.job) && R.IsReady(s.plane.miner.rx, b.job)
    ensures var b := s.queue.batches[i][|s.queue.trials[i]|];
            var early := Step(cfg, env, s, Tried(i)).queue.trials[i];
            var late := Step(cfg, env, Step(cfg, env, s, Control(e)), Tried(i)).queue.trials[i];
            && early == s.queue.trials[i] + [Trial(b, true)] && Accepted(env, Trial(b, true)) == Due(env, b)
            && late == s.queue.trials[i] + [Trial(b, false)] && Accepted(env, Trial(b, false)) == []
            && Missed(env, Trial(b, false)) == Due(env, b)
  {
    var b := s.queue.batches[i][|s.queue.trials[i]|];
    TriedWithDataset(cfg, env, s, i);
    DatasetLostIff(cfg, s.plane, e, b.job);
    ControlKeepsInv(cfg, env, s, e);
    TriedWithDataset(cfg, env, Step(cfg, env, s, Control(e)), i);
  }
}
