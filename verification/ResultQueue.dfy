/** The hand-over of shares from the worker threads to the event loop (class `JobResultsPrivate` of
    src/net/JobResults.cpp): lists filled and swapped under a mutex, a coalescing wake-up
    (src/base/io/Async.cpp), and batches of GPU nonces checked on other threads. */
module ResultQueue {
  import opened Sequences
  import opened Jobs
  import opened JobResults

  /** Where the event loop is: not in the callback, in it but before the swap, or working off the
      lists it swapped out. */
  datatype Phase = Idle | Woken | Draining(results: seq<JobResult>, bundles: seq<Bundle>)

  /** History: what was submitted, what was delivered from the queue, the batches whose work is finished,
      in this order, and what was delivered from them. */
  datatype History = History(
    submitted: seq<JobResult>,
    delivered: seq<JobResult>,
    bundles: seq<Bundle>,
    finished: seq<nat>,
    checked: seq<JobResult>)

  /** `trials`: for each batch, the bundles that were checked so far. */
  datatype State = State(
    results: seq<JobResult>,
    bundles: seq<Bundle>,
    wake: bool,
    phase: Phase,
    batches: seq<seq<Bundle>>,
    trials: seq<seq<Trial>>,
    history: History)

  const EMPTY: State := State([], [], false, Idle, [], [], History([], [], [], [], []))

  datatype Event =
    | Submit(result: JobResult)
    | SubmitBundle(bundle: Bundle)
    | Wake
    | Swap
    | Deliver
    | Queue
    | Check(batch: nat, ready: bool)
    | Finish(batch: nat)

  /** `Check`: a thread of the pool checks the next bundle of a batch, with the dataset there or not.
      `Finish`: all bundles of a batch are checked, and its shares go to the listener. */
  function Step(env: Env, s: State, e: Event): State {
    match e
    case Submit(r) =>
      s.(results := s.results + [r], wake := true, history := s.history.(submitted := s.history.submitted + [r]))
    case SubmitBundle(b) =>
      s.(bundles := s.bundles + [b], wake := true, history := s.history.(bundles := s.history.bundles + [b]))
    case Wake =>
      if s.wake && s.phase.Idle? then s.(wake := false, phase := Woken) else s
    case Swap =>
      if s.phase.Woken? then s.(phase := Draining(s.results, s.bundles), results := [], bundles := []) else s
    case Deliver =>
      if s.phase.Draining? && s.phase.results != [] then
        s.(phase := Draining(s.phase.results[1..], s.phase.bundles),
           history := s.history.(delivered := s.history.delivered + [s.phase.results[0]]))
      else s
    case Queue =>
      if s.phase.Draining? && s.phase.results == [] then
        if s.phase.bundles == [] then s.(phase := Idle)
        else s.(phase := Idle, batches := s.batches + [s.phase.bundles], trials := s.trials + [[]])
      else s
    case Check(i, ready) =>
      if i < |s.batches| && i < |s.trials| && |s.trials[i]| < |s.batches[i]| then
        s.(trials := s.trials[i := s.trials[i] + [Trial(s.batches[i][|s.trials[i]|], ready)]])
      else s
    case Finish(i) =>
      if i < |s.batches| && i < |s.trials| && |s.trials[i]| == |s.batches[i]| && i !in s.history.finished then
        s.(history := s.history.(finished := s.history.finished + [i],
                                 checked := s.history.checked + AllAccepted(env, s.trials[i])))
      else s
  }

  function Run(env: Env, s: State, es: seq<Event>): State
    decreases es
  {
    if es == [] then s else Run(env, Step(env, s, es[0]), es[1..])
  }

  function InDrain(s: State): seq<JobResult> {
    if s.phase.Draining? then s.phase.results else []
  }

  function BundlesInDrain(s: State): seq<Bundle> {
    if s.phase.Draining? then s.phase.bundles else []
  }

  /** The shares submitted are those delivered, in the drain and queued, in this order. */
  ghost predicate SharesInOrder(s: State) {
    s.history.submitted == s.history.delivered + InDrain(s) + s.results
  }

  function Placed(batches: seq<seq<Bundle>>, drain: seq<Bundle>, queued: seq<Bundle>): seq<Bundle> {
    Flatten(batches) + drain + queued
  }

  /** Each GPU bundle is in exactly one place: in a batch, in the drain or queued. */
  ghost predicate BundlesInOrder(s: State) {
    s.history.bundles == Placed(s.batches, BundlesInDrain(s), s.bundles)
  }

  /** The trials of a batch are those of its first bundles, and of all of them once it has finished. */
  ghost predicate TrialsTrack(s: State) {
    && |s.trials| == |s.batches|
    && (forall i :: 0 <= i < |s.batches| ==> Bundles(s.trials[i]) <= s.batches[i])
    && (forall i :: i in s.history.finished && i < |s.batches| ==> |s.trials[i]| == |s.batches[i]|)
  }

  /** The shares found so far in each batch. */
  ghost function BatchShares(env: Env, trials: seq<seq<Trial>>): (xss: seq<seq<JobResult>>)
    ensures |xss| == |trials|
  {
    seq(|trials|, i requires 0 <= i < |trials| => AllAccepted(env, trials[i]))
  }

  /** Each finished batch has had the shares found in it delivered, once, in the order of the batch. */
  ghost predicate CheckedOnce(env: Env, s: State) {
    && IsOrder(s.history.finished, |s.trials|)
    && s.history.checked == Flatten(Picked(BatchShares(env, s.trials), s.history.finished))
  }

  /** Nothing is lost, duplicated, reordered or stranded on the way. */
  ghost predicate Inv(env: Env, s: State) {
    && SharesInOrder(s) && BundlesInOrder(s) && TrialsTrack(s) && CheckedOnce(env, s)
    && (s.results != [] || s.bundles != [] ==> s.wake || s.phase.Woken?)
  }

  lemma SharesStayInOrder(env: Env, s: State, e: Event)
    requires SharesInOrder(s)
    ensures SharesInOrder(Step(env, s, e))
  {
    var d := s.history.delivered;
    match e
    case Submit(r) =>
      assert d + InDrain(s) + (s.results + [r]) == (d + InDrain(s) + s.results) + [r];
    case Deliver =>
      if s.phase.Draining? && s.phase.results != [] {
        var rs := s.phase.results;
        assert (d + [rs[0]]) + rs[1..] == d + rs;
      }
    case _ =>
  }

  lemma BundlesStayInOrder(env: Env, s: State, e: Event)
    requires BundlesInOrder(s)
    ensures BundlesInOrder(Step(env, s, e))
  {
    match e
    case SubmitBundle(b) => SubmitAddsPlace(s.batches, BundlesInDrain(s), s.bundles, b);
    case Swap => SwapKeepsPlaces(s.batches, s.bundles);
    case Queue => QueueKeepsBundles(env, s);
    case _ => BundlesStay(env, s, e);
  }

  lemma BundlesStay(env: Env, s: State, e: Event)
    requires !e.SubmitBundle? && !e.Swap? && !e.Queue?
    ensures var t := Step(env, s, e);
            t.batches == s.batches && BundlesInDrain(t) == BundlesInDrain(s) && t.bundles == s.bundles && t.history.bundles == s.history.bundles
  {
  }

  lemma QueueKeepsBundles(env: Env, s: State)
    requires BundlesInOrder(s)
    ensures BundlesInOrder(Step(env, s, Queue))
  {
    if s.phase.Draining? {
      QueueKeepsPlaces(s.batches, s.phase.bundles, s.bundles);
    }
  }

  lemma SubmitAddsPlace(batches: seq<seq<Bundle>>, drain: seq<Bundle>, queued: seq<Bundle>, b: Bundle)
    ensures Placed(batches, drain, queued + [b]) == Placed(batches, drain, queued) + [b]
  {
    Associate(Flatten(batches) + drain, queued, [b]);
  }

  lemma SwapKeepsPlaces(batches: seq<seq<Bundle>>, queued: seq<Bundle>)
    ensures Placed(batches, [], queued) == Placed(batches, queued, [])
  {
  }

  lemma QueueKeepsPlaces(batches: seq<seq<Bundle>>, drain: seq<Bundle>, queued: seq<Bundle>)
    ensures Placed(batches + [drain], [], queued) == Placed(batches, drain, queued)
  {
    FlattenSnoc(batches, drain);
  }

  lemma TrialsStayTracked(env: Env, s: State, e: Event)
    requires TrialsTrack(s) && IsOrder(s.history.finished, |s.trials|)
    ensures TrialsTrack(Step(env, s, e))
  {
    if e.Check? && e.batch < |s.batches| && |s.trials[e.batch]| < |s.batches[e.batch]| {
      TrialIsNext(s.batches[e.batch], s.trials[e.batch], e.ready);
    }
  }

  lemma TrialIsNext(batch: seq<Bundle>, ts: seq<Trial>, ready: bool)
    requires Bundles(ts) <= batch && |ts| < |batch|
    ensures Bundles(ts + [Trial(batch[|ts|], ready)]) <= batch
  {
    BundlesSnoc(ts, Trial(batch[|ts|], ready));
  }

  lemma BatchesStayChecked(env: Env, s: State, e: Event)
    requires TrialsTrack(s) && CheckedOnce(env, s)
    ensures CheckedOnce(env, Step(env, s, e))
  {
    var order, xss := s.history.finished, BatchShares(env, s.trials);
    match e
    case Queue =>
      BatchSharesSnoc(env, s.trials, []);
      PickedStays(xss, order, AllAccepted(env, []));
    case Check(i, ready) =>
      if i < |s.batches| && |s.trials[i]| < |s.batches[i]| {
        assert i !in order;
        SharesUnchanged(env, s.trials, order, i, s.trials[i] + [Trial(s.batches[i][|s.trials[i]|], ready)]);
      }
    case Finish(i) =>
      if i < |s.batches| && i !in order {
        PickOneMore(xss, order, i);
      }
    case _ =>
  }

  lemma BatchSharesSnoc(env: Env, trials: seq<seq<Trial>>, ts: seq<Trial>)
    ensures BatchShares(env, trials + [ts]) == BatchShares(env, trials) + [AllAccepted(env, ts)]
  {
  }

  /** What is done to a batch that has not finished does not touch the shares delivered. */
  lemma SharesUnchanged(env: Env, trials: seq<seq<Trial>>, order: seq<nat>, i: nat, ts: seq<Trial>)
    requires IsOrder(order, |trials|) && i < |trials| && i !in order
    ensures Picked(BatchShares(env, trials[i := ts]), order) == Picked(BatchShares(env, trials), order)
  {
    assert BatchShares(env, trials[i := ts]) == BatchShares(env, trials)[i := AllAccepted(env, ts)];
    PickedUnchanged(BatchShares(env, trials), order, i, AllAccepted(env, ts));
  }

  lemma StepKeepsInv(env: Env, s: State, e: Event)
    requires Inv(env, s)
    ensures Inv(env, Step(env, s, e))
  {
    SharesStayInOrder(env, s, e);
    BundlesStayInOrder(env, s, e);
    TrialsStayTracked(env, s, e);
    BatchesStayChecked(env, s, e);
  }

  /** Over every interleaving of submissions, wake-ups, drains, checks and finished batches: the shares
      submitted are the shares delivered, in the drain and queued, in this order; a queue that is not empty
      has a wake-up pending or a callback that has yet to swap; each GPU bundle is in one place, and tried
      at most once; and the shares found in every finished batch were delivered once, in order. */
  lemma {:induction false} NothingIsLost(env: Env, s: State, es: seq<Event>)
    requires Inv(env, s)
    ensures Inv(env, Run(env, s, es))
    decreases es
  {
    if es != [] {
      StepKeepsInv(env, s, es[0]);
      NothingIsLost(env, Step(env, s, es[0]), es[1..]);
    }
  }

  lemma EmptyInv(env: Env)
    ensures Inv(env, EMPTY)
  {
    NothingChecked(env);
    assert TrialsTrack(EMPTY) && SharesInOrder(EMPTY) && BundlesInOrder(EMPTY);
  }

  lemma NothingChecked(env: Env)
    ensures CheckedOnce(env, EMPTY)
  {
    assert Picked(BatchShares(env, []), []) == [];
  }

  // ---- everything is delivered in the end ----

  /** A loop with no wake-up pending and no callback running has delivered every share and handed on
      every bundle. */
  lemma QuietMeansDelivered(env: Env, s: State)
    requires Inv(env, s) && !s.wake && s.phase.Idle?
    ensures s.history.delivered == s.history.submitted
    ensures s.history.bundles == Flatten(s.batches)
  {
    assert s.results == [] && s.bundles == [];
  }

  /** How far the event loop is from having nothing to do. */
  function Remaining(s: State): nat {
    match s.phase
    case Idle => if s.wake then 3 + |s.results| else 0
    case Woken => 2 + |s.results| + (if s.wake then 3 else 0)
    case Draining(rs, _) => 1 + |rs| + (if s.wake then 3 + |s.results| else 0)
  }

  /** The step of the event loop that is possible next, if any. */
  function NextStep(s: State): Event {
    match s.phase
    case Idle => Wake
    case Woken => Swap
    case Draining(rs, _) => if rs == [] then Queue else Deliver
  }

  lemma NextStepGetsCloser(env: Env, s: State)
    requires Remaining(s) > 0
    ensures var t := Step(env, s, NextStep(s));
            Remaining(t) == Remaining(s) - 1 && t.history.submitted == s.history.submitted && t.history.bundles == s.history.bundles
  {
  }

  /** Left alone by the workers, the event loop delivers every share and hands on every bundle in a known
      number of steps. */
  lemma {:induction false} LoopDrains(env: Env, s: State) returns (es: seq<Event>)
    requires Inv(env, s)
    ensures |es| == Remaining(s)
    ensures var t := Run(env, s, es);
            && Inv(env, t) && t.history.submitted == s.history.submitted && t.history.bundles == s.history.bundles
            && t.history.delivered == t.history.submitted && t.history.bundles == Flatten(t.batches)
    decreases Remaining(s)
  {
    if Remaining(s) == 0 {
      es := [];
      QuietMeansDelivered(env, s);
    } else {
      var e := NextStep(s);
      StepKeepsInv(env, s, e);
      NextStepGetsCloser(env, s);
      var rest := LoopDrains(env, Step(env, s, e));
      es := [e] + rest;
      assert es[1..] == rest;
    }
  }

  // ---- the shares of the GPU bundles ----

  lemma {:induction false} SharesOfAllBatches(env: Env, trials: seq<seq<Trial>>)
    ensures Flatten(BatchShares(env, trials)) == AllAccepted(env, Flatten(trials))
  {
    if trials == [] {
      assert Parts(env, []) == [];
    } else {
      var before, last := trials[..|trials| - 1], trials[|trials| - 1];
      SharesOfAllBatches(env, before);
      BatchSharesSnoc(env, before, last);
      FlattenSnoc(BatchShares(env, before), AllAccepted(env, last));
      AllAcceptedAppend(env, Flatten(before), last);
      assert trials == before + [last];
    }
  }

  lemma {:induction false} BundlesOfAllTrials(trials: seq<seq<Trial>>, batches: seq<seq<Bundle>>)
    requires |trials| == |batches| && forall i :: 0 <= i < |trials| ==> Bundles(trials[i]) == batches[i]
    ensures Bundles(Flatten(trials)) == Flatten(batches)
  {
    if trials != [] {
      BundlesOfAllTrials(trials[..|trials| - 1], batches[..|batches| - 1]);
    }
  }

  /** The loop is quiet, and every batch has finished. */
  ghost predicate Settled(env: Env, s: State) {
    Inv(env, s) && !s.wake && s.phase.Idle? && IsComplete(s.history.finished, |s.batches|)
  }

  lemma SettledTrials(env: Env, s: State)
    requires Settled(env, s)
    ensures Bundles(Flatten(s.trials)) == s.history.bundles
    ensures multiset(s.history.checked) == multiset(AllAccepted(env, Flatten(s.trials)))
  {
    QuietMeansDelivered(env, s);
    forall i | 0 <= i < |s.batches| ensures Bundles(s.trials[i]) == s.batches[i] {
      var n: nat := i;
      assert n in s.history.finished;
    }
    BundlesOfAllTrials(s.trials, s.batches);
    AllPicked(BatchShares(env, s.trials), s.history.finished);
    SharesOfAllBatches(env, s.trials);
  }

  /** In whatever order the batches finish: the shares delivered from them, and the shares missed because a
      dataset was gone when its bundle was checked, are together the shares due from all bundles submitted,
      each exactly once. */
  lemma GpuSharesAreConserved(env: Env, s: State)
    requires Settled(env, s)
    ensures multiset(s.history.checked) + multiset(AllMissed(env, Flatten(s.trials))) == multiset(AllDue(env, s.history.bundles))
  {
    SettledTrials(env, s);
    DueIsConserved(env, Flatten(s.trials));
  }

  /** So all shares due are delivered exactly when each RandomX bundle with a share in it was checked while
      its dataset was there. */
  lemma AllDeliveredIff(env: Env, s: State)
    requires Settled(env, s)
    ensures multiset(s.history.checked) == multiset(AllDue(env, s.history.bundles)) <==> AllInTime(env, Flatten(s.trials))
  {
    GpuSharesAreConserved(env, s);
    NoneMissedIff(env, Flatten(s.trials));
    var missed := AllMissed(env, Flatten(s.trials));
    assert |multiset(s.history.checked) + multiset(missed)| == |multiset(s.history.checked)| + |missed|;
  }

  /** A bundle that comes alone through an empty queue. */
  function OneBundle(b: Bundle, ready: bool): seq<Event> {
    [SubmitBundle(b), Wake, Swap, Queue, Check(0, ready), Finish(0)]
  }

  lemma RunFirst(env: Env, s: State, e: Event, es: seq<Event>)
    ensures Run(env, s, [e] + es) == Run(env, Step(env, s, e), es)
  {
    assert ([e] + es)[1..] == es;
  }

  /** The queue after the hand-over of that bundle, with the trials and the history given. */
  function Handed(b: Bundle, trials: seq<seq<Trial>>, h: History): State {
    State([], [], false, Idle, [[b]], trials, h)
  }

  lemma BundleIsHanded(env: Env, b: Bundle, es: seq<Event>)
    ensures Run(env, EMPTY, [SubmitBundle(b)] + ([Wake] + ([Swap] + ([Queue] + es))))
            == Run(env, Handed(b, [[]], History([], [], [b], [], [])), es)
  {
    var h := History([], [], [b], [], []);
    var s1 := State([], [b], true, Idle, [], [], h);
    var s3 := State([], [], false, Draining([], [b]), [], [], h);
    var s2 := s1.(wake := false, phase := Woken);
    assert Step(env, EMPTY, SubmitBundle(b)) == s1;
    assert Step(env, s1, Wake) == s2 && Step(env, s2, Swap) == s3;
    assert s3.batches + [[b]] == [[b]] && |s3.trials + [[]]| == 1;
    assert Step(env, s3, Queue) == Handed(b, [[]], h);
    RunFirst(env, EMPTY, SubmitBundle(b), [Wake] + ([Swap] + ([Queue] + es)));
    RunFirst(env, s1, Wake, [Swap] + ([Queue] + es));
    RunFirst(env, s2, Swap, [Queue] + es);
    RunFirst(env, s3, Queue, es);
  }

  lemma HandedIsChecked(env: Env, b: Bundle, ready: bool, h: History)
    requires h.finished == []
    ensures var t := Trial(b, ready);
            Run(env, Handed(b, [[]], h), [Check(0, ready)] + [Finish(0)])
            == Handed(b, [[t]], h.(finished := [0], checked := h.checked + AllAccepted(env, [t])))
  {
    var t := Trial(b, ready);
    var none: seq<Trial> := [];
    assert |none| == 0 && none + [t] == [t];
    assert [none][0 := [t]] == [[t]];
    assert Step(env, Handed(b, [none], h), Check(0, ready)) == Handed(b, [[t]], h);
    RunFirst(env, Handed(b, [[]], h), Check(0, ready), [Finish(0)]);
    RunFirst(env, Handed(b, [[t]], h), Finish(0), []);
    assert [Finish(0)] + [] == [Finish(0)];
  }

  lemma OneBundleRuns(env: Env, b: Bundle, ready: bool)
    ensures Run(env, EMPTY, OneBundle(b, ready)).history.checked == Accepted(env, Trial(b, ready))
  {
    var es := [Check(0, ready)] + [Finish(0)];
    assert OneBundle(b, ready) == [SubmitBundle(b)] + ([Wake] + ([Swap] + ([Queue] + es)));
    BundleIsHanded(env, b, es);
    HandedIsChecked(env, b, ready, History([], [], [b], [], []));
    SingleAccepted(env, Trial(b, ready));
  }

  /** Every RandomX bundle whose dataset is gone when it is checked loses all its shares; checked in time, it
      delivers all of them. */
  lemma LateCheckLosesShares(env: Env, b: Bundle)
    requires IsRandomX(b.job)
    ensures Run(env, EMPTY, OneBundle(b, false)).history.checked == []
    ensures Run(env, EMPTY, OneBundle(b, true)).history.checked == Due(env, b)
  {
    OneBundleRuns(env, b, false);
    OneBundleRuns(env, b, true);
  }

  lemma SingleAccepted(env: Env, t: Trial)
    ensures AllAccepted(env, [t]) == Accepted(env, t)
  {
    assert Parts(env, []) == [];
    AllAcceptedSnoc(env, [], t);
    assert [] + [t] == [t];
  }

  // ---- the thread pool ----

  /** Only the thread pool has worked between the two. */
  predicate OnlyPool(s: State, t: State) {
    && t.batches == s.batches && t.wake == s.wake && t.phase == s.phase
    && t.history.bundles == s.history.bundles && t.history.delivered == s.history.delivered
  }

  predicate IsPoolEvent(e: Event) {
    e.Check? || e.Finish?
  }

  lemma CheckStep(env: Env, s: State, i: nat, ready: bool)
    requires TrialsTrack(s) && i < |s.batches| && |s.trials[i]| < |s.batches[i]|
    ensures var t := Step(env, s, Check(i, ready));
            OnlyPool(s, t) && t.history.finished == s.history.finished && |t.trials| == |s.trials| && |t.trials[i]| == |s.trials[i]| + 1
  {
  }

  lemma FinishStep(env: Env, s: State, i: nat)
    requires TrialsTrack(s) && i < |s.batches| && |s.trials[i]| == |s.batches[i]| && IsComplete(s.history.finished, i)
    ensures var t := Step(env, s, Finish(i)); OnlyPool(s, t) && IsComplete(t.history.finished, i + 1)
  {
    var t := Step(env, s, Finish(i));
    assert i in t.history.finished && s.history.finished <= t.history.finished;
  }

  /** How many bundles of batch `i` are still to be checked. */
  function Unchecked(s: State, i: nat): int {
    if i < |s.batches| && i < |s.trials| then |s.batches[i]| - |s.trials[i]| else 0
  }

  /** And the thread pool gets there: whatever the answers about the datasets, every batch that is still open
      finishes. */
  lemma {:induction false} PoolFinishes(env: Env, s: State, i: nat, answer: (nat, nat) -> bool) returns (es: seq<Event>)
    requires Inv(env, s) && i <= |s.batches| && IsComplete(s.history.finished, i)
    ensures forall e :: e in es ==> IsPoolEvent(e)
    ensures var t := Run(env, s, es); Inv(env, t) && OnlyPool(s, t) && IsComplete(t.history.finished, |t.batches|)
    decreases |s.batches| - i, Unchecked(s, i)
  {
    es := [];
    if i < |s.batches| {
      var open := |s.trials[i]| < |s.batches[i]|;
      var e := if open then Check(i, answer(i, |s.trials[i]|)) else Finish(i);
      StepKeepsInv(env, s, e);
      if open {
        CheckStep(env, s, i, answer(i, |s.trials[i]|));
      } else {
        FinishStep(env, s, i);
      }
      var rest := PoolFinishes(env, Step(env, s, e), if open then i else i + 1, answer);
      RunFirst(env, s, e, rest);
      es := [e] + rest;
    }
  }

  // ---- where a share comes from ----

  /** The place of a bundle of a batch among all bundles submitted. */
  ghost function Place(batches: seq<seq<Bundle>>, i: nat, k: nat): nat
    requires i <= |batches|
  {
    |Flatten(batches[..i])| + k
  }

  lemma BundleAt(env: Env, s: State, i: nat, k: nat)
    requires Inv(env, s) && i < |s.batches| && k < |s.trials[i]|
    ensures var n := Place(s.batches, i, k);
            k < |s.batches[i]| && n < |s.history.bundles| && s.history.bundles[n] == s.trials[i][k].bundle
  {
    assert Bundles(s.trials[i])[k] == s.batches[i][k];
    FlattenAt(s.batches, i, k);
  }

  /** A share delivered from a batch was found in one of its bundles. */
  lemma CheckedComesFrom(env: Env, s: State, r: JobResult) returns (i: nat, k: nat)
    requires Inv(env, s) && r in s.history.checked
    ensures i in s.history.finished && i < |s.trials| && k < |s.trials[i]| && r in Accepted(env, s.trials[i][k])
  {
    var f := FlattenMember(Picked(BatchShares(env, s.trials), s.history.finished), r);
    i := s.history.finished[f];
    k := FlattenMember(Parts(env, s.trials[i]), r);
  }

  /** The object itself. `wake`, `phase` and `history` are not fields of the source: they stand for the
      wake-up flag of the async handle and for the progress of the callback. `batches` are the batons given
      to the thread pool. */
  class JobResultsPrivate {
    const env: Env
    var mResults: seq<JobResult>
    var mBundles: seq<Bundle>
    var wake: bool
    var batches: seq<seq<Bundle>>
    ghost var trials: seq<seq<Trial>>
    ghost var phase: Phase
    ghost var history: History

    ghost function Value(): State
      reads this
    {
      State(mResults, mBundles, wake, phase, batches, trials, history)
    }

    constructor (env: Env)
      ensures this.env == env && Value() == EMPTY
    {
      this.env := env;
      mResults, mBundles, wake, batches := [], [], false, [];
      trials, phase, history := [], Idle, EMPTY.history;
    }

    method SubmitResult(result: JobResult)
      modifies this`mResults, this`wake, this`history
      ensures Value() == Step(env, old(Value()), Submit(result))
    {
      mResults := mResults + [result];
      wake := true;
      history := history.(submitted := history.submitted + [result]);
    }

    method SubmitJob(bundle: Bundle)
      modifies this`mBundles, this`wake, this`history
      ensures Value() == Step(env, old(Value()), SubmitBundle(bundle))
    {
      mBundles := mBundles + [bundle];
      wake := true;
      history := history.(bundles := history.bundles + [bundle]);
    }

    /** Only submissions have happened since. */
    twostate predicate OnlySubmitted()
      reads this
    {
      && old(mResults) <= mResults && old(mBundles) <= mBundles && (old(wake) ==> wake)
      && history == old(history).(submitted := history.submitted, bundles := history.bundles)
      && (old(Inv(env, Value())) ==> Inv(env, Value()))
    }

    /** The worker threads submit what they like. */
    method WorkersRun()
      modifies this`mResults, this`mBundles, this`wake, this`history
      ensures OnlySubmitted()
    {
      var n: int := *;
      var i := 0;
      while i < n
        invariant old(mResults) <= mResults && old(mBundles) <= mBundles && (old(wake) ==> wake)
        invariant history == old(history).(submitted := history.submitted, bundles := history.bundles)
        invariant old(Inv(env, Value())) ==> Inv(env, Value())
        decreases n - i
      {
        ghost var here := Value();
        var gpu: bool := *;
        if gpu {
          var bundle: Bundle := *;
          SubmitJob(bundle);
          if Inv(env, here) { StepKeepsInv(env, here, SubmitBundle(bundle)); }
        } else {
          var result: JobResult := *;
          SubmitResult(result);
          if Inv(env, here) { StepKeepsInv(env, here, Submit(result)); }
        }
        i := i + 1;
      }
    }

    /** The loop of the callback that gives the swapped-out shares to the listener, while the workers go
        on submitting. */
    method DeliverAll(results: seq<JobResult>, ghost bundles: seq<Bundle>) returns (delivered: seq<JobResult>)
      requires phase == Draining(results, bundles)
      modifies this`mResults, this`mBundles, this`wake, this`phase, this`history
      ensures delivered == results && phase == Draining([], bundles)
      ensures history == old(history).(submitted := history.submitted, bundles := history.bundles,
                                       delivered := old(history).delivered + results)
      ensures old(Inv(env, Value())) ==> Inv(env, Value())
    {
      delivered := [];
      for i := 0 to |results|
        invariant delivered == results[..i] && phase == Draining(results[i..], bundles)
        invariant history == old(history).(submitted := history.submitted, bundles := history.bundles,
                                           delivered := old(history).delivered + delivered)
        invariant old(Inv(env, Value())) ==> Inv(env, Value())
      {
        WorkersRun();
        ghost var here := Value();
        assert here.phase.results[1..] == results[i + 1..];
        delivered := delivered + [results[i]];
        history := history.(delivered := history.delivered + [results[i]]);
        phase := Draining(results[i + 1..], bundles);
        assert Value() == Step(env, here, Deliver);
        if Inv(env, here) {
          StepKeepsInv(env, here, Deliver);
        }
      }
    }

    /** The swap under the mutex; the workers may have submitted since the wake-up. */
    method TakeLists() returns (results: seq<JobResult>, batch: seq<Bundle>)
      requires wake && phase.Idle?
      modifies this`mResults, this`mBundles, this`wake, this`phase, this`history
      ensures old(mResults) <= results && old(mBundles) <= batch && phase == Draining(results, batch)
      ensures history == old(history).(submitted := history.submitted, bundles := history.bundles)
      ensures old(Inv(env, Value())) ==> Inv(env, Value())
    {
      ghost var before := Value();
      wake, phase := false, Woken;
      assert Value() == Step(env, before, Wake);
      if Inv(env, before) {
        StepKeepsInv(env, before, Wake);
      }
      WorkersRun();
      ghost var here := Value();
      results, batch := mResults, mBundles;
      mResults, mBundles := [], [];
      phase := Draining(results, batch);
      assert Value() == Step(env, here, Swap);
      if Inv(env, here) {
        StepKeepsInv(env, here, Swap);
      }
    }

    /** The callback of the async handle, whatever the workers submit meanwhile: everything that was queued
        at the wake-up is delivered or handed on, in order, and what came later is not forgotten. */
    method OnAsync() returns (delivered: seq<JobResult>, batch: seq<Bundle>)
      requires wake && phase.Idle?
      modifies this
      ensures phase.Idle? && old(mResults) <= delivered && old(mBundles) <= batch
      ensures history == old(history).(submitted := history.submitted, bundles := history.bundles,
                                       delivered := old(history).delivered + delivered)
      ensures batches == if batch == [] then old(batches) else old(batches) + [batch]
      ensures old(Inv(env, Value())) ==> Inv(env, Value()) && (mResults != [] || mBundles != [] ==> wake)
    {
      var results;
      results, batch := TakeLists();
      delivered := DeliverAll(results, batch);
      ghost var last := Value();
      phase := Idle;
      if batch != [] {
        batches, trials := batches + [batch], trials + [[]];
      }
      assert Value() == Step(env, last, Queue);
      if Inv(env, last) {
        StepKeepsInv(env, last, Queue);
      }
    }

    /** The two callbacks of a batch: the check on a thread of the pool, which asks for the dataset of each
        bundle in turn, and the delivery on the loop, while the workers go on submitting. */
    method OnBatch(i: nat) returns (delivered: seq<JobResult>)
      requires i < |batches| && i !in history.finished && Inv(env, Value())
      modifies this`mResults, this`mBundles, this`wake, this`trials, this`history
      ensures i < |trials| && Bundles(trials[i]) == batches[i] && delivered == AllAccepted(env, trials[i])
      ensures history == old(history).(submitted := history.submitted, bundles := history.bundles,
                                       finished := old(history).finished + [i], checked := old(history).checked + delivered)
      ensures Inv(env, Value())
    {
      var results := CheckBatch(i);
      delivered := DeliverBatch(results);
      Close(i, delivered);
    }

    ghost method Close(i: nat, delivered: seq<JobResult>)
      requires i < |batches| && i < |trials| && Bundles(trials[i]) == batches[i] && i !in history.finished
      requires Inv(env, Value()) && delivered == AllAccepted(env, trials[i])
      modifies this`history
      ensures history == old(history).(finished := old(history).finished + [i], checked := old(history).checked + delivered)
      ensures Inv(env, Value())
    {
      ghost var here := Value();
      StepKeepsInv(env, here, Finish(i));
      history := history.(finished := history.finished + [i], checked := history.checked + delivered);
      assert Value() == Step(env, here, Finish(i));
    }

    /** The first callback: the check on a thread of the pool. */
    method CheckBatch(i: nat) returns (results: seq<JobResult>)
      requires i < |batches| && i !in history.finished && Inv(env, Value())
      modifies this`trials
      ensures i < |trials| && Bundles(trials[i]) == batches[i] && results == AllAccepted(env, trials[i])
      ensures Inv(env, Value())
    {
      var errors, tried;
      results, errors, tried := CheckBundles(env, batches[i]);
      TrialsAreDone(env, Value(), i, tried);
      trials := trials[i := tried];
    }

    /** The loop of the second callback. */
    method DeliverBatch(results: seq<JobResult>) returns (delivered: seq<JobResult>)
      modifies this`mResults, this`mBundles, this`wake, this`history
      ensures delivered == results
      ensures history == old(history).(submitted := history.submitted, bundles := history.bundles)
      ensures old(Inv(env, Value())) ==> Inv(env, Value())
    {
      delivered := [];
      for k := 0 to |results|
        invariant delivered == results[..k]
        invariant history == old(history).(submitted := history.submitted, bundles := history.bundles)
        invariant old(Inv(env, Value())) ==> Inv(env, Value())
      {
        WorkersRun();
        delivered := delivered + [results[k]];
      }
    }
  }

  lemma TrialsAreDone(env: Env, s: State, i: nat, ts: seq<Trial>)
    requires Inv(env, s) && i < |s.batches| && i !in s.history.finished && Bundles(ts) == s.batches[i]
    ensures Inv(env, s.(trials := s.trials[i := ts]))
  {
    SharesUnchanged(env, s.trials, s.history.finished, i, ts);
  }
}
