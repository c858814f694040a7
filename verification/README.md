# poolpayminer: verified models

poolpayminer is a fork of a CPU/GPU miner with a 1 % fee, an automatic mode that follows the best coin, and a
Riecoin mode that hands over to a bundled program. This project models the parts of it that are state machines,
polling loops, bit loops and translations, and proves what they keep over every run and every input.

* **Shared.** `Basics` and `Sequences`.
* **The mining control plane.** `Jobs`, `RxQueue`, `MinerSteps`, `Miner`, `MinerProofs`, `MinerEffects` (src/core/Miner.cpp with the
  nonce counters and the dataset queue), `NetworkSteps`, `Network`, `NetworkProofs`, `NetworkEffects` (src/net/Network.cpp),
  `JobResults`, `ResultQueue` (src/net/JobResults.cpp) and `ControlPlane`, which puts them together. Each callback is
  a method of a class that changes its fields step by step and is proved equal to a step function on values; the
  properties of whole runs are proved about the step functions.
* **The two supervisors.** `Processes` (system calls, and a trace of what happened to every process), `FeeSchedule`,
  `AutoSwitch`, `AutoArgs` (src/autoswitch/AutoSwitch.cpp), `Slots`, `Dispatch`, `DispatchArgs`, `RieConfig`
  (src/riecoin/Dispatch.cpp). The operating system is nondeterministic: a process may end at any poll, a fork or a
  write may fail, a shutdown may be asked for at any test. What a supervisor did is judged from the trace it leaves.
* **The Base32 encoder.** `Base32` (src/3rdparty/base32/base32.h), against section 6 of RFC 4648.
* **fmt.** `FormatCompile` (src/3rdparty/fmt/compile.h), `ChronoFormat` and `DurationCast`
  (src/3rdparty/fmt/chrono.h).

## What came out

The following promises do not hold as they are written. For each there are lemmas that say exactly when it is kept,
and lemmas that show inputs on which it is not.

* *A fee round never makes the miner rescan user nonces* (comments in src/core/Miner.cpp:607 and :622-623) fails when
  the pool repeats the user's job while its dataset is rebuilt after the fee round (`RepeatWhileWaitingRescans`,
  reached from the start of the program in `FeeRoundExample`), when a dataset wake-up arrives for a job that found its
  dataset ready (`StaleWakeRescans`), and when a job with the same id and blob needs another dataset
  (`OtherDatasetRescans`). `ResetsAreHits` counts the resets of every run exactly, `ResetsAreMisses` those of every
  orderly run.
* *The fee round survives restarts* (src/autoswitch/AutoSwitch.cpp:54-64, :574-576) fails when the state file cannot
  be rewritten after a round but can still be read: the next start repeats the round at once
  (`StaleFileRepeatsRound`, exact condition in `EarlyRoundIff`). A file that is lost altogether shortens the
  distance between rounds to 2970 s.
* *A format string compiles only if it is well formed*: the translation takes a single closing brace followed by any
  character and swallows that character (`StrayBraceSwallows`, exact condition in `TreeIsRightIff`).
* *Everything else survives verbatim* (src/riecoin/Dispatch.cpp:241-244) holds, with a pool whose values bring no
  line along, for the lines that are neither a comment nor managed exactly when none of them is empty or ends in a
  carriage return (`UncleanLineIsLost`; `SurvivesVerbatimIff` has the exact condition for all pools, and
  `OwnAfterStart` says what the file holds instead). What a read returns survives later starts under the
  weaker condition of `StartKeepsExtrasIff` and `ExtrasSurviveStartsIff`, and settles once each line has lost its
  carriage returns, one per start (`LinesSettleIff`). A value with a newline in it can add a
  line (`NewlineAddsALine`) or a second line for a managed key (`NewlineSetsKey`, exact condition in
  `OneLinePerKeyIff`).
* *Keep mining what we have while the route server is unreachable* (src/autoswitch/AutoSwitch.cpp:732) fails after a fee
  round: without an answer the miner stays idle until the server is back, exactly if the child did not run before or
  gave way to a fee child (`AutoSwitch.Supervisor.OnePass`).
* A child of the automatic mode, or the fee process of the Riecoin mode, exits with code 1 instead of mining when a
  value of its route begins with `--auto` (`ChildMinesIff`, `FeeProcessMinesIff`).
* A share that a GPU found with RandomX is lost when its bundle is checked after a job with another dataset was
  installed, a fee job for instance: the check finds no dataset and counts errors (`LateCheckLosesShares`,
  `SwitchLosesShares`). All shares are delivered exactly when each such bundle is checked in time (`AllDeliveredIff`),
  and a dataset goes away exactly with such a job (`DatasetLostIff`).
* A GPU nonce of a family that is not compiled in becomes neither a share nor an error (`NoncesAreAccountedForIff`).

## Model

| member | source | states |
|---|---|---|
| `RxQueue.StepsKeepValid` | src/crypto/rx/RxQueue.cpp:86-162 | enqueueing, taking and finishing keep the newest seed asked for recorded and queued or under work |
| `Miner.Miner.HandleJobChange` | src/core/Miner.cpp:123-147 | pause flag, counter reset, sequence and timer start, as one step of the whole state |
| `Miner.Miner.PrepareRandomX` | src/core/Miner.cpp:579-590 | a change of algorithm stops the workers and clears the pause flag; a missing dataset pauses them |
| `Miner.Miner.AdoptJob` | src/core/Miner.cpp:598-640 | reset decision, job index, user job id and dataset request before the backends hear of the job |
| `Miner.Miner.SetJob` | src/core/Miner.cpp:573-645 | a job with its dataset ready is installed at once, any other waits |
| `Miner.Miner.Pause` | src/core/Miner.cpp:527-534 | the miner becomes inactive and its workers pause |
| `Miner.Miner.SetEnabled` | src/core/Miner.cpp:537-570 | no resume on battery power; an inactive miner only records the wish |
| `Miner.Miner.AutoPause` | src/core/Miner.cpp:708-717 | a flag that changes moves the counter by one and enables the miner exactly at zero |
| `Miner.Miner.OnTimer` | src/core/Miner.cpp:706-725 | the two flags are watched as configured |
| `Miner.Miner.OnDatasetWake` | src/core/Miner.cpp:775-782 | the job is installed only when its own dataset is ready |
| `Miner.Miner.Reserve` | src/crypto/common/Nonce.cpp:33-65 | one round of the reservation loop: which nonces are given out and when the counter is exhausted |
| `MinerEffects.ReadyJobStarts` | src/core/Miner.cpp:573-645 | a job whose dataset is there becomes the current one at once, and the workers hash exactly if the miner is enabled |
| `MinerEffects.ReadyJobCounters` | src/core/Miner.cpp:602-617 | its counter starts at zero, except for the same blob again and the user's job coming back from a fee round; the other counter is not touched |
| `MinerEffects.UnreadyJobWaits` | src/core/Miner.cpp:579-645 | a job without its dataset waits: the dataset is asked for, no counter moves, no worker goes on hashing |
| `MinerEffects.EveryJobIsHashed` | src/core/Miner.cpp:573-645 | an enabled miner hashes every job, at once or at most four steps of the dataset thread and the loop later |
| `MinerEffects.FirstJobIsHashed` | src/core/Miner.cpp:573-645 | the first job of a program run, in particular |
| `MinerEffects.WakeStarts` | src/core/Miner.cpp:775-782 | a wake-up installs the job that waits for it and starts an active and enabled miner, and does nothing otherwise |
| `MinerEffects.CommandsDecide` | src/core/Miner.cpp:537-570 | stop pauses and resume restarts an active miner, except on battery power; nothing else does |
| `MinerEffects.PauseStops` | src/core/Miner.cpp:527-534 | a pause stops the workers and keeps job and counters |
| `MinerEffects.TimerFollowsFlags` | src/core/Miner.cpp:708-725 | a watched flag that changes enables the miner exactly if no flag is raised |
| `MinerEffects.TickLooks` | src/core/Miner.cpp:706-725 | a tick leaves the flags as the machine is, where configured, and changes nothing else without a change |
| `MinerEffects.ReserveGives` | src/crypto/common/Nonce.cpp:33-65 | which nonces a reservation gives out, exactly, and that the end of the counter pauses the workers |
| `MinerEffects.AskingTwiceIsOnce` | src/crypto/rx/RxQueue.cpp:102-108 | asking for a dataset again while it is pending changes nothing |
| `MinerEffects.DatasetIsShared` | src/crypto/rx/RxQueue.cpp:117-120 | the two RandomX algorithms of one dataset need no rebuilding between them |
| `MinerEffects.BuiltServes` | src/crypto/rx/RxQueue.cpp:149-160 | a dataset once built serves the jobs with its seed and no others, if its memory was granted |
| `MinerEffects.EventsAreCalls` | src/core/Miner.cpp:527-782 | the events of a run are the calls they stand for |
| `MinerProofs.StepKeepsInv` | src/core/Miner.cpp:527-645 | every event keeps: unpaused only if active and (enabled or without workers), the counter equals the raised flags, no job waits for a dataset nobody builds |
| `MinerProofs.EveryRunIsSafe` | src/core/Miner.cpp:123-147 | over every run existing workers hash only while the miner is active, enabled and not on battery power |
| `MinerProofs.RestLastsUntilNextJob` | src/core/Miner.cpp:527-570 | a paused miner stays paused under every run without a new job |
| `MinerProofs.WaitingJobIsInstalled` | src/core/Miner.cpp:775-782 | from every state of the invariant a waiting job is installed after a known number of steps of the dataset thread and the loop, if its memory is granted, and an active and enabled miner then hashes |
| `MinerProofs.RefusedJobWaits` | src/core/Miner.cpp:775-782 | once its memory was refused, a job waits under every run until the next job |
| `MinerProofs.ResetsAreHits` | src/core/Miner.cpp:600-645 | over every run of user jobs with the same id and blob, with fee jobs and all other events in any order, counter 0 is reset exactly once per dataset wake-up that finds a user job with its reset flag up |
| `MinerProofs.ResetsAreMisses` | src/core/Miner.cpp:600-645 | over every such run in which each job completes before the next, the resets done and owed are exactly the user jobs that found their dataset missing with no fee round in between |
| `MinerProofs.StretchResets` | src/core/Miner.cpp:600-645 | the same from the first job of the stretch on: one reset if the first job needs it, and one for each such miss |
| `MinerProofs.OneDatasetHasNoMiss` | src/core/Miner.cpp:619-626 | with one dataset for all user jobs there is no miss, however often fee jobs switch datasets |
| `MinerProofs.UserCounterResetAtMostOnce` | src/core/Miner.cpp:600-645 | so user jobs with the same id, blob and dataset, with any fee jobs in between, reset counter 0 at most once |
| `MinerProofs.NoUserNonceIsRescanned` | src/core/Miner.cpp:602-617 | over every run of the stretch without such a wake-up, the user nonces given out are disjoint, increasing blocks |
| `MinerProofs.ReserveScansOnce` | src/crypto/common/Nonce.cpp:33-65 | a reservation never overlaps an earlier one of the same stretch |
| `MinerProofs.LaterResetIff` | src/core/Miner.cpp:602-645 | one event of the stretch resets the counter exactly when it is such a wake-up, and only a reservation moves it otherwise |
| `MinerProofs.RepeatRaisesFlagIff` | src/core/Miner.cpp:602-626 | a job repeating id and blob raises the flag exactly when no fee round came between and its dataset is missing |
| `MinerProofs.RepeatWhileWaitingRescans` | src/core/Miner.cpp:602-626 | every user job repeated while its dataset is rebuilt after a fee round is scanned again, and one not repeated is not |
| `MinerProofs.FeeRoundExample` | src/core/Miner.cpp:602-626 | such a state is reached from the start of the program: two resets for one job |
| `MinerProofs.OtherDatasetRescans` | src/core/Miner.cpp:622-626 | every user job repeated with the same id and blob that needs another dataset is scanned again, also in an orderly run |
| `MinerProofs.OtherSeedExample` | src/core/Miner.cpp:622-626 | the same job with another seed hash, from the start of the program: two resets |
| `MinerProofs.StaleWakeRescans` | src/core/Miner.cpp:775-782 | every job that needs a reset and finds its dataset ready while the wake-up of that dataset is pending is installed twice and its counter reset twice |
| `MinerProofs.StaleWakeExample` | src/core/Miner.cpp:775-782 | such a state is reached from the start of the program |
| `Network.Network.OnActive` | src/net/Network.cpp:122-161 | the main pool coming back ends the grace period; the fee strategy does not |
| `Network.Network.RestIfDiardi` | src/net/Network.cpp:341-356 | a Diardi job of the user pauses the miner if configured |
| `Network.Network.SetJob` | src/net/Network.cpp:327-357 | quiet flag, height, miner and rest in one step |
| `Network.Network.OnJob` | src/net/Network.cpp:180-187 | a user job is dropped while the fee strategy is active |
| `Network.Network.OnPause` | src/net/Network.cpp:225-247 | the main job comes back after the fee; a resilient pool gets a deadline once, any other pauses the miner |
| `Network.Network.Tick` | src/net/Network.cpp:360-375 | an expired deadline is cleared and pauses the miner unless the pool is back |
| `NetworkEffects.MainJobIsTaken` | src/net/Network.cpp:180-187 | a job of the main pool is dropped exactly while the fee strategy is active; otherwise it gets index 0 and the miner works unless it is a Diardi job to be sat out |
| `NetworkEffects.FeeJobIsTaken` | src/net/Network.cpp:180-187 | a fee job is always taken, with index 1, and never sat out |
| `NetworkEffects.NextJobEndsRest` | src/net/Network.cpp:337-356 | after a rest of any cause the next job of the main pool that finds its dataset lets an enabled miner hash again |
| `NetworkEffects.LostPoolStops` | src/net/Network.cpp:243-245 | an ordinary pool that goes away puts the miner to rest at once, until the next job |
| `NetworkEffects.LostPoolGetsDeadline` | src/net/Network.cpp:232-241 | a resilient pool that goes away gets a deadline 60 s later, once, and the miner goes on |
| `NetworkEffects.ActivePoolGoesOn` | src/net/Network.cpp:225-247 | while the main pool is there a pause event changes nothing but for the job handed out again after a fee round |
| `NetworkEffects.DeadlineDecides` | src/net/Network.cpp:367-375 | nothing before the deadline; after it the miner rests unless the pool is back |
| `NetworkEffects.PoolComesUp` | src/net/Network.cpp:122-146 | the main pool says whether it is resilient and ends a deadline; the fee pool does neither |
| `NetworkEffects.SharesAreRouted` | src/net/Network.cpp:190-198 | a share goes to the fee strategy exactly if there is one and the share carries index 1 |
| `NetworkEffects.QuietWhileSameBlock` | src/net/Network.cpp:327-331 | after a reconnection within the deadline jobs stay quiet as long as they are about the same block |
| `NetworkEffects.EventsAreCallbacks` | src/net/Network.cpp:122-375 | the events of a run are the callbacks they stand for |
| `NetworkProofs.RunKeepsInv` | src/net/Network.cpp:122-375 | every run of network and miner together keeps the miner's invariant |
| `NetworkProofs.DiardiRest` | src/net/Network.cpp:337-356 | after a Diardi job nothing restarts hashing before the next job, whatever commands, timers, datasets or connection events come |
| `NetworkProofs.RestLasts` | src/net/Network.cpp:225-247 | any rest lasts under every event that brings no job |
| `NetworkProofs.FeeJobIsNotDisplaced` | src/net/Network.cpp:180-187 | while the fee strategy is active, no event replaces the fee job by a user job or forgets the user job id |
| `NetworkProofs.GraceEndsOnlyBy` | src/net/Network.cpp:137-146 | the deadline changes exactly when the main pool becomes active or the deadline is over, and is then cleared |
| `NetworkProofs.GraceIsNotPostponed` | src/net/Network.cpp:232-241 | no run of pause events postpones the deadline |
| `NetworkProofs.LostPoolPausesOnTime` | src/net/Network.cpp:225-247 | a lost resilient pool: the miner goes on until the first tick after 60 s and rests from then on |
| `JobResults.CheckHash` | src/net/JobResults.cpp:103-112 | below the target a share is appended, otherwise the 32-bit error counter goes up |
| `JobResults.CheckKawPow` | src/net/JobResults.cpp:149-177 | the same for KawPow, whose test is a big-endian one on the unreversed output |
| `JobResults.ReverseBytes` | src/net/JobResults.cpp:166-168 | the loop reverses all 32 bytes |
| `JobResults.KawPowTestIsBigEndian` | src/net/JobResults.cpp:166-170 | the last eight reversed bytes read little-endian are the first eight output bytes read big-endian |
| `JobResults.FullNonceParts` | src/net/JobResults.cpp:150-155 | the 64-bit nonce is the reported nonce below the pool's extra nonce |
| `JobResults.ShareCarries` | src/net/JobResult.h:48-57 | field by field: the nonce, its hash, and algorithm, index, client, job id and difficulty of the job; below the target by the reading of the family |
| `JobResults.SharesOfOne` | src/net/JobResults.cpp:103-112 | one nonce gives one share that carries it, exactly if its hash meets the target |
| `JobResults.SharesAppend` | src/net/JobResults.cpp:133-139 | the shares of a list of nonces are those of its parts, in order |
| `JobResults.AcceptedCarries` | src/net/JobResults.cpp:115-194 | every share of a bundle carries one of its nonces and everything else from its job, and meets the target |
| `JobResults.FamiliesDecide` | src/net/JobResults.cpp:115-194 | family by family: which bundles are hashed, and how many errors the others count |
| `JobResults.HashNonces` | src/net/JobResults.cpp:133-139 | the loop appends exactly the nonces below the target, in order, and counts the others |
| `JobResults.GetResults` | src/net/JobResults.cpp:115-194 | the same for a whole bundle, by algorithm family and by the answer about its dataset |
| `JobResults.NoncesAreAccountedForIff` | src/net/JobResults.cpp:115-194 | shares and counted errors never exceed the nonces, and add up to them exactly when the family is compiled in or there are none |
| `JobResults.BatchIsAccountedForIff` | src/net/JobResults.cpp:261-267 | the same for any batch of bundles, each with its own answer about the dataset |
| `JobResults.DueIsConserved` | src/net/JobResults.cpp:121-129 | the shares accepted in a batch and those missed for want of a dataset are together the shares due |
| `JobResults.NoneMissedIff` | src/net/JobResults.cpp:121-129 | none is missed exactly when each RandomX bundle with a share in it has its dataset when it is checked |
| `JobResults.CheckBundles` | src/net/JobResults.cpp:261-267 | the background loop asks for the dataset of each bundle in turn and yields the shares in order; with all families compiled in the error counter is the number of nonces without a share |
| `ResultQueue.StepKeepsInv` | src/net/JobResults.cpp:214-278 | each submit, wake-up, swap, delivery, check of a bundle and batch step keeps order and wake-up, whatever the answers about datasets |
| `ResultQueue.NothingIsLost` | src/net/JobResults.cpp:214-292 | over every interleaving: submitted equals delivered, then in the drain, then queued; a non-empty queue has a wake-up pending or a drain before its swap; each bundle is in one place and tried at most once; the shares found in each finished batch were delivered once, in order |
| `ResultQueue.QuietMeansDelivered` | src/net/JobResults.cpp:240-278 | a loop with nothing pending has delivered every share and handed on every bundle |
| `ResultQueue.LoopDrains` | src/net/JobResults.cpp:240-278 | from every reachable state the loop delivers every share and hands on every bundle in a known number of steps |
| `ResultQueue.GpuSharesAreConserved` | src/net/JobResults.cpp:258-277 | once all batches have finished, in whatever order, the shares delivered from them and the shares missed for want of a dataset are together the shares due from all bundles submitted, each exactly once |
| `ResultQueue.AllDeliveredIff` | src/net/JobResults.cpp:121-129 | all shares due are delivered exactly when each RandomX bundle with a share in it was checked while its dataset was there |
| `ResultQueue.LateCheckLosesShares` | src/net/JobResults.cpp:121-129 | every RandomX bundle whose dataset is gone when it is checked loses all its shares; checked in time it delivers all |
| `ResultQueue.PoolFinishes` | src/net/JobResults.cpp:258-277 | whatever the answers about datasets, the thread pool finishes every open batch |
| `ResultQueue.CheckedComesFrom` | src/net/JobResults.cpp:258-277 | every share delivered from a batch was found in a bundle of a finished batch |
| `ResultQueue.BundleAt` | src/net/JobResults.cpp:242-258 | a bundle of a batch stands at a known place among all bundles submitted |
| `ResultQueue.JobResultsPrivate.SubmitResult` | src/net/JobResults.cpp:214-220 | a share is appended and a wake-up sent |
| `ResultQueue.JobResultsPrivate.SubmitJob` | src/net/JobResults.cpp:224-230 | a bundle is appended and a wake-up sent |
| `ResultQueue.JobResultsPrivate.DeliverAll` | src/net/JobResults.cpp:250-252 | all swapped-out shares reach the listener in order while the workers go on, and every point of the loop keeps the invariant |
| `ResultQueue.JobResultsPrivate.TakeLists` | src/net/JobResults.cpp:242-248 | the swap takes everything queued at the wake-up and whatever came since |
| `ResultQueue.JobResultsPrivate.OnAsync` | src/net/JobResults.cpp:240-278 | whatever the workers submit meanwhile: everything queued at the wake-up is delivered or handed on, in order, and what came later has a wake-up of its own |
| `ResultQueue.JobResultsPrivate.CheckBatch` | src/net/JobResults.cpp:261-267 | the check of a batch, with any answer about the dataset of each bundle |
| `ResultQueue.JobResultsPrivate.OnBatch` | src/net/JobResults.cpp:261-276 | a batch is checked and the shares found in it are delivered in order while the workers go on; the invariant is kept |
| `ControlPlane.InitialInv` | src/net/Network.cpp:180-198 | the start of the program meets the invariant |
| `ControlPlane.RunKeepsInv` | src/net/Network.cpp:180-198 | over every run, jobs carry the index of their strategy and every share remembers its job |
| `ControlPlane.SharesReachTheirOwner` | src/net/JobResult.h:48-55 | over every run, the i-th share delivered from the queue carries the nonce and the hash found and goes to the strategy that gave out the job they were found on, however late; the shares delivered from GPU batches are those found in them, and each goes to the strategy that gave out the job of the very bundle it was found in |
| `ControlPlane.TriedWithDataset` | src/crypto/rx/RxQueue.cpp:57-66 | a bundle is checked with the dataset that the miner has at that moment |
| `ControlPlane.DatasetLostIff` | src/crypto/rx/RxQueue.cpp:102-119 | a dataset that is there goes away exactly with an event that installs a job needing another one |
| `ControlPlane.DatasetStays` | src/crypto/rx/RxQueue.cpp:102-119 | over every run without such an event it stays |
| `ControlPlane.SwitchLosesShares` | src/net/JobResults.cpp:121-129 | a RandomX bundle checked right after such an event loses all its shares, and right before it none |
| `Base32.Base32Encode` | src/3rdparty/base32/base32.h:35-65 | for every input and buffer size the first min(bufSize, ceil(8n/5)) symbols of the RFC 4648 encoding, a terminator if there is room, nothing else; -1 for a bad length |
| `Base32.EncodeLoop` | src/3rdparty/base32/base32.h:41-59 | the loop links bytes read, symbols written and bits left over although the accumulator wraps |
| `Base32.NextSymbol` | src/3rdparty/base32/base32.h:45-58 | one turn of the loop yields the next symbol of the encoding |
| `Base32.Refill` | src/3rdparty/base32/base32.h:45-55 | one more byte, or zeros at the end |
| `Base32.WrapKeepsLowBits` | src/3rdparty/base32/base32.h:47-52 | wrapping at 32 bits keeps all low bits that are still needed |
| `Base32.DecodeUndoesEncode` | src/3rdparty/base32/base32.h:39-64 | a decoder written from the RFC returns every input |
| `Base32.EncodeIsInjective` | src/3rdparty/base32/base32.h:39-64 | no two inputs of whatever lengths share an encoding |
| `Base32.TestVectors` | src/3rdparty/base32/base32.h:39-64 | the first two test vectors of section 10 of RFC 4648 |
| `FormatCompile.ParseText` | src/3rdparty/fmt/compile.h:479-485 | the loop ends at the first brace or the end |
| `FormatCompile.CompileAgrees` | src/3rdparty/fmt/compile.h:490-558 | from every position and argument id the translation and the left-to-right reading agree |
| `FormatCompile.CompiledMeansTheSame` | src/3rdparty/fmt/compile.h:523-578 | the tree prints what the string says; fallback exactly for another field form; failure exactly for malformed strings |
| `FormatCompile.TreeIsRightIff` | src/3rdparty/fmt/compile.h:544-547 | a compiled tree prints the reading exactly when no stray closing brace was met |
| `FormatCompile.StrayBraceSwallows` | src/3rdparty/fmt/compile.h:544-547 | a closing brace followed by any other character is accepted and that character is lost |
| `FormatCompile.EscapedTextPrintsItself` | src/3rdparty/fmt/compile.h:523-558 | any text with doubled braces compiles and prints itself |
| `FormatCompile.FieldsPrintArguments` | src/3rdparty/fmt/compile.h:532-535 | n fields print the first n arguments in order, and a field too many does not compile |
| `FormatCompile.OtherFieldsFallBack` | src/3rdparty/fmt/compile.h:527-547 | a field of any other form gives the fallback, and a brace alone at the end does not compile |
| `FormatCompile.SpecFieldPrints` | src/3rdparty/fmt/compile.h:536-540 | a field with a specification prints its argument formatted by it |
| `ChronoFormat.Switch` | src/3rdparty/fmt/chrono.h:485-622 | which conversions are accepted, with their modifiers |
| `ChronoFormat.ParseChronoFormat` | src/3rdparty/fmt/chrono.h:472-627 | the pointer loop yields the pieces of the scan, or the error |
| `ChronoFormat.ScanTiles` | src/3rdparty/fmt/chrono.h:472-627 | success ends at the first closing brace or the end, and the pieces tile the input without gap or overlap |
| `ChronoFormat.PiecesMean` | src/3rdparty/fmt/chrono.h:472-627 | every piece is what its text asks for: plain text copied, `%%`, `%n` and `%t` as percent sign, newline and tab, every other one the conversion named by its last letter, with its modifier |
| `ChronoFormat.ConversionIff` | src/3rdparty/fmt/chrono.h:486-622 | a percent sign begins a conversion exactly if one of the listed forms follows |
| `ChronoFormat.DatesAreRefused` | src/3rdparty/fmt/chrono.h:629-656 | which conversions the checker refuses, letter by letter |
| `ChronoFormat.CheckedRangeFormats` | src/3rdparty/fmt/chrono.h:1062-1113 | on a range the checker accepts the formatter sees the same pieces, no error and no date |
| `ChronoFormat.CheckerRefusesIff` | src/3rdparty/fmt/chrono.h:629-656 | the checker refuses exactly what the formatter would fail on or be asked a date for |
| `DurationCast.LosslessConversion` | src/3rdparty/fmt/chrono.h:35-102 | the value if it fits the target type, otherwise the error, for all widths and signs |
| `DurationCast.SafeDurationCast` | src/3rdparty/fmt/chrono.h:151-197 | the exact truncated quotient, or the error exactly when count, product or quotient does not fit; no overflow in between |
| `DurationCast.MultiplyChecked` | src/3rdparty/fmt/chrono.h:178-192 | the product if it fits the type, otherwise the error |
| `DurationCast.BoundIsExact` | src/3rdparty/fmt/chrono.h:179-190 | the check before the multiplication is exact at both ends |
| `DurationCast.IntermediateOf64Bits` | src/3rdparty/fmt/chrono.h:170-172 | for types of up to 64 bits the intermediate type is the unsigned 64-bit one exactly when a count has it |
| `DurationCast.UsualRanges` | src/3rdparty/fmt/chrono.h:41-42 | the ranges of the 32-bit and 64-bit types |
| `DurationCast.RefineAndReturn` | src/3rdparty/fmt/chrono.h:151-197 | for all types: a cast to a finer unit that succeeds is undone by the cast back, which succeeds |
| `Processes.StartProcess` | src/autoswitch/AutoSwitch.cpp:499-520 | a started process is the only one and runs the given command; a failed fork leaves none |
| `Processes.WaitChild` | src/autoswitch/AutoSwitch.cpp:523-539 | ends with the child reaped, or still there after at least the given time and at most one poll step more, or at a shutdown |
| `Processes.SensibleTrace` | src/autoswitch/AutoSwitch.cpp:523-559 | at every point of a sensible trace at most one process exists, and only that one is signalled or reaped |
| `Processes.ReapedOncePerSpawn` | src/autoswitch/AutoSwitch.cpp:523-559 | every process is reaped exactly once unless it is still there |
| `Processes.KillChild` | src/autoswitch/AutoSwitch.cpp:556-558 | the kill and the wait after it: the child is gone and was reaped once |
| `AutoSwitch.StopChild` | src/autoswitch/AutoSwitch.cpp:542-559 | afterwards the child is gone and was reaped once; it is killed only if it had not ended 5 s after it was asked |
| `AutoSwitch.PollForEnd` | src/autoswitch/AutoSwitch.cpp:548-555 | the polling loop: the child was reaped, or is still there after all polls |
| `AutoSwitch.FeeClock.Start` | src/autoswitch/AutoSwitch.cpp:686-692 | the due time is the one in the state file, if it can be read, and is drawn in 2970 to 8910 s and saved otherwise |
| `AutoSwitch.FeeClock.LoadDue` | src/autoswitch/AutoSwitch.cpp:584-593 | the number in the file, or nothing |
| `AutoSwitch.FeeClock.SaveDue` | src/autoswitch/AutoSwitch.cpp:595-603 | the file holds the due time, or whatever a failing write leaves, which is on record |
| `AutoSwitch.FeeClock.Reschedule` | src/autoswitch/AutoSwitch.cpp:721-722 | the next round is due 4752 to 7128 s after the end of this one, and the due time is saved |
| `AutoSwitch.Supervisor.FeeRound` | src/autoswitch/AutoSwitch.cpp:695-723 | with a fee route the mining child is stopped, then the fee command runs for a minute unless it ends or a shutdown comes, and is gone; the round is logged and the head-of-loop state holds |
| `AutoSwitch.Supervisor.RunFeeChild` | src/autoswitch/AutoSwitch.cpp:714-719 | the fee command is started, runs its minute unless it ends or a shutdown comes, and never outlasts it by more than a poll step and the time to stop it |
| `AutoSwitch.Supervisor.CommandLeads` | src/autoswitch/AutoSwitch.cpp:745-751 | the command line names algorithm, pool, user and password of the route in their places, the fee level 0, TLS, and the arguments passed on |
| `AutoSwitch.Supervisor.ChildIsOnRoute` | src/autoswitch/AutoSwitch.cpp:740-762 | a child that runs at the head of the loop was started with the algorithm, pool and user of the current route |
| `AutoSwitch.Supervisor.Restart` | src/autoswitch/AutoSwitch.cpp:741-761 | the child is stopped and another one started with the command of the new route, or a refused start is on record |
| `AutoSwitch.Supervisor.Replace` | src/autoswitch/AutoSwitch.cpp:740-762 | a child on a route that differs in the coin's name and the password at most is untouched; otherwise a new one is started with the new route, or none is left and a refused start is on record |
| `AutoSwitch.Supervisor.Notice` | src/autoswitch/AutoSwitch.cpp:735-738 | a running child is looked at, and one that ended is no longer current |
| `AutoSwitch.Supervisor.WatchOver` | src/autoswitch/AutoSwitch.cpp:764-776 | the child is watched for the refresh time, or 30 s while its connection fails, within a poll step, and never interrupted |
| `AutoSwitch.Supervisor.Fees` | src/autoswitch/AutoSwitch.cpp:695-723 | a fee round exactly if one is due: the fee command is started, or a refused start is on record |
| `AutoSwitch.Supervisor.OnePass` | src/autoswitch/AutoSwitch.cpp:694-776 | head-of-loop state; fee round first exactly when due; child on the route answered, started anew exactly if there was none, it gave way to a fee child or the route is another one, and left alone otherwise; server asked no faster than its pace |
| `AutoSwitch.Supervisor.Turn` | src/autoswitch/AutoSwitch.cpp:694-779 | a shutdown stops the child and ends the run; otherwise a pass is made, which takes at least 30 s (or the refresh time, if shorter) unless a shutdown comes |
| `AutoSwitch.Supervisor.Supervise` | src/autoswitch/AutoSwitch.cpp:694-781 | at every loop head `haveCurrent` equals running and the child runs `current`; every return leaves no process |
| `AutoSwitch.Supervisor.Lifetimes` | src/autoswitch/AutoSwitch.cpp:686-781 | over any number of program starts, whatever the routes, crashes and outages, the rounds are 4752 s apart if the state file works, and 2970 s if it is never wrong |
| `FeeSchedule.FeeRoundsAreSpaced` | src/autoswitch/AutoSwitch.cpp:686-723 | with the state file kept, every two rounds are at least 4752 s apart |
| `FeeSchedule.FeeRoundsWithLostFile` | src/autoswitch/AutoSwitch.cpp:688-692 | with the file sometimes lost, at least 2970 s |
| `FeeSchedule.FeeRoundsInWindow` | src/autoswitch/AutoSwitch.cpp:694-723 | a window of T seconds sees at most 1 + T/4752 rounds begin |
| `FeeSchedule.NextRoundIsOwed` | src/autoswitch/AutoSwitch.cpp:694-723 | with the state file kept, a pass 7128 s or more after the last round owes the next one |
| `FeeSchedule.FirstRoundIsOwed` | src/autoswitch/AutoSwitch.cpp:688-692 | without a due time the first round is owed after 2970 s at the earliest and 8910 s at the latest |
| `FeeSchedule.EarlyRoundIff` | src/autoswitch/AutoSwitch.cpp:584-603 | a round earlier than that is possible exactly when the file held an earlier due time and the start is that early |
| `FeeSchedule.StaleFileRepeatsRound` | src/autoswitch/AutoSwitch.cpp:595-603 | a file not rewritten after a round lets the next start repeat it at once |
| `FeeSchedule.OwedRoundComesFirst` | src/autoswitch/AutoSwitch.cpp:694-726 | a pass at or after the due time runs the round before it touches the route |
| `AutoArgs.ParseArguments` | src/autoswitch/AutoSwitch.cpp:619-644 | the argument loop computes port, host and the arguments to pass on |
| `AutoArgs.AutoSupervises` | src/autoswitch/AutoSwitch.cpp:629-655 | `--auto` with a positive port makes the program a supervisor on that port, with any other it refuses; plain arguments around it are handed on |
| `AutoArgs.AutoForms` | src/autoswitch/AutoSwitch.cpp:122-137 | the port stands in the next argument or behind an equals sign |
| `AutoArgs.LastWithoutValue` | src/autoswitch/AutoSwitch.cpp:627-632 | the options without a value at the end |
| `AutoArgs.HostIsTaken` | src/autoswitch/AutoSwitch.cpp:627-629 | `--auto-host` names the route server, in both forms |
| `AutoArgs.PoolOptionsAreDropped` | src/autoswitch/AutoSwitch.cpp:633-640 | the user's own pool options go no further, in the short and the two long forms |
| `AutoArgs.ArgsInOrder` | src/autoswitch/AutoSwitch.cpp:745-751 | every argument of a child stands in its place |
| `AutoArgs.PassedArePlain` | src/autoswitch/AutoSwitch.cpp:623-644 | nothing that is passed on is an option of the automatic mode or of the pool |
| `AutoArgs.FilterIsIdempotent` | src/autoswitch/AutoSwitch.cpp:623-644 | filtering twice is filtering once |
| `AutoArgs.ChildNeverSupervises` | src/autoswitch/AutoSwitch.cpp:745-751 | no child reads a port, for all user arguments and routes |
| `AutoArgs.ChildMinesIff` | src/autoswitch/AutoSwitch.cpp:646-655 | a child mines exactly when no value it was given begins with `--auto` |
| `RieConfig.ReadExtraLines` | src/riecoin/Dispatch.cpp:245-286 | the loop returns the user's lines, in order |
| `RieConfig.KeyOf` | src/riecoin/Dispatch.cpp:262-270 | the key is what stands before the equals sign, lower case, no spaces |
| `RieConfig.KeyByCharacter` | src/riecoin/Dispatch.cpp:262-270 | the key character by character: the equals sign, white space, capital letters |
| `RieConfig.WriteConf` | src/riecoin/Dispatch.cpp:289-310 | header, managed lines and kept lines, or an untouched file |
| `RieConfig.FixedPointIff` | src/riecoin/Dispatch.cpp:245-310 | reading back a fresh file is a fixed point exactly when no kept line ends in a carriage return |
| `RieConfig.ExtrasAfterStart` | src/riecoin/Dispatch.cpp:289-310 | for every pool and file: what a read finds after a start is what the values smuggle in and then what a second read leaves of the user's lines |
| `RieConfig.StartKeepsExtrasIff` | src/riecoin/Dispatch.cpp:289-310 | for every pool and file: one start keeps the lines exactly when what the pool smuggles in makes up for the carriage returns that a read takes away; with nothing smuggled in, exactly when no line ends in one |
| `RieConfig.KeptIffRestored` | src/riecoin/Dispatch.cpp:253-283 | lines in front of what a read leaves of a list give back the list exactly when they are carriage returns only, the list begins with the cascade of them, and the rest is clean |
| `RieConfig.BareReturnComesBack` | src/riecoin/Dispatch.cpp:254-256 | why a line of a bare carriage return is set apart: a start can lose it and bring it back |
| `RieConfig.ReadIsVerbatimIff` | src/riecoin/Dispatch.cpp:253-283 | a read returns the raw lines that are neither comment nor managed exactly when none is empty or ends in a carriage return |
| `RieConfig.SurvivesVerbatimIff` | src/riecoin/Dispatch.cpp:289-310 | for every pool and file: those raw lines are the same after a start exactly when what the pool adds makes up for what a read takes away; with nothing added, exactly when none is empty or ends in a carriage return |
| `RieConfig.OwnAfterStart` | src/riecoin/Dispatch.cpp:289-310 | for every pool and file: the raw lines after a start are those that the values bring along and then what the read returned |
| `RieConfig.UncleanLineIsLost` | src/riecoin/Dispatch.cpp:254-260 | every file of one line that is empty or ends in a carriage return loses it as it stood |
| `RieConfig.ExtrasSurviveStartsIff` | src/riecoin/Dispatch.cpp:289-310 | over any number of starts with any pools and any file the lines stay the same throughout exactly when each start keeps them; with no carriage return left over, exactly when no start smuggles a line in |
| `RieConfig.StartsStripReturns` | src/riecoin/Dispatch.cpp:254-256 | with pools that smuggle nothing in, the lines after any number of starts have lost one carriage return for each start that wrote the file |
| `RieConfig.LinesSettleIff` | src/riecoin/Dispatch.cpp:254-256 | they are fixed exactly once as many starts wrote the file as the longest run of carriage returns |
| `RieConfig.ExtrasSurviveStarts` | src/riecoin/Dispatch.cpp:289-310 | in particular with pools that hold no newline |
| `RieConfig.OneLinePerKeyIff` | src/riecoin/Dispatch.cpp:298-307 | for every pool and file: exactly one line for a managed key, with the latest value, exactly when that value is one line and no value assigns the key further down |
| `RieConfig.OneLinePerKey` | src/riecoin/Dispatch.cpp:298-307 | in particular with a pool that holds no newline |
| `RieConfig.FileSaysThePool` | src/riecoin/Dispatch.cpp:298-303 | spelled out: mode, host, port, user name and password of the pool, once each, with the defaults for an empty port or password |
| `RieConfig.WholeFileSpelled` | src/riecoin/Dispatch.cpp:298-307 | the whole file spelled out: header, the five lines of the pool, and the user's lines |
| `RieConfig.NewlineAddsALine` | src/riecoin/Dispatch.cpp:300-303 | a newline in any value adds what stands behind it to the user's lines, if a read keeps that |
| `RieConfig.NewlineSetsKey` | src/riecoin/Dispatch.cpp:300-303 | a value that assigns a managed key in its second line breaks the one line per key |
| `Dispatch.StopProcess` | src/riecoin/Dispatch.cpp:446-475 | afterwards the child is gone and was reaped once, within the timeout, a poll step and a kill that comes only after the timeout |
| `Dispatch.PollForEnd` | src/riecoin/Dispatch.cpp:454-469 | the polling loop: the process was reaped, or is still there when the timeout has passed |
| `Dispatch.RieSlot` | src/riecoin/Dispatch.cpp:621-641 | rieMiner was started and has ended; the slot is full unless it ended by itself or a shutdown is up |
| `Dispatch.FeeSlot` | src/riecoin/Dispatch.cpp:643-649 | the fee command is started behind a full slot, runs its minute unless it ends or a shutdown comes, and keeps to its longest time |
| `Dispatch.Round` | src/riecoin/Dispatch.cpp:621-654 | one round: rieMiner for its full slot, then one attempt to start the fee process |
| `Dispatch.RieLoop` | src/riecoin/Dispatch.cpp:605-655 | every round starts rieMiner once for 99 minutes and tries the fee process once, no process is left between rounds or at the end, and the fee takes one hundredth up to 5150 ms and three overshoots per slot |
| `Slots.FeeSlotFollowsFullSlot` | src/riecoin/Dispatch.cpp:628-649 | each fee process starts directly behind a rieMiner that had its full idle time and was asked to stop |
| `Slots.NothingAfterOwnEnd` | src/riecoin/Dispatch.cpp:629-634 | after a rieMiner that ended by itself nothing is started |
| `Slots.NoFeeWithoutRoute` | src/riecoin/Dispatch.cpp:603-607 | without a fee route there is no fee process |
| `Slots.FeeIsOneHundredth` | src/riecoin/Dispatch.cpp:605-606 | 99 times the time of the fee processes is at most rieMiner's time, plus a fixed slack per fee slot |
| `DispatchArgs.ParseOptions` | src/riecoin/Dispatch.cpp:505-528 | the argument loop computes algorithm, pool, user, password and configuration |
| `DispatchArgs.SimpleRunDispatchesIff` | src/riecoin/Dispatch.cpp:505-560 | a simple command line hands over to rieMiner exactly if its algorithm is a Riecoin one, with the pool, user and password typed |
| `DispatchArgs.RiecoinNames` | src/riecoin/Dispatch.cpp:123-130 | the three names that mean Riecoin |
| `DispatchArgs.CaseDoesNotMatter` | src/riecoin/Dispatch.cpp:123-130 | in any mixture of cases, and no others |
| `DispatchArgs.UpperCaseIsRead` | src/riecoin/Dispatch.cpp:123-130 | one of them in capitals |
| `DispatchArgs.LongIsRead` | src/riecoin/Dispatch.cpp:133-157 | the long options are read in both forms |
| `DispatchArgs.OptionsSetFields` | src/riecoin/Dispatch.cpp:512-527 | each option sets its own field |
| `DispatchArgs.FileFillsGaps` | src/riecoin/Dispatch.cpp:533-555 | the command line is not overruled by the configuration file, and what it leaves open is taken from there |
| `DispatchArgs.ChildArgsAreRead` | src/autoswitch/AutoSwitch.cpp:745-751 | a child of the automatic mode reads back exactly the route it was given, whatever the user's own arguments |
| `DispatchArgs.FeeArgsAreRead` | src/riecoin/Dispatch.cpp:483-497 | reading the fee arguments back gives rx/0 and the route they were made from, with the default for an empty password |
| `DispatchArgs.FeeProcessDoesNotDispatch` | src/riecoin/Dispatch.cpp:479-497 | the fee process never hands over to rieMiner |
| `DispatchArgs.CommandsDiffer` | src/riecoin/Dispatch.cpp:483-497 | rieMiner's command and the fee command are never the same |
| `DispatchArgs.FeeProcessMinesIff` | src/xmrig.cpp:30-38 | the whole start of the fee process: it mines exactly when no value begins with `--auto`, and is never a supervisor |

## Left out

- Hash functions, virtual machines, GPU and CPU backends: parameters of the model.
- The API "stop" command, a backend `tick` that returns false, and configuration changes during a run of the miner.
- Benchmark mode, the XCB and GhostRider set-up, logging, summaries, hashrate printing, API replies and the taskbar: user interface or other algorithms.
- The inside of the pool strategies and of `FeeTable`: a strategy is its `isActive` bit, a fee route is any route.
- The 64-bit wrap-around of the nonce counter (src/crypto/common/Nonce.cpp:40): the counters are unbounded.
- The order in which the threads see relaxed atomics: every step of a worker, of the dataset thread or of the event loop is atomic.
- MinerProofs.UserCounterResetAtMostOnce: asks that a job completes before the next arrives, that no dataset wake-up is stale and that the user jobs need one dataset, because the code resets the counter otherwise; MinerProofs.ResetsAreHits needs none of this and MinerProofs.ResetsAreMisses only the order.
- The mix hash, the extra data and the backend of a share: copied, nothing depends on them.
- A dataset that is rebuilt while a bundle is being hashed with it: the answer at the start of the check stands for the whole bundle.
- JobResults.GetResults: a bundle of a KawPow job has a blob of 40 bytes or more, as such a job does; the source reads past a shorter one.
- Windows processes and consoles: the POSIX branch carries the same states.
- HTTP, JSON, signatures and `hexDecode` of the automatic mode: a fetched route is any route or none.
- A `waitpid` that fails or is interrupted: polls see the child as it is, and the wait after a kill ends.
- Steady and wall clock are one monotone clock in milliseconds; random waits are any whole second in their range; sleeps and kills overshoot by a fixed bound.
- A program killed from outside, whose children live on: runs end by a return.
- AutoSwitch.Supervisor.Supervise: follows the loop for any number of passes given in advance, each with what it meets outside; the loop itself has no bound, and the test whether the child's connection fails is an input.
- Dispatch.RieLoop: likewise for any number of rounds; exit codes are not modelled, and the two commands are asked to differ, which `DispatchArgs.CommandsDiffer` proves of the commands the program uses.
- Extracting the bundled rieMiner and splitting host and port: file and string handling without a state.
- RieConfig.WriteConf: the header is any comment line, and a write that fails half-way is not modelled.
- RieConfig.ExtrasSurviveStarts: the plain case of pools without a newline; RieConfig.ExtrasSurviveStartsIff is for all pools.
- RieConfig.OneLinePerKey: likewise; RieConfig.OneLinePerKeyIff is for all pools.
- Base32.Base32Encode: asks for a buffer and an input as long as the caller says, as the C interface does.
- Floating-point durations, locales, `strftime`, `printf`, widths and precisions of fmt, and everything that rests on its runtime formatter.
- FormatCompile.CompiledMeansTheSame: asks that no stray closing brace is met; FormatCompile.TreeIsRightIff shows that this is exact.
