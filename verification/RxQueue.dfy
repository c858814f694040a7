/** The queue of RandomX dataset initialisations (src/crypto/rx/RxQueue.cpp): the event loop
    enqueues seeds, a background thread builds the dataset of the newest one, and a coalescing
    wake-up brings the event loop back to the miner. */
module RxQueue {
  import opened Basics
  import opened Jobs

  /** `working` is the item the background thread holds outside the lock. */
  datatype Rx = Rx(
    hasMemory: bool,
    pending: bool,
    seed: Option<Seed>,
    queue: seq<Seed>,
    working: Option<Seed>,
    wake: bool)

  const FRESH: Rx := Rx(false, false, None, [], None, false)

  predicate IsReady(rx: Rx, job: Job) {
    rx.hasMemory && !rx.pending && rx.seed == Some(SeedOf(job))
  }

  function Enqueue(rx: Rx, seed: Seed): Rx {
    if rx.pending && rx.seed == Some(seed) then rx
    else rx.(queue := rx.queue + [seed], seed := Some(seed), pending := true)
  }

  /** The result of `Rx::init`: true when the job can be hashed at once. */
  function InitReady(rx: Rx, job: Job): bool {
    !IsRandomX(job) || IsReady(rx, job)
  }

  function Init(rx: Rx, job: Job): Rx {
    if InitReady(rx, job) then rx else Enqueue(rx, SeedOf(job))
  }

  /** The background thread takes the newest item and drops the older ones. */
  function Take(rx: Rx): Rx {
    if rx.pending && rx.working.None? && rx.queue != []
    then rx.(working := Some(rx.queue[|rx.queue| - 1]), queue := [])
    else rx
  }

  /** The background thread ends an initialisation; `hasMemory` tells whether the memory was there. */
  function Finish(rx: Rx, hasMemory: bool): Rx {
    if rx.working.None? then rx
    else if rx.queue != [] then rx.(working := None, hasMemory := hasMemory)
    else rx.(working := None, hasMemory := hasMemory, seed := rx.working, pending := false, wake := true)
  }

  /** The newest seed asked for is the one recorded, and it is queued or being worked on. */
  ghost predicate Valid(rx: Rx) {
    if rx.pending then
      if rx.queue != [] then rx.seed == Some(rx.queue[|rx.queue| - 1])
      else rx.working.Some? && rx.seed == rx.working
    else
      rx.queue == [] && rx.working.None?
  }

  lemma StepsKeepValid(rx: Rx, job: Job, hasMemory: bool)
    requires Valid(rx)
    ensures Valid(Init(rx, job))
    ensures Valid(Take(rx))
    ensures Valid(Finish(rx, hasMemory))
    ensures Valid(rx.(wake := false))
  {
  }
}
