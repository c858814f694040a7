/** The miner object (src/core/Miner.cpp), whose methods update its switches, its job, the nonce
    state and the dataset queue step by step. Each method is proved against its step function. */
module Miner {
  import opened Basics
  import opened Jobs
  import opened RxQueue
  import opened S = MinerSteps

  class Miner {
    const cfg: Config
    var sw: Switches
    var nonce: Nonces
    var work: Work
    var rx: Rx
    var workers: bool
    var ticks: nat
    var log: Log

    ghost predicate Valid()
      reads this
    {
      |nonce.counters| == 2 && work.job.index < 2
    }

    ghost function State(): (s: S.State)
      reads this
    {
      S.State(sw, nonce, work, rx, workers, ticks, log)
    }

    constructor (cfg: Config)
      ensures Valid()
      ensures this.cfg == cfg && State() == INITIAL
    {
      this.cfg := cfg;
      sw := Switches(false, true, false, false, 0);
      nonce := Nonces(true, [0, 0], 1);
      work := Work(None, NO_JOB, None, true, true);
      rx, workers, ticks, log := FRESH, false, 0, Log([], []);
    }

    method HandleJobChange()
      requires Valid()
      modifies this
      ensures Valid()
      ensures State() == S.HandleJobChange(old(State()))
    {
      if !sw.enabled {
        nonce := nonce.(paused := true);
      }
      if work.reset {
        nonce := nonce.(counters := nonce.counters[work.job.index := 0]);
        log := log.(resets := log.resets + [work.job.index]);
      }
      workers := true;
      nonce := nonce.(sequence := nonce.sequence + 1);
      if sw.active && sw.enabled {
        nonce := nonce.(paused := false);
      }
      if ticks == 0 {
        ticks := ticks + 1;
      }
      work := work.(installed := true);
    }

    /** The RandomX prologue of `Miner::setJob`. */
    method PrepareRandomX(job: Job)
      requires Valid()
      modifies this
      ensures Valid()
      ensures State() == S.PrepareRandomX(old(State()), job)
    {
      if IsRandomX(job) {
        if work.algorithm != Some(job.algorithm) {
          nonce, workers := nonce.(paused := false, sequence := 0), false;
        } else if !IsReady(rx, job) {
          nonce := nonce.(paused := true, sequence := nonce.sequence + 1);
        }
      }
    }

    /** The part of `Miner::setJob` that runs before the backends hear of the job. */
    method AdoptJob(job: Job, donate: bool) returns (ready: bool)
      requires Valid()
      modifies this
      ensures Valid()
      ensures State() == S.AdoptJob(old(State()), job, donate)
      ensures ready == InitReady(old(rx), job)
    {
      PrepareRandomX(job);
      var index := if donate then 1 else 0;
      var sameJobIndex := work.job.index == index;
      var reset := !(work.job.index == 1 && index == 0 && work.userJobId == job.id);
      if EqualBlob(work.job, job) {
        reset := false;
      }
      var userJobId := if index == 0 then job.id else work.userJobId;

      ready := InitReady(rx, job);
      rx := Init(rx, job);
      if !ready && sameJobIndex {
        reset := true;
      }

      work := Work(Some(job.algorithm), job.(index := index), userJobId, reset, false);
      sw := sw.(active := true);
    }

    method SetJob(job: Job, donate: bool)
      requires Valid()
      modifies this
      ensures Valid()
      ensures State() == S.SetJob(old(State()), job, donate)
    {
      var ready := AdoptJob(job, donate);
      if ready {
        HandleJobChange();
      }
    }

    method Pause()
      requires Valid()
      modifies this
      ensures Valid()
      ensures State() == S.Pause(old(State()))
    {
      sw := sw.(active := false);
      nonce := nonce.(paused := true);
      nonce := nonce.(sequence := nonce.sequence + 1);
    }

    method SetEnabled(on: bool)
      requires Valid()
      modifies this
      ensures Valid()
      ensures State() == S.SetEnabled(cfg, old(State()), on)
    {
      if sw.enabled == on {
        return;
      }
      if cfg.pauseOnBattery && sw.battery && on {
        return;
      }
      sw := sw.(enabled := on);
      if !sw.active {
        return;
      }
      nonce := nonce.(paused := !on);
      nonce := nonce.(sequence := nonce.sequence + 1);
    }

    /** The `autoPause` lambda of `Miner::onTimer`, with the flag it is given. */
    method AutoPause(flag: Flag, raised: bool)
      requires Valid()
      modifies this
      ensures Valid()
      ensures State() == S.AutoPause(cfg, old(State()), flag, raised)
    {
      var state := FlagOf(sw, flag);
      if (raised && !state) || (!raised && state) {
        sw := if flag == Battery then sw.(battery := raised) else sw.(user := raised);
        sw := sw.(autoPause := sw.autoPause + if raised then 1 else -1);
        SetEnabled(sw.autoPause == 0);
      }
    }

    method OnTimer(onBattery: bool, isUserActive: bool)
      requires Valid()
      modifies this
      ensures Valid()
      ensures State() == S.OnTimer(cfg, old(State()), onBattery, isUserActive)
    {
      ticks := ticks + 1;
      if cfg.pauseOnBattery {
        AutoPause(Battery, onBattery);
      }
      if cfg.pauseOnActive {
        AutoPause(User, isUserActive);
      }
    }

    /** The wake-up of the dataset queue (RxQueue::onReady) and `Miner::onDatasetReady`. */
    method OnDatasetWake()
      requires Valid()
      modifies this
      ensures Valid()
      ensures State() == S.DatasetWake(old(State()))
    {
      if !rx.wake {
        return;
      }
      rx := rx.(wake := false);
      if !rx.pending {
        if !IsReady(rx, work.job) {
          return;
        }
        HandleJobChange();
      }
    }

    /** One round of the loop in `Nonce::next`. */
    method Reserve(index: nat, count: nat, mask: nat) returns (given: bool)
      requires Valid() && index < 2
      modifies this
      ensures Valid()
      ensures State() == S.Reserve(old(State()), index, count, mask)
      ensures given <==> |log.blocks| == |old(log.blocks)| + 1
    {
      var m := mask % 0x8000_0000_0000_0000;
      if count == 0 || m < count - 1 {
        return false;
      }
      var start := nonce.counters[index];
      nonce := nonce.(counters := nonce.counters[index := start + count]);
      if m < start {
        return false;
      }
      if m - start <= count - 1 {
        nonce := nonce.(paused := true);
        if m - start < count - 1 {
          return false;
        }
      } else if 0xFFFF_FFFF - start % 0x1_0000_0000 < count - 1 {
        return false;
      }
      log := log.(blocks := log.blocks + [Block(index, start, count)]);
      return true;
    }
  }
}
