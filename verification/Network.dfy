/** The network object (src/net/Network.cpp), whose callbacks update its fields and drive the miner. */
module Network {
  import opened Basics
  import opened Jobs
  import opened S = NetworkSteps
  import M = MinerSteps
  import MinerObject = Miner

  class Network {
    const diardiPause: bool
    const miner: MinerObject.Miner
    var net: Net

    ghost function Cfg(): Config {
      Config(miner.cfg, diardiPause)
    }

    ghost function State(): (p: Plane)
      reads this, miner
    {
      Plane(net, miner.State())
    }

    constructor (miner: MinerObject.Miner, diardiPause: bool, hasFee: bool)
      ensures this.miner == miner && this.diardiPause == diardiPause
      ensures net == Net(hasFee, false, false, false, false, false, 0, 0)
    {
      this.miner := miner;
      this.diardiPause := diardiPause;
      net := Net(hasFee, false, false, false, false, false, 0, 0);
    }

    method OnActive(strategy: Strategy, resilient: bool)
      modifies this
      ensures net == S.OnActive(old(net), strategy, resilient)
    {
      if net.hasFee && strategy == Fee {
        return;
      }
      net := net.(resilient := resilient);
      if net.graceUntil != 0 {
        net := net.(graceUntil := 0);
        net := net.(quietJob := true);
        return;
      }
    }

    /** The end of `Network::setJob`: the miner rests while a Diardi block is found. */
    method RestIfDiardi(job: Job, donate: bool)
      requires miner.Valid()
      modifies this, miner
      ensures miner.Valid()
      ensures net == if donate then old(net) else old(net).(diardiPaused := Rests(Cfg(), job, donate))
      ensures miner.State() == if Rests(Cfg(), job, donate) then M.Pause(old(miner.State())) else old(miner.State())
    {
      if !donate {
        if job.diardi && diardiPause {
          miner.Pause();
          if !net.diardiPaused {
            net := net.(diardiPaused := true);
          }
        } else if net.diardiPaused {
          net := net.(diardiPaused := false);
        }
      }
    }

    method SetJob(job: Job, donate: bool)
      requires miner.Valid()
      modifies this, miner
      ensures miner.Valid()
      ensures State() == S.SetJob(Cfg(), old(State()), job, donate)
    {
      if !donate {
        net := net.(quietJob := net.quietJob && job.height == net.height);
        net := net.(height := job.height);
      }
      miner.SetJob(job, donate);
      RestIfDiardi(job, donate);
    }

    method OnJob(strategy: Strategy, job: Job)
      requires miner.Valid()
      modifies this, miner
      ensures miner.Valid()
      ensures State() == S.OnJob(Cfg(), old(State()), strategy, job)
    {
      if net.hasFee && net.feeActive && !(net.hasFee && strategy == Fee) {
        return;
      }
      SetJob(job, net.hasFee && strategy == Fee);
    }

    method OnPause(strategy: Strategy, now: nat, resumed: Option<Job>)
      requires miner.Valid()
      modifies this, miner
      ensures miner.Valid()
      ensures State() == S.OnPause(Cfg(), old(State()), strategy, now, resumed)
    {
      if net.hasFee && strategy == Fee {
        if resumed.Some? {
          OnJob(Main, resumed.value);
        }
      }
      if !net.mainActive {
        if net.resilient {
          if net.graceUntil == 0 {
            net := net.(graceUntil := now + GRACE_MS);
          }
          return;
        }
        miner.Pause();
      }
    }

    method Tick(now: nat)
      requires miner.Valid()
      modifies this, miner
      ensures miner.Valid()
      ensures State() == S.Tick(old(State()), now)
    {
      if net.graceUntil != 0 && now > net.graceUntil {
        net := net.(graceUntil := 0);
        if !net.mainActive {
          miner.Pause();
        }
      }
    }
  }
}
