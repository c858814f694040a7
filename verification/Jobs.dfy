/** Jobs handed out by the pools (src/base/net/stratum/Job.h) and the few facts about
    algorithms that the control plane depends on. */
module Jobs {
  import opened Basics

  /** The algorithm families that the modelled code distinguishes. */
  datatype Family = RandomX | Argon2 | KawPow | CryptoNight

  /** RX_0 and RX_V2 are two RandomX algorithms that share one dataset. */
  datatype Algorithm = RX_0 | RX_V2 | Variant(family: Family, id: nat)

  function FamilyOf(a: Algorithm): Family {
    match a
    case RX_0 => RandomX
    case RX_V2 => RandomX
    case Variant(f, _) => f
  }

  /** The algorithm as far as datasets are concerned (src/crypto/rx/RxSeed.h). */
  function SeedAlgorithm(a: Algorithm): Algorithm {
    if a == RX_V2 then RX_0 else a
  }

  /** `id` and `clientId` are null strings until they are set, hence the options. */
  datatype Job = Job(
    id: Option<string>,
    clientId: Option<string>,
    algorithm: Algorithm,
    seed: seq<byte>,
    blob: seq<byte>,
    target: nat,
    height: nat,
    diff: nat,
    diardi: bool,
    index: nat)

  const NO_JOB: Job := Job(None, None, Variant(CryptoNight, 0), [], [], 0, 0, 0, false, 0)

  predicate EqualBlob(a: Job, b: Job) {
    a.blob == b.blob
  }

  /** The key of the RandomX dataset that a job needs. */
  datatype Seed = Seed(algorithm: Algorithm, data: seq<byte>)

  function SeedOf(job: Job): Seed {
    Seed(SeedAlgorithm(job.algorithm), job.seed)
  }

  predicate IsRandomX(job: Job) {
    FamilyOf(job.algorithm) == RandomX
  }
}
