/** Shares (src/net/JobResult.h) and the check of the nonces that a GPU reports
    (`checkHash` and `getResults` of src/net/JobResults.cpp). */
module JobResults {
  import opened Basics
  import opened Sequences
  import opened Jobs

  type Hash = s: seq<byte> | |s| == 32 witness seq(32, _ => 0)

  /** The fields a share copies from the job it was found on. */
  datatype JobResult = JobResult(
    algorithm: Algorithm,
    index: nat,
    clientId: Option<string>,
    jobId: Option<string>,
    nonce: nat,
    diff: nat,
    hash: Hash)

  function MakeResult(job: Job, nonce: nat, hash: Hash): JobResult {
    JobResult(job.algorithm, job.index, job.clientId, job.id, nonce, job.diff, hash)
  }

  /** Nonces that a GPU reported for a job. */
  datatype Report = Report(job: Job, nonces: seq<uint32>, device: nat)

  type Bundle = r: Report | Sized(r.job) witness Report(NO_JOB, [], 0)

  /** The check of one bundle, and whether its RandomX dataset was there at that moment. */
  datatype Trial = Trial(bundle: Bundle, ready: bool)

  /** What the check depends on: the algorithm families compiled in and the
      hash functions. `hash` is the hash of the job's blob with the nonce written into it; `kawpow`
      takes the height, the header hash and the 64-bit nonce. */
  datatype Env = Env(
    randomx: bool,
    kawpow: bool,
    hash: (Job, nat) -> Hash,
    kawpowHash: (nat, seq<byte>, nat) -> Hash)

  // ---- byte order ----

  function LittleEndian(s: seq<byte>): nat {
    if s == [] then 0 else s[0] + 256 * LittleEndian(s[1..])
  }

  function BigEndian(s: seq<byte>): nat {
    if s == [] then 0 else 256 * BigEndian(s[..|s| - 1]) + s[|s| - 1]
  }

  function Reversed(s: seq<byte>): (r: seq<byte>)
    ensures |r| == |s|
  {
    seq(|s|, i requires 0 <= i < |s| => s[|s| - 1 - i])
  }

  lemma {:induction false} ReversalSwapsByteOrder(s: seq<byte>)
    ensures LittleEndian(Reversed(s)) == BigEndian(s)
  {
    if s != [] {
      assert Reversed(s)[1..] == Reversed(s[..|s| - 1]);
      ReversalSwapsByteOrder(s[..|s| - 1]);
    }
  }

  lemma {:induction false} LittleEndianSplit(s: seq<byte>, t: seq<byte>)
    ensures LittleEndian(s + t) == LittleEndian(s) + Power256(|s|) * LittleEndian(t)
  {
    if s == [] {
      assert s + t == t;
    } else {
      assert (s + t)[1..] == s[1..] + t;
      LittleEndianSplit(s[1..], t);
      AssociateTimes(256, Power256(|s| - 1), LittleEndian(t));
    }
  }

  lemma AssociateTimes(a: nat, b: nat, c: nat)
    ensures a * (b * c) == (a * b) * c
  {
  }

  function Power256(n: nat): nat {
    if n == 0 then 1 else 256 * Power256(n - 1)
  }

  /** The number that is compared with the target: the last eight bytes, read as the CPU does. */
  function Difficulty64(hash: Hash): nat {
    LittleEndian(hash[24..32])
  }

  /** KawPow reverses its output first, so its target test reads the first eight output bytes as a
      big-endian number. */
  lemma KawPowTestIsBigEndian(output: Hash)
    ensures Difficulty64(Reversed(output)) == BigEndian(output[..8])
  {
    assert Reversed(output)[24..32] == Reversed(output[..8]);
    ReversalSwapsByteOrder(output[..8]);
  }

  // ---- the nonce in the blob ----

  function Word(n: nat): (w: seq<byte>)
    ensures |w| == 4
  {
    [n % 256, n / 256 % 256, n / 256 / 256 % 256, n / 256 / 256 / 256 % 256]
  }

  const KAWPOW_OFFSET: nat := 32

  /** The blob of a KawPow job is long enough for its 64-bit nonce (`Job::setBlob`). */
  predicate Sized(job: Job) {
    FamilyOf(job.algorithm) == KawPow ==> |job.blob| >= KAWPOW_OFFSET + 8
  }

  function KawPowBlob(job: Job, nonce: nat): (b: seq<byte>)
    requires |job.blob| >= KAWPOW_OFFSET + 8
    ensures |b| == |job.blob|
  {
    job.blob[..32] + Word(nonce) + job.blob[36..]
  }

  function FullNonce(job: Job, nonce: nat): nat
    requires |job.blob| >= KAWPOW_OFFSET + 8
  {
    LittleEndian(KawPowBlob(job, nonce)[32..40])
  }

  /** The share carries the reported nonce in its low word and the pool's extra nonce above it. */
  lemma FullNonceParts(job: Job, nonce: nat)
    requires |job.blob| >= KAWPOW_OFFSET + 8 && nonce < 0x1_0000_0000
    ensures FullNonce(job, nonce) == nonce + 0x1_0000_0000 * LittleEndian(job.blob[36..40])
  {
    var w := Word(nonce);
    var high := job.blob[36..40];
    assert KawPowBlob(job, nonce)[32..40] == w + high;
    LittleEndianSplit(w, high);
    WordValue(nonce);
    assert Power256(1) == 256 && Power256(2) == 65536 && Power256(3) == 16777216 && Power256(4) == 0x1_0000_0000;
  }

  lemma WordValue(n: nat)
    requires n < 0x1_0000_0000
    ensures LittleEndian(Word(n)) == n
  {
    FourBytes(Word(n));
    var m := n / 256;
    assert n == n % 256 + 256 * m && m == m % 256 + 256 * (m / 256);
    assert m / 256 == m / 256 % 256 + 256 * (m / 256 / 256);
  }

  lemma FourBytes(w: seq<byte>)
    requires |w| == 4
    ensures LittleEndian(w) == (w[0] as int) + 256 * ((w[1] as int) + 256 * ((w[2] as int) + 256 * (w[3] as int)))
  {
    assert w[1..][1..] == w[2..] && w[2..][1..] == w[3..] && w[3..][1..] == [];
    assert LittleEndian(w[3..]) == w[3];
    assert LittleEndian(w[2..]) == w[2] + 256 * LittleEndian(w[3..]);
    assert LittleEndian(w[1..]) == w[1] + 256 * LittleEndian(w[2..]);
  }

  // ---- the check ----

  function ShareOf(env: Env, job: Job, nonce: nat): JobResult
    requires Sized(job)
  {
    if FamilyOf(job.algorithm) == KawPow then
      var full := FullNonce(job, nonce);
      MakeResult(job, full, env.kawpowHash(job.height, job.blob[..32], full))
    else MakeResult(job, nonce, env.hash(job, nonce))
  }

  /** The hash of the nonce is below the target of the job. */
  predicate BelowTarget(env: Env, job: Job, nonce: nat)
    requires Sized(job)
  {
    var hash := ShareOf(env, job, nonce).hash;
    if FamilyOf(job.algorithm) == KawPow then BigEndian(hash[..8]) < job.target
    else Difficulty64(hash) < job.target
  }

  /** The nonces below the target, in the order they were reported. */
  function Shares(env: Env, job: Job, nonces: seq<uint32>): seq<JobResult>
    requires Sized(job)
  {
    if nonces == [] then []
    else
      var last := nonces[|nonces| - 1];
      Shares(env, job, nonces[..|nonces| - 1]) + (if BelowTarget(env, job, last) then [ShareOf(env, job, last)] else [])
  }

  /** How many nonces are not below the target. */
  function Wrong(env: Env, job: Job, nonces: seq<uint32>): nat
    requires Sized(job)
  {
    if nonces == [] then 0
    else Wrong(env, job, nonces[..|nonces| - 1]) + (if BelowTarget(env, job, nonces[|nonces| - 1]) then 0 else 1)
  }

  lemma {:induction false} SharesAndWrong(env: Env, job: Job, nonces: seq<uint32>)
    requires Sized(job)
    ensures |Shares(env, job, nonces)| + Wrong(env, job, nonces) == |nonces|
  {
    if nonces != [] {
      SharesAndWrong(env, job, nonces[..|nonces| - 1]);
    }
  }

  predicate CompiledIn(env: Env, job: Job) {
    match FamilyOf(job.algorithm)
    case RandomX => env.randomx
    case KawPow => env.kawpow
    case _ => true
  }

  /** The nonces of the bundle are hashed again; otherwise they all count as errors. */
  predicate Hashed(env: Env, t: Trial) {
    match FamilyOf(t.bundle.job.algorithm)
    case RandomX => env.randomx && t.ready
    case KawPow => env.kawpow
    case Argon2 => false
    case CryptoNight => true
  }

  function Accepted(env: Env, t: Trial): seq<JobResult> {
    if Hashed(env, t) then Shares(env, t.bundle.job, t.bundle.nonces) else []
  }

  /** The shares that a bundle has when its dataset is there. */
  function Due(env: Env, b: Bundle): seq<JobResult> {
    Accepted(env, Trial(b, true))
  }

  /** The shares that are lost because the dataset is not there any more. */
  function Missed(env: Env, t: Trial): seq<JobResult> {
    if t.ready || !IsRandomX(t.bundle.job) then [] else Due(env, t.bundle)
  }

  /** The check comes in time: the dataset is there, or it is not needed, or there is no share to find. */
  predicate InTime(env: Env, t: Trial) {
    IsRandomX(t.bundle.job) && Due(env, t.bundle) != [] ==> t.ready
  }

  lemma DueIsAcceptedOrMissed(env: Env, t: Trial)
    ensures Accepted(env, t) + Missed(env, t) == Due(env, t.bundle)
    ensures Missed(env, t) == [] <==> InTime(env, t)
  {
  }

  /** A share of a bundle carries one of its nonces and everything else from its job. */
  lemma AcceptedCarries(env: Env, t: Trial, r: JobResult) returns (n: uint32)
    requires r in Accepted(env, t)
    ensures n in t.bundle.nonces && Carries(env, t.bundle.job, n, r) && MeetsTarget(t.bundle.job, r.hash)
  {
    var i := SharesCarry(env, t.bundle.job, t.bundle.nonces, r);
    n := t.bundle.nonces[i];
  }

  /** The errors of a bundle: the nonces that miss the target, or all of them where none can be hashed. */
  function Rejected(env: Env, t: Trial): nat {
    if Hashed(env, t) then Wrong(env, t.bundle.job, t.bundle.nonces)
    else if CompiledIn(env, t.bundle.job) then |t.bundle.nonces|
    else 0
  }

  /** Every reported nonce becomes a share or an error exactly when its family is compiled in (or
      there is no nonce at all), and none becomes more than one. */
  lemma NoncesAreAccountedForIff(env: Env, t: Trial)
    ensures |Accepted(env, t)| + Rejected(env, t) <= |t.bundle.nonces|
    ensures |Accepted(env, t)| + Rejected(env, t) == |t.bundle.nonces| <==> CompiledIn(env, t.bundle.job) || t.bundle.nonces == []
  {
    SharesAndWrong(env, t.bundle.job, t.bundle.nonces);
  }

  // ---- what a share carries ----

  /** The number that a reported nonce stands for: for KawPow it is the low word under the extra nonce of the
      pool, for every other family the nonce itself. */
  function NonceOf(job: Job, n: uint32): nat
    requires Sized(job)
  {
    if FamilyOf(job.algorithm) == KawPow then n + 0x1_0000_0000 * LittleEndian(job.blob[36..40]) else n
  }

  /** The share has the nonce, its hash, and everything the pool needs to know of the job. */
  predicate Carries(env: Env, job: Job, n: uint32, r: JobResult)
    requires Sized(job)
  {
    && r.nonce == NonceOf(job, n)
    && r.hash == (if FamilyOf(job.algorithm) == KawPow then env.kawpowHash(job.height, job.blob[..32], NonceOf(job, n))
                  else env.hash(job, n))
    && r.algorithm == job.algorithm && r.index == job.index && r.clientId == job.clientId
    && r.jobId == job.id && r.diff == job.diff
  }

  /** The hash meets the target of the job: KawPow reads its first eight bytes big-endian, every other family
      its last eight bytes little-endian. */
  predicate MeetsTarget(job: Job, hash: Hash) {
    (if FamilyOf(job.algorithm) == KawPow then BigEndian(hash[..8]) else LittleEndian(hash[24..])) < job.target
  }

  lemma ShareCarries(env: Env, job: Job, n: uint32)
    requires Sized(job)
    ensures Carries(env, job, n, ShareOf(env, job, n))
    ensures BelowTarget(env, job, n) <==> MeetsTarget(job, ShareOf(env, job, n).hash)
  {
    if FamilyOf(job.algorithm) == KawPow {
      FullNonceParts(job, n);
    }
    var hash := ShareOf(env, job, n).hash;
    assert hash[24..32] == hash[24..];
  }

  lemma {:induction false} SharesAppend(env: Env, job: Job, a: seq<uint32>, b: seq<uint32>)
    requires Sized(job)
    ensures Shares(env, job, a + b) == Shares(env, job, a) + Shares(env, job, b)
    decreases |b|
  {
    if b == [] {
      assert a + b == a;
    } else {
      var c, x := b[..|b| - 1], b[|b| - 1];
      SharesAppend(env, job, a, c);
      SharesAppendStep(env, job, a, c, x);
      assert b == c + [x];
    }
  }

  lemma SharesAppendStep(env: Env, job: Job, a: seq<uint32>, c: seq<uint32>, x: uint32)
    requires Sized(job) && Shares(env, job, a + c) == Shares(env, job, a) + Shares(env, job, c)
    ensures Shares(env, job, a + (c + [x])) == Shares(env, job, a) + Shares(env, job, c + [x])
  {
    SharesSnoc(env, job, a + c, x);
    SharesSnoc(env, job, c, x);
    Associate(a, c, [x]);
    Associate(Shares(env, job, a), Shares(env, job, c), if BelowTarget(env, job, x) then [ShareOf(env, job, x)] else []);
  }

  lemma SharesSnoc(env: Env, job: Job, a: seq<uint32>, x: uint32)
    requires Sized(job)
    ensures Shares(env, job, a + [x]) == Shares(env, job, a) + (if BelowTarget(env, job, x) then [ShareOf(env, job, x)] else [])
  {
    assert (a + [x])[..|a|] == a;
  }

  /** One nonce gives one share that carries it, or none: exactly if its hash meets the target. With
      `SharesAppend` this says what the shares of any list of nonces are. */
  lemma SharesOfOne(env: Env, job: Job, n: uint32)
    requires Sized(job)
    ensures var rs := Shares(env, job, [n]);
            || (|rs| == 1 && Carries(env, job, n, rs[0]) && MeetsTarget(job, rs[0].hash))
            || (rs == [] && forall r :: Carries(env, job, n, r) ==> !MeetsTarget(job, r.hash))
  {
    ShareCarries(env, job, n);
    SharesSnoc(env, job, [], n);
    assert [] + [n] == [n];
  }

  /** Every share carries one of the nonces reported, and meets the target. */
  lemma {:induction false} SharesCarry(env: Env, job: Job, nonces: seq<uint32>, r: JobResult) returns (i: nat)
    requires Sized(job) && r in Shares(env, job, nonces)
    ensures i < |nonces| && Carries(env, job, nonces[i], r) && MeetsTarget(job, r.hash)
  {
    i := |nonces| - 1;
    if r in Shares(env, job, nonces[..i]) {
      i := SharesCarry(env, job, nonces[..i], r);
    } else {
      ShareCarries(env, job, nonces[i]);
    }
  }

  /** Which bundles are hashed at all, and what becomes of the others. */
  lemma FamiliesDecide(env: Env, b: Bundle, ready: bool)
    ensures var accepted, rejected := Accepted(env, Trial(b, ready)), Rejected(env, Trial(b, ready));
            var all := Shares(env, b.job, b.nonces);
            match FamilyOf(b.job.algorithm)
            case RandomX =>
              if !env.randomx then accepted == [] && rejected == 0
              else if ready then accepted == all && rejected == |b.nonces| - |all|
              else accepted == [] && rejected == |b.nonces|
            case Argon2 => accepted == [] && rejected == |b.nonces|
            case KawPow => if env.kawpow then accepted == all && rejected == |b.nonces| - |all| else accepted == [] && rejected == 0
            case CryptoNight => accepted == all && rejected == |b.nonces| - |all|
  {
    SharesAndWrong(env, b.job, b.nonces);
  }

  const WRAP32: nat := 0x1_0000_0000

  /** The error counter has 32 bits. */
  function Wrap(x: nat): (r: nat)
    ensures r < WRAP32
  {
    x % WRAP32
  }

  lemma AddWrapped(a: nat, b: nat)
    ensures Wrap(Wrap(a) + b) == Wrap(a + b)
  {
  }

  lemma SharesStep(env: Env, job: Job, nonces: seq<uint32>, i: nat)
    requires Sized(job) && i < |nonces|
    ensures Shares(env, job, nonces[..i + 1])
            == Shares(env, job, nonces[..i]) + (if BelowTarget(env, job, nonces[i]) then [ShareOf(env, job, nonces[i])] else [])
    ensures Wrong(env, job, nonces[..i + 1])
            == Wrong(env, job, nonces[..i]) + (if BelowTarget(env, job, nonces[i]) then 0 else 1)
  {
    assert nonces[..i + 1][..i] == nonces[..i];
  }

  /** A nonce whose hash is below the target becomes a share, any other one an error. */
  ghost predicate Checked(env: Env, job: Job, nonce: nat, results: seq<JobResult>, errors: nat,
                          results': seq<JobResult>, errors': nat)
    requires Sized(job)
  {
    if BelowTarget(env, job, nonce) then results' == results + [ShareOf(env, job, nonce)] && errors' == errors
    else results' == results && errors' == Wrap(errors + 1)
  }

  method CheckHash(env: Env, job: Job, results: seq<JobResult>, errors: nat, nonce: nat, hash: Hash)
    returns (results': seq<JobResult>, errors': nat)
    requires FamilyOf(job.algorithm) != KawPow && hash == env.hash(job, nonce)
    ensures Checked(env, job, nonce, results, errors, results', errors')
  {
    results', errors' := results, errors;
    if LittleEndian(hash[24..32]) < job.target {
      results' := results' + [MakeResult(job, nonce, hash)];
    } else {
      errors' := Wrap(errors' + 1);
    }
  }

  method ReverseBytes(output: Hash) returns (hash: Hash)
    ensures hash == Reversed(output)
  {
    var buffer := new byte[32](_ => 0);
    for i := 0 to 32
      invariant forall k :: 0 <= k < i ==> buffer[k] == output[31 - k]
    {
      buffer[i] := output[31 - i];
    }
    hash := buffer[..];
  }

  /** The body of the KawPow loop. */
  method CheckKawPow(env: Env, job: Job, results: seq<JobResult>, errors: nat, nonce: nat)
    returns (results': seq<JobResult>, errors': nat)
    requires FamilyOf(job.algorithm) == KawPow && Sized(job)
    ensures Checked(env, job, nonce, results, errors, results', errors')
  {
    results', errors' := results, errors;
    var blob := KawPowBlob(job, nonce);
    var full := LittleEndian(blob[32..40]);
    var output := env.kawpowHash(job.height, job.blob[..32], full);
    var hash := ReverseBytes(output);
    KawPowTestIsBigEndian(output);
    if LittleEndian(hash[24..32]) < job.target {
      results' := results' + [MakeResult(job, full, output)];
    } else {
      errors' := Wrap(errors' + 1);
    }
  }

  /** What the loops of `getResults` do with one nonce. */
  method CheckNonce(env: Env, job: Job, results: seq<JobResult>, errors: nat, nonce: nat)
    returns (results': seq<JobResult>, errors': nat)
    requires Sized(job)
    ensures Checked(env, job, nonce, results, errors, results', errors')
  {
    if FamilyOf(job.algorithm) == KawPow {
      results', errors' := CheckKawPow(env, job, results, errors, nonce);
    } else {
      results', errors' := CheckHash(env, job, results, errors, nonce, env.hash(job, nonce));
    }
  }

  /** The first `i` nonces of a bundle have been dealt with. */
  ghost predicate Progress(env: Env, b: Bundle, i: nat, results: seq<JobResult>, errors: nat,
                           results': seq<JobResult>, errors': nat)
    requires i <= |b.nonces|
  {
    && results' == results + Shares(env, b.job, b.nonces[..i])
    && errors' == Wrap(errors + Wrong(env, b.job, b.nonces[..i]))
  }

  lemma ProgressStep(env: Env, b: Bundle, i: nat, results: seq<JobResult>, errors: nat,
                     r1: seq<JobResult>, e1: nat, r2: seq<JobResult>, e2: nat)
    requires i < |b.nonces|
    requires Progress(env, b, i, results, errors, r1, e1) && Checked(env, b.job, b.nonces[i], r1, e1, r2, e2)
    ensures Progress(env, b, i + 1, results, errors, r2, e2)
  {
    SharesStep(env, b.job, b.nonces, i);
    var found := Shares(env, b.job, b.nonces[..i]);
    AddWrapped(errors + Wrong(env, b.job, b.nonces[..i]), 1);
    if BelowTarget(env, b.job, b.nonces[i]) {
      var share := ShareOf(env, b.job, b.nonces[i]);
      assert results + found + [share] == results + (found + [share]);
    }
  }

  /** The loop over the nonces of a bundle that is hashed again. */
  method HashNonces(env: Env, b: Bundle, results: seq<JobResult>, errors: nat)
    returns (results': seq<JobResult>, errors': nat)
    requires errors < WRAP32
    ensures results' == results + Shares(env, b.job, b.nonces)
    ensures errors' == Wrap(errors + Wrong(env, b.job, b.nonces))
  {
    var i := 0;
    results', errors' := results, errors;
    while i < |b.nonces|
      invariant 0 <= i <= |b.nonces| && Progress(env, b, i, results, errors, results', errors')
    {
      ghost var r1, e1 := results', errors';
      results', errors' := CheckNonce(env, b.job, results', errors', b.nonces[i]);
      ProgressStep(env, b, i, results, errors, r1, e1, results', errors');
      i := i + 1;
    }
    assert b.nonces[..|b.nonces|] == b.nonces;
  }

  /** `getResults`: the shares of a bundle are exactly its nonces below the target, in order, and the
      others are counted in a 32-bit error counter. `ready` is the answer of `Rx::dataset`. */
  method GetResults(env: Env, b: Bundle, ready: bool, results: seq<JobResult>, errors: nat)
    returns (results': seq<JobResult>, errors': nat)
    requires errors < WRAP32
    ensures results' == results + Accepted(env, Trial(b, ready))
    ensures errors' == Wrap(errors + Rejected(env, Trial(b, ready)))
  {
    results', errors' := results, errors;
    match FamilyOf(b.job.algorithm) {
      case RandomX =>
        if env.randomx {
          if !ready {
            errors' := Wrap(errors' + |b.nonces|);
            return;
          }
          results', errors' := HashNonces(env, b, results', errors');
        }
      case Argon2 =>
        errors' := Wrap(errors' + |b.nonces|);
      case KawPow =>
        if env.kawpow {
          results', errors' := HashNonces(env, b, results', errors');
        }
      case CryptoNight =>
        results', errors' := HashNonces(env, b, results', errors');
    }
  }

  // ---- batches ----

  function Bundles(ts: seq<Trial>): (bs: seq<Bundle>)
    ensures |bs| == |ts|
  {
    seq(|ts|, i requires 0 <= i < |ts| => ts[i].bundle)
  }

  function TotalNonces(bs: seq<Bundle>): nat {
    if bs == [] then 0 else TotalNonces(bs[..|bs| - 1]) + |bs[|bs| - 1].nonces|
  }

  /** The shares of each bundle. */
  function Parts(env: Env, ts: seq<Trial>): (ps: seq<seq<JobResult>>)
    ensures |ps| == |ts|
  {
    seq(|ts|, i requires 0 <= i < |ts| => Accepted(env, ts[i]))
  }

  function AllAccepted(env: Env, ts: seq<Trial>): seq<JobResult> {
    Flatten(Parts(env, ts))
  }

  function AllRejected(env: Env, ts: seq<Trial>): nat {
    if ts == [] then 0 else AllRejected(env, ts[..|ts| - 1]) + Rejected(env, ts[|ts| - 1])
  }

  /** The families of all bundles with nonces are compiled in. */
  ghost predicate AllCompiledIn(env: Env, bs: seq<Bundle>) {
    forall b :: b in bs ==> CompiledIn(env, b.job) || b.nonces == []
  }

  lemma AllAcceptedAppend(env: Env, a: seq<Trial>, b: seq<Trial>)
    ensures AllAccepted(env, a + b) == AllAccepted(env, a) + AllAccepted(env, b)
  {
    assert Parts(env, a + b) == Parts(env, a) + Parts(env, b);
    FlattenAppend(Parts(env, a), Parts(env, b));
  }

  lemma AllAcceptedSnoc(env: Env, a: seq<Trial>, x: Trial)
    ensures AllAccepted(env, a + [x]) == AllAccepted(env, a) + Accepted(env, x)
  {
    assert Parts(env, a + [x]) == Parts(env, a) + [Accepted(env, x)];
    FlattenSnoc(Parts(env, a), Accepted(env, x));
  }

  lemma AllRejectedSnoc(env: Env, a: seq<Trial>, x: Trial)
    ensures AllRejected(env, a + [x]) == AllRejected(env, a) + Rejected(env, x)
  {
    assert (a + [x])[..|a|] == a;
  }

  lemma BundlesSnoc(a: seq<Trial>, x: Trial)
    ensures Bundles(a + [x]) == Bundles(a) + [x.bundle]
    ensures TotalNonces(Bundles(a + [x])) == TotalNonces(Bundles(a)) + |x.bundle.nonces|
  {
    assert (Bundles(a) + [x.bundle])[..|a|] == Bundles(a);
  }

  /** The shares and errors of a batch never exceed its nonces, and add up to them exactly when the
      families of all bundles with nonces are compiled in, whatever the datasets at hand. */
  lemma {:induction false} BatchIsAccountedForIff(env: Env, ts: seq<Trial>)
    ensures |AllAccepted(env, ts)| + AllRejected(env, ts) <= TotalNonces(Bundles(ts))
    ensures |AllAccepted(env, ts)| + AllRejected(env, ts) == TotalNonces(Bundles(ts)) <==> AllCompiledIn(env, Bundles(ts))
  {
    if ts != [] {
      var before, last := ts[..|ts| - 1], ts[|ts| - 1];
      assert ts == before + [last];
      BatchIsAccountedForIff(env, before);
      NoncesAreAccountedForIff(env, last);
      AllAcceptedSnoc(env, before, last);
      BundlesSnoc(before, last);
    }
  }

  // ---- what the datasets at hand decide ----

  /** The shares that the bundles have when their datasets are there. */
  function AllDue(env: Env, bs: seq<Bundle>): seq<JobResult> {
    Flatten(seq(|bs|, i requires 0 <= i < |bs| => Due(env, bs[i])))
  }

  function AllMissed(env: Env, ts: seq<Trial>): seq<JobResult> {
    Flatten(seq(|ts|, i requires 0 <= i < |ts| => Missed(env, ts[i])))
  }

  lemma AllDueSnoc(env: Env, bs: seq<Bundle>, b: Bundle)
    ensures AllDue(env, bs + [b]) == AllDue(env, bs) + Due(env, b)
  {
    var ps := seq(|bs|, i requires 0 <= i < |bs| => Due(env, bs[i]));
    assert seq(|bs + [b]|, i requires 0 <= i < |bs + [b]| => Due(env, (bs + [b])[i])) == ps + [Due(env, b)];
    FlattenSnoc(ps, Due(env, b));
  }

  lemma AllMissedSnoc(env: Env, ts: seq<Trial>, t: Trial)
    ensures AllMissed(env, ts + [t]) == AllMissed(env, ts) + Missed(env, t)
  {
    var ps := seq(|ts|, i requires 0 <= i < |ts| => Missed(env, ts[i]));
    assert seq(|ts + [t]|, i requires 0 <= i < |ts + [t]| => Missed(env, (ts + [t])[i])) == ps + [Missed(env, t)];
    FlattenSnoc(ps, Missed(env, t));
  }

  ghost predicate AllInTime(env: Env, ts: seq<Trial>) {
    forall t :: t in ts ==> InTime(env, t)
  }

  /** The shares accepted and the shares missed are together the shares due. */
  ghost predicate Conserved(env: Env, ts: seq<Trial>) {
    multiset(AllAccepted(env, ts)) + multiset(AllMissed(env, ts)) == multiset(AllDue(env, Bundles(ts)))
  }

  lemma DueStep(env: Env, before: seq<Trial>, last: Trial)
    requires Conserved(env, before)
    ensures Conserved(env, before + [last])
  {
    AllAcceptedSnoc(env, before, last);
    AllMissedSnoc(env, before, last);
    BundlesSnoc(before, last);
    AllDueSnoc(env, Bundles(before), last.bundle);
    DueIsAcceptedOrMissed(env, last);
    Regroup(AllAccepted(env, before), Accepted(env, last), AllMissed(env, before), Missed(env, last));
  }

  lemma Regroup(a: seq<JobResult>, b: seq<JobResult>, c: seq<JobResult>, d: seq<JobResult>)
    ensures multiset(a + b) + multiset(c + d) == (multiset(a) + multiset(c)) + multiset(b + d)
  {
  }

  lemma {:induction false} DueIsConserved(env: Env, ts: seq<Trial>)
    ensures Conserved(env, ts)
  {
    if ts == [] {
      NothingIsDue(env);
    } else {
      var before, last := ts[..|ts| - 1], ts[|ts| - 1];
      DueIsConserved(env, before);
      DueStep(env, before, last);
      assert ts == before + [last];
    }
  }

  lemma NothingIsDue(env: Env)
    ensures Conserved(env, [])
  {
    assert Parts(env, []) == [];
  }

  /** None is missed exactly when every bundle is checked in time. */
  lemma {:induction false} NoneMissedIff(env: Env, ts: seq<Trial>)
    ensures AllMissed(env, ts) == [] <==> AllInTime(env, ts)
  {
    if ts != [] {
      var before, last := ts[..|ts| - 1], ts[|ts| - 1];
      NoneMissedIff(env, before);
      NoneMissedStep(env, before, last);
      assert ts == before + [last];
    }
  }

  lemma NoneMissedStep(env: Env, before: seq<Trial>, last: Trial)
    requires AllMissed(env, before) == [] <==> AllInTime(env, before)
    ensures AllMissed(env, before + [last]) == [] <==> AllInTime(env, before + [last])
  {
    AllMissedSnoc(env, before, last);
    DueIsAcceptedOrMissed(env, last);
    assert AllInTime(env, before + [last]) <==> AllInTime(env, before) && InTime(env, last);
  }

  // ---- the background loop ----

  /** The first `i` bundles of a batch have been tried and dealt with. */
  ghost predicate BatchProgress(env: Env, bs: seq<Bundle>, i: nat, ts: seq<Trial>, results: seq<JobResult>, errors: nat)
    requires i <= |bs|
  {
    Bundles(ts) == bs[..i] && results == AllAccepted(env, ts) && errors == Wrap(AllRejected(env, ts))
  }

  lemma BatchStep(env: Env, bs: seq<Bundle>, i: nat, ts: seq<Trial>, ready: bool, results: seq<JobResult>, errors: nat)
    requires i < |bs| && BatchProgress(env, bs, i, ts, results, errors)
    ensures var t := Trial(bs[i], ready);
            BatchProgress(env, bs, i + 1, ts + [t], results + Accepted(env, t), Wrap(errors + Rejected(env, t)))
  {
    var t := Trial(bs[i], ready);
    AllAcceptedSnoc(env, ts, t);
    AllRejectedSnoc(env, ts, t);
    AddWrapped(AllRejected(env, ts), Rejected(env, t));
    BundlesSnoc(ts, t);
    assert bs[..i + 1] == bs[..i] + [bs[i]];
  }

  lemma ErrorsAreTheRest(env: Env, ts: seq<Trial>)
    ensures AllCompiledIn(env, Bundles(ts)) ==>
              && |AllAccepted(env, ts)| <= TotalNonces(Bundles(ts))
              && AllRejected(env, ts) == TotalNonces(Bundles(ts)) - |AllAccepted(env, ts)|
  {
    BatchIsAccountedForIff(env, ts);
  }

  /** The question whether the dataset is there; the answer may change at any time. */
  method AskDataset() returns (ready: bool) {
    ready := *;
  }

  /** The background work on a batch of bundles, each tried with the dataset at hand when its turn comes.
      With all families compiled in, the error counter is the number of nonces that did not become a share. */
  method CheckBundles(env: Env, bs: seq<Bundle>) returns (results: seq<JobResult>, errors: nat, trials: seq<Trial>)
    ensures Bundles(trials) == bs
    ensures results == AllAccepted(env, trials) && errors == Wrap(AllRejected(env, trials))
    ensures AllCompiledIn(env, bs) ==> |results| <= TotalNonces(bs) && errors == (TotalNonces(bs) - |results|) % 0x1_0000_0000
  {
    results, errors, trials := [], 0, [];
    assert Parts(env, []) == [];
    var i := 0;
    while i < |bs|
      invariant i <= |bs| && errors < WRAP32 && BatchProgress(env, bs, i, trials, results, errors)
    {
      var ready := AskDataset();
      BatchStep(env, bs, i, trials, ready, results, errors);
      results, errors := GetResults(env, bs[i], ready, results, errors);
      trials := trials + [Trial(bs[i], ready)];
      i := i + 1;
    }
    assert bs[..|bs|] == bs;
    ErrorsAreTheRest(env, trials);
  }
}
