/**
 The loops that wait until something stays quiet: `zero_established_connections` of
 scripts/install_cpa_agent_identity_candidate.py, `check_quiescent` and `wait_unloaded` of
 scripts/recover_local_cpa_policy.py.
 */
module QuietLoops {

  /** One look at the connections or at the service; Broken is an audit that failed. */
  datatype Sample = Quiet | Noisy | Broken

  datatype Wait = Sustained(taken: nat) | AuditFailed(taken: nat) | NeverSustained

  /** The last `k` samples before `end` are quiet. */
  ghost predicate QuietRun(samples: nat -> Sample, end: nat, k: nat) {
    k <= end && forall i: nat :: end - k <= i < end ==> samples(i) == Quiet
  }

  ghost predicate NoneBroken(samples: nat -> Sample, end: nat) {
    forall i: nat :: i < end ==> samples(i) != Broken
  }

  ghost predicate NoRunUpTo(samples: nat -> Sample, end: nat, k: nat) {
    forall m: nat :: m <= end ==> !QuietRun(samples, m, k)
  }

  /** The length of the quiet run before `end`. */
  ghost predicate RunLength(samples: nat -> Sample, end: nat, run: nat) {
    QuietRun(samples, end, run) && (run < end ==> samples(end - run - 1) != Quiet)
  }

  lemma RunGrows(samples: nat -> Sample, end: nat, run: nat, k: nat)
    requires RunLength(samples, end, run) && NoRunUpTo(samples, end, k) && run < k
    ensures samples(end) == Quiet ==> RunLength(samples, end + 1, run + 1) && (run + 1 < k ==> NoRunUpTo(samples, end + 1, k))
                                      && (run + 1 == k ==> QuietRun(samples, end + 1, k))
    ensures samples(end) != Quiet ==> RunLength(samples, end + 1, 0) && NoRunUpTo(samples, end + 1, k)
  {
    if samples(end) == Quiet && run + 1 < k {
      assert run < end ==> samples(end - run - 1) != Quiet;
    }
    forall m: nat | m <= end + 1 && (samples(end) != Quiet || run + 1 < k) ensures !QuietRun(samples, m, k) {
      if m == end + 1 && k <= m {
        if samples(end) == Quiet {
          assert end - run - 1 >= m - k && samples(end - run - 1) != Quiet;
        } else {
          assert samples(end) != Quiet;
        }
      }
    }
  }

  /**
   Up to `n` samples, until `k` in a row are quiet.  The shipped loop has k = 5 and n = 30:
   it returns exactly when some 5 consecutive samples among the first 30 are empty before
   an audit fails.
   */
  method SustainedQuiet(samples: nat -> Sample, k: nat, n: nat) returns (wait: Wait)
    requires k > 0
    ensures wait.Sustained? ==> wait.taken <= n && QuietRun(samples, wait.taken, k) && NoneBroken(samples, wait.taken)
                                && NoRunUpTo(samples, wait.taken - 1, k)
    ensures wait.AuditFailed? ==> wait.taken < n && samples(wait.taken) == Broken && NoneBroken(samples, wait.taken) && NoRunUpTo(samples, wait.taken, k)
    ensures wait.NeverSustained? ==> NoneBroken(samples, n) && NoRunUpTo(samples, n, k)
  {
    var consecutive, i := 0, 0;
    while i < n
      invariant 0 <= i <= n && consecutive < k
      invariant RunLength(samples, i, consecutive) && NoRunUpTo(samples, i, k) && NoneBroken(samples, i)
    {
      if samples(i) == Broken {
        return AuditFailed(i);
      }
      RunGrows(samples, i, consecutive, k);
      if samples(i) == Quiet {
        consecutive := consecutive + 1;
        if consecutive >= k {
          return Sustained(i + 1);
        }
      } else {
        consecutive := 0;
      }
      i := i + 1;
    }
    wait := NeverSustained;
  }

  /** The installer's loop, whose answer is exact for its window of 5 in 30. */
  method ZeroEstablishedConnections(samples: nat -> Sample) returns (returned: bool)
    ensures returned <==> exists end: nat :: end <= 30 && QuietRun(samples, end, 5) && NoneBroken(samples, end)
  {
    var wait := SustainedQuiet(samples, 5, 30);
    returned := wait.Sustained?;
    if wait.AuditFailed? {
      forall end: nat | end <= 30 && QuietRun(samples, end, 5) ensures !NoneBroken(samples, end) {
        assert end > wait.taken;
      }
    }
  }

  datatype Check = Quiescent | Busy(rows: nat) | CheckFailed

  /** Rows of established sockets in one sample, or no answer. */
  datatype Rows = Rows(count: nat) | NoRows

  /** Quiescent exactly when every one of the samples shows no socket; busy reports the first that does. */
  method CheckQuiescent(rows: nat -> Rows, samples: int) returns (check: Check)
    ensures check.Quiescent? <==> forall i: nat :: i < samples ==> rows(i) == Rows(0)
    ensures check.Busy? ==> check.rows > 0 && exists i: nat :: i < samples && rows(i) == Rows(check.rows) && forall j: nat :: j < i ==> rows(j) == Rows(0)
    ensures check.CheckFailed? ==> exists i: nat :: i < samples && rows(i) == NoRows && forall j: nat :: j < i ==> rows(j) == Rows(0)
  {
    var index := 0;
    while index < samples
      invariant 0 <= index && (samples >= 0 ==> index <= samples) && forall j: nat :: j < index ==> rows(j) == Rows(0)
    {
      if rows(index).NoRows? {
        return CheckFailed;
      }
      if rows(index).count > 0 {
        return Busy(rows(index).count);
      }
      index := index + 1;
    }
    check := Quiescent;
  }

  // ---------------------------------------------------------------- waiting against the clock

  type Seconds = s: real | 0.0 <= s witness 0.0

  /** Whether the service is loaded at a sample, and how long asking took. */
  datatype Probe = Probe(loaded: bool, took: Seconds)

  const REQUIRED := 3
  const PAUSE := 0.25

  function AsSample(p: Probe): Sample {
    if p.loaded then Noisy else Quiet
  }

  /** When sample `i` starts. */
  function StartOf(probes: nat -> Probe, start: real, i: nat): real {
    if i == 0 then start else StartOf(probes, start, i - 1) + probes(i - 1).took + PAUSE
  }

  /** However fast the answers come, sample `i` starts at least `i` quarter seconds after the first. */
  lemma {:induction false} SamplesApart(probes: nat -> Probe, start: real, i: nat)
    ensures StartOf(probes, start, i) >= start + 0.25 * (i as real)
    decreases i
  {
    if i > 0 {
      SamplesApart(probes, start, i - 1);
    }
  }

  /** Quarter seconds left, rounded up: what the loop runs out of. */
  function PausesLeft(now: real, deadline: real): nat {
    if now >= deadline then 0 else 1 + ((deadline - now) / PAUSE).Floor
  }

  /** Samples that start before the deadline are taken until three in a row find the service gone. */
  method WaitUnloaded(probes: nat -> Probe, start: real, timeout: real) returns (unloaded: bool, taken: nat)
    ensures forall i: nat :: i < taken ==> StartOf(probes, start, i) < start + timeout
    ensures unloaded <==> QuietRun((i: nat) => AsSample(probes(i)), taken, REQUIRED)
    ensures unloaded ==> NoRunUpTo((i: nat) => AsSample(probes(i)), taken - 1, REQUIRED)
    ensures !unloaded ==> StartOf(probes, start, taken) >= start + timeout && NoRunUpTo((i: nat) => AsSample(probes(i)), taken, REQUIRED)
  {
    ghost var samples := (i: nat) => AsSample(probes(i));
    var now, deadline, absent := start, start + timeout, 0;
    taken := 0;
    while now < deadline
      invariant now == StartOf(probes, start, taken) && absent < REQUIRED
      invariant RunLength(samples, taken, absent) && NoRunUpTo(samples, taken, REQUIRED)
      invariant forall i: nat :: i < taken ==> StartOf(probes, start, i) < deadline
      decreases PausesLeft(now, deadline)
    {
      RunGrows(samples, taken, absent, REQUIRED);
      absent := if probes(taken).loaded then 0 else absent + 1;
      now := now + probes(taken).took + PAUSE;
      taken := taken + 1;
      if absent >= REQUIRED {
        return true, taken;
      }
    }
    unloaded := false;
  }
}
