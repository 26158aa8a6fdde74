/**
 The deferred activation worker (scripts/schedule_local_cpa_policy_activation.py) and the
 follower that waits for its receipt (scripts/schedule_local_cpa_failure_watcher.py), on an
 abstract clock of real seconds.
 */
module ActivationSchedule {
  import opened Wrappers

  type Seconds = s: real | 0.0 <= s witness 0.0

  const POLL_SECONDS := 60.0
  const CHECK_TIMEOUT := 30.0
  const INSTALLER_TIMEOUT := 600.0
  const RECOVERY_TIMEOUT := 360.0
  const FOLLOWER_GRACE_SECONDS := 3600.0

  // ---------------------------------------------------------------- waiting for quiescence

  /** A quiescence check: its answer and how long it took; Broken also covers a check that timed out. */
  datatype Answer = Quiescent | Busy | Broken
  datatype Check = Check(answer: Answer, took: Seconds)

  datatype Wait = Quiet | DeadlinePassed | MonitorFailed

  function Min(a: real, b: real): real {
    if a <= b then a else b
  }

  /** Polls still possible before the deadline. */
  function PollsLeft(now: real, deadline: real): nat {
    if now >= deadline then 0 else 1 + ((deadline - now) / POLL_SECONDS).Floor
  }

  lemma PollsShrink(now: real, took: Seconds, deadline: real)
    requires now + took < deadline
    ensures PollsLeft(now + took + Min(POLL_SECONDS, deadline - (now + took)), deadline) < PollsLeft(now, deadline)
  {}

  /** The polling loop from its `k`th check on: how it ends and when. */
  function Poll(now: real, deadline: real, checks: nat -> Check, k: nat): (Wait, real)
    decreases PollsLeft(now, deadline)
  {
    var after := now + checks(k).took;
    match checks(k).answer
    case Quiescent => (Quiet, after)
    case Broken => (MonitorFailed, after)
    case Busy =>
      if deadline - after <= 0.0 then (DeadlinePassed, after)
      else
        PollsShrink(now, checks(k).took, deadline);
        Poll(after + Min(POLL_SECONDS, deadline - after), deadline, checks, k + 1)
  }

  method WaitForQuiescence(start: real, deadline: real, checks: nat -> Check) returns (wait: Wait, end: real)
    ensures (wait, end) == Poll(start, deadline, checks, 0)
  {
    var now, k := start, 0;
    while true
      invariant Poll(start, deadline, checks, 0) == Poll(now, deadline, checks, k)
      decreases PollsLeft(now, deadline)
    {
      now := now + checks(k).took;
      if checks(k).answer.Quiescent? {
        return Quiet, now;
      }
      if !checks(k).answer.Busy? {
        return MonitorFailed, now;
      }
      var remaining := deadline - now;
      if remaining <= 0.0 {
        return DeadlinePassed, now;
      }
      PollsShrink(now - checks(k).took, checks(k).took, deadline);
      now := now + Min(POLL_SECONDS, remaining);
      k := k + 1;
    }
  }

  // ---------------------------------------------------------------- the worker

  datatype Exit = Accepted | NotAccepted | TimedOut
  datatype Call = Call(exit: Exit, took: Seconds)

  /** A receipt write stores the file, or raises before or after the file is in place. */
  datatype Write = Stored | RaisedBefore | RaisedAfter

  datatype RecoveryStatus = NotRequired | RecoveryAccepted | RecoveryFailed

  datatype Receipt = Receipt(
    jobId: string,
    accepted: bool,
    version: Option<string>,
    digest: Option<string>,
    communicationPassed: bool,
    serviceAvailable: bool,
    recovery: RecoveryStatus)

  datatype Job = Job(jobId: string, version: string, digest: string, executeAfter: real, quiescenceDeadline: real)

  /** What the worker meets on its way. */
  datatype Course = Course(
    jobValid: bool,
    versionMatches: bool,
    checks: nat -> Check,
    bootstrapSame: bool,
    installer: Call,
    firstRecovery: Call,
    secondRecovery: Call,
    firstWrite: Write,
    secondWrite: Write)

  /** What the worker did: the receipts that appeared with their times, and its recoveries. */
  datatype Log = Log(receipts: seq<(Receipt, real)>, recoveries: nat, end: real)

  function Refusal(job: Job, recovery: RecoveryStatus): Receipt {
    Receipt(job.jobId, false, None, None, recovery.RecoveryAccepted?, recovery.RecoveryAccepted?, recovery)
  }

  function StatusOf(c: Call): RecoveryStatus {
    if c.exit.Accepted? then RecoveryAccepted else RecoveryFailed
  }

  function Appears(write: Write, receipt: Receipt, now: real): seq<(Receipt, real)> {
    if write.RaisedBefore? then [] else [(receipt, now)]
  }

  /** The handler of every exception after `log`: recover if the activation was invoked, then write a refusal. */
  function Handle(job: Job, c: Course, log: Log, invoked: bool): Log {
    if !invoked then Log(log.receipts + Appears(c.secondWrite, Refusal(job, NotRequired), log.end), log.recoveries, log.end)
    else
      var call := if log.recoveries == 0 then c.firstRecovery else c.secondRecovery;
      var now := log.end + call.took;
      Log(log.receipts + Appears(c.secondWrite, Refusal(job, StatusOf(call)), now), log.recoveries + 1, now)
  }

  function WriteOrHandle(job: Job, c: Course, log: Log, receipt: Receipt, invoked: bool): Log {
    var written := log.(receipts := log.receipts + Appears(c.firstWrite, receipt, log.end));
    if c.firstWrite.Stored? then written else Handle(job, c, written, invoked)
  }

  function Outcome(job: Job, accepted: bool, recovery: RecoveryStatus): Receipt {
    var available := accepted || recovery.RecoveryAccepted?;
    Receipt(job.jobId, accepted, Some(job.version), Some(job.digest), available, available, recovery)
  }

  /** From the moment the installer is invoked. */
  function Activation(job: Job, c: Course, now: real): Log {
    if !c.bootstrapSame then Handle(job, c, Log([], 0, now), true)
    else
      var after := now + c.installer.took;
      match c.installer.exit
      case TimedOut => Handle(job, c, Log([], 0, after), true)
      case Accepted => WriteOrHandle(job, c, Log([], 0, after), Outcome(job, true, NotRequired), true)
      case NotAccepted =>
        var recovered := Log([], 1, after + c.firstRecovery.took);
        if c.firstRecovery.exit.TimedOut? then Handle(job, c, recovered, true)
        else WriteOrHandle(job, c, recovered, Outcome(job, false, StatusOf(c.firstRecovery)), true)
  }

  function Max(a: real, b: real): real {
    if a >= b then a else b
  }

  /** The receipt of a job whose connections never went quiet. */
  function ConnectionsPresent(job: Job): Receipt {
    Receipt(job.jobId, false, Some(job.version), Some(job.digest), false, true, NotRequired)
  }

  function Work(job: Job, c: Course, start: real): Log {
    if !c.jobValid then Handle(job, c, Log([], 0, start), false)
    else
      var now := Max(start, job.executeAfter);
      if !c.versionMatches then Handle(job, c, Log([], 0, now), false)
      else
        var (wait, after) := Poll(now, job.quiescenceDeadline, c.checks, 0);
        match wait
        case MonitorFailed => Handle(job, c, Log([], 0, after), false)
        case DeadlinePassed => WriteOrHandle(job, c, Log([], 0, after), ConnectionsPresent(job), false)
        case Quiet => Activation(job, c, after)
  }

  /** The worker with its flags; `raised` stands for the exception that ends the try block. */
  method Worker(job: Job, c: Course, start: real) returns (log: Log)
    ensures log == Work(job, c, start)
  {
    hide Poll;
    var activationInvoked, raised, recoveries := false, false, 0;
    var receipts: seq<(Receipt, real)>, now := [], start;
    var receipt: Option<Receipt> := None;
    if !c.jobValid {
      raised := true;
    } else {
      now := if now >= job.executeAfter then now else job.executeAfter;
      if !c.versionMatches {
        raised := true;
      } else {
        var wait;
        wait, now := WaitForQuiescence(now, job.quiescenceDeadline, c.checks);
        if wait.MonitorFailed? {
          raised := true;
        } else if wait.DeadlinePassed? {
          receipt := Some(ConnectionsPresent(job));
        } else {
          activationInvoked := true;
          if !c.bootstrapSame {
            raised := true;
          } else {
            now := now + c.installer.took;
            if c.installer.exit.TimedOut? {
              raised := true;
            } else if c.installer.exit.Accepted? {
              receipt := Some(Outcome(job, true, NotRequired));
            } else {
              now, recoveries := now + c.firstRecovery.took, 1;
              if c.firstRecovery.exit.TimedOut? {
                raised := true;
              } else {
                receipt := Some(Outcome(job, false, StatusOf(c.firstRecovery)));
              }
            }
          }
        }
      }
    }
    if !raised {
      if !c.firstWrite.RaisedBefore? { receipts := [(receipt.value, now)]; }
      raised := !c.firstWrite.Stored?;
    }
    if raised {
      var recovery := NotRequired;
      if activationInvoked {
        var call := if recoveries == 0 then c.firstRecovery else c.secondRecovery;
        now, recoveries := now + call.took, recoveries + 1;
        recovery := StatusOf(call);
      }
      if !c.secondWrite.RaisedBefore? { receipts := receipts + [(Refusal(job, recovery), now)]; }
    }
    log := Log(receipts, recoveries, now);
  }

  // ---------------------------------------------------------------- the follower

  datatype Found = ReceiptFound(at: real) | ReceiptTimeout(at: real)

  /** The follower's poll: the receipt is there from `appears` on. */
  function Follow(now: real, deadline: real, appears: Option<real>): Found
    decreases PollsLeft(now, deadline)
  {
    if appears.Some? && appears.value <= now then ReceiptFound(now)
    else if now >= deadline then ReceiptTimeout(now)
    else Follow(now + POLL_SECONDS, deadline, appears)
  }

  method AwaitReceipt(start: real, deadline: real, appears: Option<real>) returns (found: Found)
    ensures found == Follow(start, deadline, appears)
  {
    var now := start;
    while appears.None? || appears.value > now
      invariant Follow(start, deadline, appears) == Follow(now, deadline, appears)
      decreases PollsLeft(now, deadline)
    {
      if now >= deadline {
        return ReceiptTimeout(now);
      }
      now := now + POLL_SECONDS;
    }
    found := ReceiptFound(now);
  }

  function FollowerDeadline(job: Job): real {
    job.quiescenceDeadline + FOLLOWER_GRACE_SECONDS
  }

  // ---------------------------------------------------------------- the timing bound

  /** Every subprocess respects its timeout, as far as the worker starts it. */
  ghost predicate Prompt(c: Course) {
    && (forall k: nat :: c.checks(k).took <= CHECK_TIMEOUT)
    && c.installer.took <= INSTALLER_TIMEOUT
    && c.firstRecovery.took <= RECOVERY_TIMEOUT && c.secondRecovery.took <= RECOVERY_TIMEOUT
  }

  /** Polling ends at most one check after the deadline, and only a passed deadline ends it busy. */
  lemma {:induction false} PollEnds(now: real, deadline: real, checks: nat -> Check, k: nat)
    requires now <= deadline && forall i: nat :: checks(i).took <= CHECK_TIMEOUT
    ensures Poll(now, deadline, checks, k).1 <= deadline + CHECK_TIMEOUT
    ensures Poll(now, deadline, checks, k).0.DeadlinePassed? ==> Poll(now, deadline, checks, k).1 >= deadline
    ensures now <= Poll(now, deadline, checks, k).1
    decreases PollsLeft(now, deadline)
  {
    var after := now + checks(k).took;
    if checks(k).answer.Busy? && deadline - after > 0.0 {
      PollsShrink(now, checks(k).took, deadline);
      PollEnds(after + Min(POLL_SECONDS, deadline - after), deadline, checks, k + 1);
    }
  }

  /** The checks the poll made: all busy but the last, and at most one a poll interval. */
  function ChecksMade(now: real, deadline: real, checks: nat -> Check, k: nat): nat
    decreases PollsLeft(now, deadline)
  {
    var after := now + checks(k).took;
    if checks(k).answer.Busy? && deadline - after > 0.0 then
      PollsShrink(now, checks(k).took, deadline);
      1 + ChecksMade(after + Min(POLL_SECONDS, deadline - after), deadline, checks, k + 1)
    else 1
  }

  /** Quiet means that the last check was quiescent and every earlier one busy; the loop is bounded by the time left. */
  lemma {:induction false} PollExact(now: real, deadline: real, checks: nat -> Check, k: nat)
    ensures var made := ChecksMade(now, deadline, checks, k);
            && 1 <= made <= PollsLeft(now, deadline) + 1
            && (forall i: nat :: k <= i < k + made - 1 ==> checks(i).answer.Busy?)
            && (Poll(now, deadline, checks, k).0.Quiet? <==> checks(k + made - 1).answer.Quiescent?)
            && (Poll(now, deadline, checks, k).0.MonitorFailed? <==> checks(k + made - 1).answer.Broken?)
    decreases PollsLeft(now, deadline)
  {
    var after := now + checks(k).took;
    if checks(k).answer.Busy? && deadline - after > 0.0 {
      PollsShrink(now, checks(k).took, deadline);
      PollExact(after + Min(POLL_SECONDS, deadline - after), deadline, checks, k + 1);
    }
  }

  lemma ActivationEnds(job: Job, c: Course, now: real)
    requires Prompt(c)
    ensures var log := Activation(job, c, now);
            && log.end <= now + INSTALLER_TIMEOUT + RECOVERY_TIMEOUT + RECOVERY_TIMEOUT && log.recoveries <= 2
            && forall r :: r in log.receipts ==> r.1 <= log.end
  {}

  /** The worker's last write, however it went, comes within the sum of its timeouts after the quiescence deadline. */
  lemma WorkerEnds(job: Job, c: Course, start: real)
    requires Prompt(c) && start <= job.quiescenceDeadline && job.executeAfter <= job.quiescenceDeadline
    ensures Work(job, c, start).end <= job.quiescenceDeadline + CHECK_TIMEOUT + INSTALLER_TIMEOUT + RECOVERY_TIMEOUT + RECOVERY_TIMEOUT
    ensures forall r :: r in Work(job, c, start).receipts ==> r.1 <= Work(job, c, start).end
    ensures Work(job, c, start).recoveries <= 2
  {
    hide Poll, Activation;
    var now := Max(start, job.executeAfter);
    PollEnds(now, job.quiescenceDeadline, c.checks, 0);
    ActivationEnds(job, c, Poll(now, job.quiescenceDeadline, c.checks, 0).1);
  }

  /** A receipt appears unless both writes raise before storing it. */
  lemma ReceiptAppears(job: Job, c: Course, start: real)
    ensures Work(job, c, start).receipts == [] ==> c.secondWrite.RaisedBefore?
    ensures var receipts := Work(job, c, start).receipts; |receipts| <= 2 && (|receipts| == 2 ==> receipts[0].1 <= receipts[1].1)
  {
    hide Poll, Activation;
    ActivationAppears(job, c, Poll(Max(start, job.executeAfter), job.quiescenceDeadline, c.checks, 0).1);
  }

  lemma ActivationAppears(job: Job, c: Course, now: real)
    ensures Activation(job, c, now).receipts == [] ==> c.secondWrite.RaisedBefore?
    ensures var receipts := Activation(job, c, now).receipts; |receipts| <= 2 && (|receipts| == 2 ==> receipts[0].1 <= receipts[1].1)
  {}

  lemma {:induction false} FollowFinds(now: real, deadline: real, appears: real)
    requires appears < deadline
    ensures Follow(now, deadline, Some(appears)).ReceiptFound?
    ensures Follow(now, deadline, Some(appears)).at <= Max(now, appears + POLL_SECONDS)
    decreases PollsLeft(now, deadline)
  {
    if appears > now {
      FollowFinds(now + POLL_SECONDS, deadline, appears);
    }
  }

  /** The first poll at or past the deadline. */
  function LastPoll(now: real, deadline: real): (last: real)
    ensures deadline <= last && now <= last && (now < deadline ==> last < deadline + POLL_SECONDS)
    decreases PollsLeft(now, deadline)
  {
    if now >= deadline then now else LastPoll(now + POLL_SECONDS, deadline)
  }

  /** The follower gives up if and only if the receipt is not there at its first poll at or past the deadline. */
  lemma {:induction false} FollowGivesUpIff(now: real, deadline: real, appears: Option<real>)
    ensures var f := Follow(now, deadline, appears);
            && (f.ReceiptTimeout? <==> appears.None? || appears.value > LastPoll(now, deadline))
            && (f.ReceiptTimeout? ==> f.at == LastPoll(now, deadline))
            && (f.ReceiptFound? ==> appears.value <= f.at <= LastPoll(now, deadline))
    decreases PollsLeft(now, deadline)
  {
    if (appears.None? || appears.value > now) && now < deadline {
      FollowGivesUpIff(now + POLL_SECONDS, deadline, appears);
    }
  }

  /**
   Across the two processes: a worker that starts before the quiescence deadline, whose
   subprocesses respect their timeouts, that is itself at most `lag` slower, and whose last
   write stores its receipt, is never reported as timed out, as long as the lag stays
   below the grace that its timeouts leave.
   */
  lemma FollowerNeverTimesOut(job: Job, c: Course, start: real, lag: Seconds, followerStart: real)
    requires Prompt(c) && start <= job.quiescenceDeadline && job.executeAfter <= job.quiescenceDeadline
    requires !c.secondWrite.RaisedBefore?
    requires lag < FOLLOWER_GRACE_SECONDS - (CHECK_TIMEOUT + INSTALLER_TIMEOUT + RECOVERY_TIMEOUT + RECOVERY_TIMEOUT)
    ensures Work(job, c, start).receipts != []
    ensures Follow(followerStart, FollowerDeadline(job), Some(Work(job, c, start).receipts[0].1 + lag)).ReceiptFound?
  {
    WorkerEnds(job, c, start);
    ReceiptAppears(job, c, start);
    var first := Work(job, c, start).receipts[0];
    assert first in Work(job, c, start).receipts;
    FollowFinds(followerStart, FollowerDeadline(job), first.1 + lag);
  }

  /** The worker gets as far as an accepted activation. */
  predicate Activates(job: Job, c: Course, start: real) {
    && c.jobValid && c.versionMatches
    && Poll(Max(start, job.executeAfter), job.quiescenceDeadline, c.checks, 0).0.Quiet?
    && c.bootstrapSame && c.installer.exit.Accepted?
  }

  /**
   An accepted receipt appears exactly when the activation was accepted and its write
   stored it; a recovery runs as well exactly when that write raised after storing it.
   */
  lemma AcceptedIff(job: Job, c: Course, start: real)
    ensures var log := Work(job, c, start);
            && ((exists r :: r in log.receipts && r.0.accepted) <==> Activates(job, c, start) && !c.firstWrite.RaisedBefore?)
            && ((exists r :: r in log.receipts && r.0.accepted) && log.recoveries > 0
                <==> Activates(job, c, start) && c.firstWrite.RaisedAfter?)
  {
    hide Poll;
    var log := Work(job, c, start);
    if Activates(job, c, start) && !c.firstWrite.RaisedBefore? {
      assert log.receipts[0] in log.receipts && log.receipts[0].0.accepted;
    }
  }

  // ---------------------------------------------------------------- what the worker does about the baseline

  /** The connections went quiet after a valid job for the installed version, so the installer's turn has come. */
  predicate Begins(job: Job, c: Course, start: real) {
    c.jobValid && c.versionMatches && Poll(Max(start, job.executeAfter), job.quiescenceDeadline, c.checks, 0).0.Quiet?
  }

  /** The installer was run and turned the activation down. */
  predicate TurnedDown(job: Job, c: Course, start: real) {
    Begins(job, c, start) && c.bootstrapSame && c.installer.exit.NotAccepted?
  }

  /** An exception before any receipt is written. */
  predicate Raises(job: Job, c: Course, start: real) {
    if Begins(job, c, start) then
      !c.bootstrapSame || c.installer.exit.TimedOut? || (c.installer.exit.NotAccepted? && c.firstRecovery.exit.TimedOut?)
    else
      !c.jobValid || !c.versionMatches
      || Poll(Max(start, job.executeAfter), job.quiescenceDeadline, c.checks, 0).0.MonitorFailed?
  }

  /**
   How often the worker recovers the baseline.  It never does before the installer's turn.
   After that it leaves the candidate alone if and only if the installer accepted it and the
   receipt was stored; it recovers twice if and only if the installer turned the activation
   down and then the first recovery hung or the receipt's write raised.
   */
  lemma WorkerRecovers(job: Job, c: Course, start: real)
    ensures var log := Work(job, c, start);
            && (!Begins(job, c, start) ==> log.recoveries == 0)
            && (Begins(job, c, start) ==>
                  (log.recoveries == 0 <==> c.bootstrapSame && c.installer.exit.Accepted? && c.firstWrite.Stored?))
            && (log.recoveries == 2 <==>
                  TurnedDown(job, c, start) && (c.firstRecovery.exit.TimedOut? || !c.firstWrite.Stored?))
            && log.recoveries <= 2
  {
    hide Poll;
  }

  /** The call of the recovery tool that decides what the handler reports. */
  function LastRecovery(c: Course, recoveries: nat): Call {
    if recoveries <= 1 then c.firstRecovery else c.secondRecovery
  }

  /** What a receipt says about the baseline after this call of the recovery tool. */
  predicate Reports(r: Receipt, call: Call) {
    && r.recovery == (if call.exit.Accepted? then RecoveryAccepted else RecoveryFailed)
    && (r.serviceAvailable <==> call.exit.Accepted?) && (r.communicationPassed <==> call.exit.Accepted?)
  }

  /**
   The ordinary receipt: accepted as the installer's answer was; turned down with what the
   recovery achieved; or not begun, with the service untouched.
   */
  predicate OrdinaryReceipt(job: Job, c: Course, start: real, r: Receipt) {
    && r.version == Some(job.version) && r.digest == Some(job.digest)
    && (r.accepted <==> Begins(job, c, start) && c.installer.exit.Accepted?)
    && (r.accepted ==> r.recovery.NotRequired? && r.serviceAvailable && r.communicationPassed)
    && (Begins(job, c, start) && !r.accepted ==> Reports(r, c.firstRecovery))
    && (!Begins(job, c, start) ==> r.recovery.NotRequired? && r.serviceAvailable && !r.communicationPassed)
  }

  /** The handler's receipt names no candidate, and reports the recovery that it ran; without one it vouches for nothing. */
  predicate HandlerReceipt(job: Job, c: Course, start: real, recoveries: nat, r: Receipt) {
    && !r.accepted && r.version.None? && r.digest.None?
    && (Begins(job, c, start) ==> recoveries > 0 && Reports(r, LastRecovery(c, recoveries)))
    && (!Begins(job, c, start) ==> r.recovery.NotRequired? && !r.serviceAvailable && !r.communicationPassed)
  }

  /** The receipts of a worker whose ordinary course raised before its receipt, or did not. */
  predicate Receipts(job: Job, c: Course, start: real, raised: bool, log: Log) {
    var ordinary := !raised && !c.firstWrite.RaisedBefore?;
    var handled := (raised || !c.firstWrite.Stored?) && !c.secondWrite.RaisedBefore?;
    && |log.receipts| == (if ordinary then 1 else 0) + (if handled then 1 else 0)
    && (forall r :: r in log.receipts ==> r.0.jobId == job.jobId)
    && (ordinary ==> OrdinaryReceipt(job, c, start, log.receipts[0].0))
    && (handled ==> HandlerReceipt(job, c, start, log.recoveries, log.receipts[|log.receipts| - 1].0)
                    && log.receipts[|log.receipts| - 1].1 == log.end)
  }

  lemma HandlerWrites(job: Job, c: Course, start: real, log: Log, invoked: bool)
    requires invoked == Begins(job, c, start) && log.recoveries <= 1 && log.receipts == []
    ensures Receipts(job, c, start, true, Handle(job, c, log, invoked))
  {
    hide Begins;
  }

  lemma OrdinaryWrites(job: Job, c: Course, start: real, log: Log, receipt: Receipt, invoked: bool)
    requires invoked == Begins(job, c, start) && log.recoveries <= 1 && log.receipts == []
    requires OrdinaryReceipt(job, c, start, receipt) && receipt.jobId == job.jobId
    ensures Receipts(job, c, start, false, WriteOrHandle(job, c, log, receipt, invoked))
  {
    hide Begins, OrdinaryReceipt;
  }

  lemma ActivationWrites(job: Job, c: Course, start: real, now: real)
    requires Begins(job, c, start)
    ensures Receipts(job, c, start, Raises(job, c, start), Activation(job, c, now))
  {
    hide Begins, Receipts, Handle, WriteOrHandle;
    var after := now + c.installer.took;
    if !c.bootstrapSame {
      HandlerWrites(job, c, start, Log([], 0, now), true);
    } else if c.installer.exit.TimedOut? {
      HandlerWrites(job, c, start, Log([], 0, after), true);
    } else if c.installer.exit.Accepted? {
      OrdinaryWrites(job, c, start, Log([], 0, after), Outcome(job, true, NotRequired), true);
    } else if c.firstRecovery.exit.TimedOut? {
      HandlerWrites(job, c, start, Log([], 1, after + c.firstRecovery.took), true);
    } else {
      OrdinaryWrites(job, c, start, Log([], 1, after + c.firstRecovery.took), Outcome(job, false, StatusOf(c.firstRecovery)), true);
    }
  }

  /** Which receipts appear, and what they say: the ordinary one unless it raises, and the handler's after any exception. */
  lemma WorkerReceipts(job: Job, c: Course, start: real)
    ensures Receipts(job, c, start, Raises(job, c, start), Work(job, c, start))
  {
    hide Poll, Receipts, Handle, WriteOrHandle, Activation;
    var now := Max(start, job.executeAfter);
    var (wait, after) := Poll(now, job.quiescenceDeadline, c.checks, 0);
    if Begins(job, c, start) {
      ActivationWrites(job, c, start, after);
    } else if !c.jobValid {
      HandlerWrites(job, c, start, Log([], 0, start), false);
    } else if !c.versionMatches {
      HandlerWrites(job, c, start, Log([], 0, now), false);
    } else if wait.MonitorFailed? {
      HandlerWrites(job, c, start, Log([], 0, after), false);
    } else {
      OrdinaryWrites(job, c, start, Log([], 0, after), ConnectionsPresent(job), false);
    }
  }

  /** The worker's time is that of the wait and of the calls it made, one after another. */
  lemma WorkerTakes(job: Job, c: Course, start: real)
    requires c.jobValid && c.versionMatches
    ensures var log := Work(job, c, start);
            log.end == Poll(Max(start, job.executeAfter), job.quiescenceDeadline, c.checks, 0).1
                       + (if Begins(job, c, start) && c.bootstrapSame then c.installer.took else 0.0)
                       + (if log.recoveries >= 1 then c.firstRecovery.took else 0.0)
                       + (if log.recoveries >= 2 then c.secondRecovery.took else 0.0)
    ensures forall r :: r in Work(job, c, start).receipts ==> job.executeAfter <= Max(start, job.executeAfter) <= r.1 <= Work(job, c, start).end
  {
    hide Poll;
    PollLater(Max(start, job.executeAfter), job.quiescenceDeadline, c.checks, 0);
  }

  lemma {:induction false} PollLater(now: real, deadline: real, checks: nat -> Check, k: nat)
    ensures Poll(now, deadline, checks, k).1 >= now
    decreases PollsLeft(now, deadline)
  {
    var after := now + checks(k).took;
    if checks(k).answer.Busy? && deadline - after > 0.0 {
      PollsShrink(now, checks(k).took, deadline);
      PollLater(after + Min(POLL_SECONDS, deadline - after), deadline, checks, k + 1);
    }
  }

  // ---------------------------------------------------------------- how the wait is paced

  /** How long checks `k` to `k + n - 1` took. */
  function Took(checks: nat -> Check, k: nat, n: nat): real
    decreases n
  {
    if n == 0 then 0.0 else checks(k).took + Took(checks, k + 1, n - 1)
  }

  /**
   A poll interval lies between two checks, except that the last check starts no later than
   the deadline; a wait that found the connections busy to the end ended past the deadline.
   */
  lemma {:induction false} PollPaces(now: real, deadline: real, checks: nat -> Check, k: nat)
    ensures var made := ChecksMade(now, deadline, checks, k);
            var last := if made == 1 then now
                        else Min(now + Took(checks, k, made - 1) + POLL_SECONDS * (made - 1) as real, deadline);
            && Poll(now, deadline, checks, k).1 == last + checks(k + made - 1).took
            && (Poll(now, deadline, checks, k).0.DeadlinePassed? ==> deadline <= Poll(now, deadline, checks, k).1)
    decreases PollsLeft(now, deadline)
  {
    var after := now + checks(k).took;
    if checks(k).answer.Busy? && deadline - after > 0.0 {
      var next := after + Min(POLL_SECONDS, deadline - after);
      PollsShrink(now, checks(k).took, deadline);
      PollPaces(next, deadline, checks, k + 1);
      var made := ChecksMade(next, deadline, checks, k + 1);
      assert ChecksMade(now, deadline, checks, k) == made + 1;
      assert Took(checks, k, made) == checks(k).took + Took(checks, k + 1, made - 1);
      if made > 1 {
        PacedOnce(next, deadline, checks, k + 1);
      }
    }
  }

  /** A wait that goes on started before the deadline. */
  lemma PacedOnce(now: real, deadline: real, checks: nat -> Check, k: nat)
    requires ChecksMade(now, deadline, checks, k) > 1
    ensures now < deadline
  {}
}
