/**
 The worker and the follower as two processes that share only the receipt file: every
 interleaving of their steps, with either process dying at any point.
 */
module ActivationSafety {
  import opened Wrappers
  import opened ActivationSchedule

  /** Where the worker is; `handler` tells its exception handler from its ordinary course. */
  datatype WorkerAt =
    | Before
    | Installing
    | WritingAccepted
    | Recovering(handler: bool)
    | WritingFailed(handler: bool)
    | WorkerGone

  datatype FollowerAt = Polling | Reading(seen: Receipt) | ActivatingWatcher(accepted: Receipt) | FollowerGone

  datatype State = State(
    worker: WorkerAt,
    follower: FollowerAt,
    file: Option<Receipt>,
    invoked: bool,
    recoveries: nat,
    watcherActivated: bool,
    followed: Option<Receipt>)

  /** What the follower insists on. */
  datatype Required = Required(jobId: string, version: string, digest: string)

  predicate Accepts(q: Required, r: Receipt) {
    && r.jobId == q.jobId && r.accepted
    && r.version == Some(q.version) && r.digest == Some(q.digest)
    && r.communicationPassed && r.serviceAvailable
  }

  datatype Step =
    | WorkerRaises        // an exception before the installer
    | NeverQuiet          // the connections stay busy past the deadline
    | WorkerInvokes       // the installer starts
    | InstallerAccepted
    | InstallerRejected
    | InstallerRaises     // timed out, or an exception around it
    | Recover(exit: Exit)
    | WriteReceipt(write: Write, receipt: Receipt)
    | WorkerDies
    | FollowerSees
    | FollowerDecides
    | FollowerActivates(done: bool)
    | FollowerDies

  function Initial(): State {
    State(Before, Polling, None, false, 0, false, None)
  }

  /** The receipts that the worker's position allows. */
  predicate Writes(job: Job, at: WorkerAt, r: Receipt) {
    match at
    case WritingAccepted => r == Outcome(job, true, NotRequired)
    case WritingFailed(_) => !r.accepted
    case _ => false
  }

  predicate Enabled(job: Job, s: State, step: Step) {
    match step
    case WorkerRaises => s.worker.Before?
    case NeverQuiet => s.worker.Before?
    case WorkerInvokes => s.worker.Before?
    case InstallerAccepted => s.worker.Installing?
    case InstallerRejected => s.worker.Installing?
    case InstallerRaises => s.worker.Installing?
    case Recover(_) => s.worker.Recovering?
    case WriteReceipt(_, r) => Writes(job, s.worker, r)
    case WorkerDies => true
    case FollowerSees => s.follower.Polling? && s.file.Some?
    case FollowerDecides => s.follower.Reading?
    case FollowerActivates(_) => s.follower.ActivatingWatcher?
    case FollowerDies => true
  }

  function Next(q: Required, s: State, step: Step): State {
    match step
    case WorkerRaises => s.(worker := WritingFailed(true))
    case NeverQuiet => s.(worker := WritingFailed(false))
    case WorkerInvokes => s.(worker := Installing, invoked := true)
    case InstallerAccepted => s.(worker := WritingAccepted)
    case InstallerRejected => s.(worker := Recovering(false))
    case InstallerRaises => s.(worker := Recovering(true))
    case Recover(exit) =>
      if s.worker.Recovering? then
        s.(worker := if exit.TimedOut? && !s.worker.handler then Recovering(true) else WritingFailed(s.worker.handler),
           recoveries := s.recoveries + 1)
      else s
    case WriteReceipt(write, r) =>
      var stored := if write.RaisedBefore? then s else s.(file := Some(r));
      if write.Stored? || (s.worker.WritingFailed? && s.worker.handler) then stored.(worker := WorkerGone)
      else if s.invoked then stored.(worker := Recovering(true))
      else stored.(worker := WritingFailed(true))
    case WorkerDies => s.(worker := WorkerGone)
    case FollowerSees => if s.file.Some? then s.(follower := Reading(s.file.value)) else s
    case FollowerDecides =>
      if s.follower.Reading? then
        if Accepts(q, s.follower.seen) then s.(follower := ActivatingWatcher(s.follower.seen)) else s.(follower := FollowerGone)
      else s
    case FollowerActivates(done) =>
      if s.follower.ActivatingWatcher? then
        s.(follower := FollowerGone, watcherActivated := done, followed := if done then Some(s.follower.accepted) else None)
      else s
    case FollowerDies => s.(follower := FollowerGone)
  }

  predicate AtomicWrite(step: Step) {
    step.WriteReceipt? ==> !step.write.RaisedAfter?
  }

  ghost predicate Possible(job: Job, q: Required, s: State, steps: seq<Step>)
    decreases |steps|
  {
    steps == [] || (Enabled(job, s, steps[0]) && Possible(job, q, Next(q, s, steps[0]), steps[1..]))
  }

  function Reach(q: Required, s: State, steps: seq<Step>): State
    decreases |steps|
  {
    if steps == [] then s else Reach(q, Next(q, s, steps[0]), steps[1..])
  }

  // ---------------------------------------------------------------- safety

  ghost predicate Genuine(job: Job, r: Receipt) {
    r.accepted ==> r == Outcome(job, true, NotRequired)
  }

  /** The invariant under atomic writes: an accepted receipt is the worker's last act, and no recovery ran. */
  ghost predicate Safe(job: Job, q: Required, s: State) {
    && (s.file.Some? && s.file.value.accepted ==> s.worker.WorkerGone? && s.recoveries == 0 && Genuine(job, s.file.value))
    && (s.worker.Installing? || s.worker.WritingAccepted? || s.worker.Before? ==> s.recoveries == 0)
    && (s.worker.Installing? || s.worker.WritingAccepted? ==> s.invoked)
    && (s.follower.Reading? && s.follower.seen.accepted ==> s.file == Some(s.follower.seen))
    && (s.follower.ActivatingWatcher? ==> Accepts(q, s.follower.accepted) && s.file == Some(s.follower.accepted))
    && (s.watcherActivated ==> s.followed.Some? && Accepts(q, s.followed.value) && s.file == s.followed)
  }

  lemma StepSafe(job: Job, q: Required, s: State, step: Step)
    requires Safe(job, q, s) && Enabled(job, s, step) && AtomicWrite(step)
    ensures Safe(job, q, Next(q, s, step))
  {}

  /**
   With atomic receipt writes, in every interleaving the watcher is activated only after
   an accepted receipt for the same job, version and digest, and then the worker never
   ran a recovery.
   */
  lemma {:induction false} InterleavingsSafe(job: Job, q: Required, s: State, steps: seq<Step>)
    requires Safe(job, q, s) && Possible(job, q, s, steps) && forall step :: step in steps ==> AtomicWrite(step)
    ensures Safe(job, q, Reach(q, s, steps))
    ensures Reach(q, s, steps).watcherActivated ==>
              job.jobId == q.jobId && job.version == q.version && job.digest == q.digest && Reach(q, s, steps).recoveries == 0
    decreases |steps|
  {
    if steps != [] {
      assert steps[0] in steps && forall step :: step in steps[1..] ==> step in steps;
      StepSafe(job, q, s, steps[0]);
      InterleavingsSafe(job, q, Next(q, s, steps[0]), steps[1..]);
    }
  }

  lemma InitialSafe(job: Job, q: Required)
    ensures Safe(job, q, Initial())
  {}

  /** The runs of the two processes in which the writes are atomic are safe from the start. */
  lemma AllRunsSafe(job: Job, q: Required, steps: seq<Step>)
    requires Possible(job, q, Initial(), steps) && forall step :: step in steps ==> AtomicWrite(step)
    ensures var s := Reach(q, Initial(), steps);
            s.watcherActivated ==> s.recoveries == 0 && s.file.Some? && Accepts(q, s.file.value)
                                   && job.jobId == q.jobId && job.version == q.version && job.digest == q.digest
  {
    InitialSafe(job, q);
    InterleavingsSafe(job, q, Initial(), steps);
  }

  /**
   Without atomic writes it is not: a write of the accepted receipt that raises after the
   file is in place makes the worker recover the baseline while the follower activates the
   watcher for it.
   */
  lemma LateFailureUnsafe(job: Job, q: Required, refusal: Receipt) returns (steps: seq<Step>)
    requires q == Required(job.jobId, job.version, job.digest) && !refusal.accepted
    ensures Possible(job, q, Initial(), steps)
    ensures Reach(q, Initial(), steps).watcherActivated && Reach(q, Initial(), steps).recoveries == 1
    ensures Reach(q, Initial(), steps).file == Some(refusal)
  {
    hide Possible, Reach;
    var accepted := Outcome(job, true, NotRequired);
    var s1 := Initial().(worker := Installing, invoked := true);
    var s2 := s1.(worker := WritingAccepted);
    var s3 := s2.(worker := Recovering(true), file := Some(accepted));
    var s4 := s3.(follower := Reading(accepted));
    var s5 := s4.(follower := ActivatingWatcher(accepted));
    var s6 := s5.(worker := WritingFailed(true), recoveries := 1);
    var s7 := s6.(worker := WorkerGone, file := Some(refusal));
    var s8 := s7.(follower := FollowerGone, watcherActivated := true, followed := Some(accepted));
    Ended(job, q, s8);
    steps := Extend(job, q, s7, FollowerActivates(true), []);
    steps := Extend(job, q, s6, WriteReceipt(Stored, refusal), steps);
    steps := Extend(job, q, s5, Recover(Accepted), steps);
    steps := Extend(job, q, s4, FollowerDecides, steps);
    steps := Extend(job, q, s3, FollowerSees, steps);
    steps := Extend(job, q, s2, WriteReceipt(RaisedAfter, accepted), steps);
    steps := Extend(job, q, s1, InstallerAccepted, steps);
    steps := Extend(job, q, Initial(), WorkerInvokes, steps);
  }

  lemma Ended(job: Job, q: Required, s: State)
    ensures Possible(job, q, s, []) && Reach(q, s, []) == s
  {}

  lemma Extend(job: Job, q: Required, s: State, step: Step, rest: seq<Step>) returns (steps: seq<Step>)
    requires Enabled(job, s, step) && Possible(job, q, Next(q, s, step), rest)
    ensures Possible(job, q, s, steps) && Reach(q, s, steps) == Reach(q, Next(q, s, step), rest)
  {
    steps := [step] + rest;
    assert steps[1..] == rest;
  }

  // ---------------------------------------------------------------- the worker of the schedule is one of these

  /** The receipt that is there in the end. */
  function LastReceipt(log: Log): Option<Receipt> {
    if log.receipts == [] then None else Some(log.receipts[|log.receipts| - 1].0)
  }

  /** The worker has ended, with this log. */
  predicate EndsAs(s: State, log: Log, invoked: bool) {
    s == State(WorkerGone, Polling, LastReceipt(log), invoked, log.recoveries, false, None)
  }

  /** The worker in the middle of its course, with this log so far. */
  function Midway(at: WorkerAt, log: Log, invoked: bool): State {
    State(at, Polling, LastReceipt(log), invoked, log.recoveries, false, None)
  }

  /** The exception handler, from where it takes over. */
  lemma HandlerIsRun(job: Job, q: Required, c: Course, log: Log, invoked: bool) returns (steps: seq<Step>)
    ensures var s := Midway(if invoked then Recovering(true) else WritingFailed(true), log, invoked);
            Possible(job, q, s, steps) && EndsAs(Reach(q, s, steps), Handle(job, c, log, invoked), invoked)
  {
    hide Possible, Reach;
    var call := if log.recoveries == 0 then c.firstRecovery else c.secondRecovery;
    var done := Handle(job, c, log, invoked);
    var refusal := Refusal(job, if invoked then StatusOf(call) else NotRequired);
    var writing := Midway(WritingFailed(true), log.(recoveries := done.recoveries), invoked);
    Ended(job, q, Midway(WorkerGone, done, invoked));
    steps := Extend(job, q, writing, WriteReceipt(c.secondWrite, refusal), []);
    if invoked {
      steps := Extend(job, q, Midway(Recovering(true), log, true), Recover(call.exit), steps);
    }
  }

  /** The ordinary receipt and, if its write raises, the handler. */
  lemma WriteIsRun(job: Job, q: Required, c: Course, at: WorkerAt, log: Log, receipt: Receipt, invoked: bool) returns (steps: seq<Step>)
    requires Writes(job, at, receipt) && (at.WritingFailed? ==> !at.handler) && log.receipts == []
    ensures var s := Midway(at, log, invoked);
            Possible(job, q, s, steps) && EndsAs(Reach(q, s, steps), WriteOrHandle(job, c, log, receipt, invoked), invoked)
  {
    hide Possible, Reach, Handle;
    var written := log.(receipts := log.receipts + Appears(c.firstWrite, receipt, log.end));
    if c.firstWrite.Stored? {
      Ended(job, q, Midway(WorkerGone, written, invoked));
      steps := [];
    } else {
      steps := HandlerIsRun(job, q, c, written, invoked);
    }
    steps := Extend(job, q, Midway(at, log, invoked), WriteReceipt(c.firstWrite, receipt), steps);
  }

  lemma ActivationIsRun(job: Job, q: Required, c: Course, now: real) returns (steps: seq<Step>)
    ensures var s := Midway(Installing, Log([], 0, now), true);
            Possible(job, q, s, steps) && EndsAs(Reach(q, s, steps), Activation(job, c, now), true)
  {
    hide Possible, Reach, Handle, WriteOrHandle;
    var after := now + c.installer.took;
    var s := Midway(Installing, Log([], 0, now), true);
    if !c.bootstrapSame || c.installer.exit.TimedOut? {
      steps := HandlerIsRun(job, q, c, Log([], 0, if c.bootstrapSame then after else now), true);
      steps := Extend(job, q, s, InstallerRaises, steps);
    } else if c.installer.exit.Accepted? {
      steps := WriteIsRun(job, q, c, WritingAccepted, Log([], 0, after), Outcome(job, true, NotRequired), true);
      steps := Extend(job, q, s, InstallerAccepted, steps);
    } else {
      var recovered := Log([], 1, after + c.firstRecovery.took);
      if c.firstRecovery.exit.TimedOut? {
        steps := HandlerIsRun(job, q, c, recovered, true);
      } else {
        steps := WriteIsRun(job, q, c, WritingFailed(false), recovered, Outcome(job, false, StatusOf(c.firstRecovery)), true);
      }
      steps := Extend(job, q, Midway(Recovering(false), Log([], 0, after), true), Recover(c.firstRecovery.exit), steps);
      steps := Extend(job, q, s, InstallerRejected, steps);
    }
  }

  /**
   Whatever the worker of the schedule meets, its steps are a run of the worker here, with
   the same receipts and recoveries; so what holds in all interleavings holds of it.
   */
  lemma WorkIsRun(job: Job, q: Required, c: Course, start: real) returns (steps: seq<Step>)
    ensures Possible(job, q, Initial(), steps)
    ensures EndsAs(Reach(q, Initial(), steps), Work(job, c, start), Begins(job, c, start))
  {
    hide Possible, Reach, Handle, WriteOrHandle, Activation, Poll;
    var now := Max(start, job.executeAfter);
    var (wait, after) := Poll(now, job.quiescenceDeadline, c.checks, 0);
    if Begins(job, c, start) {
      steps := ActivationIsRun(job, q, c, after);
      steps := Extend(job, q, Initial(), WorkerInvokes, steps);
    } else if c.jobValid && c.versionMatches && wait.DeadlinePassed? {
      steps := WriteIsRun(job, q, c, WritingFailed(false), Log([], 0, after), ConnectionsPresent(job), false);
      steps := Extend(job, q, Initial(), NeverQuiet, steps);
    } else {
      steps := HandlerIsRun(job, q, c, Log([], 0, Work(job, c, start).end), false);
      HandlerEnds(job, c, start);
      steps := Extend(job, q, Initial(), WorkerRaises, steps);
    }
  }

  lemma HandlerEnds(job: Job, c: Course, start: real)
    requires !Begins(job, c, start)
    requires !(c.jobValid && c.versionMatches && Poll(Max(start, job.executeAfter), job.quiescenceDeadline, c.checks, 0).0.DeadlinePassed?)
    ensures Work(job, c, start) == Handle(job, c, Log([], 0, Work(job, c, start).end), false)
  {
    hide Poll;
  }
}
