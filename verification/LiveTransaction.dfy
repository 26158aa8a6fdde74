/**
 The live acceptance transaction of scripts/cloud_cpa_failure_policy_transaction.py: the
 active credential and the watcher input are held aside, canaries take their place, and
 recovery puts the baseline back.

 A digest is compared by comparing what it is the digest of.  Each operation below is one
 rename, write or unlink, so a crash falls between two of them; only an archive restore
 can be cut in two.
 */
module LiveTransaction {
  import opened Wrappers
  import opened QuarantineLedger
  import opened LedgerLaws
  import opened ArchivedBatch
  import opened PoolFiles

  datatype Phase = Prepared | LimitedActive | Recovered

  /**
   `next` is the program counter of the activation; it is dead once a recovery has begun.
   A watcher input file that is empty or too large cannot be read, which is content None.
   */
  datatype World<C> = World(
    ledger: Ledger<C>,
    sweep: map<string, Option<C>>,
    failure: map<string, Receipt<C>>,
    heldActive: Option<C>,
    heldSweep: map<string, Option<C>>,
    movedReceipts: map<string, Receipt<C>>,
    movedSweep: map<string, Option<C>>,
    phase: Phase,
    next: nat)

  /** The transaction manifest. */
  datatype Plan<C> = Plan(
    activeName: string,
    active: C,
    sweepNames: seq<string>,
    sweep: map<string, C>,
    canaries: seq<string>,
    samples: map<string, C>,
    archiveCount: nat,
    service: string)

  predicate WellFormed<C>(p: Plan<C>) {
    && p.sweep.Keys == (set n | n in p.sweepNames)
    && p.samples.Keys == (set c | c in p.canaries)
  }

  /** What the outside world answers: the service state and whether the gateway canary passes. */
  datatype Probe = Probe(service: string, gatewayAnswers: bool)

  datatype Reject =
    | BaselineChanged
    | UnsafeFile
    | ArchiveInvalid
    | CanaryRestoreFailed
    | UnsafePath
    | SweepNotRestored
    | ActiveNotRestored
    | CanaryFailed
    | NotBaseline
    | ReceiptsRemain

  datatype Verdict = Going | Finished | Rejected(why: Reject)

  /** Larger archive manifests are not read; the restore command itself stops at a smaller size. */
  const MAX_ARCHIVE_BYTES: nat := 4 * 1024 * 1024

  // ---------------------------------------------------------------- activation

  datatype Forward = HoldActive | HoldSweep(name: string) | WriteCanary(canary: string) | MarkLimited

  function HoldAll(names: seq<string>): (ops: seq<Forward>)
    ensures |ops| == |names| && forall i :: 0 <= i < |names| ==> ops[i] == HoldSweep(names[i])
  {
    if names == [] then [] else [HoldSweep(names[0])] + HoldAll(names[1..])
  }

  function WriteAll(names: seq<string>): (ops: seq<Forward>)
    ensures |ops| == |names| && forall i :: 0 <= i < |names| ==> ops[i] == WriteCanary(names[i])
  {
    if names == [] then [] else [WriteCanary(names[0])] + WriteAll(names[1..])
  }

  /** The number of operations of the activation. */
  function Steps<C>(p: Plan<C>): nat {
    |p.sweepNames| + |p.canaries| + 2
  }

  function Activation<C>(p: Plan<C>): (ops: seq<Forward>)
    ensures |ops| == Steps(p)
  {
    [HoldActive] + HoldAll(p.sweepNames) + WriteAll(p.canaries) + [MarkLimited]
  }

  /** One operation of the activation; unchanged when the file to move is not there. */
  function Advance<C>(p: Plan<C>, w: World<C>, op: Forward): World<C>
  {
    match op
    case HoldActive =>
      if [p.activeName] in w.ledger.auth then
        w.(ledger := w.ledger.(auth := w.ledger.auth - {[p.activeName]}),
           heldActive := Some(w.ledger.auth[[p.activeName]]), next := w.next + 1)
      else w
    case HoldSweep(n) =>
      if n in w.sweep then
        w.(sweep := w.sweep - {n}, heldSweep := w.heldSweep[n := w.sweep[n]], next := w.next + 1)
      else w
    case WriteCanary(c) =>
      if c in p.samples then
        w.(ledger := w.ledger.(auth := w.ledger.auth[[c] := p.samples[c]]), next := w.next + 1)
      else w
    case MarkLimited => w.(phase := LimitedActive, next := w.next + 1)
  }

  // ---------------------------------------------------------------- recovery

  datatype Op =
    | ReadArchive
    | RestoreArchived(selector: string)
    | Unlink(canary: string)
    | SiftReceipt(receipt: string)
    | SiftSweep(file: string)
    | PutBackSweep(name: string)
    | PutBackActive
    | Conclude

  function Restores(selectors: seq<string>): (ops: seq<Op>)
    ensures |ops| == |selectors| && forall i :: 0 <= i < |ops| ==> ops[i] == RestoreArchived(selectors[i])
  {
    if selectors == [] then [] else [RestoreArchived(selectors[0])] + Restores(selectors[1..])
  }

  function Unlinks(names: seq<string>): (ops: seq<Op>)
    ensures |ops| == |names| && forall i :: 0 <= i < |ops| ==> ops[i] == Unlink(names[i])
  {
    if names == [] then [] else [Unlink(names[0])] + Unlinks(names[1..])
  }

  function SiftReceipts(names: seq<string>): (ops: seq<Op>)
    ensures |ops| == |names| && forall i :: 0 <= i < |ops| ==> ops[i] == SiftReceipt(names[i])
  {
    if names == [] then [] else [SiftReceipt(names[0])] + SiftReceipts(names[1..])
  }

  function SiftSweeps(names: seq<string>): (ops: seq<Op>)
    ensures |ops| == |names| && forall i :: 0 <= i < |ops| ==> ops[i] == SiftSweep(names[i])
  {
    if names == [] then [] else [SiftSweep(names[0])] + SiftSweeps(names[1..])
  }

  function PutBacks(names: seq<string>): (ops: seq<Op>)
    ensures |ops| == |names| && forall i :: 0 <= i < |ops| ==> ops[i] == PutBackSweep(names[i])
  {
    if names == [] then [] else [PutBackSweep(names[0])] + PutBacks(names[1..])
  }

  /** The two directory listings the recovery iterates over, in whatever order. */
  datatype Listings = Listings(receipts: seq<string>, sweep: seq<string>)

  ghost predicate ListsOf<C>(w: World<C>, d: Listings) {
    Lists(d.receipts, JsonKeys(w.failure)) && Lists(d.sweep, w.sweep.Keys)
  }

  /** The last part of the recovery: from the moved receipts on nothing depends on the archive. */
  function Cleanup<C>(p: Plan<C>, d: Listings): seq<Op> {
    Unlinks(p.canaries) + (SiftReceipts(d.receipts) + (SiftSweeps(d.sweep) + (PutBacks(p.sweepNames) + [PutBackActive, Conclude])))
  }

  function Recovery<C>(p: Plan<C>, archive: Manifest, d: Listings): seq<Op> {
    [ReadArchive] + (Restores(Selected(Listing(archive), p.canaries)) + Cleanup(p, d))
  }

  /** The checks that end a recovery, in their order. */
  function Final<C>(p: Plan<C>, w: World<C>, probe: Probe): Verdict {
    if !probe.gatewayAnswers then Rejected(CanaryFailed)
    else if probe.service != p.service || ActivePool(w.ledger.auth) != {p.activeName} then Rejected(NotBaseline)
    else if !Within(w.ledger.manifest, MAX_ARCHIVE_BYTES) then Rejected(ArchiveInvalid)
    else if |w.ledger.manifest.entries| != p.archiveCount then Rejected(NotBaseline)
    else if JsonKeys(w.failure) != {} then Rejected(ReceiptsRemain)
    else Finished
  }

  /** One operation of the recovery. */
  ghost function Act<C>(p: Plan<C>, w: World<C>, op: Op, probe: Probe): (World<C>, Verdict)
  {
    match op
    case ReadArchive =>
      if Within(w.ledger.manifest, MAX_ARCHIVE_BYTES) then (w, Going) else (w, Rejected(ArchiveInvalid))
    case RestoreArchived(selector) =>
      var (ledger, outcome) := AfterRestore(w.ledger, selector, Clean);
      (w.(ledger := ledger), if outcome.Moved? then Going else Rejected(CanaryRestoreFailed))
    case Unlink(c) =>
      if [c] in w.ledger.dirs then (w, Rejected(UnsafePath))
      else (w.(ledger := w.ledger.(auth := w.ledger.auth - {[c]})), Going)
    case SiftReceipt(r) =>
      if r in w.failure && w.failure[r].authFile in p.canaries then
        (w.(failure := w.failure - {r}, movedReceipts := w.movedReceipts[r := w.failure[r]]), Going)
      else (w, Going)
    case SiftSweep(n) =>
      if n !in w.sweep then (w, Going)
      else if n in p.sweep && w.sweep[n].None? then (w, Rejected(UnsafeFile))
      else if n in p.sweep && w.sweep[n].value == p.sweep[n] then (w, Going)
      else (w.(sweep := w.sweep - {n}, movedSweep := w.movedSweep[n := w.sweep[n]]), Going)
    case PutBackSweep(n) =>
      if n !in p.sweep then (w, Going)
      else if n in w.sweep && w.sweep[n].None? then (w, Rejected(UnsafeFile))
      else if n in w.sweep && w.sweep[n].value == p.sweep[n] then (w.(heldSweep := w.heldSweep - {n}), Going)
      else if n in w.heldSweep && w.heldSweep[n].None? then (w, Rejected(UnsafeFile))
      else if n in w.heldSweep && w.heldSweep[n].value == p.sweep[n] then
        (w.(sweep := w.sweep[n := w.heldSweep[n]], heldSweep := w.heldSweep - {n}), Going)
      else (w, Rejected(SweepNotRestored))
    case PutBackActive =>
      if [p.activeName] in w.ledger.auth && w.ledger.auth[[p.activeName]] == p.active then
        (w.(heldActive := None), Going)
      else if w.heldActive == Some(p.active) && [p.activeName] !in w.ledger.auth && [p.activeName] !in w.ledger.dirs then
        (w.(ledger := w.ledger.(auth := w.ledger.auth[[p.activeName] := p.active]), heldActive := None), Going)
      else (w, Rejected(ActiveNotRestored))
    case Conclude =>
      var verdict := Final(p, w, probe);
      (if verdict.Finished? then w.(phase := Recovered) else w, verdict)
  }

  /** Operations one after another until one of them is rejected. */
  ghost function Exec<C>(p: Plan<C>, w: World<C>, ops: seq<Op>, probe: Probe): (World<C>, Verdict)
    decreases |ops|
  {
    if ops == [] then (w, Going)
    else
      var (after, verdict) := Act(p, w, ops[0], probe);
      if verdict.Going? then Exec(p, after, ops[1..], probe) else (after, verdict)
  }

  /** A transaction already recovered is only compared with its baseline again. */
  function Confirm<C>(p: Plan<C>, w: World<C>, probe: Probe): Verdict {
    if ActivePool(w.ledger.auth) != {p.activeName} || probe.service != p.service then Rejected(NotBaseline)
    else if !Within(w.ledger.manifest, MAX_ARCHIVE_BYTES) then Rejected(ArchiveInvalid)
    else if |w.ledger.manifest.entries| != p.archiveCount then Rejected(NotBaseline)
    else Finished
  }

  /** A whole recovery.  It kills the activation, so the activation's program counter ends. */
  ghost function Recover<C>(p: Plan<C>, w: World<C>, d: Listings, probe: Probe): (World<C>, Verdict)
  {
    if w.phase.Recovered? then (w, Confirm(p, w, probe))
    else Exec(p, Stopped(p, w), Recovery(p, w.ledger.manifest, d), probe)
  }

  function Stopped<C>(p: Plan<C>, w: World<C>): World<C> {
    w.(next := Steps(p))
  }

  // ---------------------------------------------------------------- the transaction itself

  class Transaction<C(==)> {
    const plan: Plan<C>
    const store: QuarantineStore<C>
    var sweep: map<string, Option<C>>
    var failure: map<string, Receipt<C>>
    var heldActive: Option<C>
    var heldSweep: map<string, Option<C>>
    var movedReceipts: map<string, Receipt<C>>
    var movedSweep: map<string, Option<C>>
    var phase: Phase
    ghost var next: nat

    constructor (plan: Plan<C>, store: QuarantineStore<C>, sweep: map<string, Option<C>>, failure: map<string, Receipt<C>>)
      ensures this.plan == plan && this.store == store
      ensures View() == World(store.View(), sweep, failure, None, map[], map[], map[], Prepared, 0)
    {
      this.plan, this.store, this.sweep, this.failure := plan, store, sweep, failure;
      heldActive, heldSweep, movedReceipts, movedSweep, phase, next := None, map[], map[], map[], Prepared, 0;
    }

    ghost function View(): World<C>
      reads this, store
    {
      World(store.View(), sweep, failure, heldActive, heldSweep, movedReceipts, movedSweep, phase, next)
    }

    /** The activation, cut off after `limit` of its operations; it stops at the first that cannot be done. */
    method ActivateLimited(limit: nat) returns (verdict: Verdict)
      modifies this, store
      ensures verdict == old(Precheck(plan, View()))
      ensures verdict.Rejected? ==> View() == old(View())
      ensures !verdict.Rejected? ==> View() == Activated(plan, old(View()), limit)
    {
      if [plan.activeName] !in store.auth {
        return Rejected(UnsafeFile);
      }
      if store.auth[[plan.activeName]] != plan.active {
        return Rejected(BaselineChanged);
      }
      if exists n :: n in sweep && sweep[n].None? {
        return Rejected(UnsafeFile);
      }
      if sweep != InputOf(plan) {
        return Rejected(BaselineChanged);
      }
      next := 0;
      var ops := Activation(plan);
      ghost var all := Activated(plan, old(View()), limit);
      var i := 0;
      while i < |ops| && i < limit
        invariant 0 <= i <= |ops| && i <= limit
        invariant all == Advances(plan, View(), ops[i..if limit < |ops| then limit else |ops|])
      {
        ghost var stop := if limit < |ops| then limit else |ops|;
        assert ops[i..stop][0] == ops[i] && ops[i..stop][1..] == ops[i + 1..stop];
        var done := Forwards(ops[i]);
        if !done {
          return Going;
        }
        i := i + 1;
      }
      return Going;
    }

    method Forwards(op: Forward) returns (done: bool)
      modifies this, store
      ensures View() == Advance(plan, old(View()), op)
      ensures done <==> View().next == old(View()).next + 1
      ensures !done ==> View() == old(View())
    {
      done := true;
      match op
      case HoldActive =>
        if [plan.activeName] in store.auth {
          heldActive, next := Some(store.auth[[plan.activeName]]), next + 1;
          store.auth := store.auth - {[plan.activeName]};
        } else { done := false; }
      case HoldSweep(n) =>
        if n in sweep {
          heldSweep, sweep, next := heldSweep[n := sweep[n]], sweep - {n}, next + 1;
        } else { done := false; }
      case WriteCanary(c) =>
        if c in plan.samples {
          store.auth := store.auth[[c] := plan.samples[c]];
          next := next + 1;
        } else { done := false; }
      case MarkLimited =>
        phase, next := LimitedActive, next + 1;
    }

    method Perform(op: Op, probe: Probe) returns (verdict: Verdict)
      modifies this, store
      ensures (View(), verdict) == Act(plan, old(View()), op, probe)
    {
      verdict := Going;
      match op
      case ReadArchive =>
        if !Within(store.manifest, MAX_ARCHIVE_BYTES) { verdict := Rejected(ArchiveInvalid); }
      case RestoreArchived(selector) =>
        var outcome := store.Restore(selector, Clean);
        if outcome.Refused? { verdict := Rejected(CanaryRestoreFailed); }
      case Unlink(c) =>
        if [c] in store.dirs { verdict := Rejected(UnsafePath); }
        else { store.auth := store.auth - {[c]}; }
      case SiftReceipt(r) =>
        if r in failure && failure[r].authFile in plan.canaries {
          movedReceipts, failure := movedReceipts[r := failure[r]], failure - {r};
        }
      case SiftSweep(n) =>
        if n in sweep {
          if n in plan.sweep && sweep[n].None? { verdict := Rejected(UnsafeFile); }
          else if n !in plan.sweep || sweep[n].value != plan.sweep[n] {
            movedSweep, sweep := movedSweep[n := sweep[n]], sweep - {n};
          }
        }
      case PutBackSweep(n) =>
        if n in plan.sweep {
          if n in sweep && sweep[n].None? { verdict := Rejected(UnsafeFile); }
          else if n in sweep && sweep[n].value == plan.sweep[n] { heldSweep := heldSweep - {n}; }
          else if n in heldSweep && heldSweep[n].None? { verdict := Rejected(UnsafeFile); }
          else if n in heldSweep && heldSweep[n].value == plan.sweep[n] {
            sweep, heldSweep := sweep[n := heldSweep[n]], heldSweep - {n};
          } else { verdict := Rejected(SweepNotRestored); }
        }
      case PutBackActive =>
        if [plan.activeName] in store.auth && store.auth[[plan.activeName]] == plan.active { heldActive := None; }
        else if heldActive == Some(plan.active) && [plan.activeName] !in store.auth && [plan.activeName] !in store.dirs {
          store.auth := store.auth[[plan.activeName] := plan.active];
          heldActive := None;
        } else { verdict := Rejected(ActiveNotRestored); }
      case Conclude =>
        if !probe.gatewayAnswers { verdict := Rejected(CanaryFailed); }
        else if probe.service != plan.service || ActivePool(store.auth) != {plan.activeName} { verdict := Rejected(NotBaseline); }
        else if !Within(store.manifest, MAX_ARCHIVE_BYTES) { verdict := Rejected(ArchiveInvalid); }
        else if |store.manifest.entries| != plan.archiveCount { verdict := Rejected(NotBaseline); }
        else if JsonKeys(failure) != {} { verdict := Rejected(ReceiptsRemain); }
        else { phase, verdict := Recovered, Finished; }
    }

    method RecoverBaseline(d: Listings, probe: Probe) returns (verdict: Verdict)
      modifies this, store
      ensures (View(), verdict) == Recover(plan, old(View()), d, probe)
    {
      if phase.Recovered? {
        if ActivePool(store.auth) != {plan.activeName} || probe.service != plan.service { return Rejected(NotBaseline); }
        if !Within(store.manifest, MAX_ARCHIVE_BYTES) { return Rejected(ArchiveInvalid); }
        return if |store.manifest.entries| != plan.archiveCount then Rejected(NotBaseline) else Finished;
      }
      next := Steps(plan);
      var ops := Recovery(plan, store.manifest, d);
      ghost var all := Exec(plan, View(), ops, probe);
      verdict := Going;
      var i := 0;
      while i < |ops|
        invariant 0 <= i <= |ops| && verdict.Going?
        invariant all == Exec(plan, View(), ops[i..], probe)
      {
        assert ops[i..][0] == ops[i] && ops[i..][1..] == ops[i + 1..];
        verdict := Perform(ops[i], probe);
        if !verdict.Going? {
          return;
        }
        i := i + 1;
      }
    }
  }

  /** The watcher input as the manifest records it. */
  function InputOf<C>(p: Plan<C>): map<string, Option<C>> {
    map n | n in p.sweep :: Some(p.sweep[n])
  }

  /** What the activation checks before it moves anything. */
  ghost function Precheck<C>(p: Plan<C>, w: World<C>): Verdict {
    if [p.activeName] !in w.ledger.auth then Rejected(UnsafeFile)
    else if w.ledger.auth[[p.activeName]] != p.active then Rejected(BaselineChanged)
    else if exists n :: n in w.sweep && w.sweep[n].None? then Rejected(UnsafeFile)
    else if w.sweep != InputOf(p) then Rejected(BaselineChanged)
    else Going
  }

  /** Operations one after another until one of them cannot be done. */
  ghost function Advances<C>(p: Plan<C>, w: World<C>, ops: seq<Forward>): World<C>
    decreases |ops|
  {
    if ops == [] || Advance(p, w, ops[0]) == w then w else Advances(p, Advance(p, w, ops[0]), ops[1..])
  }

  ghost function Activated<C>(p: Plan<C>, w: World<C>, limit: nat): World<C>
  {
    var ops := Activation(p);
    Advances(p, w.(next := 0), ops[..if limit < |ops| then limit else |ops|])
  }
}
