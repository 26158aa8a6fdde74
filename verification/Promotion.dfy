/**
 The promotion transaction of scripts/promote_cloud_agent_identity_batch.py: new
 credentials are imported, the baseline is held aside for a canary and put back, and a
 rollback contains whatever was promoted.

 Each operation is one rename or write, so a crash falls between two of them; only an
 archive restore and the writing of a private copy can be cut in two.
 */
module Promotion {
  import opened Wrappers
  import opened QuarantineLedger
  import opened LedgerLaws
  import opened ArchivedBatch
  import opened PoolFiles

  datatype Phase = Prepared | Imported | Accepted | Recovered

  /**
   `promoted` is what the transaction manifest records and `working` what the running
   rollback works on; it is `ready` once it has read the archive.  `halfMade` are the
   baseline names whose private copy was created but not handed over to the gateway's user.
   `next` counts the operations of the promotion.
   */
  datatype World<C> = World(
    ledger: Ledger<C>,
    held: map<string, C>,
    removed: map<string, C>,
    failure: map<string, Receipt<C>>,
    movedReceipts: map<string, Receipt<C>>,
    trigger: Option<C>,
    movedTrigger: Option<C>,
    promoted: set<string>,
    working: set<string>,
    ready: bool,
    halfMade: set<string>,
    phase: Phase,
    next: nat)

  /** The transaction manifest, the private copies of the baseline, and what the importer will write. */
  datatype Plan<C> = Plan(
    names: seq<string>,
    baseline: map<string, C>,
    imports: seq<string>,
    contents: map<string, C>,
    archiveEntries: seq<Entry>,
    failure: map<string, Receipt<C>>,
    service: string,
    poolState: string)

  function BaselineNames<C>(p: Plan<C>): set<string> { set n | n in p.names }

  function ImportNames<C>(p: Plan<C>): set<string> { set n | n in p.imports }

  datatype Probe = Probe(baselineBehaves: bool, service: string, poolState: string)

  datatype Reject =
    | ArchiveInvalid
    | UnsafePool
    | SourceUnavailable
    | NotContained
    | UnsafePath
    | BehaviourChanged
    | PoolStateChanged
    | NotRestored

  datatype Verdict = Going | Finished | Rejected(why: Reject)

  /** Larger archive manifests are not read. */
  const MAX_ARCHIVE_BYTES: nat := 64 * 1024

  // ---------------------------------------------------------------- promotion

  datatype Forward = Import(name: string) | RecordImported | Hold(name: string) | Unhold(name: string) | Accept

  function ImportAll(names: seq<string>): (ops: seq<Forward>)
    ensures |ops| == |names| && forall i :: 0 <= i < |ops| ==> ops[i] == Import(names[i])
  {
    if names == [] then [] else [Import(names[0])] + ImportAll(names[1..])
  }

  function HoldAll(names: seq<string>): (ops: seq<Forward>)
    ensures |ops| == |names| && forall i :: 0 <= i < |ops| ==> ops[i] == Hold(names[i])
  {
    if names == [] then [] else [Hold(names[0])] + HoldAll(names[1..])
  }

  function UnholdAll(names: seq<string>): (ops: seq<Forward>)
    ensures |ops| == |names| && forall i :: 0 <= i < |ops| ==> ops[i] == Unhold(names[i])
  {
    if names == [] then [] else [Unhold(names[0])] + UnholdAll(names[1..])
  }

  /** The number of operations of the promotion. */
  function Steps<C>(p: Plan<C>): nat {
    |p.imports| + |p.names| + |p.names| + 2
  }

  function Script<C>(p: Plan<C>): (ops: seq<Forward>)
    ensures |ops| == Steps(p)
  {
    ImportAll(p.imports) + ([RecordImported] + (HoldAll(p.names) + (UnholdAll(p.names) + [Accept])))
  }

  function Created<C>(p: Plan<C>, w: World<C>): set<string> {
    ActivePool(w.ledger.auth) - BaselineNames(p)
  }

  /** Putting one baseline credential back: from the hold when it is there, else from its private copy. */
  function PutBack<C(==)>(p: Plan<C>, w: World<C>, n: string): (World<C>, Verdict) {
    if n !in p.baseline then (w, Going)
    else if [n] in w.ledger.auth then (w, if n in w.halfMade then Rejected(UnsafePool) else Going)
    else if [n] in w.ledger.dirs then (w, Rejected(UnsafePath))
    else if n in w.held then
      if w.held[n] == p.baseline[n] then
        (w.(ledger := w.ledger.(auth := w.ledger.auth[[n] := w.held[n]]), held := w.held - {n}), Going)
      else (w, Rejected(SourceUnavailable))
    else (w.(ledger := w.ledger.(auth := w.ledger.auth[[n] := p.baseline[n]])), Going)
  }

  /** One operation of the promotion; None when it is refused, which starts the rollback. */
  function Advance<C(==)>(p: Plan<C>, w: World<C>, op: Forward): Option<World<C>> {
    match op
    case Import(n) =>
      if n in p.contents && [n] !in w.ledger.auth then
        Some(w.(ledger := w.ledger.(auth := w.ledger.auth[[n] := p.contents[n]]), next := w.next + 1))
      else None
    case RecordImported =>
      if |Created(p, w)| == |p.imports| then Some(w.(promoted := Created(p, w), phase := Imported, next := w.next + 1)) else None
    case Hold(n) =>
      if [n] in w.ledger.auth && n !in w.held then
        Some(w.(ledger := w.ledger.(auth := w.ledger.auth - {[n]}), held := w.held[n := w.ledger.auth[[n]]], next := w.next + 1))
      else None
    case Unhold(n) =>
      var (after, verdict) := PutBack(p, w, n);
      if verdict.Going? then Some(after.(next := w.next + 1)) else None
    case Accept =>
      if |ActivePool(w.ledger.auth)| == |p.names| + |p.imports| && Archive(w.ledger.manifest).Some?
         && |Archive(w.ledger.manifest).value| == |p.archiveEntries| && w.failure == p.failure
      then Some(w.(phase := Accepted, next := w.next + 1)) else None
  }

  // ---------------------------------------------------------------- rollback

  datatype Op =
    | Derive
    | ReadArchive
    | PutBackBaseline(name: string)
    | RestoreArchived(selector: string)
    | RemovePromoted(name: string)
    | SiftReceipt(receipt: string)
    | MoveTrigger
    | Conclude

  /** The archive as the promotion reads it: a list, not too large, in which every entry is an object. */
  function Archive(m: Manifest): Option<seq<Entry>> {
    if Within(m, MAX_ARCHIVE_BYTES) && forall e :: e in m.entries ==> !e.NotAnObject? then Some(m.entries) else None
  }

  /** The promoted names a rollback works on: as recorded, else everything new in the pool or the archive. */
  function Promoted<C>(p: Plan<C>, w: World<C>): set<string> {
    if w.promoted != {} then w.promoted
    else Created(p, w) + NewSources(Listing(w.ledger.manifest), p.archiveEntries)
  }

  function NewSources(entries: seq<Entry>, older: seq<Entry>): set<string> {
    set e | e in entries && e !in older && e.Modern? && !e.absolute && |e.parts| == 1 :: e.parts[0]
  }

  datatype Listings = Listings(promoted: seq<string>, receipts: seq<string>)

  ghost predicate ListsOf<C>(p: Plan<C>, w: World<C>, d: Listings) {
    Lists(d.promoted, Promoted(p, w)) && Lists(d.receipts, w.failure.Keys)
  }

  function PutBacks(names: seq<string>): (ops: seq<Op>)
    ensures |ops| == |names| && forall i :: 0 <= i < |ops| ==> ops[i] == PutBackBaseline(names[i])
  {
    if names == [] then [] else [PutBackBaseline(names[0])] + PutBacks(names[1..])
  }

  function Restores(selectors: seq<string>): (ops: seq<Op>)
    ensures |ops| == |selectors| && forall i :: 0 <= i < |ops| ==> ops[i] == RestoreArchived(selectors[i])
  {
    if selectors == [] then [] else [RestoreArchived(selectors[0])] + Restores(selectors[1..])
  }

  function Removes(names: seq<string>): (ops: seq<Op>)
    ensures |ops| == |names| && forall i :: 0 <= i < |ops| ==> ops[i] == RemovePromoted(names[i])
  {
    if names == [] then [] else [RemovePromoted(names[0])] + Removes(names[1..])
  }

  function Sifts(receipts: seq<string>): (ops: seq<Op>)
    ensures |ops| == |receipts| && forall i :: 0 <= i < |ops| ==> ops[i] == SiftReceipt(receipts[i])
  {
    if receipts == [] then [] else [SiftReceipt(receipts[0])] + Sifts(receipts[1..])
  }

  /** The operations before the archived files come back. */
  function Opening<C>(p: Plan<C>): seq<Op> {
    [Derive] + (PutBacks(p.names) + [ReadArchive])
  }

  /** The operations after they have come back. */
  function Closing(d: Listings): seq<Op> {
    Removes(d.promoted) + (Sifts(d.receipts) + [MoveTrigger, Conclude])
  }

  function RollbackOps<C>(p: Plan<C>, w: World<C>, d: Listings): seq<Op> {
    Opening(p) + (Restores(Selected(Listing(w.ledger.manifest), d.promoted)) + Closing(d))
  }

  /** Length of the archive as the final comparison expects it: an empty baseline reads as minus one. */
  function ExpectedArchive<C>(p: Plan<C>): int {
    if |p.archiveEntries| != 0 then |p.archiveEntries| else -1
  }

  function Final<C(==)>(p: Plan<C>, w: World<C>, probe: Probe): Verdict {
    if !probe.baselineBehaves then Rejected(BehaviourChanged)
    else
      var same := ActivePool(w.ledger.auth) == BaselineNames(p) && probe.service == p.service;
      if same && Archive(w.ledger.manifest).None? then Rejected(ArchiveInvalid)
      else if probe.poolState != p.poolState then Rejected(PoolStateChanged)
      else if same && |Archive(w.ledger.manifest).value| == ExpectedArchive(p) && w.failure == p.failure then Finished
      else Rejected(NotRestored)
  }

  ghost function Act<C>(p: Plan<C>, w: World<C>, op: Op, probe: Probe): (World<C>, Verdict) {
    match op
    case Derive =>
      if w.promoted == {} && Archive(w.ledger.manifest).None? then (w.(ready := false), Rejected(ArchiveInvalid))
      else (w.(working := Promoted(p, w), ready := false), Going)
    case ReadArchive =>
      if Archive(w.ledger.manifest).Some? then (w.(ready := true), Going) else (w, Rejected(ArchiveInvalid))
    case PutBackBaseline(n) => PutBack(p, w, n)
    case RestoreArchived(selector) =>
      var (ledger, outcome) := AfterRestore(w.ledger, selector, Clean);
      (w.(ledger := ledger), if outcome.Moved? then Going else Rejected(NotContained))
    case RemovePromoted(n) =>
      if [n] in w.ledger.dirs then (w, Rejected(UnsafePath))
      else if [n] !in w.ledger.auth then (w, Going)
      else if n in w.removed then (w, Rejected(UnsafePath))
      else (w.(ledger := w.ledger.(auth := w.ledger.auth - {[n]}), removed := w.removed[n := w.ledger.auth[[n]]]), Going)
    case SiftReceipt(r) =>
      if r in w.failure && r !in p.failure && w.failure[r].authFile in w.working then
        (w.(failure := w.failure - {r}, movedReceipts := w.movedReceipts[r := w.failure[r]]), Going)
      else (w, Going)
    case MoveTrigger =>
      (if w.trigger.Some? then w.(movedTrigger := w.trigger, trigger := None) else w, Going)
    case Conclude =>
      var verdict := Final(p, w, probe);
      (if verdict.Finished? then w.(phase := Recovered) else w, verdict)
  }

  ghost function Exec<C>(p: Plan<C>, w: World<C>, ops: seq<Op>, probe: Probe): (World<C>, Verdict)
    decreases |ops|
  {
    if ops == [] then (w, Going)
    else
      var (after, verdict) := Act(p, w, ops[0], probe);
      if verdict.Going? then Exec(p, after, ops[1..], probe) else (after, verdict)
  }

  function Stopped<C>(p: Plan<C>, w: World<C>): World<C> {
    w.(next := Steps(p))
  }

  /** A whole rollback; it ends the promotion. */
  ghost function Rollback<C>(p: Plan<C>, w: World<C>, d: Listings, probe: Probe): (World<C>, Verdict) {
    Exec(p, Stopped(p, w), RollbackOps(p, w, d), probe)
  }

  // ---------------------------------------------------------------- the transaction itself

  class Transaction<C(==)> {
    const plan: Plan<C>
    const store: QuarantineStore<C>
    var held: map<string, C>
    var removed: map<string, C>
    var failure: map<string, Receipt<C>>
    var movedReceipts: map<string, Receipt<C>>
    var trigger: Option<C>
    var movedTrigger: Option<C>
    var promoted: set<string>
    var working: set<string>
    var ready: bool
    var halfMade: set<string>
    var phase: Phase
    ghost var next: nat

    constructor (plan: Plan<C>, store: QuarantineStore<C>)
      ensures this.plan == plan && this.store == store
      ensures View() == World(store.View(), map[], map[], plan.failure, map[], None, None, {}, {}, false, {}, Prepared, 0)
    {
      this.plan, this.store, failure := plan, store, plan.failure;
      held, removed, movedReceipts, trigger, movedTrigger := map[], map[], map[], None, None;
      promoted, working, ready, halfMade, phase, next := {}, {}, false, {}, Prepared, 0;
    }

    ghost function View(): World<C>
      reads this, store
    {
      World(store.View(), held, removed, failure, movedReceipts, trigger, movedTrigger, promoted, working, ready, halfMade, phase, next)
    }

    /** The loop of the hold, cut off at the first baseline credential that is missing or already held. */
    method HoldBaseline() returns (ok: bool)
      modifies this, store
      ensures HoldsFrom(plan, old(View()), plan.names) == (View(), ok)
    {
      var i := 0;
      ghost var all := HoldsFrom(plan, View(), plan.names);
      while i < |plan.names|
        invariant 0 <= i <= |plan.names| && all == HoldsFrom(plan, View(), plan.names[i..])
      {
        var n := plan.names[i];
        assert plan.names[i..][0] == n && plan.names[i..][1..] == plan.names[i + 1..];
        if [n] !in store.auth || n in held {
          return false;
        }
        held, next := held[n := store.auth[[n]]], next + 1;
        store.auth := store.auth - {[n]};
        i := i + 1;
      }
      ok := true;
    }

    method PutBackOne(n: string) returns (verdict: Verdict)
      modifies this, store
      ensures (View(), verdict) == PutBack(plan, old(View()), n)
    {
      verdict := Going;
      if n in plan.baseline && [n] in store.auth {
        if n in halfMade { verdict := Rejected(UnsafePool); }
      } else if n in plan.baseline {
        if [n] in store.dirs { verdict := Rejected(UnsafePath); }
        else if n in held {
          if held[n] == plan.baseline[n] {
            store.auth := store.auth[[n] := held[n]];
            held := held - {n};
          } else { verdict := Rejected(SourceUnavailable); }
        } else { store.auth := store.auth[[n] := plan.baseline[n]]; }
      }
    }

    method Perform(op: Op, probe: Probe) returns (verdict: Verdict)
      modifies this, store
      ensures (View(), verdict) == Act(plan, old(View()), op, probe)
    {
      hide AfterRestore, PutBack, NewSources, Listing, ActivePool;
      verdict := Going;
      match op
      case Derive =>
        ready := false;
        if promoted == {} && Archive(store.manifest).None? { verdict := Rejected(ArchiveInvalid); }
        else {
          var created := ActivePool(store.auth) - BaselineNames(plan);
          working := if promoted != {} then promoted else created + NewSources(Listing(store.manifest), plan.archiveEntries);
        }
      case ReadArchive =>
        if Archive(store.manifest).None? { verdict := Rejected(ArchiveInvalid); } else { ready := true; }
      case PutBackBaseline(n) =>
        verdict := PutBackOne(n);
      case RestoreArchived(selector) =>
        var outcome := store.Restore(selector, Clean);
        if outcome.Refused? { verdict := Rejected(NotContained); }
      case RemovePromoted(n) =>
        if [n] in store.dirs || ([n] in store.auth && n in removed) { verdict := Rejected(UnsafePath); }
        else if [n] in store.auth {
          removed := removed[n := store.auth[[n]]];
          store.auth := store.auth - {[n]};
        }
      case SiftReceipt(r) =>
        if r in failure && r !in plan.failure && failure[r].authFile in working {
          movedReceipts, failure := movedReceipts[r := failure[r]], failure - {r};
        }
      case MoveTrigger =>
        if trigger.Some? { movedTrigger, trigger := trigger, None; }
      case Conclude =>
        if !probe.baselineBehaves { return Rejected(BehaviourChanged); }
        var archive := Archive(store.manifest);
        var same := ActivePool(store.auth) == BaselineNames(plan) && probe.service == plan.service;
        if same && archive.None? { verdict := Rejected(ArchiveInvalid); }
        else if probe.poolState != plan.poolState { verdict := Rejected(PoolStateChanged); }
        else if same && |archive.value| == ExpectedArchive(plan) && failure == plan.failure { phase, verdict := Recovered, Finished; }
        else { verdict := Rejected(NotRestored); }
    }

    method RollBack(d: Listings, probe: Probe) returns (verdict: Verdict)
      modifies this, store
      ensures (View(), verdict) == Rollback(plan, old(View()), d, probe)
    {
      var ops := Opening(plan) + (Restores(Selected(Listing(store.manifest), d.promoted)) + Closing(d));
      next := Steps(plan);
      ghost var all := Exec(plan, View(), ops, probe);
      verdict := Going;
      var i := 0;
      while i < |ops|
        invariant 0 <= i <= |ops| && verdict.Going?
        invariant all == Exec(plan, View(), ops[i..], probe)
      {
        assert ops[i..][0] == ops[i] && ops[i..][1..] == ops[i + 1..];
        verdict := Perform(ops[i], probe);
        if !verdict.Going? {
          return;
        }
        i := i + 1;
      }
    }
  }

  ghost function HoldsFrom<C>(p: Plan<C>, w: World<C>, names: seq<string>): (World<C>, bool)
    decreases |names|
  {
    if names == [] then (w, true)
    else match Advance(p, w, Hold(names[0]))
      case None => (w, false)
      case Some(after) => HoldsFrom(p, after, names[1..])
  }
}
