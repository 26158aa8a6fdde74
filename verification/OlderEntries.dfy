/**
 Archive entries that are older than a transaction and get in its way: those that came from
 its own names, and those that answer to the archive names it is given.  The preflights of
 the scripts do not look for either.
 */
module OlderEntries {
  import opened ArchiveNames
  import opened QuarantineLedger
  import opened LedgerLaws
  import opened ArchivedBatch
  import opened PoolFiles

  import LiveTransaction
  import LiveRuns
  import LiveRecovery
  import Promotion
  import PromotionRuns
  import PromotionLaws

  // ---------------------------------------------------------------- entries from elsewhere

  /** How many entries came from other names. */
  function Others(entries: seq<Entry>, names: seq<string>): nat {
    if entries == [] then 0 else (if FromNames(entries[0], names) then 0 else 1) + Others(entries[1..], names)
  }

  /** What is not selected came from elsewhere. */
  lemma {:induction false} SelectedRest(entries: seq<Entry>, names: seq<string>)
    ensures |Selected(entries, names)| + Others(entries, names) == |entries|
    decreases |entries|
  {
    hide FromNames;
    if entries != [] {
      SelectedRest(entries[1..], names);
    }
  }

  lemma {:induction false} OthersAppend(a: seq<Entry>, b: seq<Entry>, names: seq<string>)
    ensures Others(a + b, names) == Others(a, names) + Others(b, names)
    decreases |a|
  {
    hide FromNames;
    if a == [] {
      assert a + b == b;
    } else {
      assert (a + b)[0] == a[0] && (a + b)[1..] == a[1..] + b;
      OthersAppend(a[1..], b, names);
    }
  }

  lemma OthersOne(e: Entry, names: seq<string>)
    ensures Others([e], names) == if FromNames(e, names) then 0 else 1
  {
    assert [e][1..] == [];
  }

  /** An entry that came from the names does not count. */
  lemma OthersRemoved(entries: seq<Entry>, i: nat, names: seq<string>)
    requires i < |entries| && FromNames(entries[i], names)
    ensures Others(Removed(entries, i), names) == Others(entries, names)
  {
    hide FromNames;
    assert entries == entries[..i] + ([entries[i]] + entries[i + 1..]);
    OthersAppend(entries[..i], [entries[i]] + entries[i + 1..], names);
    OthersAppend([entries[i]], entries[i + 1..], names);
    OthersAppend(entries[..i], entries[i + 1..], names);
    OthersOne(entries[i], names);
  }

  /** All entries came from elsewhere exactly if none came from the names. */
  lemma {:induction false} OthersAll(entries: seq<Entry>, names: seq<string>)
    ensures Others(entries, names) <= |entries|
    ensures Others(entries, names) == |entries| <==> forall e :: e in entries ==> !FromNames(e, names)
    decreases |entries|
  {
    hide FromNames;
    if entries != [] {
      assert entries == [entries[0]] + entries[1..];
      OthersAll(entries[1..], names);
    }
  }

  // ---------------------------------------------------------------- steps of a transaction's own

  /** The quarantine is of a file of the names; what the restore works on came from one of them. */
  ghost predicate OwnStep<C>(l: Ledger<C>, step: Step, names: seq<string>) {
    match step
    case Take(source, _, _, _) => |source| == 1 && source[0] in names
    case Return(q, _) =>
      var entries := Listing(l.manifest);
      Readable(entries) ==> forall i: nat :: SoleMatch(entries, q, i) ==> FromNames(entries[i], names)
  }

  /** What a ledger step does to the list: nothing, one more entry for the file taken, or one less that the selector names. */
  lemma StepLists<C>(l: Ledger<C>, step: Step) returns (i: nat)
    ensures var entries, after := Listing(l.manifest), Listing(Do(l, step).0.manifest);
            || after == entries
            || (step.Take? && after == entries + [EntryFor(l, step.source, step.reason, step.movedAt)])
            || (step.Return? && Readable(entries) && SoleMatch(entries, step.selector, i) && after == Removed(entries, i))
  {
    hide ManifestBytes, ArchiveName, Selectors, EntryPaths;
    i := 0;
    if step.Return? {
      var outcome := AfterRestore(l, step.selector, step.fault).1;
      if outcome.Moved? || WriteFailed(outcome) {
        var entries;
        entries, i := RestoreWorksOn(l, step.selector, step.fault);
      }
    }
  }

  /** Such a step leaves the number of entries from elsewhere alone. */
  lemma OwnStepKeeps<C>(l: Ledger<C>, step: Step, names: seq<string>)
    requires OwnStep(l, step, names)
    ensures Others(Listing(Do(l, step).0.manifest), names) == Others(Listing(l.manifest), names)
  {
    hide Do, SoleMatch, EntryPaths, ArchiveName;
    var i := StepLists(l, step);
    var entries := Listing(l.manifest);
    match step
    case Take(source, reason, movedAt, _) =>
      OthersAppend(entries, [EntryFor(l, source, reason, movedAt)], names);
      OthersOne(EntryFor(l, source, reason, movedAt), names);
    case Return(q, _) =>
      if Readable(entries) && SoleMatch(entries, q, i) {
        assert i < |entries| by { SoleInside(entries, q, i); }
        OthersRemoved(entries, i, names);
      }
  }

  lemma SoleInside(entries: seq<Entry>, q: string, i: nat)
    requires Readable(entries) && SoleMatch(entries, q, i)
    ensures i < |entries| && q in Selectors(entries[i])
  {}

  /** The first selected entry answers to its selector; without it the others are selected. */
  lemma {:induction false} FirstSelected(entries: seq<Entry>, names: seq<string>) returns (j: nat)
    requires Readable(entries) && Selected(entries, names) != []
    ensures j < |entries| && FromNames(entries[j], names) && Selected(entries, names)[0] in Selectors(entries[j])
    ensures Selected(Removed(entries, j), names) == Selected(entries, names)[1..]
    decreases |entries|
  {
    assert entries == [entries[0]] + entries[1..];
    if FromNames(entries[0], names) {
      assert entries[0] in entries && EntryPaths(entries[0]).Some?;
      assert Removed(entries, 0) == entries[1..];
      return 0;
    }
    hide FromNames, EntryPaths, Selectors;
    assert Readable(entries[1..]);
    j := FirstSelected(entries[1..], names);
    assert Removed(entries, j + 1) == [entries[0]] + Removed(entries[1..], j);
    assert ([entries[0]] + Removed(entries[1..], j))[1..] == Removed(entries[1..], j);
    j := j + 1;
  }

  /** Restoring the first selected entry is a step of the transaction's own. */
  lemma FirstOwn<C>(l: Ledger<C>, names: seq<string>, fault: Fault)
    requires Selected(Listing(l.manifest), names) != []
    ensures OwnStep(l, Return(Selected(Listing(l.manifest), names)[0], fault), names)
    ensures var q := Selected(Listing(l.manifest), names)[0];
            AfterRestore(l, q, Clean).1.Moved? ==>
              Selected(Listing(AfterRestore(l, q, Clean).0.manifest), names) == Selected(Listing(l.manifest), names)[1..]
  {
    hide AfterRestore, Selectors, FromNames, EntryPaths;
    var entries := Listing(l.manifest);
    var q := Selected(entries, names)[0];
    if Readable(entries) {
      var j := FirstSelected(entries, names);
      forall i: nat | SoleMatch(entries, q, i) ensures i == j {}
    }
    if AfterRestore(l, q, Clean).1.Moved? {
      var i := RestoreRemoves(l, q);
    }
  }

  // ---------------------------------------------------------------- claimed archive names

  /** Entry `m` came from the names, and `x`, which did not, answers to its archive name. */
  ghost predicate Claimed(entries: seq<Entry>, names: seq<string>, m: Move, x: Entry) {
    && m in entries && FromNames(m, names) && ValidParts(m.parts) && PlainName(m.quarantineName)
    && x in entries && !FromNames(x, names) && EntryPaths(x).Some? && m.quarantineName in Selectors(x)
  }

  /** A claimed entry cannot be restored and stays claimed. */
  lemma ClaimedStays<C>(l: Ledger<C>, step: Step, names: seq<string>, m: Move, x: Entry)
    requires Claimed(Listing(l.manifest), names, m, x) && OwnStep(l, step, names)
    ensures Claimed(Listing(Do(l, step).0.manifest), names, m, x)
  {
    hide Do, EntryPaths, Selectors, FromNames, ArchiveName;
    var i := StepLists(l, step);
    var entries, after := Listing(l.manifest), Listing(Do(l, step).0.manifest);
    if step.Return? && Readable(entries) && SoleMatch(entries, step.selector, i) && after == Removed(entries, i) {
      var j :| 0 <= j < |entries| && entries[j] == m;
      var k :| 0 <= k < |entries| && entries[k] == x;
      EntrySelected(m, step.selector);
      assert i != k && i != j;
      assert after[if j < i then j else j - 1] == m && after[if k < i then k else k - 1] == x;
    }
  }

  /** Restoring the files of the names cannot succeed while one of their entries is claimed. */
  lemma {:induction false} ClaimedBlocks<C>(l: Ledger<C>, names: seq<string>, m: Move, x: Entry)
    requires Claimed(Listing(l.manifest), names, m, x)
    ensures !RestoreAll(l, Selected(Listing(l.manifest), names)).1
    decreases |Selected(Listing(l.manifest), names)|
  {
    hide AfterRestore, Claimed, OwnStep;
    var selectors := Selected(Listing(l.manifest), names);
    assert m.quarantineName in selectors by { ClaimedSelected(Listing(l.manifest), names, m, x); }
    FirstOwn(l, names, Clean);
    if AfterRestore(l, selectors[0], Clean).1.Moved? {
      ClaimedStays(l, Return(selectors[0], Clean), names, m, x);
      ClaimedBlocks(AfterRestore(l, selectors[0], Clean).0, names, m, x);
    }
  }

  lemma ClaimedSelected(entries: seq<Entry>, names: seq<string>, m: Move, x: Entry)
    requires Claimed(entries, names, m, x)
    ensures m.quarantineName in Selected(entries, names)
  {
    SelectedHas(entries, names, m);
  }

  // ---------------------------------------------------------------- the live transaction

  /** An event that archives canaries only, and restores nothing else. */
  ghost predicate OwnEvent<C>(p: LiveTransaction.Plan<C>, w: LiveTransaction.World<C>, e: LiveRuns.Event<C>) {
    match e
    case Archive(n, _, _, _) => n in p.canaries
    case Recovering(op, fault) => !op.Conclude? && (op.RestoreArchived? ==> OwnStep(w.ledger, Return(op.selector, fault), p.canaries))
    case _ => true
  }

  ghost predicate OwnRun<C>(p: LiveTransaction.Plan<C>, w: LiveTransaction.World<C>, run: seq<LiveRuns.Event<C>>)
    decreases |run|
  {
    run == [] || (OwnEvent(p, w, run[0]) && OwnRun(p, LiveRuns.Happen(p, w, run[0]), run[1..]))
  }

  /** What such an event does to the manifest is one step of the ledger, or nothing. */
  lemma EventSteps<C>(p: LiveTransaction.Plan<C>, w: LiveTransaction.World<C>, e: LiveRuns.Event<C>) returns (step: Step)
    requires OwnEvent(p, w, e) && !w.phase.Recovered?
    ensures var w' := LiveRuns.Happen(p, w, e);
            && !w'.phase.Recovered?
            && (w'.ledger.manifest == w.ledger.manifest
                || (OwnStep(w.ledger, step, p.canaries) && w'.ledger.manifest == Do(w.ledger, step).0.manifest))
  {
    hide LiveTransaction.Act, LiveTransaction.Advance, LiveTransaction.Activation, AfterRestore, AfterQuarantine, SoleMatch;
    step := Return("", Clean);
    match e
    case Activate =>
      if w.next < LiveTransaction.Steps(p) {
        AdvanceManifest(p, w, LiveTransaction.Activation(p)[w.next]);
      }
    case Archive(n, reason, movedAt, fault) => step := Take([n], reason, movedAt, fault);
    case Recovering(op, fault) =>
      if op.RestoreArchived? {
        step := Return(op.selector, fault);
      } else {
        LiveRecovery.ActManifest(p, LiveTransaction.Stopped(p, w), op, LiveRuns.ANY_PROBE);
        ActPhase(p, LiveTransaction.Stopped(p, w), op);
      }
    case _ =>
  }

  lemma AdvanceManifest<C>(p: LiveTransaction.Plan<C>, w: LiveTransaction.World<C>, op: LiveTransaction.Forward)
    ensures LiveTransaction.Advance(p, w, op).ledger.manifest == w.ledger.manifest
    ensures LiveTransaction.Advance(p, w, op).phase.Recovered? ==> w.phase.Recovered?
  {}

  lemma ActPhase<C>(p: LiveTransaction.Plan<C>, w: LiveTransaction.World<C>, op: LiveTransaction.Op)
    requires !op.Conclude?
    ensures LiveTransaction.Act(p, w, op, LiveRuns.ANY_PROBE).0.phase == w.phase
  {
    hide AfterRestore;
  }

  lemma {:induction false} OwnRunKeeps<C>(p: LiveTransaction.Plan<C>, w: LiveTransaction.World<C>, run: seq<LiveRuns.Event<C>>)
    requires OwnRun(p, w, run) && !w.phase.Recovered?
    ensures var w' := LiveRuns.Follow(p, w, run);
            && !w'.phase.Recovered?
            && Others(Listing(w'.ledger.manifest), p.canaries) == Others(Listing(w.ledger.manifest), p.canaries)
            && forall m, x {:trigger Claimed(Listing(w'.ledger.manifest), p.canaries, m, x)} ::
                 Claimed(Listing(w.ledger.manifest), p.canaries, m, x) ==> Claimed(Listing(w'.ledger.manifest), p.canaries, m, x)
    decreases |run|
  {
    hide OwnEvent, OwnStep, LiveRuns.Happen, Do, Claimed;
    if run != [] {
      var step := EventSteps(p, w, run[0]);
      var mid := LiveRuns.Happen(p, w, run[0]);
      if mid.ledger.manifest != w.ledger.manifest {
        OwnStepKeeps(w.ledger, step, p.canaries);
        forall m, x | Claimed(Listing(w.ledger.manifest), p.canaries, m, x) ensures Claimed(Listing(mid.ledger.manifest), p.canaries, m, x) {
          ClaimedStays(w.ledger, step, p.canaries, m, x);
        }
      }
      OwnRunKeeps(p, mid, run[1..]);
    }
  }

  /** How a recovery begins: it reads the archive and restores what it lists from the canaries. */
  lemma RecoveryBegins<C>(p: LiveTransaction.Plan<C>, w: LiveTransaction.World<C>, d: LiveTransaction.Listings, probe: LiveTransaction.Probe)
    requires !w.phase.Recovered?
    ensures var w0, selectors := LiveTransaction.Stopped(p, w), Selected(Listing(w.ledger.manifest), p.canaries);
            var (after, ok) := RestoreAll(w.ledger, selectors);
            LiveTransaction.Recover(p, w, d, probe) ==
              if !Within(w.ledger.manifest, LiveTransaction.MAX_ARCHIVE_BYTES) then
                (w0, LiveTransaction.Rejected(LiveTransaction.ArchiveInvalid))
              else if !ok then (w0.(ledger := after), LiveTransaction.Rejected(LiveTransaction.CanaryRestoreFailed))
              else LiveTransaction.Exec(p, w0.(ledger := after), LiveTransaction.Cleanup(p, d), probe)
  {
    hide LiveTransaction.Exec, LiveTransaction.Cleanup, LiveTransaction.Restores, Selected, RestoreAll, ManifestBytes;
    var w0, selectors := LiveTransaction.Stopped(p, w), Selected(Listing(w.ledger.manifest), p.canaries);
    LiveRecovery.ReadFirst(p, w0, LiveTransaction.Restores(selectors) + LiveTransaction.Cleanup(p, d), probe);
    LiveRecovery.ExecAppend(p, w0, LiveTransaction.Restores(selectors), LiveTransaction.Cleanup(p, d), probe);
    LiveRecovery.RestoresRun(p, w0, selectors, probe);
  }

  /** Whatever the state, a recovery is accepted only if exactly as many entries came from elsewhere as the baseline had in all. */
  lemma RecoveryCounts<C>(p: LiveTransaction.Plan<C>, w: LiveTransaction.World<C>, d: LiveTransaction.Listings, probe: LiveTransaction.Probe)
    requires !w.phase.Recovered? && LiveTransaction.Recover(p, w, d, probe).1.Finished?
    ensures Others(Listing(w.ledger.manifest), p.canaries) == p.archiveCount
  {
    hide LiveTransaction.Recover, LiveTransaction.Exec, LiveTransaction.Cleanup, Selected, RestoreAll, ManifestBytes;
    var w0, selectors := LiveTransaction.Stopped(p, w), Selected(Listing(w.ledger.manifest), p.canaries);
    RecoveryBegins(p, w, d, probe);
    RestoreAllCount(w.ledger, selectors);
    SelectedRest(Listing(w.ledger.manifest), p.canaries);
    if Others(Listing(w.ledger.manifest), p.canaries) != p.archiveCount {
      var front := LiveRecovery.CleanupFits(w.ledger, p, d);
      LiveRecovery.LengthRefuses(p, w0.(ledger := RestoreAll(w.ledger, selectors).0), LiveTransaction.Cleanup(p, d), probe);
    }
  }

  /**
   When an entry of the archive is older than the transaction and came from the name of a
   canary, no recovery is ever accepted: it restores that entry as well, and the archive is
   too short from then on.
   */
  lemma OlderForever<C>(b: Ledger<C>, p: LiveTransaction.Plan<C>, w: LiveTransaction.World<C>, run: seq<LiveRuns.Event<C>>,
                        d: LiveTransaction.Listings, probe: LiveTransaction.Probe)
    requires |Listing(b.manifest)| == p.archiveCount && exists e :: e in Listing(b.manifest) && FromNames(e, p.canaries)
    requires w.ledger.manifest == b.manifest && !w.phase.Recovered? && OwnRun(p, w, run)
    ensures !LiveTransaction.Recover(p, LiveRuns.Follow(p, w, run), d, probe).1.Finished?
  {
    hide LiveTransaction.Recover, OwnRun, LiveRuns.Follow, FromNames;
    OwnRunKeeps(p, w, run);
    OthersAll(Listing(b.manifest), p.canaries);
    if LiveTransaction.Recover(p, LiveRuns.Follow(p, w, run), d, probe).1.Finished? {
      RecoveryCounts(p, LiveRuns.Follow(p, w, run), d, probe);
    }
  }

  /**
   When a canary is archived under a name to which an entry from elsewhere answers, it is
   never restored and no recovery is ever accepted.
   */
  lemma ClaimedForever<C>(p: LiveTransaction.Plan<C>, w: LiveTransaction.World<C>, m: Move, x: Entry, run: seq<LiveRuns.Event<C>>,
                          d: LiveTransaction.Listings, probe: LiveTransaction.Probe)
    requires Claimed(Listing(w.ledger.manifest), p.canaries, m, x) && !w.phase.Recovered? && OwnRun(p, w, run)
    ensures m in Listing(LiveRuns.Follow(p, w, run).ledger.manifest)
    ensures !LiveTransaction.Recover(p, LiveRuns.Follow(p, w, run), d, probe).1.Finished?
  {
    hide LiveTransaction.Recover, OwnRun, LiveRuns.Follow, Selected, RestoreAll;
    OwnRunKeeps(p, w, run);
    ClaimedBlocks(LiveRuns.Follow(p, w, run).ledger, p.canaries, m, x);
    RecoveryBegins(p, LiveRuns.Follow(p, w, run), d, probe);
  }

  /** Recoveries that die or are refused anywhere before their last operation are such runs. */
  lemma {:induction false} DyingIsOwn<C>(p: LiveTransaction.Plan<C>, w: LiveTransaction.World<C>, rest: seq<LiveTransaction.Op>,
                                         probe: LiveTransaction.Probe)
    returns (count: nat)
    requires w.next == LiveTransaction.Steps(p) && forall op :: op in rest ==> !op.RestoreArchived? && !op.Conclude?
    ensures var ops := LiveTransaction.Restores(Selected(Listing(w.ledger.manifest), p.canaries)) + rest;
            && count <= |ops| && OwnRun(p, w, LiveRecovery.Performing(ops[..count]))
            && LiveTransaction.Exec(p, w, ops, probe).0 == LiveRuns.Follow(p, w, LiveRecovery.Performing(ops[..count]))
    decreases |Selected(Listing(w.ledger.manifest), p.canaries)|, |rest|
  {
    hide LiveTransaction.Act, OwnStep, Selected, AfterRestore;
    var selectors := Selected(Listing(w.ledger.manifest), p.canaries);
    var ops := LiveTransaction.Restores(selectors) + rest;
    if ops == [] {
      return 0;
    }
    var op := ops[0];
    var (mid, verdict) := LiveTransaction.Act(p, w, op, probe);
    OwnHappens(p, w, op, probe);
    count := 0;
    if selectors != [] {
      assert op == LiveTransaction.RestoreArchived(selectors[0]);
      assert ops[1..] == LiveTransaction.Restores(selectors[1..]) + rest;
      FirstOwn(w.ledger, p.canaries, Clean);
      if verdict.Going? {
        RestoreAct(p, w, selectors[0], probe);
        count := DyingIsOwn(p, mid, rest, probe);
      }
    } else {
      assert op in rest && ops == rest && forall o :: o in rest[1..] ==> o in rest;
      if verdict.Going? {
        LiveRecovery.ActManifest(p, w, op, probe);
        count := DyingIsOwn(p, mid, rest[1..], probe);
        assert LiveTransaction.Restores([]) + rest[1..] == ops[1..];
      }
    }
    count := count + 1;
    assert LiveRecovery.Performing<C>(ops[..count])[0] == LiveRuns.Recovering(op, Clean);
    assert LiveRecovery.Performing<C>(ops[..count])[1..] == LiveRecovery.Performing(ops[1..][..count - 1]);
  }

  lemma OwnHappens<C>(p: LiveTransaction.Plan<C>, w: LiveTransaction.World<C>, op: LiveTransaction.Op, probe: LiveTransaction.Probe)
    requires w.next == LiveTransaction.Steps(p) && !op.Conclude?
    ensures LiveTransaction.Act(p, w, op, probe).0 == LiveRuns.Happen(p, w, LiveRuns.Recovering(op, Clean))
    ensures LiveTransaction.Act(p, w, op, probe).0.next == LiveTransaction.Steps(p)
  {
    assert LiveTransaction.Stopped(p, w) == w;
  }

  lemma RestoreAct<C>(p: LiveTransaction.Plan<C>, w: LiveTransaction.World<C>, q: string, probe: LiveTransaction.Probe)
    requires LiveTransaction.Act(p, w, LiveTransaction.RestoreArchived(q), probe).1.Going?
    ensures AfterRestore(w.ledger, q, Clean).1.Moved?
    ensures LiveTransaction.Act(p, w, LiveTransaction.RestoreArchived(q), probe).0.ledger == AfterRestore(w.ledger, q, Clean).0
  {
    hide AfterRestore;
  }

  // ---------------------------------------------------------------- the promotion

  /** Operations other than restores leave the manifest alone, and cannot finish while it has the wrong length. */
  lemma {:induction false} ManifestStays<C>(p: Promotion.Plan<C>, w: Promotion.World<C>, ops: seq<Promotion.Op>, probe: Promotion.Probe)
    requires forall op :: op in ops ==> !op.RestoreArchived?
    ensures Promotion.Exec(p, w, ops, probe).0.ledger.manifest == w.ledger.manifest
    ensures |Listing(w.ledger.manifest)| != Promotion.ExpectedArchive(p) ==> !Promotion.Exec(p, w, ops, probe).1.Finished?
    decreases |ops|
  {
    if ops != [] {
      hide Promotion.Act;
      assert ops[0] in ops && forall op :: op in ops[1..] ==> op in ops;
      ActManifest(p, w, ops[0], probe);
      ManifestStays(p, Promotion.Act(p, w, ops[0], probe).0, ops[1..], probe);
    }
  }

  lemma ActManifest<C>(p: Promotion.Plan<C>, w: Promotion.World<C>, op: Promotion.Op, probe: Promotion.Probe)
    requires !op.RestoreArchived?
    ensures var (w', verdict) := Promotion.Act(p, w, op, probe);
            && w'.ledger.manifest == w.ledger.manifest && w'.promoted == w.promoted && w'.next == w.next
            && (|Listing(w.ledger.manifest)| != Promotion.ExpectedArchive(p) ==> !verdict.Finished?)
  {
    hide ManifestBytes, ActivePool, Promotion.Promoted;
  }

  lemma OpeningAndClosing<C>(p: Promotion.Plan<C>, d: Promotion.Listings)
    ensures forall op :: op in Promotion.Opening(p) ==> !op.RestoreArchived? && !op.Conclude?
    ensures forall op :: op in Promotion.Closing(d) ==> !op.RestoreArchived?
  {}

  /** A rollback that is accepted has restored everything that its archive lists from the promoted names. */
  lemma RollbackRuns<C>(p: Promotion.Plan<C>, w: Promotion.World<C>, d: Promotion.Listings, probe: Promotion.Probe)
    returns (w1: Promotion.World<C>)
    requires Promotion.Rollback(p, w, d, probe).1.Finished?
    ensures var selectors := Selected(Listing(w.ledger.manifest), d.promoted);
            && w1.ledger.manifest == w.ledger.manifest && RestoreAll(w1.ledger, selectors).1
            && Promotion.Rollback(p, w, d, probe) ==
                 Promotion.Exec(p, w1.(ledger := RestoreAll(w1.ledger, selectors).0), Promotion.Closing(d), probe)
  {
    hide Promotion.Exec, Promotion.Opening, Promotion.Closing, Promotion.Restores, Selected, RestoreAll;
    var w0, selectors := Promotion.Stopped(p, w), Selected(Listing(w.ledger.manifest), d.promoted);
    OpeningAndClosing(p, d);
    w1 := Promotion.Exec(p, w0, Promotion.Opening(p), probe).0;
    ManifestStays(p, w0, Promotion.Opening(p), probe);
    PromotionLaws.FrontGoes(p, w0, Promotion.Opening(p), probe);
    PromotionLaws.ExecAppend(p, w0, Promotion.Opening(p), Promotion.Restores(selectors) + Promotion.Closing(d), probe);
    PromotionLaws.ExecAppend(p, w1, Promotion.Restores(selectors), Promotion.Closing(d), probe);
    PromotionLaws.RestoresRun(p, w1, selectors, probe);
  }

  /** Whatever the state, a rollback is accepted only if exactly as many entries came from elsewhere as the baseline had in all. */
  lemma RollbackCounts<C>(p: Promotion.Plan<C>, w: Promotion.World<C>, d: Promotion.Listings, probe: Promotion.Probe)
    requires Promotion.Rollback(p, w, d, probe).1.Finished?
    ensures Others(Listing(w.ledger.manifest), d.promoted) == Promotion.ExpectedArchive(p)
  {
    hide Promotion.Rollback, Promotion.Exec, Promotion.Closing, Selected, RestoreAll;
    var selectors := Selected(Listing(w.ledger.manifest), d.promoted);
    var w1 := RollbackRuns(p, w, d, probe);
    RestoreAllCount(w1.ledger, selectors);
    SelectedRest(Listing(w.ledger.manifest), d.promoted);
    OpeningAndClosing(p, d);
    ManifestStays(p, w1.(ledger := RestoreAll(w1.ledger, selectors).0), Promotion.Closing(d), probe);
  }

  /** A rollback is refused while an entry of the baseline archive came from a name that it takes for promoted. */
  lemma OlderRefused<C>(p: Promotion.Plan<C>, w: Promotion.World<C>, es: seq<Entry>, d: Promotion.Listings, probe: Promotion.Probe)
    requires Listing(w.ledger.manifest) == p.archiveEntries + es && forall e :: e in es ==> FromNames(e, d.promoted)
    requires exists e :: e in p.archiveEntries && FromNames(e, d.promoted)
    ensures !Promotion.Rollback(p, w, d, probe).1.Finished?
  {
    hide Promotion.Rollback, FromNames;
    OthersAppend(p.archiveEntries, es, d.promoted);
    OthersAll(p.archiveEntries, d.promoted);
    NoneElsewhere(es, d.promoted);
    if Promotion.Rollback(p, w, d, probe).1.Finished? {
      RollbackCounts(p, w, d, probe);
    }
  }

  lemma {:induction false} NoneElsewhere(entries: seq<Entry>, names: seq<string>)
    requires forall e :: e in entries ==> FromNames(e, names)
    ensures Others(entries, names) == 0
    decreases |entries|
  {
    hide FromNames;
    if entries != [] {
      assert entries[0] in entries && forall e :: e in entries[1..] ==> e in entries;
      NoneElsewhere(entries[1..], names);
    }
  }

  /** An entry that came from a promoted name and whose archive name another one claims is never restored. */
  lemma ClaimedRefused<C>(p: Promotion.Plan<C>, w: Promotion.World<C>, m: Move, x: Entry, d: Promotion.Listings, probe: Promotion.Probe)
    requires Claimed(Listing(w.ledger.manifest), d.promoted, m, x)
    ensures !Promotion.Rollback(p, w, d, probe).1.Finished?
  {
    hide Promotion.Rollback, Claimed, Selected, RestoreAll;
    if Promotion.Rollback(p, w, d, probe).1.Finished? {
      var w1 := RollbackRuns(p, w, d, probe);
      ClaimedBlocks(w1.ledger, d.promoted, m, x);
    }
  }

  /** An event that archives imports only, and restores nothing else. */
  ghost predicate OwnPromotion<C>(p: Promotion.Plan<C>, w: Promotion.World<C>, e: PromotionRuns.Event<C>) {
    match e
    case Archiving(n, _, _, _) => n in p.imports
    case Rolling(op, fault, _) => op.RestoreArchived? ==> OwnStep(w.ledger, Return(op.selector, fault), p.imports)
    case _ => true
  }

  ghost predicate OwnPromotions<C>(b: Ledger<C>, p: Promotion.Plan<C>, w: Promotion.World<C>, run: seq<PromotionRuns.Event<C>>)
    requires PromotionRuns.PossibleRun(b, p, w, run)
    decreases |run|
  {
    run == [] || (OwnPromotion(p, w, run[0]) && OwnPromotions(b, p, PromotionRuns.Happen(b, p, w, run[0]), run[1..]))
  }

  /** The imports are recorded, and stay so. */
  ghost predicate Recorded<C>(p: Promotion.Plan<C>, w: Promotion.World<C>) {
    w.promoted == Promotion.ImportNames(p) && w.next > |p.imports|
  }

  lemma PromotionSteps<C>(b: Ledger<C>, p: Promotion.Plan<C>, w: Promotion.World<C>, e: PromotionRuns.Event<C>) returns (step: Step)
    requires PromotionRuns.Possible(b, p, w, e) && OwnPromotion(p, w, e) && Recorded(p, w)
    ensures var w' := PromotionRuns.Happen(b, p, w, e);
            && Recorded(p, w')
            && (w'.ledger.manifest == w.ledger.manifest
                || (OwnStep(w.ledger, step, p.imports) && w'.ledger.manifest == Do(w.ledger, step).0.manifest))
  {
    hide Promotion.Act, Promotion.Script, Promotion.Advance, AfterRestore, AfterQuarantine, SoleMatch, ClashFree, PromotionRuns.OfRollback,
      PromotionRuns.Spoilt, Promotion.ImportNames;
    step := Return("", Clean);
    match e
    case Promote =>
      PromotionRuns.ScriptAt(p, w.next);
      AdvanceRecorded(p, w, Promotion.Script(p)[w.next]);
    case Archiving(n, reason, movedAt, fault) => step := Take([n], reason, movedAt, fault);
    case Rolling(op, fault, _) =>
      if op.RestoreArchived? {
        step := Return(op.selector, fault);
      } else {
        ActManifest(p, Promotion.Stopped(p, w), op, PromotionRuns.ANY_PROBE);
      }
    case _ =>
  }

  lemma AdvanceRecorded<C>(p: Promotion.Plan<C>, w: Promotion.World<C>, op: Promotion.Forward)
    requires op.Hold? || op.Unhold? || op.Accept?
    ensures Promotion.Advance(p, w, op).Some? ==>
              var w' := Promotion.Advance(p, w, op).value;
              w'.ledger.manifest == w.ledger.manifest && w'.promoted == w.promoted && w'.next == w.next + 1
  {
    hide ActivePool, ManifestBytes;
  }

  lemma {:induction false} OwnPromotionsKeep<C>(b: Ledger<C>, p: Promotion.Plan<C>, w: Promotion.World<C>, run: seq<PromotionRuns.Event<C>>)
    requires PromotionRuns.PossibleRun(b, p, w, run) && OwnPromotions(b, p, w, run) && Recorded(p, w)
    ensures var w' := PromotionRuns.Follow(b, p, w, run);
            && Recorded(p, w')
            && Others(Listing(w'.ledger.manifest), p.imports) == Others(Listing(w.ledger.manifest), p.imports)
            && forall m, x {:trigger Claimed(Listing(w'.ledger.manifest), p.imports, m, x)} ::
                 Claimed(Listing(w.ledger.manifest), p.imports, m, x) ==> Claimed(Listing(w'.ledger.manifest), p.imports, m, x)
    decreases |run|
  {
    hide OwnPromotion, OwnStep, PromotionRuns.Happen, PromotionRuns.Possible, Do, Claimed, Recorded;
    if run != [] {
      var step := PromotionSteps(b, p, w, run[0]);
      var mid := PromotionRuns.Happen(b, p, w, run[0]);
      if mid.ledger.manifest != w.ledger.manifest {
        OwnStepKeeps(w.ledger, step, p.imports);
        forall m, x | Claimed(Listing(w.ledger.manifest), p.imports, m, x) ensures Claimed(Listing(mid.ledger.manifest), p.imports, m, x) {
          ClaimedStays(w.ledger, step, p.imports, m, x);
        }
      }
      OwnPromotionsKeep(b, p, mid, run[1..]);
    }
  }

  /**
   Once the imports are recorded, an entry of the baseline archive that came from one of
   their names, or one that claims the archive name of one of their entries, keeps every
   rollback from being accepted, whatever happens.  Any ledger will do for `b`; with an
   empty one no restore is excluded from the run.
   */
  lemma RecordedForever<C>(b: Ledger<C>, p: Promotion.Plan<C>, w: Promotion.World<C>, run: seq<PromotionRuns.Event<C>>,
                           d: Promotion.Listings, probe: Promotion.Probe)
    requires PromotionRuns.PossibleRun(b, p, w, run) && OwnPromotions(b, p, w, run) && Recorded(p, w)
    requires Promotion.ListsOf(p, PromotionRuns.Follow(b, p, w, run), d) && p.imports != []
    requires Others(Listing(w.ledger.manifest), p.imports) != Promotion.ExpectedArchive(p)
             || exists m, x :: Claimed(Listing(w.ledger.manifest), p.imports, m, x)
    ensures !Promotion.Rollback(p, PromotionRuns.Follow(b, p, w, run), d, probe).1.Finished?
  {
    hide Promotion.Rollback, OwnPromotions, PromotionRuns.PossibleRun, PromotionRuns.Follow, FromNames;
    OwnPromotionsKeep(b, p, w, run);
    var w' := PromotionRuns.Follow(b, p, w, run);
    ListsImports(p, w', d);
    var entries := Listing(w'.ledger.manifest);
    SameNames(entries, p.imports, d.promoted);
    if m, x :| Claimed(Listing(w.ledger.manifest), p.imports, m, x) {
      assert Claimed(entries, p.imports, m, x);
      ClaimedSame(entries, p.imports, d.promoted, m, x);
      ClaimedRefused(p, w', m, x, d, probe);
    } else if Promotion.Rollback(p, w', d, probe).1.Finished? {
      RollbackCounts(p, w', d, probe);
    }
  }

  lemma ListsImports<C>(p: Promotion.Plan<C>, w: Promotion.World<C>, d: Promotion.Listings)
    requires Recorded(p, w) && Promotion.ListsOf(p, w, d) && p.imports != []
    ensures forall n :: n in d.promoted <==> n in p.imports
  {
    assert p.imports[0] in Promotion.ImportNames(p);
  }

  lemma {:induction false} SameNames(entries: seq<Entry>, names: seq<string>, others: seq<string>)
    requires forall n :: n in others <==> n in names
    ensures Others(entries, others) == Others(entries, names)
    decreases |entries|
  {
    if entries != [] {
      SameNames(entries[1..], names, others);
    }
  }

  lemma ClaimedSame(entries: seq<Entry>, names: seq<string>, others: seq<string>, m: Move, x: Entry)
    requires forall n :: n in others <==> n in names
    ensures Claimed(entries, names, m, x) ==> Claimed(entries, others, m, x)
  {}

  /** The restores of a rollback that dies or is refused anywhere are such a run. */
  lemma {:induction false} RestoresOwn<C>(b: Ledger<C>, p: Promotion.Plan<C>, w: Promotion.World<C>, probe: Promotion.Probe)
    returns (count: nat)
    requires Listing(b.manifest) == [] && w.next == Promotion.Steps(p) && w.ready && forall n :: n in w.halfMade ==> [n] in w.ledger.auth
    ensures var ops := Promotion.Restores(Selected(Listing(w.ledger.manifest), p.imports));
            && count <= |ops| && PromotionRuns.PossibleRun(b, p, w, PromotionRuns.Performing(ops[..count]))
            && OwnPromotions(b, p, w, PromotionRuns.Performing(ops[..count]))
            && Promotion.Exec(p, w, ops, probe).0 == PromotionRuns.Follow(b, p, w, PromotionRuns.Performing(ops[..count]))
    decreases |Selected(Listing(w.ledger.manifest), p.imports)|
  {
    hide AfterRestore, OwnStep, Selected, PromotionRuns.Spoilt;
    var selectors := Selected(Listing(w.ledger.manifest), p.imports);
    var ops := Promotion.Restores(selectors);
    if selectors == [] {
      return 0;
    }
    var q := selectors[0];
    FirstOwn(w.ledger, p.imports, Clean);
    RestoreKeepsCopies(p, w, q);
    var after := AfterRestore(w.ledger, q, Clean).0;
    count := 0;
    if AfterRestore(w.ledger, q, Clean).1.Moved? {
      count := RestoresOwn(b, p, w.(ledger := after), probe);
    }
    count := count + 1;
    assert PromotionRuns.Performing<C>(ops[..count])[0] == PromotionRuns.Rolling(Promotion.RestoreArchived(q), Clean, false);
    assert PromotionRuns.Performing<C>(ops[..count])[1..] == PromotionRuns.Performing(Promotion.Restores(selectors[1..])[..count - 1]);
  }

  lemma RestoreKeepsCopies<C>(p: Promotion.Plan<C>, w: Promotion.World<C>, q: string)
    requires forall n :: n in w.halfMade ==> [n] in w.ledger.auth
    ensures PromotionRuns.Spoilt(p, w, AfterRestore(w.ledger, q, Clean).0, false) == w.halfMade
    ensures forall n :: n in w.halfMade ==> [n] in AfterRestore(w.ledger, q, Clean).0.auth
  {
    hide AfterRestore;
    RefusedUnchanged(w.ledger, q);
    if AfterRestore(w.ledger, q, Clean).1.Moved? {
      var i := RestoreRemoves(w.ledger, q);
    }
  }
}
