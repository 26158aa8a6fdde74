/** What ends a recovery or a rollback in any state, reachable or not: the checks one by one. */
module Refusals {
  import opened Wrappers
  import opened QuarantineLedger
  import opened ArchivedBatch
  import opened LedgerLaws
  import opened LedgerAnswers
  import opened PoolFiles
  import LiveTransaction
  import Promotion

  /** The active pool, as files of the auth tree. */
  ghost predicate PoolIs<C>(auth: map<Rel, C>, names: set<string>) {
    forall n :: [n] in auth && IsJson(n) <==> n in names
  }

  lemma PoolSame<C>(auth: map<Rel, C>, names: set<string>)
    ensures ActivePool(auth) == names <==> PoolIs(auth, names)
  {
    hide ActivePool;
    forall n ensures n in ActivePool(auth) <==> [n] in auth && IsJson(n) {
      PoolMember(auth, n);
    }
    if PoolIs(auth, names) {
      assert ActivePool(auth) == names;
    }
  }

  /** The archive names a recovery restores are those of the entries that came from a named file at the top of the tree. */
  lemma {:induction false} SelectedIff(entries: seq<Entry>, names: seq<string>, q: string)
    ensures q in Selected(entries, names) <==>
              exists e :: e in entries && e.Modern? && !e.absolute && (exists n :: n in names && e.parts == [n]) && e.quarantineName == q
    decreases |entries|
  {
    if entries != [] {
      SelectedIff(entries[1..], names, q);
      var e := entries[0];
      assert forall f :: f in entries <==> f == e || f in entries[1..];
      assert FromNames(e, names) <==> e.Modern? && !e.absolute && exists n :: n in names && e.parts == [n] by {
        if e.Modern? && |e.parts| == 1 && e.parts[0] in names {
          assert e.parts == [e.parts[0]];
        }
      }
    }
  }

  // ---------------------------------------------------------------- the live transaction

  /** The last checks of a live recovery: each verdict if and only if its condition holds and none before it. */
  lemma LiveChecks<C>(p: LiveTransaction.Plan<C>, w: LiveTransaction.World<C>, probe: LiveTransaction.Probe)
    ensures var (after, verdict) := LiveTransaction.Act(p, w, LiveTransaction.Conclude, probe);
            var same := probe.service == p.service && PoolIs(w.ledger.auth, {p.activeName});
            var read := w.ledger.manifest.Listed? && ManifestBytes(w.ledger.manifest.entries) <= 4194304;
            && (verdict == LiveTransaction.Rejected(LiveTransaction.CanaryFailed) <==> !probe.gatewayAnswers)
            && (verdict == LiveTransaction.Rejected(LiveTransaction.ArchiveInvalid) <==> probe.gatewayAnswers && same && !read)
            && (verdict == LiveTransaction.Rejected(LiveTransaction.NotBaseline) <==>
                  probe.gatewayAnswers && (!same || (read && |w.ledger.manifest.entries| != p.archiveCount)))
            && (verdict == LiveTransaction.Rejected(LiveTransaction.ReceiptsRemain) <==>
                  probe.gatewayAnswers && same && read && |w.ledger.manifest.entries| == p.archiveCount && exists r :: r in w.failure && IsJson(r))
            && (verdict.Finished? || verdict.why in {LiveTransaction.CanaryFailed, LiveTransaction.ArchiveInvalid,
                                                     LiveTransaction.NotBaseline, LiveTransaction.ReceiptsRemain})
            && after == (if verdict.Finished? then w.(phase := LiveTransaction.Recovered) else w)
  {
    hide ManifestBytes, ActivePool;
    PoolSame(w.ledger.auth, {p.activeName});
    assert JsonKeys(w.failure) == {} <==> !exists r :: r in w.failure && IsJson(r) by {
      assert forall r :: r in JsonKeys(w.failure) <==> r in w.failure && IsJson(r);
    }
  }

  lemma LiveKeepsDirs<C>(p: LiveTransaction.Plan<C>, w: LiveTransaction.World<C>, op: LiveTransaction.Op, probe: LiveTransaction.Probe)
    ensures LiveTransaction.Act(p, w, op, probe).0.ledger.dirs == w.ledger.dirs
  {
    hide AfterRestore, LiveTransaction.Final;
    if op.RestoreArchived? {
      var i := RestoreLaw(w.ledger, op.selector, Clean);
    }
  }

  lemma {:induction false} LiveStops<C>(p: LiveTransaction.Plan<C>, w: LiveTransaction.World<C>, ops: seq<LiveTransaction.Op>,
                                        probe: LiveTransaction.Probe, c: string)
    requires [c] in w.ledger.dirs && LiveTransaction.Unlink(c) in ops
    requires forall i :: 0 <= i < |ops| && ops[i] == LiveTransaction.Conclude ==> LiveTransaction.Unlink(c) in ops[..i]
    ensures LiveTransaction.Exec(p, w, ops, probe).1.Rejected?
    decreases |ops|
  {
    hide LiveTransaction.Act;
    assert ops[..0] == [];
    LiveUnlinks(p, w, ops[0], probe, c);
    LiveKeepsDirs(p, w, ops[0], probe);
    var (after, verdict) := LiveTransaction.Act(p, w, ops[0], probe);
    if verdict.Going? {
      forall i | 0 <= i < |ops[1..]| && ops[1..][i] == LiveTransaction.Conclude ensures LiveTransaction.Unlink(c) in ops[1..][..i] {
        assert ops[..i + 1] == [ops[0]] + ops[1..][..i];
      }
      LiveStops(p, after, ops[1..], probe, c);
    }
  }

  lemma LiveUnlinks<C>(p: LiveTransaction.Plan<C>, w: LiveTransaction.World<C>, op: LiveTransaction.Op, probe: LiveTransaction.Probe, c: string)
    requires [c] in w.ledger.dirs
    ensures var verdict := LiveTransaction.Act(p, w, op, probe).1;
            (op == LiveTransaction.Unlink(c) ==> verdict == LiveTransaction.Rejected(LiveTransaction.UnsafePath))
            && (!op.Conclude? ==> !verdict.Finished?)
  {
    hide AfterRestore, LiveTransaction.Final;
  }

  /** A canary whose place is a directory keeps a live recovery from being accepted; the directory stays. */
  lemma DirectoryRefusesRecovery<C>(p: LiveTransaction.Plan<C>, w: LiveTransaction.World<C>, d: LiveTransaction.Listings,
                                    probe: LiveTransaction.Probe, c: string)
    requires !w.phase.Recovered? && c in p.canaries && [c] in w.ledger.dirs
    ensures LiveTransaction.Recover(p, w, d, probe).1.Rejected?
  {
    hide LiveTransaction.Exec, LiveTransaction.Restores, LiveTransaction.Unlinks, LiveTransaction.SiftReceipts, LiveTransaction.SiftSweeps,
      LiveTransaction.PutBacks, Selected;
    var rs := LiveTransaction.Restores(Selected(Listing(w.ledger.manifest), p.canaries));
    var us := LiveTransaction.Unlinks(p.canaries);
    var front := [LiveTransaction.ReadArchive] + rs;
    var rest := LiveTransaction.SiftReceipts(d.receipts) + (LiveTransaction.SiftSweeps(d.sweep)
                  + (LiveTransaction.PutBacks(p.sweepNames) + [LiveTransaction.PutBackActive, LiveTransaction.Conclude]));
    var ops := LiveTransaction.Recovery(p, w.ledger.manifest, d);
    assert ops == front + us + rest;
    assert forall i :: 0 <= i < |front| ==> ops[i] == front[i];
    assert forall i :: |front| <= i < |front| + |us| ==> ops[i] == us[i - |front|];
    var j :| 0 <= j < |p.canaries| && p.canaries[j] == c;
    assert us[j] == LiveTransaction.Unlink(c) && ops[|front| + j] == us[j];
    forall i | 0 <= i < |ops| && ops[i] == LiveTransaction.Conclude ensures LiveTransaction.Unlink(c) in ops[..i] {
      assert i >= |front| + |us|;
      assert ops[..i][|front| + j] == LiveTransaction.Unlink(c);
    }
    LiveStops(p, LiveTransaction.Stopped(p, w), ops, probe, c);
  }

  // ---------------------------------------------------------------- the promotion

  /** An import adds its file and nothing else, and is refused if and only if there is nothing to import or its place is taken. */
  lemma ImportLaw<C>(p: Promotion.Plan<C>, w: Promotion.World<C>, n: string)
    ensures var after := Promotion.Advance(p, w, Promotion.Import(n));
            && (after.None? <==> n !in p.contents || [n] in w.ledger.auth)
            && (after.Some? ==>
                  && (forall k :: k in after.value.ledger.auth <==> k in w.ledger.auth || k == [n])
                  && (forall k :: k in w.ledger.auth ==> after.value.ledger.auth[k] == w.ledger.auth[k])
                  && after.value.ledger.auth[[n]] == p.contents[n]
                  && after.value == w.(ledger := w.ledger.(auth := after.value.ledger.auth), next := w.next + 1))
  {}

  /** The archive can be read: it is listed, at most 64 KiB, and every entry is an object. */
  predicate ArchiveReads(m: Manifest) {
    m.Listed? && ManifestBytes(m.entries) <= 65536 && forall e :: e in m.entries ==> !e.NotAnObject?
  }

  /** The last checks of a rollback: each verdict if and only if its condition holds and none before it. */
  lemma RollbackChecks<C>(p: Promotion.Plan<C>, w: Promotion.World<C>, probe: Promotion.Probe)
    ensures var (after, verdict) := Promotion.Act(p, w, Promotion.Conclude, probe);
            var same := probe.service == p.service && PoolIs(w.ledger.auth, set n | n in p.names);
            var read := ArchiveReads(w.ledger.manifest);
            && (verdict == Promotion.Rejected(Promotion.BehaviourChanged) <==> !probe.baselineBehaves)
            && (verdict == Promotion.Rejected(Promotion.ArchiveInvalid) <==> probe.baselineBehaves && same && !read)
            && (verdict == Promotion.Rejected(Promotion.PoolStateChanged) <==>
                  probe.baselineBehaves && (same ==> read) && probe.poolState != p.poolState)
            && (verdict.Finished? <==>
                  && probe.baselineBehaves && same && read && probe.poolState == p.poolState && w.failure == p.failure
                  && |w.ledger.manifest.entries| == |p.archiveEntries| > 0)
            && (verdict.Finished? || verdict.why in {Promotion.BehaviourChanged, Promotion.ArchiveInvalid, Promotion.PoolStateChanged, Promotion.NotRestored})
            && after == (if verdict.Finished? then w.(phase := Promotion.Recovered) else w)
  {
    hide ManifestBytes, ActivePool;
    PoolSame(w.ledger.auth, set n | n in p.names);
  }

  /** What a rollback takes for promoted: what the manifest records, or everything new in the pool and in the archive. */
  lemma PromotedIff<C>(p: Promotion.Plan<C>, w: Promotion.World<C>, n: string)
    ensures w.promoted != {} ==> (n in Promotion.Promoted(p, w) <==> n in w.promoted)
    ensures w.promoted == {} ==>
              (n in Promotion.Promoted(p, w) <==>
                 || ([n] in w.ledger.auth && IsJson(n) && n !in p.names)
                 || (exists e :: e in Listing(w.ledger.manifest) && e !in p.archiveEntries && e.Modern? && !e.absolute && e.parts == [n]))
  {
    hide ActivePool;
    PoolMember(w.ledger.auth, n);
    if e :| e in Listing(w.ledger.manifest) && e !in p.archiveEntries && e.Modern? && !e.absolute && e.parts == [n] {
      assert n in Promotion.NewSources(Listing(w.ledger.manifest), p.archiveEntries);
    }
    if n in Promotion.NewSources(Listing(w.ledger.manifest), p.archiveEntries) {
      var e :| e in Listing(w.ledger.manifest) && e !in p.archiveEntries && e.Modern? && !e.absolute && |e.parts| == 1 && e.parts[0] == n;
      assert e.parts == [n];
    }
  }

  lemma RollbackKeepsDirs<C>(p: Promotion.Plan<C>, w: Promotion.World<C>, op: Promotion.Op, probe: Promotion.Probe)
    ensures Promotion.Act(p, w, op, probe).0.ledger.dirs == w.ledger.dirs
  {
    hide AfterRestore, Promotion.Final, Promotion.Promoted, Promotion.Archive;
    if op.RestoreArchived? {
      var i := RestoreLaw(w.ledger, op.selector, Clean);
    }
  }

  lemma RollbackRemoves<C>(p: Promotion.Plan<C>, w: Promotion.World<C>, op: Promotion.Op, probe: Promotion.Probe, n: string)
    requires [n] in w.ledger.dirs
    ensures var verdict := Promotion.Act(p, w, op, probe).1;
            (op == Promotion.RemovePromoted(n) ==> verdict == Promotion.Rejected(Promotion.UnsafePath))
            && (!op.Conclude? ==> !verdict.Finished?)
  {
    hide AfterRestore, Promotion.Final, Promotion.Promoted, Promotion.Archive;
  }

  lemma {:induction false} RollbackStops<C>(p: Promotion.Plan<C>, w: Promotion.World<C>, ops: seq<Promotion.Op>, probe: Promotion.Probe, n: string)
    requires [n] in w.ledger.dirs && Promotion.RemovePromoted(n) in ops
    requires forall i :: 0 <= i < |ops| && ops[i] == Promotion.Conclude ==> Promotion.RemovePromoted(n) in ops[..i]
    ensures Promotion.Exec(p, w, ops, probe).1.Rejected?
    decreases |ops|
  {
    hide Promotion.Act;
    assert ops[..0] == [];
    RollbackRemoves(p, w, ops[0], probe, n);
    RollbackKeepsDirs(p, w, ops[0], probe);
    var (after, verdict) := Promotion.Act(p, w, ops[0], probe);
    if verdict.Going? {
      forall i | 0 <= i < |ops[1..]| && ops[1..][i] == Promotion.Conclude ensures Promotion.RemovePromoted(n) in ops[1..][..i] {
        assert ops[..i + 1] == [ops[0]] + ops[1..][..i];
      }
      RollbackStops(p, after, ops[1..], probe, n);
    }
  }

  /** A promoted name whose place is a directory keeps a rollback from being accepted. */
  lemma DirectoryRefusesRollback<C>(p: Promotion.Plan<C>, w: Promotion.World<C>, d: Promotion.Listings, probe: Promotion.Probe, n: string)
    requires n in d.promoted && [n] in w.ledger.dirs
    ensures Promotion.Rollback(p, w, d, probe).1.Rejected?
  {
    hide Promotion.Exec, Promotion.Restores, Promotion.Removes, Promotion.Sifts, Promotion.PutBacks, Selected;
    var front := Promotion.Opening(p) + Promotion.Restores(Selected(Listing(w.ledger.manifest), d.promoted));
    var rs := Promotion.Removes(d.promoted);
    var rest := Promotion.Sifts(d.receipts) + [Promotion.MoveTrigger, Promotion.Conclude];
    var ops := Promotion.RollbackOps(p, w, d);
    assert ops == front + rs + rest;
    assert forall i :: 0 <= i < |front| ==> ops[i] == front[i];
    assert forall i :: |front| <= i < |front| + |rs| ==> ops[i] == rs[i - |front|];
    var j :| 0 <= j < |d.promoted| && d.promoted[j] == n;
    assert rs[j] == Promotion.RemovePromoted(n) && ops[|front| + j] == rs[j];
    forall i | 0 <= i < |ops| && ops[i] == Promotion.Conclude ensures Promotion.RemovePromoted(n) in ops[..i] {
      assert i >= |front| + |rs|;
      assert ops[..i][|front| + j] == Promotion.RemovePromoted(n);
    }
    RollbackStops(p, Promotion.Stopped(p, w), ops, probe, n);
  }
}
