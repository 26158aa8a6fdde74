/** Why the live transaction can be recovered from every point, and exactly where it cannot. */
module LiveRecovery {
  import opened Wrappers
  import opened ArchiveNames
  import opened QuarantineLedger
  import opened LedgerLaws
  import opened ArchivedBatch
  import opened PoolFiles
  import opened LiveTransaction
  import opened LiveRuns

  // ---------------------------------------------------------------- interrupted recoveries are runs

  /** The events of a recovery that performs these operations one after another. */
  function Performing<C>(ops: seq<Op>): (run: seq<Event<C>>)
    ensures |run| == |ops|
  {
    seq(|ops|, i requires 0 <= i < |ops| => Recovering(ops[i], Clean))
  }

  /** A recovery that dies after any number of operations, or ends with a refusal, is a run of such events. */
  lemma {:induction false} ExecIsRun<C>(b: Ledger<C>, p: Plan<C>, w: World<C>, ops: seq<Op>, probe: Probe) returns (count: nat)
    requires w.next == Steps(p) && forall op :: op in ops ==> OfRecovery(b, p, op)
    ensures count <= |ops| && PossibleRun(b, p, w, Performing(ops[..count]))
    ensures Exec(p, w, ops, probe).0 == Follow(p, w, Performing(ops[..count]))
    decreases |ops|
  {
    hide OfRecovery, Act;
    if ops == [] {
      return 0;
    }
    var op := ops[0];
    assert op in ops && forall o :: o in ops[1..] ==> o in ops;
    ActIsEvent(b, p, w, op, probe);
    var (mid, verdict) := Act(p, w, op, probe);
    count := 0;
    if verdict.Going? {
      count := ExecIsRun(b, p, mid, ops[1..], probe);
    }
    count := count + 1;
    assert Performing<C>(ops[..count])[0] == Recovering(op, Clean);
    assert Performing<C>(ops[..count])[1..] == Performing(ops[1..][..count - 1]);
  }

  lemma ActIsEvent<C>(b: Ledger<C>, p: Plan<C>, w: World<C>, op: Op, probe: Probe)
    requires w.next == Steps(p) && OfRecovery(b, p, op)
    ensures Act(p, w, op, probe).0 == Happen(p, w, Recovering(op, Clean)) && Act(p, w, op, probe).0.next == Steps(p)
    ensures Possible(b, p, w, Recovering(op, Clean))
  {
    assert Stopped(p, w) == w;
  }

  /** The archive names that a recovery restores are those of new entries. */
  lemma SelectedUnclaimed<C>(b: Ledger<C>, p: Plan<C>, l: Ledger<C>, es: seq<Move>)
    requires Baseline(b, p) && Grown(b, l, Batch(p), es)
    ensures forall q :: q in Selected(Listing(l.manifest), p.canaries) ==> Unclaimed(Listing(b.manifest), q)
  {
    hide ClashFree, Unclaimed, Readable, ActivePool, FromNames;
    forall q | q in Selected(Listing(l.manifest), p.canaries) ensures Unclaimed(Listing(b.manifest), q) {
      var e := SelectedFrom(Listing(l.manifest), p.canaries, q);
      assert e in b.manifest.entries || e in es;
    }
  }

  lemma RestoresFit<C>(b: Ledger<C>, p: Plan<C>, selectors: seq<string>)
    requires forall q :: q in selectors ==> Unclaimed(Listing(b.manifest), q)
    ensures forall op :: op in Restores(selectors) ==> OfRecovery(b, p, op)
  {
    hide Unclaimed;
    var r := Restores(selectors);
    forall op | op in r ensures OfRecovery(b, p, op) {
      var i :| 0 <= i < |r| && r[i] == op;
      assert selectors[i] in selectors;
    }
  }

  lemma CleanupFits<C>(b: Ledger<C>, p: Plan<C>, d: Listings) returns (front: seq<Op>)
    ensures Cleanup(p, d) == front + [Conclude] && forall op :: op in front ==> OfRecovery(b, p, op) && !op.RestoreArchived?
  {
    hide Unlinks, SiftReceipts, SiftSweeps, PutBacks;
    var u, f, s, k := Unlinks(p.canaries), SiftReceipts(d.receipts), SiftSweeps(d.sweep), PutBacks(p.sweepNames);
    front := u + (f + (s + (k + [PutBackActive])));
    assert Cleanup(p, d) == front + [Conclude];
    forall op | op in front ensures OfRecovery(b, p, op) && !op.RestoreArchived? {
      assert op in u || op in f || op in s || op in k || op == PutBackActive;
    }
  }

  /** All operations of a recovery but the last are of this kind. */
  lemma RecoveryFits<C>(b: Ledger<C>, p: Plan<C>, w: World<C>, es: seq<Move>, d: Listings) returns (front: seq<Op>)
    requires Baseline(b, p) && Recoverable(b, p, w, es)
    ensures Recovery(p, w.ledger.manifest, d) == front + [Conclude] && forall op :: op in front ==> OfRecovery(b, p, op)
  {
    hide Baseline, Unclaimed, Cleanup, Restores, Grown, Selected, Batch, OfRecovery;
    SelectedUnclaimed(b, p, w.ledger, es);
    var r := Restores(Selected(Listing(w.ledger.manifest), p.canaries));
    RestoresFit(b, p, Selected(Listing(w.ledger.manifest), p.canaries));
    var last := CleanupFits(b, p, d);
    front := [ReadArchive] + (r + last);
    assert Recovery(p, w.ledger.manifest, d) == front + [Conclude];
    assert OfRecovery(b, p, ReadArchive) by { ReadFits(b, p); }
    forall op | op in front ensures OfRecovery(b, p, op) {
      assert op == ReadArchive || op in r || op in last;
    }
  }

  lemma ReadFits<C>(b: Ledger<C>, p: Plan<C>)
    ensures OfRecovery(b, p, ReadArchive)
  {}

  /** Dying after any number of operations keeps the transaction recoverable. */
  lemma PartlyKeeps<C>(b: Ledger<C>, p: Plan<C>, w: World<C>, es: seq<Move>, d: Listings, count: nat, probe: Probe)
    returns (run: seq<Event<C>>, es': seq<Move>)
    requires Baseline(b, p) && Recoverable(b, p, w, es) && count < |Recovery(p, w.ledger.manifest, d)|
    ensures PossibleRun(b, p, Stopped(p, w), run) && forall e :: e in run ==> e.Recovering? && e.cut.Clean?
    ensures Exec(p, Stopped(p, w), Recovery(p, w.ledger.manifest, d)[..count], probe).0 == Follow(p, Stopped(p, w), run)
    ensures Recoverable(b, p, Follow(p, Stopped(p, w), run), es')
  {
    hide Baseline, Exec, OfRecovery, Recovery, PossibleRun, Follow, Recoverable;
    var front := RecoveryFits(b, p, w, es, d);
    var ops := Recovery(p, w.ledger.manifest, d)[..count];
    assert forall op :: op in ops ==> op in front;
    var n := ExecIsRun(b, p, Stopped(p, w), ops, probe);
    run := Performing(ops[..n]);
    StoppedRecoverable(b, p, w, es);
    es' := RunKeeps(b, p, Stopped(p, w), es, run);
  }

  lemma StoppedRecoverable<C>(b: Ledger<C>, p: Plan<C>, w: World<C>, es: seq<Move>)
    requires Recoverable(b, p, w, es)
    ensures Recoverable(b, p, Stopped(p, w), es)
  {
    hide Grown, TreeKept;
  }

  lemma OneOp<C>(p: Plan<C>, w: World<C>, op: Op, probe: Probe)
    ensures Exec(p, w, [op], probe) == Act(p, w, op, probe)
  {
    hide Act;
    assert [op][1..] == [];
  }

  /** Only the last operation can finish a recovery. */
  lemma {:induction false} FrontGoes<C>(b: Ledger<C>, p: Plan<C>, w: World<C>, ops: seq<Op>, probe: Probe)
    requires forall op :: op in ops ==> OfRecovery(b, p, op)
    ensures !Exec(p, w, ops, probe).1.Finished?
    decreases |ops|
  {
    if ops != [] {
      hide OfRecovery, Act;
      assert ops[0] in ops && forall op :: op in ops[1..] ==> op in ops;
      FrontGoesOn(b, p, w, ops[0], probe);
      FrontGoes(b, p, Act(p, w, ops[0], probe).0, ops[1..], probe);
    }
  }

  lemma FrontGoesOn<C>(b: Ledger<C>, p: Plan<C>, w: World<C>, op: Op, probe: Probe)
    requires OfRecovery(b, p, op)
    ensures !Act(p, w, op, probe).1.Finished?
  {
    hide AfterRestore;
  }

  /** A recovery that is refused, wherever, keeps the transaction recoverable. */
  lemma RefusedKeeps<C>(b: Ledger<C>, p: Plan<C>, w: World<C>, es: seq<Move>, d: Listings, probe: Probe) returns (left: seq<Move>)
    requires Baseline(b, p) && Recoverable(b, p, w, es) && !Recover(p, w, d, probe).1.Finished?
    ensures Recover(p, w, d, probe).1.Rejected? && Recoverable(b, p, Recover(p, w, d, probe).0, left)
  {
    hide Baseline, Exec, OfRecovery, Recovery, PossibleRun, Follow, Grown, TreeKept, SweepKept, Pending, Act;
    var w0 := Stopped(p, w);
    var front := RecoveryFits(b, p, w, es, d);
    var n := ExecIsRun(b, p, w0, front, probe);
    StoppedRecoverable(b, p, w, es);
    left := RunKeeps(b, p, w0, es, Performing(front[..n]));
    ExecAppend(p, w0, front, [Conclude], probe);
    FrontGoes(b, p, w0, front, probe);
    OneOp(p, Exec(p, w0, front, probe).0, Conclude, probe);
    ConcludeRefused(p, Exec(p, w0, front, probe).0, probe);
  }

  lemma ConcludeRefused<C>(p: Plan<C>, w: World<C>, probe: Probe)
    ensures var (w', verdict) := Act(p, w, Conclude, probe); !verdict.Going? && (!verdict.Finished? ==> w' == w)
  {}

  // ---------------------------------------------------------------- entries of the active credential

  /** Operations other than restores leave the manifest alone, so they cannot finish while it has the wrong length. */
  lemma {:induction false} LengthRefuses<C>(p: Plan<C>, w: World<C>, ops: seq<Op>, probe: Probe)
    requires |Listing(w.ledger.manifest)| != p.archiveCount && forall op :: op in ops ==> !op.RestoreArchived?
    ensures !Exec(p, w, ops, probe).1.Finished?
    decreases |ops|
  {
    if ops != [] {
      hide Act;
      assert ops[0] in ops && forall op :: op in ops[1..] ==> op in ops;
      LengthStays(p, w, ops[0], probe);
      LengthRefuses(p, Act(p, w, ops[0], probe).0, ops[1..], probe);
    }
  }

  lemma LengthStays<C>(p: Plan<C>, w: World<C>, op: Op, probe: Probe)
    requires |Listing(w.ledger.manifest)| != p.archiveCount && !op.RestoreArchived?
    ensures Act(p, w, op, probe).0.ledger.manifest == w.ledger.manifest && !Act(p, w, op, probe).1.Finished?
  {
    hide ManifestBytes, ActivePool, JsonKeys;
  }

  /** A recovery never restores the entry of the active credential, and is refused for it. */
  lemma ForeignRefused<C>(b: Ledger<C>, p: Plan<C>, w: World<C>, es: seq<Move>, d: Listings, probe: Probe)
    requires Baseline(b, p) && Recoverable(b, p, w, es) && !OwnOnly(p, es)
    ensures !Recover(p, w, d, probe).1.Finished?
  {
    hide Baseline, Exec, Cleanup, Selected, Restores, TreeKept, SweepKept, Pending, RestoreAll, ManifestBytes, Batch;
    var w0, selectors := Stopped(p, w), Selected(Listing(w.ledger.manifest), p.canaries);
    ForeignCount(b, p, w.ledger, es);
    var last := CleanupFits(b, p, d);
    RestoresRun(p, w0, selectors, probe);
    ExecAppend(p, w0, Restores(selectors), Cleanup(p, d), probe);
    ReadFirst(p, w0, Restores(selectors) + Cleanup(p, d), probe);
    if RestoreAll(w.ledger, selectors).1 {
      RestoreAllCount(w.ledger, selectors);
      LengthRefuses(p, w0.(ledger := RestoreAll(w.ledger, selectors).0), Cleanup(p, d), probe);
    }
  }

  lemma ForeignCount<C>(b: Ledger<C>, p: Plan<C>, l: Ledger<C>, es: seq<Move>)
    requires Baseline(b, p) && Grown(b, l, Batch(p), es) && !OwnOnly(p, es)
    ensures |Listing(l.manifest)| - |Selected(Listing(l.manifest), p.canaries)| > p.archiveCount
  {
    hide ClashFree, ActivePool, Readable, BatchMove, Selected;
    var m :| m in es && m.parts == [p.activeName];
    assert [p.activeName][0] == p.activeName && !FromNames(m, p.canaries);
    SelectedFewer(b.manifest.entries, es, p.canaries);
  }

  lemma ReadFirst<C>(p: Plan<C>, w: World<C>, rest: seq<Op>, probe: Probe)
    ensures Exec(p, w, [ReadArchive] + rest, probe) ==
              if Within(w.ledger.manifest, MAX_ARCHIVE_BYTES) then Exec(p, w, rest, probe) else (w, Rejected(ArchiveInvalid))
  {
    hide ManifestBytes;
    assert ([ReadArchive] + rest)[1..] == rest;
  }

  // ---------------------------------------------------------------- a whole recovery

  lemma {:induction false} ExecAppend<C>(p: Plan<C>, w: World<C>, xs: seq<Op>, ys: seq<Op>, probe: Probe)
    ensures Exec(p, w, xs + ys, probe) ==
              if Exec(p, w, xs, probe).1.Going? then Exec(p, Exec(p, w, xs, probe).0, ys, probe) else Exec(p, w, xs, probe)
    decreases |xs|
  {
    hide Act;
    if xs == [] {
      assert xs + ys == ys;
    } else {
      assert (xs + ys)[0] == xs[0] && (xs + ys)[1..] == xs[1..] + ys;
      ExecAppend(p, Act(p, w, xs[0], probe).0, xs[1..], ys, probe);
    }
  }

  lemma {:induction false} RestoresRun<C>(p: Plan<C>, w: World<C>, selectors: seq<string>, probe: Probe)
    ensures var (after, ok) := RestoreAll(w.ledger, selectors);
            Exec(p, w, Restores(selectors), probe) == (w.(ledger := after), if ok then Going else Rejected(CanaryRestoreFailed))
    decreases |selectors|
  {
    hide AfterRestore;
    if selectors != [] {
      var after := AfterRestore(w.ledger, selectors[0], Clean).0;
      assert Restores(selectors)[0] == RestoreArchived(selectors[0]) && Restores(selectors)[1..] == Restores(selectors[1..]);
      RestoresRun(p, w.(ledger := after), selectors[1..], probe);
    }
  }

  lemma {:induction false} UnlinksRun<C>(p: Plan<C>, w: World<C>, names: seq<string>, probe: Probe)
    requires forall c :: c in names ==> [c] !in w.ledger.dirs
    ensures Exec(p, w, Unlinks(names), probe) == (w.(ledger := w.ledger.(auth := w.ledger.auth - NamePaths(names))), Going)
    decreases |names|
  {
    if names == [] {
      assert NamePaths(names) == {} && w.ledger.auth - {} == w.ledger.auth;
    } else {
      var mid := w.(ledger := w.ledger.(auth := w.ledger.auth - {[names[0]]}));
      assert names[0] in names && forall c :: c in names[1..] ==> c in names;
      UnlinksRun(p, mid, names[1..], probe);
      assert NamePaths(names) == {[names[0]]} + NamePaths(names[1..]);
      MapLess(w.ledger.auth, {[names[0]]}, NamePaths(names[1..]));
    }
  }

  ghost predicate SiftedReceipts<C>(p: Plan<C>, w: World<C>, w': World<C>, names: seq<string>) {
    && w' == w.(failure := w'.failure, movedReceipts := w'.movedReceipts)
    && (forall r :: r in w'.failure <==> r in w.failure && !(r in names && w.failure[r].authFile in p.canaries))
    && (forall r :: r in w'.failure ==> w'.failure[r] == w.failure[r])
    && (forall r :: r in w.failure && r !in w'.failure ==> r in w'.movedReceipts && w'.movedReceipts[r] == w.failure[r])
    && (forall r :: r in w.movedReceipts && r !in w.failure ==> r in w'.movedReceipts && w'.movedReceipts[r] == w.movedReceipts[r])
  }

  lemma {:induction false} SiftReceiptsRun<C>(p: Plan<C>, w: World<C>, names: seq<string>, probe: Probe) returns (w': World<C>)
    ensures Exec(p, w, SiftReceipts(names), probe) == (w', Going) && SiftedReceipts(p, w, w', names)
    decreases |names|
  {
    if names == [] {
      return w;
    }
    hide SiftedReceipts, Act;
    var mid := SiftReceiptRuns(p, w, names[0], probe);
    w' := SiftReceiptsRun(p, mid, names[1..], probe);
    SiftedReceiptsStep(p, w, mid, w', names);
  }

  lemma SiftReceiptRuns<C>(p: Plan<C>, w: World<C>, r: string, probe: Probe) returns (w': World<C>)
    ensures Act(p, w, SiftReceipt(r), probe) == (w', Going) && SiftedReceipts(p, w, w', [r])
  {
    w' := Act(p, w, SiftReceipt(r), probe).0;
  }

  lemma SiftedReceiptsStep<C>(p: Plan<C>, w: World<C>, mid: World<C>, w': World<C>, names: seq<string>)
    requires names != [] && SiftedReceipts(p, w, mid, [names[0]]) && SiftedReceipts(p, mid, w', names[1..])
    ensures SiftedReceipts(p, w, w', names)
  {
    assert forall r :: r in names <==> r == names[0] || r in names[1..];
  }

  // ---------------------------------------------------------------- the watcher input

  /** Every baseline-named file that the watcher directory holds can be read. */
  ghost predicate SweepReadable<C>(p: Plan<C>, sweep: map<string, Option<C>>, names: seq<string>) {
    forall n :: n in names && n in sweep && n in p.sweep ==> sweep[n].Some?
  }

  /** The same baseline watcher files are safe, and what is no longer held is in its place. */
  ghost predicate SweepLeft<C>(p: Plan<C>, w: World<C>, w': World<C>) {
    && (forall n :: n in p.sweep ==> (FileSafe(p, w, n) <==> FileSafe(p, w', n)))
    && (forall n :: n in w'.heldSweep ==> n in w.heldSweep && w'.heldSweep[n] == w.heldSweep[n])
    && (forall n :: n in w.heldSweep && n !in w'.heldSweep ==> n in p.sweep && n in w'.sweep && w'.sweep[n] == Some(p.sweep[n]))
  }

  ghost predicate SiftedSweep<C>(p: Plan<C>, w: World<C>, w': World<C>, names: seq<string>) {
    && w' == w.(sweep := w'.sweep, movedSweep := w'.movedSweep)
    && (forall n :: n in w'.sweep <==> n in w.sweep && !(n in names && !(n in p.sweep && w.sweep[n] == Some(p.sweep[n]))))
    && (forall n :: n in w'.sweep ==> w'.sweep[n] == w.sweep[n])
    && MovedAside(w, w')
  }

  /** What is gone from the watcher input was moved aside with its content, and nothing else was. */
  ghost predicate MovedAside<C>(w: World<C>, w': World<C>) {
    && (forall n :: n in w.sweep && n !in w'.sweep ==> n in w'.movedSweep && w'.movedSweep[n] == w.sweep[n])
    && (forall n :: n in w.movedSweep && (n !in w.sweep || n in w'.sweep) ==> n in w'.movedSweep && w'.movedSweep[n] == w.movedSweep[n])
    && (forall n :: n in w'.movedSweep ==> n in w.movedSweep || (n in w.sweep && n !in w'.sweep))
  }

  /** Moving foreign watcher input aside stops at the first baseline-named file that cannot be read. */
  lemma {:induction false} SiftSweepsRun<C>(p: Plan<C>, w: World<C>, names: seq<string>, probe: Probe) returns (w': World<C>)
    ensures Exec(p, w, SiftSweeps(names), probe) == (w', if SweepReadable(p, w.sweep, names) then Going else Rejected(UnsafeFile))
    ensures SweepReadable(p, w.sweep, names) ==> SiftedSweep(p, w, w', names)
    ensures w' == w.(sweep := w'.sweep, movedSweep := w'.movedSweep) && SweepLeft(p, w, w')
    decreases |names|
  {
    if names == [] {
      return w;
    }
    hide SiftedSweep, Act, SweepLeft, SweepReadable;
    SiftSweepRuns(p, w, names[0], probe);
    SweepReadableFirst(p, w.sweep, Act(p, w, SiftSweep(names[0]), probe).0.sweep, names);
    var mid := Act(p, w, SiftSweep(names[0]), probe).0;
    w' := mid;
    if Act(p, w, SiftSweep(names[0]), probe).1.Going? {
      w' := SiftSweepsRun(p, mid, names[1..], probe);
      SweepLeftOn(p, w, mid, w');
      if SweepReadable(p, w.sweep, names) {
        SiftedSweepStep(p, w, mid, w', names);
      }
    }
  }

  lemma SweepLeftOn<C>(p: Plan<C>, w: World<C>, mid: World<C>, w': World<C>)
    requires SweepLeft(p, w, mid) && SweepLeft(p, mid, w') && w'.heldSweep == w.heldSweep == mid.heldSweep
    ensures SweepLeft(p, w, w')
  {
    hide FileSafe;
  }

  lemma SiftSweepRuns<C>(p: Plan<C>, w: World<C>, n: string, probe: Probe)
    ensures var (w', verdict) := Act(p, w, SiftSweep(n), probe);
            && verdict == (if SweepReadable(p, w.sweep, [n]) then Going else Rejected(UnsafeFile))
            && w' == w.(sweep := w'.sweep, movedSweep := w'.movedSweep) && SweepLeft(p, w, w')
            && (verdict.Going? ==> SiftedSweep(p, w, w', [n])) && (!verdict.Going? ==> w' == w)
            && (w'.sweep == w.sweep || w'.sweep == w.sweep - {n})
  {}

  lemma SweepReadableFirst<C>(p: Plan<C>, sweep: map<string, Option<C>>, after: map<string, Option<C>>, names: seq<string>)
    requires names != [] && (after == sweep || after == sweep - {names[0]})
    ensures SweepReadable(p, sweep, names) <==> SweepReadable(p, sweep, [names[0]]) && SweepReadable(p, after, names[1..])
  {
    assert forall n :: n in names <==> n == names[0] || n in names[1..];
    if SweepReadable(p, sweep, [names[0]]) && names[0] in sweep && names[0] in p.sweep {
      assert names[0] in [names[0]];
    }
  }

  lemma SiftedSweepStep<C>(p: Plan<C>, w: World<C>, mid: World<C>, w': World<C>, names: seq<string>)
    requires names != [] && SiftedSweep(p, w, mid, [names[0]]) && SiftedSweep(p, mid, w', names[1..])
    ensures SiftedSweep(p, w, w', names)
  {
    assert forall n :: n in names <==> n == names[0] || n in names[1..];
  }

  ghost predicate SweepBack<C>(p: Plan<C>, w: World<C>, w': World<C>, names: seq<string>) {
    && w' == w.(sweep := w'.sweep, heldSweep := w.heldSweep - (set n | n in names))
    && (forall n :: n in names ==> n in w'.sweep && n in p.sweep && w'.sweep[n] == Some(p.sweep[n]))
    && (forall n :: n !in names ==> (n in w'.sweep <==> n in w.sweep) && (n in w.sweep ==> w'.sweep[n] == w.sweep[n]))
  }

  /** Every watcher file that is still there is one of the baseline, unchanged. */
  ghost predicate SweepClean<C>(p: Plan<C>, w: World<C>) {
    forall n :: n in w.sweep && n in p.sweep ==> w.sweep[n] == Some(p.sweep[n])
  }

  /** The baseline watcher files that were in their places still are. */
  ghost predicate PlacesKept<C>(p: Plan<C>, w: World<C>, w': World<C>) {
    forall n :: n in p.sweep && n in w.sweep && w.sweep[n] == Some(p.sweep[n]) ==> n in w'.sweep && w'.sweep[n] == w.sweep[n]
  }

  /** These baseline watcher files are safe. */
  ghost predicate FilesSafe<C>(p: Plan<C>, w: World<C>, names: seq<string>) {
    forall n :: n in names && n in p.sweep ==> FileSafe(p, w, n)
  }

  /** Putting the baseline files back stops at the first that is not safe. */
  lemma {:induction false} PutBacksRun<C>(p: Plan<C>, w: World<C>, names: seq<string>, probe: Probe) returns (w': World<C>, verdict: Verdict)
    requires SweepClean(p, w) && Distinct(names) && forall n :: n in names ==> n in p.sweep
    ensures Exec(p, w, PutBacks(names), probe) == (w', verdict)
    ensures if FilesSafe(p, w, names) then verdict.Going? && SweepBack(p, w, w', names)
            else verdict in {Rejected(UnsafeFile), Rejected(SweepNotRestored)}
    ensures w' == w.(sweep := w'.sweep, heldSweep := w'.heldSweep) && SweepLeft(p, w, w') && PlacesKept(p, w, w')
    decreases |names|
  {
    if names == [] {
      assert w.heldSweep - {} == w.heldSweep;
      return w, Going;
    }
    hide FileSafe, FilesSafe, SweepClean, SweepLeft, PlacesKept, Act, SweepBack;
    assert names[0] in names && forall m :: m in names[1..] ==> m in names;
    var mid;
    mid, verdict := PutBackRuns(p, w, names[0], probe);
    w' := mid;
    FirstSafe(p, w, names);
    if verdict.Going? {
      w', verdict := PutBacksRun(p, mid, names[1..], probe);
      FilesSafeFirst(p, w, mid, names);
      SweepLeftTwice(p, w, mid, w');
      if FilesSafe(p, w, names) {
        SweepBackStep(p, w, mid, w', names);
      }
    }
  }

  lemma FirstSafe<C>(p: Plan<C>, w: World<C>, names: seq<string>)
    requires names != [] && names[0] in p.sweep
    ensures !FileSafe(p, w, names[0]) ==> !FilesSafe(p, w, names)
  {
    assert names[0] in names;
  }

  lemma SweepLeftTwice<C>(p: Plan<C>, w: World<C>, mid: World<C>, w': World<C>)
    requires SweepLeft(p, w, mid) && SweepLeft(p, mid, w')
    requires PlacesKept(p, w, mid) && PlacesKept(p, mid, w')
    ensures SweepLeft(p, w, w') && PlacesKept(p, w, w')
  {
    hide FileSafe;
  }

  lemma FilesSafeFirst<C>(p: Plan<C>, w: World<C>, mid: World<C>, names: seq<string>)
    requires names != [] && names[0] in p.sweep && FileSafe(p, w, names[0]) && SweepLeft(p, w, mid)
    ensures FilesSafe(p, w, names) <==> FilesSafe(p, mid, names[1..])
  {
    hide FileSafe;
    assert forall n :: n in names <==> n == names[0] || n in names[1..];
  }

  lemma PutBackRuns<C>(p: Plan<C>, w: World<C>, n: string, probe: Probe) returns (w': World<C>, verdict: Verdict)
    requires SweepClean(p, w) && n in p.sweep
    ensures Act(p, w, PutBackSweep(n), probe) == (w', verdict) && SweepClean(p, w') && SweepLeft(p, w, w') && PlacesKept(p, w, w')
    ensures FileSafe(p, w, n) ==> verdict.Going? && w' == w.(sweep := w.sweep[n := Some(p.sweep[n])], heldSweep := w.heldSweep - {n})
    ensures !FileSafe(p, w, n) ==> verdict in {Rejected(UnsafeFile), Rejected(SweepNotRestored)} && w' == w
  {
    w', verdict := Act(p, w, PutBackSweep(n), probe).0, Act(p, w, PutBackSweep(n), probe).1;
    if n in w.sweep {
      assert w.sweep[n := Some(p.sweep[n])] == w.sweep;
    }
  }

  lemma SweepBackStep<C>(p: Plan<C>, w: World<C>, mid: World<C>, w': World<C>, names: seq<string>)
    requires names != [] && Distinct(names) && names[0] in p.sweep
    requires mid == w.(sweep := w.sweep[names[0] := Some(p.sweep[names[0]])], heldSweep := w.heldSweep - {names[0]})
    requires SweepBack(p, mid, w', names[1..])
    ensures SweepBack(p, w, w', names)
  {
    HeldShrinks(w.heldSweep, names);
    assert forall n :: n in names <==> n == names[0] || n in names[1..];
    assert names[0] !in names[1..];
  }

  lemma HeldShrinks<V>(held: map<string, V>, names: seq<string>)
    requires names != []
    ensures held - {names[0]} - (set n | n in names[1..]) == held - (set n | n in names)
  {
    assert (set n | n in names) == {names[0]} + (set n | n in names[1..]);
  }

  /** Watcher files that are not the baseline's are kept aside with their contents, beside what was there before. */
  ghost predicate ForeignKept<C>(p: Plan<C>, w: World<C>, w': World<C>) {
    && (forall n :: n in w.sweep && !(n in p.sweep && w.sweep[n] == Some(p.sweep[n])) ==> n in w'.movedSweep && w'.movedSweep[n] == w.sweep[n])
    && (forall n :: n in w.movedSweep && (n in w.sweep ==> n in p.sweep && w.sweep[n] == Some(p.sweep[n])) ==>
          n in w'.movedSweep && w'.movedSweep[n] == w.movedSweep[n])
    && (forall n :: n in w'.movedSweep ==> n in w.movedSweep || n in w.sweep)
  }

  lemma ForeignMoved<C>(p: Plan<C>, w: World<C>, mid: World<C>, w': World<C>, d: seq<string>)
    requires Lists(d, w.sweep.Keys) && SiftedSweep(p, w, mid, d) && w'.movedSweep == mid.movedSweep
    ensures ForeignKept(p, w, w')
  {
    assert forall n :: n in w.sweep ==> n in w.sweep.Keys && n in d;
  }

  lemma SweepRestored<C>(p: Plan<C>, w: World<C>, mid: World<C>, w': World<C>, d: seq<string>)
    requires WellFormed(p) && Lists(d, w.sweep.Keys)
    requires SiftedSweep(p, w, mid, d) && SweepBack(p, mid, w', p.sweepNames)
    ensures w' == w.(sweep := InputOf(p), heldSweep := w.heldSweep - p.sweep.Keys, movedSweep := w'.movedSweep)
  {
    assert forall n :: n in p.sweepNames <==> n in p.sweep.Keys;
    assert forall n :: n in mid.sweep && n !in p.sweep ==> n in w.sweep.Keys && n in d;
    assert w'.sweep.Keys == p.sweep.Keys;
    assert w'.sweep == InputOf(p);
  }

  lemma SiftedClean<C>(p: Plan<C>, w: World<C>, mid: World<C>, d: seq<string>)
    requires SiftedSweep(p, w, mid, d) && Lists(d, w.sweep.Keys)
    ensures SweepClean(p, mid)
  {
    assert forall n :: n in mid.sweep ==> n in w.sweep.Keys && n in d;
  }

  /** The watcher input can be put back: what is there can be read, and every baseline file is safe. */
  ghost predicate SweepThere<C>(p: Plan<C>, w: World<C>, d: Listings) {
    SweepReadable(p, w.sweep, d.sweep) && SweepKept(p, w)
  }

  lemma AllSafe<C>(p: Plan<C>, w: World<C>, mid: World<C>)
    requires WellFormed(p) && SweepLeft(p, w, mid)
    ensures FilesSafe(p, mid, p.sweepNames) <==> SweepKept(p, w)
    ensures forall n :: n in p.sweepNames <==> n in p.sweep
  {
    hide FileSafe;
    assert forall n :: n in p.sweepNames <==> n in p.sweep.Keys;
  }

  /** Putting the watcher input back. */
  lemma SweepAll<C>(p: Plan<C>, w: World<C>, d: Listings, probe: Probe) returns (w': World<C>, verdict: Verdict)
    requires WellFormed(p) && Distinct(p.sweepNames) && Lists(d.sweep, w.sweep.Keys)
    ensures Exec(p, w, SiftSweeps(d.sweep) + PutBacks(p.sweepNames), probe) == (w', verdict)
    ensures !SweepReadable(p, w.sweep, d.sweep) ==> verdict == Rejected(UnsafeFile)
    ensures if SweepThere(p, w, d) then verdict.Going? else verdict in {Rejected(UnsafeFile), Rejected(SweepNotRestored)}
    ensures SweepThere(p, w, d) ==>
              w' == w.(sweep := InputOf(p), heldSweep := w.heldSweep - p.sweep.Keys, movedSweep := w'.movedSweep) && ForeignKept(p, w, w')
    ensures w' == w.(sweep := w'.sweep, heldSweep := w'.heldSweep, movedSweep := w'.movedSweep) && SweepLeft(p, w, w')
  {
    hide Exec, SiftedSweep, SweepBack, Lists, FileSafe, SiftSweeps, PutBacks, SweepReadable, SweepClean, WellFormed, FilesSafe, SweepKept;
    var mid := SiftSweepsRun(p, w, d.sweep, probe);
    ExecAppend(p, w, SiftSweeps(d.sweep), PutBacks(p.sweepNames), probe);
    w', verdict := mid, Rejected(UnsafeFile);
    if SweepReadable(p, w.sweep, d.sweep) {
      AllSafe(p, w, mid);
      SiftedClean(p, w, mid, d.sweep);
      w', verdict := PutBacksRun(p, mid, p.sweepNames, probe);
      if SweepKept(p, w) {
        SweepRestored(p, w, mid, w', d.sweep);
        ForeignMoved(p, w, mid, w', d.sweep);
      }
    }
  }

  // ---------------------------------------------------------------- the ledger at the end

  /** The baseline tree with the active credential as another tree has it. */
  function TreeWith<C>(b: Ledger<C>, p: Plan<C>, auth: map<Rel, C>): map<Rel, C> {
    var k := [p.activeName];
    if k in auth then b.auth[k := auth[k]] else b.auth - {k}
  }

  lemma CanariesOut<C>(b: Ledger<C>, p: Plan<C>, l: Ledger<C>, after: Ledger<C>, es: seq<Move>)
    requires Baseline(b, p) && Grown(b, l, Batch(p), es) && TreeKept(b, p, l.auth) && OwnOnly(p, es)
    requires AllBack(b, l, after, es)
    ensures after.(auth := after.auth - NamePaths(p.canaries)) == Settled(b, l, es).(auth := TreeWith(b, p, l.auth))
  {
    hide ActivePool, Placed, BatchMove, Batch;
    var left, k := after.auth - NamePaths(p.canaries), [p.activeName];
    assert k[0] == p.activeName;
    forall c | c in p.canaries ensures [c] !in b.auth && [c] in NamePaths(p.canaries) {}
    forall x | x in left ensures x in l.auth && x in b.auth {
      NamedPath(x, p.canaries);
      if x in SourcesOf(es) {
        SourceNamed(b, p, l, es, x);
      }
    }
    forall x | x in b.auth && x != k ensures x in left && left[x] == b.auth[x] {
      assert x in l.auth;
    }
    assert k !in NamePaths(p.canaries);
    assert left == TreeWith(b, p, l.auth);
  }

  /** The state a recovery leaves: the baseline, with the canary receipts moved aside. */
  ghost predicate BackToBaseline<C>(b: Ledger<C>, p: Plan<C>, w: World<C>, w': World<C>, es: seq<Move>, d: Listings) {
    && w'.ledger == Settled(b, w.ledger, es) && w'.sweep == InputOf(p)
    && w'.heldActive.None? && w'.heldSweep == w.heldSweep - p.sweep.Keys && ForeignKept(p, w, w')
    && SiftedReceipts(p, w, w.(failure := w'.failure, movedReceipts := w'.movedReceipts), d.receipts)
  }

  /** Every remaining receipt names a canary, so it can be moved aside. */
  ghost predicate OwnReceipts<C>(p: Plan<C>, w: World<C>) {
    forall r :: r in JsonKeys(w.failure) ==> w.failure[r].authFile in p.canaries
  }

  /** How a recovery that put everything back ends. */
  ghost function Judged<C>(p: Plan<C>, w: World<C>, probe: Probe): Verdict {
    if !probe.gatewayAnswers then Rejected(CanaryFailed)
    else if probe.service != p.service then Rejected(NotBaseline)
    else if OwnReceipts(p, w) then Finished
    else Rejected(ReceiptsRemain)
  }

  lemma FinalVerdict<C>(b: Ledger<C>, p: Plan<C>, w: World<C>, w': World<C>, es: seq<Move>, d: Listings, probe: Probe)
    requires Baseline(b, p) && BackToBaseline(b, p, w, w', es, d) && ListsOf(w, d)
    ensures Final(p, w', probe) == Judged(p, w, probe)
  {
    hide ClashFree, Readable, ActivePool;
    if OwnReceipts(p, w) {
      forall r ensures r !in JsonKeys(w'.failure) {
        assert r in JsonKeys(w'.failure) ==> r in w'.failure && r in JsonKeys(w.failure) && r in d.receipts;
      }
      assert JsonKeys(w'.failure) == {};
    } else {
      var r :| r in JsonKeys(w.failure) && w.failure[r].authFile !in p.canaries;
      assert r in w'.failure;
      assert r in JsonKeys(w'.failure);
    }
  }

  lemma TailRun<C>(b: Ledger<C>, p: Plan<C>, w: World<C>, s: Ledger<C>, probe: Probe) returns (w': World<C>)
    requires Baseline(b, p) && s.auth == b.auth && s.dirs == b.dirs
    requires w.ledger == s.(auth := TreeWith(b, p, w.ledger.auth))
    ensures ActiveSafe(p, w.ledger.auth, w.heldActive) ==>
              && w' == w.(ledger := s, heldActive := None)
              && Exec(p, w, [PutBackActive, Conclude], probe) ==
                   (if Final(p, w', probe).Finished? then w'.(phase := Recovered) else w', Final(p, w', probe))
    ensures !ActiveSafe(p, w.ledger.auth, w.heldActive) ==> w' == w && Exec(p, w, [PutBackActive, Conclude], probe) == (w, Rejected(ActiveNotRestored))
  {
    hide Placed, ActivePool, Final;
    w' := Act(p, w, PutBackActive, probe).0;
    assert b.auth[[p.activeName] := p.active] == b.auth;
    assert (b.auth - {[p.activeName]})[[p.activeName] := p.active] == b.auth;
    assert [PutBackActive, Conclude][1..] == [Conclude] && [Conclude][1..] == [];
  }

  /** The parts of the cleanup, each from the state that the one before leaves. */
  lemma CleanupParts<C>(p: Plan<C>, w: World<C>, w1: World<C>, w2: World<C>, d: Listings, probe: Probe)
    requires Exec(p, w, Unlinks(p.canaries), probe) == (w1, Going)
    requires Exec(p, w1, SiftReceipts(d.receipts), probe) == (w2, Going)
    ensures var (w3, verdict) := Exec(p, w2, SiftSweeps(d.sweep) + PutBacks(p.sweepNames), probe);
            Exec(p, w, Cleanup(p, d), probe) ==
              if verdict.Going? then Exec(p, w3, [PutBackActive, Conclude], probe) else (w3, verdict)
  {
    hide Exec, Unlinks, SiftReceipts, SiftSweeps, PutBacks;
    var u, f, s, k, t := Unlinks(p.canaries), SiftReceipts(d.receipts), SiftSweeps(d.sweep), PutBacks(p.sweepNames), [PutBackActive, Conclude];
    ExecAppend(p, w, u, f + (s + (k + t)), probe);
    ExecAppend(p, w1, f, s + (k + t), probe);
    Associates(s, k, t);
    ExecAppend(p, w2, s + k, t, probe);
  }

  /**
   What the cleanup leaves when the watcher input cannot be put back: everything but the
   watcher input and the active credential is back, and the same watcher files are safe.
   */
  ghost predicate HalfWay<C>(b: Ledger<C>, p: Plan<C>, w: World<C>, w': World<C>, es: seq<Move>) {
    && w'.ledger == Settled(b, w.ledger, es).(auth := TreeWith(b, p, w.ledger.auth))
    && w'.heldActive == w.heldActive && SweepLeft(p, w, w') && w'.phase == w.phase
  }

  /** What it leaves when the active credential is gone or changed: everything else is back. */
  ghost predicate AllButActive<C>(b: Ledger<C>, p: Plan<C>, w: World<C>, w': World<C>, es: seq<Move>, d: Listings) {
    && w'.ledger == Settled(b, w.ledger, es).(auth := TreeWith(b, p, w.ledger.auth)) && w'.sweep == InputOf(p)
    && w'.heldActive == w.heldActive && w'.heldSweep == w.heldSweep - p.sweep.Keys && ForeignKept(p, w, w') && w'.phase == w.phase
    && SiftedReceipts(p, w, w.(failure := w'.failure, movedReceipts := w'.movedReceipts), d.receipts)
  }

  lemma CleanupRun<C>(b: Ledger<C>, p: Plan<C>, w: World<C>, l: Ledger<C>, es: seq<Move>, d: Listings, probe: Probe)
    returns (w': World<C>)
    requires Baseline(b, p) && ListsOf(w, d) && OwnOnly(p, es)
    requires Grown(b, l, Batch(p), es) && TreeKept(b, p, l.auth)
    requires AllBack(b, l, w.ledger, es)
    ensures !SweepThere(p, w, d) ==>
              && Exec(p, w, Cleanup(p, d), probe).0 == w' && HalfWay(b, p, w.(ledger := l), w', es)
              && Exec(p, w, Cleanup(p, d), probe).1 in {Rejected(UnsafeFile), Rejected(SweepNotRestored)}
              && (!SweepReadable(p, w.sweep, d.sweep) ==> Exec(p, w, Cleanup(p, d), probe).1 == Rejected(UnsafeFile))
    ensures SweepThere(p, w, d) && !ActiveSafe(p, l.auth, w.heldActive) ==>
              Exec(p, w, Cleanup(p, d), probe) == (w', Rejected(ActiveNotRestored)) && AllButActive(b, p, w.(ledger := l), w', es, d)
    ensures SweepThere(p, w, d) && ActiveSafe(p, l.auth, w.heldActive) ==>
              && Exec(p, w, Cleanup(p, d), probe) == (if Final(p, w', probe).Finished? then w'.(phase := Recovered) else w', Final(p, w', probe))
              && BackToBaseline(b, p, w.(ledger := l), w', es, d) && w'.phase == w.phase
  {
    hide ActivePool, Placed, Exec, FileSafe, SiftedReceipts, ForeignKept, Final, SweepReadable, SweepThere, AllBack, Grown, TreeKept, KeysOf, Cleanup, Unlinks, NamePaths,
      Batch, OwnOnly, TreeWith, ActiveSafe, ListsOf;
    assert WellFormed(p) && Distinct(p.sweepNames) && Lists(d.sweep, w.sweep.Keys) by { CleanupReads(b, p, w, d); }
    var w1 := w.(ledger := w.ledger.(auth := w.ledger.auth - NamePaths(p.canaries)));
    CanariesPlaced(b, p, l, w.ledger, es);
    UnlinksRun(p, w, p.canaries, probe);
    CanariesOut(b, p, l, w.ledger, es);
    TreeWithAgain(b, p, l.auth, w.heldActive);
    var w2 := SiftReceiptsRun(p, w1, d.receipts, probe);
    SiftedFrame(p, w, w1, w2, d.receipts);
    var w3, verdict := SweepAll(p, w2, d, probe);
    assert SweepThere(p, w2, d) == SweepThere(p, w, d) by { SameThere(p, w, w2, d); }
    CleanupParts(p, w, w1, w2, d, probe);
    w' := w3;
    SweepLeftSource(p, w, w2, w', l);
    if SweepThere(p, w, d) {
      ForeignSource(p, w, w2, w3, l);
      w' := TailRun(b, p, w3, Settled(b, l, es), probe);
      SiftedSource(p, w, w.(ledger := l), w', d.receipts);
    }
  }

  lemma SameThere<C>(p: Plan<C>, w: World<C>, w': World<C>, d: Listings)
    requires w'.sweep == w.sweep && w'.heldSweep == w.heldSweep
    ensures SweepThere(p, w', d) == SweepThere(p, w, d)
  {}

  lemma SweepLeftSource<C>(p: Plan<C>, w: World<C>, w2: World<C>, w': World<C>, l: Ledger<C>)
    requires w2.sweep == w.sweep && w2.heldSweep == w.heldSweep && SweepLeft(p, w2, w')
    ensures SweepLeft(p, w.(ledger := l), w')
  {}

  lemma ForeignSource<C>(p: Plan<C>, w: World<C>, w2: World<C>, w3: World<C>, l: Ledger<C>)
    requires w2.sweep == w.sweep && w2.movedSweep == w.movedSweep && ForeignKept(p, w2, w3)
    ensures forall w': World<C> :: w'.movedSweep == w3.movedSweep ==> ForeignKept(p, w.(ledger := l), w')
  {}

  lemma CleanupReads<C>(b: Ledger<C>, p: Plan<C>, w: World<C>, d: Listings)
    requires Baseline(b, p) && ListsOf(w, d)
    ensures WellFormed(p) && Distinct(p.sweepNames) && Lists(d.sweep, w.sweep.Keys)
  {}

  lemma TreeWithAgain<C>(b: Ledger<C>, p: Plan<C>, auth: map<Rel, C>, held: Option<C>)
    ensures TreeWith(b, p, TreeWith(b, p, auth)) == TreeWith(b, p, auth)
    ensures ActiveSafe(p, TreeWith(b, p, auth), held) == ActiveSafe(p, auth, held)
  {}

  lemma CanariesPlaced<C>(b: Ledger<C>, p: Plan<C>, l: Ledger<C>, after: Ledger<C>, es: seq<Move>)
    requires Baseline(b, p) && Grown(b, l, Batch(p), es) && AllBack(b, l, after, es)
    ensures forall c :: c in p.canaries ==> [c] !in after.dirs
  {
    hide ClashFree, ActivePool, BatchMove;
  }

  lemma SiftedFrame<C>(p: Plan<C>, w: World<C>, w1: World<C>, w2: World<C>, names: seq<string>)
    requires w1 == w.(ledger := w1.ledger) && SiftedReceipts(p, w1, w2, names)
    ensures w2 == w1.(failure := w2.failure, movedReceipts := w2.movedReceipts)
    ensures SiftedReceipts(p, w, w.(failure := w2.failure, movedReceipts := w2.movedReceipts), names)
  {}

  lemma SiftedSource<C>(p: Plan<C>, w: World<C>, w0: World<C>, w': World<C>, names: seq<string>)
    requires w0.failure == w.failure && w0.movedReceipts == w.movedReceipts
    requires SiftedReceipts(p, w, w.(failure := w'.failure, movedReceipts := w'.movedReceipts), names)
    ensures SiftedReceipts(p, w0, w0.(failure := w'.failure, movedReceipts := w'.movedReceipts), names)
  {}

  /** What the gateway and the receipts must show for a recovery to be accepted. */
  ghost predicate Answers<C>(p: Plan<C>, w: World<C>, probe: Probe) {
    probe.gatewayAnswers && probe.service == p.service && OwnReceipts(p, w)
  }

  /**
   Everything that a recovery puts back is there: no entry is that of the active credential,
   the others can be restored and their manifest be read, no baseline-named watcher file is
   unreadable, and every baseline watcher file and the active credential are in their places
   or held, with their content.
   */
  ghost predicate Intact<C>(p: Plan<C>, w: World<C>, es: seq<Move>, d: Listings) {
    && OwnOnly(p, es) && Restorable(w.ledger, es) && Legible(w.ledger, es)
    && SweepThere(p, w, d) && ActiveSafe(p, w.ledger.auth, w.heldActive)
  }

  /** What a recovery does when no entry is that of the active credential. */
  lemma OwnRecovery<C>(b: Ledger<C>, p: Plan<C>, w: World<C>, es: seq<Move>, d: Listings, probe: Probe)
    returns (w': World<C>, verdict: Verdict, left: seq<Move>)
    requires Baseline(b, p) && Recoverable(b, p, w, es) && ListsOf(w, d) && OwnOnly(p, es)
    ensures Recover(p, w, d, probe) == (w', verdict)
    ensures !Legible(w.ledger, es) ==>
              && w' == Stopped(p, w)
              && verdict == Rejected(if Within(w.ledger.manifest, MAX_ARCHIVE_BYTES) then CanaryRestoreFailed else ArchiveInvalid)
    ensures Legible(w.ledger, es) && !Restorable(w.ledger, es) ==> verdict == Rejected(CanaryRestoreFailed)
    ensures !Restorable(w.ledger, es) ==> Grown(b, w'.ledger, Batch(p), left) && !Restorable(w'.ledger, left)
    ensures Restorable(w.ledger, es) && Legible(w.ledger, es) && !SweepThere(p, w, d) ==>
              && verdict in {Rejected(UnsafeFile), Rejected(SweepNotRestored)} && HalfWay(b, p, w, w', es)
              && (!SweepReadable(p, w.sweep, d.sweep) ==> verdict == Rejected(UnsafeFile))
    ensures Restorable(w.ledger, es) && Legible(w.ledger, es) && SweepThere(p, w, d) ==>
              if ActiveSafe(p, w.ledger.auth, w.heldActive) then BackToBaseline(b, p, w, w', es, d) && verdict == Judged(p, w, probe) && (verdict.Finished? <==> Answers(p, w, probe))
              else verdict == Rejected(ActiveNotRestored) && AllButActive(b, p, w, w', es, d)
    ensures verdict.Finished? <==> w'.phase.Recovered?
  {
    hide Baseline, Exec, Grown, TreeKept, ActiveSafe, Pending, Cleanup, Final, SiftedReceipts, Restores, Restorable,
      SweepReadable, SweepThere, OwnReceipts, JsonKeys, AllBack, BackToBaseline, HalfWay, AllButActive, OwnOnly, Batch, RestoreAll;
    var w0 := Stopped(p, w);
    var rs := Restores(NamesOf(es));
    BaselinePlaced(b, p);
    OwnSelects(b, p, w.ledger, es);
    ReadFirst(p, w0, rs + Cleanup(p, d), probe);
    ArchiveReads(b, p, w.ledger, es);
    left := RestoreAllIff(b, w.ledger, Batch(p), es);
    RestoresRun(p, w0, NamesOf(es), probe);
    ExecAppend(p, w0, rs, Cleanup(p, d), probe);
    var w1 := w0.(ledger := RestoreAll(w.ledger, NamesOf(es)).0);
    if !Within(w.ledger.manifest, MAX_ARCHIVE_BYTES) {
      w', verdict := w0, Rejected(ArchiveInvalid);
    } else if Restorable(w.ledger, es) && Legible(w.ledger, es) {
      SameThere(p, w, w1, d);
      var w2 := CleanupRun(b, p, w1, w.ledger, es, d, probe);
      if SweepThere(p, w, d) && ActiveSafe(p, w.ledger.auth, w.heldActive) {
        BackSource(b, p, w, w0, w2, es, d);
        FinalVerdict(b, p, w, w2, es, d, probe);
        verdict := Final(p, w2, probe);
        w' := if verdict.Finished? then w2.(phase := Recovered) else w2;
        BackPhase(b, p, w, w2, w', es, d);
      } else {
        w', verdict := w2, Exec(p, w1, Cleanup(p, d), probe).1;
        RefusedSource(b, p, w, w0, w2, es, d);
      }
    } else {
      w', verdict := w1, Rejected(CanaryRestoreFailed);
    }
  }

  lemma OwnSelects<C>(b: Ledger<C>, p: Plan<C>, l: Ledger<C>, es: seq<Move>)
    requires Baseline(b, p) && Grown(b, l, Batch(p), es) && OwnOnly(p, es)
    ensures Selected(Listing(l.manifest), p.canaries) == NamesOf(es)
  {
    hide ClashFree, ActivePool, Readable, Selected, Unclaimed, ValidParts, PlainName;
    forall m | m in es ensures FromNames(m, p.canaries) {
      assert BatchMove(b, Batch(p), m) && m.parts in SourcesOf(es) && m.parts == [m.parts[0]];
    }
    SelectedIsBatch(b.manifest.entries, es, p.canaries);
  }

  /** The baseline's own archive can be read. */
  lemma ArchiveReads<C>(b: Ledger<C>, p: Plan<C>, l: Ledger<C>, es: seq<Move>)
    requires Baseline(b, p) && Grown(b, l, Batch(p), es)
    ensures Legible(l, es) ==> Within(l.manifest, MAX_ARCHIVE_BYTES)
    ensures !Legible(l, es) ==> !Within(l.manifest, MAX_MANIFEST_BYTES)
  {
    hide ManifestBytes, Placed, BatchMove, ActivePool;
    if es == [] {
      EmptyRight(b.manifest.entries);
    }
  }

  lemma RefusedSource<C>(b: Ledger<C>, p: Plan<C>, w: World<C>, w0: World<C>, w': World<C>, es: seq<Move>, d: Listings)
    requires w0 == w.(next := w0.next)
    ensures HalfWay(b, p, w0, w', es) ==> HalfWay(b, p, w, w', es)
    ensures AllButActive(b, p, w0, w', es, d) ==> AllButActive(b, p, w, w', es, d)
  {}

  /**
   A recovery run to its end.  It is accepted if and only if everything it puts back is
   there, the gateway answers with the baseline's service and every receipt names a canary.
   Then, and even if only the answers fail, it puts back the baseline's auth tree, manifest,
   watcher input and active credential, and the archive has exactly the baseline's files and
   the orphans.  A refusal keeps the transaction recoverable.
   */
  lemma RecoveryRestores<C>(b: Ledger<C>, p: Plan<C>, w: World<C>, es: seq<Move>, d: Listings, probe: Probe)
    returns (w': World<C>, verdict: Verdict, left: seq<Move>)
    requires Baseline(b, p) && Recoverable(b, p, w, es) && ListsOf(w, d)
    ensures Recover(p, w, d, probe) == (w', verdict)
    ensures !verdict.Finished? ==> verdict.Rejected? && Recoverable(b, p, w', left)
    ensures OwnOnly(p, es) && !Restorable(w.ledger, es) ==> !Restorable(w'.ledger, left)
    ensures OwnOnly(p, es) && !(Restorable(w.ledger, es) && Legible(w.ledger, es)) ==>
              verdict == Rejected(if Legible(w.ledger, es) || Within(w.ledger.manifest, MAX_ARCHIVE_BYTES) then CanaryRestoreFailed else ArchiveInvalid)
    ensures OwnOnly(p, es) && !Legible(w.ledger, es) ==> w' == Stopped(p, w)
    ensures OwnOnly(p, es) && Restorable(w.ledger, es) && Legible(w.ledger, es) && !SweepThere(p, w, d) ==>
              && verdict in {Rejected(UnsafeFile), Rejected(SweepNotRestored)} && HalfWay(b, p, w, w', es)
              && (!SweepReadable(p, w.sweep, d.sweep) ==> verdict == Rejected(UnsafeFile))
    ensures OwnOnly(p, es) && Restorable(w.ledger, es) && Legible(w.ledger, es) && SweepThere(p, w, d)
            && !ActiveSafe(p, w.ledger.auth, w.heldActive) ==>
              verdict == Rejected(ActiveNotRestored) && AllButActive(b, p, w, w', es, d)
    ensures Intact(p, w, es, d) ==> BackToBaseline(b, p, w, w', es, d) && verdict == Judged(p, w, probe)
    ensures verdict.Finished? <==> Intact(p, w, es, d) && Answers(p, w, probe)
    ensures verdict.Finished? <==> w'.phase.Recovered?
  {
    hide Baseline, Recover, Grown, TreeKept, Pending, Restorable, SweepReadable, SweepThere, Legible, OwnOnly, ActiveSafe, Answers,
      BackToBaseline, HalfWay, AllButActive, Batch, ListsOf;
    w', verdict := Recover(p, w, d, probe).0, Recover(p, w, d, probe).1;
    left := es;
    if !OwnOnly(p, es) {
      ForeignRefused(b, p, w, es, d, probe);
    }
    if !verdict.Finished? {
      left := RefusedKeeps(b, p, w, es, d, probe);
    }
    if OwnOnly(p, es) {
      var w2, v2, left2 := OwnRecovery(b, p, w, es, d, probe);
      if !Restorable(w.ledger, es) {
        GrownOnce(b, w'.ledger, Batch(p), left, left2);
      }
    }
  }

  lemma BackSource<C>(b: Ledger<C>, p: Plan<C>, w: World<C>, w0: World<C>, w': World<C>, es: seq<Move>, d: Listings)
    requires w0 == w.(next := w0.next) && BackToBaseline(b, p, w0, w', es, d)
    ensures BackToBaseline(b, p, w, w', es, d)
  {}

  lemma BackPhase<C>(b: Ledger<C>, p: Plan<C>, w: World<C>, w2: World<C>, w': World<C>, es: seq<Move>, d: Listings)
    requires w' == w2.(phase := w'.phase) && BackToBaseline(b, p, w, w2, es, d)
    ensures BackToBaseline(b, p, w, w', es, d)
  {}

  // ---------------------------------------------------------------- no watcher file is lost

  /**
   Every watcher file is still in its place or was moved aside with its content; what was
   moved aside before is still there unless a newer file of its name replaced it; and what
   was held is held, unless the baseline's file is in its place.
   */
  ghost predicate InputKept<C>(p: Plan<C>, w: World<C>, w': World<C>) {
    && (forall n :: n in w.sweep ==> (n in w'.sweep && w'.sweep[n] == w.sweep[n]) || (n in w'.movedSweep && w'.movedSweep[n] == w.sweep[n]))
    && (forall n :: n in w.movedSweep ==>
          n in w'.movedSweep && (w'.movedSweep[n] == w.movedSweep[n] || (n in w.sweep && w'.movedSweep[n] == w.sweep[n])))
    && (forall n :: n in w.heldSweep ==>
          (n in w'.heldSweep && w'.heldSweep[n] == w.heldSweep[n]) || (n in p.sweep && n in w'.sweep && w'.sweep[n] == Some(p.sweep[n])))
  }

  /** The same before any file is put back: nothing comes into the watcher directory or leaves the hold. */
  ghost predicate InputSifted<C>(w: World<C>, w': World<C>) {
    MovedAside(w, w') && w'.heldSweep == w.heldSweep && forall n :: n in w'.sweep ==> n in w.sweep && w'.sweep[n] == w.sweep[n]
  }

  /** And after what was not the baseline's is gone: files only come back from the hold. */
  ghost predicate InputReturns<C>(p: Plan<C>, w: World<C>, w': World<C>) {
    && w'.movedSweep == w.movedSweep && (forall n :: n in w.sweep ==> n in w'.sweep && w'.sweep[n] == w.sweep[n])
    && (forall n :: n in w.heldSweep ==>
          (n in w'.heldSweep && w'.heldSweep[n] == w.heldSweep[n]) || (n in p.sweep && n in w'.sweep && w'.sweep[n] == Some(p.sweep[n])))
  }

  lemma SiftedThenReturned<C>(p: Plan<C>, w: World<C>, mid: World<C>, w': World<C>)
    requires InputSifted(w, mid) && InputReturns(p, mid, w')
    ensures InputKept(p, w, w')
  {}

  lemma ActSifts<C>(p: Plan<C>, w: World<C>, op: Op, probe: Probe)
    requires !op.PutBackSweep?
    ensures InputSifted(w, Act(p, w, op, probe).0)
    ensures !op.SiftSweep? ==> Act(p, w, op, probe).0.sweep == w.sweep && Act(p, w, op, probe).0.movedSweep == w.movedSweep
  {
    hide Act, InputSifted;
    if op.SiftSweep? {
      SiftSifts(p, w, op.file, probe);
    } else {
      ActLeavesInput(p, w, op, probe);
      NothingSifted(w, Act(p, w, op, probe).0);
    }
  }

  lemma ActLeavesInput<C>(p: Plan<C>, w: World<C>, op: Op, probe: Probe)
    requires !op.PutBackSweep? && !op.SiftSweep?
    ensures var w' := Act(p, w, op, probe).0; w'.sweep == w.sweep && w'.movedSweep == w.movedSweep && w'.heldSweep == w.heldSweep
  {
    hide AfterRestore, Final;
  }

  lemma NothingSifted<C>(w: World<C>, w': World<C>)
    requires w'.sweep == w.sweep && w'.movedSweep == w.movedSweep && w'.heldSweep == w.heldSweep
    ensures InputSifted(w, w')
  {}

  lemma SiftSifts<C>(p: Plan<C>, w: World<C>, n: string, probe: Probe)
    ensures InputSifted(w, Act(p, w, SiftSweep(n), probe).0)
  {
    hide AfterRestore, Final;
  }

  lemma SiftedTwice<C>(w: World<C>, mid: World<C>, w': World<C>)
    requires InputSifted(w, mid) && InputSifted(mid, w')
    ensures InputSifted(w, w')
  {}

  lemma {:induction false} ExecSifts<C>(p: Plan<C>, w: World<C>, ops: seq<Op>, probe: Probe)
    requires forall op :: op in ops ==> !op.PutBackSweep?
    ensures InputSifted(w, Exec(p, w, ops, probe).0)
    ensures (forall op :: op in ops ==> !op.SiftSweep?) ==>
              Exec(p, w, ops, probe).0.sweep == w.sweep && Exec(p, w, ops, probe).0.movedSweep == w.movedSweep
    decreases |ops|
  {
    if ops != [] {
      hide Act, InputSifted;
      assert ops[0] in ops && forall op :: op in ops[1..] ==> op in ops;
      var mid := Act(p, w, ops[0], probe).0;
      ActSifts(p, w, ops[0], probe);
      ExecSifts(p, mid, ops[1..], probe);
      SiftedTwice(w, mid, Exec(p, mid, ops[1..], probe).0);
    }
  }

  lemma ActReturns<C>(p: Plan<C>, w: World<C>, op: Op, probe: Probe)
    requires !op.SiftSweep? && SweepClean(p, w)
    ensures InputReturns(p, w, Act(p, w, op, probe).0) && SweepClean(p, Act(p, w, op, probe).0)
  {
    hide Act, InputReturns, SweepClean;
    if op.PutBackSweep? {
      PutBackReturns(p, w, op.name, probe);
    } else {
      OtherInput(p, w, op, probe);
      SameInput(p, w, Act(p, w, op, probe).0);
    }
  }

  lemma PutBackReturns<C>(p: Plan<C>, w: World<C>, n: string, probe: Probe)
    requires SweepClean(p, w)
    ensures InputReturns(p, w, Act(p, w, PutBackSweep(n), probe).0) && SweepClean(p, Act(p, w, PutBackSweep(n), probe).0)
  {
    hide AfterRestore, Final;
  }

  lemma OtherInput<C>(p: Plan<C>, w: World<C>, op: Op, probe: Probe)
    requires !op.SiftSweep? && !op.PutBackSweep?
    ensures var w' := Act(p, w, op, probe).0; w'.sweep == w.sweep && w'.heldSweep == w.heldSweep && w'.movedSweep == w.movedSweep
  {
    hide AfterRestore, Final;
  }

  lemma SameInput<C>(p: Plan<C>, w: World<C>, w': World<C>)
    requires w'.sweep == w.sweep && w'.heldSweep == w.heldSweep && w'.movedSweep == w.movedSweep
    ensures InputReturns(p, w, w') && (SweepClean(p, w) ==> SweepClean(p, w'))
  {}

  lemma ReturnsTwice<C>(p: Plan<C>, w: World<C>, mid: World<C>, w': World<C>)
    requires InputReturns(p, w, mid) && InputReturns(p, mid, w')
    ensures InputReturns(p, w, w')
  {}

  lemma {:induction false} ExecReturns<C>(p: Plan<C>, w: World<C>, ops: seq<Op>, probe: Probe)
    requires SweepClean(p, w) && forall op :: op in ops ==> !op.SiftSweep?
    ensures InputReturns(p, w, Exec(p, w, ops, probe).0)
    decreases |ops|
  {
    if ops != [] {
      hide Act, InputReturns, SweepClean;
      assert ops[0] in ops && forall op :: op in ops[1..] ==> op in ops;
      var mid := Act(p, w, ops[0], probe).0;
      ActReturns(p, w, ops[0], probe);
      ExecReturns(p, mid, ops[1..], probe);
      ReturnsTwice(p, w, mid, Exec(p, mid, ops[1..], probe).0);
    }
  }

  /** A recovery first touches no watcher file, then sifts them, then puts the baseline's back. */
  lemma RecoverySplits<C>(p: Plan<C>, w: World<C>, d: Listings) returns (front: seq<Op>, back: seq<Op>)
    ensures Recovery(p, w.ledger.manifest, d) == (front + SiftSweeps(d.sweep)) + back
    ensures forall op :: op in front ==> !op.SiftSweep? && !op.PutBackSweep?
    ensures forall op :: op in SiftSweeps(d.sweep) ==> !op.PutBackSweep?
    ensures forall op :: op in back ==> !op.SiftSweep?
  {
    hide Restores, Unlinks, SiftReceipts, SiftSweeps, PutBacks, Selected;
    var r, u, f, s, k := Restores(Selected(Listing(w.ledger.manifest), p.canaries)), Unlinks(p.canaries), SiftReceipts(d.receipts),
                         SiftSweeps(d.sweep), PutBacks(p.sweepNames);
    front := [ReadArchive] + (r + (u + f));
    back := k + [PutBackActive, Conclude];
    FrontApart([ReadArchive], r, u, f, s, back);
    Associates(s, k, [PutBackActive, Conclude]);
    forall op | op in front ensures !op.SiftSweep? && !op.PutBackSweep? {
      assert op == ReadArchive || op in r || op in u || op in f;
    }
    forall op | op in back ensures !op.SiftSweep? {
      assert op in k || op == PutBackActive || op == Conclude;
    }
  }

  lemma FrontApart<T>(a: seq<T>, r: seq<T>, u: seq<T>, f: seq<T>, s: seq<T>, back: seq<T>)
    ensures a + (r + (u + (f + (s + back)))) == (a + (r + (u + f))) + s + back
  {}

  /**
   A recovery, accepted, refused or dying after any of its operations, loses no watcher
   file.
   */
  lemma RecoveryKeepsInput<C>(p: Plan<C>, w: World<C>, d: Listings, count: nat, probe: Probe)
    requires Lists(d.sweep, w.sweep.Keys) && count <= |Recovery(p, w.ledger.manifest, d)|
    ensures InputKept(p, w, Exec(p, Stopped(p, w), Recovery(p, w.ledger.manifest, d)[..count], probe).0)
  {
    hide Exec, Recovery, InputSifted, InputReturns, InputKept, SweepClean, Lists, SiftSweeps;
    var w0, ops := Stopped(p, w), Recovery(p, w.ledger.manifest, d);
    var front, back := RecoverySplits(p, w, d);
    var x := front + SiftSweeps(d.sweep);
    if count <= |x| {
      assert ops[..count] == x[..count];
      assert forall op :: op in x[..count] ==> op in x;
      ExecSifts(p, w0, ops[..count], probe);
      NothingReturns(p, Exec(p, w0, ops[..count], probe).0);
      SiftedThenReturned(p, w0, Exec(p, w0, ops[..count], probe).0, Exec(p, w0, ops[..count], probe).0);
    } else {
      var y := back[..count - |x|];
      assert ops[..count] == x + y && forall op :: op in y ==> op in back;
      ExecSifts(p, w0, x, probe);
      ExecAppend(p, w0, x, y, probe);
      var (mid, verdict) := Exec(p, w0, x, probe);
      if verdict.Going? {
        SiftedAll(p, w0, front, d, probe);
        ExecReturns(p, mid, y, probe);
        SiftedThenReturned(p, w0, mid, Exec(p, mid, y, probe).0);
      } else {
        NothingReturns(p, mid);
        SiftedThenReturned(p, w0, mid, mid);
      }
    }
    StoppedInput(p, w, Exec(p, w0, ops[..count], probe).0);
  }

  lemma NothingReturns<C>(p: Plan<C>, w: World<C>)
    ensures InputReturns(p, w, w)
  {}

  lemma StoppedInput<C>(p: Plan<C>, w: World<C>, w': World<C>)
    requires InputKept(p, Stopped(p, w), w')
    ensures InputKept(p, w, w')
  {}

  /** Sifting all of the watcher directory leaves only files of the baseline. */
  lemma SiftedAll<C>(p: Plan<C>, w: World<C>, front: seq<Op>, d: Listings, probe: Probe)
    requires Lists(d.sweep, w.sweep.Keys) && forall op :: op in front ==> !op.SiftSweep? && !op.PutBackSweep?
    requires Exec(p, w, front + SiftSweeps(d.sweep), probe).1.Going?
    ensures SweepClean(p, Exec(p, w, front + SiftSweeps(d.sweep), probe).0)
  {
    hide Exec, SweepClean, SiftedSweep, SiftSweeps, SweepReadable, SweepLeft;
    ExecAppend(p, w, front, SiftSweeps(d.sweep), probe);
    var mid := Exec(p, w, front, probe).0;
    ExecSifts(p, w, front, probe);
    var after := SiftSweepsRun(p, mid, d.sweep, probe);
    SiftedClean(p, mid, after, d.sweep);
  }

  // ---------------------------------------------------------------- before and after the transaction

  /**
   The activation is refused, without a move, exactly when the active credential or the
   watcher input is not as the manifest says; what cannot be read is reported as unsafe.
   */
  lemma ActivationAllowedIff<C>(p: Plan<C>, w: World<C>)
    ensures var k := [p.activeName]; var unreadable := exists n :: n in w.sweep && w.sweep[n].None?;
            && (Precheck(p, w).Going? <==>
                  k in w.ledger.auth && w.ledger.auth[k] == p.active && w.sweep.Keys == p.sweep.Keys
                  && forall n :: n in p.sweep && n in w.sweep ==> w.sweep[n] == Some(p.sweep[n]))
            && (Precheck(p, w) == Rejected(UnsafeFile) <==> k !in w.ledger.auth || (w.ledger.auth[k] == p.active && unreadable))
            && (Precheck(p, w) == Rejected(BaselineChanged) <==>
                  k in w.ledger.auth && (w.ledger.auth[k] != p.active || (!unreadable && w.sweep != InputOf(p))))
  {
    if w.sweep.Keys == p.sweep.Keys && forall n :: n in p.sweep && n in w.sweep ==> w.sweep[n] == Some(p.sweep[n]) {
      assert w.sweep == InputOf(p);
    }
  }

  /** A recovered transaction is only looked at: it is accepted while pool, service and the length of the archive are the baseline's. */
  lemma ConfirmedIff<C>(p: Plan<C>, w: World<C>, d: Listings, probe: Probe)
    requires w.phase.Recovered?
    ensures Recover(p, w, d, probe).0 == w
    ensures Recover(p, w, d, probe).1.Finished? <==>
              && (forall n :: [n] in w.ledger.auth && IsJson(n) <==> n == p.activeName) && probe.service == p.service
              && w.ledger.manifest.Listed? && ManifestBytes(w.ledger.manifest.entries) <= 4194304 && |w.ledger.manifest.entries| == p.archiveCount
    ensures !Recover(p, w, d, probe).1.Finished? ==> Recover(p, w, d, probe).1 in {Rejected(NotBaseline), Rejected(ArchiveInvalid)}
  {
    hide ManifestBytes, ActivePool;
    forall n ensures n in ActivePool(w.ledger.auth) <==> [n] in w.ledger.auth && IsJson(n) {
      PoolMember(w.ledger.auth, n);
    }
    if forall n :: [n] in w.ledger.auth && IsJson(n) <==> n == p.activeName {
      assert ActivePool(w.ledger.auth) == {p.activeName};
    }
  }

  // ---------------------------------------------------------------- the main results

  /**
   Crash recovery is exact.  Whatever happened to the transaction, with recoveries dying
   anywhere and quarantines and restores cut anywhere, one undisturbed recovery is accepted
   if and only if everything it puts back is there and the gateway and the receipts answer;
   and then the baseline is back, and foreign watcher input and canary receipts are kept aside.
   */
  lemma CrashRecovery<C>(b: Ledger<C>, p: Plan<C>, start: World<C>, run: seq<Event<C>>, d: Listings, probe: Probe)
    returns (w: World<C>, es: seq<Move>, w': World<C>, verdict: Verdict)
    requires Baseline(b, p) && Initial(b, p, start) && PossibleRun(b, p, start, run) && ListsOf(Follow(p, start, run), d)
    ensures w == Follow(p, start, run) && w.ledger.manifest == Listed(b.manifest.entries + es)
    ensures Recover(p, w, d, probe) == (w', verdict)
    ensures verdict.Finished? <==> Intact(p, w, es, d) && Answers(p, w, probe)
    ensures Intact(p, w, es, d) ==>
              && w'.ledger == Settled(b, w.ledger, es) && (w'.ledger == b <==> Orphans(b, w.ledger, es) == {})
              && w'.sweep == InputOf(p) && w'.heldActive.None? && w'.heldSweep.Keys !! p.sweep.Keys
              && ForeignKept(p, w, w') && SiftedReceipts(p, w, w.(failure := w'.failure, movedReceipts := w'.movedReceipts), d.receipts)
              && verdict == Judged(p, w, probe)
  {
    hide Baseline, Initial, Recover, Answers, ListsOf, SiftedReceipts, ForeignKept, Judged, Intact, TreeKept, Pending, HalfWay, AllButActive, Batch,
      Restorable, Legible, SweepReadable, OwnOnly, ActiveSafe;
    InitialRecoverable(b, p, start);
    w := Follow(p, start, run);
    es := RunKeeps(b, p, start, [], run);
    var left;
    w', verdict, left := RecoveryRestores(b, p, w, es, d, probe);
    SettledIsBaseline(b, w.ledger, Batch(p), es);
    GrownListing(b, w.ledger, Batch(p), es);
  }

  /**
   As long as no quarantine or restore is cut with its entry listed and its file outside the
   archive, and the active credential and the watcher files are left to the transaction, a
   recovery is accepted whenever the archive manifest is not too large to be restored from,
   the watcher input is readable and the gateway and receipts answer.  It leaves one orphan for each file that
   was left in the archive unlisted; the ledger is the baseline's exactly when there was none.
   */
  lemma LosslessRecovery<C>(b: Ledger<C>, p: Plan<C>, start: World<C>, run: seq<Event<C>>, d: Listings, probe: Probe)
    returns (w: World<C>, es: seq<Move>, w': World<C>)
    requires Baseline(b, p) && Initial(b, p, start) && PossibleRun(b, p, start, run) && Losses(p, start, run) == 0 && RunSpares(p, start, run)
    requires ListsOf(Follow(p, start, run), d) && SweepReadable(p, Follow(p, start, run).sweep, d.sweep)
    ensures w == Follow(p, start, run) && w.ledger.manifest == Listed(b.manifest.entries + es)
    ensures Recover(p, w, d, probe).0 == w' && (Recover(p, w, d, probe).1.Finished? <==> Legible(w.ledger, es) && Answers(p, w, probe))
    ensures |Orphans(b, w.ledger, es)| == Astray(p, start, run)
    ensures Legible(w.ledger, es) ==>
              && w'.ledger == b.(archive := w'.ledger.archive) && w'.ledger.archive.Keys == b.archive.Keys + Orphans(b, w.ledger, es)
              && (w'.ledger == b <==> Astray(p, start, run) == 0)
  {
    hide Baseline, Initial, Recover, Answers, ListsOf, SiftedReceipts, Restorable, SweepReadable, TreeKept, FileSafe, Pending, HalfWay,
      AllButActive, Batch, OwnOnly, ActiveSafe, Orphans, Grown, Legible;
    InitialRecoverable(b, p, start);
    w := Follow(p, start, run);
    es := RunKeeps(b, p, start, [], run);
    var verdict, left;
    w', verdict, left := RecoveryRestores(b, p, w, es, d, probe);
    SettledIsBaseline(b, w.ledger, Batch(p), es);
    GrownListing(b, w.ledger, Batch(p), es);
  }

  /** Recovering again changes nothing and is accepted again while the service is the same. */
  lemma RecoverAgain<C>(b: Ledger<C>, p: Plan<C>, start: World<C>, run: seq<Event<C>>, d: Listings, probe: Probe,
                        d2: Listings, probe2: Probe)
    returns (w': World<C>)
    requires Baseline(b, p) && Initial(b, p, start) && PossibleRun(b, p, start, run) && ListsOf(Follow(p, start, run), d)
    requires Recover(p, Follow(p, start, run), d, probe).1.Finished? && probe2.service == p.service
    ensures Recover(p, Follow(p, start, run), d, probe).0 == w' && Recover(p, w', d2, probe2) == (w', Finished)
  {
    hide Recoverable, Exec, Initial, OwnReceipts, ListsOf, SiftedReceipts, Intact, Readable, ClashFree, HalfWay, AllButActive, Restorable,
      Legible, SweepReadable, OwnOnly, ActiveSafe, Batch;
    InitialRecoverable(b, p, start);
    var es := RunKeeps(b, p, start, [], run);
    var verdict, left;
    w', verdict, left := RecoveryRestores(b, p, Follow(p, start, run), es, d, probe);
  }

  /**
   Acceptance is safe even when anything happens between the operations of the recovery:
   whenever its last checks pass, the auth tree but for the content of the active credential,
   the manifest and the receipts are the baseline's, no baseline file of the archive is gone
   and, if they were left to the transaction, neither is a baseline watcher file.
   */
  lemma AcceptedAnywhere<C>(b: Ledger<C>, p: Plan<C>, start: World<C>, run: seq<Event<C>>, probe: Probe) returns (w: World<C>)
    requires Baseline(b, p) && Initial(b, p, start) && PossibleRun(b, p, start, run)
    requires Final(p, Follow(p, start, run), probe).Finished?
    ensures w == Follow(p, start, run) && [p.activeName] in w.ledger.auth
    ensures w.ledger == b.(archive := w.ledger.archive, auth := b.auth[[p.activeName] := w.ledger.auth[[p.activeName]]])
    ensures RunSpares(p, start, run) ==> w.ledger.auth == b.auth && SweepKept(p, w)
    ensures forall k :: k in b.archive ==> k in w.ledger.archive && w.ledger.archive[k] == b.archive[k]
    ensures JsonKeys(w.failure) == {}
  {
    hide Initial, Readable, ClashFree, FileSafe, Pending, ActivePool, BatchMove, JsonKeys, IsJson, ManifestBytes;
    InitialRecoverable(b, p, start);
    w := Follow(p, start, run);
    var es := RunKeeps(b, p, start, [], run);
    assert es == [] && b.manifest.entries + [] == b.manifest.entries;
    forall c | c in p.canaries ensures [c] !in w.ledger.auth {
      PoolMember(w.ledger.auth, c);
    }
    PoolMember(w.ledger.auth, p.activeName);
    SameTrees(b, p, w.ledger.auth);
    assert b.auth[[p.activeName] := b.auth[[p.activeName]]] == b.auth;
  }

  lemma SameTrees<C>(b: Ledger<C>, p: Plan<C>, auth: map<Rel, C>)
    requires Baseline(b, p) && TreeKept(b, p, auth)
    requires [p.activeName] in auth && forall c :: c in p.canaries ==> [c] !in auth
    ensures auth == b.auth[[p.activeName] := auth[[p.activeName]]]
  {
    hide Placed, ActivePool;
    forall k | k in auth ensures k in b.auth {
      NamedPath(k, p.canaries);
    }
  }

  /** The activation does what as many single operations of it do. */
  lemma {:induction false} ActivatedIsRun<C>(p: Plan<C>, w: World<C>, from: nat, stop: nat, run: seq<Event<C>>)
    requires from <= stop <= Steps(p) && |run| == stop - from && (forall e :: e in run ==> e == Activate) && w.next == from
    ensures Advances(p, w, Activation(p)[from..stop]) == Follow(p, w, run)
    decreases |run|
  {
    hide Activation, Advance;
    var ops := Activation(p)[from..stop];
    if run != [] {
      assert run[0] in run && forall e :: e in run[1..] ==> e in run;
      assert ops[0] == Activation(p)[from] && ops[1..] == Activation(p)[from + 1..stop];
      AdvanceCounts(p, w, ops[0]);
      if Advance(p, w, ops[0]) == w {
        NothingHappens(p, w, run);
      } else {
        ActivatedIsRun(p, Advance(p, w, ops[0]), from + 1, stop, run[1..]);
      }
    }
  }

  lemma AdvanceCounts<C>(p: Plan<C>, w: World<C>, op: Forward)
    ensures Advance(p, w, op) == w || Advance(p, w, op).next == w.next + 1
  {}

  lemma {:induction false} NothingHappens<C>(p: Plan<C>, w: World<C>, run: seq<Event<C>>)
    requires w.next < Steps(p) && Advance(p, w, Activation(p)[w.next]) == w && forall e :: e in run ==> e == Activate
    ensures Follow(p, w, run) == w
    decreases |run|
  {
    hide Activation, Advance;
    if run != [] {
      assert run[0] in run && forall e :: e in run[1..] ==> e in run;
      NothingHappens(p, w, run[1..]);
    }
  }

  /** An activation cut off after any number of operations is a run, so everything that holds of runs holds after it. */
  lemma ActivationIsRun<C>(b: Ledger<C>, p: Plan<C>, w: World<C>, limit: nat) returns (run: seq<Event<C>>)
    ensures Activated(p, w, limit) == Follow(p, w.(next := 0), run) && |run| <= Steps(p) && forall e :: e in run ==> e == Activate
    ensures PossibleRun(b, p, w.(next := 0), run)
  {
    hide Activation, Advance, Advances, Follow, PossibleRun;
    var stop := if limit < Steps(p) then limit else Steps(p);
    run := seq(stop, i => Activate);
    ActivatedIsRun(p, w.(next := 0), 0, stop, run);
    assert Activation(p)[0..stop] == Activation(p)[..stop];
    ActivatesPossibly(b, p, w.(next := 0), run);
  }

  lemma {:induction false} ActivatesPossibly<C>(b: Ledger<C>, p: Plan<C>, w: World<C>, run: seq<Event<C>>)
    requires w.next + |run| <= Steps(p) && forall e :: e in run ==> e == Activate
    ensures PossibleRun(b, p, w, run)
    decreases |run|
  {
    hide Activation, Advance;
    if run != [] {
      assert run[0] in run && forall e :: e in run[1..] ==> e in run;
      AdvanceCounts(p, w, Activation(p)[w.next]);
      ActivatesPossibly(b, p, Happen(p, w, run[0]), run[1..]);
    }
  }

  // ---------------------------------------------------------------- where it cannot be recovered

  /**
   One quarantine of a canary, or one archive restore of a dying recovery, cut anywhere: a
   later recovery is accepted if and only if the cut does not leave the entry listed and the
   file outside the archive, and the manifest it leaves can be read.
   */
  lemma TornStepIff<C>(b: Ledger<C>, p: Plan<C>, w: World<C>, es: seq<Move>, e: Event<C>, d: Listings, probe: Probe)
    returns (torn: World<C>, es': seq<Move>)
    requires Baseline(b, p) && Recoverable(b, p, w, es) && Intact(p, w, es, d) && ListsOf(w, d)
    requires e.Archive? || (e.Recovering? && e.op.RestoreArchived?)
    requires Possible(b, p, w, e) && Spares(p, w, e) && Answers(p, w, probe)
    ensures torn == Happen(p, w, e) && Recoverable(b, p, torn, es')
    ensures Recover(p, torn, d, probe).1.Finished? <==> !Loses(w, e) && Legible(torn.ledger, es')
    ensures Loses(w, e) ==> Broken(torn.ledger, es')
  {
    hide Baseline, Recover, Restorable, Broken, SweepReadable, Orphans, Recoverable, AfterRestore, AfterQuarantine, Loses, Strays, OwnReceipts,
      JsonKeys, Legible, OwnOnly, ActiveSafe, Spares;
    torn := Happen(p, w, e);
    es' := EventKeeps(b, p, w, es, e);
    var w', verdict, left := RecoveryRestores(b, p, torn, es', d, probe);
    assert OwnReceipts(p, torn) == OwnReceipts(p, w) by { SameReceipts(p, w, torn); }
    if Loses(w, e) {
      BrokenIsNot(torn.ledger, es');
    }
  }

  lemma SameReceipts<C>(p: Plan<C>, w: World<C>, w': World<C>)
    requires w'.failure == w.failure
    ensures OwnReceipts(p, w') == OwnReceipts(p, w)
  {}

  /**
   A broken ledger stays so: whatever happens next, as long as no file is left in the
   archive unlisted, every later recovery is refused; before it puts the active credential
   back, if that is left to the transaction.
   */
  lemma BrokenForever<C>(b: Ledger<C>, p: Plan<C>, w: World<C>, es: seq<Move>, run: seq<Event<C>>, d: Listings, probe: Probe)
    requires Baseline(b, p) && Recoverable(b, p, w, es) && Broken(w.ledger, es)
    requires PossibleRun(b, p, w, run) && Astray(p, w, run) == 0 && ListsOf(Follow(p, w, run), d)
    ensures Recover(p, Follow(p, w, run), d, probe).1.Rejected?
    ensures OwnOnly(p, es) && RunSpares(p, w, run) ==>
              Recover(p, Follow(p, w, run), d, probe).1 in {Rejected(CanaryRestoreFailed), Rejected(ArchiveInvalid)}
  {
    hide Baseline, Recover, Recoverable, Restorable, Broken, SweepReadable, Answers, Orphans, ListsOf, Legible, OwnOnly, ActiveSafe;
    var es' := RunKeeps(b, p, w, es, run);
    BrokenIsNot(Follow(p, w, run).ledger, es');
    var w', verdict, left := RecoveryRestores(b, p, Follow(p, w, run), es', d, probe);
  }

  /** Only the arrival of its old content makes a lost watcher file safe again. */
  lemma LostStays<C>(p: Plan<C>, w: World<C>, e: Event<C>, n: string)
    requires n in p.sweep && !FileSafe(p, w, n) && e != Arrive(n, Some(p.sweep[n]))
    ensures !FileSafe(p, Happen(p, w, e), n)
  {
    hide AfterRestore, AfterQuarantine, Activation, Advance, Act;
    match e
    case Activate =>
      if w.next < Steps(p) {
        AdvanceLost(p, w, Activation(p)[w.next], n);
      }
    case Recovering(op, _) => ActLost(p, Stopped(p, w), op, n);
    case _ =>
  }

  lemma AdvanceLost<C>(p: Plan<C>, w: World<C>, op: Forward, n: string)
    requires n in p.sweep && !FileSafe(p, w, n)
    ensures !FileSafe(p, Advance(p, w, op), n)
  {}

  lemma ActLost<C>(p: Plan<C>, w: World<C>, op: Op, n: string)
    requires n in p.sweep && !FileSafe(p, w, n)
    ensures !FileSafe(p, Act(p, w, op, ANY_PROBE).0, n)
  {
    hide AfterRestore, Final;
  }

  lemma {:induction false} LostAlong<C>(p: Plan<C>, w: World<C>, run: seq<Event<C>>, n: string)
    requires n in p.sweep && !FileSafe(p, w, n) && Arrive(n, Some(p.sweep[n])) !in run
    ensures !FileSafe(p, Follow(p, w, run), n)
    decreases |run|
  {
    hide FileSafe, Happen;
    if run != [] {
      assert run[0] in run && forall e :: e in run[1..] ==> e in run;
      LostStays(p, w, run[0], n);
      LostAlong(p, Happen(p, w, run[0]), run[1..], n);
    }
  }

  /**
   A baseline watcher file that is neither in its place nor held with its content, because
   it was rewritten or removed before the activation came to it or after it was put back:
   every later recovery is refused, until something other than a recovery writes its old
   content.
   */
  lemma LostForever<C>(b: Ledger<C>, p: Plan<C>, w: World<C>, es: seq<Move>, run: seq<Event<C>>, n: string, d: Listings, probe: Probe)
    requires Baseline(b, p) && Recoverable(b, p, w, es) && n in p.sweep && !FileSafe(p, w, n)
    requires PossibleRun(b, p, w, run) && Arrive(n, Some(p.sweep[n])) !in run && ListsOf(Follow(p, w, run), d)
    ensures Recover(p, Follow(p, w, run), d, probe).1.Rejected?
  {
    hide Baseline, Recover, Recoverable, PossibleRun, Follow, FileSafe, SweepReadable, ListsOf, Answers, HalfWay, AllButActive, BackToBaseline;
    LostAlong(p, w, run, n);
    var es' := RunKeeps(b, p, w, es, run);
    var w', verdict, left := RecoveryRestores(b, p, Follow(p, w, run), es', d, probe);
  }

  /** A manifest with new entries that is too large for the restore command. */
  predicate Oversized<C>(l: Ledger<C>, es: seq<Move>) {
    es != [] && l.manifest.Listed? && ManifestBytes(l.manifest.entries) > MAX_MANIFEST_BYTES
  }

  lemma ActManifest<C>(p: Plan<C>, w: World<C>, op: Op, probe: Probe)
    requires !op.RestoreArchived?
    ensures Act(p, w, op, probe).0.ledger.manifest == w.ledger.manifest
  {
    hide ManifestBytes, Final;
  }

  lemma OversizedStays<C>(b: Ledger<C>, p: Plan<C>, w: World<C>, es: seq<Move>, e: Event<C>)
    requires Oversized(w.ledger, es)
    ensures Happen(p, w, e).ledger.manifest == w.ledger.manifest
  {
    hide ManifestBytes, Activation, Act, AfterRestore, AfterQuarantine;
    match e
    case Archive(n, reason, movedAt, fault) => UnreadableRefuses(w.ledger, Take([n], reason, movedAt, fault));
    case Recovering(op, fault) =>
      if op.RestoreArchived? {
        UnreadableRefuses(w.ledger, Return(op.selector, fault));
      } else {
        ActManifest(p, Stopped(p, w), op, ANY_PROBE);
      }
    case _ =>
  }

  /**
   Once the manifest has outgrown the limit of the restore command, no quarantine and no
   restore changes it any more: whatever happens next, every later recovery is refused.
   */
  lemma {:induction false} OversizedForever<C>(b: Ledger<C>, p: Plan<C>, w: World<C>, es: seq<Move>, run: seq<Event<C>>,
                                               d: Listings, probe: Probe)
    requires Baseline(b, p) && Recoverable(b, p, w, es) && Oversized(w.ledger, es)
    requires PossibleRun(b, p, w, run) && ListsOf(Follow(p, w, run), d)
    ensures Recover(p, Follow(p, w, run), d, probe).1.Rejected?
    decreases |run|
  {
    hide Baseline, Recover, Possible, Happen, ListsOf, ManifestBytes, TreeKept, SweepKept, Pending, Batch;
    if run == [] {
      hide Restorable, SweepReadable, OwnOnly, ActiveSafe, Answers, Grown;
      var w', verdict, left := RecoveryRestores(b, p, w, es, d, probe);
    } else {
      OversizedStays(b, p, w, es, run[0]);
      var es' := EventKeeps(b, p, w, es, run[0]);
      SameEntries(b, p, w, Happen(p, w, run[0]), es, es');
      OversizedForever(b, p, Happen(p, w, run[0]), es', run[1..], d, probe);
    }
  }

  lemma SameEntries<C>(b: Ledger<C>, p: Plan<C>, w: World<C>, w': World<C>, es: seq<Move>, es': seq<Move>)
    requires Grown(b, w.ledger, Batch(p), es) && Grown(b, w'.ledger, Batch(p), es') && w'.ledger.manifest == w.ledger.manifest
    ensures es' == es
  {
    hide BatchMove;
    assert (b.manifest.entries + es)[|b.manifest.entries|..] == es && (b.manifest.entries + es')[|b.manifest.entries|..] == es';
  }
}
