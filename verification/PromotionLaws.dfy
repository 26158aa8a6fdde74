/** Why a promotion can be rolled back from every point, and exactly when the rollback is accepted. */
module PromotionLaws {
  import opened Wrappers
  import opened ArchiveNames
  import opened Maps
  import opened QuarantineLedger
  import opened LedgerLaws
  import opened ArchivedBatch
  import opened PoolFiles
  import opened Promotion
  import opened PromotionRuns

  // ---------------------------------------------------------------- a whole rollback

  lemma {:induction false} ExecAppend<C>(p: Plan<C>, w: World<C>, xs: seq<Op>, ys: seq<Op>, probe: Probe)
    ensures Exec(p, w, xs + ys, probe) ==
              if Exec(p, w, xs, probe).1.Going? then Exec(p, Exec(p, w, xs, probe).0, ys, probe) else Exec(p, w, xs, probe)
    decreases |xs|
  {
    hide Act;
    if xs == [] {
      assert xs + ys == ys;
    } else {
      assert (xs + ys)[0] == xs[0] && (xs + ys)[1..] == xs[1..] + ys;
      ExecAppend(p, Act(p, w, xs[0], probe).0, xs[1..], ys, probe);
    }
  }

  lemma OneOp<C>(p: Plan<C>, w: World<C>, op: Op, probe: Probe)
    ensures Exec(p, w, [op], probe) == Act(p, w, op, probe)
  {
    hide Act;
    assert [op][1..] == [];
  }

  /** The archive is read exactly when its manifest is not too large. */
  lemma ArchiveReads<C>(b: Ledger<C>, p: Plan<C>, l: Ledger<C>, es: seq<Move>)
    requires Baseline(b, p) && Grown(b, l, Batch(p), es)
    ensures Archive(l.manifest).Some? <==> Within(l.manifest, MAX_ARCHIVE_BYTES)
    ensures Archive(l.manifest).Some? ==> Archive(l.manifest) == Some(b.manifest.entries + es)
    ensures Archive(b.manifest) == Some(b.manifest.entries)
    ensures Within(l.manifest, MAX_ARCHIVE_BYTES) ==> Within(l.manifest, MAX_MANIFEST_BYTES)
  {
    hide ClashFree, ActivePool, FromNames, BatchMove, ManifestBytes;
    forall e | e in b.manifest.entries + es ensures !e.NotAnObject? {
      assert e in b.manifest.entries || e in es;
    }
  }

  /** Putting the baseline credential back would be refused. */
  predicate Blocked<C(==)>(p: Plan<C>, w: World<C>, n: string) {
    n in w.halfMade || StaleHold(p, w, n)
  }

  /** Nothing but missing baseline credentials has come into the pool. */
  ghost predicate Refilled<C>(p: Plan<C>, w: World<C>, w': World<C>) {
    && w' == w.(ledger := w.ledger.(auth := w'.ledger.auth), held := w'.held)
    && (forall k :: k in w.ledger.auth ==> k in w'.ledger.auth && w'.ledger.auth[k] == w.ledger.auth[k])
    && (forall k :: k in w'.ledger.auth ==>
          k in w.ledger.auth || (Named(k, p.names) && k[0] in p.baseline && w'.ledger.auth[k] == p.baseline[k[0]]))
  }

  /** How putting these credentials back ends: going on exactly when none of them is blocked. */
  ghost predicate RefillEnds<C>(p: Plan<C>, w: World<C>, names: seq<string>, verdict: Verdict) {
    && (verdict.Going? <==> forall n :: n in names ==> !Blocked(p, w, n))
    && (!verdict.Going? ==> verdict in {Rejected(UnsafePool), Rejected(SourceUnavailable)})
    && (verdict == Rejected(UnsafePool) ==> exists n :: n in names && n in w.halfMade)
    && (verdict == Rejected(SourceUnavailable) ==> exists n :: n in names && StaleHold(p, w, n))
  }

  /** Putting the baseline back stops at the first credential for which it is refused. */
  lemma {:induction false} PutBacksRun<C>(b: Ledger<C>, p: Plan<C>, w: World<C>, es: seq<Move>, names: seq<string>, probe: Probe)
    returns (w': World<C>, verdict: Verdict)
    requires Baseline(b, p) && Recoverable(b, p, w, es) && forall n :: n in names ==> n in p.names
    ensures Exec(p, w, PutBacks(names), probe) == (w', verdict) && RefillEnds(p, w, names, verdict)
    ensures Recoverable(b, p, w', es) && Refilled(p, w, w')
    ensures verdict.Going? ==> forall n :: n in names ==> [n] in w'.ledger.auth
    decreases |names|
  {
    hide Baseline, Recoverable, Act, PutBack, RefillEnds, Refilled, StaleHold;
    if names == [] {
      NothingRefilled(p, w);
      return w, Going;
    }
    var n := names[0];
    assert n in names && forall m :: m in names[1..] ==> m in names;
    PutBackHere(b, p, w, es, n, probe);
    var mid, first := PutBack(p, w, n).0, PutBack(p, w, n).1;
    w', verdict := mid, first;
    assert PutBacks(names)[0] == PutBackBaseline(n) && PutBacks(names)[1..] == PutBacks(names[1..]);
    if first.Going? {
      w', verdict := PutBacksRun(b, p, mid, es, names[1..], probe);
      RefilledTwice(p, w, mid, w');
      forall m | m in names ensures verdict.Going? ==> [m] in w'.ledger.auth {
        assert m == n || m in names[1..];
        RefilledHas(p, mid, w', [n]);
      }
      RefillNext(p, w, mid, names, verdict);
    } else {
      RefillStops(p, w, names, first);
    }
  }

  lemma NothingRefilled<C>(p: Plan<C>, w: World<C>)
    ensures RefillEnds(p, w, [], Going) && Refilled(p, w, w)
  {}

  lemma RefilledTwice<C>(p: Plan<C>, w: World<C>, mid: World<C>, w': World<C>)
    requires Refilled(p, w, mid) && Refilled(p, mid, w')
    ensures Refilled(p, w, w')
  {}

  lemma RefilledHas<C>(p: Plan<C>, w: World<C>, w': World<C>, k: Rel)
    requires Refilled(p, w, w') && k in w.ledger.auth
    ensures k in w'.ledger.auth
  {}

  lemma RefillNext<C>(p: Plan<C>, w: World<C>, mid: World<C>, names: seq<string>, verdict: Verdict)
    requires names != [] && RefillEnds(p, mid, names[1..], verdict) && mid.halfMade == w.halfMade
    requires names[0] !in w.halfMade && !StaleHold(p, w, names[0]) && !StaleHold(p, mid, names[0])
    requires forall m :: m != names[0] ==> (StaleHold(p, mid, m) <==> StaleHold(p, w, m))
    ensures RefillEnds(p, w, names, verdict)
  {
    hide StaleHold;
    assert forall m :: m in names <==> m == names[0] || m in names[1..];
  }

  lemma RefillStops<C>(p: Plan<C>, w: World<C>, names: seq<string>, verdict: Verdict)
    requires names != [] && !verdict.Going?
    requires verdict == if names[0] in w.halfMade then Rejected(UnsafePool) else if StaleHold(p, w, names[0]) then Rejected(SourceUnavailable) else Going
    ensures RefillEnds(p, w, names, verdict)
  {
    hide StaleHold;
    assert names[0] in names;
  }

  lemma PutBackHere<C>(b: Ledger<C>, p: Plan<C>, w: World<C>, es: seq<Move>, n: string, probe: Probe)
    requires Baseline(b, p) && Recoverable(b, p, w, es) && n in p.names
    ensures Act(p, w, PutBackBaseline(n), probe) == PutBack(p, w, n)
    ensures var (w', verdict) := PutBack(p, w, n);
            && Recoverable(b, p, w', es) && Refilled(p, w, w')
            && verdict == (if n in w.halfMade then Rejected(UnsafePool) else if StaleHold(p, w, n) then Rejected(SourceUnavailable) else Going)
            && (verdict.Going? ==> [n] in w'.ledger.auth && forall m :: m != n ==> (StaleHold(p, w', m) <==> StaleHold(p, w, m)))
            && (verdict.Going? ==> !StaleHold(p, w', n)) && w'.halfMade == w.halfMade
  {
    hide Baseline, PutBack;
    PutBackKeeps(b, p, w, es, n);
    GrownDirs(b, w.ledger, Batch(p), es);
    PutBackShape(b, p, w, n);
    Apart(b, p, n);
    PutBackHolds(p, w, n);
    OtherPaths(n);
    assert [n][0] == n;
  }

  lemma PutBackHolds<C>(p: Plan<C>, w: World<C>, n: string)
    ensures forall m :: m != n ==> (m in PutBack(p, w, n).0.held <==> m in w.held)
                                   && (m in w.held ==> PutBack(p, w, n).0.held[m] == w.held[m])
  {}

  lemma {:induction false} RestoresRun<C>(p: Plan<C>, w: World<C>, selectors: seq<string>, probe: Probe)
    ensures var (after, ok) := RestoreAll(w.ledger, selectors);
            Exec(p, w, Restores(selectors), probe) == (w.(ledger := after), if ok then Going else Rejected(NotContained))
    decreases |selectors|
  {
    hide AfterRestore;
    if selectors != [] {
      var after := AfterRestore(w.ledger, selectors[0], Clean).0;
      assert Restores(selectors)[0] == RestoreArchived(selectors[0]) && Restores(selectors)[1..] == Restores(selectors[1..]);
      RestoresRun(p, w.(ledger := after), selectors[1..], probe);
    }
  }

  /** Some credential on the list was removed before and is back. */
  ghost predicate Returned<C>(w: World<C>, names: seq<string>) {
    exists n :: n in names && n in w.removed && [n] in w.ledger.auth
  }

  /** Credentials went from the pool to the removed ones, with their contents, and nothing else happened. */
  ghost predicate Removing<C>(w: World<C>, w': World<C>, names: seq<string>) {
    && w' == w.(ledger := w.ledger.(auth := w'.ledger.auth), removed := w'.removed)
    && (forall n :: n in w.removed ==> n in w'.removed && w'.removed[n] == w.removed[n])
    && (forall n :: n in w'.removed && n !in w.removed ==>
          n in names && [n] in w.ledger.auth && w'.removed[n] == w.ledger.auth[[n]] && [n] !in w'.ledger.auth)
    && (forall k :: k in w'.ledger.auth ==> k in w.ledger.auth && w'.ledger.auth[k] == w.ledger.auth[k])
    && (forall k :: k in w.ledger.auth && k !in w'.ledger.auth ==> |k| == 1 && k[0] in w'.removed && k[0] !in w.removed)
  }

  lemma NothingRemoved<C>(w: World<C>, names: seq<string>)
    ensures Removing(w, w, names)
  {}

  lemma RemovingMore<C>(w: World<C>, w': World<C>, names: seq<string>)
    requires names != [] && Removing(w, w', [names[0]])
    ensures Removing(w, w', names)
    ensures w'.ledger.dirs == w.ledger.dirs
  {}

  lemma RemovingTwice<C>(w: World<C>, mid: World<C>, w': World<C>, names: seq<string>)
    requires names != [] && Removing(w, mid, [names[0]]) && Removing(mid, w', names[1..])
    ensures Removing(w, w', names)
  {
    assert forall n :: n in names <==> n == names[0] || n in names[1..];
  }

  lemma RemoveHere<C>(p: Plan<C>, w: World<C>, names: seq<string>, probe: Probe)
    requires names != [] && [names[0]] !in w.ledger.dirs
    ensures var (w', verdict) := Act(p, w, RemovePromoted(names[0]), probe);
            && verdict == (if Returned(w, [names[0]]) then Rejected(UnsafePath) else Going)
            && Removing(w, w', [names[0]])
            && (verdict.Going? ==> w'.ledger.auth == w.ledger.auth - {[names[0]]})
            && (verdict.Going? ==> (Returned(w', names[1..]) <==> Returned(w, names)))
            && (!verdict.Going? ==> Returned(w, names))
  {
    var n := names[0];
    assert n in [n] && n in names && forall m :: m in names <==> m == n || m in names[1..];
    forall m: string | m != n ensures [m] != [n] {
      assert [m][0] != [n][0];
    }
    assert [n] !in w.ledger.auth ==> w.ledger.auth - {[n]} == w.ledger.auth;
  }

  /** Removing promoted credentials stops at the first that was removed before and is back. */
  lemma {:induction false} RemovesRun<C>(p: Plan<C>, w: World<C>, names: seq<string>, probe: Probe) returns (w': World<C>)
    requires forall n :: n in names ==> [n] !in w.ledger.dirs
    ensures Exec(p, w, Removes(names), probe) == (w', if Returned(w, names) then Rejected(UnsafePath) else Going)
    ensures Removing(w, w', names)
    ensures !Returned(w, names) ==> w'.ledger.auth == w.ledger.auth - NamePaths(names)
    decreases |names|
  {
    if names == [] {
      assert NamePaths(names) == {} && w.ledger.auth - {} == w.ledger.auth;
      return w;
    }
    hide NamePaths, Act, Returned, Removing;
    assert names[0] in names && forall m :: m in names[1..] ==> m in names;
    RemoveHere(p, w, names, probe);
    var (mid, verdict) := Act(p, w, RemovePromoted(names[0]), probe);
    w' := mid;
    RemovingMore(w, mid, names);
    if verdict.Going? {
      w' := RemovesRun(p, mid, names[1..], probe);
      RemovingTwice(w, mid, w', names);
      FirstPath(names);
      MapLess(w.ledger.auth, {[names[0]]}, NamePaths(names[1..]));
    }
  }

  lemma FirstPath(names: seq<string>)
    requires names != []
    ensures NamePaths(names) == {[names[0]]} + NamePaths(names[1..])
  {
    assert names == [names[0]] + names[1..];
  }

  ghost predicate Sifted<C>(p: Plan<C>, w: World<C>, w': World<C>, receipts: seq<string>, owners: set<string>) {
    && w' == w.(failure := w'.failure, movedReceipts := w'.movedReceipts)
    && (forall r :: r in w'.failure <==> r in w.failure && !(r in receipts && r !in p.failure && w.failure[r].authFile in owners))
    && (forall r :: r in w'.failure ==> w'.failure[r] == w.failure[r])
    && (forall r :: r in w.failure && r !in w'.failure ==> r in w'.movedReceipts && w'.movedReceipts[r] == w.failure[r])
    && (forall r :: r in w.movedReceipts && r !in w.failure ==> r in w'.movedReceipts && w'.movedReceipts[r] == w.movedReceipts[r])
  }

  lemma {:induction false} SiftsRun<C>(p: Plan<C>, w: World<C>, receipts: seq<string>, probe: Probe) returns (w': World<C>)
    ensures Exec(p, w, Sifts(receipts), probe) == (w', Going) && Sifted(p, w, w', receipts, w.working)
    decreases |receipts|
  {
    if receipts == [] {
      return w;
    }
    hide Sifted, Act;
    var mid := SiftRuns(p, w, receipts[0], probe);
    w' := SiftsRun(p, mid, receipts[1..], probe);
    SiftedStep(p, w, mid, w', receipts, w.working);
  }

  lemma SiftRuns<C>(p: Plan<C>, w: World<C>, r: string, probe: Probe) returns (w': World<C>)
    ensures Act(p, w, SiftReceipt(r), probe) == (w', Going) && Sifted(p, w, w', [r], w.working) && w'.working == w.working
  {
    w' := Act(p, w, SiftReceipt(r), probe).0;
  }

  lemma SiftedStep<C>(p: Plan<C>, w: World<C>, mid: World<C>, w': World<C>, receipts: seq<string>, owners: set<string>)
    requires receipts != [] && Sifted(p, w, mid, [receipts[0]], owners) && Sifted(p, mid, w', receipts[1..], owners)
    ensures Sifted(p, w, w', receipts, owners)
  {
    assert forall r :: r in receipts <==> r == receipts[0] || r in receipts[1..];
  }

  lemma LastTwo<C>(p: Plan<C>, w: World<C>, probe: Probe)
    ensures var w' := Act(p, w, MoveTrigger, probe).0;
            Exec(p, w, [MoveTrigger, Conclude], probe) == (if Final(p, w', probe).Finished? then w'.(phase := Recovered) else w', Final(p, w', probe))
  {
    hide Final;
    assert [MoveTrigger, Conclude][1..] == [Conclude] && [Conclude][1..] == [];
  }

  /** The sweep trigger that a rollback keeps as evidence. */
  function LastTrigger<C>(w: World<C>): Option<C> {
    if w.trigger.Some? then w.trigger else w.movedTrigger
  }

  lemma RemovingOnly<C>(w: World<C>, w': World<C>, names: seq<string>)
    requires Removing(w, w', names)
    ensures w' == w.(ledger := w.ledger.(auth := w'.ledger.auth), removed := w'.removed)
    ensures w.(ledger := w'.ledger, removed := w'.removed) == w'
  {}

  /** The operations after the archived files have come back. */
  lemma ClosingRun<C>(p: Plan<C>, w: World<C>, d: Listings, probe: Probe) returns (w': World<C>)
    requires forall n :: n in d.promoted ==> [n] !in w.ledger.dirs
    ensures Removing(w, w.(ledger := w'.ledger, removed := w'.removed), d.promoted)
    ensures Returned(w, d.promoted) ==>
              Exec(p, w, Closing(d), probe) == (w', Rejected(UnsafePath))
    ensures !Returned(w, d.promoted) ==>
              && Exec(p, w, Closing(d), probe) == (if Final(p, w', probe).Finished? then w'.(phase := Recovered) else w', Final(p, w', probe))
              && w'.ledger == w.ledger.(auth := w.ledger.auth - NamePaths(d.promoted))
              && w'.trigger.None? && w'.movedTrigger == LastTrigger(w) && w'.promoted == w.promoted && w'.phase == w.phase
              && Sifted(p, w, w.(failure := w'.failure, movedReceipts := w'.movedReceipts), d.receipts, w.working)
  {
    hide Exec, Sifted, Final, NamePaths, Returned, Removing;
    var w1 := RemovesRun(p, w, d.promoted, probe);
    ExecAppend(p, w, Removes(d.promoted), Sifts(d.receipts) + [MoveTrigger, Conclude], probe);
    w' := w1;
    RemovingOnly(w, w1, d.promoted);
    if !Returned(w, d.promoted) {
      var w2 := SiftsRun(p, w1, d.receipts, probe);
      SiftedFrame(p, w, w1, w2, d.receipts, w.working);
      w' := Act(p, w2, MoveTrigger, probe).0;
      LastTwo(p, w2, probe);
      ExecAppend(p, w1, Sifts(d.receipts), [MoveTrigger, Conclude], probe);
    }
  }

  lemma SiftedFrame<C>(p: Plan<C>, w: World<C>, w1: World<C>, w2: World<C>, receipts: seq<string>, owners: set<string>)
    requires Sifted(p, w1, w2, receipts, owners) && w1.failure == w.failure && w1.movedReceipts == w.movedReceipts
    ensures Sifted(p, w, w.(failure := w2.failure, movedReceipts := w2.movedReceipts), receipts, owners)
    ensures w2 == w1.(failure := w2.failure, movedReceipts := w2.movedReceipts)
  {}

  /** The rollback can put every baseline credential back. */
  predicate CanRefill<C(==)>(p: Plan<C>, w: World<C>) {
    forall n :: n in p.names ==> !Blocked(p, w, n)
  }

  /** No baseline copy is half made. */
  lemma HalfMadeNamed<C>(b: Ledger<C>, p: Plan<C>, w: World<C>, es: seq<Move>)
    requires Baseline(b, p) && Recoverable(b, p, w, es)
    ensures forall n :: n in w.halfMade ==> n in p.names
  {
    hide Baseline, Grown, TreeKept, Progress;
    forall n | n in w.halfMade ensures n in p.names {
      Apart(b, p, n);
    }
  }

  /** The operations of a rollback before it restores anything from the archive. */
  lemma OpeningRun<C>(b: Ledger<C>, p: Plan<C>, w: World<C>, es: seq<Move>, probe: Probe) returns (w': World<C>, verdict: Verdict)
    requires Baseline(b, p) && Recoverable(b, p, w, es)
    ensures Exec(p, w, Opening(p), probe) == (w', verdict) && Recoverable(b, p, w', es)
    ensures verdict.Going? <==> Within(w.ledger.manifest, MAX_ARCHIVE_BYTES) && CanRefill(p, w)
    ensures w.promoted == {} && !Within(w.ledger.manifest, MAX_ARCHIVE_BYTES) ==> w' == w.(ready := false) && verdict == Rejected(ArchiveInvalid)
    ensures !Within(w.ledger.manifest, MAX_ARCHIVE_BYTES) && CanRefill(p, w) ==> verdict == Rejected(ArchiveInvalid)
    ensures Within(w.ledger.manifest, MAX_ARCHIVE_BYTES) && !CanRefill(p, w) ==> verdict in {Rejected(UnsafePool), Rejected(SourceUnavailable)}
    ensures verdict == Rejected(UnsafePool) ==> w.halfMade != {}
    ensures verdict == Rejected(SourceUnavailable) ==> exists n :: n in p.names && StaleHold(p, w, n)
    ensures !verdict.Going? ==> verdict in {Rejected(UnsafePool), Rejected(SourceUnavailable), Rejected(ArchiveInvalid)}
    ensures Refilled(p, w.(working := w'.working, ready := w'.ready), w')
    ensures verdict.Going? ==> AllHere(p, w') && w'.working == Promoted(p, w) && w'.ready
  {
    hide Baseline, Recoverable, Promoted, Exec, Archive, Within, RefillEnds, Refilled, StaleHold, CanRefill, AllHere, PutBacks;
    ArchiveHere(b, p, w, es);
    OneOp(p, w, Derive, probe);
    ExecAppend(p, w, [Derive], PutBacks(p.names) + [ReadArchive], probe);
    if w.promoted == {} && Archive(w.ledger.manifest).None? {
      w', verdict := w.(ready := false), Rejected(ArchiveInvalid);
      StillRecoverableHere(b, p, w, es, w');
      NothingRefilled(p, w');
      return;
    }
    var w1 := w.(working := Promoted(p, w), ready := false);
    StillRecoverableHere(b, p, w, es, w1);
    w', verdict := PutBacksRun(b, p, w1, es, p.names, probe);
    RefillMeans(p, w, w1, verdict);
    ExecAppend(p, w1, PutBacks(p.names), [ReadArchive], probe);
    if verdict.Going? {
      RefilledManifest(p, w1, w');
      OneOp(p, w', ReadArchive, probe);
      var w2 := if Archive(w'.ledger.manifest).Some? then w'.(ready := true) else w';
      StillRecoverableHere(b, p, w', es, w2);
      RefilledReady(p, w1, w', w2);
      AllRefilled(p, w2);
      w', verdict := w2, if Archive(w'.ledger.manifest).Some? then Going else Rejected(ArchiveInvalid);
    } else {
      RefilledReady(p, w1, w', w');
    }
  }

  lemma ArchiveHere<C>(b: Ledger<C>, p: Plan<C>, w: World<C>, es: seq<Move>)
    requires Baseline(b, p) && Recoverable(b, p, w, es)
    ensures Archive(w.ledger.manifest).Some? <==> Within(w.ledger.manifest, MAX_ARCHIVE_BYTES)
  {
    hide Baseline, Grown;
    ArchiveReads(b, p, w.ledger, es);
  }

  lemma RefillMeans<C>(p: Plan<C>, w: World<C>, w1: World<C>, verdict: Verdict)
    requires RefillEnds(p, w1, p.names, verdict) && w1 == w.(working := w1.working, ready := w1.ready)
    ensures verdict.Going? <==> CanRefill(p, w)
    ensures !verdict.Going? ==> verdict in {Rejected(UnsafePool), Rejected(SourceUnavailable)}
    ensures verdict == Rejected(UnsafePool) ==> w.halfMade != {}
    ensures verdict == Rejected(SourceUnavailable) ==> exists n :: n in p.names && StaleHold(p, w, n)
  {
    forall n ensures StaleHold(p, w1, n) <==> StaleHold(p, w, n) {}
  }

  lemma RefilledManifest<C>(p: Plan<C>, w: World<C>, w': World<C>)
    requires Refilled(p, w, w')
    ensures w'.ledger.manifest == w.ledger.manifest && w'.working == w.working && w'.ready == w.ready
  {}

  lemma RefilledReady<C>(p: Plan<C>, w1: World<C>, w': World<C>, w2: World<C>)
    requires Refilled(p, w1, w') && w2 == w'.(ready := w2.ready)
    ensures Refilled(p, w1.(working := w2.working, ready := w2.ready), w2)
  {}

  lemma AllRefilled<C>(p: Plan<C>, w: World<C>)
    ensures (forall n :: n in p.names ==> [n] in w.ledger.auth) ==> AllHere(p, w)
  {}

  lemma StillRecoverableHere<C>(b: Ledger<C>, p: Plan<C>, w: World<C>, es: seq<Move>, w': World<C>)
    requires Recoverable(b, p, w, es) && w' == w.(working := w'.working, ready := w'.ready)
    ensures Recoverable(b, p, w', es)
  {
    hide Grown, TreeKept;
  }

  /** Putting baseline credentials back does not change what can be restored. */
  lemma SameRestorable<C>(l: Ledger<C>, l': Ledger<C>, es: seq<Move>)
    requires l'.archive == l.archive && forall k :: k in SourcesOf(es) ==> (k in l.auth <==> k in l'.auth)
    ensures Restorable(l, es) <==> Restorable(l', es)
  {
    forall i | 0 <= i < |es| ensures es[i].parts in SourcesOf(es) {
      assert es[i] in es;
    }
  }

  /** Every receipt is a baseline receipt, or names a credential that this rollback takes for promoted. */
  ghost predicate Explained<C>(p: Plan<C>, w: World<C>) {
    && (forall r :: r in p.failure ==> r in w.failure && w.failure[r] == p.failure[r])
    && (forall r :: r in w.failure && r !in p.failure ==> w.failure[r].authFile in Promoted(p, w))
  }

  ghost predicate Answers<C>(p: Plan<C>, probe: Probe) {
    probe.baselineBehaves && probe.service == p.service && probe.poolState == p.poolState
  }

  /** The baseline tree, with the baseline credentials that another tree has as that tree has them. */
  function Back<C>(b: Ledger<C>, p: Plan<C>, auth: map<Rel, C>): map<Rel, C> {
    map k | k in b.auth :: if Named(k, p.names) && k in auth then auth[k] else b.auth[k]
  }

  lemma PoolOfKeys<C>(a: map<Rel, C>, c: map<Rel, C>)
    requires a.Keys == c.Keys
    ensures ActivePool(a) == ActivePool(c)
  {}

  lemma FinalVerdict<C>(b: Ledger<C>, p: Plan<C>, w: World<C>, w': World<C>, es: seq<Move>, d: Listings, probe: Probe)
    requires Baseline(b, p) && w'.ledger == Settled(b, w.ledger, es).(auth := Back(b, p, w.ledger.auth)) && ListsOf(p, w, d)
    requires Sifted(p, w, w.(failure := w'.failure, movedReceipts := w'.movedReceipts), d.receipts, Promoted(p, w))
    ensures Final(p, w', probe) == Judged(p, w, probe)
    ensures Judged(p, w, probe).Finished? <==> Answers(p, probe) && p.archiveEntries != [] && Explained(p, w)
  {
    hide ClashFree, ActivePool, FromNames, Promoted, ManifestBytes;
    forall e | e in b.manifest.entries ensures !e.NotAnObject? {}
    assert Back(b, p, w.ledger.auth).Keys == b.auth.Keys;
    PoolOfKeys(Back(b, p, w.ledger.auth), b.auth);
    assert forall r :: r in w'.failure <==> r in w.failure && !(r !in p.failure && w.failure[r].authFile in Promoted(p, w));
    if Explained(p, w) {
      assert forall r :: r in w'.failure <==> r in p.failure;
      assert w'.failure == p.failure;
    }
    if w'.failure == p.failure {
      assert forall r :: r in p.failure ==> r in w'.failure;
    }
  }

  lemma Single(k: Rel)
    ensures |k| == 1 ==> k == [k[0]]
  {}

  /** With the baseline back and the promoted credentials gone the tree is the baseline's, up to what the pool still had. */
  lemma TreeBack<C>(b: Ledger<C>, p: Plan<C>, w: World<C>, w1: World<C>, es: seq<Move>, after: Ledger<C>, names: seq<string>)
    requires Baseline(b, p) && Recoverable(b, p, w1, es) && AllBack(b, w1.ledger, after, es) && ImportsOnly(p, es)
    requires Refilled(p, w.(working := w1.working, ready := w1.ready), w1) && AllHere(p, w1)
    requires forall n :: n in names ==> n in p.imports
    requires forall c :: c in p.imports && ([c] in w1.ledger.auth || [c] in SourcesOf(es)) ==> c in names
    ensures after.(auth := after.auth - NamePaths(names)) == Settled(b, w.ledger, es).(auth := Back(b, p, w.ledger.auth))
  {
    hide Baseline, BatchMove, SourcesOf;
    var left := after.auth - NamePaths(names);
    forall k | k in left ensures k in b.auth && k in w1.ledger.auth {
      NamedPath(k, names);
      if k in SourcesOf(es) {
        SourceNamed(b, p, w1.ledger, es, k);
      }
      Single(k);
    }
    forall k | k in b.auth ensures k in left && left[k] == Back(b, p, w.ledger.auth)[k] {
      Single(k);
      if Named(k, p.names) {
        Apart(b, p, k[0]);
      } else {
        assert k in w1.ledger.auth;
      }
      forall n | n in names ensures [n] != k {
        Apart(b, p, n);
      }
    }
    assert left == Back(b, p, w.ledger.auth);
  }

  /** The condition on removed imports as the removal loop meets it. */
  lemma ClearIff<C>(b: Ledger<C>, p: Plan<C>, w: World<C>, w1: World<C>, after: Ledger<C>, es: seq<Move>, names: seq<string>)
    requires Baseline(b, p) && Recoverable(b, p, w, es) && AllBack(b, w1.ledger, after, es)
    requires Refilled(p, w.(working := w1.working, ready := w1.ready), w1)
    requires forall c :: c in p.imports && ([c] in w.ledger.auth || [c] in SourcesOf(es)) ==> c in names
    ensures Clear(w, es) <==> !(exists n :: n in names && n in w.removed && [n] in after.auth)
  {
    hide Baseline, Grown, TreeKept, CopiesKept, SourcesOf;
    forall n | n in w.removed ensures [n] in after.auth <==> [n] in w.ledger.auth || [n] in SourcesOf(es) {
      Apart(b, p, n);
      assert [n][0] == n;
    }
  }

  // ---------------------------------------------------------------- rollbacks that are refused

  lemma {:induction false} FrontGoes<C>(p: Plan<C>, w: World<C>, ops: seq<Op>, probe: Probe)
    requires forall op :: op in ops ==> !op.Conclude?
    ensures !Exec(p, w, ops, probe).1.Finished?
    decreases |ops|
  {
    if ops != [] {
      hide Act;
      assert ops[0] in ops && forall op :: op in ops[1..] ==> op in ops;
      FrontGoesOn(p, w, ops[0], probe);
      FrontGoes(p, Act(p, w, ops[0], probe).0, ops[1..], probe);
    }
  }

  lemma FrontGoesOn<C>(p: Plan<C>, w: World<C>, op: Op, probe: Probe)
    requires !op.Conclude?
    ensures !Act(p, w, op, probe).1.Finished?
  {
    hide AfterRestore, Promoted, Archive;
  }

  lemma ConcludeRefused<C>(p: Plan<C>, w: World<C>, probe: Probe)
    ensures var (w', verdict) := Act(p, w, Conclude, probe); !verdict.Going? && (!verdict.Finished? ==> w' == w)
  {}

  /** A rollback that works on imports only, cut off anywhere before its last operation, is a run. */
  lemma ImportsPartly<C>(b: Ledger<C>, p: Plan<C>, w: World<C>, es: seq<Move>, d: Listings, count: nat, probe: Probe)
    returns (run: seq<Event<C>>, es': seq<Move>)
    requires Baseline(b, p) && Recoverable(b, p, w, es) && (forall n :: n in d.promoted ==> n in p.imports) && count < |RollbackOps(p, w, d)|
    ensures PossibleRun(b, p, Stopped(p, w), run) && forall e :: e in run ==> e.Rolling? && e.cut.Clean?
    ensures Exec(p, Stopped(p, w), RollbackOps(p, w, d)[..count], probe).0 == Follow(b, p, Stopped(p, w), run)
    ensures Recoverable(b, p, Follow(b, p, Stopped(p, w), run), es')
  {
    hide Baseline, Exec, OfRollback, RollbackOps, PossibleRun, Follow, Grown, TreeKept, CopiesKept, Progress, Promoted, Guarded, Batch;
    var front := RollbackFits(b, p, w, es, d);
    var ops := RollbackOps(p, w, d)[..count];
    forall op | op in ops ensures OfRollback(b, p, op) {
      assert op in front;
    }
    RollbackGuarded(p, w, d, Stopped(p, w).ready);
    GuardedPrefix(RollbackOps(p, w, d), count, Stopped(p, w).ready);
    StoppedRecoverable(b, p, w, es);
    var n := ExecIsRun(b, p, Stopped(p, w), es, ops, probe);
    run := Performing(ops[..n]);
    es' := RunKeeps(b, p, Stopped(p, w), es, run);
  }

  /** The restores of a rollback, cut off anywhere, after its opening. */
  lemma RestoresPartly<C>(b: Ledger<C>, p: Plan<C>, w: World<C>, es: seq<Move>, names: seq<string>, count: nat, probe: Probe)
    returns (run: seq<Event<C>>)
    requires Baseline(b, p) && Recoverable(b, p, w, es) && AllHere(p, w) && w.ready && w.next == Steps(p)
    requires forall n :: n in names ==> n in Batch(p)
    requires count <= |Selected(Listing(w.ledger.manifest), names)|
    ensures PossibleRun(b, p, w, run) && forall e :: e in run ==> e.Rolling? && e.cut.Clean?
    ensures Exec(p, w, Restores(Selected(Listing(w.ledger.manifest), names)[..count]), probe).0 == Follow(b, p, w, run)
  {
    hide Baseline, Exec, PossibleRun, Follow, CopiesKept, TreeKept, Progress, Selected, Selectable, Batch, AllHere, Grown;
    var selectors := Selected(Listing(w.ledger.manifest), names);
    SelectorsSelectable(b, p, w.ledger, es, names);
    forall q | q in selectors[..count] ensures Selectable(b, p, q) {
      assert q in selectors;
    }
    var n := RestoresAreRun(b, p, w, es, selectors[..count], probe);
    run := Performing(Restores(selectors[..count])[..n]);
  }

  lemma {:induction false} FollowAppend<C>(b: Ledger<C>, p: Plan<C>, w: World<C>, xs: seq<Event<C>>, ys: seq<Event<C>>)
    requires PossibleRun(b, p, w, xs) && PossibleRun(b, p, Follow(b, p, w, xs), ys)
    ensures PossibleRun(b, p, w, xs + ys) && Follow(b, p, w, xs + ys) == Follow(b, p, Follow(b, p, w, xs), ys)
    decreases |xs|
  {
    hide Possible, Happen;
    if xs == [] {
      assert xs + ys == ys;
    } else {
      assert (xs + ys)[0] == xs[0] && (xs + ys)[1..] == xs[1..] + ys;
      FollowAppend(b, p, Happen(b, p, w, xs[0]), xs[1..], ys);
    }
  }

  /** A rollback that also takes an archived baseline credential for promoted never gets past its restores. */
  lemma NeverPastRestores<C>(b: Ledger<C>, p: Plan<C>, w: World<C>, es: seq<Move>, d: Listings, probe: Probe)
    requires Baseline(b, p) && Recoverable(b, p, w, es) && Lists(d.promoted, Promoted(p, w)) && !ImportsOnly(p, es) && w.promoted == {}
    ensures Exec(p, Stopped(p, w), Opening(p) + Restores(Selected(Listing(w.ledger.manifest), d.promoted)), probe).1.Rejected?
  {
    hide Baseline, Exec, Opening, Restores, Selected, Promoted, RestoreAll, Batch, CopiesKept, TreeKept, Progress, Within, AfterRestore;
    var w0, selectors := Stopped(p, w), Selected(Listing(w.ledger.manifest), d.promoted);
    StoppedRecoverable(b, p, w, es);
    var w1, verdict := OpeningRun(b, p, w0, es, probe);
    ExecAppend(p, w0, Opening(p), Restores(selectors), probe);
    if verdict.Going? {
      PromotedImports(b, p, w, es);
      var m :| m in es && Named(m.parts, p.names) && m.parts[0] in Promoted(p, w);
      ForeignEntry(b, p, w1.ledger, es, m, d.promoted);
      assert m.parts in w1.ledger.auth by { Single(m.parts); }
      OccupiedBlocks(w1.ledger, selectors, m);
      RestoresRun(p, w1, selectors, probe);
    }
  }

  lemma ForeignEntry<C>(b: Ledger<C>, p: Plan<C>, l: Ledger<C>, es: seq<Move>, m: Move, names: seq<string>)
    requires Grown(b, l, Batch(p), es) && m in es
    ensures m in Listing(l.manifest) && ValidParts(m.parts) && PlainName(m.quarantineName) && m.parts == [m.parts[0]]
    ensures m.parts[0] in names ==> m.quarantineName in Selected(Listing(l.manifest), names)
  {
    assert BatchMove(b, Batch(p), m) && m in b.manifest.entries + es;
    if m.parts[0] in names {
      SelectedHas(Listing(l.manifest), names, m);
    }
  }

  /** The same, cut off anywhere before its last operation, is a run. */
  lemma ForeignPartly<C>(b: Ledger<C>, p: Plan<C>, w: World<C>, es: seq<Move>, d: Listings, count: nat, probe: Probe)
    returns (run: seq<Event<C>>, es': seq<Move>)
    requires Baseline(b, p) && Recoverable(b, p, w, es) && Lists(d.promoted, Promoted(p, w)) && !ImportsOnly(p, es) && w.promoted == {}
    requires count <= |RollbackOps(p, w, d)|
    ensures PossibleRun(b, p, Stopped(p, w), run) && forall e :: e in run ==> e.Rolling? && e.cut.Clean?
    ensures Exec(p, Stopped(p, w), RollbackOps(p, w, d)[..count], probe).0 == Follow(b, p, Stopped(p, w), run)
    ensures Recoverable(b, p, Follow(b, p, Stopped(p, w), run), es')
  {
    hide Baseline, Exec, OfRollback, PossibleRun, Follow, CopiesKept, TreeKept, Progress, Promoted, Guarded, Batch, Opening, Closing, Selected,
      Restores, Within, Grown, Listing;
    var w0, selectors := Stopped(p, w), Selected(Listing(w.ledger.manifest), d.promoted);
    var x, y, z := Opening(p), Restores(selectors), Closing(d);
    StoppedRecoverable(b, p, w, es);
    run := OpeningPartly(b, p, w0, es, if count < |x| then count else |x|, probe);
    if count <= |x| {
      assert (x + (y + z))[..count] == x[..count];
    } else {
      NeverPastRestores(b, p, w, es, d, probe);
      var k := if count - |x| < |y| then count - |x| else |y|;
      assert (x + (y + z))[..count] == x + (y + z)[..count - |x|] && x[..|x|] == x;
      ExecAppend(p, w0, x, (y + z)[..count - |x|], probe);
      ExecAppend(p, w0, x, y, probe);
      var w1, verdict := OpeningRun(b, p, w0, es, probe);
      if verdict.Going? {
        PromotedInBatch(b, p, w, es);
        var rest := RestoresPartly(b, p, w1, es, d.promoted, k, probe);
        FollowAppend(b, p, w0, run, rest);
        RestoresPrefix(selectors, k);
        if count - |x| <= |y| {
          assert (y + z)[..count - |x|] == y[..k];
        } else {
          assert (y + z)[..count - |x|] == y + z[..count - |x| - |y|] && y[..k] == y;
          ExecAppend(p, w1, y, z[..count - |x| - |y|], probe);
        }
        run := run + rest;
      }
    }
    es' := RunKeeps(b, p, w0, es, run);
  }

  lemma RestoresPrefix(selectors: seq<string>, k: nat)
    requires k <= |selectors|
    ensures Restores(selectors)[..k] == Restores(selectors[..k])
  {}

  lemma PromotedInBatch<C>(b: Ledger<C>, p: Plan<C>, w: World<C>, es: seq<Move>)
    requires Baseline(b, p) && Recoverable(b, p, w, es)
    ensures forall n :: n in Promoted(p, w) ==> n in Batch(p)
  {
    hide Baseline, Recoverable, Promoted;
    PromotedCovers(b, p, w, es);
  }

  lemma OpeningPartly<C>(b: Ledger<C>, p: Plan<C>, w: World<C>, es: seq<Move>, count: nat, probe: Probe) returns (run: seq<Event<C>>)
    requires Baseline(b, p) && Recoverable(b, p, w, es) && w.next == Steps(p) && count <= |Opening(p)|
    ensures PossibleRun(b, p, w, run) && forall e :: e in run ==> e.Rolling? && e.cut.Clean?
    ensures Exec(p, w, Opening(p)[..count], probe).0 == Follow(b, p, w, run)
  {
    hide Baseline, Exec, OfRollback, PossibleRun, Follow, Recoverable, Guarded;
    OpeningFits(b, p);
    var x := Opening(p);
    forall op | op in x[..count] ensures OfRollback(b, p, op) && !op.RestoreArchived? {
      assert op in x;
    }
    OpeningGuarded(p, w.ready);
    GuardedPrefix(x, count, w.ready);
    var n := ExecIsRun(b, p, w, es, x[..count], probe);
    run := Performing(x[..count][..n]);
  }

  lemma OpeningGuarded<C>(p: Plan<C>, ready: bool)
    ensures Guarded(Opening(p), ready)
  {
    var puts := PutBacks(p.names) + [ReadArchive];
    forall op | op in puts ensures !op.RestoreArchived? && !op.Derive? {
      assert op in PutBacks(p.names) || op == ReadArchive;
    }
    GuardedAfter(puts, [], false);
    assert puts + [] == puts && ([Derive] + puts)[1..] == puts;
  }

  /** A rollback that dies after any number of operations, or is refused, is a run that keeps the promotion recoverable. */
  lemma PartlyKeeps<C>(b: Ledger<C>, p: Plan<C>, w: World<C>, es: seq<Move>, d: Listings, count: nat, probe: Probe)
    returns (run: seq<Event<C>>, es': seq<Move>)
    requires Baseline(b, p) && Recoverable(b, p, w, es) && Lists(d.promoted, Promoted(p, w)) && count < |RollbackOps(p, w, d)|
    ensures PossibleRun(b, p, Stopped(p, w), run) && forall e :: e in run ==> e.Rolling? && e.cut.Clean?
    ensures Exec(p, Stopped(p, w), RollbackOps(p, w, d)[..count], probe).0 == Follow(b, p, Stopped(p, w), run)
    ensures Recoverable(b, p, Follow(b, p, Stopped(p, w), run), es')
  {
    hide Baseline, Recoverable, Exec, RollbackOps, PossibleRun, Follow, Promoted, ImportsOnly, Batch;
    PromotedImports(b, p, w, es);
    if ImportsOnly(p, es) || w.promoted != {} {
      run, es' := ImportsPartly(b, p, w, es, d, count, probe);
    } else {
      run, es' := ForeignPartly(b, p, w, es, d, count, probe);
    }
  }

  /** A rollback that is refused, wherever, keeps the promotion recoverable. */
  lemma RefusedKeeps<C>(b: Ledger<C>, p: Plan<C>, w: World<C>, es: seq<Move>, d: Listings, probe: Probe) returns (left: seq<Move>)
    requires Baseline(b, p) && Recoverable(b, p, w, es) && Lists(d.promoted, Promoted(p, w)) && !Rollback(p, w, d, probe).1.Finished?
    ensures Rollback(p, w, d, probe).1.Rejected? && Recoverable(b, p, Rollback(p, w, d, probe).0, left)
  {
    hide Baseline, Recoverable, Exec, PossibleRun, Follow, Promoted, Act, Opening, Closing, Restores, Selected;
    var ops := RollbackOps(p, w, d);
    var front := FrontOf(p, w, d);
    var run;
    run, left := PartlyKeeps(b, p, w, es, d, |front|, probe);
    assert ops[..|front|] == front;
    ExecAppend(p, Stopped(p, w), front, [Conclude], probe);
    FrontGoes(p, Stopped(p, w), front, probe);
    OneOp(p, Exec(p, Stopped(p, w), front, probe).0, Conclude, probe);
    ConcludeRefused(p, Exec(p, Stopped(p, w), front, probe).0, probe);
  }

  lemma FrontOf<C>(p: Plan<C>, w: World<C>, d: Listings) returns (front: seq<Op>)
    ensures RollbackOps(p, w, d) == front + [Conclude] && forall op :: op in front ==> !op.Conclude?
  {
    hide Selected;
    var k, y := PutBacks(p.names), Restores(Selected(Listing(w.ledger.manifest), d.promoted));
    var r, f := Removes(d.promoted), Sifts(d.receipts);
    front := ([Derive] + (k + [ReadArchive])) + (y + (r + (f + [MoveTrigger])));
    assert RollbackOps(p, w, d) == front + [Conclude];
    forall op | op in front ensures !op.Conclude? {
      assert op == Derive || op in k || op == ReadArchive || op in y || op in r || op in f || op == MoveTrigger;
    }
  }

  // ---------------------------------------------------------------- entries of baseline credentials

  /** These operations touch neither the manifest nor a baseline credential. */
  ghost predicate Aloof<C>(p: Plan<C>, op: Op) {
    !op.RestoreArchived? && !op.PutBackBaseline? && (op.RemovePromoted? ==> op.name !in p.names)
  }

  lemma AloofKeeps<C>(p: Plan<C>, w: World<C>, op: Op, probe: Probe)
    requires Aloof(p, op) && AllHere(p, w)
    ensures AllHere(p, Act(p, w, op, probe).0) && Act(p, w, op, probe).0.ledger.manifest == w.ledger.manifest
    ensures |Listing(w.ledger.manifest)| > |p.archiveEntries| ==> !Act(p, w, op, probe).1.Finished?
  {
    hide Promoted, ActivePool, ManifestBytes;
    forall n: string | op.RemovePromoted? && n in p.names ensures [n] != [op.name] {
      assert [n][0] != [op.name][0];
    }
  }

  lemma {:induction false} AloofRun<C>(p: Plan<C>, w: World<C>, ops: seq<Op>, probe: Probe)
    requires AllHere(p, w) && forall op :: op in ops ==> Aloof(p, op)
    ensures var (w', verdict) := Exec(p, w, ops, probe);
            && AllHere(p, w') && w'.ledger.manifest == w.ledger.manifest
            && (|Listing(w.ledger.manifest)| > |p.archiveEntries| ==> !verdict.Finished?)
    decreases |ops|
  {
    if ops != [] {
      hide Act, Aloof, AllHere;
      assert ops[0] in ops && forall op :: op in ops[1..] ==> op in ops;
      AloofKeeps(p, w, ops[0], probe);
      AloofRun(p, Act(p, w, ops[0], probe).0, ops[1..], probe);
    }
  }

  lemma ClosingAloof<C>(b: Ledger<C>, p: Plan<C>, d: Listings)
    requires Baseline(b, p) && forall n :: n in d.promoted ==> n in p.imports
    ensures forall op :: op in Closing(d) ==> Aloof(p, op)
  {
    hide Baseline;
    var r, s := Removes(d.promoted), Sifts(d.receipts);
    forall op | op in Closing(d) ensures Aloof(p, op) {
      assert op in r || op in s || op == MoveTrigger || op == Conclude;
      if op in r {
        var i :| 0 <= i < |r| && r[i] == op;
        assert d.promoted[i] in d.promoted;
        Apart(b, p, d.promoted[i]);
      }
    }
  }

  /**
   A rollback under an entry of a baseline credential: it is refused, puts the baseline
   credentials back all the same, and the entry stays listed.
   */
  lemma ForeignRefused<C>(b: Ledger<C>, p: Plan<C>, w: World<C>, es: seq<Move>, d: Listings, probe: Probe) returns (m: Move)
    requires Baseline(b, p) && Recoverable(b, p, w, es) && Lists(d.promoted, Promoted(p, w)) && !ImportsOnly(p, es)
    requires Within(w.ledger.manifest, MAX_ARCHIVE_BYTES) && CanRefill(p, w)
    ensures var (w', verdict) := Rollback(p, w, d, probe);
            !verdict.Finished? && AllHere(p, w') && m in Listing(w'.ledger.manifest) && m in es && Named(m.parts, p.names)
  {
    hide Baseline, Exec, Opening, Closing, Restores, Selected, Promoted, RestoreAll, Batch, CopiesKept, TreeKept, Progress, Within, AfterRestore,
      CanRefill, AllHere;
    var w0, selectors := Stopped(p, w), Selected(Listing(w.ledger.manifest), d.promoted);
    StoppedRecoverable(b, p, w, es);
    assert CanRefill(p, w0) by { RefillsStopped(p, w); }
    var w1, verdict := OpeningRun(b, p, w0, es, probe);
    m := ForeignPick(b, p, w, es);
    ForeignEntry(b, p, w1.ledger, es, m, d.promoted);
    assert m.parts in w1.ledger.auth by { HereAt(p, w1, m); }
    OccupiedStays(w1.ledger, selectors, m);
    RestoresRun(p, w1, selectors, probe);
    var w2 := w1.(ledger := RestoreAll(w1.ledger, selectors).0);
    StillHere(p, w1, w2);
    ExecAppend(p, w0, Opening(p), Restores(selectors) + Closing(d), probe);
    ExecAppend(p, w1, Restores(selectors), Closing(d), probe);
    if RestoreAll(w1.ledger, selectors).1 {
      if w.promoted == {} {
        NeverPastRestores(b, p, w, es, d, probe);
        ExecAppend(p, w0, Opening(p), Restores(selectors), probe);
        assert false;
      }
      PromotedImports(b, p, w, es);
      ClosingAloof(b, p, d);
      ForeignLength(b, p, w1.ledger, es, m, d.promoted);
      RestoreAllCount(w1.ledger, selectors);
      AloofRun(p, w2, Closing(d), probe);
    }
  }

  lemma RefillsStopped<C>(p: Plan<C>, w: World<C>)
    ensures CanRefill(p, Stopped(p, w)) == CanRefill(p, w)
  {}

  lemma ForeignPick<C>(b: Ledger<C>, p: Plan<C>, w: World<C>, es: seq<Move>) returns (m: Move)
    requires Recoverable(b, p, w, es) && !ImportsOnly(p, es)
    ensures m in es && Named(m.parts, p.names)
  {
    hide Grown, TreeKept, CopiesKept, Progress;
    var k :| k in SourcesOf(es) && Named(k, p.names);
    m :| m in es && m.parts == k;
  }

  lemma HereAt<C>(p: Plan<C>, w: World<C>, m: Move)
    requires AllHere(p, w) && Named(m.parts, p.names)
    ensures m.parts in w.ledger.auth
  {
    Single(m.parts);
  }

  lemma StillHere<C>(p: Plan<C>, w: World<C>, w': World<C>)
    requires AllHere(p, w) && forall k :: k in w.ledger.auth ==> k in w'.ledger.auth
    ensures AllHere(p, w')
  {}

  lemma ForeignLength<C>(b: Ledger<C>, p: Plan<C>, l: Ledger<C>, es: seq<Move>, m: Move, names: seq<string>)
    requires Baseline(b, p) && Grown(b, l, Batch(p), es) && m in es && Named(m.parts, p.names) && forall n :: n in names ==> n in p.imports
    ensures |Listing(l.manifest)| - |Selected(Listing(l.manifest), names)| > |p.archiveEntries|
  {
    hide ClashFree, ActivePool, Readable, BatchMove, Selected;
    Apart(b, p, m.parts[0]);
    assert !FromNames(m, names);
    forall e | e in b.manifest.entries ensures !FromNames(e, names) {
      assert !FromNames(e, p.imports);
    }
    SelectedFewer(b.manifest.entries, es, names);
  }

  // ---------------------------------------------------------------- rollbacks that get to the archive

  /**
   Everything that a rollback needs is there: the archive manifest is not too large, every
   baseline credential can be put back, no entry is that of one, the imports' entries can be
   restored and no removed import is back.
   */
  ghost predicate Intact<C>(p: Plan<C>, w: World<C>, es: seq<Move>) {
    && Within(w.ledger.manifest, MAX_ARCHIVE_BYTES) && CanRefill(p, w)
    && ImportsOnly(p, es) && Restorable(w.ledger, es) && Clear(w, es)
  }

  /**
   Every promoted credential that was in the pool or listed as archived is kept aside with
   its content, what was kept before stays, and nothing else is put there.
   */
  ghost predicate Contained<C>(p: Plan<C>, w: World<C>, w': World<C>, es: seq<Move>) {
    && (forall n :: n in w.removed ==> n in w'.removed && w'.removed[n] == w.removed[n])
    && (forall n :: n in Promoted(p, w) && [n] in w.ledger.auth ==> n in w'.removed && w'.removed[n] == w.ledger.auth[[n]])
    && (forall m :: m in es ==>
          |m.parts| == 1 && m.parts[0] in w'.removed
          && [m.quarantineName] in w.ledger.archive && w'.removed[m.parts[0]] == w.ledger.archive[[m.quarantineName]])
    && (forall n :: n in w'.removed && n !in w.removed ==> n in Promoted(p, w) && ([n] in w.ledger.auth || [n] in SourcesOf(es)))
  }

  /** What went to the removed ones, in terms of the tree before the removal. */
  lemma RemovedFrom<C>(w: World<C>, w': World<C>, names: seq<string>, n: string)
    requires Removing(w, w', names) && w'.ledger.auth == w.ledger.auth - NamePaths(names) && n in names && [n] in w.ledger.auth
    ensures n in w'.removed && n !in w.removed && w'.removed[n] == w.ledger.auth[[n]]
  {
    assert [n] in NamePaths(names) && [n][0] == n;
  }

  /** The imports of the pool, and the entries', as they are before the removal. */
  lemma ImportsBefore<C>(b: Ledger<C>, p: Plan<C>, w: World<C>, w1: World<C>, w2: World<C>, es: seq<Move>, c: string)
    requires Baseline(b, p) && c in p.imports
    requires Refilled(p, Stopped(p, w).(working := w1.working, ready := w1.ready), w1)
    requires AllBack(b, w1.ledger, w2.ledger, es)
    ensures [c] in w.ledger.auth ==> [c] in w2.ledger.auth && w2.ledger.auth[[c]] == w.ledger.auth[[c]]
    ensures [c] in w2.ledger.auth ==> [c] in w.ledger.auth || [c] in SourcesOf(es)
  {
    hide Baseline, SourcesOf;
    Apart(b, p, c);
    assert [c][0] == c;
    assert [c] in w.ledger.auth ==> [c] in w1.ledger.auth;
  }

  lemma ContainedHere<C>(b: Ledger<C>, p: Plan<C>, w: World<C>, w1: World<C>, w2: World<C>, w': World<C>, es: seq<Move>, names: seq<string>)
    requires Baseline(b, p) && Recoverable(b, p, w, es) && ImportsOnly(p, es) && Lists(names, Promoted(p, w))
    requires forall n :: n in names ==> n in p.imports
    requires forall c :: c in p.imports && ([c] in w.ledger.auth || [c] in SourcesOf(es)) ==> c in names
    requires Refilled(p, Stopped(p, w).(working := w1.working, ready := w1.ready), w1) && w1.ledger.archive == w.ledger.archive
    requires AllBack(b, w1.ledger, w2.ledger, es) && ContentsBack(w1.ledger, w2.ledger, es) && w2.removed == w.removed
    requires Removing(w2, w', names) && w'.ledger.auth == w2.ledger.auth - NamePaths(names)
    ensures Contained(p, w, w', es)
  {
    hide Baseline, Recoverable, Promoted, Refilled, AllBack, SourcesOf, NamePaths, Removing, ImportsOnly;
    assert forall n :: n in w.removed ==> n in w'.removed && w'.removed[n] == w.removed[n] by { RemovedStays(w2, w', names); }
    forall n | n in Promoted(p, w) && [n] in w.ledger.auth ensures n in w'.removed && w'.removed[n] == w.ledger.auth[[n]] {
      ImportsBefore(b, p, w, w1, w2, es, n);
      RemovedFrom(w2, w', names, n);
    }
    forall m | m in es
      ensures |m.parts| == 1 && m.parts[0] in w'.removed
              && [m.quarantineName] in w.ledger.archive && w'.removed[m.parts[0]] == w.ledger.archive[[m.quarantineName]] {
      EntryNamed(b, p, w, es, m);
      RemovedFrom(w2, w', names, m.parts[0]);
    }
    forall n | n in w'.removed && n !in w.removed ensures n in Promoted(p, w) && ([n] in w.ledger.auth || [n] in SourcesOf(es)) {
      RemovedNamed(w2, w', names, n);
      ImportsBefore(b, p, w, w1, w2, es, n);
    }
  }

  lemma RemovedStays<C>(w: World<C>, w': World<C>, names: seq<string>)
    requires Removing(w, w', names)
    ensures forall n :: n in w.removed ==> n in w'.removed && w'.removed[n] == w.removed[n]
  {}

  lemma RemovedNamed<C>(w: World<C>, w': World<C>, names: seq<string>, n: string)
    requires Removing(w, w', names) && n in w'.removed && n !in w.removed
    ensures n in names && [n] in w.ledger.auth
  {}

  lemma EntryNamed<C>(b: Ledger<C>, p: Plan<C>, w: World<C>, es: seq<Move>, m: Move)
    requires Recoverable(b, p, w, es) && ImportsOnly(p, es) && m in es
    ensures m.parts == [m.parts[0]] && m.parts[0] in p.imports && m.parts in SourcesOf(es)
  {
    hide Grown, TreeKept, CopiesKept, Progress;
    assert m.parts in SourcesOf(es);
    SourceNamed(b, p, w.ledger, es, m.parts);
  }

  lemma ContainedPhase<C>(p: Plan<C>, w: World<C>, w3: World<C>, w': World<C>, es: seq<Move>)
    requires Contained(p, w, w3, es) && w'.removed == w3.removed
    ensures Contained(p, w, w', es)
  {}

  /** How an undisturbed rollback that found everything ends. */
  ghost function Judged<C>(p: Plan<C>, w: World<C>, probe: Probe): Verdict {
    if !probe.baselineBehaves then Rejected(BehaviourChanged)
    else if probe.poolState != p.poolState then Rejected(PoolStateChanged)
    else if probe.service == p.service && p.archiveEntries != [] && Explained(p, w) then Finished
    else Rejected(NotRestored)
  }

  /** A rollback that puts the baseline credentials back and finds only imports archived. */
  lemma OwnRollback<C>(b: Ledger<C>, p: Plan<C>, w: World<C>, es: seq<Move>, d: Listings, probe: Probe)
    returns (w': World<C>, verdict: Verdict)
    requires Baseline(b, p) && Recoverable(b, p, w, es) && ListsOf(p, w, d) && ImportsOnly(p, es)
    requires Within(w.ledger.manifest, MAX_ARCHIVE_BYTES) && CanRefill(p, w)
    ensures Rollback(p, w, d, probe) == (w', verdict)
    ensures !Restorable(w.ledger, es) ==> verdict == Rejected(NotContained)
    ensures Restorable(w.ledger, es) && !Clear(w, es) ==> verdict == Rejected(UnsafePath)
    ensures Restorable(w.ledger, es) && Clear(w, es) ==>
              && w'.ledger == Settled(b, w.ledger, es).(auth := Back(b, p, w.ledger.auth)) && w'.trigger.None? && w'.promoted == w.promoted
              && w'.movedTrigger == LastTrigger(w) && Contained(p, w, w', es) && verdict == Judged(p, w, probe)
              && w'.phase == (if verdict.Finished? then Recovered else w.phase)
              && Sifted(p, w, w.(failure := w'.failure, movedReceipts := w'.movedReceipts), d.receipts, Promoted(p, w))
              && (verdict.Finished? <==> Answers(p, probe) && p.archiveEntries != [] && Explained(p, w))
  {
    hide Baseline, Exec, Closing, Opening, Restores, Selected, Final, Sifted, Explained, Promoted, Restorable, Clear, AllBack,
      Grown, TreeKept, CopiesKept, Progress, Answers, ImportsOnly, Within, CanRefill, RestoreAll, Batch, Refilled, Removing, Contained,
      Judged, ContentsBack;
    var w0 := Stopped(p, w);
    StoppedRecoverable(b, p, w, es);
    RefillsStopped(p, w);
    ListingSelects(b, p, w, es, d.promoted);
    var rs := Restores(NamesOf(es));
    var w1, v1 := OpeningRun(b, p, w0, es, probe);
    ExecAppend(p, w0, Opening(p), rs + Closing(d), probe);
    BaselinePlaced(b, p);
    SamePlaces(b, p, w, w1, es);
    var left := RestoreAllIff(b, w1.ledger, Batch(p), es);
    RestoresRun(p, w1, NamesOf(es), probe);
    var w2 := w1.(ledger := RestoreAll(w1.ledger, NamesOf(es)).0);
    ExecAppend(p, w1, rs, Closing(d), probe);
    w', verdict := w2, Rejected(NotContained);
    if Restorable(w.ledger, es) {
      ClearIff(b, p, w0, w1, w2.ledger, es, d.promoted);
      ClearStopped(p, w, es);
      ImportsOut(b, p, w1.ledger, w2.ledger, es, d.promoted);
      var w3 := ClosingRun(p, w2, d, probe);
      w', verdict := w3, Rejected(UnsafePath);
      ReturnedIs(w2, d.promoted);
      if Clear(w, es) {
        ListedImports(b, p, w, w1, es, d.promoted);
        TreeBack(b, p, w0, w1, es, w2.ledger, d.promoted);
        SiftedSource(p, w, w2, w3, d.receipts, Promoted(p, w));
        RemovedLast(b, p, w, w1, w2, w3, es, d.promoted);
        FinalVerdict(b, p, w, w3, es, d, probe);
        verdict := Final(p, w3, probe);
        w' := if verdict.Finished? then w3.(phase := Recovered) else w3;
        ContainedPhase(p, w, w3, w', es);
      }
    }
  }

  lemma RemovedLast<C>(b: Ledger<C>, p: Plan<C>, w: World<C>, w1: World<C>, w2: World<C>, w3: World<C>, es: seq<Move>, names: seq<string>)
    requires Baseline(b, p) && Recoverable(b, p, w, es) && ImportsOnly(p, es) && Lists(names, Promoted(p, w))
    requires forall n :: n in names ==> n in p.imports
    requires forall c :: c in p.imports && ([c] in w.ledger.auth || [c] in SourcesOf(es)) ==> c in names
    requires Refilled(p, Stopped(p, w).(working := w1.working, ready := w1.ready), w1) && w1.ledger.archive == w.ledger.archive
    requires AllBack(b, w1.ledger, w2.ledger, es) && ContentsBack(w1.ledger, w2.ledger, es) && w2.removed == w.removed
    requires Removing(w2, w2.(ledger := w3.ledger, removed := w3.removed), names) && w3.ledger.auth == w2.ledger.auth - NamePaths(names)
    ensures Contained(p, w, w3, es)
  {
    hide Baseline, Recoverable, ImportsOnly, Promoted, Refilled, AllBack, ContentsBack, Removing, NamePaths, Lists;
    ContainedHere(b, p, w, w1, w2, w2.(ledger := w3.ledger, removed := w3.removed), es, names);
    ContainedPhase(p, w, w2.(ledger := w3.ledger, removed := w3.removed), w3, es);
  }

  lemma ClearStopped<C>(p: Plan<C>, w: World<C>, es: seq<Move>)
    ensures Clear(Stopped(p, w), es) <==> Clear(w, es)
  {}

  /** Putting the baseline back leaves the archive and the places of the imports as they are. */
  lemma SamePlaces<C>(b: Ledger<C>, p: Plan<C>, w: World<C>, w1: World<C>, es: seq<Move>)
    requires Baseline(b, p) && Grown(b, w.ledger, Batch(p), es) && ImportsOnly(p, es)
    requires Refilled(p, Stopped(p, w).(working := w1.working, ready := w1.ready), w1)
    ensures w1.ledger == w.ledger.(auth := w1.ledger.auth) && w1.failure == w.failure && w1.movedReceipts == w.movedReceipts
    ensures w1.removed == w.removed && w1.promoted == w.promoted && w1.phase == w.phase
    ensures w1.trigger == w.trigger && w1.movedTrigger == w.movedTrigger
    ensures Restorable(w.ledger, es) <==> Restorable(w1.ledger, es)
    ensures Within(w.ledger.manifest, MAX_ARCHIVE_BYTES) ==> Legible(w1.ledger, es)
  {
    hide Baseline, SourcesOf, Grown;
    SameRestorable(w.ledger, w1.ledger, es);
  }

  lemma ReturnedIs<C>(w: World<C>, names: seq<string>)
    ensures Returned(w, names) <==> exists n :: n in names && n in w.removed && [n] in w.ledger.auth
  {}

  lemma ListedImports<C>(b: Ledger<C>, p: Plan<C>, w: World<C>, w1: World<C>, es: seq<Move>, names: seq<string>)
    requires Baseline(b, p) && Refilled(p, Stopped(p, w).(working := w1.working, ready := w1.ready), w1)
    requires forall c :: c in p.imports && ([c] in w.ledger.auth || [c] in SourcesOf(es)) ==> c in names
    ensures forall c :: c in p.imports && ([c] in w1.ledger.auth || [c] in SourcesOf(es)) ==> c in names
  {
    hide Baseline, SourcesOf;
    forall c | c in p.imports && [c] in w1.ledger.auth ensures [c] in w.ledger.auth {
      Apart(b, p, c);
      assert [c][0] == c;
    }
  }

  lemma ImportsOut<C>(b: Ledger<C>, p: Plan<C>, l: Ledger<C>, after: Ledger<C>, es: seq<Move>, names: seq<string>)
    requires Baseline(b, p) && Grown(b, l, Batch(p), es) && AllBack(b, l, after, es) && forall n :: n in names ==> n in p.imports
    ensures forall n :: n in names ==> [n] !in after.dirs
  {
    hide Baseline;
    forall n | n in names ensures [n] !in after.dirs {
      Apart(b, p, n);
    }
  }

  lemma SiftedSource<C>(p: Plan<C>, w: World<C>, w2: World<C>, w3: World<C>, receipts: seq<string>, owners: set<string>)
    requires w2.failure == w.failure && w2.movedReceipts == w.movedReceipts
    requires Sifted(p, w2, w2.(failure := w3.failure, movedReceipts := w3.movedReceipts), receipts, owners)
    ensures Sifted(p, w, w.(failure := w3.failure, movedReceipts := w3.movedReceipts), receipts, owners)
  {}

  /**
   A rollback run to its end.  It is accepted if and only if everything it needs is there,
   the world answers as before, the baseline archive was not empty and every receipt is
   explained.  Then, and even if only the last three fail, the auth tree is the baseline's
   but for credentials rewritten in the pool, the manifest is the baseline's, the archive
   has exactly the baseline's files and the orphans, and the promoted credentials are kept
   aside with their contents.  A refusal keeps the promotion recoverable.
   */
  lemma RollbackRestores<C>(b: Ledger<C>, p: Plan<C>, w: World<C>, es: seq<Move>, d: Listings, probe: Probe)
    returns (w': World<C>, verdict: Verdict, left: seq<Move>)
    requires Baseline(b, p) && Recoverable(b, p, w, es) && ListsOf(p, w, d)
    ensures Rollback(p, w, d, probe) == (w', verdict)
    ensures !verdict.Finished? ==> verdict.Rejected? && Recoverable(b, p, w', left)
    // the manifest is too large, or a baseline credential cannot be put back: no import is restored or removed
    ensures !Within(w.ledger.manifest, MAX_ARCHIVE_BYTES) || !CanRefill(p, w) ==>
              && verdict in {Rejected(UnsafePool), Rejected(SourceUnavailable), Rejected(ArchiveInvalid)}
              && w'.ledger == w.ledger.(auth := w'.ledger.auth) && w'.removed == w.removed && w'.failure == w.failure
    ensures !Within(w.ledger.manifest, MAX_ARCHIVE_BYTES) && (w.promoted == {} || CanRefill(p, w)) ==> verdict == Rejected(ArchiveInvalid)
    ensures Within(w.ledger.manifest, MAX_ARCHIVE_BYTES) && !CanRefill(p, w) ==> verdict in {Rejected(UnsafePool), Rejected(SourceUnavailable)}
    ensures (!Within(w.ledger.manifest, MAX_ARCHIVE_BYTES) || !CanRefill(p, w)) && verdict == Rejected(UnsafePool) ==> w.halfMade != {}
    ensures (!Within(w.ledger.manifest, MAX_ARCHIVE_BYTES) || !CanRefill(p, w)) && verdict == Rejected(SourceUnavailable) ==>
              exists n :: n in p.names && StaleHold(p, w, n)
    // an entry is that of a baseline credential: it stays listed
    ensures Within(w.ledger.manifest, MAX_ARCHIVE_BYTES) && CanRefill(p, w) && !ImportsOnly(p, es) ==>
              verdict.Rejected? && AllHere(p, w') && !ImportsOnly(p, left)
    // only imports are archived
    ensures Within(w.ledger.manifest, MAX_ARCHIVE_BYTES) && CanRefill(p, w) && ImportsOnly(p, es) && !Restorable(w.ledger, es) ==>
              verdict == Rejected(NotContained)
    ensures Within(w.ledger.manifest, MAX_ARCHIVE_BYTES) && CanRefill(p, w) && ImportsOnly(p, es) && Restorable(w.ledger, es) && !Clear(w, es) ==>
              verdict == Rejected(UnsafePath)
    ensures Intact(p, w, es) ==>
              && w'.ledger == Settled(b, w.ledger, es).(auth := Back(b, p, w.ledger.auth)) && w'.trigger.None? && w'.promoted == w.promoted
              && w'.movedTrigger == LastTrigger(w) && Contained(p, w, w', es) && verdict == Judged(p, w, probe)
              && w'.phase == (if verdict.Finished? then Recovered else w.phase)
              && Sifted(p, w, w.(failure := w'.failure, movedReceipts := w'.movedReceipts), d.receipts, Promoted(p, w))
    ensures verdict.Finished? <==> Intact(p, w, es) && Answers(p, probe) && p.archiveEntries != [] && Explained(p, w)
  {
    hide Baseline, Recoverable, Exec, Opening, Closing, Restores, Selected, Sifted, Explained, Promoted, Restorable, Clear, Answers, ImportsOnly,
      Within, CanRefill, Batch, AllHere, Contained, Judged;
    w', verdict := Rollback(p, w, d, probe).0, Rollback(p, w, d, probe).1;
    left := es;
    if !Within(w.ledger.manifest, MAX_ARCHIVE_BYTES) || !CanRefill(p, w) {
      EarlyRefused(b, p, w, es, d, probe);
      left := RefusedKeeps(b, p, w, es, d, probe);
    } else if ImportsOnly(p, es) {
      var w2, v2 := OwnRollback(b, p, w, es, d, probe);
      if !verdict.Finished? {
        left := RefusedKeeps(b, p, w, es, d, probe);
      }
    } else {
      var m := ForeignRefused(b, p, w, es, d, probe);
      left := RefusedKeeps(b, p, w, es, d, probe);
      NotOlder(b, p, w, es, m);
      StaysForeign(b, p, w', left, m);
    }
  }

  /** The manifest is too large, or some baseline credential cannot be put back. */
  lemma EarlyRefused<C>(b: Ledger<C>, p: Plan<C>, w: World<C>, es: seq<Move>, d: Listings, probe: Probe)
    requires Baseline(b, p) && Recoverable(b, p, w, es) && (!Within(w.ledger.manifest, MAX_ARCHIVE_BYTES) || !CanRefill(p, w))
    ensures var (w', verdict) := Rollback(p, w, d, probe);
            && verdict in {Rejected(UnsafePool), Rejected(SourceUnavailable), Rejected(ArchiveInvalid)}
            && w'.ledger == w.ledger.(auth := w'.ledger.auth) && w'.removed == w.removed && w'.failure == w.failure
            && (!Within(w.ledger.manifest, MAX_ARCHIVE_BYTES) && (w.promoted == {} || CanRefill(p, w)) ==> verdict == Rejected(ArchiveInvalid))
            && (Within(w.ledger.manifest, MAX_ARCHIVE_BYTES) ==> verdict in {Rejected(UnsafePool), Rejected(SourceUnavailable)})
            && (verdict == Rejected(UnsafePool) ==> w.halfMade != {})
            && (verdict == Rejected(SourceUnavailable) ==> exists n :: n in p.names && StaleHold(p, w, n))
  {
    hide Baseline, Recoverable, Exec, Opening, Closing, Restores, Selected, Within, CanRefill, Promoted;
    var w0 := Stopped(p, w);
    StoppedRecoverable(b, p, w, es);
    RefillsStopped(p, w);
    var w1, verdict := OpeningRun(b, p, w0, es, probe);
    ExecAppend(p, w0, Opening(p), Restores(Selected(Listing(w.ledger.manifest), d.promoted)) + Closing(d), probe);
    if n :| n in p.names && StaleHold(p, w0, n) {
      assert StaleHold(p, w, n);
    }
  }

  lemma NotOlder<C>(b: Ledger<C>, p: Plan<C>, w: World<C>, es: seq<Move>, m: Move)
    requires Recoverable(b, p, w, es) && m in es
    ensures m !in b.manifest.entries
  {
    hide TreeKept, CopiesKept, Progress, Selectors, EntryPaths;
    assert BatchMove(b, Batch(p), m);
    EntrySelected(m, m.quarantineName);
  }

  lemma StaysForeign<C>(b: Ledger<C>, p: Plan<C>, w: World<C>, es: seq<Move>, m: Move)
    requires Recoverable(b, p, w, es) && m in Listing(w.ledger.manifest) && Named(m.parts, p.names)
    requires m !in b.manifest.entries
    ensures !ImportsOnly(p, es)
  {
    assert m in es && m.parts in SourcesOf(es);
  }

  // ---------------------------------------------------------------- nothing is lost

  /** All contents that the promotion has: pool and archive, the hold, and what was removed. */
  ghost function Stock<C>(w: World<C>): multiset<C> {
    Contents(w.ledger) + Values(w.held) + Values(w.removed)
  }

  /** What writing the private copies of these credentials adds. */
  function Copied<C>(p: Plan<C>, names: seq<string>): multiset<C>
    requires forall n :: n in names ==> n in p.baseline
  {
    if names == [] then multiset{} else multiset{p.baseline[names[0]]} + Copied(p, names[1..])
  }

  /** Each operation only moves contents, except that putting a baseline credential back may write its private copy. */
  lemma ActConserves<C>(p: Plan<C>, w: World<C>, op: Op, probe: Probe)
    ensures var w' := Act(p, w, op, probe).0;
            Stock(w') == Stock(w) + (if op.PutBackBaseline? && Copies(p, w, op.name) then multiset{p.baseline[op.name]} else multiset{})
  {
    hide Values, Promoted, Archive, Final, AfterRestore, PutBack, Copies;
    match op
    case RestoreArchived(q) => StepConserves(w.ledger, Return(q, Clean));
    case RemovePromoted(n) => RemoveConserves(p, w, n, probe);
    case PutBackBaseline(n) => PutBackConserves(p, w, n);
    case _ =>
  }

  lemma RemoveConserves<C>(p: Plan<C>, w: World<C>, n: string, probe: Probe)
    ensures Stock(Act(p, w, RemovePromoted(n), probe).0) == Stock(w)
  {
    hide Values, Promoted, Archive, Final, AfterRestore, PutBack;
    if [n] in w.ledger.auth && n !in w.removed {
      ValuesRemove(w.ledger.auth, [n]);
      ValuesInsert(w.removed, n, w.ledger.auth[[n]]);
    }
  }

  lemma PutBackConserves<C>(p: Plan<C>, w: World<C>, n: string)
    ensures Stock(PutBack(p, w, n).0) == Stock(w) + (if Copies(p, w, n) then multiset{p.baseline[n]} else multiset{})
  {
    hide Values, Stock;
    if n in p.baseline && [n] !in w.ledger.auth && [n] !in w.ledger.dirs {
      if n !in w.held {
        CopyPut(w, n, p.baseline[n]);
      } else if w.held[n] == p.baseline[n] {
        HoldPut(w, n);
      }
    }
  }

  lemma CopyPut<C>(w: World<C>, n: string, content: C)
    requires [n] !in w.ledger.auth
    ensures Stock(w.(ledger := w.ledger.(auth := w.ledger.auth[[n] := content]))) == Stock(w) + multiset{content}
  {
    hide Values;
    ValuesInsert(w.ledger.auth, [n], content);
  }

  lemma HoldPut<C>(w: World<C>, n: string)
    requires [n] !in w.ledger.auth && n in w.held
    ensures Stock(w.(ledger := w.ledger.(auth := w.ledger.auth[[n] := w.held[n]]), held := w.held - {n})) == Stock(w)
  {
    hide Values;
    ValuesInsert(w.ledger.auth, [n], w.held[n]);
    ValuesRemove(w.held, n);
  }

  /**
   A rollback, accepted, refused or cut off after any of its operations, loses no content and
   duplicates none: beyond what was there it leaves only private copies of baseline
   credentials that were missing from the pool and the hold.
   */
  lemma {:induction false} ExecConserves<C>(p: Plan<C>, w: World<C>, ops: seq<Op>, probe: Probe) returns (copied: seq<string>)
    ensures forall n :: n in copied ==> n in p.baseline && PutBackBaseline(n) in ops
    ensures Stock(Exec(p, w, ops, probe).0) == Stock(w) + Copied(p, copied)
    decreases |ops|
  {
    hide Act, Stock, Copies;
    copied := [];
    if ops != [] {
      assert ops[0] in ops && forall op :: op in ops[1..] ==> op in ops;
      ActConserves(p, w, ops[0], probe);
      if Act(p, w, ops[0], probe).1.Going? {
        copied := ExecConserves(p, Act(p, w, ops[0], probe).0, ops[1..], probe);
      }
      if ops[0].PutBackBaseline? && Copies(p, w, ops[0].name) {
        CopiesNamed(p, w, ops[0].name);
        var more := [ops[0].name] + copied;
        assert more[1..] == copied;
        copied := more;
      }
    }
  }

  lemma CopiesNamed<C>(p: Plan<C>, w: World<C>, n: string)
    requires Copies(p, w, n)
    ensures n in p.baseline
  {}

  // ---------------------------------------------------------------- the main results

  /** The baseline credentials in the pool have their contents. */
  ghost predicate Unchanged<C>(p: Plan<C>, w: World<C>) {
    forall n :: n in p.baseline && [n] in w.ledger.auth ==> w.ledger.auth[[n]] == p.baseline[n]
  }

  lemma BackIsBaseline<C>(b: Ledger<C>, p: Plan<C>, w: World<C>)
    requires Baseline(b, p)
    ensures Back(b, p, w.ledger.auth) == b.auth <==> Unchanged(p, w)
  {
    hide Baseline;
    var back := Back(b, p, w.ledger.auth);
    if Unchanged(p, w) {
      forall k | k in b.auth ensures back[k] == b.auth[k] {
        Single(k);
        if Named(k, p.names) {
          Apart(b, p, k[0]);
        }
      }
    } else {
      var n :| n in p.baseline && [n] in w.ledger.auth && w.ledger.auth[[n]] != p.baseline[n];
      Apart(b, p, n);
      assert [n][0] == n && back[[n]] != b.auth[[n]];
    }
  }

  /**
   Rollback is exact.  Whatever happened to the promotion, with promotions and rollbacks
   dying anywhere, quarantines, restores and private copies cut anywhere, and baseline
   credentials rewritten, archived or lost, one undisturbed rollback is accepted if and only
   if everything it needs is there, the world answers as before, the baseline archive was not
   empty and every receipt is explained; and then the baseline is back, but for credentials
   that were rewritten in the pool, and the promoted credentials are kept aside.
   */
  lemma CrashRollback<C>(b: Ledger<C>, p: Plan<C>, start: World<C>, run: seq<Event<C>>, d: Listings, probe: Probe)
    returns (w: World<C>, es: seq<Move>, w': World<C>, verdict: Verdict)
    requires Baseline(b, p) && Initial(b, p, start) && PossibleRun(b, p, start, run) && ListsOf(p, Follow(b, p, start, run), d)
    ensures w == Follow(b, p, start, run) && w.ledger.manifest == Listed(b.manifest.entries + es)
    ensures Rollback(p, w, d, probe) == (w', verdict)
    ensures verdict.Finished? <==> Intact(p, w, es) && Answers(p, probe) && p.archiveEntries != [] && Explained(p, w)
    ensures Intact(p, w, es) ==>
              && w'.ledger == Settled(b, w.ledger, es).(auth := Back(b, p, w.ledger.auth)) && w'.trigger.None?
              && w'.movedTrigger == LastTrigger(w) && Contained(p, w, w', es) && verdict == Judged(p, w, probe)
              && (w'.ledger == b <==> Orphans(b, w.ledger, es) == {} && Unchanged(p, w))
  {
    hide Baseline, Initial, Rollback, Explained, ListsOf, Sifted, Promoted, Restorable, Clear, Answers, TreeKept, CopiesKept, Progress, Intact,
      Contained, Judged, ImportsOnly, CanRefill, Within, Batch, Unchanged, Back, Genuine;
    InitialRecoverable(b, p, start);
    w := Follow(b, p, start, run);
    es := RunKeeps(b, p, start, [], run);
    var left;
    w', verdict, left := RollbackRestores(b, p, w, es, d, probe);
    SettledIsBaseline(b, w.ledger, Batch(p), es);
    GrownListing(b, w.ledger, Batch(p), es);
    BackIsBaseline(b, p, w);
    SameLedgers(b, w.ledger, es, Back(b, p, w.ledger.auth));
  }

  lemma SameLedgers<C>(b: Ledger<C>, l: Ledger<C>, es: seq<Move>, auth: map<Rel, C>)
    ensures Settled(b, l, es).(auth := auth) == b <==> Settled(b, l, es) == b && auth == b.auth
  {}

  /**
   As long as no quarantine or restore is cut with its entry listed and its file outside the
   archive, no copy is half made, and the baseline credentials are neither archived nor
   rewritten, a rollback is accepted whenever the archive manifest is not too large and the
   world and the receipts answer; it leaves one orphan for each file that was left in the
   archive unlisted, and the ledger is the baseline's exactly when there was none.
   */
  lemma LosslessRollback<C>(b: Ledger<C>, p: Plan<C>, start: World<C>, run: seq<Event<C>>, d: Listings, probe: Probe)
    returns (w: World<C>, es: seq<Move>, w': World<C>)
    requires Baseline(b, p) && Initial(b, p, start) && PossibleRun(b, p, start, run) && Losses(b, p, start, run) == 0 && RunSpares(p, run)
    requires ListsOf(p, Follow(b, p, start, run), d) && Follow(b, p, start, run).halfMade == {}
    ensures w == Follow(b, p, start, run) && w.ledger.manifest == Listed(b.manifest.entries + es)
    ensures Rollback(p, w, d, probe).0 == w'
    ensures Rollback(p, w, d, probe).1.Finished? <==>
              Within(w.ledger.manifest, MAX_ARCHIVE_BYTES) && Answers(p, probe) && p.archiveEntries != [] && Explained(p, w)
    ensures |Orphans(b, w.ledger, es)| == Astray(b, p, start, run)
    ensures Within(w.ledger.manifest, MAX_ARCHIVE_BYTES) ==>
              && w'.ledger == b.(archive := w'.ledger.archive) && w'.ledger.archive.Keys == b.archive.Keys + Orphans(b, w.ledger, es)
              && (w'.ledger == b <==> Astray(b, p, start, run) == 0) && Contained(p, w, w', es)
  {
    hide Baseline, Initial, Rollback, Explained, ListsOf, Sifted, Promoted, Restorable, Clear, Answers, TreeKept, CopiesKept, Progress,
      Contained, Judged, ImportsOnly, CanRefill, Within, Batch, Unchanged, Back, Genuine, Orphans, Grown;
    InitialRecoverable(b, p, start);
    w := Follow(b, p, start, run);
    es := RunKeeps(b, p, start, [], run);
    GenuineRefills(p, w);
    var verdict, left;
    w', verdict, left := RollbackRestores(b, p, w, es, d, probe);
    SettledIsBaseline(b, w.ledger, Batch(p), es);
    GrownListing(b, w.ledger, Batch(p), es);
    BackIsBaseline(b, p, w);
    SettledAuth(b, w.ledger, es);
  }

  lemma SettledAuth<C>(b: Ledger<C>, l: Ledger<C>, es: seq<Move>)
    ensures Settled(b, l, es).(auth := b.auth) == Settled(b, l, es) && Settled(b, l, es) == b.(archive := Settled(b, l, es).archive)
  {}

  lemma GenuineRefills<C>(p: Plan<C>, w: World<C>)
    requires Genuine(p, w) && w.halfMade == {}
    ensures CanRefill(p, w) && Unchanged(p, w)
  {}

  /**
   Acceptance is safe even when anything happens between the operations of the rollback: if
   its last checks pass, the auth tree but for the contents of baseline credentials, the
   manifest and the receipts are the baseline's and no baseline file of the archive is gone.
   */
  lemma AcceptedAnywhere<C>(b: Ledger<C>, p: Plan<C>, start: World<C>, run: seq<Event<C>>, probe: Probe) returns (w: World<C>)
    requires Baseline(b, p) && Initial(b, p, start) && PossibleRun(b, p, start, run)
    requires Final(p, Follow(b, p, start, run), probe).Finished?
    ensures w == Follow(b, p, start, run) && w.ledger == b.(archive := w.ledger.archive, auth := w.ledger.auth) && w.failure == p.failure
    ensures w.ledger.auth.Keys == b.auth.Keys && forall k :: k in b.auth && !Named(k, p.names) ==> w.ledger.auth[k] == b.auth[k]
    ensures RunSpares(p, run) && w.halfMade == {} ==> w.ledger.auth == b.auth
    ensures forall k :: k in b.archive ==> k in w.ledger.archive && w.ledger.archive[k] == b.archive[k]
  {
    hide Initial, Baseline, Progress, ActivePool, BatchMove, Archive, Within, Genuine, ImportsOnly, Restorable, Orphans;
    InitialRecoverable(b, p, start);
    w := Follow(b, p, start, run);
    var es := RunKeeps(b, p, start, [], run);
    ArchiveReads(b, p, w.ledger, es);
    BaselineEntries(b, p);
    assert es == [] && b.manifest.entries + [] == b.manifest.entries;
    SameTrees(b, p, w);
    if RunSpares(p, run) && w.halfMade == {} {
      GenuineTrees(b, p, w);
    }
  }

  lemma BaselineEntries<C>(b: Ledger<C>, p: Plan<C>)
    requires Baseline(b, p)
    ensures p.archiveEntries == b.manifest.entries
  {}

  lemma SameTrees<C>(b: Ledger<C>, p: Plan<C>, w: World<C>)
    requires Baseline(b, p) && TreeKept(b, p, w.ledger.auth) && ActivePool(w.ledger.auth) == BaselineNames(p)
    ensures w.ledger.auth.Keys == b.auth.Keys && forall k :: k in b.auth && !Named(k, p.names) ==> w.ledger.auth[k] == b.auth[k]
  {
    hide Baseline, ActivePool;
    var auth := w.ledger.auth;
    forall k | k in auth ensures k in b.auth {
      Single(k);
      if Named(k, p.imports) {
        Apart(b, p, k[0]);
        PoolMember(auth, k[0]);
      }
    }
    forall k | k in b.auth ensures k in auth && (!Named(k, p.names) ==> auth[k] == b.auth[k]) {
      Single(k);
      if Named(k, p.names) {
        Apart(b, p, k[0]);
        PoolMember(auth, k[0]);
      }
    }
  }

  lemma GenuineTrees<C>(b: Ledger<C>, p: Plan<C>, w: World<C>)
    requires Baseline(b, p) && Genuine(p, w) && w.halfMade == {} && w.ledger.auth.Keys == b.auth.Keys
    requires forall k :: k in b.auth && !Named(k, p.names) ==> w.ledger.auth[k] == b.auth[k]
    ensures w.ledger.auth == b.auth
  {
    hide Baseline;
    forall k | k in b.auth ensures k in w.ledger.auth && w.ledger.auth[k] == b.auth[k] {
      Single(k);
      assert k in w.ledger.auth.Keys;
      if Named(k, p.names) {
        Apart(b, p, k[0]);
      }
    }
  }

  /**
   Once the manifest records what was promoted, receipts that name imports are always
   explained, however many rollbacks died before.
   */
  lemma RecordedExplains<C>(b: Ledger<C>, p: Plan<C>, w: World<C>, es: seq<Move>)
    requires Baseline(b, p) && Recoverable(b, p, w, es) && w.promoted != {}
    ensures Explained(p, w) <==>
              (forall r :: r in p.failure ==> r in w.failure && w.failure[r] == p.failure[r])
              && (forall r :: r in w.failure && r !in p.failure ==> w.failure[r].authFile in p.imports)
  {
    hide Baseline, Recoverable, Promoted;
    PromotedCovers(b, p, w, es);
  }

  /** The hold loop does what as many single operations of the promotion do. */
  lemma {:induction false} HoldIsRun<C>(b: Ledger<C>, p: Plan<C>, w: World<C>, from: nat) returns (run: seq<Event<C>>)
    requires from <= |p.names| && w.next == |p.imports| + 1 + from
    ensures PossibleRun(b, p, w, run) && Follow(b, p, w, run) == HoldsFrom(p, w, p.names[from..]).0
    ensures (forall e :: e in run ==> e == Promote) && |run| <= |p.names| - from
    ensures HoldsFrom(p, w, p.names[from..]).1 <==> |run| == |p.names| - from
    decreases |p.names| - from
  {
    hide Script;
    run := [];
    if from < |p.names| {
      ScriptAt(p, w.next);
      assert p.names[from..][0] == p.names[from] && p.names[from..][1..] == p.names[from + 1..];
      var held := Advance(p, w, Hold(p.names[from]));
      if held.Some? {
        var rest := HoldIsRun(b, p, held.value, from + 1);
        run := [Promote] + rest;
        assert run[1..] == rest;
      }
    }
  }

  // ---------------------------------------------------------------- where it cannot be rolled back

  /**
   One quarantine of an import, or one archive restore of a dying rollback, cut anywhere: a
   later rollback is accepted if and only if the cut does not leave the entry listed and the
   file outside the archive, the manifest is not too large and the receipts are still
   explained.
   */
  lemma TornStepIff<C>(b: Ledger<C>, p: Plan<C>, w: World<C>, es: seq<Move>, e: Event<C>, d: Listings, probe: Probe)
    returns (torn: World<C>, es': seq<Move>)
    requires Baseline(b, p) && Recoverable(b, p, w, es) && Intact(p, w, es)
    requires e.Archiving? || (e.Rolling? && e.op.RestoreArchived?)
    requires Possible(b, p, w, e) && Spares(p, e) && ListsOf(p, Happen(b, p, w, e), d) && Answers(p, probe) && p.archiveEntries != []
    ensures torn == Happen(b, p, w, e) && Recoverable(b, p, torn, es')
    ensures Rollback(p, torn, d, probe).1.Finished? <==>
              !Loses(w, e) && Within(torn.ledger.manifest, MAX_ARCHIVE_BYTES) && Explained(p, torn)
    ensures Loses(w, e) ==> Broken(torn.ledger, es')
    ensures Loses(w, e) && Within(torn.ledger.manifest, MAX_ARCHIVE_BYTES) ==> Rollback(p, torn, d, probe).1 == Rejected(NotContained)
  {
    hide Baseline, Rollback, Restorable, Broken, Clear, Orphans, Recoverable, AfterRestore, AfterQuarantine, Loses, Strays, Explained, Promoted, Answers,
      Sifted, ListsOf, ImportsOnly, CanRefill, Within, Spares, Batch, Genuine, Possible, Happen, Back, Settled;
    torn := Happen(b, p, w, e);
    es' := EventKeeps(b, p, w, es, e);
    TornRefills(b, p, w, es, e);
    var w', verdict, left := RollbackRestores(b, p, torn, es', d, probe);
    if Loses(w, e) {
      BrokenIsNot(torn.ledger, es');
    }
  }

  /** Neither a quarantine of an import nor a restore of one changes what can be put back. */
  lemma TornRefills<C>(b: Ledger<C>, p: Plan<C>, w: World<C>, es: seq<Move>, e: Event<C>)
    requires Baseline(b, p) && Recoverable(b, p, w, es) && CanRefill(p, w) && ImportsOnly(p, es)
    requires Possible(b, p, w, e) && Spares(p, e) && (e.Archiving? || (e.Rolling? && e.op.RestoreArchived?))
    ensures CanRefill(p, Happen(b, p, w, e))
  {
    hide Baseline, AfterRestore, AfterQuarantine, SourcesOf, Unclaimed, ClashFree, Tracks, TreeKept, Progress;
    HalfMadeNamed(b, p, w, es);
    BaselinePlaced(b, p);
    assert w.halfMade == {};
    var w' := Happen(b, p, w, e);
    if e.Archiving? {
      BatchPlaces(b, p, e.name);
      OtherPaths(e.name);
      var es' := TakeTracks(b, w.ledger, Batch(p), es, e.name, e.reason, e.movedAt, e.fault);
    } else {
      var es' := RestoreTracks(b, w.ledger, Batch(p), es, e.op.selector, e.cut);
      forall n: string | n in p.names ensures [n] !in SourcesOf(es) {
        assert [n][0] == n && Named([n], p.names);
      }
    }
  }

  /**
   A broken ledger stays so: whatever happens next, as long as no file is left in the
   archive unlisted, every later rollback is refused.
   */
  lemma BrokenForever<C>(b: Ledger<C>, p: Plan<C>, w: World<C>, es: seq<Move>, run: seq<Event<C>>, d: Listings, probe: Probe)
    requires Baseline(b, p) && Recoverable(b, p, w, es) && Broken(w.ledger, es)
    requires PossibleRun(b, p, w, run) && Astray(b, p, w, run) == 0 && ListsOf(p, Follow(b, p, w, run), d)
    ensures Rollback(p, Follow(b, p, w, run), d, probe).1.Rejected?
    ensures ImportsOnly(p, es) && RunSpares(p, run) ==>
              Rollback(p, Follow(b, p, w, run), d, probe).1
                in {Rejected(NotContained), Rejected(UnsafePool), Rejected(SourceUnavailable), Rejected(ArchiveInvalid)}
  {
    hide Baseline, Rollback, Recoverable, Restorable, Broken, Clear, Answers, Explained, Orphans, ListsOf, Promoted, Sifted, ImportsOnly, CanRefill,
      Within, Genuine, Back, Settled;
    var es' := RunKeeps(b, p, w, es, run);
    BrokenIsNot(Follow(b, p, w, run).ledger, es');
    var w', verdict, left := RollbackRestores(b, p, Follow(b, p, w, run), es', d, probe);
  }

  lemma OversizedStays<C>(b: Ledger<C>, p: Plan<C>, w: World<C>, es: seq<Move>, e: Event<C>)
    requires Recoverable(b, p, w, es) && !Within(w.ledger.manifest, MAX_ARCHIVE_BYTES) && !w.ready && Possible(b, p, w, e)
    ensures !Within(Happen(b, p, w, e).ledger.manifest, MAX_ARCHIVE_BYTES) && !Happen(b, p, w, e).ready
  {
    hide TreeKept, CopiesKept, Progress, Script, ManifestBytes, AfterRestore, AfterQuarantine, Promoted, Created, Act, Unclaimed, ClashFree;
    match e
    case Archiving(n, reason, movedAt, fault) => QuarantineGrows(w.ledger, [n], reason, movedAt, fault);
    case Rolling(op, fault, spoiled) => ActReady(p, Stopped(p, w), op, ANY_PROBE);
    case _ =>
  }

  /** A quarantine never makes the manifest smaller. */
  lemma QuarantineGrows<C>(l: Ledger<C>, source: Rel, reason: string, movedAt: string, fault: Fault)
    requires l.manifest.Listed?
    ensures var after := AfterQuarantine(l, source, reason, movedAt, fault).0.manifest;
            after.Listed? && ManifestBytes(after.entries) >= ManifestBytes(l.manifest.entries)
  {
    hide ManifestBytes, ArchiveName;
    ManifestGrows(l.manifest.entries, [EntryFor(l, source, reason, movedAt)]);
  }

  lemma ActReady<C>(p: Plan<C>, w: World<C>, op: Op, probe: Probe)
    requires !Within(w.ledger.manifest, MAX_ARCHIVE_BYTES) && !w.ready && !op.RestoreArchived?
    ensures Act(p, w, op, probe).0.ledger.manifest == w.ledger.manifest && !Act(p, w, op, probe).0.ready
  {
    hide ManifestBytes, Promoted;
  }

  /**
   Once the archive manifest is too large for the rollback to read, and no rollback that had
   read it before is still running, it stays so: whatever happens next, every later rollback
   is refused before it restores or removes an import.
   */
  lemma {:induction false} OversizedForever<C>(b: Ledger<C>, p: Plan<C>, w: World<C>, es: seq<Move>, run: seq<Event<C>>,
                                               d: Listings, probe: Probe)
    requires Baseline(b, p) && Recoverable(b, p, w, es) && !Within(w.ledger.manifest, MAX_ARCHIVE_BYTES) && !w.ready
    requires PossibleRun(b, p, w, run) && ListsOf(p, Follow(b, p, w, run), d)
    ensures var w1 := Follow(b, p, w, run); var (w', verdict) := Rollback(p, w1, d, probe);
            && verdict in {Rejected(UnsafePool), Rejected(SourceUnavailable), Rejected(ArchiveInvalid)}
            && w'.ledger == w1.ledger.(auth := w'.ledger.auth) && w'.removed == w1.removed
    decreases |run|
  {
    hide Baseline, Recoverable, Rollback, Possible, Happen, ListsOf, Within, Promoted;
    if run == [] {
      EarlyRefused(b, p, w, es, d, probe);
    } else {
      OversizedStays(b, p, w, es, run[0]);
      var es' := EventKeeps(b, p, w, es, run[0]);
      OversizedForever(b, p, Happen(b, p, w, run[0]), es', run[1..], d, probe);
    }
  }

  /** The event takes the file of this name away. */
  predicate TakesAway<C>(e: Event<C>, n: string) {
    (e.Lose? || e.Archiving?) && e.name == n
  }

  /**
   A death inside the writing of a private copy blocks every later rollback, before it
   restores or removes an import, until that file is taken away.
   */
  lemma HalfMadeBlocks<C>(b: Ledger<C>, p: Plan<C>, w: World<C>, es: seq<Move>, n: string, part: C, run: seq<Event<C>>,
                          d: Listings, probe: Probe)
    requires Baseline(b, p) && Recoverable(b, p, w, es) && Copies(p, w, n)
    requires PossibleRun(b, p, Happen(b, p, w, CopyCut(n, part)), run) && forall e :: e in run ==> !TakesAway(e, n)
    requires ListsOf(p, Follow(b, p, Happen(b, p, w, CopyCut(n, part)), run), d)
    ensures var w1 := Follow(b, p, Happen(b, p, w, CopyCut(n, part)), run); var (w', verdict) := Rollback(p, w1, d, probe);
            && n in w1.halfMade && verdict in {Rejected(UnsafePool), Rejected(SourceUnavailable), Rejected(ArchiveInvalid)}
            && w'.ledger == w1.ledger.(auth := w'.ledger.auth) && w'.removed == w1.removed
            && (Within(w1.ledger.manifest, MAX_ARCHIVE_BYTES) && (forall m :: m in p.names ==> !StaleHold(p, w1, m)) ==> verdict == Rejected(UnsafePool))
  {
    hide Baseline, Rollback, Recoverable, ListsOf, Promoted, Copies, Possible, Within, StaleHold;
    var cut := Event.CopyCut(n, part);
    assert Possible(b, p, w, cut) by { CutPossible(b, p, w, n, part); }
    var es1 := EventKeeps(b, p, w, es, cut);
    var w1 := Happen(b, p, w, cut);
    StaysHalfMade(b, p, w1, es1, n, run);
    var es2 := RunKeeps(b, p, w1, es1, run);
    HalfMadeNamed(b, p, Follow(b, p, w1, run), es2);
    EarlyRefused(b, p, Follow(b, p, w1, run), es2, d, probe);
  }

  lemma CutPossible<C>(b: Ledger<C>, p: Plan<C>, w: World<C>, n: string, part: C)
    requires Copies(p, w, n)
    ensures Possible(b, p, w, CopyCut(n, part))
  {}

  lemma {:induction false} StaysHalfMade<C>(b: Ledger<C>, p: Plan<C>, w: World<C>, es: seq<Move>, n: string, run: seq<Event<C>>)
    requires Baseline(b, p) && Recoverable(b, p, w, es) && n in w.halfMade && PossibleRun(b, p, w, run)
    requires forall e :: e in run ==> !TakesAway(e, n)
    ensures n in Follow(b, p, w, run).halfMade
    decreases |run|
  {
    if run != [] {
      hide Baseline, Recoverable, Possible, Happen;
      assert run[0] in run && forall e :: e in run[1..] ==> e in run;
      HalfMadeStays(b, p, w, es, n, run[0]);
      var es' := EventKeeps(b, p, w, es, run[0]);
      StaysHalfMade(b, p, Happen(b, p, w, run[0]), es', n, run[1..]);
    }
  }

  lemma HalfMadeStays<C>(b: Ledger<C>, p: Plan<C>, w: World<C>, es: seq<Move>, n: string, e: Event<C>)
    requires Baseline(b, p) && Recoverable(b, p, w, es) && Possible(b, p, w, e) && n in w.halfMade && !TakesAway(e, n)
    ensures n in Happen(b, p, w, e).halfMade
  {
    hide Baseline, Grown, TreeKept, Progress, AfterRestore, AfterQuarantine, Promoted, Archive, Script, Created, ActivePool, PutBack, Final, Unclaimed,
      ClashFree;
    match e
    case Promote => PutBackHalf(p, w, if Script(p)[w.next].Unhold? then Script(p)[w.next].name else n);
    case Archiving(m, reason, movedAt, fault) =>
      OtherPaths(m);
      OnlySource(w.ledger, [m], reason, movedAt, fault);
    case Rolling(op, fault, spoiled) =>
      PutBackHalf(p, Stopped(p, w), if op.PutBackBaseline? then op.name else n);
      if op.RestoreArchived? {
        RestoreAdds(w.ledger, op.selector, fault);
      }
    case _ =>
  }

  lemma PutBackHalf<C>(p: Plan<C>, w: World<C>, n: string)
    ensures PutBack(p, w, n).0.halfMade == w.halfMade
  {}

  lemma OnlySource<C>(l: Ledger<C>, source: Rel, reason: string, movedAt: string, fault: Fault)
    ensures forall k :: k in l.auth && k != source ==> k in AfterQuarantine(l, source, reason, movedAt, fault).0.auth
    ensures forall k :: k in AfterQuarantine(l, source, reason, movedAt, fault).0.auth ==> k in l.auth
    ensures source !in l.auth ==> AfterQuarantine(l, source, reason, movedAt, fault).0 == l
  {
    hide ManifestBytes, ArchiveName;
  }

  lemma RestoreAdds<C>(l: Ledger<C>, q: string, fault: Fault)
    ensures forall k :: k in l.auth ==> k in AfterRestore(l, q, fault).0.auth
  {
    hide ManifestBytes, Selectors;
  }

  /** The credential is held with another content and has neither a file nor an archive entry. */
  ghost predicate Astale<C>(p: Plan<C>, w: World<C>, es: seq<Move>, n: string) {
    n in p.names && StaleHold(p, w, n) && [n] !in SourcesOf(es)
  }

  lemma StaleStays<C>(b: Ledger<C>, p: Plan<C>, w: World<C>, es: seq<Move>, n: string, e: Event<C>, es': seq<Move>)
    requires Baseline(b, p) && Recoverable(b, p, w, es) && Possible(b, p, w, e) && Astale(p, w, es, n)
    requires Recoverable(b, p, Happen(b, p, w, e), es')
    ensures Astale(p, Happen(b, p, w, e), es', n)
  {
    hide Baseline, TreeKept, CopiesKept, Progress, AfterRestore, AfterQuarantine, Act, Script, Advance, Unclaimed, ClashFree, SourcesOf, Tracks, Grown;
    Apart(b, p, n);
    var w' := Happen(b, p, w, e);
    match e
    case Promote =>
      StalePromotes(b, p, w, n);
      SameEntries(b, p, w, w', es, es');
    case Archiving(m, reason, movedAt, fault) =>
      OnlySource(w.ledger, [m], reason, movedAt, fault);
      BatchPlaces(b, p, m);
      var es2 := TakeTracks(b, w.ledger, Batch(p), es, m, reason, movedAt, fault);
      GrownOnce(b, w'.ledger, Batch(p), es', es2);
      OtherPaths(m);
    case Rolling(op, fault, spoiled) =>
      if op.RestoreArchived? {
        BaselinePlaced(b, p);
        var es2 := RestoreTracks(b, w.ledger, Batch(p), es, op.selector, fault);
        GrownOnce(b, w'.ledger, Batch(p), es', es2);
      } else {
        StaleActs(b, p, Stopped(p, w), n, op);
        SameEntries(b, p, w, w', es, es');
      }
    case Rewrite(m, _) =>
      OtherPaths(m);
      SameEntries(b, p, w, w', es, es');
    case CopyCut(m, _) =>
      OtherPaths(m);
      SameEntries(b, p, w, w', es, es');
    case _ =>
      SameEntries(b, p, w, w', es, es');
  }

  lemma SameEntries<C>(b: Ledger<C>, p: Plan<C>, w: World<C>, w': World<C>, es: seq<Move>, es': seq<Move>)
    requires Grown(b, w.ledger, Batch(p), es) && Grown(b, w'.ledger, Batch(p), es') && w'.ledger.manifest == w.ledger.manifest
    ensures es' == es
  {
    hide BatchMove;
    assert (b.manifest.entries + es)[|b.manifest.entries|..] == es && (b.manifest.entries + es')[|b.manifest.entries|..] == es';
  }

  lemma StalePromotes<C>(b: Ledger<C>, p: Plan<C>, w: World<C>, n: string)
    requires Baseline(b, p) && StaleHold(p, w, n) && w.next < Steps(p) && Advance(p, w, Script(p)[w.next]).Some?
    ensures var w' := Advance(p, w, Script(p)[w.next]).value; StaleHold(p, w', n) && w'.ledger.manifest == w.ledger.manifest
  {
    hide Baseline, Script, Archive, Created, ActivePool;
    var op := Script(p)[w.next];
    ScriptAt(p, w.next);
    Apart(b, p, n);
    if op.Import? || op.Hold? || op.Unhold? {
      Apart(b, p, op.name);
      OtherPaths(op.name);
    }
  }

  lemma StaleActs<C>(b: Ledger<C>, p: Plan<C>, w: World<C>, n: string, op: Op)
    requires Baseline(b, p) && StaleHold(p, w, n) && !op.RestoreArchived?
    ensures var w' := Act(p, w, op, ANY_PROBE).0; StaleHold(p, w', n) && w'.ledger.manifest == w.ledger.manifest
  {
    hide Baseline, Promoted, Archive, Final;
    if op.PutBackBaseline? {
      OtherPaths(op.name);
    }
  }

  /**
   A baseline credential that was rewritten before it was held cannot be put back: as long
   as no other file takes its place, which nothing in a promotion does, every later rollback
   is refused before it restores or removes an import.
   */
  lemma {:induction false} StaleForever<C>(b: Ledger<C>, p: Plan<C>, w: World<C>, es: seq<Move>, n: string, run: seq<Event<C>>,
                                           d: Listings, probe: Probe)
    requires Baseline(b, p) && Recoverable(b, p, w, es) && Astale(p, w, es, n)
    requires PossibleRun(b, p, w, run) && ListsOf(p, Follow(b, p, w, run), d)
    ensures var w1 := Follow(b, p, w, run); var (w', verdict) := Rollback(p, w1, d, probe);
            && verdict in {Rejected(UnsafePool), Rejected(SourceUnavailable), Rejected(ArchiveInvalid)}
            && w'.ledger == w1.ledger.(auth := w'.ledger.auth) && w'.removed == w1.removed
            && (Within(w1.ledger.manifest, MAX_ARCHIVE_BYTES) && w1.halfMade == {} ==> verdict == Rejected(SourceUnavailable))
    decreases |run|
  {
    hide Baseline, Recoverable, Rollback, Possible, Happen, ListsOf, Within, Promoted, StaleHold, SourcesOf;
    if run == [] {
      EarlyRefused(b, p, w, es, d, probe);
    } else {
      var es' := EventKeeps(b, p, w, es, run[0]);
      StaleStays(b, p, w, es, n, run[0], es');
      StaleForever(b, p, Happen(b, p, w, run[0]), es', n, run[1..], d, probe);
    }
  }

  /** Nothing was recorded, no import is left, and a receipt of this promotion is still there. */
  ghost predicate Stranded<C>(b: Ledger<C>, p: Plan<C>, w: World<C>, receipt: string) {
    && w.next == Steps(p) && w.promoted == {} && w.working == {}
    && w.ledger.manifest == b.manifest && (forall c :: c in p.imports ==> [c] !in w.ledger.auth)
    && receipt in w.failure && receipt !in p.failure
  }

  /** Whatever happens to a stranded receipt, it stays stranded. */
  lemma StrandedStays<C>(b: Ledger<C>, p: Plan<C>, w: World<C>, receipt: string, e: Event<C>)
    requires Baseline(b, p) && Recoverable(b, p, w, []) && Stranded(b, p, w, receipt) && Possible(b, p, w, e) && Spares(p, e)
    ensures Recoverable(b, p, Happen(b, p, w, e), []) && Stranded(b, p, Happen(b, p, w, e), receipt)
  {
    hide Baseline, Grown, TreeKept, CopiesKept, AfterRestore, AfterQuarantine, Promoted, Script, Unclaimed, Archive, ActivePool, Progress, ClashFree;
    var es' := EventKeeps(b, p, w, [], e);
    StrandedEvent(b, p, w, receipt, e);
    GrownListing(b, Happen(b, p, w, e).ledger, Batch(p), es');
    assert |b.manifest.entries + es'| == |b.manifest.entries| + |es'|;
  }

  lemma StrandedEvent<C>(b: Ledger<C>, p: Plan<C>, w: World<C>, receipt: string, e: Event<C>)
    requires Baseline(b, p) && Recoverable(b, p, w, []) && Stranded(b, p, w, receipt) && Possible(b, p, w, e) && Spares(p, e)
    ensures Stranded(b, p, Happen(b, p, w, e), receipt)
  {
    hide Baseline, Grown, TreeKept, CopiesKept, AfterRestore, AfterQuarantine, Promoted, Script, Unclaimed, Archive, ActivePool, Progress, ClashFree,
      Act;
    NothingPromoted(b, p, w);
    forall n | n in p.baseline ensures forall c :: c in p.imports ==> [c] != [n] {
      Apart(b, p, n);
      forall c | c in p.imports ensures [c] != [n] {
        assert [c][0] != [n][0];
      }
    }
    match e
    case Archiving(n, reason, movedAt, fault) =>
      Apart(b, p, n);
      OnlySource(w.ledger, [n], reason, movedAt, fault);
    case Rewrite(n, _) => Apart(b, p, n);
    case Rolling(op, fault, _) =>
      if op.RestoreArchived? {
        BaselinePlaced(b, p);
        var j := RestoreOne(b, w.ledger, Batch(p), [], op.selector, fault);
      } else {
        StrandedActs(b, p, w, receipt, op);
      }
    case _ =>
  }

  lemma StrandedActs<C>(b: Ledger<C>, p: Plan<C>, w: World<C>, receipt: string, op: Op)
    requires Baseline(b, p) && Stranded(b, p, w, receipt) && !op.RestoreArchived? && Promoted(p, Stopped(p, w)) == {}
    ensures Stranded(b, p, Act(p, Stopped(p, w), op, ANY_PROBE).0, receipt)
  {
    hide Baseline, Promoted, Archive, Final, ActivePool;
    if op.PutBackBaseline? {
      Apart(b, p, op.name);
      OtherPaths(op.name);
    }
  }

  lemma NothingPromoted<C>(b: Ledger<C>, p: Plan<C>, w: World<C>)
    requires Baseline(b, p) && Recoverable(b, p, w, []) && w.promoted == {} && forall c :: c in p.imports ==> [c] !in w.ledger.auth
    ensures Promoted(p, w) == {} && Promoted(p, Stopped(p, w)) == {}
  {
    hide Baseline, Recoverable, Promoted;
    PromotedCovers(b, p, w, []);
    StoppedRecoverable(b, p, w, []);
    assert SourcesOf([]) == {};
  }

  /** Every rollback after any run from such a state that spares the baseline credentials is rejected. */
  lemma {:induction false} StrandedForever<C>(b: Ledger<C>, p: Plan<C>, w: World<C>, receipt: string, run: seq<Event<C>>, d: Listings, probe: Probe)
    requires Baseline(b, p) && Recoverable(b, p, w, []) && Stranded(b, p, w, receipt) && PossibleRun(b, p, w, run) && RunSpares(p, run)
    requires ListsOf(p, Follow(b, p, w, run), d)
    ensures Rollback(p, Follow(b, p, w, run), d, probe).1.Rejected?
    decreases |run|
  {
    hide Baseline, Recoverable, Possible, Happen, Rollback, ListsOf, Promoted, Sifted, Intact, Answers, Spares, Back, Settled;
    if run == [] {
      hide Explained, Within, CanRefill, ImportsOnly, Restorable, Clear;
      var w', verdict, left := RollbackRestores(b, p, w, [], d, probe);
      NotExplained(b, p, w, receipt);
    } else {
      hide Stranded, Explained;
      assert run[0] in run && forall e :: e in run[1..] ==> e in run;
      StrandedStays(b, p, w, receipt, run[0]);
      StrandedForever(b, p, Happen(b, p, w, run[0]), receipt, run[1..], d, probe);
    }
  }

  lemma NotExplained<C>(b: Ledger<C>, p: Plan<C>, w: World<C>, receipt: string)
    requires Baseline(b, p) && Recoverable(b, p, w, []) && Stranded(b, p, w, receipt)
    ensures !Explained(p, w)
  {
    hide Baseline, Recoverable, Promoted;
    NothingPromoted(b, p, w);
  }

  /**
   The exception.  Before the manifest records anything, a rollback that would be accepted
   but dies between removing the promoted credentials and moving their receipts aside
   strands them: every rollback after that, whatever happens in between, is rejected.
   */
  lemma StrandedReceipt<C>(b: Ledger<C>, p: Plan<C>, w: World<C>, es: seq<Move>, d: Listings, probe: Probe, receipt: string)
    returns (count: nat, w1: World<C>)
    requires Baseline(b, p) && Recoverable(b, p, w, es) && ListsOf(p, w, d) && Rollback(p, w, d, probe).1.Finished?
    requires w.promoted == {} && receipt in w.failure && receipt !in p.failure
    ensures count < |RollbackOps(p, w, d)|
    ensures w1 == Died(p, Exec(p, Stopped(p, w), RollbackOps(p, w, d)[..count], probe).0)
    ensures Recoverable(b, p, w1, []) && Stranded(b, p, w1, receipt)
  {
    hide Baseline, Recoverable, Exec, Opening, Restores, Selected, Final, Sifted, Explained, Promoted, Rollback, Restorable, Clear, Answers, AllBack,
      NamesOf, ImportsOnly, CanRefill, Within, Back;
    var done, verdict, left := RollbackRestores(b, p, w, es, d, probe);
    var w0 := Stopped(p, w);
    StoppedRecoverable(b, p, w, es);
    ListingSelects(b, p, w, es, d.promoted);
    var x, y, z := Opening(p), Restores(NamesOf(es)), Removes(d.promoted);
    var rest := Sifts(d.receipts) + [MoveTrigger, Conclude];
    count := |x| + |y| + |z|;
    TakeParts(x, y, z, rest);
    var end := RemovedState(b, p, w, es, d, probe);
    ExecAppend(p, w0, x, y + z, probe);
    ExecAppend(p, Exec(p, w0, x, probe).0, y, z, probe);
    w1 := Died(p, end);
    var run, es' := PartlyKeeps(b, p, w, es, d, count, probe);
    StoppedRecoverable(b, p, end, es');
    EmptyListing(b, p, w1, es');
    ImportsGone(b, p, w);
  }

  lemma ImportsGone<C>(b: Ledger<C>, p: Plan<C>, w: World<C>)
    requires Baseline(b, p)
    ensures forall c :: c in p.imports ==> [c] !in Back(b, p, w.ledger.auth)
  {}

  lemma EmptyListing<C>(b: Ledger<C>, p: Plan<C>, w: World<C>, es: seq<Move>)
    requires Recoverable(b, p, w, es) && w.ledger.manifest == b.manifest
    ensures es == []
  {
    assert |b.manifest.entries + es| == |b.manifest.entries| + |es|;
  }

  lemma TakeParts<T>(x: seq<T>, y: seq<T>, z: seq<T>, rest: seq<T>)
    ensures |x + (y + (z + rest))| == |x| + |y| + |z| + |rest|
    ensures (x + (y + (z + rest)))[..|x| + |y| + |z|] == x + (y + z)
  {}

  /** The state once the promoted credentials are removed, in a rollback that meets no obstacle. */
  lemma RemovedState<C>(b: Ledger<C>, p: Plan<C>, w: World<C>, es: seq<Move>, d: Listings, probe: Probe) returns (w3: World<C>)
    requires Baseline(b, p) && Recoverable(b, p, w, es) && ListsOf(p, w, d) && Intact(p, w, es)
    ensures var (w1, v1) := Exec(p, Stopped(p, w), Opening(p), probe);
            var (w2, v2) := Exec(p, w1, Restores(NamesOf(es)), probe);
            v1.Going? && v2.Going? && Exec(p, w2, Removes(d.promoted), probe) == (w3, Going)
    ensures w3.ledger == Settled(b, w.ledger, es).(auth := Back(b, p, w.ledger.auth)) && w3.failure == w.failure && w3.promoted == w.promoted
  {
    hide Baseline, Exec, Opening, Restores, Selected, Promoted, Restorable, Clear, AllBack, Grown, TreeKept, CopiesKept, Progress, Returned,
      ImportsOnly, Within, CanRefill, RestoreAll, Batch, Refilled, Removes;
    var w0 := Stopped(p, w);
    StoppedRecoverable(b, p, w, es);
    RefillsStopped(p, w);
    ListingSelects(b, p, w, es, d.promoted);
    var w1, v1 := OpeningRun(b, p, w0, es, probe);
    BaselinePlaced(b, p);
    SamePlaces(b, p, w, w1, es);
    var left := RestoreAllIff(b, w1.ledger, Batch(p), es);
    RestoresRun(p, w1, NamesOf(es), probe);
    var w2 := w1.(ledger := RestoreAll(w1.ledger, NamesOf(es)).0);
    ClearIff(b, p, w0, w1, w2.ledger, es, d.promoted);
    ClearStopped(p, w, es);
    ImportsOut(b, p, w1.ledger, w2.ledger, es, d.promoted);
    ReturnedIs(w2, d.promoted);
    w3 := RemovesRun(p, w2, d.promoted, probe);
    ListedImports(b, p, w, w1, es, d.promoted);
    TreeBack(b, p, w0, w1, es, w2.ledger, d.promoted);
  }
}
