/** What every run of a live transaction keeps, with its recoveries dying anywhere and anything happening in between. */
module LiveRuns {
  import opened Wrappers
  import opened ArchiveNames
  import opened QuarantineLedger
  import opened LedgerLaws
  import opened ArchivedBatch
  import opened PoolFiles
  import opened LiveTransaction

  // ---------------------------------------------------------------- the baseline and the invariant

  /** The preflight: one active credential, a readable archive, canary names that are new everywhere. */
  ghost predicate Baseline<C>(b: Ledger<C>, p: Plan<C>) {
    && WellFormed(p) && Distinct(p.sweepNames) && Distinct(p.canaries)
    && Placed(b, p.canaries) && |b.manifest.entries| == p.archiveCount && Within(b.manifest, MAX_ARCHIVE_BYTES)
    && [p.activeName] in b.auth && b.auth[[p.activeName]] == p.active && [p.activeName] !in b.dirs && ValidParts([p.activeName])
    && ActivePool(b.auth) == {p.activeName}
    && (forall c :: c in p.canaries ==> c != p.activeName && [c] !in b.auth && IsJson(c))
  }

  ghost predicate Initial<C>(b: Ledger<C>, p: Plan<C>, w: World<C>) {
    && w.ledger == b && w.sweep == InputOf(p) && w.heldActive.None? && w.heldSweep == map[]
    && w.phase == Prepared && w.next == 0
  }

  /** The names whose files may be archived. */
  function Batch<C>(p: Plan<C>): seq<string> {
    p.canaries + [p.activeName]
  }

  /** Nothing but the active credential and the canaries differs from the baseline. */
  ghost predicate TreeKept<C>(b: Ledger<C>, p: Plan<C>, auth: map<Rel, C>) {
    && (forall k {:trigger k in auth} :: k in auth ==> k in b.auth || (|k| == 1 && k[0] in p.canaries))
    && (forall k {:trigger k in b.auth} :: k in b.auth && k != [p.activeName] ==> k in auth && auth[k] == b.auth[k])
  }

  /** The active credential is in its place, or held while its place is free, and has its content. */
  ghost predicate ActiveSafe<C>(p: Plan<C>, auth: map<Rel, C>, held: Option<C>) {
    if [p.activeName] in auth then auth[[p.activeName]] == p.active else held == Some(p.active)
  }

  /** A baseline watcher file is held with its content. */
  predicate Held<C(==)>(p: Plan<C>, w: World<C>, n: string)
    requires n in p.sweep
  {
    n in w.heldSweep && w.heldSweep[n] == Some(p.sweep[n])
  }

  /** It is in its place or held, with its content. */
  predicate FileSafe<C(==)>(p: Plan<C>, w: World<C>, n: string)
    requires n in p.sweep
  {
    (n in w.sweep && w.sweep[n] == Some(p.sweep[n])) || Held(p, w, n)
  }

  ghost predicate SweepKept<C>(p: Plan<C>, w: World<C>) {
    forall n :: n in p.sweep ==> FileSafe(p, w, n)
  }

  /** The baseline watcher files that were safe still are. */
  ghost predicate SweepStays<C>(p: Plan<C>, w: World<C>, w': World<C>) {
    forall n :: n in p.sweep && FileSafe(p, w, n) ==> FileSafe(p, w', n)
  }

  /** What the activation has not reached yet is still untouched. */
  ghost predicate Pending<C>(p: Plan<C>, w: World<C>, es: seq<Move>) {
    && w.next <= Steps(p)
    && (forall j :: 0 <= j < |p.sweepNames| && w.next <= 1 + j ==> p.sweepNames[j] !in w.heldSweep)
    && (forall j :: 0 <= j < |p.canaries| && w.next <= 1 + |p.sweepNames| + j ==>
          [p.canaries[j]] !in w.ledger.auth && [p.canaries[j]] !in SourcesOf(es))
  }

  /**
   The transaction is not recovered, its auth tree differs from the baseline only where it
   may, and its archive has only grown; `es` are the new entries.
   */
  ghost predicate Recoverable<C>(b: Ledger<C>, p: Plan<C>, w: World<C>, es: seq<Move>) {
    && !w.phase.Recovered?
    && Grown(b, w.ledger, Batch(p), es) && TreeKept(b, p, w.ledger.auth) && Pending(p, w, es)
  }

  /** No entry is that of the active credential. */
  predicate OwnOnly<C>(p: Plan<C>, es: seq<Move>) {
    [p.activeName] !in SourcesOf(es)
  }

  // ---------------------------------------------------------------- events

  /**
   What can happen to a transaction: the activation does its next operation, the watcher
   archives or the gateway rewrites a canary or the active credential, watcher input and
   receipts come and go, a recovery performs one of its operations.  Recoveries may stop
   after any of them, and anything may happen between two of them; a fault can cut
   quarantines and archive restores in two.
   */
  datatype Event<C> =
    | Activate
    | Archive(name: string, reason: string, movedAt: string, fault: Fault)
    | Rewrite(name: string, content: C)
    | Arrive(file: string, arrived: Option<C>)
    | Vanish(file: string)
    | Report(receipt: string, report: Receipt<C>)
    | Consume(receipt: string)
    | Recovering(op: Op, cut: Fault)

  /** The operations of a recovery before its last; the archive names it restores come from new entries. */
  ghost predicate OfRecovery<C>(b: Ledger<C>, p: Plan<C>, op: Op) {
    match op
    case RestoreArchived(q) => Unclaimed(Listing(b.manifest), q)
    case Unlink(c) => c in p.canaries
    case Conclude => false
    case _ => true
  }

  ghost predicate Possible<C>(b: Ledger<C>, p: Plan<C>, w: World<C>, e: Event<C>) {
    match e
    case Activate => w.next < Steps(p)
    case Archive(n, _, _, _) => n in Batch(p) && ClashFree(b, n)
    case Rewrite(n, _) => n in Batch(p) && [n] in w.ledger.auth
    case Arrive(_, _) => true
    case Vanish(_) => true
    case Report(_, _) => true
    case Consume(_) => true
    case Recovering(op, _) => OfRecovery(b, p, op)
  }

  const ANY_PROBE := Probe("", false)

  ghost function Happen<C>(p: Plan<C>, w: World<C>, e: Event<C>): World<C> {
    match e
    case Activate => if w.next < Steps(p) then Advance(p, w, Activation(p)[w.next]) else w
    case Archive(n, reason, movedAt, fault) => w.(ledger := AfterQuarantine(w.ledger, [n], reason, movedAt, fault).0)
    case Rewrite(n, content) => w.(ledger := w.ledger.(auth := w.ledger.auth[[n] := content]))
    case Arrive(f, content) => w.(sweep := w.sweep[f := content])
    case Vanish(f) => w.(sweep := w.sweep - {f})
    case Report(r, report) => w.(failure := w.failure[r := report])
    case Consume(r) => w.(failure := w.failure - {r})
    case Recovering(op, fault) =>
      if op.RestoreArchived? then Stopped(p, w).(ledger := AfterRestore(w.ledger, op.selector, fault).0)
      else Act(p, Stopped(p, w), op, ANY_PROBE).0
  }

  /** The event gets as far as moving a file into the archive or out of it. */
  ghost predicate Strikes<C>(w: World<C>, e: Event<C>) {
    || (e.Archive? && CanTake(w.ledger, e.name))
    || (e.Recovering? && e.op.RestoreArchived? && AfterRestore(w.ledger, e.op.selector, Clean).1.Moved?)
  }

  /** It leaves an entry listed whose file is not in the archive. */
  ghost predicate Loses<C>(w: World<C>, e: Event<C>) {
    Strikes(w, e) &&
    (if e.Archive? then Rewrites(e.fault) && !Takes(e.fault) else Takes(e.cut) && !Rewrites(e.cut))
  }

  /** It leaves a file in the archive that is not listed. */
  ghost predicate Strays<C>(w: World<C>, e: Event<C>) {
    Strikes(w, e) &&
    (if e.Archive? then Takes(e.fault) && !Rewrites(e.fault) else Rewrites(e.cut) && !Takes(e.cut))
  }

  /** It leaves the active credential to the transaction, and a baseline watcher file until it is held. */
  predicate Spares<C(==)>(p: Plan<C>, w: World<C>, e: Event<C>) {
    match e
    case Archive(n, _, _, _) => n != p.activeName
    case Rewrite(n, _) => n != p.activeName
    case Arrive(f, content) => f in p.sweep ==> content == Some(p.sweep[f]) || Held(p, w, f)
    case Vanish(f) => f in p.sweep ==> Held(p, w, f)
    case _ => true
  }

  /** What an event keeps besides the invariant. */
  ghost predicate Kept<C>(b: Ledger<C>, p: Plan<C>, w: World<C>, es: seq<Move>, w': World<C>, es': seq<Move>,
                          loses: bool, strays: bool, spares: bool) {
    && (loses || (Broken(w.ledger, es) && !strays) ==> Broken(w'.ledger, es'))
    && (spares ==> SweepStays(p, w, w'))
    && (OwnOnly(p, es) && spares ==>
          && OwnOnly(p, es')
          && (ActiveSafe(p, w.ledger.auth, w.heldActive) ==> ActiveSafe(p, w'.ledger.auth, w'.heldActive))
          && (Restorable(w.ledger, es) && !loses ==>
                Restorable(w'.ledger, es') && |Orphans(b, w'.ledger, es')| == |Orphans(b, w.ledger, es)| + (if strays then 1 else 0)))
  }

  lemma KeptFrom<C>(b: Ledger<C>, p: Plan<C>, w: World<C>, es: seq<Move>, w': World<C>, es': seq<Move>,
                    loses: bool, strays: bool, spares: bool)
    requires Tracks(b, w.ledger, es, w'.ledger, es', loses, strays) && w'.sweep == w.sweep && w'.heldSweep == w.heldSweep
    requires OwnOnly(p, es) && spares ==>
               OwnOnly(p, es') && (ActiveSafe(p, w.ledger.auth, w.heldActive) ==> ActiveSafe(p, w'.ledger.auth, w'.heldActive))
    ensures Kept(b, p, w, es, w', es', loses, strays, spares)
  {
    hide Broken, Restorable, Orphans, OwnOnly, ActiveSafe, SweepStays;
    SweepFrame(p, w, w');
  }

  lemma ActivationAt<C>(p: Plan<C>, i: nat)
    requires i < Steps(p)
    ensures Activation(p)[i] ==
              if i == 0 then HoldActive
              else if i <= |p.sweepNames| then HoldSweep(p.sweepNames[i - 1])
              else if i <= |p.sweepNames| + |p.canaries| then WriteCanary(p.canaries[i - 1 - |p.sweepNames|])
              else MarkLimited
  {
    var h, wr := HoldAll(p.sweepNames), WriteAll(p.canaries);
    assert Activation(p) == [HoldActive] + h + wr + [MarkLimited];
  }

  /** The place of a new entry is that of a canary or of the active credential. */
  lemma SourceNamed<C>(b: Ledger<C>, p: Plan<C>, l: Ledger<C>, es: seq<Move>, k: Rel)
    requires Grown(b, l, Batch(p), es) && k in SourcesOf(es)
    ensures |k| == 1 && (k[0] in p.canaries || k == [p.activeName])
  {
    var m :| m in es && m.parts == k;
    assert BatchMove(b, Batch(p), m) && k == [k[0]];
  }

  /** A change of the auth tree that leaves the places of archived canaries alone. */
  lemma TreeChanges<C>(b: Ledger<C>, p: Plan<C>, w: World<C>, es: seq<Move>, w': World<C>, spares: bool)
    requires Grown(b, w.ledger, Batch(p), es) && w'.ledger == w.ledger.(auth := w'.ledger.auth)
    requires w'.sweep == w.sweep && w'.heldSweep == w.heldSweep
    requires forall k :: k in w'.ledger.auth ==> k in w.ledger.auth || k !in SourcesOf(es) || k == [p.activeName]
    requires spares && ActiveSafe(p, w.ledger.auth, w.heldActive) ==> ActiveSafe(p, w'.ledger.auth, w'.heldActive)
    ensures Grown(b, w'.ledger, Batch(p), es) && Kept(b, p, w, es, w', es, false, false, spares)
  {
    hide BatchMove, ActiveSafe, SweepStays;
    SweepFrame(p, w, w');
    forall i | 0 <= i < |es| ensures es[i].parts in SourcesOf(es) {
      assert es[i] in es;
    }
  }

  lemma HoldActiveKeeps<C>(b: Ledger<C>, p: Plan<C>, w: World<C>, es: seq<Move>)
    requires Baseline(b, p) && Recoverable(b, p, w, es) && w.next == 0
    ensures Recoverable(b, p, Advance(p, w, HoldActive), es)
    ensures Kept(b, p, w, es, Advance(p, w, HoldActive), es, false, false, true)
  {
    hide Placed, Grown, Kept, ActivePool, SourcesOf, FileSafe, TreeKept;
    TreeWithoutActive(b, p, w.ledger.auth);
    TreeChanges(b, p, w, es, Advance(p, w, HoldActive), true);
  }

  lemma TreeWithoutActive<C>(b: Ledger<C>, p: Plan<C>, auth: map<Rel, C>)
    requires TreeKept(b, p, auth)
    ensures TreeKept(b, p, auth - {[p.activeName]})
  {}

  lemma WriteCanaryKeeps<C>(b: Ledger<C>, p: Plan<C>, w: World<C>, es: seq<Move>, j: nat)
    requires Baseline(b, p) && Recoverable(b, p, w, es) && j < |p.canaries| && w.next == 1 + |p.sweepNames| + j
    ensures Recoverable(b, p, Advance(p, w, WriteCanary(p.canaries[j])), es)
    ensures Kept(b, p, w, es, Advance(p, w, WriteCanary(p.canaries[j])), es, false, false, true)
  {
    hide Placed, Grown, Kept, ActivePool, SourcesOf;
    var c := p.canaries[j];
    assert c in p.canaries && c in p.samples.Keys && [c][0] != [p.activeName][0];
    TreeChanges(b, p, w, es, Advance(p, w, WriteCanary(c)), true);
    forall i | j < i < |p.canaries| ensures [p.canaries[i]] != [c] {
      assert [p.canaries[i]][0] != [c][0];
    }
  }

  lemma HoldSweepKeeps<C>(p: Plan<C>, w: World<C>, es: seq<Move>, j: nat)
    requires WellFormed(p) && Distinct(p.sweepNames) && Pending(p, w, es)
    requires j < |p.sweepNames| && w.next == 1 + j
    ensures SweepStays(p, w, Advance(p, w, HoldSweep(p.sweepNames[j]))) && Pending(p, Advance(p, w, HoldSweep(p.sweepNames[j])), es)
  {
    var n := p.sweepNames[j];
    assert n in p.sweepNames && n in p.sweep.Keys && n !in w.heldSweep;
  }

  /** Events that touch no credential. */
  lemma SameCredentials<C>(b: Ledger<C>, p: Plan<C>, w: World<C>, es: seq<Move>, w': World<C>, spares: bool)
    requires Grown(b, w.ledger, Batch(p), es) && w'.ledger == w.ledger && w'.heldActive == w.heldActive
    requires spares ==> SweepStays(p, w, w')
    ensures Kept(b, p, w, es, w', es, false, false, spares)
  {
    hide Grown, ActiveSafe, SweepStays;
  }

  /** The next operation of the activation keeps the transaction recoverable. */
  lemma ActivateKeeps<C>(b: Ledger<C>, p: Plan<C>, w: World<C>, es: seq<Move>)
    requires Baseline(b, p) && Recoverable(b, p, w, es) && w.next < Steps(p)
    ensures var w' := Advance(p, w, Activation(p)[w.next]);
            Recoverable(b, p, w', es) && Kept(b, p, w, es, w', es, false, false, true)
  {
    hide Placed, Grown, Kept, ActivePool, Activation, SweepStays, TreeKept;
    ActivationAt(p, w.next);
    if w.next == 0 {
      HoldActiveKeeps(b, p, w, es);
    } else if w.next <= |p.sweepNames| {
      HoldSweepKeeps(p, w, es, w.next - 1);
      SameCredentials(b, p, w, es, Advance(p, w, Activation(p)[w.next]), true);
    } else if w.next <= |p.sweepNames| + |p.canaries| {
      WriteCanaryKeeps(b, p, w, es, w.next - 1 - |p.sweepNames|);
    } else {
      SweepFrame(p, w, w.(phase := LimitedActive, next := w.next + 1));
      SameCredentials(b, p, w, es, Advance(p, w, Activation(p)[w.next]), true);
    }
  }

  lemma SweepFrame<C>(p: Plan<C>, w: World<C>, w': World<C>)
    requires w'.sweep == w.sweep && w'.heldSweep == w.heldSweep
    ensures SweepStays(p, w, w') && (SweepKept(p, w) <==> SweepKept(p, w'))
  {}

  /** The names of the batch are places at the top of the tree. */
  lemma BatchPlaces<C>(b: Ledger<C>, p: Plan<C>, n: string)
    requires Baseline(b, p) && n in Batch(p) && ClashFree(b, n)
    ensures Place(b, n) && Based(b) && (n in p.canaries <==> n != p.activeName) && (n in p.canaries ==> [n] !in b.auth)
  {
    hide ActivePool, Readable, ClashFree;
  }

  /** The watcher archives a canary or the active credential, wherever the quarantine is cut. */
  lemma ArchiveKeeps<C>(b: Ledger<C>, p: Plan<C>, w: World<C>, es: seq<Move>, n: string, reason: string, movedAt: string, fault: Fault)
    returns (es': seq<Move>)
    requires Baseline(b, p) && Recoverable(b, p, w, es) && n in Batch(p) && ClashFree(b, n)
    ensures var e, w' := Event<C>.Archive(n, reason, movedAt, fault), Happen(p, w, Archive(n, reason, movedAt, fault));
            Recoverable(b, p, w', es') && Kept(b, p, w, es, w', es', Loses(w, e), Strays(w, e), Spares(p, w, e))
  {
    hide Baseline, Grown, Tracks, AfterQuarantine, SourcesOf, Kept, Batch;
    BatchPlaces(b, p, n);
    es' := TakeTracks(b, w.ledger, Batch(p), es, n, reason, movedAt, fault);
    var w' := Happen(p, w, Archive(n, reason, movedAt, fault));
    forall m: string | m != n ensures [m] != [n] {
      assert [m][0] != [n][0];
    }
    KeptFrom(b, p, w, es, w', es', Loses(w, Archive(n, reason, movedAt, fault)), Strays(w, Archive(n, reason, movedAt, fault)), n != p.activeName);
    forall j | 0 <= j < |p.canaries| && w.next <= 1 + |p.sweepNames| + j
      ensures [p.canaries[j]] !in w'.ledger.auth && [p.canaries[j]] !in SourcesOf(es')
    {
      assert [p.canaries[j]] !in w.ledger.auth && [p.canaries[j]] !in SourcesOf(es);
    }
  }

  /** A recovery restores an archived file, wherever the restore is cut. */
  lemma RestoreKeeps<C>(b: Ledger<C>, p: Plan<C>, w: World<C>, es: seq<Move>, q: string, fault: Fault) returns (es': seq<Move>)
    requires Baseline(b, p) && Recoverable(b, p, w, es) && Unclaimed(Listing(b.manifest), q)
    ensures var e, w' := Event<C>.Recovering(RestoreArchived(q), fault), Happen(p, w, Recovering(RestoreArchived(q), fault));
            Recoverable(b, p, w', es') && Kept(b, p, w, es, w', es', Loses(w, e), Strays(w, e), true)
  {
    hide Baseline, Grown, Tracks, AfterRestore, SourcesOf, Unclaimed, Restorable, Kept, Batch;
    BaselinePlaced(b, p);
    var e := Event<C>.Recovering(RestoreArchived(q), fault);
    es' := RestoreTracks(b, w.ledger, Batch(p), es, q, fault);
    var w' := Happen(p, w, e);
    StoppedPending(p, w', es');
    TreeStays(b, p, w.ledger, w'.ledger);
    KeptFrom(b, p, w, es, w', es', Loses(w, e), Strays(w, e), true);
  }

  lemma BaselinePlaced<C>(b: Ledger<C>, p: Plan<C>)
    requires Baseline(b, p)
    ensures Placed(b, p.canaries) && Based(b)
  {}

  lemma StoppedPending<C>(p: Plan<C>, w: World<C>, es: seq<Move>)
    requires w.next == Steps(p)
    ensures Pending(p, w, es)
  {}

  lemma TreeStays<C>(b: Ledger<C>, p: Plan<C>, l: Ledger<C>, after: Ledger<C>)
    requires Baseline(b, p) && TreeKept(b, p, l.auth) && SameTree(l, after, Batch(p))
    ensures TreeKept(b, p, after.auth)
    ensures [p.activeName] in l.auth ==> [p.activeName] in after.auth && after.auth[[p.activeName]] == l.auth[[p.activeName]]
  {
    hide Placed, ActivePool;
    forall k {:trigger k in b.auth} | k in b.auth && k != [p.activeName] ensures k in after.auth && after.auth[k] == b.auth[k] {
      assert k in l.auth;
    }
    forall k | k in after.auth ensures k in b.auth || (|k| == 1 && k[0] in p.canaries) {
      assert |k| == 1 ==> k == [k[0]];
    }
  }

  lemma UnlinkShape<C>(p: Plan<C>, w: World<C>, c: string)
    ensures var w' := Act(p, Stopped(p, w), Unlink(c), ANY_PROBE).0;
            && w' == Stopped(p, w).(ledger := w.ledger.(auth := w'.ledger.auth))
            && (w'.ledger.auth == w.ledger.auth || w'.ledger.auth == w.ledger.auth - {[c]})
  {
    hide AfterRestore, Final;
  }

  lemma UnlinkKeeps<C>(b: Ledger<C>, p: Plan<C>, w: World<C>, es: seq<Move>, c: string)
    requires Baseline(b, p) && Recoverable(b, p, w, es) && c in p.canaries
    ensures var w' := Act(p, Stopped(p, w), Unlink(c), ANY_PROBE).0;
            Recoverable(b, p, w', es) && Kept(b, p, w, es, w', es, false, false, true)
  {
    hide Grown, Kept, ActivePool, SourcesOf, ClashFree, FileSafe, Act;
    var w' := Act(p, Stopped(p, w), Unlink(c), ANY_PROBE).0;
    UnlinkShape(p, w, c);
    StoppedPending(p, w', es);
    assert [c][0] != [p.activeName][0] && [c] !in b.auth;
    TreeChanges(b, p, w, es, w', true);
  }

  lemma PutBackActiveShape<C>(p: Plan<C>, w: World<C>)
    ensures var w' := Act(p, Stopped(p, w), PutBackActive, ANY_PROBE).0;
            && w' == Stopped(p, w).(ledger := w.ledger.(auth := w'.ledger.auth), heldActive := w'.heldActive)
            && ((w'.ledger.auth == w.ledger.auth && (w'.heldActive == w.heldActive || [p.activeName] in w.ledger.auth))
                || w'.ledger.auth == w.ledger.auth[[p.activeName] := p.active])
  {
    hide AfterRestore, Final;
  }

  lemma PutBackActiveKeeps<C>(b: Ledger<C>, p: Plan<C>, w: World<C>, es: seq<Move>)
    requires Baseline(b, p) && Recoverable(b, p, w, es)
    ensures var w' := Act(p, Stopped(p, w), PutBackActive, ANY_PROBE).0;
            Recoverable(b, p, w', es) && Kept(b, p, w, es, w', es, false, false, true)
  {
    hide Grown, Kept, ActivePool, Placed, Act, SourcesOf;
    var w' := Act(p, Stopped(p, w), PutBackActive, ANY_PROBE).0;
    PutBackActiveShape(p, w);
    StoppedPending(p, w', es);
    TreeChanges(b, p, w, es, w', true);
  }

  lemma SweepOpKeeps<C>(p: Plan<C>, w: World<C>, op: Op)
    requires op.SiftSweep? || op.PutBackSweep?
    ensures SweepStays(p, w, Act(p, Stopped(p, w), op, ANY_PROBE).0)
    ensures var w' := Act(p, Stopped(p, w), op, ANY_PROBE).0;
            w' == Stopped(p, w).(sweep := w'.sweep, heldSweep := w'.heldSweep, movedSweep := w'.movedSweep)
  {
    hide AfterRestore, Final, Steps;
    if op.SiftSweep? {
      SiftKeeps(p, w, op.file);
    }
  }

  lemma SiftKeeps<C>(p: Plan<C>, w: World<C>, n: string)
    ensures SweepStays(p, w, Act(p, Stopped(p, w), SiftSweep(n), ANY_PROBE).0)
  {
    hide AfterRestore, Final, Steps;
  }

  /** One operation of a recovery. */
  lemma RecoveringKeeps<C>(b: Ledger<C>, p: Plan<C>, w: World<C>, es: seq<Move>, op: Op, fault: Fault) returns (es': seq<Move>)
    requires Baseline(b, p) && Recoverable(b, p, w, es) && OfRecovery(b, p, op)
    ensures var e, w' := Event<C>.Recovering(op, fault), Happen(p, w, Recovering(op, fault));
            Recoverable(b, p, w', es') && Kept(b, p, w, es, w', es', Loses(w, e), Strays(w, e), true)
  {
    hide Grown, Kept, TreeKept, SweepStays, AfterRestore, Unclaimed, Baseline;
    es' := es;
    var w' := Happen(p, w, Recovering(op, fault));
    match op
    case RestoreArchived(q) => es' := RestoreKeeps(b, p, w, es, q, fault);
    case Unlink(c) => UnlinkKeeps(b, p, w, es, c);
    case PutBackActive => PutBackActiveKeeps(b, p, w, es);
    case ReadArchive => SweepFrame(p, w, w'); SameCredentials(b, p, w, es, w', true);
    case SiftReceipt(r) => SweepFrame(p, w, w'); SameCredentials(b, p, w, es, w', true);
    case SiftSweep(_) => SweepOpKeeps(p, w, op); SameCredentials(b, p, w, es, w', true);
    case PutBackSweep(_) => SweepOpKeeps(p, w, op); SameCredentials(b, p, w, es, w', true);
  }

  lemma RewriteKeeps<C>(b: Ledger<C>, p: Plan<C>, w: World<C>, es: seq<Move>, n: string, content: C)
    requires Baseline(b, p) && Recoverable(b, p, w, es) && n in Batch(p) && [n] in w.ledger.auth
    ensures var w' := Happen(p, w, Rewrite(n, content));
            Recoverable(b, p, w', es) && Kept(b, p, w, es, w', es, false, false, n != p.activeName)
  {
    hide Grown, ActivePool, Placed, Kept, SourcesOf;
    var w' := Happen(p, w, Rewrite(n, content));
    forall m: string | m != n ensures [m] != [n] {
      assert [m][0] != [n][0];
    }
    TreeChanges(b, p, w, es, w', n != p.activeName);
  }

  /** Whatever happens keeps the transaction recoverable, up to the active credential and the archive. */
  lemma EventKeeps<C>(b: Ledger<C>, p: Plan<C>, w: World<C>, es: seq<Move>, e: Event<C>) returns (es': seq<Move>)
    requires Baseline(b, p) && Recoverable(b, p, w, es) && Possible(b, p, w, e)
    ensures Recoverable(b, p, Happen(p, w, e), es')
    ensures Kept(b, p, w, es, Happen(p, w, e), es', Loses(w, e), Strays(w, e), Spares(p, w, e))
  {
    hide Placed, Kept, AfterRestore, AfterQuarantine, Act, OfRecovery, Activation, Advance, Batch;
    es' := es;
    match e
    case Activate =>
      hide Recoverable;
      ActivateKeeps(b, p, w, es);
    case Archive(n, reason, movedAt, fault) =>
      hide Recoverable;
      es' := ArchiveKeeps(b, p, w, es, n, reason, movedAt, fault);
    case Rewrite(n, content) =>
      hide Recoverable;
      RewriteKeeps(b, p, w, es, n, content);
    case Recovering(op, fault) =>
      hide Recoverable;
      es' := RecoveringKeeps(b, p, w, es, op, fault);
    case _ =>
      hide Recoverable;
      InputKeeps(b, p, w, es, e);
  }

  /** Watcher input and receipts come and go. */
  lemma InputKeeps<C>(b: Ledger<C>, p: Plan<C>, w: World<C>, es: seq<Move>, e: Event<C>)
    requires Recoverable(b, p, w, es) && Possible(b, p, w, e) && (e.Arrive? || e.Vanish? || e.Report? || e.Consume?)
    ensures Recoverable(b, p, Happen(p, w, e), es) && Kept(b, p, w, es, Happen(p, w, e), es, false, false, Spares(p, w, e))
  {
    hide Grown, TreeKept, Kept, SourcesOf, Batch;
    assert Spares(p, w, e) ==> SweepStays(p, w, Happen(p, w, e));
    SameCredentials(b, p, w, es, Happen(p, w, e), Spares(p, w, e));
  }

  ghost function Follow<C>(p: Plan<C>, w: World<C>, run: seq<Event<C>>): World<C>
    decreases |run|
  {
    if run == [] then w else Follow(p, Happen(p, w, run[0]), run[1..])
  }

  ghost predicate PossibleRun<C>(b: Ledger<C>, p: Plan<C>, w: World<C>, run: seq<Event<C>>)
    decreases |run|
  {
    run == [] || (Possible(b, p, w, run[0]) && PossibleRun(b, p, Happen(p, w, run[0]), run[1..]))
  }

  /** How many events of the run leave an entry without its file. */
  ghost function Losses<C>(p: Plan<C>, w: World<C>, run: seq<Event<C>>): nat
    decreases |run|
  {
    if run == [] then 0 else (if Loses(w, run[0]) then 1 else 0) + Losses(p, Happen(p, w, run[0]), run[1..])
  }

  /** How many events of the run leave a file in the archive unlisted. */
  ghost function Astray<C>(p: Plan<C>, w: World<C>, run: seq<Event<C>>): nat
    decreases |run|
  {
    if run == [] then 0 else (if Strays(w, run[0]) then 1 else 0) + Astray(p, Happen(p, w, run[0]), run[1..])
  }

  /** The run leaves the active credential and the watcher files to the transaction. */
  ghost predicate RunSpares<C>(p: Plan<C>, w: World<C>, run: seq<Event<C>>)
    decreases |run|
  {
    run == [] || (Spares(p, w, run[0]) && RunSpares(p, Happen(p, w, run[0]), run[1..]))
  }

  /**
   Over any run the transaction stays recoverable up to the active credential, the watcher
   files and the archive, and keeps those that are left to it.  Without a loss, and with the
   active credential left alone, a restorable ledger stays restorable, with one more orphan
   for each file left astray; without a file left astray a broken ledger stays broken.
   */
  lemma {:induction false} RunKeeps<C>(b: Ledger<C>, p: Plan<C>, w: World<C>, es: seq<Move>, run: seq<Event<C>>)
    returns (es': seq<Move>)
    requires Baseline(b, p) && Recoverable(b, p, w, es) && PossibleRun(b, p, w, run)
    ensures Recoverable(b, p, Follow(p, w, run), es')
    ensures RunSpares(p, w, run) ==> SweepStays(p, w, Follow(p, w, run))
    ensures OwnOnly(p, es) && RunSpares(p, w, run) ==>
              && OwnOnly(p, es')
              && (ActiveSafe(p, w.ledger.auth, w.heldActive) ==> ActiveSafe(p, Follow(p, w, run).ledger.auth, Follow(p, w, run).heldActive))
              && (Restorable(w.ledger, es) && Losses(p, w, run) == 0 ==>
                    Restorable(Follow(p, w, run).ledger, es')
                    && |Orphans(b, Follow(p, w, run).ledger, es')| == |Orphans(b, w.ledger, es)| + Astray(p, w, run))
    ensures Broken(w.ledger, es) && Astray(p, w, run) == 0 ==> Broken(Follow(p, w, run).ledger, es')
    decreases |run|
  {
    hide Baseline, Recoverable, Possible, Happen, Restorable, Broken, Orphans, Loses, Strays, Spares, OwnOnly, ActiveSafe, FileSafe;
    if run == [] {
      return es;
    }
    es' := EventKeeps(b, p, w, es, run[0]);
    es' := RunKeeps(b, p, Happen(p, w, run[0]), es', run[1..]);
  }

  lemma InitialRecoverable<C>(b: Ledger<C>, p: Plan<C>, w: World<C>)
    requires Baseline(b, p) && Initial(b, p, w)
    ensures Recoverable(b, p, w, []) && Restorable(w.ledger, []) && Orphans(b, w.ledger, []) == {}
    ensures OwnOnly(p, []) && ActiveSafe(p, w.ledger.auth, w.heldActive) && SweepKept(p, w)
  {
    hide ClashFree, Readable, ActivePool;
    assert SourcesOf([]) == {} && b.manifest.entries + [] == b.manifest.entries;
  }
}
