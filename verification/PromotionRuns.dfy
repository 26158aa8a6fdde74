/** What every run of a promotion keeps, with its rollbacks dying anywhere and anything happening in between. */
module PromotionRuns {
  import opened Wrappers
  import opened ArchiveNames
  import opened QuarantineLedger
  import opened LedgerLaws
  import opened ArchivedBatch
  import opened PoolFiles
  import opened Promotion

  // ---------------------------------------------------------------- the baseline and the invariant

  /** The preflight, and an importer that only adds new names. */
  ghost predicate Baseline<C>(b: Ledger<C>, p: Plan<C>) {
    && p.baseline.Keys == BaselineNames(p) && p.contents.Keys == ImportNames(p) && Distinct(p.imports)
    && Placed(b, p.imports) && p.archiveEntries == b.manifest.entries && Within(b.manifest, MAX_ARCHIVE_BYTES)
    && ActivePool(b.auth) == BaselineNames(p)
    && (forall n :: n in p.names ==> [n] in b.auth && b.auth[[n]] == p.baseline[n] && [n] !in b.dirs && ValidParts([n]))
    && (forall c :: c in p.imports ==> IsJson(c) && [c] !in b.auth)
  }

  ghost predicate Initial<C>(b: Ledger<C>, p: Plan<C>, w: World<C>) {
    w == World(b, map[], map[], p.failure, map[], None, None, {}, {}, false, {}, Prepared, 0)
  }

  predicate Named(k: Rel, names: seq<string>) {
    |k| == 1 && k[0] in names
  }

  /** The names whose files may be archived. */
  function Batch<C>(p: Plan<C>): seq<string> {
    p.imports + p.names
  }

  /** Nothing but baseline credentials and imports differs from the baseline. */
  ghost predicate TreeKept<C>(b: Ledger<C>, p: Plan<C>, auth: map<Rel, C>) {
    && (forall k {:trigger k in auth} :: k in auth ==> k in b.auth || Named(k, p.imports))
    && (forall k {:trigger k in b.auth} :: k in b.auth && !Named(k, p.names) ==> k in auth && auth[k] == b.auth[k])
  }

  ghost predicate CopiesKept<C>(p: Plan<C>, w: World<C>) {
    forall n :: n in w.halfMade ==> n in p.baseline && [n] in w.ledger.auth
  }

  ghost predicate Progress<C>(p: Plan<C>, w: World<C>, es: seq<Move>) {
    && w.next <= Steps(p)
    && (forall j :: w.next <= j < |p.imports| ==> [p.imports[j]] !in w.ledger.auth && [p.imports[j]] !in SourcesOf(es))
    && (w.promoted == {} || w.promoted == ImportNames(p))
    && (w.halfMade != {} || w.removed != map[] ==> w.next == Steps(p))
    && (forall n :: n in w.removed ==> n in p.imports)
  }

  /** Only the baseline credentials and archived files can be lost; `es` are the new entries of the archive. */
  ghost predicate Recoverable<C>(b: Ledger<C>, p: Plan<C>, w: World<C>, es: seq<Move>) {
    Grown(b, w.ledger, Batch(p), es) && TreeKept(b, p, w.ledger.auth) && CopiesKept(p, w) && Progress(p, w, es)
  }

  /** No new entry is that of a baseline credential. */
  predicate ImportsOnly<C>(p: Plan<C>, es: seq<Move>) {
    forall k :: k in SourcesOf(es) ==> !Named(k, p.names)
  }

  /** A baseline credential in the pool or in the hold has its content, unless its copy is half made. */
  ghost predicate Genuine<C>(p: Plan<C>, w: World<C>) {
    forall n :: n in p.baseline ==>
      ([n] in w.ledger.auth && n !in w.halfMade ==> w.ledger.auth[[n]] == p.baseline[n])
      && (n in w.held ==> w.held[n] == p.baseline[n])
  }

  lemma BaselinePlaced<C>(b: Ledger<C>, p: Plan<C>)
    requires Baseline(b, p)
    ensures Placed(b, p.imports) && Based(b)
  {}

  lemma Apart<C>(b: Ledger<C>, p: Plan<C>, n: string)
    requires Baseline(b, p)
    ensures n in p.names ==> n !in p.imports && [n] in b.auth && [n] !in b.dirs && b.auth[[n]] == p.baseline[n] && n in p.baseline
    ensures n in p.imports ==> n !in p.names && n !in p.baseline && [n] !in b.auth && [n] !in b.dirs && IsJson(n) && n in p.contents
    ensures n in p.baseline ==> n in p.names
  {
    hide ClashFree;
    assert n in p.names <==> n in p.baseline.Keys;
    assert n in p.imports <==> n in p.contents.Keys;
  }

  /** The names of the batch are places at the top of the tree. */
  lemma BatchPlaces<C>(b: Ledger<C>, p: Plan<C>, n: string)
    requires Baseline(b, p) && n in Batch(p) && ClashFree(b, n)
    ensures Place(b, n) && Based(b) && (n in p.imports <==> n !in p.names)
  {
    hide ActivePool, Readable, ClashFree;
    Apart(b, p, n);
  }

  /** The place of a new entry is that of an import or of a baseline credential. */
  lemma SourceNamed<C>(b: Ledger<C>, p: Plan<C>, l: Ledger<C>, es: seq<Move>, k: Rel)
    requires Grown(b, l, Batch(p), es) && k in SourcesOf(es)
    ensures k == [k[0]] && (Named(k, p.imports) || Named(k, p.names))
  {
    var m :| m in es && m.parts == k;
    assert BatchMove(b, Batch(p), m);
  }

  // ---------------------------------------------------------------- events

  /**
   What can happen to a promotion: its next operation, the watcher archives an import or a
   baseline credential, the gateway rewrites one, a baseline credential is lost, receipts
   and triggers appear, a rollback performs one of its operations or dies.  Anything may
   happen between two of them; a fault can cut quarantines, archive restores and the writing
   of a private copy in two.  A restore is `spoiled` when the file was a half-made copy.
   */
  datatype Event<C> =
    | Promote
    | Archiving(name: string, reason: string, movedAt: string, fault: Fault)
    | Rewrite(name: string, body: C)
    | Lose(name: string)
    | Report(receipt: string, report: Receipt<C>)
    | Fire(content: C)
    | Rolling(op: Op, cut: Fault, spoiled: bool)
    | CopyCut(name: string, part: C)
    | Die

  const ANY_PROBE := Probe(false, "", "")

  /** The operations of a rollback before its last. */
  ghost predicate OfRollback<C>(b: Ledger<C>, p: Plan<C>, op: Op) {
    match op
    case RestoreArchived(q) => Unclaimed(Listing(b.manifest), q)
    case RemovePromoted(n) => n in p.imports
    case Conclude => false
    case _ => true
  }

  /** The credential would now be written from its private copy. */
  ghost predicate Copies<C>(p: Plan<C>, w: World<C>, n: string) {
    n in p.baseline && [n] !in w.ledger.auth && [n] !in w.ledger.dirs && n !in w.held
  }

  ghost predicate Possible<C>(b: Ledger<C>, p: Plan<C>, w: World<C>, e: Event<C>) {
    match e
    case Promote => w.next < Steps(p) && Advance(p, w, Script(p)[w.next]).Some?
    case Archiving(n, _, _, _) => n in Batch(p) && ClashFree(b, n)
    case Rewrite(n, _) => n in Batch(p) && [n] in w.ledger.auth && n !in w.halfMade
    case Lose(n) => n in p.names
    case Report(_, _) => true
    case Fire(_) => true
    case Rolling(op, _, _) => OfRollback(b, p, op) && (op.RestoreArchived? ==> w.ready)
    case CopyCut(n, _) => Copies(p, w, n)
    case Die => true
  }

  /** The running process, promotion or rollback, dies. */
  function Died<C>(p: Plan<C>, w: World<C>): World<C> {
    Stopped(p, w).(working := {}, ready := false)
  }

  /** The half-made copies when the credentials change their places. */
  function Spoilt<C>(p: Plan<C>, w: World<C>, l: Ledger<C>, spoiled: bool): set<string> {
    (set n | n in w.halfMade && [n] in l.auth)
    + (if spoiled then set n | n in p.names && [n] in l.auth && [n] !in w.ledger.auth && n in p.baseline else {})
  }

  ghost function Happen<C>(b: Ledger<C>, p: Plan<C>, w: World<C>, e: Event<C>): World<C>
    requires Possible(b, p, w, e)
  {
    match e
    case Promote => Advance(p, w, Script(p)[w.next]).value
    case Archiving(n, reason, movedAt, fault) =>
      var l := AfterQuarantine(w.ledger, [n], reason, movedAt, fault).0;
      w.(ledger := l, halfMade := Spoilt(p, w, l, false))
    case Rewrite(n, body) => w.(ledger := w.ledger.(auth := w.ledger.auth[[n] := body]))
    case Lose(n) => w.(ledger := w.ledger.(auth := w.ledger.auth - {[n]}), halfMade := w.halfMade - {n})
    case Report(r, report) => w.(failure := w.failure[r := report])
    case Fire(content) => w.(trigger := Some(content))
    case Rolling(op, fault, spoiled) =>
      if op.RestoreArchived? then
        var l := AfterRestore(w.ledger, op.selector, fault).0;
        Stopped(p, w).(ledger := l, halfMade := Spoilt(p, w, l, spoiled))
      else Act(p, Stopped(p, w), op, ANY_PROBE).0
    case CopyCut(n, part) =>
      Died(p, w).(ledger := w.ledger.(auth := w.ledger.auth[[n] := part]), halfMade := w.halfMade + {n})
    case Die => Died(p, w)
  }

  /** The event gets as far as moving a file into the archive or out of it. */
  ghost predicate Strikes<C>(w: World<C>, e: Event<C>) {
    || (e.Archiving? && CanTake(w.ledger, e.name))
    || (e.Rolling? && e.op.RestoreArchived? && AfterRestore(w.ledger, e.op.selector, Clean).1.Moved?)
  }

  /** It leaves an entry listed whose file is not in the archive. */
  ghost predicate Loses<C>(w: World<C>, e: Event<C>) {
    Strikes(w, e) &&
    (if e.Archiving? then Rewrites(e.fault) && !Takes(e.fault) else Takes(e.cut) && !Rewrites(e.cut))
  }

  /** It leaves a file in the archive that is not listed. */
  ghost predicate Strays<C>(w: World<C>, e: Event<C>) {
    Strikes(w, e) &&
    (if e.Archiving? then Takes(e.fault) && !Rewrites(e.fault) else Rewrites(e.cut) && !Takes(e.cut))
  }

  /** It neither archives nor rewrites a baseline credential. */
  predicate Spares<C>(p: Plan<C>, e: Event<C>) {
    e.Archiving? || e.Rewrite? ==> e.name !in p.names
  }

  /** No removed import has come back, nor can it. */
  ghost predicate Clear<C>(w: World<C>, es: seq<Move>) {
    forall n :: n in w.removed ==> [n] !in w.ledger.auth && [n] !in SourcesOf(es)
  }

  /** What an event keeps besides the invariant. */
  ghost predicate Kept<C>(b: Ledger<C>, p: Plan<C>, w: World<C>, es: seq<Move>, w': World<C>, es': seq<Move>,
                          loses: bool, strays: bool, spares: bool) {
    && (loses || (Broken(w.ledger, es) && !strays) ==> Broken(w'.ledger, es'))
    && (ImportsOnly(p, es) && spares ==>
          && ImportsOnly(p, es')
          && (Genuine(p, w) ==> Genuine(p, w'))
          && (Restorable(w.ledger, es) && Clear(w, es) && !loses ==>
                && Restorable(w'.ledger, es') && Clear(w', es')
                && |Orphans(b, w'.ledger, es')| == |Orphans(b, w.ledger, es)| + (if strays then 1 else 0)))
  }

  lemma KeptFrom<C>(b: Ledger<C>, p: Plan<C>, w: World<C>, es: seq<Move>, w': World<C>, es': seq<Move>,
                    loses: bool, strays: bool, spares: bool)
    requires Tracks(b, w.ledger, es, w'.ledger, es', loses, strays)
    requires ImportsOnly(p, es) && spares ==> ImportsOnly(p, es') && (Genuine(p, w) ==> Genuine(p, w'))
    requires Restorable(w.ledger, es) && Clear(w, es) && !loses ==> Clear(w', es')
    ensures Kept(b, p, w, es, w', es', loses, strays, spares)
  {
    hide Broken, Restorable, Orphans, ImportsOnly, Genuine, Clear;
  }

  /** A change of the auth tree that leaves the places of archived imports and of removed ones alone. */
  lemma TreeChanges<C>(b: Ledger<C>, p: Plan<C>, w: World<C>, es: seq<Move>, w': World<C>, spares: bool)
    requires Grown(b, w.ledger, Batch(p), es) && w'.ledger == w.ledger.(auth := w'.ledger.auth) && w'.removed == w.removed
    requires forall k :: k in w'.ledger.auth ==> k in w.ledger.auth || k !in SourcesOf(es) || Named(k, p.names)
    requires forall n :: n in w.removed ==> [n] in w'.ledger.auth ==> [n] in w.ledger.auth
    requires spares && Genuine(p, w) ==> Genuine(p, w')
    ensures Grown(b, w'.ledger, Batch(p), es) && Kept(b, p, w, es, w', es, false, false, spares)
  {
    hide BatchMove, Genuine, Restorable, Orphans, Tracks;
    if ImportsOnly(p, es) {
      TreeTracks(b, w.ledger, Batch(p), es, w'.ledger.auth);
      KeptFrom(b, p, w, es, w', es, false, false, spares);
    }
  }

  /** Operations that touch no credential. */
  lemma SameCredentials<C>(b: Ledger<C>, p: Plan<C>, w: World<C>, es: seq<Move>, w': World<C>, spares: bool)
    requires Grown(b, w.ledger, Batch(p), es) && w'.ledger == w.ledger && w'.removed == w.removed && w'.held == w.held
    requires w'.halfMade == w.halfMade
    ensures Kept(b, p, w, es, w', es, false, false, spares)
  {
    hide Grown;
  }

  lemma ScriptAt<C>(p: Plan<C>, i: nat)
    requires i < Steps(p)
    ensures i < |p.imports| ==> Script(p)[i] == Import(p.imports[i])
    ensures i == |p.imports| ==> Script(p)[i] == RecordImported
    ensures |p.imports| < i <= |p.imports| + |p.names| ==> Script(p)[i] == Hold(p.names[i - |p.imports| - 1])
    ensures i > |p.imports| ==> Script(p)[i].Accept? || ((Script(p)[i].Hold? || Script(p)[i].Unhold?) && Script(p)[i].name in p.names)
  {
    var a, h, u := ImportAll(p.imports), HoldAll(p.names), UnholdAll(p.names);
    var k := i - |a| - 1;
    if |a| < i {
      assert Script(p)[i] == (h + (u + [Accept]))[k];
    }
  }

  lemma OtherPaths(n: string)
    ensures forall m: string :: m != n ==> [m] != [n]
  {
    forall m: string | m != n ensures [m] != [n] {
      assert [m][0] != [n][0];
    }
  }

  lemma ImportKeeps<C>(b: Ledger<C>, p: Plan<C>, w: World<C>, es: seq<Move>)
    requires Baseline(b, p) && Recoverable(b, p, w, es) && w.next < |p.imports|
    requires Advance(p, w, Import(p.imports[w.next])).Some?
    ensures var w' := Advance(p, w, Import(p.imports[w.next])).value;
            Recoverable(b, p, w', es) && Kept(b, p, w, es, w', es, false, false, true)
  {
    hide Baseline, Grown, Kept, SourcesOf;
    var n := p.imports[w.next];
    var w' := Advance(p, w, Import(n)).value;
    Apart(b, p, n);
    OtherPaths(n);
    TreeChanges(b, p, w, es, w', true);
    assert Distinct(p.imports) by { DistinctImports(b, p); }
  }

  lemma DistinctImports<C>(b: Ledger<C>, p: Plan<C>)
    requires Baseline(b, p)
    ensures Distinct(p.imports)
  {}

  lemma DistinctSize(names: seq<string>)
    requires Distinct(names)
    ensures |set n | n in names| == |names|
  {
    if names != [] {
      var k := |names| - 1;
      var front := set n | n in names[..k];
      DistinctSize(names[..k]);
      assert (set n | n in names) == front + {names[k]};
      assert names[k] !in front;
    }
  }

  lemma SameSize(a: set<string>, b: set<string>)
    requires a <= b && |a| == |b|
    ensures a == b
  {
    if a != b {
      var x :| x in b && x !in a;
      SubsetSmaller(a, b - {x});
    }
  }

  lemma SubsetSmaller(a: set<string>, b: set<string>)
    requires a <= b
    ensures |a| <= |b|
  {
    if a != {} {
      var x :| x in a;
      SubsetSmaller(a - {x}, b - {x});
    }
  }

  /** Everything new in the pool is an import. */
  lemma CreatedAreImports<C>(b: Ledger<C>, p: Plan<C>, w: World<C>)
    requires Baseline(b, p) && TreeKept(b, p, w.ledger.auth)
    ensures Created(p, w) == set c | c in p.imports && [c] in w.ledger.auth
  {
    hide Placed, ActivePool;
    forall c ensures c in Created(p, w) <==> c in p.imports && [c] in w.ledger.auth {
      assert [c][0] == c;
      PoolMember(w.ledger.auth, c);
      PoolMember(b.auth, c);
    }
  }

  lemma RecordKeeps<C>(b: Ledger<C>, p: Plan<C>, w: World<C>, es: seq<Move>)
    requires Baseline(b, p) && Recoverable(b, p, w, es) && w.next == |p.imports| && Advance(p, w, RecordImported).Some?
    ensures var w' := Advance(p, w, RecordImported).value;
            Recoverable(b, p, w', es) && Kept(b, p, w, es, w', es, false, false, true)
  {
    hide Grown, Placed, Created, TreeKept, Kept, ActivePool, SourcesOf;
    CreatedAreImports(b, p, w);
    DistinctSize(p.imports);
    SameSize(Created(p, w), ImportNames(p));
    SameCredentials(b, p, w, es, Advance(p, w, RecordImported).value, true);
  }

  lemma HoldKeeps<C>(b: Ledger<C>, p: Plan<C>, w: World<C>, es: seq<Move>, n: string)
    requires Baseline(b, p) && Recoverable(b, p, w, es) && |p.imports| < w.next < Steps(p) && n in p.names
    requires Advance(p, w, Hold(n)).Some?
    ensures var w' := Advance(p, w, Hold(n)).value;
            Recoverable(b, p, w', es) && Kept(b, p, w, es, w', es, false, false, true)
  {
    hide Baseline, Grown, Kept, SourcesOf;
    Apart(b, p, n);
    OtherPaths(n);
    var w' := Advance(p, w, Hold(n)).value;
    TreeChanges(b, p, w, es, w', true);
  }

  lemma GrownDirs<C>(b: Ledger<C>, l: Ledger<C>, names: seq<string>, es: seq<Move>)
    requires Grown(b, l, names, es)
    ensures l.dirs == b.dirs
  {}

  /** Its place is free and it is held with another content. */
  predicate StaleHold<C(==)>(p: Plan<C>, w: World<C>, n: string) {
    n in p.baseline && [n] !in w.ledger.auth && n in w.held && w.held[n] != p.baseline[n]
  }

  /**
   What putting a baseline credential back does: it is there afterwards, with the
   baseline's content if it was not there before; refused exactly when its copy is half made
   or its place is free and it was held with another content.
   */
  lemma PutBackShape<C>(b: Ledger<C>, p: Plan<C>, w: World<C>, n: string)
    requires Baseline(b, p) && CopiesKept(p, w) && w.ledger.dirs == b.dirs
    ensures var (w', verdict) := PutBack(p, w, n);
            && verdict == (if n in w.halfMade then Rejected(UnsafePool) else if StaleHold(p, w, n) then Rejected(SourceUnavailable) else Going)
            && (!verdict.Going? ==> w' == w)
            && w' == w.(ledger := w.ledger.(auth := w'.ledger.auth), held := w'.held)
            && (verdict.Going? ==>
                  w'.ledger.auth == if n in p.names && [n] !in w.ledger.auth then w.ledger.auth[[n] := p.baseline[n]] else w.ledger.auth)
            && (w'.held == w.held || w'.held == w.held - {n})
  {
    hide Baseline;
    Apart(b, p, n);
  }

  /** Putting a baseline credential back keeps the invariant. */
  lemma PutBackKeeps<C>(b: Ledger<C>, p: Plan<C>, w: World<C>, es: seq<Move>, n: string)
    requires Baseline(b, p) && Recoverable(b, p, w, es)
    ensures Recoverable(b, p, PutBack(p, w, n).0, es) && Kept(b, p, w, es, PutBack(p, w, n).0, es, false, false, true)
  {
    hide Baseline, Grown, Kept, SourcesOf, PutBack;
    Apart(b, p, n);
    GrownDirs(b, w.ledger, Batch(p), es);
    PutBackShape(b, p, w, n);
    OtherPaths(n);
    TreeChanges(b, p, w, es, PutBack(p, w, n).0, true);
  }

  lemma UnholdKeeps<C>(b: Ledger<C>, p: Plan<C>, w: World<C>, es: seq<Move>, n: string)
    requires Baseline(b, p) && Recoverable(b, p, w, es) && |p.imports| < w.next < Steps(p)
    requires Advance(p, w, Unhold(n)).Some?
    ensures var w' := Advance(p, w, Unhold(n)).value;
            Recoverable(b, p, w', es) && Kept(b, p, w, es, w', es, false, false, true)
  {
    hide Baseline, Grown, Kept, SourcesOf, PutBack;
    PutBackKeeps(b, p, w, es, n);
    GrownDirs(b, w.ledger, Batch(p), es);
    PutBackShape(b, p, w, n);
    var mid := PutBack(p, w, n).0;
    KeptFrame(b, p, w, es, mid, mid.(next := w.next + 1), es, false, false, true);
  }

  lemma KeptFrame<C>(b: Ledger<C>, p: Plan<C>, w: World<C>, es: seq<Move>, mid: World<C>, w': World<C>, es': seq<Move>,
                     loses: bool, strays: bool, spares: bool)
    requires Kept(b, p, w, es, mid, es', loses, strays, spares)
    requires w'.ledger == mid.ledger && w'.removed == mid.removed && w'.held == mid.held && w'.halfMade == mid.halfMade
    ensures Kept(b, p, w, es, w', es', loses, strays, spares)
  {
    hide Broken, Restorable, Orphans, ImportsOnly, SourcesOf;
  }

  /** The next operation of the promotion keeps it recoverable. */
  lemma PromoteKeeps<C>(b: Ledger<C>, p: Plan<C>, w: World<C>, es: seq<Move>)
    requires Baseline(b, p) && Recoverable(b, p, w, es) && w.next < Steps(p) && Advance(p, w, Script(p)[w.next]).Some?
    ensures var w' := Advance(p, w, Script(p)[w.next]).value;
            Recoverable(b, p, w', es) && Kept(b, p, w, es, w', es, false, false, true)
  {
    hide Baseline, Script, Kept, Grown, TreeKept;
    ScriptAt(p, w.next);
    var op := Script(p)[w.next];
    match op
    case Import(_) =>
      hide Advance, Recoverable;
      ImportKeeps(b, p, w, es);
    case RecordImported =>
      hide Advance, Recoverable;
      RecordKeeps(b, p, w, es);
    case Hold(n) =>
      hide Advance, Recoverable;
      HoldKeeps(b, p, w, es, n);
    case Unhold(n) =>
      hide Advance, Recoverable;
      UnholdKeeps(b, p, w, es, n);
    case Accept =>
      hide SourcesOf;
      SameCredentials(b, p, w, es, Advance(p, w, op).value, true);
  }

  /** The watcher archives an import or a baseline credential, wherever the quarantine is cut. */
  lemma ArchivingKeeps<C>(b: Ledger<C>, p: Plan<C>, w: World<C>, es: seq<Move>, n: string, reason: string, movedAt: string,
                          fault: Fault)
    returns (es': seq<Move>)
    requires Baseline(b, p) && Recoverable(b, p, w, es) && n in Batch(p) && ClashFree(b, n)
    ensures var e := Event<C>.Archiving(n, reason, movedAt, fault);
            Possible(b, p, w, e) && var w' := Happen(b, p, w, e);
            Recoverable(b, p, w', es') && Kept(b, p, w, es, w', es', Loses(w, e), Strays(w, e), Spares(p, e))
  {
    hide Baseline, Grown, Tracks, AfterQuarantine, SourcesOf, Restorable, Kept;
    var e := Event<C>.Archiving(n, reason, movedAt, fault);
    Apart(b, p, n);
    BatchPlaces(b, p, n);
    OtherPaths(n);
    es' := TakeTracks(b, w.ledger, Batch(p), es, n, reason, movedAt, fault);
    var w' := Happen(b, p, w, e);
    forall j | w.next <= j < |p.imports| ensures [p.imports[j]] !in w'.ledger.auth && [p.imports[j]] !in SourcesOf(es') {
      assert [p.imports[j]] !in w.ledger.auth && [p.imports[j]] !in SourcesOf(es);
    }
    KeptFrom(b, p, w, es, w', es', Loses(w, e), Strays(w, e), n !in p.names);
  }

  lemma LoseKeeps<C>(b: Ledger<C>, p: Plan<C>, w: World<C>, es: seq<Move>, n: string)
    requires Baseline(b, p) && Recoverable(b, p, w, es) && n in p.names
    ensures var w' := w.(ledger := w.ledger.(auth := w.ledger.auth - {[n]}), halfMade := w.halfMade - {n});
            Recoverable(b, p, w', es) && Kept(b, p, w, es, w', es, false, false, true)
  {
    hide Baseline, Grown, Kept, SourcesOf;
    var w' := w.(ledger := w.ledger.(auth := w.ledger.auth - {[n]}), halfMade := w.halfMade - {n});
    Apart(b, p, n);
    OtherPaths(n);
    TreeChanges(b, p, w, es, w', true);
  }

  lemma RewriteKeeps<C>(b: Ledger<C>, p: Plan<C>, w: World<C>, es: seq<Move>, n: string, body: C)
    requires Baseline(b, p) && Recoverable(b, p, w, es) && n in Batch(p) && [n] in w.ledger.auth && n !in w.halfMade
    ensures var w' := w.(ledger := w.ledger.(auth := w.ledger.auth[[n] := body]));
            Recoverable(b, p, w', es) && Kept(b, p, w, es, w', es, false, false, n !in p.names)
  {
    hide Baseline, Grown, Kept, SourcesOf;
    var w' := w.(ledger := w.ledger.(auth := w.ledger.auth[[n] := body]));
    Apart(b, p, n);
    OtherPaths(n);
    forall m | m in p.baseline ensures m in p.names {
      Apart(b, p, m);
    }
    TreeChanges(b, p, w, es, w', n !in p.names);
  }

  /** Dying inside the writing of a private copy keeps everything else. */
  lemma CopyCutKeeps<C>(b: Ledger<C>, p: Plan<C>, w: World<C>, es: seq<Move>, n: string, part: C)
    requires Baseline(b, p) && Recoverable(b, p, w, es) && Copies(p, w, n)
    ensures var w' := Died(p, w).(ledger := w.ledger.(auth := w.ledger.auth[[n] := part]), halfMade := w.halfMade + {n});
            Recoverable(b, p, w', es) && Kept(b, p, w, es, w', es, false, false, true)
  {
    hide Baseline, Grown, Kept, SourcesOf;
    Apart(b, p, n);
    OtherPaths(n);
    TreeChanges(b, p, w, es, Died(p, w).(ledger := w.ledger.(auth := w.ledger.auth[[n] := part]), halfMade := w.halfMade + {n}), true);
  }

  // ---------------------------------------------------------------- the operations of a rollback

  lemma RestoreKeeps<C>(b: Ledger<C>, p: Plan<C>, w: World<C>, es: seq<Move>, q: string, fault: Fault, spoiled: bool)
    returns (es': seq<Move>)
    requires Baseline(b, p) && Recoverable(b, p, w, es) && Unclaimed(Listing(b.manifest), q) && w.ready
    ensures var e := Event<C>.Rolling(RestoreArchived(q), fault, spoiled);
            Possible(b, p, w, e) && var w' := Happen(b, p, w, e);
            Recoverable(b, p, w', es') && Kept(b, p, w, es, w', es', Loses(w, e), Strays(w, e), true)
  {
    hide Baseline, Grown, Tracks, AfterRestore, SourcesOf, Restorable, Unclaimed, Kept, Batch;
    var e := Event<C>.Rolling(RestoreArchived(q), fault, spoiled);
    BaselinePlaced(b, p);
    es' := RestoreTracks(b, w.ledger, Batch(p), es, q, fault);
    var w' := Happen(b, p, w, e);
    TreeStays(b, p, w, es, w'.ledger);
    KeptFrom(b, p, w, es, w', es', Loses(w, e), Strays(w, e), true);
  }

  lemma TreeStays<C>(b: Ledger<C>, p: Plan<C>, w: World<C>, es: seq<Move>, l: Ledger<C>)
    requires Baseline(b, p) && TreeKept(b, p, w.ledger.auth) && SameTree(w.ledger, l, Batch(p))
    requires forall k :: k in l.auth ==> k in w.ledger.auth || k in SourcesOf(es)
    ensures TreeKept(b, p, l.auth)
    ensures ImportsOnly(p, es) ==> forall n :: n in p.baseline && [n] in l.auth ==> [n] in w.ledger.auth
    ensures forall n :: n in p.baseline && [n] in w.ledger.auth ==> [n] in l.auth && l.auth[[n]] == w.ledger.auth[[n]]
  {
    hide Baseline, SourcesOf;
    forall k {:trigger k in b.auth} | k in b.auth && !Named(k, p.names) ensures k in l.auth && l.auth[k] == b.auth[k] {
      assert k in w.ledger.auth;
    }
    forall k | k in l.auth ensures k in b.auth || Named(k, p.imports) {
      if Named(k, p.names) {
        Apart(b, p, k[0]);
        assert k == [k[0]];
      }
    }
    forall n | n in p.baseline ensures n in p.names && Named([n], p.names) {
      Apart(b, p, n);
      assert [n][0] == n;
    }
  }

  lemma RemoveKeeps<C>(b: Ledger<C>, p: Plan<C>, w: World<C>, es: seq<Move>, n: string)
    requires Baseline(b, p) && Recoverable(b, p, w, es) && n in p.imports
    ensures var w' := Act(p, Stopped(p, w), RemovePromoted(n), ANY_PROBE).0;
            Recoverable(b, p, w', es) && Kept(b, p, w, es, w', es, false, false, true)
  {
    hide Baseline, Grown, Tracks, SourcesOf, Restorable, Clear, Kept, Batch;
    Apart(b, p, n);
    OtherPaths(n);
    var w' := Act(p, Stopped(p, w), RemovePromoted(n), ANY_PROBE).0;
    RemoveShape(p, w, n);
    forall m | m in p.baseline ensures m != n {
      Apart(b, p, m);
    }
    TreeTracks(b, w.ledger, Batch(p), es, w'.ledger.auth);
    RemoveClear(p, w, es, n);
    KeptFrom(b, p, w, es, w', es, false, false, true);
  }

  lemma RemoveShape<C>(p: Plan<C>, w: World<C>, n: string)
    ensures var w' := Act(p, Stopped(p, w), RemovePromoted(n), ANY_PROBE).0;
            && w' == Stopped(p, w).(ledger := w.ledger.(auth := w'.ledger.auth), removed := w'.removed)
            && (w'.ledger.auth == w.ledger.auth - {[n]} || w' == Stopped(p, w))
  {}

  lemma RemoveClear<C>(p: Plan<C>, w: World<C>, es: seq<Move>, n: string)
    ensures Restorable(w.ledger, es) && Clear(w, es) ==> Clear(Act(p, Stopped(p, w), RemovePromoted(n), ANY_PROBE).0, es)
  {
    hide Restorable, SourcesOf;
    if Restorable(w.ledger, es) && [n] in w.ledger.auth {
      NotRestoredYet(w.ledger, es, [n]);
    }
  }

  lemma NotRestoredYet<C>(l: Ledger<C>, es: seq<Move>, k: Rel)
    requires Restorable(l, es) && k in l.auth
    ensures k !in SourcesOf(es)
  {}

  /** One operation of a rollback. */
  lemma RollingKeeps<C>(b: Ledger<C>, p: Plan<C>, w: World<C>, es: seq<Move>, op: Op, fault: Fault, spoiled: bool)
    returns (es': seq<Move>)
    requires Baseline(b, p) && Recoverable(b, p, w, es) && Possible(b, p, w, Rolling(op, fault, spoiled))
    ensures var e := Event<C>.Rolling(op, fault, spoiled); var w' := Happen(b, p, w, e);
            Recoverable(b, p, w', es') && Kept(b, p, w, es, w', es', Loses(w, e), Strays(w, e), true)
  {
    hide Baseline, Recoverable, Kept, AfterRestore, Unclaimed, PutBack, SourcesOf, Promoted, Archive, Final, Steps, Spoilt;
    es' := es;
    var w0, w' := Stopped(p, w), Happen(b, p, w, Rolling(op, fault, spoiled));
    match op
    case RestoreArchived(q) =>
      es' := RestoreKeeps(b, p, w, es, q, fault, spoiled);
    case RemovePromoted(n) =>
      RemoveKeeps(b, p, w, es, n);
    case PutBackBaseline(n) =>
      StoppedRecoverable(b, p, w, es);
      PutBackKeeps(b, p, w0, es, n);
      KeptBefore(b, p, w, es, w0, PutBack(p, w0, n).0, es, false, false, true);
    case Derive => StillRecoverable(b, p, w, es, w');
    case ReadArchive => StillRecoverable(b, p, w, es, w');
    case SiftReceipt(_) => StillRecoverable(b, p, w, es, w');
    case MoveTrigger => StillRecoverable(b, p, w, es, w');
  }

  lemma StillRecoverable<C>(b: Ledger<C>, p: Plan<C>, w: World<C>, es: seq<Move>, w': World<C>)
    requires Recoverable(b, p, w, es) && w'.ledger == w.ledger && w'.removed == w.removed && w'.held == w.held
    requires w'.promoted == w.promoted && w'.halfMade == w.halfMade && w'.next == Steps(p)
    ensures Recoverable(b, p, w', es) && Kept(b, p, w, es, w', es, false, false, true)
  {
    hide Grown, Kept, TreeKept;
    SameCredentials(b, p, w, es, w', true);
  }

  lemma KeptBefore<C>(b: Ledger<C>, p: Plan<C>, w: World<C>, es: seq<Move>, w0: World<C>, w': World<C>, es': seq<Move>,
                      loses: bool, strays: bool, spares: bool)
    requires Kept(b, p, w0, es, w', es', loses, strays, spares)
    requires w0.ledger == w.ledger && w0.removed == w.removed && w0.held == w.held && w0.halfMade == w.halfMade
    ensures Kept(b, p, w, es, w', es', loses, strays, spares)
  {
    hide Broken, Restorable, Orphans, ImportsOnly, SourcesOf;
  }

  /** Whatever happens keeps the promotion recoverable, up to the baseline credentials and the archive. */
  lemma EventKeeps<C>(b: Ledger<C>, p: Plan<C>, w: World<C>, es: seq<Move>, e: Event<C>) returns (es': seq<Move>)
    requires Baseline(b, p) && Recoverable(b, p, w, es) && Possible(b, p, w, e)
    ensures Recoverable(b, p, Happen(b, p, w, e), es')
    ensures Kept(b, p, w, es, Happen(b, p, w, e), es', Loses(w, e), Strays(w, e), Spares(p, e))
  {
    hide Baseline, Grown, TreeKept, Kept, AfterRestore, AfterQuarantine, Act, OfRollback, Script, Advance, Copies, Batch, Spoilt;
    es' := es;
    match e
    case Promote =>
      hide Recoverable;
      PromoteKeeps(b, p, w, es);
    case Archiving(n, reason, movedAt, fault) =>
      hide Recoverable;
      es' := ArchivingKeeps(b, p, w, es, n, reason, movedAt, fault);
    case Rewrite(n, body) =>
      hide Recoverable;
      RewriteKeeps(b, p, w, es, n, body);
    case Lose(n) =>
      hide Recoverable;
      LoseKeeps(b, p, w, es, n);
    case Rolling(op, fault, spoiled) =>
      hide Recoverable;
      es' := RollingKeeps(b, p, w, es, op, fault, spoiled);
    case CopyCut(n, part) =>
      hide Recoverable;
      CopyCutKeeps(b, p, w, es, n, part);
    case _ =>
      SameCredentials(b, p, w, es, Happen(b, p, w, e), true);
  }

  ghost predicate PossibleRun<C>(b: Ledger<C>, p: Plan<C>, w: World<C>, run: seq<Event<C>>)
    decreases |run|
  {
    run == [] || (Possible(b, p, w, run[0]) && PossibleRun(b, p, Happen(b, p, w, run[0]), run[1..]))
  }

  ghost function Follow<C>(b: Ledger<C>, p: Plan<C>, w: World<C>, run: seq<Event<C>>): World<C>
    requires PossibleRun(b, p, w, run)
    decreases |run|
  {
    if run == [] then w else Follow(b, p, Happen(b, p, w, run[0]), run[1..])
  }

  /** How many events of the run leave an entry without its file. */
  ghost function Losses<C>(b: Ledger<C>, p: Plan<C>, w: World<C>, run: seq<Event<C>>): nat
    requires PossibleRun(b, p, w, run)
    decreases |run|
  {
    if run == [] then 0 else (if Loses(w, run[0]) then 1 else 0) + Losses(b, p, Happen(b, p, w, run[0]), run[1..])
  }

  /** How many events of the run leave a file in the archive unlisted. */
  ghost function Astray<C>(b: Ledger<C>, p: Plan<C>, w: World<C>, run: seq<Event<C>>): nat
    requires PossibleRun(b, p, w, run)
    decreases |run|
  {
    if run == [] then 0 else (if Strays(w, run[0]) then 1 else 0) + Astray(b, p, Happen(b, p, w, run[0]), run[1..])
  }

  /** The run neither archives nor rewrites a baseline credential. */
  ghost predicate RunSpares<C>(p: Plan<C>, run: seq<Event<C>>) {
    forall e :: e in run ==> Spares(p, e)
  }

  /**
   Over any run the promotion stays recoverable up to the baseline credentials and the
   archive.  Without a loss, and with the baseline credentials left alone, a restorable
   ledger stays restorable, with one more orphan for each file left astray; without a file
   left astray a broken ledger stays broken.
   */
  lemma {:induction false} RunKeeps<C>(b: Ledger<C>, p: Plan<C>, w: World<C>, es: seq<Move>, run: seq<Event<C>>)
    returns (es': seq<Move>)
    requires Baseline(b, p) && Recoverable(b, p, w, es) && PossibleRun(b, p, w, run)
    ensures Recoverable(b, p, Follow(b, p, w, run), es')
    ensures ImportsOnly(p, es) && RunSpares(p, run) ==>
              && ImportsOnly(p, es')
              && (Genuine(p, w) ==> Genuine(p, Follow(b, p, w, run)))
              && (Restorable(w.ledger, es) && Clear(w, es) && Losses(b, p, w, run) == 0 ==>
                    && Restorable(Follow(b, p, w, run).ledger, es') && Clear(Follow(b, p, w, run), es')
                    && |Orphans(b, Follow(b, p, w, run).ledger, es')| == |Orphans(b, w.ledger, es)| + Astray(b, p, w, run))
    ensures Broken(w.ledger, es) && Astray(b, p, w, run) == 0 ==> Broken(Follow(b, p, w, run).ledger, es')
    decreases |run|
  {
    hide Baseline, Recoverable, Possible, Happen, Restorable, Broken, Orphans, Loses, Strays, Clear, Spares, ImportsOnly, Genuine;
    if run == [] {
      return es;
    }
    assert run[0] in run && forall e :: e in run[1..] ==> e in run;
    es' := EventKeeps(b, p, w, es, run[0]);
    es' := RunKeeps(b, p, Happen(b, p, w, run[0]), es', run[1..]);
  }

  lemma InitialRecoverable<C>(b: Ledger<C>, p: Plan<C>, w: World<C>)
    requires Baseline(b, p) && Initial(b, p, w)
    ensures Recoverable(b, p, w, []) && Restorable(w.ledger, []) && Clear(w, []) && Orphans(b, w.ledger, []) == {}
    ensures ImportsOnly(p, []) && Genuine(p, w)
  {
    hide ClashFree, Readable, ActivePool;
    assert SourcesOf([]) == {} && b.manifest.entries + [] == b.manifest.entries;
    forall n | n in p.baseline ensures n in p.names {
      Apart(b, p, n);
    }
    forall k {:trigger k in b.auth} | k in b.auth ensures k in b.auth {}
  }

  // ---------------------------------------------------------------- interrupted rollbacks are runs

  /** The events of a rollback that performs these operations one after another. */
  function Performing<C>(ops: seq<Op>): (run: seq<Event<C>>)
    ensures |run| == |ops|
  {
    seq(|ops|, i requires 0 <= i < |ops| => Rolling(ops[i], Clean, false))
  }

  /** Restores come only after the archive has been read. */
  predicate Guarded(ops: seq<Op>, ready: bool) {
    ops == [] ||
    ((ops[0].RestoreArchived? ==> ready)
     && Guarded(ops[1..], if ops[0].Derive? then false else ready || ops[0].ReadArchive?))
  }

  lemma {:induction false} GuardedAfter(xs: seq<Op>, ys: seq<Op>, ready: bool)
    requires forall op :: op in xs ==> !op.RestoreArchived? && !op.Derive?
    requires Guarded(ys, ready || exists op :: op in xs && op.ReadArchive?)
    ensures Guarded(xs + ys, ready)
    decreases |xs|
  {
    if xs == [] {
      assert xs + ys == ys;
    } else {
      assert (xs + ys)[0] == xs[0] && (xs + ys)[1..] == xs[1..] + ys && xs[0] in xs;
      assert xs == [xs[0]] + xs[1..];
      GuardedAfter(xs[1..], ys, ready || xs[0].ReadArchive?);
    }
  }

  lemma {:induction false} GuardedReady(ops: seq<Op>)
    requires forall op :: op in ops ==> !op.Derive?
    ensures Guarded(ops, true)
    decreases |ops|
  {
    if ops != [] {
      assert ops[0] in ops && forall op :: op in ops[1..] ==> op in ops;
      GuardedReady(ops[1..]);
    }
  }

  lemma {:induction false} GuardedPrefix(ops: seq<Op>, count: nat, ready: bool)
    requires count <= |ops| && Guarded(ops, ready)
    ensures Guarded(ops[..count], ready)
    decreases |ops|
  {
    if count > 0 {
      assert ops[..count][1..] == ops[1..][..count - 1];
      GuardedPrefix(ops[1..], count - 1, if ops[0].Derive? then false else ready || ops[0].ReadArchive?);
    }
  }

  lemma RestoresOnly(selectors: seq<string>)
    ensures forall op :: op in Restores(selectors) ==> op.RestoreArchived?
  {}

  lemma ClosingOps(d: Listings)
    ensures forall op :: op in Closing(d) ==> !op.RestoreArchived? && !op.Derive? && !op.ReadArchive?
  {
    var r, s := Removes(d.promoted), Sifts(d.receipts);
    forall op | op in Closing(d) ensures !op.RestoreArchived? && !op.Derive? && !op.ReadArchive? {
      assert op in r || op in s || op == MoveTrigger || op == Conclude;
    }
  }

  /** A rollback reads the archive before it restores from it. */
  lemma RollbackGuarded<C>(p: Plan<C>, w: World<C>, d: Listings, ready: bool)
    ensures Guarded(RollbackOps(p, w, d), ready)
  {
    hide Closing, Restores, Selected;
    var puts, rest := PutBacks(p.names) + [ReadArchive], Restores(Selected(Listing(w.ledger.manifest), d.promoted)) + Closing(d);
    RestoresOnly(Selected(Listing(w.ledger.manifest), d.promoted));
    ClosingOps(d);
    GuardedReady(rest);
    assert ReadArchive in puts;
    forall op | op in puts ensures !op.RestoreArchived? && !op.Derive? {
      assert op in PutBacks(p.names) || op == ReadArchive;
    }
    GuardedAfter(puts, rest, false);
    assert RollbackOps(p, w, d) == [Derive] + (puts + rest);
    assert ([Derive] + (puts + rest))[1..] == puts + rest;
  }

  lemma ActIsEvent<C>(b: Ledger<C>, p: Plan<C>, w: World<C>, op: Op, probe: Probe)
    requires w.next == Steps(p) && OfRollback(b, p, op) && (op.RestoreArchived? ==> w.ready) && CopiesKept(p, w)
    ensures Possible(b, p, w, Rolling(op, Clean, false))
    ensures Act(p, w, op, probe).0 == Happen(b, p, w, Rolling(op, Clean, false)) && Act(p, w, op, probe).0.next == Steps(p)
    ensures Act(p, w, op, probe).1.Going? ==> Act(p, w, op, probe).0.ready == (if op.Derive? then false else w.ready || op.ReadArchive?)
  {
    hide Promoted, Archive, AfterRestore, Unclaimed;
    assert Stopped(p, w) == w;
    if op.RestoreArchived? {
      CopiesStay(p, w, op.selector);
    }
  }

  /** A restore leaves the files of the auth tree where they are. */
  lemma CopiesStay<C>(p: Plan<C>, w: World<C>, q: string)
    requires CopiesKept(p, w)
    ensures Spoilt(p, w, AfterRestore(w.ledger, q, Clean).0, false) == w.halfMade
  {
    hide RestoreEntry, Selectors, ManifestBytes;
    var (after, outcome) := AfterRestore(w.ledger, q, Clean);
    if after != w.ledger {
      EntryAdds(w.ledger, q);
    }
  }

  lemma EntryAdds<C>(l: Ledger<C>, q: string)
    ensures forall k :: k in l.auth ==> k in AfterRestore(l, q, Clean).0.auth
  {
    hide Selectors, ManifestBytes;
  }

  /** A rollback that dies after any number of operations, or ends with a refusal, is a run of such events. */
  lemma {:induction false} ExecIsRun<C>(b: Ledger<C>, p: Plan<C>, w: World<C>, es: seq<Move>, ops: seq<Op>, probe: Probe)
    returns (count: nat)
    requires Baseline(b, p) && Recoverable(b, p, w, es)
    requires w.next == Steps(p) && Guarded(ops, w.ready) && forall op :: op in ops ==> OfRollback(b, p, op)
    ensures count <= |ops| && PossibleRun(b, p, w, Performing(ops[..count]))
    ensures Exec(p, w, ops, probe).0 == Follow(b, p, w, Performing(ops[..count]))
    decreases |ops|
  {
    hide Baseline, Grown, TreeKept, Progress, OfRollback, Act, Possible, Happen, Kept;
    if ops == [] {
      return 0;
    }
    var op := ops[0];
    assert op in ops && forall o :: o in ops[1..] ==> o in ops;
    ActIsEvent(b, p, w, op, probe);
    var (mid, verdict) := Act(p, w, op, probe);
    count := 0;
    if verdict.Going? {
      var es' := EventKeeps(b, p, w, es, Rolling(op, Clean, false));
      count := ExecIsRun(b, p, mid, es', ops[1..], probe);
    }
    count := count + 1;
    assert Performing<C>(ops[..count])[0] == Rolling(op, Clean, false);
    assert Performing<C>(ops[..count])[1..] == Performing(ops[1..][..count - 1]);
  }

  /** What a rollback works on: every import that is still in the pool, and whatever is listed as archived. */
  lemma PromotedCovers<C>(b: Ledger<C>, p: Plan<C>, w: World<C>, es: seq<Move>)
    requires Baseline(b, p) && Recoverable(b, p, w, es)
    ensures w.promoted == {} ==> Promoted(p, w) == (set c | c in p.imports && [c] in w.ledger.auth) + set n | n in Batch(p) && [n] in SourcesOf(es)
    ensures w.promoted != {} ==> Promoted(p, w) == ImportNames(p)
  {
    hide Placed, ActivePool, FromNames, Created, NewSources, TreeKept, CopiesKept, BatchMove, SourcesOf;
    if w.promoted == {} {
      CreatedAreImports(b, p, w);
      forall c ensures c in Promoted(p, w) <==> (c in p.imports && [c] in w.ledger.auth) || (c in Batch(p) && [c] in SourcesOf(es)) {
        NewAreListed(b, p, w.ledger, es, c);
      }
    }
  }

  lemma NewAreListed<C>(b: Ledger<C>, p: Plan<C>, l: Ledger<C>, es: seq<Move>, c: string)
    requires Baseline(b, p) && Grown(b, l, Batch(p), es)
    ensures c in NewSources(Listing(l.manifest), p.archiveEntries) <==> [c] in SourcesOf(es)
    ensures [c] in SourcesOf(es) ==> c in Batch(p)
  {
    hide ActivePool, ClashFree, ValidParts, PlainName, Selectors, EntryPaths;
    forall m | m in es ensures m.parts == [m.parts[0]] && m.parts[0] in Batch(p) && m !in b.manifest.entries && m in b.manifest.entries + es {
      assert BatchMove(b, Batch(p), m);
      EntrySelected(m, m.quarantineName);
    }
    if [c] in SourcesOf(es) {
      var m :| m in es && m.parts == [c];
      assert [c][0] == c && m in b.manifest.entries + es;
    }
  }

  /** The promoted names are imports, unless a baseline credential was archived before anything was recorded. */
  lemma PromotedImports<C>(b: Ledger<C>, p: Plan<C>, w: World<C>, es: seq<Move>)
    requires Baseline(b, p) && Recoverable(b, p, w, es)
    ensures ImportsOnly(p, es) || w.promoted != {} ==> forall n :: n in Promoted(p, w) ==> n in p.imports
    ensures !ImportsOnly(p, es) && w.promoted == {} ==> exists m :: m in es && Named(m.parts, p.names) && m.parts[0] in Promoted(p, w)
    ensures w.promoted == {} ==> forall c :: c in p.imports && ([c] in w.ledger.auth || [c] in SourcesOf(es)) ==> c in Promoted(p, w)
  {
    hide Baseline, Promoted, TreeKept, CopiesKept, Progress;
    PromotedCovers(b, p, w, es);
    forall n | n in Batch(p) && [n] in SourcesOf(es) && ImportsOnly(p, es) ensures n in p.imports {
      assert [n][0] == n;
    }
    if !ImportsOnly(p, es) {
      var k :| k in SourcesOf(es) && Named(k, p.names);
      var m :| m in es && m.parts == k;
      assert k == [k[0]];
    }
  }

  /** The listing of a rollback selects exactly the archived imports. */
  lemma ListingSelects<C>(b: Ledger<C>, p: Plan<C>, w: World<C>, es: seq<Move>, names: seq<string>)
    requires Baseline(b, p) && Recoverable(b, p, w, es) && Lists(names, Promoted(p, w)) && ImportsOnly(p, es)
    ensures Selected(Listing(w.ledger.manifest), names) == NamesOf(es)
    ensures forall n :: n in names ==> n in p.imports
    ensures forall c :: c in p.imports && ([c] in w.ledger.auth || [c] in SourcesOf(es)) ==> c in names
  {
    hide ActivePool, Promoted, CopiesKept, TreeKept, ClashFree, Unclaimed, Progress, Selected;
    PromotedImports(b, p, w, es);
    PromotedCovers(b, p, w, es);
    forall m | m in es ensures FromNames(m, names) {
      assert BatchMove(b, Batch(p), m) && m.parts in SourcesOf(es) && m.parts == [m.parts[0]] && !Named(m.parts, p.names);
    }
    SelectedIsBatch(b.manifest.entries, es, names);
  }

  /** The archive names of the imports that a rollback restores are those of new entries. */
  lemma SelectedUnclaimed<C>(b: Ledger<C>, p: Plan<C>, l: Ledger<C>, es: seq<Move>, names: seq<string>)
    requires Baseline(b, p) && Grown(b, l, Batch(p), es) && forall n :: n in names ==> n in p.imports
    ensures forall q :: q in Selected(Listing(l.manifest), names) ==> Unclaimed(Listing(b.manifest), q)
  {
    hide ClashFree, Unclaimed, Readable, ActivePool;
    forall q | q in Selected(Listing(l.manifest), names) ensures Unclaimed(Listing(b.manifest), q) {
      var e := SelectedFrom(Listing(l.manifest), names, q);
      assert e in b.manifest.entries || e in es;
    }
  }

  lemma RestoresFit<C>(b: Ledger<C>, p: Plan<C>, selectors: seq<string>)
    requires forall q :: q in selectors ==> Unclaimed(Listing(b.manifest), q)
    ensures forall op :: op in Restores(selectors) ==> OfRollback(b, p, op)
  {
    hide Unclaimed;
    var r := Restores(selectors);
    forall op | op in r ensures OfRollback(b, p, op) {
      var i :| 0 <= i < |r| && r[i] == op;
      assert selectors[i] in selectors;
    }
  }

  lemma ClosingFits<C>(b: Ledger<C>, p: Plan<C>, d: Listings) returns (front: seq<Op>)
    requires forall n :: n in d.promoted ==> n in p.imports
    ensures Closing(d) == front + [Conclude] && forall op :: op in front ==> OfRollback(b, p, op)
  {
    var r, s := Removes(d.promoted), Sifts(d.receipts);
    front := r + (s + [MoveTrigger]);
    forall op | op in front ensures OfRollback(b, p, op) {
      assert op in r || op in s || op == MoveTrigger;
      if op in r {
        var i :| 0 <= i < |r| && r[i] == op;
        assert d.promoted[i] in d.promoted;
      }
    }
  }

  lemma OpeningFits<C>(b: Ledger<C>, p: Plan<C>)
    ensures forall op :: op in Opening(p) ==> OfRollback(b, p, op) && !op.RestoreArchived?
  {
    var k := PutBacks(p.names);
    forall op | op in Opening(p) ensures OfRollback(b, p, op) && !op.RestoreArchived? {
      assert op == Derive || op in k || op == ReadArchive;
    }
  }

  /** All operations of a rollback but the last are of this kind, if it works on imports only. */
  lemma RollbackFits<C>(b: Ledger<C>, p: Plan<C>, w: World<C>, es: seq<Move>, d: Listings) returns (front: seq<Op>)
    requires Baseline(b, p) && Grown(b, w.ledger, Batch(p), es) && forall n :: n in d.promoted ==> n in p.imports
    ensures RollbackOps(p, w, d) == front + [Conclude] && forall op :: op in front ==> OfRollback(b, p, op)
  {
    hide Baseline, Grown, Opening, Closing, Restores, Selected, OfRollback, Batch, Unclaimed;
    var selectors := Selected(Listing(w.ledger.manifest), d.promoted);
    SelectedUnclaimed(b, p, w.ledger, es, d.promoted);
    RestoresFit(b, p, selectors);
    OpeningFits(b, p);
    var x, y := Opening(p), Restores(selectors);
    var z := ClosingFits(b, p, d);
    front := x + (y + z);
    assert x + (y + (z + [Conclude])) == front + [Conclude];
    forall op | op in front ensures OfRollback(b, p, op) {
      assert op in x || op in y || op in z;
    }
  }

  lemma StoppedRecoverable<C>(b: Ledger<C>, p: Plan<C>, w: World<C>, es: seq<Move>)
    requires Recoverable(b, p, w, es)
    ensures Recoverable(b, p, Stopped(p, w), es) && Recoverable(b, p, Died(p, w), es)
    ensures Promoted(p, Stopped(p, w)) == Promoted(p, w)
  {
    hide Grown, TreeKept;
  }

  // ---------------------------------------------------------------- rollbacks that meet an archived baseline credential

  /** Every baseline credential is in the pool. */
  predicate AllHere<C>(p: Plan<C>, w: World<C>) {
    forall n :: n in p.names ==> [n] in w.ledger.auth
  }

  /** The selectors of a rollback: archive names of new entries, or of older entries of baseline credentials. */
  ghost predicate Selectable<C>(b: Ledger<C>, p: Plan<C>, q: string) {
    Unclaimed(Listing(b.manifest), q) || exists e :: e in Listing(b.manifest) && FromNames(e, p.names) && e.quarantineName == q
  }

  lemma SelectorsSelectable<C>(b: Ledger<C>, p: Plan<C>, l: Ledger<C>, es: seq<Move>, names: seq<string>)
    requires Baseline(b, p) && Grown(b, l, Batch(p), es) && forall n :: n in names ==> n in Batch(p)
    ensures forall q :: q in Selected(Listing(l.manifest), names) ==> Selectable(b, p, q)
  {
    hide ClashFree, Unclaimed, Readable, ActivePool;
    forall q | q in Selected(Listing(l.manifest), names) ensures Selectable(b, p, q) {
      var e := SelectedFrom(Listing(l.manifest), names, q);
      if e in es {
        assert BatchMove(b, Batch(p), e);
      } else {
        assert e in b.manifest.entries && !FromNames(e, p.imports);
      }
    }
  }

  /** Restoring by the name of an older entry is refused while the baseline credentials are in the pool. */
  lemma OlderRefused<C>(b: Ledger<C>, p: Plan<C>, w: World<C>, es: seq<Move>, q: string)
    requires Baseline(b, p) && Grown(b, w.ledger, Batch(p), es) && AllHere(p, w)
    requires Selectable(b, p, q) && !Unclaimed(Listing(b.manifest), q)
    ensures AfterRestore(w.ledger, q, Clean).0 == w.ledger && AfterRestore(w.ledger, q, Clean).1.Refused?
  {
    hide AfterRestore, ClashFree, ActivePool, BatchMove;
    var e :| e in Listing(b.manifest) && FromNames(e, p.names) && e.quarantineName == q;
    assert e in Listing(w.ledger.manifest) && EntryPaths(e).Some?;
    assert e.parts == [e.parts[0]];
    OccupiedRefused(w.ledger, e, q);
  }

  /** A series of restores by such selectors is a run of those that succeed. */
  lemma {:induction false} RestoresAreRun<C>(b: Ledger<C>, p: Plan<C>, w: World<C>, es: seq<Move>, selectors: seq<string>, probe: Probe)
    returns (count: nat)
    requires Baseline(b, p) && Recoverable(b, p, w, es) && AllHere(p, w) && w.ready && w.next == Steps(p)
    requires forall q :: q in selectors ==> Selectable(b, p, q)
    ensures count <= |selectors| && PossibleRun(b, p, w, Performing(Restores(selectors)[..count]))
    ensures Exec(p, w, Restores(selectors), probe).0 == Follow(b, p, w, Performing(Restores(selectors)[..count]))
    decreases |selectors|
  {
    hide Baseline, Grown, TreeKept, Progress, Unclaimed, AfterRestore, Selectable, Kept, Possible, Happen, Batch;
    count := 0;
    assert Performing<C>(Restores(selectors)[..0]) == [];
    if selectors == [] {
      return;
    }
    var q, op := selectors[0], RestoreArchived(selectors[0]);
    assert q in selectors && forall x :: x in selectors[1..] ==> x in selectors;
    RestoreActs(p, w, q, probe);
    if Unclaimed(Listing(b.manifest), q) && AfterRestore(w.ledger, q, Clean).1.Moved? {
      assert OfRollback(b, p, op);
      ActIsEvent(b, p, w, op, probe);
      var mid := Act(p, w, op, probe).0;
      var es' := EventKeeps(b, p, w, es, Rolling(op, Clean, false));
      EntryAdds(w.ledger, q);
      var rest := RestoresAreRun(b, p, mid, es', selectors[1..], probe);
      count := 1 + rest;
      assert Restores(selectors)[0] == op && Restores(selectors)[1..] == Restores(selectors[1..]);
      assert Performing<C>(Restores(selectors)[..count])[0] == Rolling(op, Clean, false);
      assert Performing<C>(Restores(selectors)[..count])[1..] == Performing(Restores(selectors)[1..][..rest]);
    } else {
      if !Unclaimed(Listing(b.manifest), q) {
        OlderRefused(b, p, w, es, q);
      }
      RefusedUnchanged(w.ledger, q);
      assert Restores(selectors)[0] == op;
    }
  }

  lemma RestoreActs<C>(p: Plan<C>, w: World<C>, q: string, probe: Probe)
    ensures Act(p, w, RestoreArchived(q), probe) ==
              (w.(ledger := AfterRestore(w.ledger, q, Clean).0), if AfterRestore(w.ledger, q, Clean).1.Moved? then Going else Rejected(NotContained))
  {
    hide AfterRestore;
  }
}
