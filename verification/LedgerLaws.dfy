/** What every run of quarantines and restores keeps, and how they undo each other. */
module LedgerLaws {
  import opened Wrappers
  import opened ArchiveNames
  import opened Maps
  import opened QuarantineLedger

  datatype Step =
    | Take(source: Rel, reason: string, movedAt: string, fault: Fault)
    | Return(selector: string, fault: Fault)

  /** The file changes its tree for good. */
  predicate Takes(fault: Fault) {
    fault.Clean? || (fault.Interrupted? && fault.undo.NotUndone?)
  }

  /** The manifest is replaced. */
  predicate Rewrites(fault: Fault) {
    fault.Clean? || (fault.Interrupted? && fault.stored)
  }

  ghost function Do<C>(l: Ledger<C>, step: Step): (Ledger<C>, Outcome) {
    match step
    case Take(source, reason, movedAt, fault) => AfterQuarantine(l, source, reason, movedAt, fault)
    case Return(selector, fault) => AfterRestore(l, selector, fault)
  }

  ghost function Run<C>(l: Ledger<C>, steps: seq<Step>): Ledger<C>
    decreases |steps|
  {
    if steps == [] then l else Run(Do(l, steps[0]).0, steps[1..])
  }

  // ------------------------------------------------------------------ conservation

  ghost function Contents<C>(l: Ledger<C>): multiset<C> {
    Values(l.auth) + Values(l.archive)
  }

  lemma ArchivingConserves<C>(l: Ledger<C>, source: Rel, name: string, manifest: Manifest)
    requires source in l.auth && [name] !in l.archive
    ensures Contents(Archived(l, source, name, manifest)) == Contents(l)
  {
    ValuesRemove(l.auth, source);
    ValuesInsert(l.archive, [name], l.auth[source]);
  }

  lemma UnarchivingConserves<C>(l: Ledger<C>, paths: Paths, manifest: Manifest)
    requires paths.source in l.archive && paths.target !in l.auth
    ensures Contents(Unarchived(l, paths, manifest)) == Contents(l)
  {
    ValuesRemove(l.archive, paths.source);
    ValuesInsert(l.auth, paths.target, l.archive[paths.source]);
  }

  lemma TakeConserves<C>(l: Ledger<C>, source: Rel, reason: string, movedAt: string, fault: Fault)
    ensures Contents(AfterQuarantine(l, source, reason, movedAt, fault).0) == Contents(l)
  {
    hide Values, ArchiveName;
    if source in l.auth {
      var name := ArchiveName(BaseName(source), Present(l.archive));
      ArchiveNameIsNew(l.archive, BaseName(source));
      ArchivingConserves(l, source, name, AfterQuarantine(l, source, reason, movedAt, fault).0.manifest);
    }
  }

  lemma EntryConserves<C>(l: Ledger<C>, entries: seq<Entry>, i: nat, fault: Fault)
    requires i < |entries| && Readable(entries)
    ensures Contents(RestoreEntry(l, entries, i, fault).0) == Contents(l)
  {
    hide Values, EntryPaths;
    var paths := EntryPaths(entries[i]).value;
    if paths.source in l.archive && TargetFree(l, paths.target) {
      UnarchivingConserves(l, paths, RestoreEntry(l, entries, i, fault).0.manifest);
    }
  }

  lemma ReturnConserves<C>(l: Ledger<C>, selector: string, fault: Fault)
    ensures Contents(AfterRestore(l, selector, fault).0) == Contents(l)
  {
    hide RestoreEntry, Contents, Selectors;
    if AfterRestore(l, selector, fault).0 != l {
      var entries := Entries(l.manifest).value;
      var i: nat :| SoleMatch(entries, selector, i) && AfterRestore(l, selector, fault) == RestoreEntry(l, entries, i, fault);
      EntryConserves(l, entries, i, fault);
    }
  }

  /** No step loses, duplicates or changes a credential, whatever fails. */
  lemma StepConserves<C>(l: Ledger<C>, step: Step)
    ensures Contents(Do(l, step).0) == Contents(l)
  {
    match step
    case Take(source, reason, movedAt, fault) => TakeConserves(l, source, reason, movedAt, fault);
    case Return(selector, fault) => ReturnConserves(l, selector, fault);
  }

  lemma {:induction false} RunConserves<C>(l: Ledger<C>, steps: seq<Step>)
    ensures Contents(Run(l, steps)) == Contents(l)
    decreases |steps|
  {
    if steps != [] {
      StepConserves(l, steps[0]);
      RunConserves(Do(l, steps[0]).0, steps[1..]);
    }
  }

  // ------------------------------------------------------------------ the ledger invariant

  /** The entries of a manifest, whatever its size. */
  function Listing(m: Manifest): seq<Entry> {
    if m.Listed? then m.entries else []
  }

  ghost predicate SoundTree<C>(l: Ledger<C>) {
    forall p {:trigger p in l.auth} :: p in l.auth ==> ValidParts(p) && Parent(p) in l.dirs && p !in l.dirs
  }

  function SourceOf(e: Entry): Rel
    requires EntryPaths(e).Some?
  {
    EntryPaths(e).value.source
  }

  /** Every listed entry names an archived file, and no two entries name the same one. */
  ghost predicate SoundListing<C>(l: Ledger<C>, entries: seq<Entry>) {
    && Readable(entries)
    && (forall i :: 0 <= i < |entries| ==>
          SourceOf(entries[i]) in l.archive && ValidParts(EntryPaths(entries[i]).value.target))
    && (forall i, j :: 0 <= i < j < |entries| ==> SourceOf(entries[i]) != SourceOf(entries[j]))
  }

  /** The manifest is exact, whether or not it can still be read. */
  ghost predicate Exact<C>(l: Ledger<C>) {
    SoundTree(l) && !l.manifest.Corrupt? && SoundListing(l, Listing(l.manifest))
  }

  ghost predicate Sound<C>(l: Ledger<C>) {
    Exact(l) && Entries(l.manifest).Some?
  }

  lemma ArchiveNameFits<C>(l: Ledger<C>, source: Rel)
    requires ValidParts(source)
    ensures var name := ArchiveName(BaseName(source), Present(l.archive));
            PlainName(name) && [name] !in l.archive
  {
    assert BaseName(source) in source;
    ArchiveNamePlain(BaseName(source), Present(l.archive));
    ArchiveNameIsNew(l.archive, BaseName(source));
  }

  /** The step got as far as its move and failed after it. */
  predicate WriteFailed(outcome: Outcome) {
    outcome == Refused(WriteErrorUndone) || outcome == Refused(WriteErrorNotUndone)
  }

  /** Such a failure leaves the entry listed but its file outside the archive. */
  predicate LosesFile(step: Step) {
    if step.Take? then Rewrites(step.fault) && !Takes(step.fault) else Takes(step.fault) && !Rewrites(step.fault)
  }

  /** The entry that a quarantine of the file lists. */
  function EntryFor<C>(l: Ledger<C>, source: Rel, reason: string, movedAt: string): Entry {
    NewEntry(source, ArchiveName(BaseName(source), Present(l.archive)), reason, movedAt)
  }

  /** The quarantine gets as far as writing a manifest larger than its readers accept. */
  predicate Outgrows<C>(l: Ledger<C>, step: Step) {
    && step.Take? && step.source in l.auth && step.source !in l.special && Rewrites(step.fault) && Entries(l.manifest).Some?
    && ManifestBytes(Entries(l.manifest).value + [EntryFor(l, step.source, step.reason, step.movedAt)]) > MAX_MANIFEST_BYTES
  }

  /** The archive and the manifest after a quarantine that moved (or kept) the file and listed it (or not). */
  lemma TakenSound<C>(l: Ledger<C>, source: Rel, m: Move, moved: bool, listed: bool)
    requires SoundTree(l) && Entries(l.manifest).Some? && SoundListing(l, Entries(l.manifest).value) && source in l.auth
    requires EntryPaths(m) == Some(Paths(source, [m.quarantineName])) && [m.quarantineName] !in l.archive
    ensures var entries := Entries(l.manifest).value;
            var l' := if moved then Archived(l, source, m.quarantineName, l.manifest) else l;
            Sound(l'.(manifest := if listed then Listed(entries + [m]) else l.manifest)) <==>
              (listed ==> moved && ManifestBytes(entries + [m]) <= MAX_MANIFEST_BYTES)
  {
    var entries := Entries(l.manifest).value;
    assert (entries + [m])[|entries|] == m;
    assert forall i :: 0 <= i < |entries| ==> (entries + [m])[i] == entries[i];
  }

  lemma TakeKeepsSound<C>(l: Ledger<C>, source: Rel, reason: string, movedAt: string, fault: Fault)
    requires Sound(l)
    ensures var step := Take(source, reason, movedAt, fault);
            var (after, outcome) := AfterQuarantine(l, source, reason, movedAt, fault);
            Sound(after) <==> !(WriteFailed(outcome) && LosesFile(step)) && !Outgrows(l, step)
  {
    hide SoundTree, SoundListing, ArchiveName, ValidParts, ManifestBytes;
    if source in l.auth && source !in l.special && !fault.MoveFails? {
      assert ValidParts(source) by { SoundParts(l, source); }
      ArchiveNameFits(l, source);
      TakenSound(l, source, EntryFor(l, source, reason, movedAt), Takes(fault), Rewrites(fault));
    }
  }

  lemma SoundParts<C>(l: Ledger<C>, p: Rel)
    requires SoundTree(l) && p in l.auth
    ensures ValidParts(p)
  {}

  lemma UnarchivedSound<C>(l: Ledger<C>, entries: seq<Entry>, i: nat)
    requires SoundTree(l) && SoundListing(l, entries) && i < |entries|
    requires TargetFree(l, EntryPaths(entries[i]).value.target)
    ensures SoundTree(Unarchived(l, EntryPaths(entries[i]).value, Listed(Removed(entries, i))))
    ensures SoundListing(Unarchived(l, EntryPaths(entries[i]).value, Listed(Removed(entries, i))), Removed(entries, i))
    ensures !SoundListing(Unarchived(l, EntryPaths(entries[i]).value, l.manifest), entries)
    ensures SoundTree(l.(manifest := Listed(Removed(entries, i)))) && SoundListing(l.(manifest := Listed(Removed(entries, i))), Removed(entries, i))
  {
    var rest := Removed(entries, i);
    assert forall j :: 0 <= j < |rest| ==> rest[j] == entries[if j < i then j else j + 1];
    assert SourceOf(entries[i]) !in Unarchived(l, EntryPaths(entries[i]).value, l.manifest).archive;
  }

  /** A restore that gets to its move works on one entry. */
  lemma RestoreWorksOn<C>(l: Ledger<C>, selector: string, fault: Fault) returns (entries: seq<Entry>, i: nat)
    requires AfterRestore(l, selector, fault).1.Moved? || WriteFailed(AfterRestore(l, selector, fault).1)
    ensures Entries(l.manifest) == Some(entries) && Readable(entries) && i < |entries| && SoleMatch(entries, selector, i)
    ensures AfterRestore(l, selector, fault) == RestoreEntry(l, entries, i, fault)
  {
    hide ManifestBytes, RestoreEntry, Selectors;
    entries := Entries(l.manifest).value;
    i :| SoleMatch(entries, selector, i) && AfterRestore(l, selector, fault) == RestoreEntry(l, entries, i, fault);
  }

  lemma ReturnKeepsSound<C>(l: Ledger<C>, selector: string, fault: Fault)
    requires Sound(l)
    ensures var (after, outcome) := AfterRestore(l, selector, fault);
            Sound(after) <==> !(WriteFailed(outcome) && LosesFile(Return(selector, fault)))
  {
    hide ManifestBytes, SoundTree, SoundListing;
    var outcome := AfterRestore(l, selector, fault).1;
    if outcome.Moved? || WriteFailed(outcome) {
      var entries, i := RestoreWorksOn(l, selector, fault);
      hide AfterRestore;
      UnarchivedSound(l, entries, i);
      ManifestShrinks(entries, i);
    }
  }

  /**
   A sound ledger stays sound after a step if and only if the step does not write more than
   a manifest may hold and does not fail, after its move, with the entry listed and the file
   outside the archive: a quarantine that is undone although the manifest had been replaced,
   or a restore that is not undone although it had not.
   */
  lemma StepKeepsSound<C>(l: Ledger<C>, step: Step)
    requires Sound(l)
    ensures Sound(Do(l, step).0) <==> !(WriteFailed(Do(l, step).1) && LosesFile(step)) && !Outgrows(l, step)
  {
    match step
    case Take(source, reason, movedAt, fault) => TakeKeepsSound(l, source, reason, movedAt, fault);
    case Return(selector, fault) => ReturnKeepsSound(l, selector, fault);
  }

  /** No step fails in this way or writes too much. */
  ghost predicate Orderly<C>(l: Ledger<C>, steps: seq<Step>)
    decreases |steps|
  {
    steps == [] ||
    (!(WriteFailed(Do(l, steps[0]).1) && LosesFile(steps[0])) && !Outgrows(l, steps[0]) && Orderly(Do(l, steps[0]).0, steps[1..]))
  }

  /** Over whole runs the manifest stays exact as long as every step is orderly. */
  lemma {:induction false} RunKeepsSound<C>(l: Ledger<C>, steps: seq<Step>)
    requires Sound(l) && Orderly(l, steps)
    ensures Sound(Run(l, steps))
    decreases |steps|
  {
    if steps != [] {
      StepKeepsSound(l, steps[0]);
      RunKeepsSound(Do(l, steps[0]).0, steps[1..]);
    }
  }

  lemma UnreadableRefuses<C>(l: Ledger<C>, step: Step)
    requires Entries(l.manifest).None?
    ensures Do(l, step).0 == l && Do(l, step).1.Refused?
  {}

  /** A manifest that has outgrown its limit stays so: every later quarantine and restore is refused and changes nothing. */
  lemma {:induction false} OversizedForever<C>(l: Ledger<C>, steps: seq<Step>, next: Step)
    requires l.manifest.Listed? && ManifestBytes(l.manifest.entries) > MAX_MANIFEST_BYTES
    ensures Run(l, steps) == l && Do(Run(l, steps), next).1.Refused?
    decreases |steps|
  {
    hide ManifestBytes, AfterQuarantine, AfterRestore;
    if steps == [] {
      UnreadableRefuses(l, next);
    } else {
      UnreadableRefuses(l, steps[0]);
      OversizedForever(l, steps[1..], next);
    }
  }

  // ------------------------------------------------------------------ round trips

  lemma Associates<T>(a: seq<T>, b: seq<T>, c: seq<T>)
    ensures a + b + c == a + (b + c)
  {}

  lemma EmptyLeft<T>(a: seq<T>)
    ensures [] + a == a
  {}

  lemma EmptyRight<T>(a: seq<T>)
    ensures a + [] == a
  {}

  /** A file in the archive that can go back: the manifest entry that a quarantine writes. */
  predicate IsMove(e: Entry) {
    e.Modern? && !e.absolute && e.account == "" && e.codexxAccount == ""
  }

  type Move = e: Entry | IsMove(e) witness Modern(false, [], "", "", "", "", "", 0)

  function SourcesOf(ms: seq<Move>): set<Rel> {
    set m | m in ms :: m.parts
  }

  /** The archived files of the moves. */
  function Shelf<C>(auth: map<Rel, C>, ms: seq<Move>): map<Rel, C>
    requires SourcesOf(ms) <= auth.Keys
  {
    if ms == [] then map[]
    else
      var last := ms[|ms| - 1];
      assert last in ms && SourcesOf(ms[..|ms| - 1]) <= SourcesOf(ms);
      Shelf(auth, ms[..|ms| - 1])[[last.quarantineName] := auth[last.parts]]
  }

  /** Distinct files of `b` under distinct new archive names. */
  ghost predicate Proper<C>(b: Ledger<C>, ms: seq<Move>) {
    && SourcesOf(ms) <= b.auth.Keys
    && (forall i, j :: 0 <= i < j < |ms| ==> ms[i].parts != ms[j].parts)
    && (forall i, j :: 0 <= i < j < |ms| ==> ms[i].quarantineName != ms[j].quarantineName)
    && (forall i :: 0 <= i < |ms| ==> PlainName(ms[i].quarantineName) && [ms[i].quarantineName] !in b.archive)
  }

  /** Ledger `l` is ledger `b` with exactly the moves `ms` outstanding, listed in this order. */
  ghost predicate Outstanding<C>(b: Ledger<C>, l: Ledger<C>, ms: seq<Move>) {
    && Proper(b, ms)
    && !b.manifest.Corrupt? && !l.manifest.Corrupt?
    && l.dirs == b.dirs && l.special == b.special
    && Listing(l.manifest) == Listing(b.manifest) + ms
    && l.auth == b.auth - SourcesOf(ms)
    && l.archive == b.archive + Shelf(b.auth, ms)
  }

  lemma {:induction false} ShelfKeys<C>(auth: map<Rel, C>, ms: seq<Move>, k: Rel)
    requires SourcesOf(ms) <= auth.Keys
    ensures k in Shelf(auth, ms) <==> exists m :: m in ms && k == [m.quarantineName]
  {
    if ms != [] {
      var front, last := ms[..|ms| - 1], ms[|ms| - 1];
      assert ms == front + [last];
      assert SourcesOf(front) <= SourcesOf(ms);
      ShelfKeys(auth, front, k);
    }
  }

  lemma {:induction false} ShelfAt<C>(auth: map<Rel, C>, ms: seq<Move>, i: nat)
    requires SourcesOf(ms) <= auth.Keys && i < |ms|
    requires forall j, k :: 0 <= j < k < |ms| ==> ms[j].quarantineName != ms[k].quarantineName
    ensures ms[i] in ms && [ms[i].quarantineName] in Shelf(auth, ms) && Shelf(auth, ms)[[ms[i].quarantineName]] == auth[ms[i].parts]
  {
    assert ms[i] in ms;
    if i < |ms| - 1 {
      var front := ms[..|ms| - 1];
      assert SourcesOf(front) <= SourcesOf(ms);
      ShelfAt(auth, front, i);
      assert [front[i].quarantineName][0] != [ms[|ms| - 1].quarantineName][0];
    }
  }

  lemma ShelfExtends<C>(auth: map<Rel, C>, ms: seq<Move>, last: Move)
    requires SourcesOf(ms + [last]) <= auth.Keys
    ensures SourcesOf(ms) <= auth.Keys && last.parts in auth
    ensures Shelf(auth, ms + [last]) == Shelf(auth, ms)[[last.quarantineName] := auth[last.parts]]
  {
    var more := ms + [last];
    assert more[..|ms|] == ms && last in more;
    assert forall m :: m in ms ==> m in more;
    assert last.parts in SourcesOf(more);
  }

  lemma RemovedFront<T>(front: seq<T>, last: T, k: nat)
    requires k <= |front|
    ensures Removed(front + [last], k) == if k < |front| then Removed(front, k) + [last] else front
  {}

  ghost predicate NamesDiffer(ms: seq<Move>) {
    forall i, j :: 0 <= i < j < |ms| ==> ms[i].quarantineName != ms[j].quarantineName
  }

  lemma ShelfWithoutLast<C>(auth: map<Rel, C>, front: seq<Move>, last: Move)
    requires SourcesOf(front + [last]) <= auth.Keys && NamesDiffer(front + [last])
    ensures SourcesOf(front) <= auth.Keys
    ensures Shelf(auth, front) == Shelf(auth, front + [last]) - {[last.quarantineName]}
  {
    ShelfExtends(auth, front, last);
    ShelfKeys(auth, front, [last.quarantineName]);
    var ms := front + [last];
    forall m | m in front ensures [m.quarantineName][0] != last.quarantineName {
      var i :| 0 <= i < |front| && front[i] == m;
      assert ms[i] == m && ms[|front|] == last;
    }
  }

  lemma {:induction false} ShelfRemoved<C>(auth: map<Rel, C>, ms: seq<Move>, k: nat)
    requires SourcesOf(ms) <= auth.Keys && k < |ms| && NamesDiffer(ms)
    ensures SourcesOf(Removed(ms, k)) <= auth.Keys
    ensures Shelf(auth, Removed(ms, k)) == Shelf(auth, ms) - {[ms[k].quarantineName]}
    decreases |ms|
  {
    var front, last := ms[..|ms| - 1], ms[|ms| - 1];
    assert ms == front + [last];
    RemovedFront(front, last, k);
    if k == |front| {
      ShelfWithoutLast(auth, front, last);
    } else {
      ShelfExtends(auth, front, last);
      ShelfRemoved(auth, front, k);
      RemovedStays(auth, front, k, last);
      ShelfExtends(auth, Removed(front, k), last);
      assert [ms[k].quarantineName][0] != [last.quarantineName][0];
      ShelfStep(Shelf(auth, front), [last.quarantineName], auth[last.parts], [ms[k].quarantineName]);
    }
  }

  lemma RemovedStays<C>(auth: map<Rel, C>, front: seq<Move>, k: nat, last: Move)
    requires SourcesOf(front + [last]) <= auth.Keys && k < |front|
    ensures SourcesOf(Removed(front, k) + [last]) <= auth.Keys
  {
    forall m | m in Removed(front, k) + [last] ensures m in front + [last] {}
  }

  lemma ShelfStep<K, V>(m: map<K, V>, k: K, v: V, gone: K)
    requires k != gone
    ensures (m - {gone})[k := v] == m[k := v] - {gone}
  {}

  lemma RemovedSources(ms: seq<Move>, k: nat)
    requires k < |ms| && forall i, j :: 0 <= i < j < |ms| ==> ms[i].parts != ms[j].parts
    ensures SourcesOf(Removed(ms, k)) == SourcesOf(ms) - {ms[k].parts}
  {
    var rest := Removed(ms, k);
    assert forall j :: 0 <= j < |rest| ==> rest[j] == ms[if j < k then j else j + 1];
    forall i | 0 <= i < |ms| && i != k ensures ms[i] in rest {
      assert rest[if i < k then i else i - 1] == ms[i];
    }
  }

  lemma RemovedProper<C>(b: Ledger<C>, ms: seq<Move>, k: nat)
    requires Proper(b, ms) && k < |ms|
    ensures Proper(b, Removed(ms, k))
  {
    var rest := Removed(ms, k);
    assert forall j :: 0 <= j < |rest| ==> rest[j] == ms[if j < k then j else j + 1];
    RemovedSources(ms, k);
  }

  /** With nothing outstanding the two ledgers agree on every file and every entry. */
  lemma NothingOutstanding<C>(b: Ledger<C>, l: Ledger<C>)
    ensures Outstanding(b, l, []) <==>
              && l.auth == b.auth && l.archive == b.archive && l.dirs == b.dirs && l.special == b.special
              && !b.manifest.Corrupt? && !l.manifest.Corrupt? && Listing(l.manifest) == Listing(b.manifest)
  {
    assert SourcesOf([]) == {};
    assert b.auth - {} == b.auth;
    EmptyRight(Listing(b.manifest));
  }

  lemma TakeProper<C>(b: Ledger<C>, ms: seq<Move>, m: Move)
    requires Proper(b, ms) && m.parts in b.auth && m.parts !in SourcesOf(ms)
    requires PlainName(m.quarantineName) && [m.quarantineName] !in b.archive && [m.quarantineName] !in Shelf(b.auth, ms)
    ensures Proper(b, ms + [m]) && SourcesOf(ms + [m]) == SourcesOf(ms) + {m.parts}
  {
    forall i | 0 <= i < |ms| ensures ms[i].quarantineName != m.quarantineName && ms[i].parts != m.parts {
      ShelfKeys(b.auth, ms, [ms[i].quarantineName]);
      assert ms[i] in ms;
    }
    TakeSources(ms, m);
  }

  lemma TakeSources(ms: seq<Move>, m: Move)
    ensures SourcesOf(ms + [m]) == SourcesOf(ms) + {m.parts}
  {
    assert m in ms + [m] && forall x :: x in ms ==> x in ms + [m];
  }

  /** A readable manifest has the entries it lists, and a missing one has none. */
  lemma ReadsListing(m: Manifest)
    requires !m.Corrupt?
    ensures Entries(m).Some? ==> Entries(m) == Some(Listing(m))
    ensures Entries(m).Some? <==> ManifestBytes(Listing(m)) <= MAX_MANIFEST_BYTES
  {}

  lemma QuarantineSucceeds<C>(l: Ledger<C>, source: Rel, reason: string, movedAt: string)
    requires source in l.auth && source !in l.special && Entries(l.manifest).Some?
    ensures var name := ArchiveName(BaseName(source), Present(l.archive));
            AfterQuarantine(l, source, reason, movedAt, Clean) ==
              (Archived(l, source, name, Listed(Listing(l.manifest) + [EntryFor(l, source, reason, movedAt)])), Moved(name))
  {
    hide ManifestBytes, ArchiveName;
    ReadsListing(l.manifest);
  }

  lemma MapTake<K, V>(m: map<K, V>, gone: set<K>, k: K)
    ensures (m - gone) - {k} == m - (gone + {k})
  {}

  lemma MapPut<K, V>(m: map<K, V>, n: map<K, V>, k: K, v: V)
    ensures (m + n)[k := v] == m + n[k := v]
  {}

  lemma ArchivedOutstanding<C>(b: Ledger<C>, l: Ledger<C>, ms: seq<Move>, m: Move)
    requires Outstanding(b, l, ms) && m.parts in l.auth
    requires PlainName(m.quarantineName) && [m.quarantineName] !in l.archive
    ensures Outstanding(b, Archived(l, m.parts, m.quarantineName, Listed(Listing(l.manifest) + [m])), ms + [m])
  {
    TakeProper(b, ms, m);
    ShelfExtends(b.auth, ms, m);
    MapTake(b.auth, SourcesOf(ms), m.parts);
    MapPut(b.archive, Shelf(b.auth, ms), [m.quarantineName], b.auth[m.parts]);
    Associates(Listing(b.manifest), ms, [m]);
  }

  /** Quarantining one more file under a readable manifest adds exactly that move at the end. */
  lemma TakeOutstanding<C>(b: Ledger<C>, l: Ledger<C>, ms: seq<Move>, source: Rel, reason: string, movedAt: string)
    returns (after: Ledger<C>, m: Move)
    requires Outstanding(b, l, ms) && source in l.auth && source !in l.special && ValidParts(source) && Entries(l.manifest).Some?
    ensures m == EntryFor(l, source, reason, movedAt)
    ensures AfterQuarantine(l, source, reason, movedAt, Clean) == (after, Moved(m.quarantineName))
    ensures Outstanding(b, after, ms + [m]) && after.auth == l.auth - {source}
    ensures after.archive.Keys == l.archive.Keys + {[m.quarantineName]}
  {
    hide ManifestBytes, ArchiveName, Outstanding;
    ArchiveNameFits(l, source);
    QuarantineSucceeds(l, source, reason, movedAt);
    m := EntryFor(l, source, reason, movedAt);
    ArchivedOutstanding(b, l, ms, m);
    after := Archived(l, source, m.quarantineName, Listed(Listing(l.manifest) + [m]));
  }

  /** No entry of `entries` answers to `name`. */
  ghost predicate Unclaimed(entries: seq<Entry>, name: string) {
    forall e :: e in entries && EntryPaths(e).Some? ==> name !in Selectors(e)
  }

  lemma RemovedPart<T>(older: seq<T>, more: seq<T>, k: nat)
    requires k < |more|
    ensures Removed(older + more, |older| + k) == older + Removed(more, k)
  {}

  lemma EntrySelected(m: Move, name: string)
    requires ValidParts(m.parts) && PlainName(m.quarantineName)
    ensures EntryPaths(m) == Some(Paths(m.parts, [m.quarantineName]))
    ensures name in Selectors(m) <==> name == m.quarantineName
  {}

  lemma ReturnSelects(older: seq<Entry>, ms: seq<Move>, k: nat, entries: seq<Entry>)
    requires entries == older + ms
    requires Readable(older) && k < |ms| && Unclaimed(older, ms[k].quarantineName)
    requires forall i :: 0 <= i < |ms| ==> ValidParts(ms[i].parts) && PlainName(ms[i].quarantineName)
    requires forall i, j :: 0 <= i < j < |ms| ==> ms[i].quarantineName != ms[j].quarantineName
    ensures Readable(entries)
    ensures SoleMatch(entries, ms[k].quarantineName, |older| + k)
  {
    forall i | 0 <= i < |entries|
      ensures EntryPaths(entries[i]).Some? && (ms[k].quarantineName in Selectors(entries[i]) <==> i == |older| + k)
    {
      if i < |older| {
        assert entries[i] == older[i] && older[i] in older;
      } else {
        assert entries[i] == ms[i - |older|];
        EntrySelected(ms[i - |older|], ms[k].quarantineName);
      }
    }
  }

  lemma ProperParts<C>(b: Ledger<C>, ms: seq<Move>)
    requires Proper(b, ms) && SoundTree(b)
    ensures forall i :: 0 <= i < |ms| ==> ValidParts(ms[i].parts) && Parent(ms[i].parts) in b.dirs
                                          && ms[i].parts !in b.dirs && ms[i].parts in SourcesOf(ms)
  {
    forall i | 0 <= i < |ms| ensures ms[i].parts in SourcesOf(ms) { assert ms[i] in ms; }
  }

  lemma MapReturn<K, V>(m: map<K, V>, gone: set<K>, k: K)
    requires k in m && k in gone
    ensures (m - gone)[k := m[k]] == m - (gone - {k})
  {}

  lemma RestoreSucceeds<C>(l: Ledger<C>, selector: string, entries: seq<Entry>, k: nat, paths: Paths)
    requires Entries(l.manifest) == Some(entries) && Readable(entries) && k < |entries|
    requires SoleMatch(entries, selector, k) && EntryPaths(entries[k]) == Some(paths)
    requires paths.source in l.archive && TargetFree(l, paths.target)
    ensures AfterRestore(l, selector, Clean) ==
              (Unarchived(l, paths, Listed(Removed(entries, k))), Moved(BaseName(paths.source)))
  {
    forall i: nat | SoleMatch(entries, selector, i) ensures i == k {}
  }

  lemma ReturnFiles<C>(b: Ledger<C>, ms: seq<Move>, k: nat)
    requires Proper(b, ms) && k < |ms| && ms[k].parts in SourcesOf(ms)
    requires [ms[k].quarantineName] in Shelf(b.auth, ms)
    ensures Proper(b, Removed(ms, k))
    ensures (b.auth - SourcesOf(ms))[ms[k].parts := b.auth[ms[k].parts]] == b.auth - SourcesOf(Removed(ms, k))
    ensures (b.archive + Shelf(b.auth, ms)) - {[ms[k].quarantineName]} == b.archive + Shelf(b.auth, Removed(ms, k))
  {
    RemovedProper(b, ms, k);
    RemovedSources(ms, k);
    ShelfRemoved(b.auth, ms, k);
    MapReturn(b.auth, SourcesOf(ms), ms[k].parts);
    MapDrop(b.archive, Shelf(b.auth, ms), [ms[k].quarantineName]);
  }

  lemma MapDrop<K, V>(m: map<K, V>, n: map<K, V>, k: K)
    requires k !in m
    ensures (m + n) - {k} == m + (n - {k})
  {}

  lemma UnarchivedOutstanding<C>(b: Ledger<C>, l: Ledger<C>, ms: seq<Move>, k: nat, paths: Paths)
    requires Outstanding(b, l, ms) && k < |ms| && paths == Paths(ms[k].parts, [ms[k].quarantineName])
    requires ms[k].parts in SourcesOf(ms) && paths.source in Shelf(b.auth, ms)
    requires paths.source in l.archive && l.archive[paths.source] == b.auth[ms[k].parts]
    ensures Outstanding(b, Unarchived(l, paths, Listed(Listing(b.manifest) + Removed(ms, k))), Removed(ms, k))
  {
    ReturnFiles(b, ms, k);
  }

  lemma ReturnFinds<C>(b: Ledger<C>, l: Ledger<C>, ms: seq<Move>, k: nat)
    requires Outstanding(b, l, ms) && k < |ms| && SoundTree(b)
    ensures ms[k].parts in SourcesOf(ms) && [ms[k].quarantineName] in Shelf(b.auth, ms)
    ensures [ms[k].quarantineName] in l.archive && l.archive[[ms[k].quarantineName]] == b.auth[ms[k].parts]
    ensures TargetFree(l, ms[k].parts)
    ensures ValidParts(ms[k].parts) && PlainName(ms[k].quarantineName)
  {
    ProperParts(b, ms);
    ShelfAt(b.auth, ms, k);
  }

  lemma ReturnNamed<C>(b: Ledger<C>, ms: seq<Move>, k: nat, entries: seq<Entry>)
    requires Proper(b, ms) && k < |ms| && SoundTree(b)
    requires Readable(Listing(b.manifest)) && Unclaimed(Listing(b.manifest), ms[k].quarantineName)
    requires entries == Listing(b.manifest) + ms
    ensures Readable(entries) && |entries| == |Listing(b.manifest)| + |ms|
    ensures SoleMatch(entries, ms[k].quarantineName, |entries| - |ms| + k)
    ensures EntryPaths(entries[|entries| - |ms| + k]) == Some(Paths(ms[k].parts, [ms[k].quarantineName]))
  {
    var older := Listing(b.manifest);
    ProperParts(b, ms);
    ReturnSelects(older, ms, k, entries);
    EntrySelected(ms[k], ms[k].quarantineName);
    assert entries[|older| + k] == ms[k];
  }

  lemma ReturnUnlists(older: seq<Entry>, ms: seq<Move>, k: nat)
    requires k < |ms|
    ensures Removed(older + ms, |older + ms| - |ms| + k) == older + Removed(ms, k)
  {
    RemovedPart(older, ms, k);
  }

  /**
   Restoring any outstanding move by its archive name succeeds if and only if the manifest
   can be read, and leaves exactly the others.
   */
  lemma ReturnOutstanding<C>(b: Ledger<C>, l: Ledger<C>, ms: seq<Move>, k: nat) returns (after: Ledger<C>)
    requires Outstanding(b, l, ms) && k < |ms| && SoundTree(b) && Readable(Listing(b.manifest))
    requires Unclaimed(Listing(b.manifest), ms[k].quarantineName)
    ensures AfterRestore(l, ms[k].quarantineName, Clean).1.Moved? <==> ManifestBytes(Listing(l.manifest)) <= MAX_MANIFEST_BYTES
    ensures AfterRestore(l, ms[k].quarantineName, Clean).1.Moved? ==>
              && AfterRestore(l, ms[k].quarantineName, Clean) == (after, Moved(ms[k].quarantineName))
              && Outstanding(b, after, Removed(ms, k)) && ManifestBytes(Listing(after.manifest)) <= MAX_MANIFEST_BYTES
  {
    hide ManifestBytes, Outstanding, AfterRestore;
    after := l;
    OutstandingFacts(b, l, ms);
    if Entries(l.manifest).None? {
      UnreadableRefuses(l, Return(ms[k].quarantineName, Clean));
      return;
    }
    var entries := Listing(l.manifest);
    var paths := Paths(ms[k].parts, [ms[k].quarantineName]);
    ReturnFinds(b, l, ms, k);
    ReturnNamed(b, ms, k, entries);
    ReturnUnlists(Listing(b.manifest), ms, k);
    ManifestShrinks(entries, |entries| - |ms| + k);
    RestoreSucceeds(l, ms[k].quarantineName, entries, |entries| - |ms| + k, paths);
    UnarchivedOutstanding(b, l, ms, k, paths);
    after := Unarchived(l, paths, Listed(Listing(b.manifest) + Removed(ms, k)));
  }

  lemma OutstandingFacts<C>(b: Ledger<C>, l: Ledger<C>, ms: seq<Move>)
    requires Outstanding(b, l, ms)
    ensures Proper(b, ms) && Listing(l.manifest) == Listing(b.manifest) + ms
    ensures Entries(l.manifest).Some? ==> Entries(l.manifest) == Some(Listing(l.manifest))
    ensures Entries(l.manifest).Some? <==> ManifestBytes(Listing(l.manifest)) <= MAX_MANIFEST_BYTES
    ensures forall p :: p in l.auth ==> p in b.auth
  {
    hide ManifestBytes;
    ReadsListing(l.manifest);
  }

  /** A file to be quarantined, and why. */
  datatype Request = Request(source: Rel, reason: string)

  /** The entries that quarantining the files one after another lists, whatever the size of the manifest. */
  function Planned(present: set<string>, requests: seq<Request>, movedAt: string): (ms: seq<Move>)
    ensures |ms| == |requests|
    decreases |requests|
  {
    if requests == [] then []
    else
      var name := ArchiveName(BaseName(requests[0].source), present);
      [NewEntry(requests[0].source, name, requests[0].reason, movedAt)] + Planned(present + {name}, requests[1..], movedAt)
  }

  /** Quarantines the files one after another; false as soon as one is refused. */
  function TakeAll<C>(l: Ledger<C>, requests: seq<Request>, movedAt: string): (Ledger<C>, bool)
    decreases |requests|
  {
    if requests == [] then (l, true)
    else
      var (after, outcome) := AfterQuarantine(l, requests[0].source, requests[0].reason, movedAt, Clean);
      if outcome.Moved? then TakeAll(after, requests[1..], movedAt) else (after, false)
  }

  /** Each of the new entries finds a manifest that can still be read; the last one may make it too large. */
  predicate Room(older: seq<Entry>, ms: seq<Move>) {
    ms == [] || ManifestBytes(older + ms[..|ms| - 1]) <= MAX_MANIFEST_BYTES
  }

  lemma RoomFirst(older: seq<Entry>, ms: seq<Move>)
    requires ms != []
    ensures Room(older, ms) <==> ManifestBytes(older) <= MAX_MANIFEST_BYTES && Room(older + [ms[0]], ms[1..])
  {
    hide ManifestBytes;
    var front := ms[..|ms| - 1];
    ManifestGrows(older, front);
    if |ms| == 1 {
      assert older + front == older;
    } else {
      assert front == [ms[0]] + ms[1..][..|ms| - 2];
      Associates(older, [ms[0]], ms[1..][..|ms| - 2]);
    }
  }

  /** Restores by selector one after another; None as soon as one is refused. */
  ghost function ReturnAll<C>(l: Ledger<C>, selectors: seq<string>): Option<Ledger<C>>
    decreases |selectors|
  {
    if selectors == [] then Some(l)
    else
      var (after, outcome) := AfterRestore(l, selectors[0], Clean);
      if outcome.Moved? then ReturnAll(after, selectors[1..]) else None
  }

  function NamesOf(ms: seq<Move>): (ns: seq<string>)
    ensures |ns| == |ms| && forall i :: 0 <= i < |ms| ==> ns[i] == ms[i].quarantineName
  {
    seq(|ms|, i requires 0 <= i < |ms| => ms[i].quarantineName)
  }

  ghost predicate Distinct<T(!new)>(s: seq<T>) {
    forall i, j :: 0 <= i < j < |s| ==> s[i] != s[j]
  }

  lemma PresentGrows<C>(archive: map<Rel, C>, after: map<Rel, C>, name: string)
    requires after.Keys == archive.Keys + {[name]}
    ensures Present(after) == Present(archive) + {name}
  {
    assert [name] in after.Keys && [name] != [] && [name][0] == name;
    forall k | k in archive.Keys ensures k in after.Keys {}
  }

  /** The files exist and are different. */
  ghost predicate Requestable<C>(l: Ledger<C>, requests: seq<Request>) {
    && (forall i :: 0 <= i < |requests| ==> requests[i].source in l.auth)
    && (forall i, j :: 0 <= i < j < |requests| ==> requests[i].source != requests[j].source)
  }

  /** All of them are regular. */
  ghost predicate AllRegular<C>(l: Ledger<C>, requests: seq<Request>) {
    forall i :: 0 <= i < |requests| ==> requests[i].source !in l.special
  }

  lemma RequestableRest<C>(l: Ledger<C>, requests: seq<Request>, after: Ledger<C>)
    requires Requestable(l, requests) && requests != []
    requires after.auth == l.auth - {requests[0].source} && after.special == l.special
    ensures Requestable(after, requests[1..])
    ensures AllRegular(l, requests) <==> requests[0].source !in l.special && AllRegular(after, requests[1..])
  {
    assert forall i :: 0 < i < |requests| ==> requests[i] == requests[1..][i - 1];
  }

  /**
   Quarantining different files succeeds if and only if they are regular and there is room
   for their entries; in any case exactly the first `count` entries that were planned are
   outstanding, and a refusal of regular files leaves a manifest that can no longer be read.
   */
  lemma {:induction false} TakeAllOutstanding<C>(b: Ledger<C>, l: Ledger<C>, ms: seq<Move>, requests: seq<Request>, movedAt: string)
    returns (count: nat)
    requires Outstanding(b, l, ms) && SoundTree(b) && Requestable(l, requests)
    ensures var (after, ok) := TakeAll(l, requests, movedAt);
            && count <= |requests| && Outstanding(b, after, ms + Planned(Present(l.archive), requests, movedAt)[..count])
            && (ok <==> count == |requests|) && (forall i :: 0 <= i < count ==> requests[i].source !in l.special)
            && (ok <==> AllRegular(l, requests) && Room(Listing(l.manifest), Planned(Present(l.archive), requests, movedAt)))
            && (!ok && AllRegular(l, requests) ==> ManifestBytes(Listing(after.manifest)) > MAX_MANIFEST_BYTES)
    decreases |requests|
  {
    hide ManifestBytes, Outstanding, AfterQuarantine, Room, Requestable, AllRegular, SoundTree, TakeAll, Planned;
    var planned := Planned(Present(l.archive), requests, movedAt);
    OutstandingFacts(b, l, ms);
    EmptyRight(ms);
    count := 0;
    assert planned[..0] == [];
    if requests == [] {
      NothingToTake(l, movedAt);
    } else if Entries(l.manifest).None? || requests[0].source in l.special {
      RoomFirst(Listing(l.manifest), planned);
      TakeAllRefused(l, requests, movedAt);
      FirstIrregular(l, requests);
    } else {
      var mid, m := TakeNext(b, l, ms, requests, movedAt);
      var rest := TakeAllOutstanding(b, mid, ms + [m], requests[1..], movedAt);
      count := 1 + rest;
      assert planned[..count] == [m] + planned[1..][..rest];
      Associates(ms, [m], planned[1..][..rest]);
      assert forall i :: 0 < i < count ==> requests[i] == requests[1..][i - 1];
    }
  }

  lemma NothingToTake<C>(l: Ledger<C>, movedAt: string)
    ensures TakeAll(l, [], movedAt) == (l, true) && Planned(Present(l.archive), [], movedAt) == [] && Room(Listing(l.manifest), [])
    ensures AllRegular(l, [])
  {}

  lemma FirstIrregular<C>(l: Ledger<C>, requests: seq<Request>)
    requires requests != []
    ensures requests[0].source in l.special ==> !AllRegular(l, requests)
  {}

  /** The first of several quarantines. */
  lemma TakeNext<C>(b: Ledger<C>, l: Ledger<C>, ms: seq<Move>, requests: seq<Request>, movedAt: string)
    returns (mid: Ledger<C>, m: Move)
    requires Outstanding(b, l, ms) && SoundTree(b) && Requestable(l, requests) && requests != [] && Entries(l.manifest).Some?
    requires requests[0].source !in l.special
    ensures Outstanding(b, mid, ms + [m]) && Requestable(mid, requests[1..])
    ensures AllRegular(l, requests) <==> AllRegular(mid, requests[1..])
    ensures mid.special == l.special
    ensures TakeAll(l, requests, movedAt) == TakeAll(mid, requests[1..], movedAt)
    ensures var planned, rest := Planned(Present(l.archive), requests, movedAt), Planned(Present(mid.archive), requests[1..], movedAt);
            && planned == [m] + rest && planned[1..] == rest
            && (Room(Listing(l.manifest), planned) <==> Room(Listing(mid.manifest), rest))
  {
    hide ManifestBytes, Outstanding, AfterQuarantine, Room, Requestable, AllRegular, SoundTree, TakeAll, Planned, EntryFor, Readable, Proper;
    var r := requests[0];
    OutstandingFacts(b, l, ms);
    FirstFits(b, l, requests);
    mid, m := TakeOutstanding(b, l, ms, r.source, r.reason, movedAt);
    OutstandingFacts(b, mid, ms + [m]);
    Associates(Listing(b.manifest), ms, [m]);
    PresentGrows(l.archive, mid.archive, m.quarantineName);
    SameSpecial(b, l, ms, mid, ms + [m]);
    RequestableRest(l, requests, mid);
    PlannedFirst(l, requests, movedAt, m);
    RoomFirst(Listing(l.manifest), Planned(Present(l.archive), requests, movedAt));
    TakeAllFirst(l, requests, movedAt, mid, m.quarantineName);
  }

  lemma {:induction false} PlannedSources(present: set<string>, requests: seq<Request>, movedAt: string)
    ensures forall i :: 0 <= i < |requests| ==> Planned(present, requests, movedAt)[i].parts == requests[i].source
    decreases |requests|
  {
    if requests != [] {
      var name := ArchiveName(BaseName(requests[0].source), present);
      PlannedSources(present + {name}, requests[1..], movedAt);
      assert forall i :: 0 < i < |requests| ==> requests[i] == requests[1..][i - 1];
    }
  }

  lemma PlannedFirst<C>(l: Ledger<C>, requests: seq<Request>, movedAt: string, m: Move)
    requires requests != [] && m == EntryFor(l, requests[0].source, requests[0].reason, movedAt)
    ensures Planned(Present(l.archive), requests, movedAt) ==
              [m] + Planned(Present(l.archive) + {m.quarantineName}, requests[1..], movedAt)
  {}

  lemma TakeAllFirst<C>(l: Ledger<C>, requests: seq<Request>, movedAt: string, mid: Ledger<C>, name: string)
    requires requests != [] && AfterQuarantine(l, requests[0].source, requests[0].reason, movedAt, Clean) == (mid, Moved(name))
    ensures TakeAll(l, requests, movedAt) == TakeAll(mid, requests[1..], movedAt)
  {
    hide AfterQuarantine;
  }

  lemma TakeAllRefused<C>(l: Ledger<C>, requests: seq<Request>, movedAt: string)
    requires requests != [] && (Entries(l.manifest).None? || requests[0].source in l.special)
    ensures TakeAll(l, requests, movedAt) == (l, false)
  {}

  lemma SameSpecial<C>(b: Ledger<C>, l: Ledger<C>, ms: seq<Move>, mid: Ledger<C>, more: seq<Move>)
    requires Outstanding(b, l, ms) && Outstanding(b, mid, more)
    ensures mid.special == l.special
  {}

  lemma FirstFits<C>(b: Ledger<C>, l: Ledger<C>, requests: seq<Request>)
    requires Requestable(l, requests) && requests != [] && SoundTree(b) && forall p :: p in l.auth ==> p in b.auth
    ensures requests[0].source in l.auth && ValidParts(requests[0].source)
  {}

  /** The entry of a file that is in the archive under its own name. */
  predicate Shelved<C>(b: Ledger<C>, l: Ledger<C>, m: Move) {
    && EntryPaths(m) == Some(Paths(m.parts, [m.quarantineName])) && ValidParts(m.parts)
    && [m.quarantineName] in l.archive && [m.quarantineName] !in b.archive
  }

  lemma AppendListing<C>(b: Ledger<C>, l: Ledger<C>, older: seq<Entry>, ms: seq<Move>)
    requires SoundListing(b, older) && b.archive.Keys <= l.archive.Keys
    requires NamesDiffer(ms) && forall i :: 0 <= i < |ms| ==> Shelved(b, l, ms[i])
    ensures SoundListing(l, older + ms)
  {
    hide EntryPaths, ValidParts;
    var entries := older + ms;
    forall e | e in entries ensures EntryPaths(e).Some? {}
    forall i | 0 <= i < |entries|
      ensures SourceOf(entries[i]) in l.archive && ValidParts(EntryPaths(entries[i]).value.target)
      ensures i < |older| ==> entries[i] == older[i] && SourceOf(entries[i]) in b.archive
      ensures i >= |older| ==> entries[i] == ms[i - |older|] && SourceOf(entries[i]) == [ms[i - |older|].quarantineName]
    {}
    forall i, j | 0 <= i < j < |entries| ensures SourceOf(entries[i]) != SourceOf(entries[j]) {
      if |older| <= i {
        assert [ms[i - |older|].quarantineName][0] != [ms[j - |older|].quarantineName][0];
      }
    }
  }

  /** Outstanding moves keep an exact manifest exact. */
  lemma OutstandingExact<C>(b: Ledger<C>, l: Ledger<C>, ms: seq<Move>)
    requires Exact(b) && Outstanding(b, l, ms)
    ensures Exact(l)
  {
    hide SoundListing, EntryPaths;
    ProperParts(b, ms);
    forall i | 0 <= i < |ms| ensures Shelved(b, l, ms[i]) {
      ShelfAt(b.auth, ms, i);
      EntrySelected(ms[i], "");
    }
    AppendListing(b, l, Listing(b.manifest), ms);
  }

  lemma RemovedNames(ms: seq<Move>, k: nat)
    requires k < |ms|
    ensures multiset(NamesOf(Removed(ms, k))) == multiset(NamesOf(ms)) - multiset{ms[k].quarantineName}
  {
    var ns := NamesOf(ms);
    assert NamesOf(Removed(ms, k)) == ns[..k] + ns[k + 1..];
    assert ns == ns[..k] + [ns[k]] + ns[k + 1..];
  }

  lemma NextReturned(ms: seq<Move>, order: seq<string>) returns (k: nat)
    requires multiset(order) == multiset(NamesOf(ms)) && order != []
    ensures k < |ms| && ms[k].quarantineName == order[0]
    ensures order[0] in order && forall n :: n in order[1..] ==> n in order
    ensures multiset(order[1..]) == multiset(NamesOf(Removed(ms, k)))
  {
    assert order[0] in multiset(NamesOf(ms));
    k :| 0 <= k < |ms| && NamesOf(ms)[k] == order[0];
    RemovedNames(ms, k);
    assert order == [order[0]] + order[1..];
  }

  lemma {:induction false} ReturnAllOutstanding<C>(b: Ledger<C>, l: Ledger<C>, ms: seq<Move>, order: seq<string>)
    returns (back: Ledger<C>)
    requires Outstanding(b, l, ms) && SoundTree(b) && Readable(Listing(b.manifest))
    requires multiset(order) == multiset(NamesOf(ms))
    requires forall n :: n in order ==> Unclaimed(Listing(b.manifest), n)
    requires ManifestBytes(Listing(l.manifest)) <= MAX_MANIFEST_BYTES
    ensures ReturnAll(l, order) == Some(back) && Outstanding(b, back, [])
    decreases |order|
  {
    hide ManifestBytes, Outstanding, AfterRestore;
    assert |multiset(order)| == |order| && |multiset(NamesOf(ms))| == |ms|;
    if order == [] {
      assert ms == [];
      return l;
    }
    var k := NextReturned(ms, order);
    var next := ReturnOutstanding(b, l, ms, k);
    back := ReturnAllOutstanding(b, next, Removed(ms, k), order[1..]);
  }

  /**
   Quarantining any different files and restoring them by archive name in any order gives
   back the same auth tree, archive and manifest entries if and only if the manifest with
   all of the new entries is not too large to be read, as long as no older entry answers to
   one of the archive names.  Beyond that size nothing can be restored.
   */
  lemma RoundTripInAnyOrder<C>(l: Ledger<C>, requests: seq<Request>, movedAt: string, order: seq<string>)
    requires Sound(l) && Requestable(l, requests) && AllRegular(l, requests)
    requires multiset(order) == multiset(NamesOf(Planned(Present(l.archive), requests, movedAt)))
    requires forall n :: n in order ==> Unclaimed(Listing(l.manifest), n)
    ensures var fits := ManifestBytes(Listing(l.manifest) + Planned(Present(l.archive), requests, movedAt)) <= MAX_MANIFEST_BYTES;
            var (after, taken) := TakeAll(l, requests, movedAt);
            var back := ReturnAll(after, order);
            && |order| == |requests| && (back.Some? <==> fits)
            && (fits ==> taken && back.value.auth == l.auth && back.value.archive == l.archive && back.value.dirs == l.dirs
                         && Entries(back.value.manifest) == Entries(l.manifest))
  {
    hide ManifestBytes, AfterRestore, AfterQuarantine, Requestable, AllRegular, TakeAll, ReturnAll, Planned, Unclaimed, Sound;
    var planned := Planned(Present(l.archive), requests, movedAt);
    SoundListed(l);
    assert |multiset(order)| == |order| && |multiset(NamesOf(planned))| == |planned|;
    var count := TakenUpTo(l, requests, movedAt);
    var after := TakeAll(l, requests, movedAt).0;
    if ManifestBytes(Listing(l.manifest) + planned) <= MAX_MANIFEST_BYTES {
      var back := ReturnedAll(l, after, planned, order);
    } else {
      assert order != [] by { EmptyRight(Listing(l.manifest)); }
      UnreadableRefuses(after, Return(order[0], Clean));
      NoneReturned(after, order);
    }
  }

  /** The state after the quarantines. */
  lemma TakenUpTo<C>(l: Ledger<C>, requests: seq<Request>, movedAt: string) returns (count: nat)
    requires Sound(l) && Requestable(l, requests) && AllRegular(l, requests)
    ensures var planned := Planned(Present(l.archive), requests, movedAt);
            var (after, ok) := TakeAll(l, requests, movedAt);
            var fits := ManifestBytes(Listing(l.manifest) + planned) <= MAX_MANIFEST_BYTES;
            && count <= |planned| && Outstanding(l, after, planned[..count])
            && (fits ==> ok && Outstanding(l, after, planned) && ManifestBytes(Listing(after.manifest)) <= MAX_MANIFEST_BYTES)
            && (!fits ==> Entries(after.manifest).None?)
  {
    hide ManifestBytes, Outstanding, AfterQuarantine, Room, Requestable, AllRegular, TakeAll, Planned, Proper, SoundTree, Sound;
    var planned := Planned(Present(l.archive), requests, movedAt);
    var after := TakeAll(l, requests, movedAt).0;
    SoundListed(l);
    NothingOutstanding(l, l);
    count := TakeAllOutstanding(l, l, [], requests, movedAt);
    EmptyLeft(planned[..count]);
    OutstandingFacts(l, after, planned[..count]);
    assert planned[..|planned|] == planned;
    RoomWithin(Listing(l.manifest), planned);
  }

  lemma ReturnedAll<C>(l: Ledger<C>, after: Ledger<C>, ms: seq<Move>, order: seq<string>) returns (back: Ledger<C>)
    requires Sound(l) && Outstanding(l, after, ms) && multiset(order) == multiset(NamesOf(ms))
    requires forall n :: n in order ==> Unclaimed(Listing(l.manifest), n)
    requires ManifestBytes(Listing(after.manifest)) <= MAX_MANIFEST_BYTES
    ensures ReturnAll(after, order) == Some(back)
    ensures back.auth == l.auth && back.archive == l.archive && back.dirs == l.dirs && Entries(back.manifest) == Entries(l.manifest)
  {
    hide ManifestBytes, Outstanding, AfterRestore, ReturnAll, Unclaimed, SoundTree, Sound;
    SoundListed(l);
    back := ReturnAllOutstanding(l, after, ms, order);
    NothingOutstanding(l, back);
    ReadsListing(l.manifest);
    ReadsListing(back.manifest);
  }

  lemma NoneReturned<C>(l: Ledger<C>, order: seq<string>)
    requires order != [] && AfterRestore(l, order[0], Clean).1.Refused?
    ensures ReturnAll(l, order).None?
  {}

  lemma SoundListed<C>(l: Ledger<C>)
    requires Sound(l)
    ensures SoundTree(l) && !l.manifest.Corrupt? && Readable(Listing(l.manifest)) && ManifestBytes(Listing(l.manifest)) <= MAX_MANIFEST_BYTES
  {
    hide ManifestBytes;
    ReadsListing(l.manifest);
  }

  /** Room for some entries and then for more of them is room for all. */
  lemma RoomSplit(older: seq<Entry>, a: seq<Move>, b: seq<Move>)
    ensures Room(older, a + b) ==> Room(older, a)
    ensures b != [] ==> (Room(older, a + b) <==> Room(older + a, b))
  {
    hide ManifestBytes;
    if b == [] {
      EmptyRight(a);
    } else {
      var front := b[..|b| - 1];
      assert (a + b)[..|a + b| - 1] == a + front;
      Associates(older, a, front);
      ManifestGrows(older + a, front);
      RoomWithin(older, a);
    }
  }

  /** A manifest that is too large has room for nothing. */
  lemma NoRoom(older: seq<Entry>, ms: seq<Move>)
    requires ManifestBytes(older) > MAX_MANIFEST_BYTES && ms != []
    ensures !Room(older, ms)
  {
    hide ManifestBytes;
    ManifestGrows(older, ms[..|ms| - 1]);
  }

  lemma RoomWithin(older: seq<Entry>, ms: seq<Move>)
    ensures ManifestBytes(older + ms) <= MAX_MANIFEST_BYTES ==> Room(older, ms)
  {
    hide ManifestBytes;
    if ms != [] {
      var front, last := ms[..|ms| - 1], ms[|ms| - 1];
      assert older + ms == older + front + [last];
      ManifestGrows(older + front, [last]);
    }
  }

  lemma ClaimedRefused<C>(l: Ledger<C>, entries: seq<Entry>, name: string, i: nat, j: nat)
    requires Entries(l.manifest) == Some(entries) && Readable(entries) && i < j < |entries|
    requires name in Selectors(entries[i]) && name in Selectors(entries[j])
    ensures AfterRestore(l, name, Clean) == (l, Refused(NotExactlyOneEntry))
  {
    forall k: nat ensures !SoleMatch(entries, name, k) {}
  }

  /**
   The conditions are exact: one file can be restored by its archive name if and only if no
   older entry answers to it and its own entry leaves the manifest readable.
   */
  lemma RestoreAfterQuarantineIff<C>(l: Ledger<C>, source: Rel, reason: string, movedAt: string)
    returns (after: Ledger<C>, name: string)
    requires Sound(l) && source in l.auth && source !in l.special
    ensures AfterQuarantine(l, source, reason, movedAt, Clean) == (after, Moved(name))
    ensures AfterRestore(after, name, Clean).1.Moved? <==>
              && Unclaimed(Listing(l.manifest), name)
              && ManifestBytes(Listing(l.manifest) + [EntryFor(l, source, reason, movedAt)]) <= MAX_MANIFEST_BYTES
  {
    hide ManifestBytes, Outstanding, AfterRestore, AfterQuarantine, ArchiveName, Exact, SoundTree, Proper, SoleMatch, Readable, Unclaimed;
    SoundListed(l);
    ReadsListing(l.manifest);
    SoundExact(l);
    NothingOutstanding(l, l);
    assert ValidParts(source) by { SoundParts(l, source); }
    var m;
    after, m := TakeOutstanding(l, l, [], source, reason, movedAt);
    name := m.quarantineName;
    EmptyLeft([m]);
    OutstandingFacts(l, after, [m]);
    if Unclaimed(Listing(l.manifest), name) {
      var _ := ReturnOutstanding(l, after, [m], 0);
    } else if Entries(after.manifest).Some? {
      assert PlainName(name) by { ArchiveNameFits(l, source); }
      ClaimedOnce(after, Listing(l.manifest), m);
    } else {
      UnreadableRefuses(after, Return(name, Clean));
    }
  }

  lemma SoundExact<C>(l: Ledger<C>)
    requires Sound(l)
    ensures Exact(l) && !l.manifest.Corrupt?
  {}

  /** A new entry whose name an older one claims cannot be restored by it. */
  lemma ClaimedOnce<C>(l: Ledger<C>, older: seq<Entry>, m: Move)
    requires Entries(l.manifest) == Some(older + [m]) && Readable(older) && !Unclaimed(older, m.quarantineName)
    requires ValidParts(m.parts) && PlainName(m.quarantineName)
    ensures AfterRestore(l, m.quarantineName, Clean).1.Refused?
  {
    hide AfterRestore, EntryPaths, Selectors, ValidParts, PlainName;
    var e :| e in older && EntryPaths(e).Some? && m.quarantineName in Selectors(e);
    var i :| 0 <= i < |older| && older[i] == e;
    var entries := older + [m];
    EntrySelected(m, m.quarantineName);
    assert entries[i] == e && entries[|older|] == m;
    ClaimedRefused(l, entries, m.quarantineName, i, |older|);
  }
}
