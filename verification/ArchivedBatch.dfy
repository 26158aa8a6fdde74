/**
 A ledger in which files of one batch of names may have been archived, with any of the
 faults that can cut a quarantine or a restore in two.  Both crash-recoverable
 transactions rest on it.
 */
module ArchivedBatch {
  import opened Wrappers
  import opened ArchiveNames
  import opened QuarantineLedger
  import opened LedgerLaws

  /** The entry says that its file was one of the named files at the top of the auth tree. */
  predicate FromNames(e: Entry, names: seq<string>) {
    e.Modern? && !e.absolute && |e.parts| == 1 && e.parts[0] in names
  }

  /** The archive names of the entries that came from the batch, in the order of the manifest. */
  function Selected(entries: seq<Entry>, names: seq<string>): seq<string> {
    if entries == [] then []
    else if FromNames(entries[0], names) then [entries[0].quarantineName] + Selected(entries[1..], names)
    else Selected(entries[1..], names)
  }

  /** No older entry answers to a name under which file `c` could be archived. */
  ghost predicate ClashFree<C>(b: Ledger<C>, c: string) {
    forall present: set<string> :: Present(b.archive) <= present ==> Unclaimed(Listing(b.manifest), ArchiveName(c, present))
  }

  /** The baseline lists readable entries, and there is a top directory to restore to. */
  ghost predicate Based<C>(b: Ledger<C>) {
    b.manifest.Listed? && Readable(b.manifest.entries) && [] in b.dirs
  }

  /** A file place at the top of the tree, for whose archive names no older entry answers. */
  ghost predicate Place<C>(b: Ledger<C>, c: string) {
    ValidParts([c]) && [c] !in b.dirs && ClashFree(b, c)
  }

  /** The names of the batch are such places, and no older entry came from one of them. */
  ghost predicate Placed<C>(b: Ledger<C>, names: seq<string>) {
    Based(b) && (forall e :: e in b.manifest.entries ==> !FromNames(e, names)) && (forall c :: c in names ==> Place(b, c))
  }

  ghost predicate BatchMove<C>(b: Ledger<C>, names: seq<string>, m: Move) {
    && FromNames(m, names) && ValidParts(m.parts) && m.parts !in b.dirs && PlainName(m.quarantineName)
    && Unclaimed(Listing(b.manifest), m.quarantineName) && [m.quarantineName] !in b.archive
  }

  /** Ledger `l` lists the entries of `b` and then `es`, and has at least its archived files. */
  ghost predicate Grown<C>(b: Ledger<C>, l: Ledger<C>, names: seq<string>, es: seq<Move>) {
    && b.manifest.Listed? && l.manifest == Listed(b.manifest.entries + es)
    && l.dirs == b.dirs && l.special == b.special
    && (forall m :: m in es ==> BatchMove(b, names, m))
    && (forall k {:trigger k in b.archive} :: k in b.archive ==> k in l.archive && l.archive[k] == b.archive[k])
  }

  lemma GrownOnce<C>(b: Ledger<C>, l: Ledger<C>, names: seq<string>, es: seq<Move>, fs: seq<Move>)
    requires Grown(b, l, names, es) && Grown(b, l, names, fs)
    ensures es == fs
  {
    assert (b.manifest.entries + es)[|b.manifest.entries|..] == es && (b.manifest.entries + fs)[|b.manifest.entries|..] == fs;
  }

  // ---------------------------------------------------------------- quarantines of the batch

  /** The ledger when the file of `m` was moved or not, and `m` listed or not. */
  function Taken<C>(l: Ledger<C>, m: Move, moved: bool, listed: bool): Ledger<C>
    requires m.parts in l.auth && l.manifest.Listed?
  {
    (if moved then Archived(l, m.parts, m.quarantineName, l.manifest) else l)
    .(manifest := if listed then Listed(l.manifest.entries + [m]) else l.manifest)
  }

  /** The file is there, and the manifest in which it would be listed can be read. */
  predicate CanTake<C>(l: Ledger<C>, c: string) {
    [c] in l.auth && [c] !in l.special && Within(l.manifest, MAX_MANIFEST_BYTES)
  }

  /** A quarantine of a file of the batch, whatever cuts it in two. */
  lemma TakeGrows<C>(b: Ledger<C>, l: Ledger<C>, names: seq<string>, es: seq<Move>, c: string, reason: string, movedAt: string,
                     fault: Fault)
    returns (m: Move)
    requires Based(b) && Place(b, c) && Grown(b, l, names, es) && c in names && CanTake(l, c)
    ensures m.parts == [c] && BatchMove(b, names, m) && [m.quarantineName] !in l.archive
    ensures AfterQuarantine(l, [c], reason, movedAt, fault).0 == Taken(l, m, Takes(fault), Rewrites(fault))
    ensures Grown(b, Taken(l, m, Takes(fault), Rewrites(fault)), names, if Rewrites(fault) then es + [m] else es)
  {
    hide ArchiveName, Unclaimed, ValidParts, PlainName, ManifestBytes;
    ArchiveNameFits(l, [c]);
    ArchiveGrows(b, l, names, es);
    m := NewEntry([c], ArchiveName(c, Present(l.archive)), reason, movedAt);
    Associates(b.manifest.entries, es, [m]);
  }

  lemma ArchiveGrows<C>(b: Ledger<C>, l: Ledger<C>, names: seq<string>, es: seq<Move>)
    requires Grown(b, l, names, es)
    ensures Present(b.archive) <= Present(l.archive)
  {
    hide BatchMove;
    forall k | k in b.archive && k != [] ensures k[0] in Present(l.archive) {
      assert k in l.archive;
    }
  }

  // ---------------------------------------------------------------- restores of the batch

  /** Entry `j` can be restored: it can be read, no other one has its name, its file is there and its place is free. */
  ghost predicate Fits<C>(l: Ledger<C>, es: seq<Move>, j: nat) {
    && j < |es| && Within(l.manifest, MAX_MANIFEST_BYTES)
    && (forall i :: 0 <= i < |es| && i != j ==> es[i].quarantineName != es[j].quarantineName)
    && [es[j].quarantineName] in l.archive && es[j].parts !in l.auth
  }

  function PathsOf(m: Move): Paths {
    Paths(m.parts, [m.quarantineName])
  }

  /** The ledger when the file of entry `j` was moved back or not, and the entry removed or not. */
  function Given<C>(b: Ledger<C>, l: Ledger<C>, es: seq<Move>, j: nat, moved: bool, unlisted: bool): Ledger<C>
    requires j < |es| && [es[j].quarantineName] in l.archive && b.manifest.Listed?
  {
    (if moved then Unarchived(l, PathsOf(es[j]), l.manifest) else l)
    .(manifest := if unlisted then Listed(b.manifest.entries + Removed(es, j)) else l.manifest)
  }

  lemma BatchSelected<C>(b: Ledger<C>, names: seq<string>, m: Move, q: string)
    requires BatchMove(b, names, m)
    ensures EntryPaths(m) == Some(PathsOf(m)) && (q in Selectors(m) <==> q == m.quarantineName)
  {
    EntrySelected(m, q);
  }

  lemma GrownReadable<C>(b: Ledger<C>, l: Ledger<C>, names: seq<string>, es: seq<Move>)
    requires Based(b) && Grown(b, l, names, es)
    ensures Readable(l.manifest.entries)
  {
    hide ClashFree, BatchMove;
    forall e | e in l.manifest.entries ensures EntryPaths(e).Some? {
      if e in es {
        BatchSelected(b, names, e, "");
      }
    }
  }

  /** Which entries of the grown manifest answer to a name that the older ones leave unclaimed. */
  lemma AnswersAt<C>(b: Ledger<C>, l: Ledger<C>, names: seq<string>, es: seq<Move>, q: string, i: nat)
    requires Based(b) && Grown(b, l, names, es) && Unclaimed(Listing(b.manifest), q) && i < |l.manifest.entries|
    ensures Readable(l.manifest.entries)
    ensures q in Selectors(l.manifest.entries[i]) <==>
              |b.manifest.entries| <= i && es[i - |b.manifest.entries|].quarantineName == q
  {
    hide ClashFree, BatchMove;
    GrownReadable(b, l, names, es);
    var e := l.manifest.entries[i];
    if i < |b.manifest.entries| {
      assert e in b.manifest.entries;
    } else {
      assert e == es[i - |b.manifest.entries|] && e in es;
      BatchSelected(b, names, e, q);
    }
  }

  lemma SoleAt<C>(b: Ledger<C>, l: Ledger<C>, names: seq<string>, es: seq<Move>, q: string, i: nat)
    requires Based(b) && Grown(b, l, names, es) && Unclaimed(Listing(b.manifest), q)
    ensures Readable(l.manifest.entries)
    ensures SoleMatch(l.manifest.entries, q, i) ==> |b.manifest.entries| <= i && i - |b.manifest.entries| < |es|
    ensures |b.manifest.entries| <= i ==>
              (SoleMatch(l.manifest.entries, q, i) <==>
                 var j := i - |b.manifest.entries|;
                 j < |es| && es[j].quarantineName == q && forall k :: 0 <= k < |es| && k != j ==> es[k].quarantineName != q)
  {
    hide Based, BatchMove, Selectors, Unclaimed;
    GrownReadable(b, l, names, es);
    var n, entries := |b.manifest.entries|, l.manifest.entries;
    assert |entries| == n + |es|;
    forall k | 0 <= k < |entries| ensures q in Selectors(entries[k]) <==> n <= k && es[k - n].quarantineName == q {
      AnswersAt(b, l, names, es, q, k);
    }
    if SoleMatch(entries, q, i) {
      assert q in Selectors(entries[i]);
      forall k | 0 <= k < |es| && k != i - n ensures es[k].quarantineName != q {
        assert q !in Selectors(entries[n + k]);
      }
    } else if n <= i < |entries| {
      var k :| 0 <= k < |entries| && !(q in Selectors(entries[k]) <==> k == i);
      assert k != i ==> es[k - n].quarantineName == q && k - n != i - n;
    }
  }

  /**
   A restore by an archive name of the batch, whatever cuts it in two: refused without a
   change, or it works on an entry that fits.
   */
  lemma RestoreOne<C>(b: Ledger<C>, l: Ledger<C>, names: seq<string>, es: seq<Move>, q: string, fault: Fault)
    returns (j: nat)
    requires Based(b) && Grown(b, l, names, es) && Unclaimed(Listing(b.manifest), q)
    ensures Fits(l, es, j) && es[j].quarantineName == q ==>
              && AfterRestore(l, q, fault).0 == Given(b, l, es, j, Takes(fault), Rewrites(fault))
              && (AfterRestore(l, q, fault).1.Moved? <==> fault.Clean?)
              && (fault.Clean? ==> AfterRestore(l, q, fault).1 == Moved(q))
    ensures !(Fits(l, es, j) && es[j].quarantineName == q) ==> AfterRestore(l, q, fault).0 == l && AfterRestore(l, q, fault).1.Refused?
    ensures forall k: nat :: Fits(l, es, k) && es[k].quarantineName == q ==> k == j
  {
    hide Based, BatchMove, Selectors, Unclaimed, RestoreEntry, ManifestBytes;
    var n := |b.manifest.entries|;
    if !Within(l.manifest, MAX_MANIFEST_BYTES) {
      return |es|;
    }
    GrownReadable(b, l, names, es);
    forall i: nat ensures SoleMatch(l.manifest.entries, q, i) ==> n <= i && i - n < |es| {
      SoleAt(b, l, names, es, q, i);
    }
    SoleAt(b, l, names, es, q, n);
    if i: nat :| SoleMatch(l.manifest.entries, q, i) {
      SoleAt(b, l, names, es, q, i);
      j := i - n;
      forall k: nat | SoleMatch(l.manifest.entries, q, k) ensures k == i {
        SoleAt(b, l, names, es, q, k);
        assert es[k - n].quarantineName == q;
      }
      FittingRestore(b, l, names, es, j, fault);
    } else {
      j := |es|;
      forall k: nat | Fits(l, es, k) && es[k].quarantineName == q ensures false {
        SoleAt(b, l, names, es, q, n + k);
      }
    }
  }

  lemma FittingRestore<C>(b: Ledger<C>, l: Ledger<C>, names: seq<string>, es: seq<Move>, j: nat, fault: Fault)
    requires Based(b) && Grown(b, l, names, es) && j < |es| && Within(l.manifest, MAX_MANIFEST_BYTES)
    requires forall i :: 0 <= i < |es| && i != j ==> es[i].quarantineName != es[j].quarantineName
    ensures Readable(l.manifest.entries)
    ensures var (after, outcome) := RestoreEntry(l, l.manifest.entries, |b.manifest.entries| + j, fault);
            if Fits(l, es, j) then
              after == Given(b, l, es, j, Takes(fault), Rewrites(fault)) && (outcome.Moved? <==> fault.Clean?)
              && (fault.Clean? ==> outcome == Moved(es[j].quarantineName))
            else after == l && outcome.Refused?
  {
    hide ManifestBytes;
    GrownReadable(b, l, names, es);
    var n := |b.manifest.entries|;
    assert l.manifest.entries[n + j] == es[j] && es[j] in es;
    BatchSelected(b, names, es[j], "");
    RemovedPart(b.manifest.entries, es, j);
    BatchPlace(b, l, names, es[j]);
  }

  lemma BatchPlace<C>(b: Ledger<C>, l: Ledger<C>, names: seq<string>, m: Move)
    requires Based(b) && BatchMove(b, names, m) && l.dirs == b.dirs
    ensures TargetFree(l, m.parts) <==> m.parts !in l.auth
    ensures BaseName([m.quarantineName]) == m.quarantineName
  {
    assert m.parts == [m.parts[0]] && Parent(m.parts) == [];
  }

  /** Restoring keeps a grown ledger grown. */
  lemma GivenGrows<C>(b: Ledger<C>, l: Ledger<C>, names: seq<string>, es: seq<Move>, j: nat, moved: bool, unlisted: bool)
    requires Grown(b, l, names, es) && Fits(l, es, j)
    ensures Grown(b, Given(b, l, es, j, moved, unlisted), names, if unlisted then Removed(es, j) else es)
  {
    hide Unclaimed;
    assert es[j] in es;
    forall m | m in Removed(es, j) ensures m in es {}
  }

  // ---------------------------------------------------------------- what can be restored

  /** Every entry names a file of its own in the archive, and the places they go back to are free and different. */
  ghost predicate Restorable<C>(l: Ledger<C>, es: seq<Move>) {
    && (forall i, j :: 0 <= i < j < |es| ==> es[i].quarantineName != es[j].quarantineName && es[i].parts != es[j].parts)
    && (forall i :: 0 <= i < |es| ==> [es[i].quarantineName] in l.archive && es[i].parts !in l.auth)
  }

  /** The files of the archive that the entries name. */
  function KeysOf(es: seq<Move>): set<Rel> {
    set m | m in es :: [m.quarantineName]
  }

  lemma KeysFirst(es: seq<Move>)
    requires es != []
    ensures KeysOf(es) == {[es[0].quarantineName]} + KeysOf(es[1..])
    ensures SourcesOf(es) == {es[0].parts} + SourcesOf(es[1..])
  {
    assert es == [es[0]] + es[1..];
  }

  /** What can be restored is decided by the first entry and the rest. */
  lemma RestorableFirst<C>(b: Ledger<C>, l: Ledger<C>, es: seq<Move>)
    requires es != [] && b.manifest.Listed?
    ensures Restorable(l, es) && Within(l.manifest, MAX_MANIFEST_BYTES) ==> Fits(l, es, 0)
    ensures Fits(l, es, 0) ==> (Restorable(l, es) <==> Restorable(Given(b, l, es, 0, true, true), es[1..]))
  {
    if Fits(l, es, 0) {
      var l', rest := Given(b, l, es, 0, true, true), es[1..];
      forall i | 0 <= i < |rest| ensures rest[i] == es[i + 1] && [rest[i].quarantineName] != [es[0].quarantineName] {
        assert [rest[i].quarantineName][0] != [es[0].quarantineName][0];
      }
      if Restorable(l', rest) {
        forall i, j | 0 <= i < j < |es| ensures es[i].quarantineName != es[j].quarantineName && es[i].parts != es[j].parts {
          assert es[j] == rest[j - 1];
          if i > 0 { assert es[i] == rest[i - 1]; }
        }
        forall i | 0 <= i < |es| ensures [es[i].quarantineName] in l.archive && es[i].parts !in l.auth {
          if i > 0 { assert es[i] == rest[i - 1]; }
        }
      }
    }
  }

  /** Restores one after another; false as soon as one is refused. */
  ghost function RestoreAll<C>(l: Ledger<C>, selectors: seq<string>): (Ledger<C>, bool)
    decreases |selectors|
  {
    if selectors == [] then (l, true)
    else
      var (after, outcome) := AfterRestore(l, selectors[0], Clean);
      if outcome.Moved? then RestoreAll(after, selectors[1..]) else (after, false)
  }

  /** The ledger after all entries have been restored: the older manifest, and the files they named back in the tree. */
  ghost predicate AllBack<C>(b: Ledger<C>, l: Ledger<C>, after: Ledger<C>, es: seq<Move>) {
    && after == l.(manifest := b.manifest, archive := l.archive - KeysOf(es), auth := after.auth)
    && (forall k :: k in after.auth <==> k in l.auth || k in SourcesOf(es))
    && (forall k :: k in l.auth && k in after.auth ==> after.auth[k] == l.auth[k])
  }

  /** Each listed file is in the tree again, as the archive had it. */
  ghost predicate ContentsBack<C>(l: Ledger<C>, after: Ledger<C>, es: seq<Move>) {
    forall m :: m in es ==>
      m.parts in after.auth && [m.quarantineName] in l.archive && after.auth[m.parts] == l.archive[[m.quarantineName]]
  }

  lemma ContentsFirst<C>(b: Ledger<C>, l: Ledger<C>, es: seq<Move>, after: Ledger<C>)
    requires es != [] && b.manifest.Listed? && Fits(l, es, 0)
    requires AllBack(b, Given(b, l, es, 0, true, true), after, es[1..]) && ContentsBack(Given(b, l, es, 0, true, true), after, es[1..])
    ensures ContentsBack(l, after, es)
  {
    var mid := Given(b, l, es, 0, true, true);
    forall m | m in es
      ensures m.parts in after.auth && [m.quarantineName] in l.archive && after.auth[m.parts] == l.archive[[m.quarantineName]] {
      assert m == es[0] || m in es[1..];
      assert es[0].parts in mid.auth;
    }
  }

  /** The manifest can be read as far as there is something to restore. */
  predicate Legible<C>(l: Ledger<C>, es: seq<Move>) {
    es == [] || Within(l.manifest, MAX_MANIFEST_BYTES)
  }

  /**
   Restoring every entry succeeds if and only if the ledger is restorable and its manifest
   can be read.  A refusal changes nothing when it cannot be read, and leaves an
   unrestorable ledger unrestorable.
   */
  lemma {:induction false} RestoreAllIff<C>(b: Ledger<C>, l: Ledger<C>, names: seq<string>, es: seq<Move>)
    returns (left: seq<Move>)
    requires Based(b) && Grown(b, l, names, es)
    ensures RestoreAll(l, NamesOf(es)).1 <==> Restorable(l, es) && Legible(l, es)
    ensures Restorable(l, es) && Legible(l, es) ==>
              AllBack(b, l, RestoreAll(l, NamesOf(es)).0, es) && ContentsBack(l, RestoreAll(l, NamesOf(es)).0, es)
    ensures var after := RestoreAll(l, NamesOf(es)).0;
            && (!Restorable(l, es) ==> Grown(b, after, names, left) && !Restorable(after, left) && SameTree(l, after, names))
            && (!Legible(l, es) ==> after == l)
    decreases |es|
  {
    hide Based, Fits, BatchMove, AfterRestore, Restorable, ManifestBytes, AllBack;
    left := es;
    if es == [] {
      NothingListed(b, l);
      return;
    }
    HeadUnclaimed(b, l, names, es);
    var j := RestoreOne(b, l, names, es, es[0].quarantineName, Clean);
    RestorableFirst(b, l, es);
    SameTreeItself(l, names);
    if Fits(l, es, 0) {
      FittingFile(l, es, 0);
      var after := Given(b, l, es, 0, true, true);
      assert Removed(es, 0) == es[1..] && NamesOf(es)[1..] == NamesOf(es[1..]);
      GivenGrows(b, l, names, es, 0, true, true);
      StillWithin(b.manifest.entries, es);
      left := RestoreAllIff(b, after, names, es[1..]);
      BackFirst(b, l, names, es, RestoreAll(l, NamesOf(es)).0);
      if Restorable(after, es[1..]) && Legible(after, es[1..]) {
        ContentsFirst(b, l, es, RestoreAll(l, NamesOf(es)).0);
      }
    } else {
      FitsByName(l, es, j);
    }
  }

  lemma StillWithin(older: seq<Entry>, es: seq<Move>)
    requires es != []
    ensures ManifestBytes(older + Removed(es, 0)) <= ManifestBytes(older + es)
  {
    hide ManifestBytes;
    RemovedPart(older, es, 0);
    ManifestShrinks(older + es, |older|);
  }

  lemma FittingFile<C>(l: Ledger<C>, es: seq<Move>, j: nat)
    ensures Fits(l, es, j) ==> j < |es| && [es[j].quarantineName] in l.archive && Within(l.manifest, MAX_MANIFEST_BYTES)
  {}

  lemma NothingListed<C>(b: Ledger<C>, l: Ledger<C>)
    requires b.manifest.Listed? && l.manifest == Listed(b.manifest.entries + [])
    ensures Restorable(l, []) && AllBack(b, l, l, []) && ContentsBack(l, l, []) && NamesOf([]) == []
  {
    assert KeysOf([]) == {} && l.archive - {} == l.archive && b.manifest.entries + [] == b.manifest.entries;
  }

  lemma HeadUnclaimed<C>(b: Ledger<C>, l: Ledger<C>, names: seq<string>, es: seq<Move>)
    requires Grown(b, l, names, es) && es != []
    ensures BatchMove(b, names, es[0]) && Unclaimed(Listing(b.manifest), es[0].quarantineName)
  {
    assert es[0] in es;
  }

  lemma FitsByName<C>(l: Ledger<C>, es: seq<Move>, j: nat)
    requires es != []
    ensures Fits(l, es, j) && es[j].quarantineName == es[0].quarantineName ==> j == 0
  {}

  /** Only files of the batch differ between the two trees. */
  ghost predicate SameTree<C>(l: Ledger<C>, after: Ledger<C>, names: seq<string>) {
    && (forall k {:trigger k in after.auth} :: k in after.auth ==> k in l.auth || (|k| == 1 && k[0] in names))
    && (forall k {:trigger k in l.auth} :: k in l.auth ==> k in after.auth && after.auth[k] == l.auth[k])
  }

  lemma SameTreeItself<C>(l: Ledger<C>, names: seq<string>)
    ensures SameTree(l, l, names)
  {}

  lemma BackFirst<C>(b: Ledger<C>, l: Ledger<C>, names: seq<string>, es: seq<Move>, after: Ledger<C>)
    requires es != [] && b.manifest.Listed? && Fits(l, es, 0) && BatchMove(b, names, es[0])
    ensures AllBack(b, Given(b, l, es, 0, true, true), after, es[1..]) ==> AllBack(b, l, after, es)
    ensures SameTree(Given(b, l, es, 0, true, true), after, names) ==> SameTree(l, after, names)
  {
    KeysFirst(es);
    if AllBack(b, Given(b, l, es, 0, true, true), after, es[1..]) {
      assert l.archive - {[es[0].quarantineName]} - KeysOf(es[1..]) == l.archive - KeysOf(es);
    }
    var mid := Given(b, l, es, 0, true, true);
    if SameTree(mid, after, names) {
      forall k {:trigger k in l.auth} | k in l.auth ensures k in after.auth && after.auth[k] == l.auth[k] {
        assert k in mid.auth;
      }
    }
  }

  // ---------------------------------------------------------------- which entries are selected

  /** Exactly the entries of the batch are selected, in their order. */
  lemma {:induction false} SelectedIsBatch(older: seq<Entry>, es: seq<Move>, names: seq<string>)
    requires forall e :: e in older ==> !FromNames(e, names)
    requires forall m :: m in es ==> FromNames(m, names)
    ensures Selected(older + es, names) == NamesOf(es)
    decreases |older|, |es|
  {
    if older != [] {
      assert older[0] in older && (older + es)[0] == older[0] && (older + es)[1..] == older[1..] + es;
      SelectedIsBatch(older[1..], es, names);
    } else if es != [] {
      assert es[0] in es && (older + es)[0] == es[0] && (older + es)[1..] == [] + es[1..];
      assert NamesOf(es) == [es[0].quarantineName] + NamesOf(es[1..]);
      SelectedIsBatch([], es[1..], names);
    }
  }

  lemma GrownSelects<C>(b: Ledger<C>, l: Ledger<C>, names: seq<string>, es: seq<Move>)
    requires Placed(b, names) && Grown(b, l, names, es)
    ensures Selected(Listing(l.manifest), names) == NamesOf(es)
  {
    hide ClashFree, Selected;
    SelectedIsBatch(b.manifest.entries, es, names);
  }

  /** With an entry of another name among them fewer entries are selected than there are. */
  lemma {:induction false} SelectedFewer(older: seq<Entry>, es: seq<Move>, names: seq<string>)
    requires forall e :: e in older ==> !FromNames(e, names)
    ensures |Selected(older + es, names)| <= |es|
    ensures (exists m :: m in es && !FromNames(m, names)) ==> |Selected(older + es, names)| < |es|
    decreases |older|, |es|
  {
    hide FromNames;
    if older != [] {
      assert older[0] in older && (older + es)[0] == older[0] && (older + es)[1..] == older[1..] + es;
      SelectedFewer(older[1..], es, names);
    } else if es != [] {
      assert (older + es)[0] == es[0] && (older + es)[1..] == [] + es[1..];
      assert es == [es[0]] + es[1..];
      SelectedFewer([], es[1..], names);
    }
  }

  /** What is selected is the archive name of an entry that came from the names. */
  lemma {:induction false} SelectedFrom(entries: seq<Entry>, names: seq<string>, q: string) returns (e: Entry)
    requires q in Selected(entries, names)
    ensures e in entries && FromNames(e, names) && e.quarantineName == q
  {
    if FromNames(entries[0], names) && entries[0].quarantineName == q {
      e := entries[0];
    } else {
      assert entries == [entries[0]] + entries[1..];
      e := SelectedFrom(entries[1..], names, q);
    }
  }

  /** An entry that came from the names is among the selected ones. */
  lemma {:induction false} SelectedHas(entries: seq<Entry>, names: seq<string>, m: Move)
    requires m in entries && FromNames(m, names)
    ensures m.quarantineName in Selected(entries, names)
  {
    hide FromNames;
    if entries[0] != m {
      assert entries == [entries[0]] + entries[1..];
      SelectedHas(entries[1..], names, m);
    }
  }

  // ---------------------------------------------------------------- series of restores that must fail

  /** A restore that succeeds removes one entry, which answers to its selector and had a free place to go to. */
  lemma RestoreRemoves<C>(l: Ledger<C>, q: string) returns (i: nat)
    requires AfterRestore(l, q, Clean).1.Moved?
    ensures i < |Listing(l.manifest)| && Readable(Listing(l.manifest)) && SoleMatch(Listing(l.manifest), q, i)
    ensures Listing(AfterRestore(l, q, Clean).0.manifest) == Removed(Listing(l.manifest), i)
    ensures EntryPaths(Listing(l.manifest)[i]).value.target !in l.auth
    ensures forall k :: k in l.auth ==> k in AfterRestore(l, q, Clean).0.auth
  {
    hide AfterRestore, ManifestBytes, Selectors, EntryPaths;
    var entries;
    entries, i := RestoreWorksOn(l, q, Clean);
  }

  /** A series of restores that succeeds removes one entry each. */
  lemma {:induction false} RestoreAllCount<C>(l: Ledger<C>, selectors: seq<string>)
    requires RestoreAll(l, selectors).1
    ensures |Listing(RestoreAll(l, selectors).0.manifest)| == |Listing(l.manifest)| - |selectors|
    decreases |selectors|
  {
    if selectors != [] {
      hide AfterRestore;
      var i := RestoreRemoves(l, selectors[0]);
      RestoreAllCount(AfterRestore(l, selectors[0], Clean).0, selectors[1..]);
    }
  }

  /** Restoring an entry by its archive name is refused while its place is occupied. */
  lemma OccupiedRefused<C>(l: Ledger<C>, e: Entry, q: string)
    requires e in Listing(l.manifest) && EntryPaths(e).Some? && q in Selectors(e) && EntryPaths(e).value.target in l.auth
    ensures AfterRestore(l, q, Clean) == (l, AfterRestore(l, q, Clean).1) && AfterRestore(l, q, Clean).1.Refused?
  {
    hide EntryPaths, Selectors;
    if AfterRestore(l, q, Clean).1.Moved? {
      hide AfterRestore;
      var i := RestoreRemoves(l, q);
    } else {
      RefusedUnchanged(l, q);
    }
  }

  lemma RefusedUnchanged<C>(l: Ledger<C>, q: string)
    ensures AfterRestore(l, q, Clean).1.Refused? ==> AfterRestore(l, q, Clean).0 == l
  {
    hide EntryPaths, Selectors, ManifestBytes;
  }

  /** An entry whose place is occupied stays listed through any series of restores, and the place stays occupied. */
  lemma {:induction false} OccupiedStays<C>(l: Ledger<C>, selectors: seq<string>, m: Move)
    requires m in Listing(l.manifest) && m.parts in l.auth && ValidParts(m.parts) && PlainName(m.quarantineName)
    ensures m in Listing(RestoreAll(l, selectors).0.manifest)
    ensures forall k :: k in l.auth ==> k in RestoreAll(l, selectors).0.auth
    decreases |selectors|
  {
    if selectors != [] {
      hide AfterRestore, EntryPaths, Selectors;
      RefusedUnchanged(l, selectors[0]);
      if AfterRestore(l, selectors[0], Clean).1.Moved? {
        var entries, after := Listing(l.manifest), AfterRestore(l, selectors[0], Clean).0;
        var i := RestoreRemoves(l, selectors[0]);
        var k :| 0 <= k < |entries| && entries[k] == m;
        EntrySelected(m, m.quarantineName);
        assert k != i;
        assert Removed(entries, i)[if k < i then k else k - 1] == m;
        OccupiedStays(after, selectors[1..], m);
      }
    }
  }

  /** A series of restores fails when one of its selectors is the archive name of such an entry. */
  lemma {:induction false} OccupiedBlocks<C>(l: Ledger<C>, selectors: seq<string>, m: Move)
    requires m in Listing(l.manifest) && m.quarantineName in selectors && m.parts in l.auth
    requires ValidParts(m.parts) && PlainName(m.quarantineName)
    ensures !RestoreAll(l, selectors).1
    decreases |selectors|
  {
    hide AfterRestore, EntryPaths, Selectors;
    EntrySelected(m, m.quarantineName);
    if AfterRestore(l, selectors[0], Clean).1.Moved? {
      if selectors[0] == m.quarantineName {
        OccupiedRefused(l, m, m.quarantineName);
      } else {
        OccupiedOnce(l, selectors[0], m);
        OccupiedBlocks(AfterRestore(l, selectors[0], Clean).0, selectors[1..], m);
      }
    }
  }

  lemma OccupiedOnce<C>(l: Ledger<C>, q: string, m: Move)
    requires m in Listing(l.manifest) && m.parts in l.auth && ValidParts(m.parts) && PlainName(m.quarantineName)
    ensures m in Listing(AfterRestore(l, q, Clean).0.manifest) && m.parts in AfterRestore(l, q, Clean).0.auth
  {
    hide AfterRestore;
    OccupiedStays(l, [q], m);
    assert [q][1..] == [];
  }

  // ---------------------------------------------------------------- entries without a file, files without an entry

  /** Some entry has no file in the archive, or shares its name with another one. */
  ghost predicate Broken<C>(l: Ledger<C>, es: seq<Move>) {
    || (exists i :: 0 <= i < |es| && [es[i].quarantineName] !in l.archive)
    || (exists i, j :: 0 <= i < j < |es| && es[i].quarantineName == es[j].quarantineName)
  }

  lemma BrokenIsNot<C>(l: Ledger<C>, es: seq<Move>)
    requires Broken(l, es)
    ensures !Restorable(l, es)
  {}

  /** A quarantine that lists its file without moving it breaks the ledger; only one that moves without listing can mend it. */
  lemma TakenBroken<C>(l: Ledger<C>, es: seq<Move>, m: Move, moved: bool, listed: bool)
    requires m.parts in l.auth && l.manifest.Listed? && [m.quarantineName] !in l.archive
    ensures listed && !moved ==> Broken(Taken(l, m, moved, listed), es + [m])
    ensures Broken(l, es) && (moved ==> listed) ==> Broken(Taken(l, m, moved, listed), if listed then es + [m] else es)
  {
    var l', more := Taken(l, m, moved, listed), es + [m];
    assert more[|es|] == m && forall i :: 0 <= i < |es| ==> more[i] == es[i];
    if Broken(l, es) && (moved ==> listed) {
      if i :| 0 <= i < |es| && [es[i].quarantineName] !in l.archive {
        if moved && [es[i].quarantineName] in l'.archive {
          assert [es[i].quarantineName][0] == [m.quarantineName][0] && more[i].quarantineName == more[|es|].quarantineName;
        } else if listed {
          assert [more[i].quarantineName] !in l'.archive;
        }
      } else {
        var i, j :| 0 <= i < j < |es| && es[i].quarantineName == es[j].quarantineName;
        if listed { assert more[i].quarantineName == more[j].quarantineName; }
      }
    }
  }

  lemma MissingStays<C>(b: Ledger<C>, l: Ledger<C>, es: seq<Move>, j: nat, moved: bool, unlisted: bool, i: nat)
    requires Fits(l, es, j) && b.manifest.Listed? && i < |es| && [es[i].quarantineName] !in l.archive
    ensures Broken(Given(b, l, es, j, moved, unlisted), if unlisted then Removed(es, j) else es)
  {
    assert i != j;
    if unlisted {
      assert Removed(es, j)[if i < j then i else i - 1] == es[i];
    }
  }

  lemma SharedStays<C>(b: Ledger<C>, l: Ledger<C>, es: seq<Move>, j: nat, moved: bool, unlisted: bool, i: nat, k: nat)
    requires Fits(l, es, j) && b.manifest.Listed? && i < k < |es| && es[i].quarantineName == es[k].quarantineName
    ensures Broken(Given(b, l, es, j, moved, unlisted), if unlisted then Removed(es, j) else es)
  {
    assert i != j && k != j;
    if unlisted {
      var rest := Removed(es, j);
      assert rest[if i < j then i else i - 1] == es[i] && rest[if k < j then k else k - 1] == es[k];
    }
  }

  /** The same for restores. */
  lemma GivenBroken<C>(b: Ledger<C>, l: Ledger<C>, es: seq<Move>, j: nat, moved: bool, unlisted: bool)
    requires Fits(l, es, j) && b.manifest.Listed?
    ensures moved && !unlisted ==> Broken(Given(b, l, es, j, moved, unlisted), es)
    ensures Broken(l, es) && (unlisted ==> moved) ==> Broken(Given(b, l, es, j, moved, unlisted), if unlisted then Removed(es, j) else es)
  {
    if moved && !unlisted {
      assert [es[j].quarantineName] !in Given(b, l, es, j, moved, unlisted).archive;
    } else if Broken(l, es) {
      hide Given;
      if i: nat :| i < |es| && [es[i].quarantineName] !in l.archive {
        MissingStays(b, l, es, j, moved, unlisted, i);
      } else {
        var i: nat, k: nat :| i < k < |es| && es[i].quarantineName == es[k].quarantineName;
        SharedStays(b, l, es, j, moved, unlisted, i, k);
      }
    }
  }

  /** A quarantine that does not list an unmoved file keeps the ledger restorable. */
  lemma TakenRestorable<C>(l: Ledger<C>, es: seq<Move>, m: Move, moved: bool, listed: bool)
    requires Restorable(l, es) && m.parts in l.auth && l.manifest.Listed? && [m.quarantineName] !in l.archive
    requires listed ==> moved
    ensures Restorable(Taken(l, m, moved, listed), if listed then es + [m] else es)
  {
    var more := es + [m];
    assert more[|es|] == m && forall i :: 0 <= i < |es| ==> more[i] == es[i];
    forall i | 0 <= i < |es| ensures es[i].quarantineName != m.quarantineName {}
  }

  /** A restore that does not leave the entry of a moved file listed keeps the ledger restorable. */
  lemma GivenRestorable<C>(b: Ledger<C>, l: Ledger<C>, es: seq<Move>, j: nat, moved: bool, unlisted: bool)
    requires Restorable(l, es) && Fits(l, es, j) && b.manifest.Listed? && (moved ==> unlisted)
    ensures Restorable(Given(b, l, es, j, moved, unlisted), if unlisted then Removed(es, j) else es)
  {
    var rest := Removed(es, j);
    assert forall i :: 0 <= i < |rest| ==> rest[i] == es[if i < j then i else i + 1];
    forall i | 0 <= i < |rest| ensures [rest[i].quarantineName] != [es[j].quarantineName] && rest[i].parts != es[j].parts {
      assert [rest[i].quarantineName][0] != [es[j].quarantineName][0];
    }
  }

  /** The archived files that no entry names and the older archive did not have. */
  function Orphans<C>(b: Ledger<C>, l: Ledger<C>, es: seq<Move>): set<Rel> {
    l.archive.Keys - b.archive.Keys - KeysOf(es)
  }

  lemma KeysLast(es: seq<Move>, m: Move)
    ensures KeysOf(es + [m]) == KeysOf(es) + {[m.quarantineName]}
  {
    assert forall x :: x in es + [m] <==> x in es || x == m;
  }

  lemma KeysRemoved(es: seq<Move>, j: nat)
    requires j < |es| && forall i :: 0 <= i < |es| && i != j ==> es[i].quarantineName != es[j].quarantineName
    ensures KeysOf(Removed(es, j)) == KeysOf(es) - {[es[j].quarantineName]}
    ensures [es[j].quarantineName] in KeysOf(es)
  {
    var rest := Removed(es, j);
    assert forall i :: 0 <= i < |rest| ==> rest[i] == es[if i < j then i else i + 1];
    assert es[j] in es;
    forall m | m in rest ensures [m.quarantineName] in KeysOf(es) - {[es[j].quarantineName]} {
      var i :| 0 <= i < |rest| && rest[i] == m;
      assert m in es && [m.quarantineName][0] != [es[j].quarantineName][0];
    }
    forall m | m in es && [m.quarantineName] != [es[j].quarantineName] ensures m in rest {
      var i :| 0 <= i < |es| && es[i] == m;
      assert rest[if i < j then i else i - 1] == m;
    }
  }

  /** A quarantine orphans its file exactly when it moves it without listing it. */
  lemma TakenOrphans<C>(b: Ledger<C>, l: Ledger<C>, names: seq<string>, es: seq<Move>, m: Move, moved: bool, listed: bool)
    requires Grown(b, l, names, es) && Restorable(l, es) && BatchMove(b, names, m)
    requires m.parts in l.auth && [m.quarantineName] !in l.archive
    ensures var l' := Taken(l, m, moved, listed);
            Orphans(b, l', if listed then es + [m] else es) ==
              Orphans(b, l, es) + if moved && !listed then {[m.quarantineName]} else {}
    ensures [m.quarantineName] !in Orphans(b, l, es)
  {
    hide BatchMove;
    KeysLast(es, m);
    var q := [m.quarantineName];
    forall x | x in es ensures [x.quarantineName] != q {}
    assert q !in KeysOf(es);
    assert q !in b.archive;
  }

  /** A restore orphans its file exactly when it removes the entry without moving the file. */
  lemma GivenOrphans<C>(b: Ledger<C>, l: Ledger<C>, names: seq<string>, es: seq<Move>, j: nat, moved: bool, unlisted: bool)
    requires Grown(b, l, names, es) && Fits(l, es, j) && (moved ==> unlisted)
    ensures var l' := Given(b, l, es, j, moved, unlisted);
            Orphans(b, l', if unlisted then Removed(es, j) else es) ==
              Orphans(b, l, es) + if unlisted && !moved then {[es[j].quarantineName]} else {}
    ensures [es[j].quarantineName] !in Orphans(b, l, es)
  {
    assert es[j] in es && BatchMove(b, names, es[j]);
    hide BatchMove;
    KeysRemoved(es, j);
  }

  /**
   What a step does to the ledger's exactness.  Losing a file breaks it; a broken ledger
   stays broken unless a file is left astray; a restorable one stays restorable unless a
   file is lost, and has one more orphan for each file left astray.
   */
  ghost predicate Tracks<C>(b: Ledger<C>, l: Ledger<C>, es: seq<Move>, l': Ledger<C>, es': seq<Move>, loses: bool, strays: bool) {
    && (loses || (Broken(l, es) && !strays) ==> Broken(l', es'))
    && (Restorable(l, es) && !loses ==>
          Restorable(l', es') && |Orphans(b, l', es')| == |Orphans(b, l, es)| + (if strays then 1 else 0))
  }

  lemma OneMore<T>(s: set<T>, x: T)
    requires x !in s
    ensures |s + {x}| == |s| + 1
  {}

  /** A quarantine of a file of the batch. */
  lemma TakeTracks<C>(b: Ledger<C>, l: Ledger<C>, names: seq<string>, es: seq<Move>, c: string, reason: string, movedAt: string,
                      fault: Fault)
    returns (es': seq<Move>)
    requires Based(b) && Place(b, c) && Grown(b, l, names, es) && c in names
    ensures var after := AfterQuarantine(l, [c], reason, movedAt, fault).0;
            && Grown(b, after, names, es')
            && Tracks(b, l, es, after, es', CanTake(l, c) && Rewrites(fault) && !Takes(fault), CanTake(l, c) && Takes(fault) && !Rewrites(fault))
            && after.auth == (if CanTake(l, c) && Takes(fault) then l.auth - {[c]} else l.auth)
            && SourcesOf(es') <= SourcesOf(es) + if CanTake(l, c) then {[c]} else {}
  {
    hide Based, Place, BatchMove, Restorable, Broken, Orphans, SourcesOf, ManifestBytes;
    es' := es;
    if CanTake(l, c) {
      var m := TakeGrows(b, l, names, es, c, reason, movedAt, fault);
      TakenBroken(l, es, m, Takes(fault), Rewrites(fault));
      if Restorable(l, es) && !(Rewrites(fault) && !Takes(fault)) {
        TakenRestorable(l, es, m, Takes(fault), Rewrites(fault));
        TakenOrphans(b, l, names, es, m, Takes(fault), Rewrites(fault));
        OneMore(Orphans(b, l, es), [m.quarantineName]);
      }
      if Rewrites(fault) {
        es' := es + [m];
      }
      TakeSources(es, m);
    }
  }

  /** A restore by an archive name of the batch. */
  lemma RestoreTracks<C>(b: Ledger<C>, l: Ledger<C>, names: seq<string>, es: seq<Move>, q: string, fault: Fault)
    returns (es': seq<Move>)
    requires Based(b) && Grown(b, l, names, es) && Unclaimed(Listing(b.manifest), q)
    ensures var after, works := AfterRestore(l, q, fault).0, AfterRestore(l, q, Clean).1.Moved?;
            && Grown(b, after, names, es') && SameTree(l, after, names)
            && Tracks(b, l, es, after, es', works && Takes(fault) && !Rewrites(fault), works && Rewrites(fault) && !Takes(fault))
            && (forall k :: k in after.auth ==> k in l.auth || k in SourcesOf(es)) && SourcesOf(es') <= SourcesOf(es)
  {
    hide Based, BatchMove, Restorable, Broken, Orphans, AfterRestore, Unclaimed, Fits;
    es' := es;
    var j := RestoreOne(b, l, names, es, q, Clean);
    var k := RestoreOne(b, l, names, es, q, fault);
    SameTreeItself(l, names);
    FittingFile(l, es, j);
    if Fits(l, es, j) && es[j].quarantineName == q {
      GivenGrows(b, l, names, es, j, Takes(fault), Rewrites(fault));
      GivenBroken(b, l, es, j, Takes(fault), Rewrites(fault));
      GivenTree(b, l, names, es, j, Takes(fault), Rewrites(fault));
      if Restorable(l, es) && !(Takes(fault) && !Rewrites(fault)) {
        GivenRestorable(b, l, es, j, Takes(fault), Rewrites(fault));
        GivenOrphans(b, l, names, es, j, Takes(fault), Rewrites(fault));
        OneMore(Orphans(b, l, es), [es[j].quarantineName]);
      }
      if Rewrites(fault) {
        es' := Removed(es, j);
      }
    }
  }

  lemma GivenTree<C>(b: Ledger<C>, l: Ledger<C>, names: seq<string>, es: seq<Move>, j: nat, moved: bool, unlisted: bool)
    requires Grown(b, l, names, es) && Fits(l, es, j)
    ensures SameTree(l, Given(b, l, es, j, moved, unlisted), names)
    ensures forall k :: k in Given(b, l, es, j, moved, unlisted).auth ==> k in l.auth || k in SourcesOf(es)
    ensures SourcesOf(Removed(es, j)) <= SourcesOf(es)
  {
    assert es[j] in es && BatchMove(b, names, es[j]);
    hide BatchMove;
    forall m | m in Removed(es, j) ensures m in es {}
  }

  /** A change of the auth tree that leaves the places of the archived files alone. */
  lemma TreeTracks<C>(b: Ledger<C>, l: Ledger<C>, names: seq<string>, es: seq<Move>, auth: map<Rel, C>)
    requires Grown(b, l, names, es) && forall k :: k in auth ==> k in l.auth || k !in SourcesOf(es)
    ensures Grown(b, l.(auth := auth), names, es) && Tracks(b, l, es, l.(auth := auth), es, false, false)
  {
    hide BatchMove;
    forall i | 0 <= i < |es| ensures es[i].parts in SourcesOf(es) {
      assert es[i] in es;
    }
  }

  // ---------------------------------------------------------------- the ledger at the end

  function NamePaths(names: seq<string>): set<Rel> {
    set c | c in names :: [c]
  }

  lemma NamedPath(x: Rel, names: seq<string>)
    ensures |x| == 1 && x[0] in names ==> x in NamePaths(names)
  {
    assert |x| == 1 ==> x == [x[0]];
  }

  lemma MapLess<K, V>(m: map<K, V>, a: set<K>, b: set<K>)
    ensures m - a - b == m - (a + b)
  {}

  /** The baseline ledger with the files that the archive has beyond it and that no entry names. */
  function Settled<C>(b: Ledger<C>, l: Ledger<C>, es: seq<Move>): Ledger<C> {
    b.(archive := l.archive - KeysOf(es))
  }

  /** What an accepted recovery leaves is the baseline ledger itself if and only if no file is orphaned. */
  lemma SettledIsBaseline<C>(b: Ledger<C>, l: Ledger<C>, names: seq<string>, es: seq<Move>)
    requires Grown(b, l, names, es)
    ensures Settled(b, l, es) == b <==> Orphans(b, l, es) == {}
    ensures Settled(b, l, es).archive.Keys == b.archive.Keys + Orphans(b, l, es)
    ensures forall k :: k in b.archive ==> k in Settled(b, l, es).archive && Settled(b, l, es).archive[k] == b.archive[k]
  {
    var s := Settled(b, l, es);
    forall k | k in b.archive ensures k !in KeysOf(es) {
      forall m | m in es ensures [m.quarantineName] != k {
        assert BatchMove(b, names, m);
      }
    }
    assert forall k :: k in b.archive ==> k in s.archive && s.archive[k] == b.archive[k];
    assert s.archive.Keys == l.archive.Keys - KeysOf(es) == b.archive.Keys + Orphans(b, l, es);
    assert Orphans(b, l, es) !! b.archive.Keys;
    if Orphans(b, l, es) == {} {
      assert s.archive == b.archive;
    } else {
      var k :| k in Orphans(b, l, es);
      assert k in s.archive && k !in b.archive;
    }
  }

  lemma GrownListing<C>(b: Ledger<C>, l: Ledger<C>, names: seq<string>, es: seq<Move>)
    requires Grown(b, l, names, es)
    ensures b.manifest.Listed? && l.manifest == Listed(b.manifest.entries + es)
  {}
}
