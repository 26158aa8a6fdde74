/** What a quarantine and a restore answer, and what they leave, in terms of the files and the entries alone. */
module LedgerAnswers {
  import opened Wrappers
  import opened ArchiveNames
  import opened JsonSizes
  import opened QuarantineLedger
  import opened LedgerLaws

  /** There is a manifest that cannot be used: damaged, or larger than 1 MiB. */
  predicate Unusable(m: Manifest) {
    m.Corrupt? || (m.Listed? && ManifestBytes(m.entries) > 1024 * 1024)
  }

  /** Characters of a reason that is written as given. */
  predicate ReasonChar(c: char) {
    'a' <= c <= 'z' || '0' <= c <= '9' || c == '.' || c == '_' || c == '-'
  }

  /** The entry tells where the file came from, under which name it is kept, why and since when. */
  ghost predicate Tells(e: Entry, source: Rel, name: string, reason: string, movedAt: string) {
    && e.Modern? && !e.absolute && e.parts == source && e.quarantineName == name && e.movedAt == movedAt
    && e.account == "" && e.codexxAccount == ""
    && e.reason == (if 1 <= |reason| <= 128 && forall c :: c in reason ==> ReasonChar(c) then reason else "unspecified")
    && e.size == 112 + PathBytes(source) + TextBytes(name) + TextBytes(e.reason) + TextBytes(movedAt)
  }

  /** The file is in the archive under the name and no longer in the tree; everything else is as it was. */
  ghost predicate InArchive<C>(l: Ledger<C>, after: Ledger<C>, source: Rel, name: string) {
    && source in l.auth && after.auth == l.auth - {source}
    && [name] !in l.archive && after.archive == l.archive[[name] := l.auth[source]]
  }

  /** The list has one more entry, at its end, which tells of the file. */
  ghost predicate ListedLast<C>(l: Ledger<C>, after: Ledger<C>, source: Rel, name: string, reason: string, movedAt: string) {
    && after.manifest.Listed? && |after.manifest.entries| == |Listing(l.manifest)| + 1
    && after.manifest.entries[..|Listing(l.manifest)|] == Listing(l.manifest)
    && Tells(after.manifest.entries[|Listing(l.manifest)|], source, name, reason, movedAt)
  }

  /**
   A quarantine is refused for what is wrong, in this order: no such file, not a regular
   file, an unusable manifest.  Otherwise it puts the file into the archive and lists it,
   and a fault leaves exactly the part of this that it did not prevent.
   */
  lemma QuarantineLaw<C>(l: Ledger<C>, source: Rel, reason: string, movedAt: string, fault: Fault) returns (name: string)
    ensures name == ArchiveName(BaseName(source), Present(l.archive))
    ensures var (after, outcome) := AfterQuarantine(l, source, reason, movedAt, fault);
            var ready := source in l.auth && source !in l.special && !Unusable(l.manifest);
            && (outcome == Refused(FileUnavailable) <==> source !in l.auth)
            && (outcome == Refused(FileUnsafe) <==> source in l.auth && source in l.special)
            && (outcome == Refused(ManifestInvalid) <==> source in l.auth && source !in l.special && Unusable(l.manifest))
            && (outcome == Refused(MoveError) <==> ready && fault.MoveFails?)
            && (outcome == Moved(name) <==> ready && fault.Clean?) && (outcome.Moved? ==> outcome.name == name)
            && (outcome == Refused(WriteErrorUndone) <==> ready && fault.Interrupted? && fault.undo.Undone?)
            && (outcome == Refused(WriteErrorNotUndone) <==> ready && fault.Interrupted? && !fault.undo.Undone?)
            && (!ready || fault.MoveFails? ==> after == l)
            && after.dirs == l.dirs && after.special == l.special
            && (ready && !fault.MoveFails? ==>
                  && (if fault.Clean? || fault.undo.NotUndone? then InArchive(l, after, source, name)
                      else after.auth == l.auth && after.archive == l.archive)
                  && (if fault.Clean? || fault.stored then ListedLast(l, after, source, name, reason, movedAt)
                      else after.manifest == l.manifest))
  {
    hide ArchiveName, ManifestBytes, PathBytes, TextBytes;
    name := ArchiveName(BaseName(source), Present(l.archive));
    ArchiveNameIsNew(l.archive, BaseName(source));
    var entries := Listing(l.manifest);
    var more := entries + [EntryFor(l, source, reason, movedAt)];
    assert more[..|entries|] == entries && more[|entries|] == EntryFor(l, source, reason, movedAt);
  }

  /** The selector is the entry's archive name or one of its accounts. */
  predicate Named(e: Entry, selector: string) {
    selector != "" && match e
      case Modern(_, _, name, _, _, account, codexxAccount, _) => selector in {name, account, codexxAccount}
      case Legacy(_, quarantine, account, codexxAccount, _) =>
        (quarantine.Some? && quarantine.value != [] && selector == quarantine.value[|quarantine.value| - 1]) || selector in {account, codexxAccount}
      case NotAnObject(_) => false
  }

  /** The entry says where its file came from and where it is, both inside their trees. */
  predicate Complete(e: Entry) {
    match e
    case Modern(absolute, parts, name, _, _, _, _, _) =>
      && !absolute && parts != [] && (forall part :: part in parts ==> part !in {"", ".", ".."} && '/' !in part)
      && name !in {"", "."} && '/' !in name
    case Legacy(source, quarantine, _, _, _) => source.Some? && quarantine.Some?
    case NotAnObject(_) => false
  }

  /** Where a complete entry puts its file back, and where the file is. */
  function Home(e: Entry): Rel
    requires Complete(e)
  {
    match e case Modern(_, parts, _, _, _, _, _, _) => parts case Legacy(source, _, _, _, _) => source.value
  }

  function Shelved(e: Entry): Rel
    requires Complete(e)
  {
    match e case Modern(_, _, name, _, _, _, _, _) => [name] case Legacy(_, quarantine, _, _, _) => quarantine.value
  }

  lemma CompleteIff(e: Entry)
    ensures Complete(e) <==> EntryPaths(e).Some?
    ensures Complete(e) ==> EntryPaths(e) == Some(Paths(Home(e), Shelved(e)))
    ensures Complete(e) ==> forall s :: s in Selectors(e) <==> Named(e, s)
  {}

  /** Entry `i` and no other answers to the selector. */
  ghost predicate Sole(entries: seq<Entry>, selector: string, i: nat) {
    i < |entries| && Named(entries[i], selector) && forall j :: 0 <= j < |entries| && j != i ==> !Named(entries[j], selector)
  }

  /** There is room for the file where it came from. */
  predicate Free<C>(l: Ledger<C>, k: Rel) {
    k != [] && k[..|k| - 1] in l.dirs && k !in l.auth && k !in l.dirs
  }

  /**
   A restore is refused for what is wrong, in this order: an unusable manifest or an
   incomplete entry, not exactly one entry for the selector, its file missing from the
   archive, its place taken or gone.  Otherwise it puts the file back with its content and
   takes the entry off the list, and a fault leaves exactly the part that it did not prevent.
   */
  lemma RestoreLaw<C>(l: Ledger<C>, selector: string, fault: Fault) returns (i: nat)
    ensures var (after, outcome) := AfterRestore(l, selector, fault);
            var entries := Listing(l.manifest);
            var readable := !Unusable(l.manifest) && forall e :: e in entries ==> Complete(e);
            && (outcome == Refused(ManifestInvalid) <==> !readable)
            && (outcome == Refused(NotExactlyOneEntry) <==> readable && forall j: nat :: !Sole(entries, selector, j))
            && after.dirs == l.dirs && after.special == l.special
            && (!readable || (forall j: nat :: !Sole(entries, selector, j)) ==> after == l)
            && (readable && (exists j: nat :: Sole(entries, selector, j)) ==>
                  Sole(entries, selector, i) && Complete(entries[i]) && RestoresEntry(l, after, outcome, entries, i, fault))
  {
    hide ManifestBytes, EntryPaths, Selectors, Named, Complete, RestoreEntry;
    var entries := Listing(l.manifest);
    forall e | e in entries ensures Complete(e) <==> EntryPaths(e).Some? {
      CompleteIff(e);
    }
    i := 0;
    if Entries(l.manifest).Some? && Readable(entries) {
      forall j: nat ensures SoleMatch(entries, selector, j) <==> Sole(entries, selector, j) {
        SoleIs(entries, selector, j);
      }
      if j: nat :| SoleMatch(entries, selector, j) {
        i :| SoleMatch(entries, selector, i) && AfterRestore(l, selector, fault) == RestoreEntry(l, entries, i, fault);
        CompleteIff(entries[i]);
        EntryRestores(l, entries, i, fault);
      }
    }
  }

  lemma SoleIs(entries: seq<Entry>, selector: string, j: nat)
    requires Readable(entries)
    ensures SoleMatch(entries, selector, j) <==> Sole(entries, selector, j)
  {
    hide EntryPaths, Selectors, Named, Complete;
    forall k | 0 <= k < |entries| ensures selector in Selectors(entries[k]) <==> Named(entries[k], selector) {
      assert entries[k] in entries;
      CompleteIff(entries[k]);
    }
  }

  /** What restoring entry `i` answers and leaves. */
  ghost predicate RestoresEntry<C>(l: Ledger<C>, after: Ledger<C>, outcome: Outcome, entries: seq<Entry>, i: nat, fault: Fault)
    requires i < |entries| && Complete(entries[i])
  {
    var home, shelved := Home(entries[i]), Shelved(entries[i]);
    var ready := shelved in l.archive && Free(l, home);
    && (outcome == Refused(FileUnavailable) <==> shelved !in l.archive)
    && (outcome == Refused(TargetUnavailable) <==> shelved in l.archive && !Free(l, home))
    && (outcome == Refused(MoveError) <==> ready && fault.MoveFails?)
    && (outcome.Moved? <==> ready && fault.Clean?) && (outcome.Moved? && shelved != [] ==> outcome.name == shelved[|shelved| - 1])
    && (outcome == Refused(WriteErrorUndone) <==> ready && fault.Interrupted? && fault.undo.Undone?)
    && (outcome == Refused(WriteErrorNotUndone) <==> ready && fault.Interrupted? && !fault.undo.Undone?)
    && (!ready || fault.MoveFails? ==> after == l)
    && (ready && !fault.MoveFails? ==>
          && (if fault.Clean? || fault.undo.NotUndone? then
                after.auth == l.auth[home := l.archive[shelved]] && after.archive == l.archive - {shelved}
              else after.auth == l.auth && after.archive == l.archive)
          && after.manifest == (if fault.Clean? || fault.stored then Listed(entries[..i] + entries[i + 1..]) else l.manifest))
  }

  lemma EntryRestores<C>(l: Ledger<C>, entries: seq<Entry>, i: nat, fault: Fault)
    requires i < |entries| && Readable(entries) && Complete(entries[i])
    requires EntryPaths(entries[i]) == Some(Paths(Home(entries[i]), Shelved(entries[i])))
    ensures var (after, outcome) := RestoreEntry(l, entries, i, fault);
            RestoresEntry(l, after, outcome, entries, i, fault) && after.dirs == l.dirs && after.special == l.special
            && outcome != Refused(ManifestInvalid) && outcome != Refused(NotExactlyOneEntry)
  {
    hide EntryPaths, Home, Shelved, Complete;
  }
}
