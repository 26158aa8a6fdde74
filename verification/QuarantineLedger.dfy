/**
 The credential quarantine ledger of cloud/cloudx_cloud/cpa_auth.py.

 Credentials are files of the auth tree or of the archive; a manifest lists the archived
 ones.  Paths are relative to their own tree, so the two trees are disjoint by
 construction.  Every operating-system call that can fail after the checks is a fault
 chosen by the environment.
 */
module QuarantineLedger {
  import opened Wrappers
  import opened ArchiveNames
  import opened JsonSizes
  import opened Maps

  type Rel = seq<string>

  /**
   A manifest entry.  `Modern` carries non-empty `source_relative` and `quarantine_name`;
   `Legacy` carries absolute paths, given here relative to their tree or None when they
   lie outside it.  `size` is the number of bytes that the entry takes up in the manifest,
   with its line breaks, indentation and comma.
   */
  datatype Entry =
    | Modern(absolute: bool, parts: Rel, quarantineName: string, reason: string, movedAt: string,
             account: string, codexxAccount: string, size: nat)
    | Legacy(source: Option<Rel>, quarantine: Option<Rel>, account: string, codexxAccount: string, size: nat)
    | NotAnObject(size: nat)

  datatype Manifest = Absent | Corrupt | Listed(entries: seq<Entry>)

  /** `special` are the paths of the auth tree that are no regular files. */
  datatype Ledger<C> = Ledger(auth: map<Rel, C>, dirs: set<Rel>, special: set<Rel>, archive: map<Rel, C>, manifest: Manifest)

  /** What becomes of the moved file: back, back although undoing it reported a failure, or not back. */
  datatype Undo = Undone | UndoneLate | NotUndone

  /**
   How a ledger operation fares once its checks have passed.  An interrupted one fails or
   dies after its move: `stored` says whether the manifest had been replaced by then.
   */
  datatype Fault = Clean | MoveFails | Interrupted(stored: bool, undo: Undo)

  datatype Refusal =
    | FileUnavailable
    | FileUnsafe
    | ManifestInvalid
    | MoveError
    | WriteErrorUndone
    | WriteErrorNotUndone
    | NotExactlyOneEntry
    | TargetUnavailable

  datatype Outcome = Moved(name: string) | Refused(why: Refusal)

  datatype Paths = Paths(target: Rel, source: Rel)

  function BaseName(p: Rel): string {
    if p == [] then "" else p[|p| - 1]
  }

  function Parent(p: Rel): Rel {
    if p == [] then [] else p[..|p| - 1]
  }

  function Removed<T>(s: seq<T>, i: nat): seq<T>
    requires i < |s|
  {
    s[..i] + s[i + 1..]
  }

  // ---------------------------------------------------------------- the size of the manifest

  /** What a manifest without entries takes up, and what a list of entries adds to them. */
  const MANIFEST_FRAME: nat := 60
  const LIST_FRAME: nat := 2

  /** What a new entry takes up besides its four texts. */
  const ENTRY_FRAME: nat := 112

  /** Larger manifests are written but not read. */
  const MAX_MANIFEST_BYTES: nat := 1024 * 1024

  function EntryBytes(entries: seq<Entry>): nat {
    if entries == [] then 0 else entries[0].size + EntryBytes(entries[1..])
  }

  function ManifestBytes(entries: seq<Entry>): nat {
    MANIFEST_FRAME + if entries == [] then 0 else LIST_FRAME + EntryBytes(entries)
  }

  lemma {:induction false} EntryBytesAppend(a: seq<Entry>, b: seq<Entry>)
    ensures EntryBytes(a + b) == EntryBytes(a) + EntryBytes(b)
    decreases |a|
  {
    if a == [] {
      assert a + b == b;
    } else {
      assert (a + b)[0] == a[0] && (a + b)[1..] == a[1..] + b;
      EntryBytesAppend(a[1..], b);
    }
  }

  /** A manifest grows by its new entries. */
  lemma ManifestGrows(a: seq<Entry>, b: seq<Entry>)
    ensures b != [] ==> ManifestBytes(a + b) == (if a == [] then LIST_FRAME else 0) + ManifestBytes(a) + EntryBytes(b)
    ensures ManifestBytes(a) <= ManifestBytes(a + b)
  {
    EntryBytesAppend(a, b);
    if b == [] {
      assert a + b == a;
    }
  }

  /** Removing an entry never makes the manifest larger. */
  lemma ManifestShrinks(entries: seq<Entry>, i: nat)
    requires i < |entries|
    ensures ManifestBytes(Removed(entries, i)) <= ManifestBytes(entries)
  {
    EntryBytesAppend(entries[..i], entries[i + 1..]);
    EntryBytesAppend(entries[..i], entries[i..]);
    assert entries == entries[..i] + entries[i..];
    assert entries[i..][1..] == entries[i + 1..];
  }

  /** The manifest lists its entries and is no larger than a reader accepts. */
  predicate Within(m: Manifest, limit: nat) {
    m.Listed? && ManifestBytes(m.entries) <= limit
  }

  /** The manifest as the code reads it; a missing file is an empty list, a bad or too large one is refused. */
  function Entries(m: Manifest): Option<seq<Entry>> {
    if m.Absent? then Some([]) else if Within(m, MAX_MANIFEST_BYTES) then Some(m.entries) else None
  }

  /** Parts come from splitting at the separator, so none of them holds one. */
  predicate ValidParts(parts: Rel) {
    parts != [] && forall p :: p in parts ==> p !in {"", ".", ".."} && '/' !in p
  }

  /** Where an entry says its file came from and where it is now; None refuses the manifest. */
  function EntryPaths(e: Entry): Option<Paths> {
    match e
    case Modern(absolute, parts, name, _, _, _, _, _) =>
      if !absolute && ValidParts(parts) && PlainName(name) then Some(Paths(parts, [name])) else None
    case Legacy(source, quarantine, _, _, _) =>
      if source.Some? && quarantine.Some? then Some(Paths(source.value, quarantine.value)) else None
    case NotAnObject(_) => None
  }

  /** The selectors that name an entry. */
  function Selectors(e: Entry): set<string>
    requires EntryPaths(e).Some?
  {
    {BaseName(EntryPaths(e).value.source), e.account, e.codexxAccount} - {""}
  }

  /** The names that occupy the top level of the archive. */
  function Present<C>(archive: map<Rel, C>): set<string> {
    set k | k in archive.Keys && k != [] :: k[0]
  }

  predicate SafeReason(reason: string) {
    1 <= |reason| <= 128
    && forall c :: c in reason ==> 'a' <= c <= 'z' || '0' <= c <= '9' || c in {'.', '_', '-'}
  }

  function NewEntry(source: Rel, name: string, reason: string, movedAt: string): Entry {
    var why := if SafeReason(reason) then reason else "unspecified";
    Modern(false, source, name, why, movedAt, "", "",
           ENTRY_FRAME + PathBytes(source) + TextBytes(name) + TextBytes(why) + TextBytes(movedAt))
  }

  // ---------------------------------------------------------------- specification

  /** The ledger once a file has been put into the archive and the manifest replaced. */
  function Archived<C>(l: Ledger<C>, source: Rel, name: string, manifest: Manifest): Ledger<C>
    requires source in l.auth
  {
    l.(auth := l.auth - {source}, archive := l.archive[[name] := l.auth[source]], manifest := manifest)
  }

  function Interruption(undo: Undo): Outcome {
    Refused(if undo.Undone? then WriteErrorUndone else WriteErrorNotUndone)
  }

  function AfterQuarantine<C>(l: Ledger<C>, source: Rel, reason: string, movedAt: string, fault: Fault): (Ledger<C>, Outcome) {
    if source !in l.auth then (l, Refused(FileUnavailable))
    else if source in l.special then (l, Refused(FileUnsafe))
    else match Entries(l.manifest)
      case None => (l, Refused(ManifestInvalid))
      case Some(entries) =>
        var name := ArchiveName(BaseName(source), Present(l.archive));
        var listed := Listed(entries + [NewEntry(source, name, reason, movedAt)]);
        match fault
        case MoveFails => (l, Refused(MoveError))
        case Clean => (Archived(l, source, name, listed), Moved(name))
        case Interrupted(stored, undo) =>
          var manifest := if stored then listed else l.manifest;
          (if undo.NotUndone? then Archived(l, source, name, manifest) else l.(manifest := manifest), Interruption(undo))
  }

  predicate Readable(entries: seq<Entry>) {
    forall e :: e in entries ==> EntryPaths(e).Some?
  }

  /** Entry `i` and no other answers to the selector. */
  ghost predicate SoleMatch(entries: seq<Entry>, selector: string, i: nat)
    requires Readable(entries)
  {
    i < |entries| && forall j :: 0 <= j < |entries| ==> (selector in Selectors(entries[j]) <==> j == i)
  }

  predicate TargetFree<C>(l: Ledger<C>, target: Rel) {
    target != [] && Parent(target) in l.dirs && target !in l.auth && target !in l.dirs
  }

  function Unarchived<C>(l: Ledger<C>, paths: Paths, manifest: Manifest): Ledger<C>
    requires paths.source in l.archive
  {
    l.(auth := l.auth[paths.target := l.archive[paths.source]],
       archive := l.archive - {paths.source},
       manifest := manifest)
  }

  ghost function AfterRestore<C>(l: Ledger<C>, selector: string, fault: Fault): (Ledger<C>, Outcome) {
    match Entries(l.manifest)
    case None => (l, Refused(ManifestInvalid))
    case Some(entries) =>
      if !Readable(entries) then (l, Refused(ManifestInvalid))
      else if !exists i :: SoleMatch(entries, selector, i) then (l, Refused(NotExactlyOneEntry))
      else
        var i :| SoleMatch(entries, selector, i);
        RestoreEntry(l, entries, i, fault)
  }

  function RestoreEntry<C>(l: Ledger<C>, entries: seq<Entry>, i: nat, fault: Fault): (Ledger<C>, Outcome)
    requires i < |entries| && Readable(entries)
  {
    var paths := EntryPaths(entries[i]).value;
    if paths.source !in l.archive then (l, Refused(FileUnavailable))
    else if !TargetFree(l, paths.target) then (l, Refused(TargetUnavailable))
    else match fault
      case MoveFails => (l, Refused(MoveError))
      case Clean => (Unarchived(l, paths, Listed(Removed(entries, i))), Moved(BaseName(paths.source)))
      case Interrupted(stored, undo) =>
        var manifest := if stored then Listed(Removed(entries, i)) else l.manifest;
        (if undo.NotUndone? then Unarchived(l, paths, manifest) else l.(manifest := manifest), Interruption(undo))
  }

  // ---------------------------------------------------------------- the store itself

  /** The pass over the manifest: the first unreadable entry refuses it, selected entries are collected. */
  method FindMatches(entries: seq<Entry>, selector: string) returns (readable: bool, matches: seq<nat>)
    ensures readable == Readable(entries)
    ensures readable && |matches| == 1 ==> SoleMatch(entries, selector, matches[0])
    ensures readable && |matches| != 1 ==> forall i: nat :: !SoleMatch(entries, selector, i)
  {
    matches := [];
    var i := 0;
    while i < |entries|
      invariant 0 <= i <= |entries|
      invariant forall j :: 0 <= j < i ==> EntryPaths(entries[j]).Some?
      invariant forall m :: 0 <= m < |matches| ==> matches[m] < i && selector in Selectors(entries[matches[m]])
      invariant forall m, n :: 0 <= m < n < |matches| ==> matches[m] < matches[n]
      invariant forall j: nat :: j < i && selector in Selectors(entries[j]) ==> j in matches
    {
      var paths := EntryPaths(entries[i]);
      if paths.None? {
        return false, [];
      }
      if selector in Selectors(entries[i]) {
        matches := matches + [i];
      }
      i := i + 1;
    }
    readable := true;
    forall j: nat | |matches| != 1 ensures !SoleMatch(entries, selector, j) {
      if j < |entries| && selector in Selectors(entries[j]) {
        assert j in matches && matches[0] < matches[1];
        assert selector in Selectors(entries[matches[0]]) && selector in Selectors(entries[matches[1]]);
      }
    }
  }

  class QuarantineStore<C> {
    var auth: map<Rel, C>
    var dirs: set<Rel>
    var special: set<Rel>
    var archive: map<Rel, C>
    var manifest: Manifest

    function View(): Ledger<C>
      reads this
    {
      Ledger(auth, dirs, special, archive, manifest)
    }

    method Quarantine(source: Rel, reason: string, movedAt: string, fault: Fault) returns (outcome: Outcome)
      modifies this
      ensures (View(), outcome) == AfterQuarantine(old(View()), source, reason, movedAt, fault)
    {
      hide ManifestBytes, NewEntry, ArchiveName;
      if source !in auth {
        return Refused(FileUnavailable);
      }
      if source in special {
        return Refused(FileUnsafe);
      }
      if manifest.Corrupt? || (manifest.Listed? && ManifestBytes(manifest.entries) > MAX_MANIFEST_BYTES) {
        return Refused(ManifestInvalid);
      }
      var entries := if manifest.Absent? then [] else manifest.entries;
      var target := UniqueArchivePath(BaseName(source), Present(archive));
      if fault.MoveFails? {
        return Refused(MoveError);
      }
      var content := auth[source];
      auth, archive := auth - {source}, archive[[target] := content];
      entries := entries + [NewEntry(source, target, reason, movedAt)];
      if fault.Clean? || fault.stored {
        manifest := Listed(entries);
      }
      if fault.Clean? {
        return Moved(target);
      }
      if !fault.undo.NotUndone? {
        ArchiveNameIsNew(old(archive), BaseName(source));
        archive, auth := archive - {[target]}, auth[source := archive[[target]]];
        assert auth == old(auth) && archive == old(archive);
      }
      return Interruption(fault.undo);
    }

    method Restore(selector: string, fault: Fault) returns (outcome: Outcome)
      modifies this
      ensures (View(), outcome) == AfterRestore(old(View()), selector, fault)
    {
      hide ManifestBytes, EntryPaths, Selectors;
      if manifest.Corrupt? || (manifest.Listed? && ManifestBytes(manifest.entries) > MAX_MANIFEST_BYTES) {
        return Refused(ManifestInvalid);
      }
      var entries := if manifest.Absent? then [] else manifest.entries;
      var readable, matches := FindMatches(entries, selector);
      if !readable {
        return Refused(ManifestInvalid);
      }
      if |matches| != 1 {
        return Refused(NotExactlyOneEntry);
      }
      var Paths(target, source) := EntryPaths(entries[matches[0]]).value;
      if source !in archive {
        return Refused(FileUnavailable);
      }
      if target == [] || Parent(target) !in dirs || target in auth || target in dirs {
        return Refused(TargetUnavailable);
      }
      if fault.MoveFails? {
        return Refused(MoveError);
      }
      archive, auth := archive - {source}, auth[target := archive[source]];
      entries := entries[..matches[0]] + entries[matches[0] + 1..];
      if fault.Clean? || fault.stored {
        manifest := Listed(entries);
      }
      if fault.Clean? {
        return Moved(BaseName(source));
      }
      if !fault.undo.NotUndone? {
        auth, archive := auth - {target}, archive[source := auth[target]];
        assert auth == old(auth) && archive == old(archive);
      }
      return Interruption(fault.undo);
    }
  }

  lemma ArchiveNameIsNew<C>(archive: map<Rel, C>, name: string)
    ensures [ArchiveName(name, Present(archive))] !in archive
  {
    ArchiveNameLeast(name, Present(archive));
    forall k | k in archive && k != [] ensures k[0] in Present(archive) {}
  }
}
