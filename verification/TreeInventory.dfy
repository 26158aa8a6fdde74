/**
 The bounded inventory of a directory tree (`_tree_snapshot` of
 scripts/quarantine_cloud_legacy_runtime.py) and the unbounded one of its embedded
 recovery script: one walk with a stack, specified by recursion over the tree.
 */
module TreeInventory {
  import opened Wrappers
  import opened Ranks
  import opened PathTexts

  const MAX_FILES := 2000
  const MAX_FILE_BYTES := 32 * 1024 * 1024
  const MAX_TOTAL_BYTES := 64 * 1024 * 1024

  type Bytes = seq<bv8>
  type Path = seq<string>

  datatype Meta = Meta(mode: nat, uid: nat, gid: nat)

  datatype Node =
    | File(meta: Meta, content: Bytes)
    | Directory(meta: Meta, entries: seq<Entry>)
    | Symlink(meta: Meta)
    | Special(meta: Meta)

  /** A directory is listed in whatever order; a digest is the content it is the digest of. */
  datatype Entry = Entry(name: string, node: Node)

  datatype Kind = DirectoryRecord | FileRecord(size: nat, content: Bytes)

  datatype Record = Record(path: Path, meta: Meta, kind: Kind)

  datatype Problem = NotARealDirectory | SymlinkFound | WritableEntry | SpecialFile | FileTooLarge | BoundExceeded | EmptyTree

  datatype Snapshot = Snapshot(records: seq<Record>, fileCount: nat, totalBytes: nat)

  /** Group or others may write: permission bits 0o022. */
  predicate Writable(mode: nat) {
    mode / 0x10 % 2 == 1 || mode / 0x02 % 2 == 1
  }

  function RecordOf(e: Entry, at: Path): Record {
    Record(at + [e.name], e.node.meta, if e.node.File? then FileRecord(|e.node.content|, e.node.content) else DirectoryRecord)
  }

  // ---------------------------------------------------------------- the recursive inventory

  function SubEntries(node: Node): seq<Entry> {
    if node.Directory? then node.entries else []
  }

  function Inventory(entries: seq<Entry>, at: Path): seq<Record>
    decreases entries
  {
    if entries == [] then []
    else
      [RecordOf(entries[0], at)]
      + (if entries[0].node.Directory? then Inventory(entries[0].node.entries, at + [entries[0].name]) else [])
      + Inventory(entries[1..], at)
  }

  function Files(records: seq<Record>): nat {
    if records == [] then 0 else (if records[0].kind.FileRecord? then 1 else 0) + Files(records[1..])
  }

  function TotalBytes(records: seq<Record>): nat {
    if records == [] then 0 else (if records[0].kind.FileRecord? then records[0].kind.size else 0) + TotalBytes(records[1..])
  }

  /** The entry itself may be recorded; only the bounded walk limits the size of a file. */
  predicate Admissible(node: Node, bounded: bool) {
    && !node.Symlink? && !node.Special? && !Writable(node.meta.mode)
    && (bounded && node.File? ==> |node.content| <= MAX_FILE_BYTES)
  }

  predicate Safe(entries: seq<Entry>, bounded: bool)
    decreases entries
  {
    entries == [] ||
    (Admissible(entries[0].node, bounded)
     && (entries[0].node.Directory? ==> Safe(entries[0].node.entries, bounded))
     && Safe(entries[1..], bounded))
  }

  /** Everything that a directory holds, at every level. */
  function Nodes(entries: seq<Entry>): set<Node>
    decreases entries
  {
    if entries == [] then {}
    else {entries[0].node} + (if entries[0].node.Directory? then Nodes(entries[0].node.entries) else {}) + Nodes(entries[1..])
  }

  /** What a directory holds has distinct plain names, at every level. */
  predicate WellNamed(entries: seq<Entry>)
    decreases entries
  {
    entries == [] ||
    (PlainPart(entries[0].name)
     && (forall e :: e in entries[1..] ==> e.name != entries[0].name)
     && (entries[0].node.Directory? ==> WellNamed(entries[0].node.entries))
     && WellNamed(entries[1..]))
  }

  predicate WithinBounds(records: seq<Record>) {
    Files(records) <= MAX_FILES && TotalBytes(records) <= MAX_TOTAL_BYTES
  }

  function PathKey(r: Record): Rank {
    Rank(0, PathText(r.path))
  }

  function Ordered(records: seq<Record>): seq<Record> {
    SortBy(records, PathKey)
  }

  function SnapshotOf(entries: seq<Entry>): Snapshot {
    var records := Inventory(entries, []);
    Snapshot(Ordered(records), Files(records), TotalBytes(records))
  }

  // ---------------------------------------------------------------- the walk with a stack

  datatype Pending = Pending(at: Path, entries: seq<Entry>)

  function PendingRecords(stack: seq<Pending>): seq<Record> {
    if stack == [] then []
    else PendingRecords(stack[..|stack| - 1]) + Inventory(stack[|stack| - 1].entries, stack[|stack| - 1].at)
  }

  predicate PendingSafe(stack: seq<Pending>, bounded: bool) {
    stack == [] || (PendingSafe(stack[..|stack| - 1], bounded) && Safe(stack[|stack| - 1].entries, bounded))
  }

  function PendingNodes(stack: seq<Pending>): set<Node> {
    if stack == [] then {} else PendingNodes(stack[..|stack| - 1]) + Nodes(stack[|stack| - 1].entries)
  }

  /** Directories and entries still to come: one pop or one entry is one step. */
  function Work(entries: seq<Entry>): nat
    decreases entries
  {
    if entries == [] then 0
    else 1 + (if entries[0].node.Directory? then 1 + Work(entries[0].node.entries) else 0) + Work(entries[1..])
  }

  function PendingWork(stack: seq<Pending>): nat {
    if stack == [] then 0 else PendingWork(stack[..|stack| - 1]) + 1 + Work(stack[|stack| - 1].entries)
  }

  lemma {:induction false} FilesAppend(xs: seq<Record>, ys: seq<Record>)
    ensures Files(xs + ys) == Files(xs) + Files(ys) && TotalBytes(xs + ys) == TotalBytes(xs) + TotalBytes(ys)
    decreases |xs|
  {
    if xs == [] {
      assert xs + ys == ys;
    } else {
      assert (xs + ys)[0] == xs[0] && (xs + ys)[1..] == xs[1..] + ys;
      FilesAppend(xs[1..], ys);
    }
  }

  lemma PushSplits(stack: seq<Pending>, top: Pending)
    ensures PendingRecords(stack + [top]) == PendingRecords(stack) + Inventory(top.entries, top.at)
    ensures PendingSafe(stack + [top], true) <==> PendingSafe(stack, true) && Safe(top.entries, true)
    ensures PendingSafe(stack + [top], false) <==> PendingSafe(stack, false) && Safe(top.entries, false)
    ensures PendingWork(stack + [top]) == PendingWork(stack) + 1 + Work(top.entries)
    ensures PendingNodes(stack + [top]) == PendingNodes(stack) + Nodes(top.entries)
  {
    hide Inventory, Safe, Work, Nodes;
    assert (stack + [top])[..|stack|] == stack;
  }

  /** What the walk has recorded, what waits in the open directory and what waits on the stack make up the tree. */
  ghost predicate Accounts(records: seq<Record>, open: seq<Record>, waiting: seq<Record>, all: seq<Record>) {
    && multiset(records) + multiset(open) + multiset(waiting) == multiset(all)
    && Files(records) + Files(open) + Files(waiting) == Files(all)
    && TotalBytes(records) + TotalBytes(open) + TotalBytes(waiting) == TotalBytes(all)
  }

  lemma {:induction false} FilesOne(r: Record)
    ensures Files([r]) == (if r.kind.FileRecord? then 1 else 0)
    ensures TotalBytes([r]) == (if r.kind.FileRecord? then r.kind.size else 0)
  {
    assert [r][1..] == [];
    assert Files([r][1..]) == 0 && TotalBytes([r][1..]) == 0;
  }

  /** Recording the first open entry and pushing what lies under it keeps the account. */
  lemma EntryAccounts(records: seq<Record>, r: Record, below: seq<Record>, rest: seq<Record>, waiting: seq<Record>, all: seq<Record>)
    requires Accounts(records, [r] + below + rest, waiting, all)
    ensures Accounts(records + [r], rest, waiting + below, all)
  {
    FilesAppend([r] + below, rest);
    FilesAppend([r], below);
    FilesAppend(records, [r]);
    FilesAppend(waiting, below);
  }

  lemma PopAccounts(records: seq<Record>, rest: seq<Record>, top: seq<Record>, all: seq<Record>)
    requires Accounts(records, [], rest + top, all)
    ensures Accounts(records, top, rest, all)
  {
    FilesAppend(rest, top);
  }

  lemma InventoryFirst(entries: seq<Entry>, at: Path)
    requires entries != []
    ensures Inventory(entries, at) == [RecordOf(entries[0], at)] + Inventory(SubEntries(entries[0].node), at + [entries[0].name]) + Inventory(entries[1..], at)
    ensures forall bounded :: Safe(entries, bounded) <==>
              Admissible(entries[0].node, bounded) && Safe(SubEntries(entries[0].node), bounded) && Safe(entries[1..], bounded)
    ensures Nodes(entries) == {entries[0].node} + Nodes(SubEntries(entries[0].node)) + Nodes(entries[1..])
  {}

  function Refusal(node: Node): Problem {
    if node.Symlink? then SymlinkFound
    else if Writable(node.meta.mode) then WritableEntry
    else if node.Special? then SpecialFile
    else FileTooLarge
  }

  /** A problem that one of the nodes has. */
  ghost predicate Culprit(nodes: set<Node>, bounded: bool, problem: Problem) {
    exists n :: n in nodes && !Admissible(n, bounded) && problem == Refusal(n)
  }

  lemma CulpritAmong(few: set<Node>, many: set<Node>, bounded: bool, problem: Problem)
    requires few <= many && Culprit(few, bounded, problem)
    ensures Culprit(many, bounded, problem)
  {
    var n :| n in few && !Admissible(n, bounded) && problem == Refusal(n);
    assert n in many;
  }

  /** The counters that the walk keeps beside its records. */
  datatype Tally = Tally(records: seq<Record>, stack: seq<Pending>, fileCount: nat, totalBytes: nat)

  ghost predicate Counted(t: Tally, open: seq<Record>, all: seq<Record>, bounded: bool) {
    && Accounts(t.records, open, PendingRecords(t.stack), all)
    && t.fileCount == Files(t.records) && t.totalBytes == TotalBytes(t.records)
    && (bounded ==> WithinBounds(t.records))
  }

  /** One entry of the open directory. */
  method ReadEntry(e: Entry, at: Path, t: Tally, bounded: bool, ghost rest: seq<Entry>, ghost all: seq<Record>)
    returns (problem: Option<Problem>, next: Tally)
    requires Counted(t, Inventory([e] + rest, at), all, bounded)
    ensures problem.None? ==>
              && Counted(next, Inventory(rest, at), all, bounded)
              && (PendingSafe(next.stack, bounded) && Safe(rest, bounded) <==> PendingSafe(t.stack, bounded) && Safe([e] + rest, bounded))
              && PendingWork(next.stack) + Work(rest) < PendingWork(t.stack) + Work([e] + rest)
              && PendingNodes(next.stack) <= PendingNodes(t.stack) + Nodes([e] + rest) && Nodes(rest) <= Nodes([e] + rest)
    ensures problem.Some? ==>
              || (!Safe([e] + rest, bounded) && Culprit(Nodes([e] + rest), bounded, problem.value))
              || (bounded && problem.value == BoundExceeded && !WithinBounds(all))
  {
    hide Inventory, Safe, Work, Admissible, PendingRecords, PendingSafe, PendingWork, PendingNodes, Nodes, Files, TotalBytes;
    ghost var left := [e] + rest;
    assert left[1..] == rest;
    InventoryFirst(left, at);
    WorkFirst(left);
    AdmissibleTests(e.node);
    if e.node.Symlink? || Writable(e.node.meta.mode) || e.node.Special? || (bounded && e.node.File? && |e.node.content| > MAX_FILE_BYTES) {
      assert e.node in Nodes(left) && !Admissible(e.node, bounded);
      return Some(Refusal(e.node)), t;
    }
    var r := RecordOf(e, at);
    EntryAccounts(t.records, r, Inventory(SubEntries(e.node), at + [e.name]), Inventory(rest, at), PendingRecords(t.stack), all);
    FilesAppend(t.records, [r]);
    FilesOne(r);
    if e.node.Directory? {
      PushSplits(t.stack, Pending(at + [e.name], e.node.entries));
      return None, t.(records := t.records + [r], stack := t.stack + [Pending(at + [e.name], e.node.entries)]);
    }
    NothingBelow(at + [e.name], PendingRecords(t.stack));
    next := t.(records := t.records + [r], fileCount := t.fileCount + 1, totalBytes := t.totalBytes + |e.node.content|);
    if bounded && (next.fileCount > MAX_FILES || next.totalBytes > MAX_TOTAL_BYTES) {
      return Some(BoundExceeded), t;
    }
    problem := None;
  }

  /** The entries of one directory. */
  method ReadDirectory(current: Pending, t: Tally, bounded: bool, ghost all: seq<Record>) returns (problem: Option<Problem>, next: Tally)
    requires Counted(t, Inventory(current.entries, current.at), all, bounded)
    ensures problem.None? ==>
              && Counted(next, [], all, bounded)
              && (PendingSafe(next.stack, bounded) <==> PendingSafe(t.stack, bounded) && Safe(current.entries, bounded))
              && PendingWork(next.stack) <= PendingWork(t.stack) + Work(current.entries)
              && PendingNodes(next.stack) <= PendingNodes(t.stack) + Nodes(current.entries)
    ensures problem.Some? ==>
              || (!(PendingSafe(t.stack, bounded) && Safe(current.entries, bounded)) && Culprit(Nodes(current.entries), bounded, problem.value))
              || (bounded && problem.value == BoundExceeded && !WithinBounds(all))
  {
    hide Inventory, Safe, Work, PendingSafe, PendingWork, PendingNodes, Nodes, Culprit, Counted;
    next := t;
    var i := 0;
    ghost var left := current.entries;
    while i < |current.entries|
      invariant 0 <= i <= |current.entries| && left == current.entries[i..]
      invariant Counted(next, Inventory(left, current.at), all, bounded)
      invariant PendingSafe(next.stack, bounded) && Safe(left, bounded) <==> PendingSafe(t.stack, bounded) && Safe(current.entries, bounded)
      invariant PendingWork(next.stack) + Work(left) <= PendingWork(t.stack) + Work(current.entries)
      invariant PendingNodes(next.stack) <= PendingNodes(t.stack) + Nodes(current.entries) && Nodes(left) <= Nodes(current.entries)
    {
      assert left == [current.entries[i]] + left[1..];
      problem, next := ReadEntry(current.entries[i], current.at, next, bounded, left[1..], all);
      if problem.Some? {
        if Culprit(Nodes(left), bounded, problem.value) { CulpritAmong(Nodes(left), Nodes(current.entries), bounded, problem.value); }
        return problem, t;
      }
      i := i + 1;
      left := left[1..];
    }
    NothingLeft(current.at);
    problem := None;
  }

  /** The walk shared by the two scripts; `bounded` is the snapshot's. */
  method Walk(root: seq<Entry>, bounded: bool) returns (result: Result<Snapshot, Problem>)
    ensures result.Success? <==> Safe(root, bounded) && (bounded ==> WithinBounds(Inventory(root, [])))
    ensures result.Success? ==> multiset(result.value.records) == multiset(Inventory(root, []))
                                && result.value.fileCount == Files(Inventory(root, [])) && result.value.totalBytes == TotalBytes(Inventory(root, []))
    ensures result.Failure? && Safe(root, bounded) ==> result.error == BoundExceeded
    ensures result.Failure? ==>
              || Culprit(Nodes(root), bounded, result.error)
              || (bounded && result.error == BoundExceeded && !WithinBounds(Inventory(root, [])))
  {
    hide Inventory, Safe, Work, PendingSafe, PendingWork, PendingRecords, PendingNodes, Nodes, Culprit;
    ghost var all := Inventory(root, []);
    var t := Tally([], [Pending([], root)], 0, 0);
    PushSplits([], Pending([], root));
    assert [] + t.stack == t.stack && [] + all == all;
    NothingPending();
    assert {} + Nodes(root) == Nodes(root);
    while t.stack != []
      invariant Counted(t, [], all, bounded)
      invariant PendingSafe(t.stack, bounded) <==> Safe(root, bounded)
      invariant PendingNodes(t.stack) <= Nodes(root)
      decreases PendingWork(t.stack)
    {
      var current := t.stack[|t.stack| - 1];
      var rest := t.stack[..|t.stack| - 1];
      assert t.stack == rest + [current];
      PushSplits(rest, current);
      PopAccounts(t.records, PendingRecords(rest), Inventory(current.entries, current.at), all);
      var problem;
      problem, t := ReadDirectory(current, t.(stack := rest), bounded, all);
      if problem.Some? {
        var p := problem.value;
        if Culprit(Nodes(current.entries), bounded, p) { CulpritAmong(Nodes(current.entries), Nodes(root), bounded, p); }
        return Failure(p);
      }
    }
    return Success(Snapshot(t.records, t.fileCount, t.totalBytes));
  }

  lemma WorkFirst(entries: seq<Entry>)
    requires entries != []
    ensures Work(entries) == 1 + (if entries[0].node.Directory? then 1 + Work(entries[0].node.entries) else 0) + Work(entries[1..])
  {}

  lemma AdmissibleTests(node: Node)
    ensures forall bounded :: Admissible(node, bounded) <==>
              !(node.Symlink? || Writable(node.meta.mode) || node.Special? || (bounded && node.File? && |node.content| > MAX_FILE_BYTES))
  {}

  lemma NothingBelow(at: Path, waiting: seq<Record>)
    ensures Inventory([], at) == [] && waiting + [] == waiting && Safe([], true) && Safe([], false)
  {}

  lemma NothingLeft(at: Path)
    ensures Inventory([], at) == [] && Safe([], true) && Safe([], false) && Work([]) == 0
  {}

  lemma NothingPending()
    ensures PendingRecords([]) == [] && PendingNodes([]) == {} && PendingSafe([], true) && PendingSafe([], false)
  {}

  // ---------------------------------------------------------------- the two scripts

  /** The snapshot taken before the runtime is moved. */
  method TreeSnapshot(root: Node) returns (result: Result<Snapshot, Problem>)
    ensures result.Success? <==>
              && root.Directory? && !Writable(root.meta.mode) && Safe(root.entries, true)
              && WithinBounds(Inventory(root.entries, [])) && Files(Inventory(root.entries, [])) > 0
    ensures result.Success? && WellNamed(root.entries) ==> result.value == SnapshotOf(root.entries)
    ensures result.Failure? && root.Directory? && !Writable(root.meta.mode) && Safe(root.entries, true) ==>
              result.error == (if Files(Inventory(root.entries, [])) == 0 then EmptyTree else BoundExceeded)
    ensures result.Failure? ==>
              if !root.Directory? then result.error == NotARealDirectory
              else if Writable(root.meta.mode) then result.error == WritableEntry
              else
                || Culprit(Nodes(root.entries), true, result.error)
                || (result.error == BoundExceeded && !WithinBounds(Inventory(root.entries, [])))
                || (result.error == EmptyTree && Safe(root.entries, true))
  {
    hide Inventory, Safe, WellNamed, Files, Nodes, Culprit;
    if !root.Directory? {
      return Failure(NotARealDirectory);
    }
    if Writable(root.meta.mode) {
      return Failure(WritableEntry);
    }
    var walked := Walk(root.entries, true);
    if walked.Failure? {
      NoFilesNoBytes(Inventory(root.entries, []));
      return walked;
    }
    if walked.value.fileCount == 0 {
      return Failure(EmptyTree);
    }
    result := Success(walked.value.(records := Ordered(walked.value.records)));
    OrderIrrelevant(root.entries, walked.value.records);
  }

  /** The inventory that the recovery script takes of the held tree. */
  method RecoveredTree(held: Node) returns (result: Result<Snapshot, Problem>)
    requires held.Directory?
    ensures result.Success? <==> Safe(held.entries, false)
    ensures result.Failure? ==> Culprit(Nodes(held.entries), false, result.error)
    ensures result.Success? && WellNamed(held.entries) ==> result.value == SnapshotOf(held.entries)
  {
    hide Inventory, Safe, WellNamed, Nodes, Culprit;
    result := Walk(held.entries, false);
    if result.Success? {
      OrderIrrelevant(held.entries, result.value.records);
      result := Success(result.value.(records := Ordered(result.value.records)));
    }
  }

  lemma {:induction false} NoFilesNoBytes(records: seq<Record>)
    ensures Files(records) == 0 ==> TotalBytes(records) == 0
    decreases |records|
  {
    if records != [] {
      NoFilesNoBytes(records[1..]);
    }
  }

  // ---------------------------------------------------------------- each entry once, in one order

  lemma {:induction false} PathsBelow(entries: seq<Entry>, at: Path, r: Record)
    requires WellNamed(entries) && PlainParts(at) && r in Inventory(entries, at)
    ensures |r.path| > |at| && r.path[..|at|] == at && PlainParts(r.path)
    ensures exists e :: e in entries && r.path[|at|] == e.name
    decreases entries
  {
    InventoryFirst(entries, at);
    var e := entries[0];
    var under := at + [e.name];
    if r == RecordOf(e, at) {
      assert under[..|at|] == at && under[|at|] == e.name;
    } else if r in Inventory(SubEntries(e.node), under) {
      if e.node.Directory? {
        PathsBelow(e.node.entries, under, r);
        assert r.path[..|at|] == r.path[..|under|][..|at|] == at && r.path[|at|] == r.path[..|under|][|at|];
      }
    } else {
      PathsBelow(entries[1..], at, r);
      var f :| f in entries[1..] && r.path[|at|] == f.name;
      assert f in entries;
    }
  }

  /** Records with the same path are the same record. */
  lemma {:induction false} PathsDistinct(entries: seq<Entry>, at: Path, r: Record, q: Record)
    requires WellNamed(entries) && PlainParts(at) && r in Inventory(entries, at) && q in Inventory(entries, at) && r.path == q.path
    ensures r == q
    decreases entries
  {
    InventoryFirst(entries, at);
    var e := entries[0];
    var under := at + [e.name];
    var below, others := Inventory(SubEntries(e.node), under), Inventory(entries[1..], at);
    PathsBelow(entries, at, r);
    if r.path[|at|] == e.name {
      FromFirst(entries, at, r);
      FromFirst(entries, at, q);
      if r in below {
        PathsBelow(SubEntries(e.node), under, r);
      }
      if q in below {
        PathsBelow(SubEntries(e.node), under, q);
      }
      if r in below && q in below {
        PathsDistinct(e.node.entries, under, r, q);
      }
    } else {
      NotFromFirst(entries, at, r);
      NotFromFirst(entries, at, q);
      PathsDistinct(entries[1..], at, r, q);
    }
  }

  lemma FromFirst(entries: seq<Entry>, at: Path, r: Record)
    requires entries != [] && WellNamed(entries) && PlainParts(at) && r in Inventory(entries, at)
    requires |r.path| > |at| && r.path[|at|] == entries[0].name
    ensures r == RecordOf(entries[0], at) || r in Inventory(SubEntries(entries[0].node), at + [entries[0].name])
    ensures WellNamed(SubEntries(entries[0].node))
  {
    InventoryFirst(entries, at);
    if r in Inventory(entries[1..], at) {
      PathsBelow(entries[1..], at, r);
    }
  }

  lemma BelowStarts(sub: seq<Entry>, under: Path, r: Record)
    requires WellNamed(sub) && PlainParts(under) && under != []
    ensures r in Inventory(sub, under) ==> |r.path| > |under| && r.path[|under| - 1] == under[|under| - 1]
  {
    if r in Inventory(sub, under) {
      PathsBelow(sub, under, r);
      assert r.path[..|under|][|under| - 1] == r.path[|under| - 1];
    }
  }

  lemma NotFromFirst(entries: seq<Entry>, at: Path, r: Record)
    requires entries != [] && WellNamed(entries) && PlainParts(at) && r in Inventory(entries, at)
    requires |r.path| > |at| && r.path[|at|] != entries[0].name
    ensures r in Inventory(entries[1..], at)
  {
    InventoryFirst(entries, at);
    BelowStarts(SubEntries(entries[0].node), at + [entries[0].name], r);
  }

  /** Whatever order the records were made in, they sort into the same list. */
  lemma OrderIrrelevant(entries: seq<Entry>, records: seq<Record>)
    requires multiset(records) == multiset(Inventory(entries, []))
    ensures WellNamed(entries) ==> Ordered(records) == Ordered(Inventory(entries, []))
  {
    hide Inventory, WellNamed, SortBy, PathText;
    if WellNamed(entries) {
      var all := Inventory(entries, []);
      SortBySorted(records, PathKey);
      SortBySorted(all, PathKey);
      forall a, b | a in Ordered(records) && b in Ordered(records) && PathKey(a) == PathKey(b) ensures a == b {
        assert a in multiset(Ordered(records)) && b in multiset(Ordered(records));
        assert a in multiset(all) && b in multiset(all);
        PathsBelow(entries, [], a);
        PathsBelow(entries, [], b);
        PathTextInjective(a.path, b.path);
        PathsDistinct(entries, [], a, b);
      }
      SortedIsUnique(Ordered(records), Ordered(all), PathKey);
    }
  }

  /** The records of one entry and everything under it. */
  function RecordsOf(e: Entry, at: Path): seq<Record> {
    [RecordOf(e, at)] + Inventory(SubEntries(e.node), at + [e.name])
  }

  lemma InventoryCounts(e: Entry, rest: seq<Entry>, at: Path)
    ensures multiset(Inventory([e] + rest, at)) == multiset(RecordsOf(e, at)) + multiset(Inventory(rest, at))
  {
    InventoryFirst([e] + rest, at);
    assert ([e] + rest)[1..] == rest;
  }

  lemma CutOne<T>(s: seq<T>, i: nat)
    requires i < |s|
    ensures s == s[..i] + [s[i]] + s[i + 1..]
    ensures multiset(s[..i] + s[i + 1..]) == multiset(s) - multiset{s[i]}
  {
    assert s == s[..i] + [s[i]] + s[i + 1..];
  }

  lemma FindSame<T>(a: seq<T>, b: seq<T>) returns (i: nat)
    requires multiset(a) == multiset(b) && a != []
    ensures i < |b| && b[i] == a[0] && multiset(a[1..]) == multiset(b[..i] + b[i + 1..])
  {
    assert a[0] in multiset(b);
    i :| 0 <= i < |b| && b[i] == a[0];
    CutOne(a, 0);
    CutOne(b, i);
    assert a[..0] + a[1..] == a[1..];
  }

  lemma SameEmpty<T>(b: seq<T>)
    requires multiset(b) == multiset([])
    ensures b == []
  {
    assert |multiset(b)| == |b|;
  }

  /** The order in which a directory is listed does not change what is recorded. */
  lemma {:induction false} ListingOrder(a: seq<Entry>, b: seq<Entry>, at: Path)
    requires multiset(a) == multiset(b)
    ensures multiset(Inventory(a, at)) == multiset(Inventory(b, at))
    decreases |a|
  {
    hide Inventory, RecordsOf;
    if a == [] {
      SameEmpty(b);
    } else {
      var i := FindSame(a, b);
      ListingOrder(a[1..], b[..i] + b[i + 1..], at);
      Extracted(b, i, at);
      InventoryCounts(a[0], a[1..], at);
      assert [a[0]] + a[1..] == a;
    }
  }

  lemma {:induction false} Extracted(entries: seq<Entry>, i: nat, at: Path)
    requires i < |entries|
    ensures multiset(Inventory(entries, at)) == multiset(RecordsOf(entries[i], at)) + multiset(Inventory(entries[..i] + entries[i + 1..], at))
    decreases i
  {
    hide Inventory, RecordsOf;
    var e, more := entries[0], entries[1..];
    assert entries == [e] + more;
    InventoryCounts(e, more, at);
    if i == 0 {
      assert entries[..0] + entries[1..] == more;
    } else {
      var rest := more[..i - 1] + more[i..];
      assert entries[..i] + entries[i + 1..] == [e] + rest;
      Extracted(more, i - 1, at);
      InventoryCounts(e, rest, at);
    }
  }

  /** Count and bytes depend on the records only, not on their order. */
  lemma {:induction false} FilesSame(a: seq<Record>, b: seq<Record>)
    requires multiset(a) == multiset(b)
    ensures Files(a) == Files(b) && TotalBytes(a) == TotalBytes(b)
    decreases |a|
  {
    if a == [] {
      SameEmpty(b);
    } else {
      hide Files, TotalBytes;
      var i := FindSame(a, b);
      FilesSame(a[1..], b[..i] + b[i + 1..]);
      FilesAppend([a[0]], a[1..]);
      FilesAppend(b[..i], b[i + 1..]);
      FilesAppend(b[..i], [b[i]]);
      FilesAppend(b[..i] + [b[i]], b[i + 1..]);
      CutOne(b, i);
      assert [a[0]] + a[1..] == a;
    }
  }

  /** The recovery script accepts exactly what the snapshot recorded: same count, same bytes, same records. */
  lemma RecoveryAgrees(entries: seq<Entry>, held: seq<Entry>)
    requires WellNamed(entries) && WellNamed(held) && multiset(Inventory(held, [])) == multiset(Inventory(entries, []))
    ensures SnapshotOf(held) == SnapshotOf(entries)
    ensures Safe(entries, true) ==> Safe(entries, false)
  {
    FilesSame(Inventory(held, []), Inventory(entries, []));
    OrderIrrelevant(entries, Inventory(held, []));
    BoundedSafe(entries);
  }

  lemma {:induction false} BoundedSafe(entries: seq<Entry>)
    ensures Safe(entries, true) ==> Safe(entries, false)
    decreases entries
  {
    if entries != [] {
      if entries[0].node.Directory? {
        BoundedSafe(entries[0].node.entries);
      }
      BoundedSafe(entries[1..]);
    }
  }
}
