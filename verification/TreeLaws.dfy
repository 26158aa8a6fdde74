/**
 What the inventory of a tree holds, in terms of the paths of the tree: each reachable
 entry once, with its own identity and content, and exactly the trees that are refused.
 */
module TreeLaws {
  import opened Ranks
  import opened PathTexts
  import opened TreeInventory

  /** The path leads from the directory to the node. */
  ghost predicate Reaches(entries: seq<Entry>, path: Path, node: Node)
    decreases |path|
  {
    && path != []
    && exists e :: e in entries && e.name == path[0]
         && (if |path| == 1 then e.node == node else e.node.Directory? && Reaches(e.node.entries, path[1..], node))
  }

  /** The record is what is kept of the node. */
  predicate Describes(r: Record, node: Node) {
    && r.meta == node.meta
    && (if node.File? then r.kind == FileRecord(|node.content|, node.content) else r.kind == DirectoryRecord)
  }

  lemma ReachesSome(entries: seq<Entry>, e: Entry, path: Path, node: Node)
    requires path != [] && e in entries && e.name == path[0]
    requires if |path| == 1 then e.node == node else e.node.Directory? && Reaches(e.node.entries, path[1..], node)
    ensures Reaches(entries, path, node)
  {}

  /** The first entry leads to itself and to what lies under it; the others lead to the rest. */
  lemma ReachesFirst(entries: seq<Entry>, path: Path, node: Node)
    requires entries != []
    ensures Reaches(entries, path, node) <==>
              || (path == [entries[0].name] && node == entries[0].node)
              || (path != [] && path[0] == entries[0].name && Reaches(SubEntries(entries[0].node), path[1..], node))
              || Reaches(entries[1..], path, node)
  {
    var first := entries[0];
    assert entries == [first] + entries[1..];
    if Reaches(entries, path, node) {
      var e :| e in entries && e.name == path[0]
        && (if |path| == 1 then e.node == node else e.node.Directory? && Reaches(e.node.entries, path[1..], node));
      if e in entries[1..] {
        ReachesSome(entries[1..], e, path, node);
      } else if |path| == 1 {
        assert path == [first.name];
      }
    }
    if Reaches(entries[1..], path, node) {
      var e :| e in entries[1..] && e.name == path[0]
        && (if |path| == 1 then e.node == node else e.node.Directory? && Reaches(e.node.entries, path[1..], node));
      ReachesSome(entries, e, path, node);
    } else if path != [] && path[0] == first.name && Reaches(SubEntries(first.node), path[1..], node) {
      ReachesSome(entries, first, path, node);
    } else if path == [first.name] && node == first.node {
      ReachesSome(entries, first, path, node);
    }
  }

  /** The inventory records exactly what the tree holds: every reachable node under its path. */
  lemma {:induction false} InventoryLaw(entries: seq<Entry>, at: Path, r: Record)
    ensures r in Inventory(entries, at) <==>
              |at| <= |r.path| && r.path[..|at|] == at && exists node :: Reaches(entries, r.path[|at|..], node) && Describes(r, node)
    decreases entries
  {
    hide Reaches, Inventory, Safe, Nodes;
    if entries == [] {
      Unreached(r.path, at);
      NothingBelow(at, []);
    } else {
      var e := entries[0];
      var under := at + [e.name];
      InventoryFirst(entries, at);
      if e.node.Directory? {
        InventoryLaw(e.node.entries, under, r);
      } else {
        NothingBelow(under, []);
        Unreached(r.path, at);
      }
      InventoryLaw(entries[1..], at, r);
      assert RecordOf(e, at).path[..|at|] == at;
      assert |under| <= |r.path| && r.path[..|under|] == under ==> |at| <= |r.path| && r.path[..|at|] == r.path[..|under|][..|at|] == at;
      if |at| <= |r.path| && r.path[..|at|] == at {
        InventoryHere(entries, at, r);
      }
    }
  }

  lemma Unreached(path: Path, at: Path)
    ensures forall p: Path, node {:trigger Reaches([], p, node)} :: !Reaches([], p, node)
  {}

  lemma InventoryHere(entries: seq<Entry>, at: Path, r: Record)
    requires entries != [] && |at| <= |r.path| && r.path[..|at|] == at
    ensures var e, rel := entries[0], r.path[|at|..];
            var under := at + [e.name];
            (exists node :: Reaches(entries, rel, node) && Describes(r, node)) <==>
              || r == RecordOf(e, at)
              || (|under| <= |r.path| && r.path[..|under|] == under
                  && exists node :: Reaches(SubEntries(e.node), r.path[|under|..], node) && Describes(r, node))
              || (exists node :: Reaches(entries[1..], rel, node) && Describes(r, node))
  {
    hide Reaches;
    var e, rel := entries[0], r.path[|at|..];
    var under := at + [e.name];
    forall node ensures Reaches(entries, rel, node) <==>
              || (rel == [e.name] && node == e.node)
              || (rel != [] && rel[0] == e.name && Reaches(SubEntries(e.node), rel[1..], node))
              || Reaches(entries[1..], rel, node) {
      ReachesFirst(entries, rel, node);
    }
    assert r.path == at + rel;
    assert rel == [e.name] <==> r.path == under;
    assert r == RecordOf(e, at) <==> rel == [e.name] && Describes(r, e.node);
    if rel != [] {
      assert r.path[..|under|] == at + [rel[0]];
      assert rel[1..] == r.path[|under|..];
      assert rel[0] == e.name <==> r.path[..|under|] == under by {
        assert (at + [rel[0]])[|at|] == rel[0] && under[|at|] == e.name;
      }
    }
  }

  /** Different positions of the inventory have different paths. */
  ghost predicate PathsApart(records: seq<Record>) {
    forall i, j :: 0 <= i < j < |records| ==> records[i].path != records[j].path
  }

  lemma ApartJoined(xs: seq<Record>, ys: seq<Record>)
    requires PathsApart(xs) && PathsApart(ys)
    requires forall x, y :: x in xs && y in ys ==> x.path != y.path
    ensures PathsApart(xs + ys)
  {
    var zs := xs + ys;
    forall i, j | 0 <= i < j < |zs| ensures zs[i].path != zs[j].path {
      if i < |xs| <= j {
        assert zs[i] in xs && zs[j] in ys;
      } else if |xs| <= i {
        assert zs[i] == ys[i - |xs|] && zs[j] == ys[j - |xs|];
      }
    }
  }

  /** Nothing is recorded twice. */
  lemma {:induction false} EachOnce(entries: seq<Entry>, at: Path)
    requires WellNamed(entries) && PlainParts(at)
    ensures PathsApart(Inventory(entries, at))
    decreases entries
  {
    hide Inventory, Safe, Nodes, PathsApart;
    if entries == [] {
      Fewer([]);
      NothingBelow(at, []);
    } else {
      var e := entries[0];
      var under := at + [e.name];
      InventoryFirst(entries, at);
      var below, others := Inventory(SubEntries(e.node), under), Inventory(entries[1..], at);
      if e.node.Directory? {
        EachOnce(e.node.entries, under);
      } else {
        NothingBelow(under, []);
        Fewer([]);
      }
      EachOnce(entries[1..], at);
      Fewer([RecordOf(e, at)]);
      forall x, y | x in [RecordOf(e, at)] && y in below ensures x.path != y.path {
        PathsBelow(SubEntries(e.node), under, y);
      }
      ApartJoined([RecordOf(e, at)], below);
      forall x, y | x in [RecordOf(e, at)] + below && y in others ensures x.path != y.path {
        FirstPaths(entries, at, x);
        PathsBelow(entries[1..], at, y);
      }
      ApartJoined([RecordOf(e, at)] + below, others);
    }
  }

  lemma Fewer(records: seq<Record>)
    requires |records| <= 1
    ensures PathsApart(records)
  {}

  lemma FirstPaths(entries: seq<Entry>, at: Path, x: Record)
    requires entries != [] && WellNamed(entries) && PlainParts(at)
    requires x in [RecordOf(entries[0], at)] + Inventory(SubEntries(entries[0].node), at + [entries[0].name])
    ensures |x.path| > |at| && x.path[|at|] == entries[0].name
  {
    hide Inventory;
    if x in Inventory(SubEntries(entries[0].node), at + [entries[0].name]) {
      BelowStarts(SubEntries(entries[0].node), at + [entries[0].name], x);
    }
  }

  // ---------------------------------------------------------------- what is refused

  lemma {:induction false} NodeReached(entries: seq<Entry>, node: Node) returns (path: Path)
    requires node in Nodes(entries)
    ensures Reaches(entries, path, node)
    decreases entries
  {
    var e := entries[0];
    if node == e.node {
      path := [e.name];
    } else if e.node.Directory? && node in Nodes(e.node.entries) {
      var under := NodeReached(e.node.entries, node);
      path := [e.name] + under;
      assert path[1..] == under;
    } else {
      path := NodeReached(entries[1..], node);
    }
    ReachesFirst(entries, path, node);
  }

  lemma {:induction false} ReachedNode(entries: seq<Entry>, path: Path, node: Node)
    requires Reaches(entries, path, node)
    ensures node in Nodes(entries)
    decreases entries
  {
    ReachesFirst(entries, path, node);
    var e := entries[0];
    if path == [e.name] && node == e.node {
    } else if path[0] == e.name && Reaches(SubEntries(e.node), path[1..], node) {
      ReachedNode(e.node.entries, path[1..], node);
    } else {
      ReachedNode(entries[1..], path, node);
    }
  }

  lemma {:induction false} SafeNodes(entries: seq<Entry>, bounded: bool)
    ensures Safe(entries, bounded) <==> forall node :: node in Nodes(entries) ==> Admissible(node, bounded)
    decreases entries
  {
    hide Admissible;
    if entries != [] {
      if entries[0].node.Directory? {
        SafeNodes(entries[0].node.entries, bounded);
      }
      SafeNodes(entries[1..], bounded);
      assert entries[0].node in Nodes(entries);
    }
  }

  /** The last two octal digits of the mode are the permissions of the group and of others: 2, 3, 6 and 7 may write. */
  lemma PermissionDigits(more: nat, group: nat, others: nat)
    requires group < 8 && others < 8
    ensures Writable(64 * more + 8 * group + others) <==> group in {2, 3, 6, 7} || others in {2, 3, 6, 7}
  {
    var mode := 64 * more + 8 * group + others;
    Sixteenth(mode, 4 * more + group / 2, 8 * (group % 2) + others);
    Half(mode, 32 * more + 4 * group + others / 2, others % 2);
    EvenMore(2 * more, group / 2);
    EvenMore(16 * more + 2 * group, others / 2);
    Halves(group);
    Halves(others);
  }

  lemma Sixteenth(n: nat, q: nat, r: nat)
    requires n == 16 * q + r && r < 16
    ensures n / 0x10 == q
  {}

  lemma Half(n: nat, q: nat, r: nat)
    requires n == 2 * q + r && r < 2
    ensures n / 0x02 == q
  {}

  lemma EvenMore(a: nat, b: nat)
    ensures (2 * a + b) % 2 == b % 2
  {}

  lemma Halves(digit: nat)
    requires digit < 8
    ensures digit / 2 % 2 == 1 <==> digit in {2, 3, 6, 7}
  {
    assert digit == 0 || digit == 1 || digit == 2 || digit == 3 || digit == 4 || digit == 5 || digit == 6 || digit == 7;
  }

  /** The problem is one that the node has, the first in the order of the tests. */
  predicate Has(node: Node, bounded: bool, problem: Problem) {
    match problem
    case SymlinkFound => node.Symlink?
    case WritableEntry => !node.Symlink? && Writable(node.meta.mode)
    case SpecialFile => node.Special? && !Writable(node.meta.mode)
    case FileTooLarge => bounded && node.File? && !Writable(node.meta.mode) && |node.content| > MAX_FILE_BYTES
    case _ => false
  }

  /** A node is refused exactly when it is a link, writable by another identity, special, or too large a file. */
  lemma RefusedIff(node: Node, bounded: bool, problem: Problem)
    ensures !Admissible(node, bounded) && problem == Refusal(node) <==> Has(node, bounded, problem)
  {}

  lemma CulpritIs(nodes: set<Node>, node: Node, bounded: bool, problem: Problem)
    requires node in nodes && !Admissible(node, bounded) && problem == Refusal(node)
    ensures Culprit(nodes, bounded, problem)
  {}

  lemma CulpritReached(entries: seq<Entry>, bounded: bool, problem: Problem) returns (path: Path, node: Node)
    requires Culprit(Nodes(entries), bounded, problem)
    ensures Reaches(entries, path, node) && Has(node, bounded, problem)
  {
    node :| node in Nodes(entries) && !Admissible(node, bounded) && problem == Refusal(node);
    path := NodeReached(entries, node);
    RefusedIff(node, bounded, problem);
  }

  /** A refusal names a problem that some reachable node has. */
  lemma CulpritLaw(entries: seq<Entry>, bounded: bool, problem: Problem)
    ensures Culprit(Nodes(entries), bounded, problem) <==> exists path, node :: Reaches(entries, path, node) && Has(node, bounded, problem)
  {
    hide Culprit, Nodes, Has;
    if Culprit(Nodes(entries), bounded, problem) {
      var path, node := CulpritReached(entries, bounded, problem);
      assert Reaches(entries, path, node) && Has(node, bounded, problem);
      assert exists path, node :: Reaches(entries, path, node) && Has(node, bounded, problem);
    }
    forall path, node | Reaches(entries, path, node) && Has(node, bounded, problem) ensures Culprit(Nodes(entries), bounded, problem) {
      ReachedNode(entries, path, node);
      RefusedIff(node, bounded, problem);
      CulpritIs(Nodes(entries), node, bounded, problem);
    }
    assert (exists path, node :: Reaches(entries, path, node) && Has(node, bounded, problem)) ==> Culprit(Nodes(entries), bounded, problem);
  }

  /** A walk may record everything exactly when no reachable node has a problem. */
  lemma SafeLaw(entries: seq<Entry>, bounded: bool)
    ensures Safe(entries, bounded) <==> forall path, node, problem :: Reaches(entries, path, node) ==> !Has(node, bounded, problem)
  {
    hide Safe, Nodes, Has, Culprit, Reaches;
    SafeNodes(entries, bounded);
    if Safe(entries, bounded) {
      forall path, node, problem | Reaches(entries, path, node) ensures !Has(node, bounded, problem) {
        ReachedNode(entries, path, node);
        RefusedIff(node, bounded, problem);
      }
    } else {
      var culprit :| culprit in Nodes(entries) && !Admissible(culprit, bounded);
      CulpritIs(Nodes(entries), culprit, bounded, Refusal(culprit));
      var path, node := CulpritReached(entries, bounded, Refusal(culprit));
      assert !(Reaches(entries, path, node) ==> !Has(node, bounded, Refusal(culprit)));
    }
  }

  // ---------------------------------------------------------------- count, bytes and order

  /** The contents of all recorded files one after another. */
  function Contents(records: seq<Record>): Bytes {
    if records == [] then [] else (if records[0].kind.FileRecord? then records[0].kind.content else []) + Contents(records[1..])
  }

  /** The positions of the files among the first records. */
  ghost function FilePlaces(records: seq<Record>): set<int> {
    set i | 0 <= i < |records| && records[i].kind.FileRecord?
  }

  lemma PlacesLast(records: seq<Record>, r: Record)
    ensures |FilePlaces(records + [r])| == |FilePlaces(records)| + (if r.kind.FileRecord? then 1 else 0)
  {
    var more := records + [r];
    assert FilePlaces(more) == FilePlaces(records) + (if r.kind.FileRecord? then {|records|} else {});
  }

  /** The two counters of an inventory count its files and the bytes in them. */
  lemma {:induction false} CountersLaw(records: seq<Record>)
    requires forall r :: r in records && r.kind.FileRecord? ==> r.kind.size == |r.kind.content|
    ensures Files(records) == |FilePlaces(records)| && TotalBytes(records) == |Contents(records)|
    decreases |records|
  {
    if records != [] {
      var n := |records| - 1;
      var r := records[n];
      assert records == records[..n] + [r] && r in records;
      CountersLaw(records[..n]);
      PlacesLast(records[..n], r);
      FilesAppend(records[..n], [r]);
      FilesOne(r);
      ContentsLast(records[..n], r);
    }
  }

  lemma {:induction false} ContentsLast(records: seq<Record>, r: Record)
    ensures |Contents(records + [r])| == |Contents(records)| + (if r.kind.FileRecord? then |r.kind.content| else 0)
    decreases |records|
  {
    if records == [] {
      assert records + [r] == [r] && [r][1..] == [];
      assert Contents([r][1..]) == [];
    } else {
      assert (records + [r])[0] == records[0] && (records + [r])[1..] == records[1..] + [r];
      ContentsLast(records[1..], r);
    }
  }

  /**
   A snapshot, in terms of the tree alone: a record for every reachable node and for nothing
   else, each once, in the order of the path texts, with the number of files and their bytes.
   */
  lemma SnapshotLaw(entries: seq<Entry>)
    requires WellNamed(entries)
    ensures var s := SnapshotOf(entries);
            && (forall r :: r in s.records <==> exists node :: Reaches(entries, r.path, node) && Describes(r, node))
            && PathsApart(s.records)
            && (forall i, j :: 0 <= i < j < |s.records| ==> StringLe(PathText(s.records[i].path), PathText(s.records[j].path)))
            && s.fileCount == |FilePlaces(s.records)| && s.totalBytes == |Contents(s.records)|
  {
    hide Inventory, WellNamed, SortBy, PathText, Reaches, StringLe;
    var all, sorted := Inventory(entries, []), Ordered(Inventory(entries, []));
    SortBySorted(all, PathKey);
    forall r ensures r in sorted <==> exists node :: Reaches(entries, r.path, node) && Describes(r, node) {
      InventoryLaw(entries, [], r);
      assert r in sorted <==> r in multiset(sorted);
      assert r in all <==> r in multiset(all);
      assert r.path[..0] == [] && r.path[0..] == r.path;
    }
    EachOnce(entries, []);
    ApartKept(all, sorted);
    FilesSame(all, sorted);
    forall r | r in sorted && r.kind.FileRecord? ensures r.kind.size == |r.kind.content| {
      var node :| Reaches(entries, r.path, node) && Describes(r, node);
    }
    CountersLaw(sorted);
    forall i, j | 0 <= i < j < |sorted| ensures StringLe(PathText(sorted[i].path), PathText(sorted[j].path)) {
      assert RankLe(PathKey(sorted[i]), PathKey(sorted[j]));
    }
  }

  /** Distinct paths stay distinct in any order. */
  lemma ApartKept(a: seq<Record>, b: seq<Record>)
    requires PathsApart(a) && multiset(a) == multiset(b)
    ensures PathsApart(b)
  {
    forall i, j | 0 <= i < j < |b| ensures b[i].path != b[j].path {
      assert b[i] in multiset(a) && b[j] in multiset(a);
      var m :| 0 <= m < |a| && a[m] == b[i];
      var n :| 0 <= n < |a| && a[n] == b[j];
      if b[i].path == b[j].path {
        assert m == n;
        TwiceThere(b, i, j);
        OnceThere(a, m);
        assert false;
      }
    }
  }

  lemma TwiceThere<T>(s: seq<T>, i: nat, j: nat)
    requires i < j < |s| && s[i] == s[j]
    ensures multiset(s)[s[i]] >= 2
  {
    assert s == s[..j] + [s[j]] + s[j + 1..];
    assert s[..j][i] == s[i] && s[i] in s[..j];
  }

  lemma OnceThere(a: seq<Record>, m: nat)
    requires PathsApart(a) && m < |a|
    ensures multiset(a)[a[m]] == 1
  {
    assert a == a[..m] + [a[m]] + a[m + 1..];
    assert a[m] !in a[..m] && a[m] !in a[m + 1..];
  }
}
