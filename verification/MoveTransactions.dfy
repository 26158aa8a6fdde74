/**
 All-or-nothing changes over lists of files: the target moves of
 scripts/remove_legacy_local_package.py with its embedded recovery, and the unit writes of
 scripts/install_legacy_health_bridge_units.py.
 */
module MoveTransactions {
  import opened Wrappers

  datatype Pair = Pair(source: string, target: string)

  /** Sources and targets are all different places. */
  predicate Apart(pairs: seq<Pair>) {
    && (forall i, j :: 0 <= i < j < |pairs| ==> pairs[i].source != pairs[j].source && pairs[i].target != pairs[j].target)
    && (forall i, j :: 0 <= i < |pairs| && 0 <= j < |pairs| ==> pairs[i].source != pairs[j].target)
  }

  /** Where a place stands once the pairs in `done` are moved. */
  ghost predicate PlaceMoved<C>(x: string, m: map<string, C>, files: map<string, C>, pairs: seq<Pair>, done: set<nat>) {
    && (forall i: nat :: i in done && i < |pairs| && x == pairs[i].source ==> x !in m)
    && (forall i: nat :: i in done && i < |pairs| && x == pairs[i].target ==>
          pairs[i].source in files && x in m && m[x] == files[pairs[i].source])
    && ((forall i: nat :: i in done && i < |pairs| ==> x != pairs[i].source && x != pairs[i].target) ==>
          (x in m <==> x in files) && (x in m ==> m[x] == files[x]))
  }

  /** The files are `files` with exactly the pairs in `done` moved. */
  ghost predicate IsMoved<C>(m: map<string, C>, files: map<string, C>, pairs: seq<Pair>, done: set<nat>) {
    forall x: string {:trigger PlaceMoved(x, m, files, pairs, done)} :: PlaceMoved(x, m, files, pairs, done)
  }

  predicate Before(i: nat, n: nat) {
    i < n
  }

  /** The first `n` positions. */
  function FirstOnes(n: nat): (r: set<nat>)
    ensures forall i: nat :: i in r <==> i < n
  {
    set i: nat | i < n && Before(i, n)
  }

  /** A rename; the file at the new place, if any, is replaced. */
  function Renamed<C>(m: map<string, C>, a: string, b: string): map<string, C>
    requires a in m
  {
    (m - {a})[b := m[a]]
  }

  lemma PlaceIs<C>(x: string, m: map<string, C>, files: map<string, C>, pairs: seq<Pair>, done: set<nat>)
    requires IsMoved(m, files, pairs, done)
    ensures PlaceMoved(x, m, files, pairs, done)
  {
    hide PlaceMoved;
  }

  lemma MoveOne<C>(m: map<string, C>, files: map<string, C>, pairs: seq<Pair>, done: set<nat>, i: nat)
    requires IsMoved(m, files, pairs, done) && Apart(pairs) && i < |pairs| && i !in done && pairs[i].source in m
    requires forall j :: 0 <= j < |pairs| ==> pairs[j].target !in files
    ensures IsMoved(Renamed(m, pairs[i].source, pairs[i].target), files, pairs, done + {i})
  {
    var n := Renamed(m, pairs[i].source, pairs[i].target);
    assert PlaceMoved(pairs[i].source, m, files, pairs, done);
    forall x: string ensures PlaceMoved(x, n, files, pairs, done + {i}) {
      assert PlaceMoved(x, m, files, pairs, done);
    }
  }

  lemma MoveBackOne<C>(m: map<string, C>, files: map<string, C>, pairs: seq<Pair>, done: set<nat>, i: nat)
    requires IsMoved(m, files, pairs, done) && Apart(pairs) && i < |pairs| && i in done
    requires forall j :: 0 <= j < |pairs| ==> pairs[j].target !in files
    ensures pairs[i].target in m && pairs[i].source !in m
    ensures IsMoved(Renamed(m, pairs[i].target, pairs[i].source), files, pairs, done - {i})
  {
    assert PlaceMoved(pairs[i].target, m, files, pairs, done) && PlaceMoved(pairs[i].source, m, files, pairs, done);
    var n := Renamed(m, pairs[i].target, pairs[i].source);
    forall x: string ensures PlaceMoved(x, n, files, pairs, done - {i}) {
      assert PlaceMoved(x, m, files, pairs, done);
    }
  }

  /** What is moved determines the files; with nothing moved they are as they were. */
  lemma MovedUnique<C>(m: map<string, C>, n: map<string, C>, files: map<string, C>, pairs: seq<Pair>, done: set<nat>)
    requires IsMoved(m, files, pairs, done) && IsMoved(n, files, pairs, done)
    ensures m == n
  {
    forall x: string ensures (x in m <==> x in n) && (x in m ==> m[x] == n[x]) {
      assert PlaceMoved(x, m, files, pairs, done) && PlaceMoved(x, n, files, pairs, done);
    }
  }

  lemma NothingMoved<C>(m: map<string, C>, files: map<string, C>, pairs: seq<Pair>)
    ensures IsMoved(m, files, pairs, {}) <==> m == files
  {
    forall x: string ensures PlaceMoved(x, files, files, pairs, {}) {}
    if IsMoved(m, files, pairs, {}) {
      MovedUnique(m, files, files, pairs, {});
    }
  }

  /** The step at which a list of moves stops: the first that the system refuses or whose file is missing. */
  predicate Stops<C>(files: map<string, C>, pairs: seq<Pair>, faults: set<nat>, i: nat) {
    i < |pairs| && (i in faults || pairs[i].source !in files)
  }

  predicate FirstStop<C>(files: map<string, C>, pairs: seq<Pair>, faults: set<nat>, n: nat) {
    Stops(files, pairs, faults, n) && forall i: nat :: i < n ==> !Stops(files, pairs, faults, i)
  }

  datatype Outcome = Moved | RolledBack | Stuck(left: nat)

  /** The undo of the first `n` moves, last first: it ends early at the last of them that cannot be moved back. */
  predicate Undo(outcome: Outcome, n: nat, undoFaults: set<nat>) {
    match outcome
    case Moved => false
    case RolledBack => forall i: nat :: i < n ==> i !in undoFaults
    case Stuck(left) => 0 < left <= n && left - 1 in undoFaults && forall i: nat :: left <= i < n ==> i !in undoFaults
  }

  class Store<C> {
    var files: map<string, C>

    constructor (files: map<string, C>)
      ensures this.files == files
    {
      this.files := files;
    }

    /** Moves every source to its target; on a failure moves back, last first, until that fails too. */
    method MoveTargets(pairs: seq<Pair>, faults: set<nat>, undoFaults: set<nat>) returns (outcome: Outcome)
      requires Apart(pairs) && forall i :: 0 <= i < |pairs| ==> pairs[i].target !in files
      modifies this
      ensures outcome.Moved? <==> forall i: nat :: !Stops(old(files), pairs, faults, i)
      ensures outcome.Moved? ==> IsMoved(files, old(files), pairs, FirstOnes(|pairs|))
      ensures !outcome.Moved? ==> exists n: nat :: FirstStop(old(files), pairs, faults, n) && Undo(outcome, n, undoFaults)
      ensures outcome.RolledBack? ==> files == old(files)
      ensures outcome.Stuck? ==> IsMoved(files, old(files), pairs, FirstOnes(outcome.left))
    {
      NothingMoved(files, files, pairs);
      assert FirstOnes(0) == {};
      var moved := 0;
      while moved < |pairs|
        invariant 0 <= moved <= |pairs| && IsMoved(files, old(files), pairs, FirstOnes(moved))
        invariant forall i: nat :: i < moved ==> !Stops(old(files), pairs, faults, i)
      {
        SourceStill(files, old(files), pairs, moved);
        if moved in faults || pairs[moved].source !in files {
          assert FirstStop(old(files), pairs, faults, moved);
          outcome := MoveBack(pairs, moved, undoFaults, old(files));
          return;
        }
        MoveOne(files, old(files), pairs, FirstOnes(moved), moved);
        assert FirstOnes(moved) + {moved} == FirstOnes(moved + 1);
        files := Renamed(files, pairs[moved].source, pairs[moved].target);
        moved := moved + 1;
      }
      outcome := Moved;
    }

    method MoveBack(pairs: seq<Pair>, moved: nat, undoFaults: set<nat>, ghost before: map<string, C>) returns (outcome: Outcome)
      requires Apart(pairs) && moved <= |pairs| && IsMoved(files, before, pairs, FirstOnes(moved))
      requires forall i :: 0 <= i < |pairs| ==> pairs[i].target !in before
      modifies this
      ensures Undo(outcome, moved, undoFaults)
      ensures outcome.RolledBack? ==> files == before
      ensures outcome.Stuck? ==> IsMoved(files, before, pairs, FirstOnes(outcome.left))
    {
      var left := moved;
      while left > 0
        invariant 0 <= left <= moved && IsMoved(files, before, pairs, FirstOnes(left))
        invariant forall i: nat :: left <= i < moved ==> i !in undoFaults
      {
        if left - 1 in undoFaults {
          return Stuck(left);
        }
        MoveBackOne(files, before, pairs, FirstOnes(left), left - 1);
        assert FirstOnes(left) - {left - 1} == FirstOnes(left - 1);
        files := Renamed(files, pairs[left - 1].target, pairs[left - 1].source);
        left := left - 1;
      }
      assert FirstOnes(0) == {};
      NothingMoved(files, before, pairs);
      outcome := RolledBack;
    }

    /** Restores what it can, last first, and reports what it could not. */
    method RestoreTargets(pairs: seq<Pair>, faults: set<nat>, ghost before: map<string, C>) returns (errors: seq<nat>)
      requires Apart(pairs) && IsMoved(files, before, pairs, FirstOnes(|pairs|))
      requires forall i :: 0 <= i < |pairs| ==> pairs[i].target !in before
      modifies this
      ensures IsMoved(files, before, pairs, FirstOnes(|pairs|) * faults)
      ensures forall i: nat :: i in errors <==> i < |pairs| && i in faults
      ensures forall i, j :: 0 <= i < j < |errors| ==> errors[i] > errors[j]
      ensures errors == [] ==> files == before
    {
      errors := [];
      var i := |pairs|;
      ghost var done := FirstOnes(|pairs|);
      while i > 0
        invariant 0 <= i <= |pairs| && IsMoved(files, before, pairs, done)
        invariant done == set j: nat | j in FirstOnes(|pairs|) && (j < i || j in faults)
        invariant forall j: nat :: j in errors <==> i <= j < |pairs| && j in faults
        invariant forall k :: 0 <= k < |errors| ==> errors[k] >= i
        invariant forall j, k :: 0 <= j < k < |errors| ==> errors[j] > errors[k]
      {
        i := i - 1;
        if i in faults {
          errors := errors + [i];
        } else {
          MoveBackOne(files, before, pairs, done, i);
          files := Renamed(files, pairs[i].target, pairs[i].source);
          done := done - {i};
        }
      }
      assert done == FirstOnes(|pairs|) * faults;
      if errors == [] {
        assert forall j: nat :: j in done ==> j in errors;
        assert done == {};
        NothingMoved(files, before, pairs);
      }
    }

    /**
     The embedded recovery script: refused unless every live place is free and every
     quarantined one is there, else the same moves the other way round.
     */
    method RecoverQuarantined(pairs: seq<Pair>, faults: set<nat>, undoFaults: set<nat>) returns (outcome: Option<Outcome>)
      requires Apart(pairs)
      modifies this
      ensures outcome.Some? <==> Quarantined(old(files), pairs)
      ensures outcome.None? || outcome.value.RolledBack? ==> files == old(files)
      ensures outcome.Some? ==> (outcome.value.Moved? <==> forall i: nat :: i < |pairs| ==> i !in faults)
      ensures outcome.Some? && !outcome.value.Moved? ==>
                exists n: nat :: n < |pairs| && n in faults && (forall i: nat :: i < n ==> i !in faults) && Undo(outcome.value, n, undoFaults)
      ensures outcome == Some(Moved) ==> IsMoved(files, old(files), Swapped(pairs), FirstOnes(|pairs|))
      ensures outcome.Some? && outcome.value.Stuck? ==>
                IsMoved(files, old(files), Swapped(pairs), FirstOnes(outcome.value.left))
    {
      var i := 0;
      while i < |pairs|
        invariant 0 <= i <= |pairs| && files == old(files)
        invariant forall j :: 0 <= j < i ==> pairs[j].source !in files && pairs[j].target in files
      {
        if pairs[i].source in files || pairs[i].target !in files {
          return None;
        }
        i := i + 1;
      }
      var back := Swapped(pairs);
      assert forall k :: 0 <= k < |back| ==> back[k].target == pairs[k].source;
      forall k: nat ensures Stops(files, back, faults, k) <==> k < |pairs| && k in faults {}
      var moved := MoveTargets(back, faults, undoFaults);
      outcome := Some(moved);
    }
  }

  function Swapped(pairs: seq<Pair>): (r: seq<Pair>)
    ensures |r| == |pairs| && forall i :: 0 <= i < |r| ==> r[i] == Pair(pairs[i].target, pairs[i].source)
  {
    seq(|pairs|, i requires 0 <= i < |pairs| => Pair(pairs[i].target, pairs[i].source))
  }

  predicate Quarantined<C>(files: map<string, C>, pairs: seq<Pair>) {
    forall i :: 0 <= i < |pairs| ==> pairs[i].source !in files && pairs[i].target in files
  }

  /** The recovery script undoes completed target moves: afterwards the files are exactly those before. */
  lemma RecoveryInverts<C>(before: map<string, C>, quarantined: map<string, C>, after: map<string, C>, pairs: seq<Pair>)
    requires Apart(pairs) && IsMoved(quarantined, before, pairs, FirstOnes(|pairs|))
    requires forall i :: 0 <= i < |pairs| ==> pairs[i].target !in before
    requires IsMoved(after, quarantined, Swapped(pairs), FirstOnes(|pairs|))
    ensures Quarantined(quarantined, pairs) && after == before
  {
    hide IsMoved;
    forall i | 0 <= i < |pairs| ensures pairs[i].source !in quarantined && pairs[i].target in quarantined {
      SourceBack(before, quarantined, after, pairs, i);
    }
    forall x: string ensures (x in after <==> x in before) && (x in after ==> after[x] == before[x]) {
      if i :| 0 <= i < |pairs| && x == pairs[i].source {
        SourceBack(before, quarantined, after, pairs, i);
      } else if i :| 0 <= i < |pairs| && x == pairs[i].target {
        TargetGone(before, quarantined, after, pairs, i);
      } else {
        OthersStay(before, quarantined, after, pairs, x);
      }
    }
  }

  lemma SourceBack<C>(before: map<string, C>, quarantined: map<string, C>, after: map<string, C>, pairs: seq<Pair>, i: nat)
    requires IsMoved(quarantined, before, pairs, FirstOnes(|pairs|)) && IsMoved(after, quarantined, Swapped(pairs), FirstOnes(|pairs|))
    requires i < |pairs|
    ensures pairs[i].source !in quarantined && pairs[i].target in quarantined
    ensures pairs[i].source in before && pairs[i].source in after && after[pairs[i].source] == before[pairs[i].source]
  {
    hide IsMoved;
    PlaceIs(pairs[i].source, quarantined, before, pairs, FirstOnes(|pairs|));
    PlaceIs(pairs[i].target, quarantined, before, pairs, FirstOnes(|pairs|));
    PlaceIs(pairs[i].source, after, quarantined, Swapped(pairs), FirstOnes(|pairs|));
    assert Swapped(pairs)[i] == Pair(pairs[i].target, pairs[i].source);
  }

  lemma TargetGone<C>(before: map<string, C>, quarantined: map<string, C>, after: map<string, C>, pairs: seq<Pair>, i: nat)
    requires IsMoved(after, quarantined, Swapped(pairs), FirstOnes(|pairs|)) && i < |pairs|
    ensures pairs[i].target !in after
  {
    hide IsMoved;
    PlaceIs(pairs[i].target, after, quarantined, Swapped(pairs), FirstOnes(|pairs|));
    assert Swapped(pairs)[i].source == pairs[i].target;
  }

  lemma OthersStay<C>(before: map<string, C>, quarantined: map<string, C>, after: map<string, C>, pairs: seq<Pair>, x: string)
    requires IsMoved(quarantined, before, pairs, FirstOnes(|pairs|)) && IsMoved(after, quarantined, Swapped(pairs), FirstOnes(|pairs|))
    requires forall i :: 0 <= i < |pairs| ==> x != pairs[i].source && x != pairs[i].target
    ensures (x in after <==> x in before) && (x in after ==> after[x] == before[x])
  {
    hide IsMoved;
    PlaceIs(x, quarantined, before, pairs, FirstOnes(|pairs|));
    PlaceIs(x, after, quarantined, Swapped(pairs), FirstOnes(|pairs|));
  }

  lemma SourceStill<C>(m: map<string, C>, files: map<string, C>, pairs: seq<Pair>, i: nat)
    requires IsMoved(m, files, pairs, FirstOnes(i)) && Apart(pairs) && i < |pairs|
    ensures pairs[i].source in m <==> pairs[i].source in files
  {
    assert PlaceMoved(pairs[i].source, m, files, pairs, FirstOnes(i));
  }

  // ---------------------------------------------------------------- unit files

  datatype UnitFile = UnitFile(data: string, mode: nat, uid: nat, gid: nat)

  /** A unit file as it is installed: mode 0644, owned by root. */
  function Installed(data: string): UnitFile {
    UnitFile(data, 0x1A4, 0, 0)
  }

  predicate Matches(files: map<string, UnitFile>, path: string, data: string) {
    path in files && files[path] == Installed(data)
  }

  /** An installed unit has its template's text, is owned by root, and only root may write it, as everyone may read it. */
  lemma MatchesIff(files: map<string, UnitFile>, path: string, data: string)
    ensures Matches(files, path, data) <==>
              path in files && files[path].data == data && files[path].uid == 0 && files[path].gid == 0 && files[path].mode == 6 * 64 + 4 * 8 + 4
  {}

  datatype Installation = Done | NothingToDo | Refused | Undone | UndoIncomplete

  predicate SameAt(x: string, m: map<string, UnitFile>, files: map<string, UnitFile>) {
    (x in m <==> x in files) && (x in m ==> m[x] == files[x])
  }

  predicate UnitPath(x: string, units: seq<(string, string)>, from: nat, to: nat)
    requires to <= |units|
  {
    exists i :: from <= i < to && units[i].0 == x
  }

  /** The first units of the list are installed and nothing else changed. */
  ghost predicate Written(m: map<string, UnitFile>, files: map<string, UnitFile>, units: seq<(string, string)>, n: nat) {
    && n <= |units|
    && (forall i :: 0 <= i < n ==> Matches(m, units[i].0, units[i].1))
    && (forall x: string {:trigger SameAt(x, m, files)} :: !UnitPath(x, units, 0, n) ==> SameAt(x, m, files))
  }

  ghost predicate DistinctPaths(units: seq<(string, string)>) {
    forall i, j :: 0 <= i < j < |units| ==> units[i].0 != units[j].0
  }

  lemma WrittenOne(m: map<string, UnitFile>, files: map<string, UnitFile>, units: seq<(string, string)>, n: nat)
    requires Written(m, files, units, n) && DistinctPaths(units) && n < |units|
    ensures var (path, data) := units[n];
            Written(if Matches(files, path, data) then m else m[path := Installed(data)], files, units, n + 1)
  {
    var (path, data) := units[n];
    var k := if Matches(files, path, data) then m else m[path := Installed(data)];
    assert !UnitPath(path, units, 0, n);
    assert SameAt(path, m, files);
    forall x: string | !UnitPath(x, units, 0, n + 1) ensures SameAt(x, k, files) {
      assert units[n].0 == path && !UnitPath(x, units, 0, n) && SameAt(x, m, files);
    }
  }

  /** Some unit differs from its template. */
  predicate Differs(files: map<string, UnitFile>, units: seq<(string, string)>) {
    exists i :: 0 <= i < |units| && !Matches(files, units[i].0, units[i].1)
  }

  /** The fault strikes a unit that is to be written. */
  predicate WriteFails(files: map<string, UnitFile>, units: seq<(string, string)>, fault: Option<nat>) {
    fault.Some? && fault.value < |units| && !Matches(files, units[fault.value].0, units[fault.value].1)
  }

  /** The units before the one whose write fails are written. */
  function WrittenUpTo(files: map<string, UnitFile>, units: seq<(string, string)>, fault: Option<nat>): nat {
    if WriteFails(files, units, fault) then fault.value else |units|
  }

  class UnitDirectory {
    var files: map<string, UnitFile>

    constructor (files: map<string, UnitFile>)
      ensures this.files == files
    {
      this.files := files;
    }

    /**
     Writes the units that differ from their template.  `fault` is the unit whose write
     fails, `accepted` whether the checks at the end pass; after a failure `stubborn` are
     the paths that cannot be restored and `undoAccepted` is whether the last checks pass.
     */
    method InstallUnits(units: seq<(string, string)>, fault: Option<nat>, accepted: bool, stubborn: set<string>, undoAccepted: bool)
      returns (result: Installation)
      requires DistinctPaths(units)
      modifies this
      ensures result.NothingToDo? <==> !Differs(old(files), units) && accepted
      ensures result.Refused? <==> !Differs(old(files), units) && !accepted
      ensures result.Done? <==> Differs(old(files), units) && !WriteFails(old(files), units, fault) && accepted
      ensures result.Undone? <==>
                && Differs(old(files), units) && (WriteFails(old(files), units, fault) || !accepted)
                && undoAccepted && forall i :: 0 <= i < |units| ==> units[i].0 !in stubborn
      ensures result.NothingToDo? || result.Refused? || result.Undone? ==> files == old(files)
      ensures result.Done? ==> Written(files, old(files), units, |units|)
      ensures result.UndoIncomplete? ==> forall x: string {:trigger SameAt(x, files, old(files))} :: x !in stubborn ==> SameAt(x, files, old(files))
      ensures result.UndoIncomplete? ==> forall i :: 0 <= i < |units| && units[i].0 in stubborn ==>
                if i < WrittenUpTo(old(files), units, fault) then Matches(files, units[i].0, units[i].1) else SameAt(units[i].0, files, old(files))
    {
      var before := files;
      var anyChanged, i := false, 0;
      while i < |units|
        invariant 0 <= i <= |units| && files == before
        invariant anyChanged <==> exists j :: 0 <= j < i && !Matches(before, units[j].0, units[j].1)
      {
        if !Matches(files, units[i].0, units[i].1) { anyChanged := true; }
        i := i + 1;
      }
      if !anyChanged {
        return if accepted then NothingToDo else Refused;
      }
      i := 0;
      var failed := false;
      while i < |units| && !failed
        invariant 0 <= i <= |units| && Written(files, before, units, i)
        invariant failed ==> WriteFails(before, units, fault) && i == fault.value
        invariant !failed && WriteFails(before, units, fault) ==> i <= fault.value
        decreases |units| - i, !failed
      {
        WrittenOne(files, before, units, i);
        if Matches(before, units[i].0, units[i].1) {
          i := i + 1;
        } else if fault == Some(i) {
          failed := true;
        } else {
          files := files[units[i].0 := Installed(units[i].1)];
          i := i + 1;
        }
      }
      if !failed && accepted {
        return Done;
      }
      forall x: string | !UnitPath(x, units, 0, |units|) ensures SameAt(x, files, before) {
        assert !UnitPath(x, units, 0, i);
      }
      assert i == WrittenUpTo(before, units, fault);
      ghost var written := files;
      var errors := RestoreAll(units, before, stubborn);
      forall j | 0 <= j < |units| && units[j].0 in stubborn
        ensures if j < i then Matches(files, units[j].0, units[j].1) else SameAt(units[j].0, files, before) {
        assert SameAt(units[j].0, files, written);
        if j >= i {
          assert !UnitPath(units[j].0, units, 0, i);
          assert SameAt(units[j].0, written, before);
        }
      }
      result := if !errors && undoAccepted then Undone else UndoIncomplete;
    }

    /** Restores every path that can be restored; true when one could not. */
    method RestoreAll(units: seq<(string, string)>, before: map<string, UnitFile>, stubborn: set<string>) returns (errors: bool)
      requires forall x: string {:trigger SameAt(x, files, before)} :: !UnitPath(x, units, 0, |units|) ==> SameAt(x, files, before)
      modifies this
      ensures errors <==> exists i :: 0 <= i < |units| && units[i].0 in stubborn
      ensures !errors ==> files == before
      ensures forall x: string {:trigger SameAt(x, files, before)} :: x !in stubborn ==> SameAt(x, files, before)
      ensures forall x: string {:trigger SameAt(x, files, old(files))} :: x in stubborn ==> SameAt(x, files, old(files))
    {
      var i := 0;
      errors := false;
      while i < |units|
        invariant 0 <= i <= |units|
        invariant errors <==> exists j :: 0 <= j < i && units[j].0 in stubborn
        invariant forall x: string {:trigger SameAt(x, files, old(files))} :: x in stubborn ==> SameAt(x, files, old(files))
        invariant forall x: string {:trigger SameAt(x, files, before)} ::
                    (x !in stubborn || !UnitPath(x, units, 0, |units|)) && !UnitPath(x, units, i, |units|) ==> SameAt(x, files, before)
      {
        var path := units[i].0;
        ghost var earlier := files;
        if path in stubborn {
          errors := true;
        } else if path in before {
          files := files[path := before[path]];
        } else {
          files := files - {path};
        }
        forall x: string | (x !in stubborn || !UnitPath(x, units, 0, |units|)) && !UnitPath(x, units, i + 1, |units|)
          ensures SameAt(x, files, before)
        {
          if x != path {
            assert !UnitPath(x, units, i, |units|) && SameAt(x, earlier, before);
          } else {
            assert UnitPath(x, units, 0, |units|);
          }
        }
        forall x: string | x in stubborn ensures SameAt(x, files, old(files)) {
          assert SameAt(x, earlier, old(files));
        }
        i := i + 1;
      }
      if !errors {
        forall x: string ensures SameAt(x, files, before) {
          assert UnitPath(x, units, 0, |units|) ==> x !in stubborn;
        }
        forall x: string ensures (x in files <==> x in before) && (x in files ==> files[x] == before[x]) {
          assert SameAt(x, files, before);
        }
        assert files == before;
      }
    }
  }

  /** Installing twice is installing once: nothing differs any more, and the files stay exactly as they are. */
  lemma InstalledTwice(files: map<string, UnitFile>, once: map<string, UnitFile>, twice: map<string, UnitFile>, units: seq<(string, string)>)
    requires Written(once, files, units, |units|) && Written(twice, once, units, |units|)
    ensures !Differs(once, units) && twice == once
  {
    forall x: string ensures (x in twice <==> x in once) && (x in twice ==> twice[x] == once[x]) {
      if UnitPath(x, units, 0, |units|) {
        var i :| 0 <= i < |units| && units[i].0 == x;
        assert Matches(once, units[i].0, units[i].1) && Matches(twice, units[i].0, units[i].1);
      } else {
        assert SameAt(x, twice, once);
      }
    }
  }
}
