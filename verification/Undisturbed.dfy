/** What the two transactions achieve when nothing interferes: their scripts run to the end. */
module Undisturbed {
  import opened Wrappers
  import opened QuarantineLedger
  import opened LedgerLaws
  import opened ArchivedBatch
  import opened PoolFiles

  import LiveTransaction
  import LiveRuns
  import Promotion
  import PromotionRuns
  import PromotionLaws

  /** Files at the top of the tree, by name. */
  function FilesOf<C>(names: seq<string>, contents: map<string, C>): map<Rel, C>
    requires forall n :: n in names ==> n in contents
  {
    map k: Rel | k in NamePaths(names) :: contents[k[0]]
  }

  function Those<C>(names: seq<string>, contents: map<string, C>): map<string, C>
    requires forall n :: n in names ==> n in contents
  {
    map n | n in names :: contents[n]
  }

  lemma OneMorePath(names: seq<string>, k: nat)
    requires k < |names|
    ensures names[..k + 1] == names[..k] + [names[k]] && NamePaths(names[..k + 1]) == NamePaths(names[..k]) + {[names[k]]}
    ensures names[k..] == [names[k]] + names[k + 1..] && NamePaths(names[k..]) == {[names[k]]} + NamePaths(names[k + 1..])
  {
    assert forall n :: n in names[..k + 1] <==> n in names[..k] || n == names[k];
    assert forall n :: n in names[k..] <==> n == names[k] || n in names[k + 1..];
  }

  lemma PathOf(names: seq<string>, n: string)
    ensures [n] in NamePaths(names) <==> n in names
  {
    assert [n][0] == n;
    if [n] in NamePaths(names) {
      var c :| c in names && [c] == [n];
      assert [c][0] == n;
    }
  }

  lemma DistinctParts(names: seq<string>, k: nat)
    requires Distinct(names) && k < |names|
    ensures names[k] !in names[..k] && names[k] !in names[k + 1..]
  {}

  // ---------------------------------------------------------------- the promotion

  /** The baseline names that are held after `i` operations. */
  function HeldNames<C>(p: Promotion.Plan<C>, i: nat): seq<string> {
    var first := |p.imports| + 1;
    if first <= i <= first + |p.names| then p.names[..i - first]
    else if first + |p.names| < i <= first + |p.names| + |p.names| then p.names[i - first - |p.names|..]
    else []
  }

  function ImportedNames<C>(p: Promotion.Plan<C>, i: nat): seq<string> {
    if i <= |p.imports| then p.imports[..i] else p.imports
  }

  ghost predicate Promotes<C>(b: Ledger<C>, p: Promotion.Plan<C>) {
    PromotionRuns.Baseline(b, p) && Distinct(p.names)
  }

  lemma PlanHas<C>(b: Ledger<C>, p: Promotion.Plan<C>)
    requires Promotes(b, p)
    ensures (forall n :: n in p.names ==> n in p.baseline) && (forall n :: n in p.imports ==> n in p.contents)
    ensures forall n :: n in p.names ==> n !in p.imports
  {
    hide PromotionRuns.Baseline;
    forall n | n in p.names || n in p.imports ensures n in p.names ==> n in p.baseline && n !in p.imports
                                              ensures n in p.imports ==> n in p.contents {
      PromotionRuns.Apart(b, p, n);
    }
  }

  /** The auth tree with these imports in the pool and these baseline credentials out of it. */
  ghost function PoolWith<C>(b: Ledger<C>, p: Promotion.Plan<C>, imported: seq<string>, held: seq<string>): map<Rel, C>
    requires forall n :: n in imported ==> n in p.contents
  {
    (b.auth + FilesOf(imported, p.contents)) - NamePaths(held)
  }

  /** The promotion after `i` of its operations. */
  ghost function After<C>(b: Ledger<C>, p: Promotion.Plan<C>, i: nat): Promotion.World<C>
    requires Promotes(b, p)
  {
    PlanHas(b, p);
    Promotion.World(
      b.(auth := PoolWith(b, p, ImportedNames(p, i), HeldNames(p, i))),
      Those(HeldNames(p, i), p.baseline), map[], p.failure, map[], None, None,
      if i <= |p.imports| then {} else Promotion.ImportNames(p), {}, false, {},
      if i <= |p.imports| then Promotion.Prepared else if i < Promotion.Steps(p) then Promotion.Imported else Promotion.Accepted, i)
  }

  lemma NoneHeld<C>(b: Ledger<C>, p: Promotion.Plan<C>, imported: seq<string>)
    requires forall n :: n in imported ==> n in p.contents
    ensures PoolWith(b, p, imported, []) == b.auth + FilesOf(imported, p.contents)
  {
    assert NamePaths([]) == {};
  }

  lemma OneMoreImport<C>(b: Ledger<C>, p: Promotion.Plan<C>, k: nat)
    requires k < |p.imports| && forall n :: n in p.imports ==> n in p.contents
    ensures PoolWith(b, p, p.imports[..k + 1], []) == PoolWith(b, p, p.imports[..k], [])[[p.imports[k]] := p.contents[p.imports[k]]]
  {
    hide NamePaths;
    OneMorePath(p.imports, k);
    NoneHeld(b, p, p.imports[..k]);
    NoneHeld(b, p, p.imports[..k + 1]);
    assert [p.imports[k]][0] == p.imports[k];
  }

  lemma ScriptEnds<C>(p: Promotion.Plan<C>, i: nat)
    requires |p.imports| + 1 + |p.names| <= i < Promotion.Steps(p)
    ensures Promotion.Script(p)[i] ==
              if i < |p.imports| + 1 + |p.names| + |p.names| then Promotion.Unhold(p.names[i - |p.imports| - 1 - |p.names|]) else Promotion.Accept
  {
    var a, h, u := Promotion.ImportAll(p.imports), Promotion.HoldAll(p.names), Promotion.UnholdAll(p.names);
    assert Promotion.Script(p)[i] == (h + (u + [Promotion.Accept]))[i - |a| - 1];
  }

  lemma ImportStep<C>(b: Ledger<C>, p: Promotion.Plan<C>, i: nat)
    requires Promotes(b, p) && i < |p.imports|
    ensures Promotion.Advance(p, After(b, p, i), Promotion.Import(p.imports[i])) == Some(After(b, p, i + 1))
  {
    hide PromotionRuns.Baseline, NamePaths, PoolWith;
    var n := p.imports[i];
    PlanHas(b, p);
    PromotionRuns.Apart(b, p, n);
    PromotionRuns.DistinctImports(b, p);
    DistinctParts(p.imports, i);
    PathOf(p.imports[..i], n);
    OneMoreImport(b, p, i);
    NoneHeld(b, p, p.imports[..i]);
    assert [n] !in After(b, p, i).ledger.auth;
  }

  lemma PoolNow<C>(b: Ledger<C>, p: Promotion.Plan<C>, auth: map<Rel, C>)
    requires Promotes(b, p) && (forall n :: n in p.imports ==> n in p.contents) && auth == b.auth + FilesOf(p.imports, p.contents)
    ensures ActivePool(auth) == Promotion.BaselineNames(p) + Promotion.ImportNames(p)
    ensures Promotion.BaselineNames(p) !! Promotion.ImportNames(p)
  {
    hide ActivePool, Placed, NamePaths;
    PlanHas(b, p);
    forall n ensures n in ActivePool(auth) <==> n in p.names || n in p.imports {
      PoolMember(auth, n);
      PoolMember(b.auth, n);
      PathOf(p.imports, n);
    }
  }

  lemma Sizes<C>(p: Promotion.Plan<C>)
    requires Distinct(p.names) && Distinct(p.imports) && Promotion.BaselineNames(p) !! Promotion.ImportNames(p)
    ensures |Promotion.ImportNames(p)| == |p.imports|
    ensures |Promotion.BaselineNames(p) + Promotion.ImportNames(p)| == |p.names| + |p.imports|
  {
    PromotionRuns.DistinctSize(p.names);
    PromotionRuns.DistinctSize(p.imports);
  }

  lemma RecordStep<C>(b: Ledger<C>, p: Promotion.Plan<C>)
    requires Promotes(b, p)
    ensures Promotion.Advance(p, After(b, p, |p.imports|), Promotion.RecordImported) == Some(After(b, p, |p.imports| + 1))
  {
    hide PromotionRuns.Baseline, ActivePool, NamePaths, PoolWith, Distinct;
    PlanHas(b, p);
    PromotionRuns.DistinctImports(b, p);
    NoneHeld(b, p, p.imports);
    assert p.imports[..|p.imports|] == p.imports && p.names[..0] == [];
    var w := After(b, p, |p.imports|);
    PoolNow(b, p, w.ledger.auth);
    Sizes(p);
    assert Promotion.Created(p, w) == Promotion.ImportNames(p);
  }

  /** Holding one more of the baseline credentials, or one fewer. */
  lemma OneMoreHeld<C>(b: Ledger<C>, p: Promotion.Plan<C>, k: nat)
    requires Promotes(b, p) && k < |p.names|
    ensures forall n :: n in p.imports ==> n in p.contents
    ensures forall n :: n in p.names ==> n in p.baseline
    ensures var n := p.names[k];
            && [n] in PoolWith(b, p, p.imports, p.names[..k]) && PoolWith(b, p, p.imports, p.names[..k])[[n]] == p.baseline[n]
            && PoolWith(b, p, p.imports, p.names[..k + 1]) == PoolWith(b, p, p.imports, p.names[..k]) - {[n]}
            && n !in Those(p.names[..k], p.baseline)
            && Those(p.names[..k + 1], p.baseline) == Those(p.names[..k], p.baseline)[n := p.baseline[n]]
  {
    hide PromotionRuns.Baseline, NamePaths;
    var n := p.names[k];
    PlanHas(b, p);
    PromotionRuns.Apart(b, p, n);
    DistinctParts(p.names, k);
    OneMorePath(p.names, k);
    PathOf(p.names[..k], n);
    PathOf(p.imports, n);
  }

  lemma OneFewerHeld<C>(b: Ledger<C>, p: Promotion.Plan<C>, k: nat)
    requires Promotes(b, p) && k < |p.names|
    ensures forall n :: n in p.imports ==> n in p.contents
    ensures forall n :: n in p.names ==> n in p.baseline
    ensures var n := p.names[k];
            && [n] !in PoolWith(b, p, p.imports, p.names[k..])
            && PoolWith(b, p, p.imports, p.names[k + 1..]) == PoolWith(b, p, p.imports, p.names[k..])[[n] := p.baseline[n]]
            && n in Those(p.names[k..], p.baseline) && Those(p.names[k..], p.baseline)[n] == p.baseline[n]
            && Those(p.names[k + 1..], p.baseline) == Those(p.names[k..], p.baseline) - {n}
  {
    hide PromotionRuns.Baseline, NamePaths;
    var n := p.names[k];
    PlanHas(b, p);
    PromotionRuns.Apart(b, p, n);
    DistinctParts(p.names, k);
    OneMorePath(p.names, k);
    PathOf(p.names[k + 1..], n);
    PathOf(p.imports, n);
  }

  lemma HoldStep<C>(b: Ledger<C>, p: Promotion.Plan<C>, k: nat)
    requires Promotes(b, p) && k < |p.names|
    ensures var i := |p.imports| + 1 + k;
            Promotion.Advance(p, After(b, p, i), Promotion.Hold(p.names[k])) == Some(After(b, p, i + 1))
  {
    hide PromotionRuns.Baseline, NamePaths, PoolWith, Those, Distinct;
    OneMoreHeld(b, p, k);
  }

  lemma UnholdStep<C>(b: Ledger<C>, p: Promotion.Plan<C>, k: nat)
    requires Promotes(b, p) && k < |p.names|
    ensures var i := |p.imports| + 1 + |p.names| + k;
            Promotion.Advance(p, After(b, p, i), Promotion.Unhold(p.names[k])) == Some(After(b, p, i + 1))
  {
    hide PromotionRuns.Baseline, NamePaths, PoolWith, Those, Distinct;
    OneFewerHeld(b, p, k);
    PromotionRuns.Apart(b, p, p.names[k]);
    assert p.names[..|p.names|] == p.names == p.names[0..];
  }

  lemma AcceptStep<C>(b: Ledger<C>, p: Promotion.Plan<C>)
    requires Promotes(b, p)
    ensures Promotion.Advance(p, After(b, p, Promotion.Steps(p) - 1), Promotion.Accept) == Some(After(b, p, Promotion.Steps(p)))
  {
    hide PromotionRuns.Baseline, ActivePool, NamePaths, PoolWith, Distinct, Promotion.Archive, FilesOf;
    PlanHas(b, p);
    PromotionRuns.DistinctImports(b, p);
    NoneHeld(b, p, p.imports);
    assert p.names[|p.names|..] == [] && p.names[..0] == [] && p.imports[..|p.imports|] == p.imports;
    var w := After(b, p, Promotion.Steps(p) - 1);
    assert HeldNames(p, Promotion.Steps(p) - 1) == [];
    PoolNow(b, p, w.ledger.auth);
    Sizes(p);
    ArchiveRead(b, p);
  }

  lemma ArchiveRead<C>(b: Ledger<C>, p: Promotion.Plan<C>)
    requires Promotes(b, p)
    ensures Promotion.Archive(b.manifest) == Some(p.archiveEntries)
  {
    hide ClashFree, ActivePool, ManifestBytes, FromNames;
    forall e | e in b.manifest.entries ensures !e.NotAnObject? {
      assert EntryPaths(e).Some?;
    }
  }

  lemma ScriptStep<C>(b: Ledger<C>, p: Promotion.Plan<C>, i: nat)
    requires Promotes(b, p) && i < Promotion.Steps(p)
    ensures Promotion.Advance(p, After(b, p, i), Promotion.Script(p)[i]) == Some(After(b, p, i + 1))
  {
    hide PromotionRuns.Baseline, Promotion.Advance, Promotion.Script, After, Distinct;
    PromotionRuns.ScriptAt(p, i);
    var first := |p.imports| + 1;
    if i < |p.imports| {
      ImportStep(b, p, i);
    } else if i == |p.imports| {
      RecordStep(b, p);
    } else if i < first + |p.names| {
      HoldStep(b, p, i - first);
    } else {
      ScriptEnds(p, i);
      if i < first + |p.names| + |p.names| {
        UnholdStep(b, p, i - first - |p.names|);
      } else {
        AcceptStep(b, p);
      }
    }
  }

  lemma {:induction false} PromotesOn<C>(b: Ledger<C>, p: Promotion.Plan<C>, i: nat) returns (run: seq<PromotionRuns.Event<C>>)
    requires Promotes(b, p) && i <= Promotion.Steps(p)
    ensures |run| == Promotion.Steps(p) - i && forall e :: e in run ==> e == PromotionRuns.Promote
    ensures PromotionRuns.PossibleRun(b, p, After(b, p, i), run)
    ensures PromotionRuns.Follow(b, p, After(b, p, i), run) == After(b, p, Promotion.Steps(p))
    decreases Promotion.Steps(p) - i
  {
    hide PromotionRuns.Baseline, Promotion.Advance, Promotion.Script, Distinct, PoolWith;
    run := [];
    if i < Promotion.Steps(p) {
      ScriptStep(b, p, i);
      var rest := PromotesOn(b, p, i + 1);
      run := [PromotionRuns.Promote] + rest;
      assert run[1..] == rest;
    }
  }

  /**
   A promotion that nothing disturbs is accepted: every import is in the pool with its
   content and recorded, the baseline credentials are back in their places, nothing is held
   and the archive is as it was.
   */
  lemma PromotionSucceeds<C>(b: Ledger<C>, p: Promotion.Plan<C>, start: Promotion.World<C>)
    returns (run: seq<PromotionRuns.Event<C>>, w: Promotion.World<C>)
    requires Promotes(b, p) && PromotionRuns.Initial(b, p, start)
    ensures |run| == Promotion.Steps(p) && (forall e :: e in run ==> e == PromotionRuns.Promote) && PromotionRuns.PossibleRun(b, p, start, run)
    ensures w == PromotionRuns.Follow(b, p, start, run)
    ensures w.phase.Accepted? && w.promoted == Promotion.ImportNames(p) && w.held == map[] && w.failure == p.failure
    ensures w.ledger == b.(auth := w.ledger.auth) && w.ledger.auth.Keys == b.auth.Keys + NamePaths(p.imports)
    ensures forall k :: k in b.auth ==> w.ledger.auth[k] == b.auth[k]
    ensures forall n :: n in p.imports ==> n in p.contents && w.ledger.auth[[n]] == p.contents[n]
  {
    hide PromotionRuns.Baseline, Distinct, NamePaths;
    PlanHas(b, p);
    NoneHeld(b, p, []);
    NoneHeld(b, p, p.imports);
    assert FilesOf([], p.contents) == map[] by { assert NamePaths([]) == {} by { PathsEmpty(); } }
    assert b.auth + map[] == b.auth;
    assert p.imports[..0] == [] && Those([], p.baseline) == map[];
    assert start == After(b, p, 0);
    run := PromotesOn(b, p, 0);
    w := After(b, p, Promotion.Steps(p));
    assert HeldNames(p, Promotion.Steps(p)) == [];
    forall n | n in p.imports ensures [n] in NamePaths(p.imports) && [n][0] == n {
      PathOf(p.imports, n);
    }
    forall k | k in b.auth ensures w.ledger.auth[k] == b.auth[k] {
      if k in NamePaths(p.imports) {
        ImportPath(p.imports, k);
        PromotionRuns.Apart(b, p, k[0]);
      }
    }
  }

  lemma PathsEmpty()
    ensures NamePaths([]) == {}
  {}

  lemma ImportPath(names: seq<string>, k: Rel)
    requires k in NamePaths(names)
    ensures k == [k[0]] && k[0] in names
  {}

  /**
   Whatever happened before, the promotion is accepted in its last step if and only if every
   baseline credential and every import is in the pool, nothing was archived, the archive
   can be read and no receipt has come.
   */
  lemma AcceptsIff<C>(b: Ledger<C>, p: Promotion.Plan<C>, w: Promotion.World<C>, es: seq<Move>)
    requires Promotes(b, p) && PromotionRuns.Recoverable(b, p, w, es)
    ensures Promotion.Advance(p, w, Promotion.Accept).Some? <==>
              && (forall n :: n in p.names || n in p.imports ==> [n] in w.ledger.auth)
              && es == [] && Within(w.ledger.manifest, 64 * 1024) && w.failure == p.failure
    ensures Promotion.Advance(p, w, Promotion.Accept).Some? ==> Promotion.Advance(p, w, Promotion.Accept).value.phase.Accepted?
  {
    hide PromotionRuns.Baseline, ActivePool, Grown, Promotion.Archive, PromotionRuns.CopiesKept, PromotionRuns.Progress, PromotionRuns.TreeKept,
      ManifestBytes;
    ArchiveNow(b, p, w, es);
    PoolIff(b, p, w);
  }

  lemma ArchiveNow<C>(b: Ledger<C>, p: Promotion.Plan<C>, w: Promotion.World<C>, es: seq<Move>)
    requires Promotes(b, p) && Grown(b, w.ledger, PromotionRuns.Batch(p), es)
    ensures Promotion.Archive(w.ledger.manifest).Some? <==> Within(w.ledger.manifest, Promotion.MAX_ARCHIVE_BYTES)
    ensures Promotion.Archive(w.ledger.manifest).Some? ==>
              (|Promotion.Archive(w.ledger.manifest).value| == |p.archiveEntries| <==> es == [])
  {
    hide ClashFree, ActivePool, FromNames, ManifestBytes;
    PromotionLaws.ArchiveReads(b, p, w.ledger, es);
  }

  lemma PoolIff<C>(b: Ledger<C>, p: Promotion.Plan<C>, w: Promotion.World<C>)
    requires Promotes(b, p) && PromotionRuns.TreeKept(b, p, w.ledger.auth)
    ensures |ActivePool(w.ledger.auth)| == |p.names| + |p.imports| <==>
              forall n :: n in p.names || n in p.imports ==> [n] in w.ledger.auth
  {
    hide PromotionRuns.Baseline, PromotionRuns.TreeKept, ActivePool, Distinct;
    AllNames(b, p);
    PoolOf(b, p, w);
    FullIff(ActivePool(w.ledger.auth), Promotion.BaselineNames(p) + Promotion.ImportNames(p), w.ledger.auth);
  }

  lemma AllNames<C>(b: Ledger<C>, p: Promotion.Plan<C>)
    requires Promotes(b, p)
    ensures |Promotion.BaselineNames(p) + Promotion.ImportNames(p)| == |p.names| + |p.imports|
    ensures forall n :: n in Promotion.BaselineNames(p) + Promotion.ImportNames(p) <==> n in p.names || n in p.imports
  {
    hide PromotionRuns.Baseline, Distinct;
    PlanHas(b, p);
    PromotionRuns.DistinctImports(b, p);
    Sizes(p);
  }

  lemma FullIff<C>(pool: set<string>, all: set<string>, auth: map<Rel, C>)
    requires forall n :: n in pool <==> n in all && [n] in auth
    ensures |pool| == |all| <==> forall n :: n in all ==> [n] in auth
  {
    assert (forall n :: n in all ==> [n] in auth) ==> pool == all;
    if |pool| == |all| {
      PromotionRuns.SameSize(pool, all);
    }
  }

  lemma PoolOf<C>(b: Ledger<C>, p: Promotion.Plan<C>, w: Promotion.World<C>)
    requires Promotes(b, p) && PromotionRuns.TreeKept(b, p, w.ledger.auth)
    ensures forall n :: n in ActivePool(w.ledger.auth) <==> (n in p.names || n in p.imports) && [n] in w.ledger.auth
  {
    hide Placed, ActivePool;
    forall n ensures n in ActivePool(w.ledger.auth) <==> (n in p.names || n in p.imports) && [n] in w.ledger.auth {
      PoolMember(w.ledger.auth, n);
      PoolMember(b.auth, n);
      assert [n][0] == n;
    }
  }

  // ---------------------------------------------------------------- the hold

  /** Exactly these credentials went from the pool into the hold. */
  ghost predicate Holding<C>(w: Promotion.World<C>, w': Promotion.World<C>, names: seq<string>) {
    && w' == w.(ledger := w.ledger.(auth := w.ledger.auth - NamePaths(names)), held := w'.held, next := w.next + |names|)
    && (forall n :: n in names ==> [n] in w.ledger.auth && n !in w.held && n in w'.held && w'.held[n] == w.ledger.auth[[n]])
    && (forall n :: n in w'.held <==> n in w.held || n in names)
    && (forall n :: n in w.held ==> w'.held[n] == w.held[n])
  }

  /** The hold takes the credentials in order up to the first that is missing or already held, and succeeds if there is none. */
  lemma {:induction false} HoldLaw<C>(p: Promotion.Plan<C>, w: Promotion.World<C>, names: seq<string>) returns (taken: nat)
    ensures var (w', ok) := Promotion.HoldsFrom(p, w, names);
            && taken <= |names| && Holding(w, w', names[..taken]) && (ok <==> taken == |names|)
            && (!ok ==> [names[taken]] !in w'.ledger.auth || names[taken] in w'.held)
    decreases |names|
  {
    hide Holding, Promotion.Advance;
    taken := 0;
    NothingHeld(w);
    if names != [] {
      HoldShape(p, w, names[0]);
    }
    if names != [] && Promotion.Advance(p, w, Promotion.Hold(names[0])).Some? {
      var mid := Promotion.Advance(p, w, Promotion.Hold(names[0])).value;
      taken := HoldLaw(p, mid, names[1..]);
      HeldFirst(w, mid, Promotion.HoldsFrom(p, w, names).0, names[0], names[1..][..taken]);
      assert names[..taken + 1] == [names[0]] + names[1..][..taken];
      taken := taken + 1;
    }
  }

  lemma HoldShape<C>(p: Promotion.Plan<C>, w: Promotion.World<C>, n: string)
    ensures Promotion.Advance(p, w, Promotion.Hold(n)) ==
              if [n] in w.ledger.auth && n !in w.held then
                Some(w.(ledger := w.ledger.(auth := w.ledger.auth - {[n]}), held := w.held[n := w.ledger.auth[[n]]], next := w.next + 1))
              else None
  {}

  lemma NothingHeld<C>(w: Promotion.World<C>)
    ensures Holding(w, w, [])
  {
    PathsEmpty();
    assert w.ledger.auth - {} == w.ledger.auth;
  }

  lemma HeldFirst<C>(w: Promotion.World<C>, mid: Promotion.World<C>, w': Promotion.World<C>, n: string, rest: seq<string>)
    requires [n] in w.ledger.auth && n !in w.held && Holding(mid, w', rest)
    requires mid == w.(ledger := w.ledger.(auth := w.ledger.auth - {[n]}), held := w.held[n := w.ledger.auth[[n]]], next := w.next + 1)
    ensures Holding(w, w', [n] + rest)
  {
    hide NamePaths;
    var names := [n] + rest;
    PathsFirst(n, rest);
    MapLess(w.ledger.auth, {[n]}, NamePaths(rest));
    assert forall m :: m in names <==> m == n || m in rest;
  }

  lemma PathsFirst(n: string, rest: seq<string>)
    ensures NamePaths([n] + rest) == {[n]} + NamePaths(rest)
  {
    assert forall m :: m in [n] + rest <==> m == n || m in rest;
  }

  // ---------------------------------------------------------------- the live transaction

  function HeldInput<C>(p: LiveTransaction.Plan<C>, i: nat): seq<string> {
    if i == 0 then [] else if i <= 1 + |p.sweepNames| then p.sweepNames[..i - 1] else p.sweepNames
  }

  function WrittenCanaries<C>(p: LiveTransaction.Plan<C>, i: nat): seq<string> {
    var first := 1 + |p.sweepNames|;
    if i <= first then [] else if i <= first + |p.canaries| then p.canaries[..i - first] else p.canaries
  }

  lemma LivePlanHas<C>(b: Ledger<C>, p: LiveTransaction.Plan<C>)
    requires LiveRuns.Baseline(b, p)
    ensures (forall n :: n in p.sweepNames <==> n in p.sweep) && (forall c :: c in p.canaries <==> c in p.samples)
    ensures Distinct(p.sweepNames) && Distinct(p.canaries)
    ensures [p.activeName] in b.auth && b.auth[[p.activeName]] == p.active && p.activeName !in p.canaries
    ensures forall c :: c in p.canaries ==> [c] !in b.auth
  {
    assert forall n :: n in p.sweepNames <==> n in p.sweep.Keys;
    assert forall c :: c in p.canaries <==> c in p.samples.Keys;
  }

  /** The watcher input without these files. */
  function InputWithout<C>(p: LiveTransaction.Plan<C>, held: seq<string>): map<string, Option<C>> {
    map n | n in p.sweep && n !in held :: Some(p.sweep[n])
  }

  function HeldFiles<C>(p: LiveTransaction.Plan<C>, held: seq<string>): map<string, Option<C>>
    requires forall n :: n in held ==> n in p.sweep
  {
    map n | n in held :: Some(p.sweep[n])
  }

  /** The live transaction after `i` operations of its activation. */
  ghost function LiveAfter<C>(b: Ledger<C>, p: LiveTransaction.Plan<C>, start: LiveTransaction.World<C>, i: nat): LiveTransaction.World<C>
    requires LiveRuns.Baseline(b, p) && i <= LiveTransaction.Steps(p)
  {
    LivePlanHas(b, p);
    start.(
      ledger := b.(auth := if i == 0 then b.auth else (b.auth - {[p.activeName]}) + FilesOf(WrittenCanaries(p, i), p.samples)),
      sweep := InputWithout(p, HeldInput(p, i)),
      heldActive := if i == 0 then None else Some(p.active),
      heldSweep := HeldFiles(p, HeldInput(p, i)),
      phase := if i < LiveTransaction.Steps(p) then LiveTransaction.Prepared else LiveTransaction.LimitedActive,
      next := i)
  }

  lemma OneMoreCanary<C>(b: Ledger<C>, p: LiveTransaction.Plan<C>, k: nat)
    requires k < |p.canaries| && forall c :: c in p.canaries ==> c in p.samples
    ensures var c := p.canaries[k]; var kept := b.auth - {[p.activeName]};
            kept + FilesOf(p.canaries[..k + 1], p.samples) == (kept + FilesOf(p.canaries[..k], p.samples))[[c] := p.samples[c]]
  {
    hide NamePaths;
    OneMorePath(p.canaries, k);
    assert [p.canaries[k]][0] == p.canaries[k];
  }

  lemma OneMoreInput<C>(p: LiveTransaction.Plan<C>, k: nat)
    requires Distinct(p.sweepNames) && k < |p.sweepNames| && forall n :: n in p.sweepNames ==> n in p.sweep
    ensures var n := p.sweepNames[k];
            && n in InputWithout(p, p.sweepNames[..k]) && InputWithout(p, p.sweepNames[..k])[n] == Some(p.sweep[n])
            && InputWithout(p, p.sweepNames[..k + 1]) == InputWithout(p, p.sweepNames[..k]) - {n}
            && HeldFiles(p, p.sweepNames[..k + 1]) == HeldFiles(p, p.sweepNames[..k])[n := Some(p.sweep[n])]
  {
    DistinctParts(p.sweepNames, k);
    OneMorePath(p.sweepNames, k);
  }

  lemma HoldActiveStep<C>(b: Ledger<C>, p: LiveTransaction.Plan<C>, start: LiveTransaction.World<C>)
    requires LiveRuns.Baseline(b, p)
    ensures LiveTransaction.Advance(p, LiveAfter(b, p, start, 0), LiveTransaction.HoldActive) == LiveAfter(b, p, start, 1)
  {
    hide LiveRuns.Baseline, FilesOf, InputWithout, HeldFiles, Distinct;
    LivePlanHas(b, p);
    NoFiles(p.samples);
    assert (b.auth - {[p.activeName]}) + map[] == b.auth - {[p.activeName]};
    assert p.sweepNames[..0] == [];
  }

  lemma HoldInputStep<C>(b: Ledger<C>, p: LiveTransaction.Plan<C>, start: LiveTransaction.World<C>, k: nat)
    requires LiveRuns.Baseline(b, p) && k < |p.sweepNames|
    ensures LiveTransaction.Advance(p, LiveAfter(b, p, start, k + 1), LiveTransaction.HoldSweep(p.sweepNames[k])) == LiveAfter(b, p, start, k + 2)
  {
    hide LiveRuns.Baseline, FilesOf, InputWithout, HeldFiles, Distinct;
    LivePlanHas(b, p);
    OneMoreInput(p, k);
    assert p.sweepNames[..|p.sweepNames|] == p.sweepNames && p.canaries[..0] == [];
  }

  lemma WriteCanaryStep<C>(b: Ledger<C>, p: LiveTransaction.Plan<C>, start: LiveTransaction.World<C>, k: nat)
    requires LiveRuns.Baseline(b, p) && k < |p.canaries|
    ensures var i := 1 + |p.sweepNames| + k;
            LiveTransaction.Advance(p, LiveAfter(b, p, start, i), LiveTransaction.WriteCanary(p.canaries[k])) == LiveAfter(b, p, start, i + 1)
  {
    hide LiveRuns.Baseline, FilesOf, InputWithout, HeldFiles, Distinct;
    LivePlanHas(b, p);
    OneMoreCanary(b, p, k);
    assert p.sweepNames[..|p.sweepNames|] == p.sweepNames && p.canaries[..0] == [] && p.canaries[..|p.canaries|] == p.canaries;
  }

  lemma MarkStep<C>(b: Ledger<C>, p: LiveTransaction.Plan<C>, start: LiveTransaction.World<C>)
    requires LiveRuns.Baseline(b, p)
    ensures var i := LiveTransaction.Steps(p) - 1;
            LiveTransaction.Advance(p, LiveAfter(b, p, start, i), LiveTransaction.MarkLimited) == LiveAfter(b, p, start, i + 1)
  {
    hide LiveRuns.Baseline, FilesOf, InputWithout, HeldFiles, Distinct;
    assert p.canaries[..|p.canaries|] == p.canaries && p.sweepNames[..|p.sweepNames|] == p.sweepNames && p.canaries[..0] == [];
  }

  lemma LiveStep<C>(b: Ledger<C>, p: LiveTransaction.Plan<C>, start: LiveTransaction.World<C>, i: nat)
    requires LiveRuns.Baseline(b, p) && i < LiveTransaction.Steps(p)
    ensures LiveTransaction.Advance(p, LiveAfter(b, p, start, i), LiveTransaction.Activation(p)[i]) == LiveAfter(b, p, start, i + 1)
  {
    hide LiveRuns.Baseline, LiveTransaction.Activation, LiveTransaction.Advance, LiveAfter;
    LiveRuns.ActivationAt(p, i);
    var first := 1 + |p.sweepNames|;
    if i == 0 {
      HoldActiveStep(b, p, start);
    } else if i < first {
      HoldInputStep(b, p, start, i - 1);
    } else if i < first + |p.canaries| {
      WriteCanaryStep(b, p, start, i - first);
    } else {
      MarkStep(b, p, start);
    }
  }

  lemma NoFiles<C>(contents: map<string, C>)
    ensures FilesOf([], contents) == map[]
  {
    PathsEmpty();
  }

  lemma {:induction false} ActivatesOn<C>(b: Ledger<C>, p: LiveTransaction.Plan<C>, start: LiveTransaction.World<C>, i: nat)
    returns (run: seq<LiveRuns.Event<C>>)
    requires LiveRuns.Baseline(b, p) && i <= LiveTransaction.Steps(p)
    ensures |run| == LiveTransaction.Steps(p) - i && forall e :: e in run ==> e == LiveRuns.Activate
    ensures LiveRuns.PossibleRun(b, p, LiveAfter(b, p, start, i), run)
    ensures LiveRuns.Follow(p, LiveAfter(b, p, start, i), run) == LiveAfter(b, p, start, LiveTransaction.Steps(p))
    decreases LiveTransaction.Steps(p) - i
  {
    hide LiveRuns.Baseline, LiveTransaction.Activation, LiveTransaction.Advance, FilesOf, InputWithout, HeldFiles;
    run := [];
    if i < LiveTransaction.Steps(p) {
      LiveStep(b, p, start, i);
      var rest := ActivatesOn(b, p, start, i + 1);
      run := [LiveRuns.Activate] + rest;
      assert run[1..] == rest;
    }
  }

  /**
   An activation that nothing disturbs takes the active credential and the whole watcher
   input aside and leaves the canaries, with their contents, as the only credentials of the
   pool.
   */
  lemma ActivationSucceeds<C>(b: Ledger<C>, p: LiveTransaction.Plan<C>, start: LiveTransaction.World<C>)
    returns (run: seq<LiveRuns.Event<C>>, w: LiveTransaction.World<C>)
    requires LiveRuns.Baseline(b, p) && LiveRuns.Initial(b, p, start)
    ensures |run| == LiveTransaction.Steps(p) && (forall e :: e in run ==> e == LiveRuns.Activate) && LiveRuns.PossibleRun(b, p, start, run)
    ensures w == LiveRuns.Follow(p, start, run)
    ensures w.phase.LimitedActive? && w.heldActive == Some(p.active) && w.sweep == map[] && w.heldSweep == LiveTransaction.InputOf(p)
    ensures w == start.(ledger := w.ledger, sweep := w.sweep, heldActive := w.heldActive, heldSweep := w.heldSweep, phase := w.phase, next := w.next)
    ensures w.ledger == b.(auth := w.ledger.auth) && w.ledger.auth.Keys == b.auth.Keys - {[p.activeName]} + NamePaths(p.canaries)
    ensures forall k :: k in b.auth && k != [p.activeName] ==> w.ledger.auth[k] == b.auth[k]
    ensures forall c :: c in p.canaries ==> c in p.samples && w.ledger.auth[[c]] == p.samples[c]
    ensures ActivePool(w.ledger.auth) == set c | c in p.canaries
  {
    hide LiveRuns.Baseline, NamePaths, Distinct, ActivePool, FilesOf, InputWithout, HeldFiles, LiveRuns.Follow, LiveRuns.PossibleRun;
    LivePlanHas(b, p);
    LiveStarts(b, p, start);
    run := ActivatesOn(b, p, start, 0);
    w := LiveAfter(b, p, start, LiveTransaction.Steps(p));
    AllHeld(p);
    CanaryTree(b, p, w.ledger.auth);
    CanaryPool(b, p, w.ledger.auth);
  }

  lemma LiveStarts<C>(b: Ledger<C>, p: LiveTransaction.Plan<C>, start: LiveTransaction.World<C>)
    requires LiveRuns.Baseline(b, p) && LiveRuns.Initial(b, p, start)
    ensures LiveAfter(b, p, start, 0) == start
  {
    hide LiveRuns.Baseline;
    assert InputWithout(p, []) == LiveTransaction.InputOf(p) && HeldFiles(p, []) == map[];
  }

  lemma AllHeld<C>(p: LiveTransaction.Plan<C>)
    requires forall n :: n in p.sweepNames <==> n in p.sweep
    ensures InputWithout(p, p.sweepNames) == map[] && HeldFiles(p, p.sweepNames) == LiveTransaction.InputOf(p)
  {}

  lemma CanaryTree<C>(b: Ledger<C>, p: LiveTransaction.Plan<C>, auth: map<Rel, C>)
    requires (forall c :: c in p.canaries ==> c in p.samples && [c] !in b.auth)
    requires auth == (b.auth - {[p.activeName]}) + FilesOf(p.canaries, p.samples)
    ensures auth.Keys == b.auth.Keys - {[p.activeName]} + NamePaths(p.canaries)
    ensures forall k :: k in b.auth && k != [p.activeName] ==> auth[k] == b.auth[k]
    ensures forall c :: c in p.canaries ==> [c] in auth && auth[[c]] == p.samples[c]
  {
    hide NamePaths;
    forall c | c in p.canaries ensures [c] in NamePaths(p.canaries) && [c][0] == c {
      PathOf(p.canaries, c);
    }
    forall k | k in b.auth && k != [p.activeName] ensures k in auth && auth[k] == b.auth[k] {
      if k in NamePaths(p.canaries) {
        ImportPath(p.canaries, k);
      }
    }
  }

  lemma CanaryPool<C>(b: Ledger<C>, p: LiveTransaction.Plan<C>, auth: map<Rel, C>)
    requires LiveRuns.Baseline(b, p) && auth.Keys == b.auth.Keys - {[p.activeName]} + NamePaths(p.canaries)
    ensures ActivePool(auth) == set c | c in p.canaries
  {
    hide Placed, ActivePool, NamePaths;
    forall n ensures n in ActivePool(auth) <==> n in p.canaries {
      PoolMember(auth, n);
      PoolMember(b.auth, n);
      PathOf(p.canaries, n);
      assert n != p.activeName ==> n !in ActivePool(b.auth);
      assert [n] == [p.activeName] <==> n == p.activeName by { assert [n][0] == n && [p.activeName][0] == p.activeName; }
      assert [n] in auth <==> [n] in auth.Keys;
    }
  }
}
