/** What the scan keeps, and why the order of the directory walk does not matter. */
module ScanLaws {
  import opened Wrappers
  import opened Ranks
  import opened PathTexts
  import opened Grouping
  import opened QuarantineLedger
  import opened AuthScan

  /** The order that decides between records of one group: depth, path as text, place in the bundle. */
  ghost predicate Before(a: Record, b: Record) {
    || |a.path| < |b.path|
    || (|a.path| == |b.path| && StringLe(PathText(a.path), PathText(b.path))
        && (PathText(a.path) == PathText(b.path) ==> a.index <= b.index))
  }

  lemma SameRankSamePath(a: Record, b: Record)
    requires PlainParts(a.path) && PlainParts(b.path) && DepthRank(a) == DepthRank(b)
    ensures a.path == b.path
  {
    PathTextInjective(a.path, b.path);
  }

  /** Records of one account are one group; a record without account is grouped with its file. */
  predicate SameGroup(a: Record, b: Record) {
    a.account == b.account && (a.account == "" ==> a.path == b.path)
  }

  /** The text keys of the code tell the groups apart: a path never reads like an account key. */
  lemma GroupKeysTell(a: Record, b: Record)
    requires PlainParts(a.path) && PlainParts(b.path)
    ensures GroupKey(a) == GroupKey(b) <==> SameGroup(a, b)
  {
    assert ("codexx:" + a.account)[7..] == a.account && ("codexx:" + b.account)[7..] == b.account;
    assert ("/" + PathText(a.path))[1..] == PathText(a.path) && ("/" + PathText(b.path))[1..] == PathText(b.path);
    assert ("codexx:" + a.account)[0] == 'c' && ("codexx:" + b.account)[0] == 'c';
    if PathText(a.path) == PathText(b.path) { PathTextInjective(a.path, b.path); }
  }

  // ------------------------------------------------------------------ raw records

  ghost predicate BundleShaped(rs: seq<Record>, path: Rel, from: nat) {
    && (forall i :: 0 <= i < |rs| ==> rs[i].path == path && from <= rs[i].index && rs[i].account == "" && rs[i].invalid.None?)
    && (forall i, j :: 0 <= i < j < |rs| ==> rs[i].index < rs[j].index)
  }

  lemma {:induction false} BundleShape(path: Rel, accounts: seq<BundleAccount>, from: nat)
    requires from <= |accounts|
    ensures BundleShaped(BundleRecords(path, accounts, from), path, from)
    decreases |accounts| - from
  {
    if from < |accounts| {
      BundleShape(path, accounts, from + 1);
      BundleShapeStep(path, accounts, from, BundleRecords(path, accounts, from + 1));
    }
  }

  lemma BundleShapeStep(path: Rel, accounts: seq<BundleAccount>, from: nat, rest: seq<Record>)
    requires from < |accounts| && BundleShaped(rest, path, from + 1)
    ensures BundleShaped(
              (if Usable(accounts[from]) then
                 [Record(path, from, None, "", false, false, accounts[from].access, accounts[from].refresh, accounts[from].expiry)]
               else []) + rest,
              path, from)
  {}

  /** The records of one file share its path, are told apart by index, and carry an account only when alone. */
  ghost predicate FileShaped(rs: seq<Record>, path: Rel) {
    && (forall i :: 0 <= i < |rs| ==> rs[i].path == path && (rs[i].account != "" ==> |rs| == 1))
    && (forall i, j :: 0 <= i < j < |rs| ==> rs[i].index < rs[j].index)
    && (forall i :: 0 <= i < |rs| && rs[i].invalid.Some? ==> rs[i].invalid.value !in {Unknown, Disabled})
  }

  lemma FileShape(path: Rel, d: Document)
    ensures FileShaped(FileRecords(path, d), path)
  {
    if d.Parsed? {
      BundleShape(path, d.accounts, 0);
      var bundled := BundleRecords(path, d.accounts, 0);
      if d.hasAccountList && bundled != [] {
        assert FileRecords(path, d) == bundled;
      } else {
        assert |FileRecords(path, d)| <= 1;
      }
    }
  }

  // ------------------------------------------------------------------ what a file says

  /** Some account of the list has a token. */
  /** An object with at least one of the three tokens. */
  predicate HasSome(a: BundleAccount) {
    a.isObject && !(!a.access && !a.refresh && !a.id)
  }

  predicate HasAccounts(d: Document)
    requires d.Parsed?
  {
    d.hasAccountList && exists i :: 0 <= i < |d.accounts| && HasSome(d.accounts[i])
  }

  predicate HasToken(d: Document)
    requires d.Parsed?
  {
    d.access || d.refresh || d.id
  }

  /** The record says of account `i` what the list says of it. */
  predicate OfAccount(r: Record, path: Rel, d: Document, i: nat)
    requires d.Parsed?
  {
    && i < |d.accounts| && HasSome(d.accounts[i]) && r.path == path && r.index == i && r.invalid.None?
    && r.account == "" && !r.disabled && !r.agentIdentity
    && r.access == d.accounts[i].access && r.refresh == d.accounts[i].refresh && r.expiry == d.accounts[i].expiry
  }

  /** The record says of the whole document what it says itself. */
  predicate OfDocument(r: Record, path: Rel, d: Document, identity: bool, expiry: Expiry)
    requires d.Parsed?
  {
    && r.path == path && r.index == 0 && r.invalid.None? && r.account == d.codexxAccount && r.disabled == d.disabled
    && r.access == d.access && r.refresh == d.refresh && r.agentIdentity == identity && r.expiry == expiry
  }

  lemma {:induction false} BundleMembers(path: Rel, d: Document, from: nat)
    requires d.Parsed? && from <= |d.accounts|
    ensures forall r :: r in BundleRecords(path, d.accounts, from) <==> exists i: nat :: from <= i && OfAccount(r, path, d, i)
    decreases |d.accounts| - from
  {
    var rs := BundleRecords(path, d.accounts, from);
    if from < |d.accounts| {
      BundleMembers(path, d, from + 1);
      var rest := BundleRecords(path, d.accounts, from + 1);
      forall r ensures r in rs <==> r in rest || OfAccount(r, path, d, from) {
        if OfAccount(r, path, d, from) {
          assert rs[0] == r;
        }
      }
    }
  }

  /**
   What the scan takes from a file: one invalid record if it cannot be read; one record for
   each account of its list that has a token; without one, the document's own tokens; and
   for a file without such a list one record, if it is a codex credential at all.
   */
  lemma FileLaw(path: Rel, d: Document)
    ensures var rs := FileRecords(path, d);
            if d.Unreadable? then |rs| == 1 && rs[0].path == path && rs[0].invalid == Some(BadFile(d.error))
            else if HasAccounts(d) then forall r :: r in rs <==> exists i: nat :: OfAccount(r, path, d, i)
            else if d.hasAccountList && HasToken(d) then |rs| == 1 && OfDocument(rs[0], path, d, false, d.expiry)
            else
              var broken := d.agentIdentity && !d.agentIdentityValid;
              && (rs == [] <==> d.authType !in {"", "codex"} || !(broken || d.authType == "codex" || d.codexxAccount != "" || HasToken(d)))
              && (rs != [] && broken ==> |rs| == 1 && rs[0].path == path && rs[0].invalid == Some(InvalidAgentIdentity))
              && (rs != [] && !broken ==>
                    |rs| == 1 && OfDocument(rs[0], path, d, d.agentIdentity, if d.expiry.Unset? then d.tokenExpiry else d.expiry))
  {
    if d.Parsed? {
      BundleMembers(path, d, 0);
      var bundled := BundleRecords(path, d.accounts, 0);
      if HasAccounts(d) {
        var i :| 0 <= i < |d.accounts| && HasSome(d.accounts[i]);
        var a := d.accounts[i];
        var r := Record(path, i, None, "", false, false, a.access, a.refresh, a.expiry);
        assert OfAccount(r, path, d, i) && r in bundled;
        assert FileRecords(path, d) == bundled;
      } else if bundled != [] {
        assert bundled[0] in bundled;
        var i: nat :| OfAccount(bundled[0], path, d, i);
      }
    }
  }

  /** Every credential of the file has a refresh token or is disabled, and no agent identity in it is broken. */
  predicate Refreshable(d: Document) {
    && d.Parsed? && !(d.agentIdentity && !d.agentIdentityValid) && (d.refresh || d.disabled)
    && forall i :: 0 <= i < |d.accounts| && HasSome(d.accounts[i]) ==> d.accounts[i].refresh
  }

  /** None of its records ever fails. */
  lemma RefreshableHealthy(path: Rel, d: Document, r: Record, now: int)
    requires Refreshable(d) && r in FileRecords(path, d)
    ensures Healthy(r, now)
  {
    hide FileRecords, HasSome;
    FileLaw(path, d);
    if HasAccounts(d) {
      var i: nat :| OfAccount(r, path, d, i);
    }
  }

  ghost predicate Raw(auth: map<Rel, Document>, r: Record) {
    r.path in auth && JsonFile(r.path) && r in FileRecords(r.path, auth[r.path])
  }

  /** The raw records are exactly those of the walked files. */
  lemma {:induction false} RawMembers(auth: map<Rel, Document>, walk: seq<Rel>)
    requires forall p :: p in walk ==> p in auth
    ensures forall r :: r in RawRecords(auth, walk) <==>
              r.path in walk && r in FileRecords(r.path, auth[r.path])
  {
    if walk != [] {
      var front, last := walk[..|walk| - 1], walk[|walk| - 1];
      assert walk == front + [last];
      RawMembers(auth, front);
      FileShape(last, auth[last]);
    }
  }

  lemma RawOfWalk(auth: map<Rel, Document>, walk: seq<Rel>)
    requires IsWalk(auth, walk)
    ensures forall r :: r in RawRecords(auth, walk) <==> Raw(auth, r)
  {
    RawMembers(auth, walk);
  }

  ghost predicate PlainTree(auth: map<Rel, Document>) {
    forall p :: p in auth ==> PlainParts(p)
  }

  /** Records of one path come in the order of their index. */
  lemma {:induction false} RawTies(auth: map<Rel, Document>, walk: seq<Rel>)
    requires PlainTree(auth) && forall p :: p in walk ==> p in auth
    requires forall i, j :: 0 <= i < j < |walk| ==> walk[i] != walk[j]
    ensures TiesRise(RawRecords(auth, walk), DepthRank, (r: Record) => r.index)
  {
    if walk != [] {
      var front, last := walk[..|walk| - 1], walk[|walk| - 1];
      assert walk == front + [last] && last !in front;
      RawTies(auth, front);
      RawMembers(auth, front);
      FileShape(last, auth[last]);
      var a, b := RawRecords(auth, front), FileRecords(last, auth[last]);
      forall i, j | 0 <= i < |a| && 0 <= j < |b| ensures DepthRank(a[i]) != DepthRank(b[j]) {
        assert a[i] in a && a[i].path in front && last in walk && a[i].path in walk;
        if DepthRank(a[i]) == DepthRank(b[j]) { SameRankSamePath(a[i], b[j]); }
      }
    }
  }

  /** Two raw records with the same path and index are the same record. */
  lemma RawUnique(auth: map<Rel, Document>, a: Record, b: Record)
    requires Raw(auth, a) && Raw(auth, b) && a.path == b.path && a.index == b.index
    ensures a == b
  {
    FileShape(a.path, auth[a.path]);
    var rs := FileRecords(a.path, auth[a.path]);
    var i :| 0 <= i < |rs| && rs[i] == a;
    var j :| 0 <= j < |rs| && rs[j] == b;
  }

  // ------------------------------------------------------------------ what is kept

  function Ranked(auth: map<Rel, Document>, walk: seq<Rel>): seq<Record>
    requires forall p :: p in walk ==> p in auth
  {
    SortBy(RawRecords(auth, walk), DepthRank)
  }

  lemma RankedBefore(auth: map<Rel, Document>, walk: seq<Rel>)
    requires PlainTree(auth) && IsWalk(auth, walk)
    ensures forall i, j :: 0 <= i <= j < |Ranked(auth, walk)| ==> Before(Ranked(auth, walk)[i], Ranked(auth, walk)[j])
    ensures forall r :: r in Ranked(auth, walk) <==> Raw(auth, r)
  {
    var raw, ranked := RawRecords(auth, walk), Ranked(auth, walk);
    RawOfWalk(auth, walk);
    RawTies(auth, walk);
    SortBySorted(raw, DepthRank);
    SortByMembers(raw, DepthRank);
    SortByStable(raw, DepthRank, (r: Record) => r.index);
    forall i, j | 0 <= i <= j < |ranked| ensures Before(ranked[i], ranked[j]) {
      if i == j { RankLeTotal(DepthRank(ranked[i]), DepthRank(ranked[i])); }
    }
  }

  /** A record the scan must return: a raw record that no raw record of its group comes before. */
  ghost predicate Winner(auth: map<Rel, Document>, r: Record) {
    Raw(auth, r) && forall s :: Raw(auth, s) && SameGroup(r, s) ==> Before(r, s)
  }

  lemma WinnersAgree(auth: map<Rel, Document>, a: Record, b: Record)
    requires PlainTree(auth) && Winner(auth, a) && Winner(auth, b) && SameGroup(a, b)
    ensures a == b
  {
    RankLeTotal(DepthRank(a), DepthRank(b));
    SameRankSamePath(a, b);
    RawUnique(auth, a, b);
  }

  /** Two kept records never share a path. */
  lemma WinnerPathsDiffer(auth: map<Rel, Document>, a: Record, b: Record)
    requires PlainTree(auth) && Winner(auth, a) && Winner(auth, b) && a.path == b.path
    ensures a == b
  {
    FileShape(a.path, auth[a.path]);
    var rs := FileRecords(a.path, auth[a.path]);
    var i :| 0 <= i < |rs| && rs[i] == a;
    var j :| 0 <= j < |rs| && rs[j] == b;
    if i != j {
      WinnersAgree(auth, a, b);
    }
  }

  lemma KeptWins(auth: map<Rel, Document>, walk: seq<Rel>, i: nat)
    requires PlainTree(auth) && IsWalk(auth, walk) && i < |FirstBy(Ranked(auth, walk), GroupKey)|
    ensures Winner(auth, FirstBy(Ranked(auth, walk), GroupKey)[i])
  {
    hide GroupKey, Ranked;
    var ranked := Ranked(auth, walk);
    var r := FirstBy(ranked, GroupKey)[i];
    RankedBefore(auth, walk);
    var at := FirstByIsFirst(ranked, GroupKey, i);
    forall s | Raw(auth, s) && SameGroup(r, s) ensures Before(r, s) {
      assert s in ranked;
      var j :| 0 <= j < |ranked| && ranked[j] == s;
      assert r in ranked;
      GroupKeysTell(r, s);
    }
  }

  lemma KeptCovers(auth: map<Rel, Document>, walk: seq<Rel>, s: Record) returns (r: Record)
    requires PlainTree(auth) && IsWalk(auth, walk) && Raw(auth, s)
    ensures r in FirstBy(Ranked(auth, walk), GroupKey) && SameGroup(r, s) && Winner(auth, r)
  {
    hide GroupKey, Ranked;
    var ranked := Ranked(auth, walk);
    RankedBefore(auth, walk);
    assert s in ranked;
    var j :| 0 <= j < |ranked| && ranked[j] == s;
    FirstByRepresents(ranked, GroupKey, j);
    var kept := FirstBy(ranked, GroupKey);
    var i :| 0 <= i < |kept| && GroupKey(kept[i]) == GroupKey(s);
    r := kept[i];
    KeptWins(auth, walk, i);
    GroupKeysTell(r, s);
  }

  /** The scan returns exactly the records that come first in their group. */
  lemma ScanMembers(auth: map<Rel, Document>, walk: seq<Rel>)
    requires PlainTree(auth) && IsWalk(auth, walk)
    ensures forall r :: r in Scan(auth, walk) <==> Winner(auth, r)
  {
    hide GroupKey, Winner;
    var kept := FirstBy(Ranked(auth, walk), GroupKey);
    SortByMembers(kept, PathRank);
    forall r | r in kept ensures Winner(auth, r) {
      var i :| 0 <= i < |kept| && kept[i] == r;
      KeptWins(auth, walk, i);
    }
    forall r | Winner(auth, r) ensures r in kept {
      WinnerRaw(auth, r);
      var k := KeptCovers(auth, walk, r);
      WinnersAgree(auth, k, r);
    }
  }

  lemma WinnerRaw(auth: map<Rel, Document>, r: Record)
    requires Winner(auth, r)
    ensures Raw(auth, r)
  {}

  /** Every raw record is represented by a record of its group. */
  lemma ScanCovers(auth: map<Rel, Document>, walk: seq<Rel>, s: Record) returns (r: Record)
    requires PlainTree(auth) && IsWalk(auth, walk) && Raw(auth, s)
    ensures r in Scan(auth, walk) && SameGroup(r, s)
  {
    hide GroupKey;
    r := KeptCovers(auth, walk, s);
    ScanMembers(auth, walk);
  }

  // ------------------------------------------------------------------ no repetition

  ghost predicate Different<T(!new)>(xs: seq<T>) {
    forall i, j :: 0 <= i < j < |xs| ==> xs[i] != xs[j]
  }

  lemma {:induction false} DifferentOnce<T(!new)>(xs: seq<T>)
    ensures Different(xs) <==> forall x :: multiset(xs)[x] <= 1
  {
    if xs != [] {
      var rest := xs[1..];
      assert xs == [xs[0]] + rest;
      assert multiset(xs) == multiset{xs[0]} + multiset(rest);
      DifferentOnce(rest);
      assert forall i :: 0 <= i < |rest| ==> rest[i] == xs[i + 1];
      if Different(xs) {
        assert Different(rest) && xs[0] !in rest;
      } else if xs[0] !in rest {
        assert !Different(rest);
        var x :| multiset(rest)[x] > 1;
        assert multiset(xs)[x] > 1;
      } else {
        assert multiset(xs)[xs[0]] > 1;
      }
    }
  }

  lemma SortByDifferent<T(!new)>(xs: seq<T>, key: T -> Rank)
    requires Different(xs)
    ensures Different(SortBy(xs, key))
  {
    SortBySorted(xs, key);
    DifferentOnce(xs);
    DifferentOnce(SortBy(xs, key));
  }

  lemma ScanDifferent(auth: map<Rel, Document>, walk: seq<Rel>)
    requires PlainTree(auth) && IsWalk(auth, walk)
    ensures Different(Scan(auth, walk))
  {
    hide GroupKey;
    var ranked := Ranked(auth, walk);
    FirstByDistinct(ranked, GroupKey);
    SortByDifferent(FirstBy(ranked, GroupKey), PathRank);
  }

  ghost predicate DistinctPaths(rs: seq<Record>) {
    forall i, j :: 0 <= i < j < |rs| ==> rs[i].path != rs[j].path
  }

  /**
   The scan returns, in path order and without repeating a path or an account, exactly the
   records that come first in their group.
   */
  lemma ScanLaw(auth: map<Rel, Document>, walk: seq<Rel>)
    requires PlainTree(auth) && IsWalk(auth, walk)
    ensures forall i, j :: 0 <= i < j < |Scan(auth, walk)| ==> StringLe(PathText(Scan(auth, walk)[i].path), PathText(Scan(auth, walk)[j].path))
    ensures DistinctPaths(Scan(auth, walk))
    ensures forall i, j :: 0 <= i < j < |Scan(auth, walk)| && Scan(auth, walk)[i].account != "" ==>
              Scan(auth, walk)[i].account != Scan(auth, walk)[j].account
    ensures forall r :: r in Scan(auth, walk) <==> Winner(auth, r)
  {
    hide GroupKey, Winner;
    var out := Scan(auth, walk);
    ScanMembers(auth, walk);
    ScanDifferent(auth, walk);
    SortBySorted(FirstBy(Ranked(auth, walk), GroupKey), PathRank);
    forall i, j | 0 <= i < j < |out| ensures out[i].path != out[j].path && (out[i].account != "" ==> out[i].account != out[j].account) {
      assert out[i] in out && out[j] in out;
      if out[i].path == out[j].path { WinnerPathsDiffer(auth, out[i], out[j]); }
      if out[i].account == out[j].account && out[i].account != "" {
        WinnersAgree(auth, out[i], out[j]);
      }
    }
  }

  /** Any two walks of the same tree give the same result, in the same order. */
  lemma WalkOrderIrrelevant(auth: map<Rel, Document>, walk: seq<Rel>, other: seq<Rel>)
    requires PlainTree(auth) && IsWalk(auth, walk) && IsWalk(auth, other)
    ensures Scan(auth, walk) == Scan(auth, other)
  {
    hide GroupKey, Winner, Scan;
    var a, b := Scan(auth, walk), Scan(auth, other);
    ScanLaw(auth, walk);
    ScanLaw(auth, other);
    ScanDifferent(auth, walk);
    ScanDifferent(auth, other);
    SameElements(a, b);
    forall r, s | r in a && s in a && PathRank(r) == PathRank(s) ensures r == s {
      WinnerRaw(auth, r);
      WinnerRaw(auth, s);
      PathTextInjective(r.path, s.path);
      WinnerPathsDiffer(auth, r, s);
    }
    SortedIsUnique(a, b, PathRank);
  }

  lemma SameElements<T(!new)>(a: seq<T>, b: seq<T>)
    requires Different(a) && Different(b) && forall r :: r in a <==> r in b
    ensures multiset(a) == multiset(b)
  {
    DifferentOnce(a);
    DifferentOnce(b);
    forall x ensures multiset(a)[x] == multiset(b)[x] {
      assert x in a <==> x in multiset(a);
      assert x in b <==> x in multiset(b);
    }
  }
}
