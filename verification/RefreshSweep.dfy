/** The refresh sweep (`refresh_auth_accounts` in cloud/cloudx_cloud/cpa_auth.py) and its convergence. */
module RefreshSweep {
  import opened Wrappers
  import opened PathTexts
  import opened QuarantineLedger
  import opened LedgerLaws
  import opened AuthScan
  import opened ScanLaws

  datatype Memory = Memory(failureCount: int, lastReason: Reason, lastFailedAt: Option<int>)

  datatype Status = Quarantined | Pending

  datatype Action = Action(record: Record, status: Status, reason: Reason, failureCount: int)

  /** What one run works on: the ledger, the remembered failures, and the report so far. */
  datatype Sweep = Sweep(ledger: Ledger<Document>, accounts: map<Rel, Memory>, active: seq<Record>, actions: seq<Action>)

  datatype Config = Config(confirmations: int, now: int, stamp: string, apply: bool)

  function ReasonText(r: Reason): string {
    match r
    case Unknown => "unknown"
    case Disabled => "disabled"
    case BadFile(e) => (match e
      case FileUnreadable(_) => "auth-file-unreadable"
      case NotRegular => "auth-file-not-regular"
      case TooLarge => "auth-file-too-large"
      case InvalidJson => "invalid-auth-json"
      case NotAnObjectDocument => "auth-json-not-object")
    case InvalidAgentIdentity => "invalid-agent-identity"
    case MissingTokens => "missing-refresh-and-access-token"
    case ExpiredWithoutRefresh => "expired-without-refresh-token"
  }

  function Remembered(accounts: map<Rel, Memory>, path: Rel): Memory {
    if path in accounts then accounts[path] else Memory(0, Unknown, None)
  }

  /** The kind of a reason: whether an unreadable file is a link makes no difference. */
  function KindOf(r: Reason): Reason {
    if r.BadFile? && r.error.FileUnreadable? then BadFile(FileUnreadable(false)) else r
  }

  /** Each kind of reason has a text of its own. */
  lemma ReasonsDiffer(a: Reason, b: Reason)
    ensures ReasonText(a) == ReasonText(b) <==> KindOf(a) == KindOf(b)
  {
    TextLengths(a);
    TextLengths(b);
    assert ReasonText(BadFile(FileUnreadable(true)))[5] == 'f' && ReasonText(BadFile(NotAnObjectDocument))[5] == 'j';
  }

  /** The texts have different lengths. */
  lemma TextLengths(r: Reason)
    ensures |ReasonText(r)| ==
              match r
              case Unknown => 7
              case Disabled => 8
              case BadFile(e) => (match e
                case FileUnreadable(_) => 20
                case NotRegular => 21
                case TooLarge => 19
                case InvalidJson => 17
                case NotAnObjectDocument => 20)
              case InvalidAgentIdentity => 22
              case MissingTokens => 32
              case ExpiredWithoutRefresh => 29
  {}

  /** One record of the run; false when the quarantine is refused, which ends the run. */
  function SweepRecord(s: Sweep, r: Record, c: Config): (Sweep, bool) {
    var (reason, permanent) := StaticFailureReason(r, c.now);
    var before := Remembered(s.accounts, r.path);
    if reason in {Unknown, Disabled} then
      (s.(accounts := s.accounts[r.path := before.(failureCount := 0, lastReason := reason)], active := s.active + [r]), true)
    else
      var count := if permanent then c.confirmations else before.failureCount + 1;
      var noted := s.(accounts := s.accounts[r.path := Memory(count, reason, Some(c.now))]);
      var eligible := permanent || count >= c.confirmations;
      var action := Action(r, if eligible then Quarantined else Pending, reason, count);
      if eligible && c.apply then
        var (ledger, outcome) := AfterQuarantine(s.ledger, r.path, ReasonText(reason), c.stamp, Clean);
        if outcome.Moved? then (noted.(ledger := ledger, actions := s.actions + [action]), true)
        else (noted.(ledger := ledger), false)
      else (noted.(actions := s.actions + [action]), true)
  }

  function SweepAll(s: Sweep, rs: seq<Record>, c: Config): (Sweep, bool)
    decreases |rs|
  {
    if rs == [] then (s, true)
    else
      var (next, ok) := SweepRecord(s, rs[0], c);
      if ok then SweepAll(next, rs[1..], c) else (next, false)
  }

  function Start(ledger: Ledger<Document>, accounts: map<Rel, Memory>): Sweep {
    Sweep(ledger, accounts, [], [])
  }

  /** A whole run; false when there are too many files or a quarantine is refused. */
  function Refresh(ledger: Ledger<Document>, accounts: map<Rel, Memory>, walk: seq<Rel>, c: Config): (Sweep, bool)
    requires forall p :: p in walk ==> p in ledger.auth
  {
    if |walk| > MAX_AUTH_FILES then (Start(ledger, accounts), false)
    else SweepAll(Start(ledger, accounts), Scan(ledger.auth, walk), c)
  }

  /** The run over the live store. */
  method RefreshAuthAccounts(store: QuarantineStore<Document>, accounts: map<Rel, Memory>, walk: seq<Rel>, c: Config)
    returns (ok: bool, remembered: map<Rel, Memory>, active: seq<Record>, actions: seq<Action>)
    requires forall p :: p in walk ==> p in store.auth
    modifies store
    ensures (Sweep(store.View(), remembered, active, actions), ok) == Refresh(old(store.View()), accounts, walk, c)
  {
    hide AfterQuarantine, StaticFailureReason, Scan, ReasonText;
    remembered, active, actions := accounts, [], [];
    var scanned := ScanAuthRecords(store.auth, walk);
    if scanned.None? {
      return false, remembered, active, actions;
    }
    var records := scanned.value;
    ghost var all := SweepAll(Start(store.View(), accounts), records, c);
    ghost var left := records;
    var i := 0;
    while i < |records|
      invariant 0 <= i <= |records| && left == records[i..]
      invariant all == SweepAll(Sweep(store.View(), remembered, active, actions), left, c)
    {
      var r := records[i];
      assert left[0] == r;
      left := left[1..];
      var (reason, permanent) := StaticFailureReason(r, c.now);
      var entry := Remembered(remembered, r.path);
      if reason == Unknown || reason == Disabled {
        remembered := remembered[r.path := entry.(failureCount := 0, lastReason := reason)];
        active := active + [r];
      } else {
        var count := if permanent then c.confirmations else entry.failureCount + 1;
        remembered := remembered[r.path := Memory(count, reason, Some(c.now))];
        var eligible := permanent || count >= c.confirmations;
        if eligible && c.apply {
          var outcome := store.Quarantine(r.path, ReasonText(reason), c.stamp, Clean);
          if outcome.Refused? {
            return false, remembered, active, actions;
          }
        }
        actions := actions + [Action(r, if eligible then Quarantined else Pending, reason, count)];
      }
      i := i + 1;
    }
    ok := true;
  }

  // ------------------------------------------------------------------ one run

  function KeptOf(r: Record, now: int): seq<Record> {
    if Healthy(r, now) then [r] else []
  }

  function Kept(rs: seq<Record>, now: int): seq<Record> {
    if rs == [] then [] else KeptOf(rs[0], now) + Kept(rs[1..], now)
  }

  function FailingOf(r: Record, now: int): seq<Record> {
    if Healthy(r, now) then [] else [r]
  }

  function Failing(rs: seq<Record>, now: int): seq<Record> {
    if rs == [] then [] else FailingOf(rs[0], now) + Failing(rs[1..], now)
  }

  function FailureActionOf(r: Record, c: Config): seq<Action> {
    if Healthy(r, c.now) then [] else [Action(r, Quarantined, FailureOf(r), c.confirmations)]
  }

  function FailureActions(rs: seq<Record>, c: Config): seq<Action> {
    if rs == [] then [] else FailureActionOf(rs[0], c) + FailureActions(rs[1..], c)
  }

  lemma SplitOne(r: Record, now: int)
    ensures multiset(KeptOf(r, now)) + multiset(FailingOf(r, now)) == multiset{r}
  {
    hide Healthy;
  }

  lemma Regrouped<T>(a: multiset<T>, b: multiset<T>, c: multiset<T>, d: multiset<T>)
    ensures (a + b) + (c + d) == (a + c) + (b + d)
  {}

  /** Kept and failing records together are the scan. */
  lemma {:induction false} SplitIsExact(rs: seq<Record>, now: int)
    ensures multiset(Kept(rs, now)) + multiset(Failing(rs, now)) == multiset(rs)
  {
    if rs != [] {
      hide KeptOf, FailingOf;
      SplitOne(rs[0], now);
      SplitIsExact(rs[1..], now);
      Regrouped(multiset(KeptOf(rs[0], now)), multiset(Kept(rs[1..], now)), multiset(FailingOf(rs[0], now)), multiset(Failing(rs[1..], now)));
      assert rs == [rs[0]] + rs[1..];
    }
  }

  function ActionRecords(acts: seq<Action>): seq<Record> {
    if acts == [] then [] else [acts[0].record] + ActionRecords(acts[1..])
  }

  /** The actions of a run are one per failing record, in order. */
  lemma {:induction false} ActionsAreFailing(rs: seq<Record>, c: Config)
    ensures ActionRecords(FailureActions(rs, c)) == Failing(rs, c.now)
  {
    if rs != [] {
      hide Healthy;
      ActionsAreFailing(rs[1..], c);
      var rest := FailureActions(rs[1..], c);
      if Healthy(rs[0], c.now) {
        assert FailureActions(rs, c) == rest;
      } else {
        assert FailureActions(rs, c)[1..] == rest;
      }
    }
  }

  lemma SweepNotes(s: Sweep, r: Record, c: Config)
    requires Scanned(r) && SweepRecord(s, r, c).1
    ensures SweepRecord(s, r, c).0.active == s.active + KeptOf(r, c.now)
    ensures SweepRecord(s, r, c).0.actions == s.actions + FailureActionOf(r, c)
  {
    FailsIff(r, c.now);
  }

  /** A run that completes splits the scan, in order, into active records and quarantine actions; none is pending. */
  lemma {:induction false} RunSplitsScan(s: Sweep, rs: seq<Record>, c: Config)
    requires forall r :: r in rs ==> Scanned(r)
    requires SweepAll(s, rs, c).1
    ensures SweepAll(s, rs, c).0.active == s.active + Kept(rs, c.now)
    ensures SweepAll(s, rs, c).0.actions == s.actions + FailureActions(rs, c)
    decreases |rs|
  {
    if rs != [] {
      hide SweepRecord, KeptOf, FailureActionOf;
      SweepNotes(s, rs[0], c);
      RunSplitsScan(SweepRecord(s, rs[0], c).0, rs[1..], c);
      Associates(s.active, KeptOf(rs[0], c.now), Kept(rs[1..], c.now));
      Associates(s.actions, FailureActionOf(rs[0], c), FailureActions(rs[1..], c));
    }
  }

  // ------------------------------------------------------------------ what a run remembers

  /** What is remembered of a record's file after it was swept. */
  function MemoryOf(accounts: map<Rel, Memory>, r: Record, c: Config): Memory {
    if Healthy(r, c.now) then
      Memory(0, if r.disabled then Disabled else Unknown, if r.path in accounts then accounts[r.path].lastFailedAt else None)
    else Memory(c.confirmations, FailureOf(r), Some(c.now))
  }

  lemma SweepRemembers(s: Sweep, r: Record, c: Config)
    requires Scanned(r)
    ensures SweepRecord(s, r, c).0.accounts == s.accounts[r.path := MemoryOf(s.accounts, r, c)]
  {
    hide AfterQuarantine, StaticFailureReason, ReasonText;
    FailsIff(r, c.now);
  }

  /**
   A run that completes has wiped the failure count of every healthy record and confirmed
   the failure of every other one; what it remembers of other files stays.
   */
  lemma {:induction false} RunRemembers(s: Sweep, rs: seq<Record>, c: Config)
    requires DistinctPaths(rs) && (forall r :: r in rs ==> Scanned(r)) && SweepAll(s, rs, c).1
    ensures var after := SweepAll(s, rs, c).0.accounts;
            && (forall r :: r in rs ==> r.path in after && after[r.path] == MemoryOf(s.accounts, r, c))
            && (forall p :: (forall r :: r in rs ==> r.path != p) ==> (p in after <==> p in s.accounts) && (p in after ==> after[p] == s.accounts[p]))
    decreases |rs|
  {
    if rs != [] {
      hide SweepRecord, MemoryOf;
      SweepRemembers(s, rs[0], c);
      RestDiffers(rs);
      var mid := SweepRecord(s, rs[0], c).0;
      RunRemembers(mid, rs[1..], c);
      assert forall r :: r in rs <==> r == rs[0] || r in rs[1..];
      forall r | r in rs[1..] ensures MemoryOf(mid.accounts, r, c) == MemoryOf(s.accounts, r, c) {
        OtherMemory(s.accounts, mid.accounts, r, c);
      }
    }
  }

  lemma OtherMemory(a: map<Rel, Memory>, b: map<Rel, Memory>, r: Record, c: Config)
    requires r.path in a <==> r.path in b
    requires r.path in a ==> a[r.path] == b[r.path]
    ensures MemoryOf(a, r, c) == MemoryOf(b, r, c)
  {}

  /** A run that does not apply its actions completes and moves nothing. */
  lemma {:induction false} DryRunMovesNothing(s: Sweep, rs: seq<Record>, c: Config)
    requires !c.apply
    ensures SweepAll(s, rs, c).1 && SweepAll(s, rs, c).0.ledger == s.ledger
    decreases |rs|
  {
    if rs != [] {
      hide StaticFailureReason;
      DryRunMovesNothing(SweepRecord(s, rs[0], c).0, rs[1..], c);
    }
  }

  function FailingPaths(rs: seq<Record>, now: int): set<Rel> {
    set r | r in rs && !Healthy(r, now) :: r.path
  }

  lemma PathsStep(rs: seq<Record>, now: int)
    requires rs != []
    ensures FailingPaths(rs, now) == (if Healthy(rs[0], now) then {} else {rs[0].path}) + FailingPaths(rs[1..], now)
  {
    assert rs == [rs[0]] + rs[1..];
  }

  /** The files that the failing records of a run have, and that a quarantine accepts. */
  ghost predicate FailingRegular(rs: seq<Record>, l: Ledger<Document>, now: int) {
    forall r :: r in rs && !Healthy(r, now) ==> r.path !in l.special
  }

  /** Files go only from `gone`, and a file that is not regular never goes. */
  ghost predicate Swept(l: Ledger<Document>, after: Ledger<Document>, gone: set<Rel>) {
    && after.special == l.special
    && (forall p :: p in after.auth ==> p in l.auth && after.auth[p] == l.auth[p])
    && (forall p :: p in l.auth && (p !in gone || p in l.special) ==> p in after.auth)
  }

  function RequestOf(r: Record, now: int): seq<Request> {
    if Healthy(r, now) then [] else [Request(r.path, ReasonText(FailureOf(r)))]
  }

  /** The quarantines that a run asks for: one for each failing record, in order. */
  function Requests(rs: seq<Record>, now: int): seq<Request> {
    if rs == [] then [] else RequestOf(rs[0], now) + Requests(rs[1..], now)
  }

  /** An applying run is the quarantining of its failing files one after another. */
  lemma {:induction false} SweepIsTakeAll(s: Sweep, rs: seq<Record>, c: Config)
    requires c.apply && forall r :: r in rs ==> Scanned(r)
    ensures var (after, ok) := SweepAll(s, rs, c); (after.ledger, ok) == TakeAll(s.ledger, Requests(rs, c.now), c.stamp)
    decreases |rs|
  {
    if rs != [] {
      hide AfterQuarantine, StaticFailureReason, ReasonText, FailureOf;
      FailsIff(rs[0], c.now);
      var (next, ok) := SweepRecord(s, rs[0], c);
      var requests, rest := Requests(rs, c.now), Requests(rs[1..], c.now);
      if Healthy(rs[0], c.now) {
        assert requests == rest;
      } else {
        assert requests[0] == RequestOf(rs[0], c.now)[0] && requests[1..] == rest;
      }
      if ok {
        SweepIsTakeAll(next, rs[1..], c);
      }
    }
  }

  function SourcesIn(requests: seq<Request>): set<Rel> {
    set q | q in requests :: q.source
  }

  /** The requests of a run are for its failing files, each once. */
  lemma {:induction false} RequestsFit(rs: seq<Record>, now: int)
    requires DistinctPaths(rs)
    ensures SourcesIn(Requests(rs, now)) == FailingPaths(rs, now)
    ensures forall i, j :: 0 <= i < j < |Requests(rs, now)| ==> Requests(rs, now)[i].source != Requests(rs, now)[j].source
  {
    if rs != [] {
      hide Healthy, ReasonText, FailureOf;
      var first, rest := RequestOf(rs[0], now), Requests(rs[1..], now);
      PathsStep(rs, now);
      RestDiffers(rs);
      RequestsFit(rs[1..], now);
      forall q | q in rest ensures q.source != rs[0].path {
        assert q.source in SourcesIn(rest);
      }
      assert SourcesIn(first + rest) == SourcesIn(first) + SourcesIn(rest);
    }
  }

  lemma RestDiffers(rs: seq<Record>)
    requires rs != [] && DistinctPaths(rs)
    ensures DistinctPaths(rs[1..]) && forall r :: r in rs[1..] ==> r in rs && r.path != rs[0].path
  {
    forall r | r in rs[1..] ensures r in rs && r.path != rs[0].path {
      var i :| 0 <= i < |rs| - 1 && rs[1..][i] == r;
      assert rs[i + 1] == r;
    }
  }

  /** The entries that a run over these records lists. */
  function NewEntries(l: Ledger<Document>, rs: seq<Record>, c: Config): seq<Move> {
    Planned(Present(l.archive), Requests(rs, c.now), c.stamp)
  }

  function NewNames(ms: seq<Move>): set<string> {
    set m | m in ms :: m.quarantineName
  }

  /** What a run leaves that completes: the failing files are gone, and their entries are listed. */
  ghost predicate TakenOut(l: Ledger<Document>, after: Ledger<Document>, rs: seq<Record>, c: Config) {
    && after.auth == l.auth - FailingPaths(rs, c.now)
    && Listing(after.manifest) == Listing(l.manifest) + NewEntries(l, rs, c)
    && Present(after.archive) == Present(l.archive) + NewNames(NewEntries(l, rs, c))
  }

  /** The manifest is too large to be read, and some failing file is still there. */
  ghost predicate Stuck(after: Ledger<Document>, rs: seq<Record>, now: int) {
    && ManifestBytes(Listing(after.manifest)) > MAX_MANIFEST_BYTES
    && exists r :: r in rs && !Healthy(r, now) && r.path in after.auth
  }

  /**
   An applying run over records with different files completes if and only if every failing
   record has a regular file and there is room for their entries; then it takes out exactly
   the failing files.
   */
  lemma RunTakesFailing(s: Sweep, rs: seq<Record>, c: Config)
    requires Exact(s.ledger) && c.apply && DistinctPaths(rs)
    requires forall r :: r in rs ==> Scanned(r) && r.path in s.ledger.auth
    ensures var (after, ok) := SweepAll(s, rs, c);
            && Exact(after.ledger) && Swept(s.ledger, after.ledger, FailingPaths(rs, c.now))
            && (ok <==> FailingRegular(rs, s.ledger, c.now) && Room(Listing(s.ledger.manifest), NewEntries(s.ledger, rs, c)))
            && (ok ==> TakenOut(s.ledger, after.ledger, rs, c))
            && (!ok && FailingRegular(rs, s.ledger, c.now) ==> Stuck(after.ledger, rs, c.now))
  {
    hide Exact, TakeAll, SweepAll, Planned, Room, Requests, Healthy, Outstanding, Requestable, FailingRegular, Stuck, Swept, TakenOut;
    var l, requests := s.ledger, Requests(rs, c.now);
    var planned := Planned(Present(l.archive), requests, c.stamp);
    SweepIsTakeAll(s, rs, c);
    RequestsFit(rs, c.now);
    RequestsRegular(l, rs, c.now);
    ExactParts(l);
    var count := TakeAllOutstanding(l, l, [], requests, c.stamp);
    EmptyLeft(planned[..count]);
    var after := TakeAll(l, requests, c.stamp).0;
    OutstandingExact(l, after, planned[..count]);
    TakenPart(l, after, requests, c.stamp, count);
    SweptUpTo(l, after, rs, c, count);
    if count == |requests| {
      assert planned[..count] == planned;
      TakenAllOut(l, after, rs, c);
    } else if AllRegular(l, requests) {
      StuckAt(l, after, rs, c, count);
    }
  }

  lemma ExactParts(l: Ledger<Document>)
    requires Exact(l)
    ensures SoundTree(l) && Outstanding(l, l, [])
  {
    NothingOutstanding(l, l);
  }

  lemma RequestsRegular(l: Ledger<Document>, rs: seq<Record>, now: int)
    requires SourcesIn(Requests(rs, now)) == FailingPaths(rs, now)
    requires forall r :: r in rs ==> r.path in l.auth
    requires forall i, j :: 0 <= i < j < |Requests(rs, now)| ==> Requests(rs, now)[i].source != Requests(rs, now)[j].source
    ensures Requestable(l, Requests(rs, now))
    ensures AllRegular(l, Requests(rs, now)) <==> FailingRegular(rs, l, now)
  {
    hide Requests, Healthy;
    var requests := Requests(rs, now);
    forall i | 0 <= i < |requests| ensures requests[i].source in FailingPaths(rs, now) {
      assert requests[i] in requests && requests[i].source in SourcesIn(requests);
    }
    forall r | r in rs && !Healthy(r, now) ensures exists i :: 0 <= i < |requests| && requests[i].source == r.path {
      assert r.path in FailingPaths(rs, now) && r.path in SourcesIn(requests);
    }
  }

  /** The files that the first quarantines of a series have taken. */
  ghost predicate TookFirst(l: Ledger<Document>, after: Ledger<Document>, requests: seq<Request>, count: nat) {
    && count <= |requests| && after.special == l.special
    && after.auth == l.auth - SourcesIn(requests[..count])
  }

  lemma TakenPart(l: Ledger<Document>, after: Ledger<Document>, requests: seq<Request>, stamp: string, count: nat)
    requires count <= |requests| && Outstanding(l, after, Planned(Present(l.archive), requests, stamp)[..count])
    ensures TookFirst(l, after, requests, count)
  {
    hide Planned;
    var planned := Planned(Present(l.archive), requests, stamp);
    PlannedSources(Present(l.archive), requests, stamp);
    var ms, qs := planned[..count], requests[..count];
    forall p ensures p in SourcesOf(ms) <==> p in SourcesIn(qs) {
      if p in SourcesOf(ms) {
        var m :| m in ms && m.parts == p;
        var i :| 0 <= i < |ms| && ms[i] == m;
        assert qs[i] in qs && qs[i].source == p;
      }
      if p in SourcesIn(qs) {
        var q :| q in qs && q.source == p;
        var i :| 0 <= i < |qs| && qs[i] == q;
        assert ms[i] in ms && ms[i].parts == p;
      }
    }
    assert SourcesOf(ms) == SourcesIn(qs);
  }

  lemma SweptUpTo(l: Ledger<Document>, after: Ledger<Document>, rs: seq<Record>, c: Config, count: nat)
    requires TookFirst(l, after, Requests(rs, c.now), count)
    requires SourcesIn(Requests(rs, c.now)) == FailingPaths(rs, c.now)
    requires forall i :: 0 <= i < count ==> Requests(rs, c.now)[i].source !in l.special
    ensures Swept(l, after, FailingPaths(rs, c.now))
  {
    hide Requests, FailingPaths;
    var requests := Requests(rs, c.now);
    forall p | p in SourcesIn(requests[..count]) ensures p in SourcesIn(requests) && p !in l.special {
      var q :| q in requests[..count] && q.source == p;
      assert q in requests;
    }
  }

  lemma TakenAllOut(l: Ledger<Document>, after: Ledger<Document>, rs: seq<Record>, c: Config)
    requires Outstanding(l, after, NewEntries(l, rs, c)) && TookFirst(l, after, Requests(rs, c.now), |Requests(rs, c.now)|)
    requires SourcesIn(Requests(rs, c.now)) == FailingPaths(rs, c.now)
    ensures TakenOut(l, after, rs, c)
  {
    hide Requests, FailingPaths, Planned, ManifestBytes;
    var requests, ms := Requests(rs, c.now), NewEntries(l, rs, c);
    assert requests[..|requests|] == requests;
    forall n ensures n in Present(after.archive) <==> n in Present(l.archive) || n in NewNames(ms) {
      ShelfNames(l, after, ms, n);
    }
  }

  lemma ShelfNames(l: Ledger<Document>, after: Ledger<Document>, ms: seq<Move>, n: string)
    requires SourcesOf(ms) <= l.auth.Keys && after.archive == l.archive + Shelf(l.auth, ms)
    ensures n in Present(after.archive) <==> n in Present(l.archive) || n in NewNames(ms)
  {
    hide Shelf, SourcesOf;
    if n in Present(after.archive) {
      var k :| k in after.archive.Keys && k != [] && k[0] == n;
      if k !in l.archive.Keys {
        ShelfKeys(l.auth, ms, k);
      }
    }
    if n in Present(l.archive) {
      var k :| k in l.archive.Keys && k != [] && k[0] == n;
      assert k in after.archive.Keys;
    }
    if n in NewNames(ms) {
      ShelfKeys(l.auth, ms, [n]);
      assert [n] in after.archive.Keys && [n][0] == n;
    }
  }

  lemma StuckAt(l: Ledger<Document>, after: Ledger<Document>, rs: seq<Record>, c: Config, count: nat)
    requires TookFirst(l, after, Requests(rs, c.now), count) && count < |Requests(rs, c.now)|
    requires SourcesIn(Requests(rs, c.now)) == FailingPaths(rs, c.now) && Requestable(l, Requests(rs, c.now))
    requires ManifestBytes(Listing(after.manifest)) > MAX_MANIFEST_BYTES
    ensures Stuck(after, rs, c.now)
  {
    hide Requests, Healthy, ManifestBytes;
    var requests := Requests(rs, c.now);
    var p := requests[count].source;
    assert requests[count] in requests && p in SourcesIn(requests);
    assert p !in SourcesIn(requests[..count]);
    var r :| r in rs && !Healthy(r, c.now) && r.path == p;
  }

  // ------------------------------------------------------------------ one run over a tree

  ghost function Ran(l: Ledger<Document>, accounts: map<Rel, Memory>, walk: seq<Rel>, c: Config): Sweep
    requires IsWalk(l.auth, walk)
  {
    Refresh(l, accounts, walk, c).0
  }

  ghost predicate Completes(l: Ledger<Document>, accounts: map<Rel, Memory>, walk: seq<Rel>, c: Config)
    requires IsWalk(l.auth, walk)
  {
    Refresh(l, accounts, walk, c).1
  }

  function JsonFiles(auth: map<Rel, Document>): set<Rel> {
    set p | p in auth.Keys && JsonFile(p)
  }

  /** A tree that a sweep can work on: not too many JSON files, all of them regular. */
  predicate Sweepable(auth: map<Rel, Document>) {
    |JsonFiles(auth)| <= MAX_AUTH_FILES && forall p :: p in JsonFiles(auth) ==> Regular(auth[p])
  }

  /** The ledger and the documents agree about which files are regular. */
  ghost predicate Honest(l: Ledger<Document>) {
    forall p :: p in l.auth ==> (p in l.special <==> !Regular(l.auth[p]))
  }

  ghost predicate Quiet(auth: map<Rel, Document>, walk: seq<Rel>, now: int)
    requires IsWalk(auth, walk)
  {
    forall r :: r in Scan(auth, walk) ==> Healthy(r, now)
  }

  lemma ExactIsPlain(l: Ledger<Document>)
    requires Exact(l)
    ensures PlainTree(l.auth)
  {}

  lemma ScanIsScanned(auth: map<Rel, Document>, walk: seq<Rel>)
    requires PlainTree(auth) && IsWalk(auth, walk)
    ensures forall r :: r in Scan(auth, walk) ==> Scanned(r) && r.path in auth
  {
    ScanLaw(auth, walk);
    forall r | r in Scan(auth, walk) ensures Scanned(r) && r.path in auth {
      FileShape(r.path, auth[r.path]);
    }
  }

  lemma {:induction false} WalkSize(walk: seq<Rel>, files: set<Rel>)
    requires forall p :: p in walk <==> p in files
    requires forall i, j :: 0 <= i < j < |walk| ==> walk[i] != walk[j]
    ensures |walk| == |files|
    decreases |walk|
  {
    if walk == [] {
      assert files == {};
    } else {
      var front, last := walk[..|walk| - 1], walk[|walk| - 1];
      assert walk == front + [last];
      WalkSize(front, files - {last});
    }
  }

  /** A JSON file that is not regular always has a failing record in the scan. */
  lemma IrregularScanned(l: Ledger<Document>, walk: seq<Rel>, p: Rel, now: int) returns (r: Record)
    requires Exact(l) && IsWalk(l.auth, walk) && p in JsonFiles(l.auth) && !Regular(l.auth[p])
    ensures r in Scan(l.auth, walk) && r.path == p && !Healthy(r, now)
  {
    hide Scan, Exact;
    ExactIsPlain(l);
    r := InvalidRecord(p, BadFile(l.auth[p].error));
    assert FileRecords(p, l.auth[p]) == [r] && Raw(l.auth, r);
    var s := ScanCovers(l.auth, walk, r);
    ScanLaw(l.auth, walk);
    WinnerRaw(l.auth, s);
    assert s in FileRecords(p, l.auth[p]);
  }

  /** The failing records of a scan all have regular files if and only if all JSON files are regular. */
  lemma FailingRegularIff(l: Ledger<Document>, walk: seq<Rel>, now: int)
    requires Exact(l) && Honest(l) && IsWalk(l.auth, walk)
    ensures FailingRegular(Scan(l.auth, walk), l, now) <==> forall p :: p in JsonFiles(l.auth) ==> Regular(l.auth[p])
  {
    hide Scan, Exact, Healthy;
    ExactIsPlain(l);
    ScanLaw(l.auth, walk);
    forall p | p in JsonFiles(l.auth) && !Regular(l.auth[p]) ensures !FailingRegular(Scan(l.auth, walk), l, now) {
      var r := IrregularScanned(l, walk, p, now);
    }
    forall r | r in Scan(l.auth, walk) ensures r.path in JsonFiles(l.auth) {
      WinnerRaw(l.auth, r);
    }
  }

  /** The manifest has room for the entries of a run over the tree. */
  ghost predicate RoomToRun(l: Ledger<Document>, walk: seq<Rel>, c: Config)
    requires IsWalk(l.auth, walk)
  {
    Room(Listing(l.manifest), NewEntries(l, Scan(l.auth, walk), c))
  }

  /**
   One applying run completes if and only if the tree is sweepable and the manifest has room
   for the new entries, and then takes out exactly the failing files; complete or not, it
   keeps the manifest exact.
   */
  lemma RunLaw(l: Ledger<Document>, accounts: map<Rel, Memory>, walk: seq<Rel>, c: Config)
    requires Exact(l) && Honest(l) && IsWalk(l.auth, walk) && c.apply
    ensures Completes(l, accounts, walk, c) <==> Sweepable(l.auth) && RoomToRun(l, walk, c)
    ensures Exact(Ran(l, accounts, walk, c).ledger) && Honest(Ran(l, accounts, walk, c).ledger)
    ensures Swept(l, Ran(l, accounts, walk, c).ledger, FailingPaths(Scan(l.auth, walk), c.now))
    ensures Completes(l, accounts, walk, c) ==>
              TakenOut(l, Ran(l, accounts, walk, c).ledger, Scan(l.auth, walk), c)
              && (Ran(l, accounts, walk, c).actions == [] <==> Quiet(l.auth, walk, c.now))
    ensures Sweepable(l.auth) && !Completes(l, accounts, walk, c) ==> Stuck(Ran(l, accounts, walk, c).ledger, Scan(l.auth, walk), c.now)
  {
    hide Scan, FailingPaths, Exact, Healthy, FailingRegular, SweepAll, TakenOut, Stuck, Room, NewEntries;
    ExactIsPlain(l);
    ScanIsScanned(l.auth, walk);
    ScanLaw(l.auth, walk);
    var rs := Scan(l.auth, walk);
    WalkSize(walk, JsonFiles(l.auth));
    FailingRegularIff(l, walk, c.now);
    RunTakesFailing(Start(l, accounts), rs, c);
    if SweepAll(Start(l, accounts), rs, c).1 {
      RunSplitsScan(Start(l, accounts), rs, c);
      NoActionsWhenQuiet(rs, c);
    }
  }

  lemma {:induction false} NoActionsWhenQuiet(rs: seq<Record>, c: Config)
    ensures FailureActions(rs, c) == [] <==> forall r :: r in rs ==> Healthy(r, c.now)
    ensures Requests(rs, c.now) == [] <==> forall r :: r in rs ==> Healthy(r, c.now)
  {
    if rs != [] {
      hide Healthy;
      assert rs == [rs[0]] + rs[1..];
      NoActionsWhenQuiet(rs[1..], c);
    }
  }

  /** A record that is active in one run, complete or not, is active in the next. */
  lemma ActiveStaysActive(l: Ledger<Document>, accounts: map<Rel, Memory>, walk: seq<Rel>, c: Config,
                          after: map<Rel, Document>, next: seq<Rel>, r: Record)
    requires Exact(l) && Honest(l) && IsWalk(l.auth, walk) && c.apply
    requires after == Ran(l, accounts, walk, c).ledger.auth && IsWalk(after, next)
    requires r in Scan(l.auth, walk) && Healthy(r, c.now)
    ensures r in Scan(after, next)
  {
    hide Scan, Winner, Ran, Completes, FailingPaths, Exact, Sweepable, Honest, TakenOut, Stuck, RoomToRun;
    ExactIsPlain(l);
    RunLaw(l, accounts, walk, c);
    ExactIsPlain(Ran(l, accounts, walk, c).ledger);
    ScanLaw(l.auth, walk);
    ScanLaw(after, next);
    var out := Scan(l.auth, walk);
    WinnerRaw(l.auth, r);
    HealthyUntouched(out, r, c.now);
    WinnerOfFewer(l.auth, after, r);
  }

  lemma HealthyUntouched(rs: seq<Record>, r: Record, now: int)
    requires DistinctPaths(rs) && r in rs && Healthy(r, now)
    ensures r.path !in FailingPaths(rs, now)
  {
    hide Healthy;
    forall q | q in rs && !Healthy(q, now) ensures q.path != r.path {
      var i :| 0 <= i < |rs| && rs[i] == r;
      var j :| 0 <= j < |rs| && rs[j] == q;
      if i < j { assert rs[i].path != rs[j].path; } else { assert rs[j].path != rs[i].path; }
    }
  }

  lemma WinnerOfFewer(auth: map<Rel, Document>, fewer: map<Rel, Document>, r: Record)
    requires Winner(auth, r) && r.path in fewer
    requires forall p :: p in fewer ==> p in auth && fewer[p] == auth[p]
    ensures Winner(fewer, r)
  {
    hide FileRecords;
    forall s | Raw(fewer, s) && SameGroup(r, s) ensures Before(r, s) {
      assert Raw(auth, s);
    }
  }

  /** A run, whatever its ledger and whether or not it applies its actions, takes out no file but those of failing records. */
  lemma {:induction false} OthersStay(s: Sweep, rs: seq<Record>, c: Config, p: Rel)
    requires (forall r :: r in rs ==> Scanned(r)) && p in s.ledger.auth && p !in FailingPaths(rs, c.now)
    ensures var after := SweepAll(s, rs, c).0.ledger; p in after.auth && after.auth[p] == s.ledger.auth[p]
    decreases |rs|
  {
    if rs != [] {
      hide ReasonText, NewEntry, ManifestBytes, Healthy, StaticFailureReason, FailingPaths;
      FailsIff(rs[0], c.now);
      PathsStep(rs, c.now);
      var (next, ok) := SweepRecord(s, rs[0], c);
      assert p in next.ledger.auth && next.ledger.auth[p] == s.ledger.auth[p];
      if ok {
        OthersStay(next, rs[1..], c, p);
      }
    }
  }

  /** A file all of whose credentials can be refreshed or are disabled is still there after any run, complete or not. */
  lemma RefreshableStays(l: Ledger<Document>, accounts: map<Rel, Memory>, walk: seq<Rel>, c: Config, p: Rel)
    requires PlainTree(l.auth) && IsWalk(l.auth, walk) && p in l.auth && Refreshable(l.auth[p])
    ensures var after := Refresh(l, accounts, walk, c).0.ledger; p in after.auth && after.auth[p] == l.auth[p]
  {
    hide Scan, SweepAll, Healthy, Refreshable;
    ScanIsScanned(l.auth, walk);
    ScanLaw(l.auth, walk);
    if p in FailingPaths(Scan(l.auth, walk), c.now) {
      var r :| r in Scan(l.auth, walk) && !Healthy(r, c.now) && r.path == p;
      WinnerRaw(l.auth, r);
      RefreshableHealthy(p, l.auth[p], r, c.now);
    }
    OthersStay(Start(l, accounts), Scan(l.auth, walk), c, p);
  }

  // ------------------------------------------------------------------ many runs

  /** Walks for a series of runs: each one yields the files that are left when its run starts. */
  ghost predicate WalksFit(l: Ledger<Document>, accounts: map<Rel, Memory>, walks: seq<seq<Rel>>, c: Config)
    decreases |walks|
  {
    walks == [] ||
    (IsWalk(l.auth, walks[0])
     && var after := Ran(l, accounts, walks[0], c); WalksFit(after.ledger, after.accounts, walks[1..], c))
  }

  /** Run `i` of the series completes and takes no action. */
  ghost predicate QuietRun(l: Ledger<Document>, accounts: map<Rel, Memory>, walks: seq<seq<Rel>>, c: Config, i: nat)
    requires i < |walks| && WalksFit(l, accounts, walks, c)
    decreases |walks|
  {
    var after := Ran(l, accounts, walks[0], c);
    if i == 0 then Completes(l, accounts, walks[0], c) && after.actions == [] else QuietRun(after.ledger, after.accounts, walks[1..], c, i - 1)
  }

  /**
   The entries that the runs of a series list until one of them finds nothing to take: the
   files they take follow from the tree and the names from the archive, whatever the size
   of the manifest.
   */
  ghost function Purge(auth: map<Rel, Document>, present: set<string>, walks: seq<seq<Rel>>, c: Config): seq<Move>
    decreases |walks|
  {
    if walks == [] || !IsWalk(auth, walks[0]) then []
    else
      var rs := Scan(auth, walks[0]);
      var entries := Planned(present, Requests(rs, c.now), c.stamp);
      if entries == [] then []
      else entries + Purge(auth - FailingPaths(rs, c.now), present + NewNames(entries), walks[1..], c)
  }

  /** The manifest has room for all entries of the series. */
  ghost predicate RoomForAll(l: Ledger<Document>, walks: seq<seq<Rel>>, c: Config) {
    Room(Listing(l.manifest), Purge(l.auth, Present(l.archive), walks, c))
  }

  /** Room for a series is room for its first run and, after that, for the rest. */
  lemma RoomForFirst(l: Ledger<Document>, accounts: map<Rel, Memory>, walks: seq<seq<Rel>>, c: Config)
    requires Exact(l) && Honest(l) && Sweepable(l.auth) && c.apply && WalksFit(l, accounts, walks, c) && walks != []
    ensures RoomForAll(l, walks, c) ==> RoomToRun(l, walks[0], c)
    ensures Quiet(l.auth, walks[0], c.now) ==> RoomForAll(l, walks, c)
    ensures RoomToRun(l, walks[0], c) && !Quiet(l.auth, walks[0], c.now) ==>
              (RoomForAll(l, walks, c) <==> RoomForAll(Ran(l, accounts, walks[0], c).ledger, walks[1..], c))
  {
    hide Scan, Ran, Completes, Exact, Honest, Sweepable, Planned, Requests, Healthy, Stuck, ManifestBytes;
    var rs := Scan(l.auth, walks[0]);
    var entries := NewEntries(l, rs, c);
    var rest := Purge(l.auth - FailingPaths(rs, c.now), Present(l.archive) + NewNames(entries), walks[1..], c);
    RunLaw(l, accounts, walks[0], c);
    NoActionsWhenQuiet(rs, c);
    RoomSplit(Listing(l.manifest), entries, rest);
    EmptyRight(entries);
  }

  lemma StillSweepable(auth: map<Rel, Document>, fewer: map<Rel, Document>)
    requires Sweepable(auth) && forall p :: p in fewer ==> p in auth && fewer[p] == auth[p]
    ensures Sweepable(fewer)
  {
    Smaller(JsonFiles(fewer), JsonFiles(auth));
  }

  lemma RanSweepable(l: Ledger<Document>, accounts: map<Rel, Memory>, walk: seq<Rel>, c: Config)
    requires Exact(l) && Honest(l) && Sweepable(l.auth) && IsWalk(l.auth, walk) && c.apply
    ensures Sweepable(Ran(l, accounts, walk, c).ledger.auth)
  {
    hide Scan, Ran, Completes, Exact, Honest, Sweepable, TakenOut, Stuck, RoomToRun, FailingPaths;
    RunLaw(l, accounts, walk, c);
    StillSweepable(l.auth, Ran(l, accounts, walk, c).ledger.auth);
  }

  /** A completed run that takes an action leaves fewer files. */
  lemma BusyRunTakes(l: Ledger<Document>, accounts: map<Rel, Memory>, walk: seq<Rel>, c: Config)
    requires Exact(l) && Honest(l) && IsWalk(l.auth, walk) && c.apply
    requires Completes(l, accounts, walk, c) && Ran(l, accounts, walk, c).actions != []
    ensures |Ran(l, accounts, walk, c).ledger.auth| < |l.auth|
  {
    hide Scan, Ran, Completes, Exact, Honest, Sweepable, RoomToRun, Stuck, NewEntries;
    RunLaw(l, accounts, walk, c);
    ExactIsPlain(l);
    ScanIsScanned(l.auth, walk);
    var r :| r in Scan(l.auth, walk) && !Healthy(r, c.now);
    var gone := FailingPaths(Scan(l.auth, walk), c.now);
    assert r.path in gone;
    FewerLeft(l.auth, gone, r.path);
  }

  /**
   At a fixed clock the sweep of a sweepable tree comes to rest as long as the manifest has
   room for all entries: one of the first (number of files) + 1 runs completes without an
   action.
   */
  lemma {:induction false} SweepConverges(l: Ledger<Document>, accounts: map<Rel, Memory>, walks: seq<seq<Rel>>, c: Config)
    returns (i: nat)
    requires Exact(l) && Honest(l) && Sweepable(l.auth) && c.apply && WalksFit(l, accounts, walks, c) && |walks| > |l.auth|
    requires RoomForAll(l, walks, c)
    ensures i < |walks| && i <= |l.auth| && QuietRun(l, accounts, walks, c, i)
    decreases |walks|
  {
    hide Scan, Ran, Completes, Exact, Honest, Sweepable, IsWalk, Quiet, RoomForAll, RoomToRun, TakenOut, Stuck;
    RunLaw(l, accounts, walks[0], c);
    RoomForFirst(l, accounts, walks, c);
    RanSweepable(l, accounts, walks[0], c);
    var after := Ran(l, accounts, walks[0], c);
    if after.actions == [] {
      return 0;
    }
    BusyRunTakes(l, accounts, walks[0], c);
    i := SweepConverges(after.ledger, after.accounts, walks[1..], c);
    i := i + 1;
  }

  /** An applying run of a tree that is not sweepable leaves one that is not sweepable. */
  lemma StillBlocked(l: Ledger<Document>, accounts: map<Rel, Memory>, walk: seq<Rel>, c: Config)
    requires Exact(l) && Honest(l) && !Sweepable(l.auth) && IsWalk(l.auth, walk) && c.apply
    ensures !Sweepable(Ran(l, accounts, walk, c).ledger.auth)
  {
    hide Scan, Exact, FailingPaths, TakenOut, Stuck, RoomToRun;
    RunLaw(l, accounts, walk, c);
    WalkSize(walk, JsonFiles(l.auth));
    if |walk| <= MAX_AUTH_FILES {
      hide Ran;
      var p :| p in JsonFiles(l.auth) && !Regular(l.auth[p]);
      assert p in JsonFiles(Ran(l, accounts, walk, c).ledger.auth);
    }
  }

  /** The manifest is too large to be read and some scan result fails. */
  ghost predicate Stalled(l: Ledger<Document>, now: int) {
    && ManifestBytes(Listing(l.manifest)) > MAX_MANIFEST_BYTES
    && exists r :: Winner(l.auth, r) && !Healthy(r, now)
  }

  lemma StuckStalls(l: Ledger<Document>, after: Ledger<Document>, walk: seq<Rel>, now: int)
    requires Exact(l) && IsWalk(l.auth, walk) && Stuck(after, Scan(l.auth, walk), now)
    requires forall p :: p in after.auth ==> p in l.auth && after.auth[p] == l.auth[p]
    ensures Stalled(after, now)
  {
    hide Scan, Exact, Healthy, Winner, ManifestBytes;
    ExactIsPlain(l);
    ScanLaw(l.auth, walk);
    var r :| r in Scan(l.auth, walk) && !Healthy(r, now) && r.path in after.auth;
    WinnerOfFewer(l.auth, after.auth, r);
  }

  lemma StalledHasNoRoom(l: Ledger<Document>, walk: seq<Rel>, c: Config)
    requires Exact(l) && IsWalk(l.auth, walk) && Stalled(l, c.now)
    ensures !RoomToRun(l, walk, c)
  {
    hide Scan, Exact, Healthy, Winner, ManifestBytes, Planned, Requests, Room;
    ExactIsPlain(l);
    ScanLaw(l.auth, walk);
    NoActionsWhenQuiet(Scan(l.auth, walk), c);
    NoRoom(Listing(l.manifest), NewEntries(l, Scan(l.auth, walk), c));
  }

  /** A stalled sweep never completes again. */
  lemma {:induction false} StalledForever(l: Ledger<Document>, accounts: map<Rel, Memory>, walks: seq<seq<Rel>>, c: Config, i: nat)
    requires Exact(l) && Honest(l) && Sweepable(l.auth) && Stalled(l, c.now)
    requires c.apply && WalksFit(l, accounts, walks, c) && i < |walks|
    ensures !QuietRun(l, accounts, walks, c, i)
    decreases |walks|
  {
    hide Scan, Ran, Completes, Exact, Honest, Sweepable, IsWalk, Quiet, Stalled, Stuck, RoomToRun, TakenOut, FailingPaths;
    RunLaw(l, accounts, walks[0], c);
    StalledHasNoRoom(l, walks[0], c);
    if i > 0 {
      RanSweepable(l, accounts, walks[0], c);
      var after := Ran(l, accounts, walks[0], c);
      StuckStalls(l, after.ledger, walks[0], c.now);
      StalledForever(after.ledger, after.accounts, walks[1..], c, i - 1);
    }
  }

  /** Convergence is exact: on any other tree, or without the room, the sweep never comes to rest. */
  lemma {:induction false} BlockedNeverRests(l: Ledger<Document>, accounts: map<Rel, Memory>, walks: seq<seq<Rel>>, c: Config, i: nat)
    requires Exact(l) && Honest(l) && (!Sweepable(l.auth) || !RoomForAll(l, walks, c))
    requires c.apply && WalksFit(l, accounts, walks, c) && i < |walks|
    ensures !QuietRun(l, accounts, walks, c, i)
    decreases |walks|
  {
    hide Scan, Ran, Completes, Exact, Honest, Sweepable, IsWalk, Quiet, RoomForAll, RoomToRun, TakenOut, Stuck, Stalled, FailingPaths;
    RunLaw(l, accounts, walks[0], c);
    var after := Ran(l, accounts, walks[0], c);
    if Sweepable(l.auth) {
      RoomForFirst(l, accounts, walks, c);
      RanSweepable(l, accounts, walks[0], c);
    } else {
      StillBlocked(l, accounts, walks[0], c);
    }
    if i > 0 {
      if Sweepable(l.auth) && !Completes(l, accounts, walks[0], c) {
        StuckStalls(l, after.ledger, walks[0], c.now);
        StalledForever(after.ledger, after.accounts, walks[1..], c, i - 1);
      } else {
        BlockedNeverRests(after.ledger, after.accounts, walks[1..], c, i - 1);
      }
    }
  }

  lemma FewerLeft<K, V>(m: map<K, V>, gone: set<K>, k: K)
    requires k in m && k in gone
    ensures |m - gone| < |m|
  {
    assert (m - gone).Keys <= m.Keys - {k};
    Smaller((m - gone).Keys, m.Keys - {k});
  }

  lemma {:induction false} Smaller<T>(a: set<T>, b: set<T>)
    requires a <= b
    ensures |a| <= |b|
    decreases b
  {
    if b != {} {
      var x :| x in b;
      Smaller(a - {x}, b - {x});
    }
  }

  /** Once at rest the sweep stays at rest, whatever order later walks take. */
  lemma RestIsFinal(l: Ledger<Document>, accounts: map<Rel, Memory>, walk: seq<Rel>, c: Config, next: seq<Rel>, later: map<Rel, Memory>)
    requires Exact(l) && Honest(l) && IsWalk(l.auth, walk) && c.apply
    requires Completes(l, accounts, walk, c) && Ran(l, accounts, walk, c).actions == []
    requires IsWalk(Ran(l, accounts, walk, c).ledger.auth, next)
    ensures var after := Ran(l, accounts, walk, c).ledger;
            Completes(after, later, next, c) && Ran(after, later, next, c).actions == []
  {
    hide Scan, Ran, Completes, Exact, Sweepable, Stuck, Healthy;
    ExactIsPlain(l);
    RunLaw(l, accounts, walk, c);
    var after := Ran(l, accounts, walk, c).ledger;
    assert FailingPaths(Scan(l.auth, walk), c.now) == {};
    assert after.auth == l.auth;
    WalkOrderIrrelevant(l.auth, walk, next);
    NoActionsWhenQuiet(Scan(l.auth, next), c);
    RunLaw(after, later, next, c);
  }
}
