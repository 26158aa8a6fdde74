/** Concrete inputs on which the promises fail, one for each exception that the laws state. */
module Witnesses {
  import opened Wrappers
  import opened ArchiveNames
  import opened JsonSizes
  import opened QuarantineLedger
  import opened LedgerLaws
  import opened ArchivedBatch
  import opened PoolFiles
  import opened Examples
  import AuthScan
  import ScanLaws
  import RefreshSweep
  import LiveTransaction
  import LiveRuns
  import LiveRecovery
  import Promotion
  import PromotionRuns
  import PromotionLaws
  import OlderEntries
  import opened TextLines
  import opened Scalars
  import opened GatewayConfig
  import opened GatewayConfigLaws
  import KeyProtocol
  import KeyProtocolLaws

  const LOST := Interrupted(true, Undone)
  const ASTRAY := Interrupted(false, NotUndone)

  // ---------------------------------------------------------------- the ledger

  const CLAIMING := Modern(false, ["old.json"], "old.json", "expired", "", "b.json", "", 162)

  /** A sound ledger whose older entry answers to the name of its one live file. */
  function ClaimingLedger(): Ledger<string> {
    Ledger(map[["b.json"] := "live"], {[]}, {}, map[["old.json"] := "expired"], Listed([CLAIMING]))
  }

  lemma ClaimingName()
    ensures ArchiveName("b.json", Present(ClaimingLedger().archive)) == "b.json"
  {
    var l := ClaimingLedger();
    forall n | n in Present(l.archive) ensures n == "old.json" {
      var k :| k in l.archive.Keys && k != [] && k[0] == n;
      assert k == ["old.json"];
    }
    assert "b.json"[0] != "old.json"[0];
    ArchiveNameLeast("b.json", Present(l.archive));
  }

  lemma ClaimingEntry()
    ensures EntryPaths(CLAIMING) == Some(Paths(["old.json"], ["old.json"])) && Readable([CLAIMING])
    ensures "b.json" in Selectors(CLAIMING) && "old.json" in Selectors(CLAIMING)
  {
    assert BaseName(["old.json"]) == "old.json" && "b.json" != "";
  }

  lemma ClaimingFacts()
    ensures Sound(ClaimingLedger()) && ["b.json"] in ClaimingLedger().auth
    ensures EntryPaths(CLAIMING) == Some(Paths(["old.json"], ["old.json"])) && Readable([CLAIMING])
    ensures "b.json" in Selectors(CLAIMING) && "old.json" in Selectors(CLAIMING)
    ensures ArchiveName("b.json", Present(ClaimingLedger().archive)) == "b.json"
  {
    hide ArchiveName, Selectors, EntryPaths;
    var l := ClaimingLedger();
    ClaimingEntry();
    ClaimingName();
    assert forall p :: p in l.auth ==> p == ["b.json"];
    assert SoundListing(l, [CLAIMING]);
  }

  /** A file whose archive name an older entry claims is quarantined and cannot be restored by that name. */
  lemma ClaimedName() returns (after: Ledger<string>)
    ensures AfterQuarantine(ClaimingLedger(), ["b.json"], "expired", "", Clean) == (after, Moved("b.json"))
    ensures !AfterRestore(after, "b.json", Clean).1.Moved?
  {
    hide Sound, ArchiveName, Selectors, Readable;
    ClaimingFacts();
    var name;
    after, name := RestoreAfterQuarantineIff(ClaimingLedger(), ["b.json"], "expired", "");
    assert BaseName(["b.json"]) == "b.json";
    assert CLAIMING in [CLAIMING];
  }

  /** A quarantine that is undone although the manifest had been replaced leaves an unsound ledger. */
  lemma LateManifest()
    ensures Sound(ClaimingLedger()) && !Sound(Do(ClaimingLedger(), Take(["b.json"], "expired", "", LOST)).0)
  {
    hide Sound, ArchiveName;
    ClaimingFacts();
    StepKeepsSound(ClaimingLedger(), Take(["b.json"], "expired", "", LOST));
  }

  /** A restore that is not undone although the manifest had not been replaced does too. */
  lemma TornManifest()
    ensures Sound(ClaimingLedger()) && !Sound(Do(ClaimingLedger(), Return("old.json", ASTRAY)).0)
  {
    var l := ClaimingLedger();
    ClaimingFacts();
    assert SoleMatch([CLAIMING], "old.json", 0);
    forall i: nat | SoleMatch([CLAIMING], "old.json", i) ensures i == 0 {}
    var paths := Paths(["old.json"], ["old.json"]);
    assert EntryPaths(CLAIMING) == Some(paths) && Parent(["old.json"]) == [];
    assert ["old.json"][0] != ["b.json"][0] by { assert "old.json"[0] != "b.json"[0]; }
    StepKeepsSound(l, Return("old.json", ASTRAY));
  }

  /** A tree with a JSON file that is not regular: no sweep of it ever completes. */
  lemma IrregularTree() returns (l: Ledger<AuthScan.Document>)
    ensures Sound(l) && RefreshSweep.Honest(l) && !RefreshSweep.Sweepable(l.auth)
  {
    var path := ["a.json"];
    l := Ledger(map[path := AuthScan.Unreadable(AuthScan.NotRegular)], {[]}, {path}, map[], Absent);
    assert forall p :: p in l.auth ==> p == path;
    assert AuthScan.JsonName("a.json");
    assert BaseName(path) == "a.json" && path in RefreshSweep.JsonFiles(l.auth);
  }

  /** A sound ledger whose manifest has reached the size that its readers accept. */
  function FullLedger(): Ledger<string> {
    Ledger(map[["b.json"] := "live"], {[]}, {}, map[["old.json"] := "expired"], Listed([OldEntry(MAX_MANIFEST_BYTES - 62)]))
  }

  lemma FullFacts()
    ensures Sound(FullLedger()) && ManifestBytes(Listing(FullLedger().manifest)) == MAX_MANIFEST_BYTES
  {
    var l, size := FullLedger(), MAX_MANIFEST_BYTES - 62;
    SmallLedgerFacts(size);
    SmallManifest(size);
    assert forall p :: p in l.auth ==> p == ["b.json"];
    assert Parent(["b.json"]) == [];
    assert SoundListing(l, [OldEntry(size)]);
  }

  /** One more quarantine succeeds, and after it nothing can be quarantined or restored any more. */
  lemma FullManifest(steps: seq<Step>, next: Step) returns (after: Ledger<string>)
    ensures Do(FullLedger(), Take(["b.json"], "expired", "", Clean)) == (after, Moved(ArchiveName("b.json", Present(FullLedger().archive))))
    ensures !Sound(after) && Run(after, steps) == after && Do(after, next).1.Refused?
  {
    hide ManifestBytes, ArchiveName, Sound;
    var l := FullLedger();
    FullFacts();
    SoundListed(l);
    assert BaseName(["b.json"]) == "b.json";
    QuarantineSucceeds(l, ["b.json"], "expired", "");
    var e := EntryFor(l, ["b.json"], "expired", "");
    ManifestGrows(Listing(l.manifest), [e]);
    assert EntryBytes([e]) >= ENTRY_FRAME by { assert [e][1..] == []; }
    after := Do(l, Take(["b.json"], "expired", "", Clean)).0;
    StepKeepsSound(l, Take(["b.json"], "expired", "", Clean));
    OversizedForever(after, steps, next);
  }

  /** A tree with one failing file over a manifest that is too large. */
  function StalledLedger(): Ledger<AuthScan.Document> {
    var doc := AuthScan.Unreadable(AuthScan.InvalidJson);
    Ledger(map[["a.json"] := doc], {[]}, {}, map[["old.json"] := doc], Listed([OldEntry(MAX_MANIFEST_BYTES)]))
  }

  lemma StalledRecord(now: int) returns (r: AuthScan.Record)
    ensures ScanLaws.Winner(StalledLedger().auth, r) && !AuthScan.Healthy(r, now)
    ensures RefreshSweep.JsonFiles(StalledLedger().auth) == {["a.json"]}
  {
    var auth, path := StalledLedger().auth, ["a.json"];
    assert AuthScan.JsonName("a.json") && BaseName(path) == "a.json";
    r := AuthScan.InvalidRecord(path, AuthScan.BadFile(AuthScan.InvalidJson));
    assert AuthScan.FileRecords(path, auth[path]) == [r];
    forall s | ScanLaws.Raw(auth, s) ensures s == r {}
  }

  /** Such a tree is sweepable, but no sweep of it ever completes. */
  lemma StalledTree(now: int)
    ensures Exact(StalledLedger()) && RefreshSweep.Honest(StalledLedger()) && RefreshSweep.Sweepable(StalledLedger().auth)
    ensures RefreshSweep.Stalled(StalledLedger(), now)
  {
    hide ManifestBytes, ScanLaws.Winner, AuthScan.Healthy, RefreshSweep.JsonFiles;
    var l := StalledLedger();
    SmallLedgerFacts(MAX_MANIFEST_BYTES);
    SmallManifest(MAX_MANIFEST_BYTES);
    var r := StalledRecord(now);
    assert forall p :: p in l.auth ==> p == ["a.json"];
    assert Parent(["a.json"]) == [];
    assert SoundListing(l, [OldEntry(MAX_MANIFEST_BYTES)]);
  }

  // ---------------------------------------------------------------- the live transaction

  /** The canary is in the pool once the activation has done three operations. */
  function CanaryOut(size: nat): LiveTransaction.World<string> {
    TransactionStart(size).(
      ledger := SmallLedger(size).(auth := map[["b.json"] := "canary"]), sweep := map[], heldActive := Some("active"),
      heldSweep := map["state" := Some("s")], next := 3)
  }

  const ACTIVATING := LiveRuns.Event<string>.Activate

  /** After one and two operations. */
  function ActiveHeld(size: nat): LiveTransaction.World<string> {
    TransactionStart(size).(ledger := SmallLedger(size).(auth := map[]), heldActive := Some("active"), next := 1)
  }

  function InputHeld(size: nat): LiveTransaction.World<string> {
    ActiveHeld(size).(sweep := map[], heldSweep := map["state" := Some("s")], next := 2)
  }

  lemma CanarySteps(size: nat)
    ensures LiveRuns.Happen(TransactionPlan(), TransactionStart(size), ACTIVATING) == ActiveHeld(size)
    ensures LiveRuns.Happen(TransactionPlan(), ActiveHeld(size), ACTIVATING) == InputHeld(size)
    ensures LiveRuns.Happen(TransactionPlan(), InputHeld(size), ACTIVATING) == CanaryOut(size)
  {
    hide LiveTransaction.Activation;
    var p := TransactionPlan();
    LiveRuns.ActivationAt(p, 0);
    LiveRuns.ActivationAt(p, 1);
    LiveRuns.ActivationAt(p, 2);
    assert SmallLedger(size).auth - {["a.json"]} == map[];
    assert LiveTransaction.InputOf(p) == map["state" := Some("s")];
  }

  lemma FollowThree(b: Ledger<string>, p: LiveTransaction.Plan<string>, w: LiveTransaction.World<string>, e: LiveRuns.Event<string>)
    ensures var w1 := LiveRuns.Happen(p, w, e);
            var w2 := LiveRuns.Happen(p, w1, e);
            && LiveRuns.Follow(p, w, [e, e, e]) == LiveRuns.Happen(p, w2, e)
            && (LiveRuns.Possible(b, p, w, e) && LiveRuns.Possible(b, p, w1, e) && LiveRuns.Possible(b, p, w2, e) ==>
                  LiveRuns.PossibleRun(b, p, w, [e, e, e]))
  {
    hide LiveRuns.Happen, LiveRuns.Possible;
    var w1 := LiveRuns.Happen(p, w, e);
    var w2 := LiveRuns.Happen(p, w1, e);
    assert [e, e, e][1..] == [e, e] && [e, e][1..] == [e] && [e][1..] == [];
    assert LiveRuns.Follow(p, w2, [e]) == LiveRuns.Happen(p, w2, e);
    assert LiveRuns.Follow(p, w1, [e, e]) == LiveRuns.Follow(p, w2, [e]);
    if LiveRuns.Possible(b, p, w, e) && LiveRuns.Possible(b, p, w1, e) && LiveRuns.Possible(b, p, w2, e) {
      assert LiveRuns.PossibleRun(b, p, w2, [e]);
      assert LiveRuns.PossibleRun(b, p, w1, [e, e]);
    }
  }

  lemma CanaryGoesOut(size: nat)
    requires 62 + size <= LiveTransaction.MAX_ARCHIVE_BYTES
    ensures LiveRuns.PossibleRun(SmallLedger(size), TransactionPlan(), TransactionStart(size), [ACTIVATING, ACTIVATING, ACTIVATING])
    ensures LiveRuns.Follow(TransactionPlan(), TransactionStart(size), [ACTIVATING, ACTIVATING, ACTIVATING]) == CanaryOut(size)
    ensures LiveRuns.Recoverable(SmallLedger(size), TransactionPlan(), CanaryOut(size), []) && Restorable(CanaryOut(size).ledger, [])
  {
    hide LiveRuns.Baseline, LiveRuns.Recoverable, LiveTransaction.Activation, LiveTransaction.Advance, LiveRuns.Kept, LiveRuns.Follow, LiveRuns.PossibleRun;
    var b, p, w := SmallLedger(size), TransactionPlan(), TransactionStart(size);
    TransactionStarts(size);
    CanarySteps(size);
    FollowThree(b, p, w, ACTIVATING);
    LiveRuns.ActivateKeeps(b, p, w, []);
    LiveRuns.ActivateKeeps(b, p, ActiveHeld(size), []);
    LiveRuns.ActivateKeeps(b, p, InputHeld(size), []);
  }

  lemma SmallWithin(size: nat, limit: nat)
    requires 62 + size <= limit
    ensures Within(SmallLedger(size).manifest, limit)
  {
    SmallManifest(size);
  }

  /** From there a quarantine of the canary can lose its file, or leave it astray. */
  lemma TornQuarantines()
    ensures LiveRuns.Possible(SmallLedger(USUAL), TransactionPlan(), CanaryOut(USUAL), LiveRuns.Archive("b.json", "quota", "", LOST))
    ensures LiveRuns.Loses(CanaryOut(USUAL), LiveRuns.Archive("b.json", "quota", "", LOST))
    ensures LiveRuns.Strays(CanaryOut(USUAL), LiveRuns.Archive("b.json", "quota", "", ASTRAY))
  {
    hide ManifestBytes, ClashFree;
    SmallWithin(USUAL, MAX_MANIFEST_BYTES);
    NoClash(USUAL, "b.json");
    assert "b.json" in LiveRuns.Batch(TransactionPlan());
  }

  /** The first entry of a restorable ledger can be restored. */
  lemma FirstMoves<C>(b: Ledger<C>, l: Ledger<C>, names: seq<string>, es: seq<Move>)
    requires Based(b) && Grown(b, l, names, es) && Restorable(l, es) && es != [] && Within(l.manifest, MAX_MANIFEST_BYTES)
    ensures AfterRestore(l, es[0].quarantineName, Clean).1.Moved?
  {
    hide Based, BatchMove, AfterRestore, Restorable, ManifestBytes;
    HeadUnclaimed(b, l, names, es);
    RestorableFirst(b, l, es);
    var j := RestoreOne(b, l, names, es, es[0].quarantineName, Clean);
  }

  /** The canary archived: its entry is the only new one. */
  lemma CanaryArchived(size: nat, movedAt: string) returns (w: LiveTransaction.World<string>, m: Move)
    requires 62 + size <= MAX_MANIFEST_BYTES
    ensures LiveRuns.Possible(SmallLedger(size), TransactionPlan(), CanaryOut(size), LiveRuns.Archive("b.json", "quota", movedAt, Clean))
    ensures w == LiveRuns.Happen(TransactionPlan(), CanaryOut(size), LiveRuns.Archive("b.json", "quota", movedAt, Clean))
    ensures LiveRuns.Recoverable(SmallLedger(size), TransactionPlan(), w, [m]) && Restorable(w.ledger, [m])
    ensures m == EntryFor(CanaryOut(size).ledger, ["b.json"], "quota", movedAt)
  {
    hide LiveRuns.Baseline, AfterQuarantine, AfterRestore, Restorable, Placed, Grown, BatchMove, Broken, Orphans, LiveRuns.Pending,
      LiveRuns.TreeKept, ManifestBytes, ClashFree, ArchiveName, LiveRuns.ActiveSafe;
    var b, p, l := SmallLedger(size), TransactionPlan(), CanaryOut(size).ledger;
    TransactionStarts(size);
    CanaryGoesOut(size);
    SmallWithin(size, MAX_MANIFEST_BYTES);
    NoClash(size, "b.json");
    assert "b.json" in LiveRuns.Batch(p);
    LiveRuns.BatchPlaces(b, p, "b.json");
    var e := LiveRuns.Event<string>.Archive("b.json", "quota", movedAt, Clean);
    w := LiveRuns.Happen(p, CanaryOut(size), e);
    var es := LiveRuns.ArchiveKeeps(b, p, CanaryOut(size), [], "b.json", "quota", movedAt, Clean);
    m := TakeGrows(b, l, LiveRuns.Batch(p), [], "b.json", "quota", movedAt, Clean);
    assert [] + [m] == [m];
    GrownOnce(b, w.ledger, LiveRuns.Batch(p), es, [m]);
    assert LiveRuns.OwnOnly(p, []);
    TakenEntry(l, m, "quota", movedAt);
  }

  lemma TakenEntry<C>(l: Ledger<C>, m: Move, reason: string, movedAt: string)
    requires l.manifest.Listed? && |m.parts| == 1 && m.parts in l.auth && m.parts !in l.special && Within(l.manifest, MAX_MANIFEST_BYTES)
    requires AfterQuarantine(l, m.parts, reason, movedAt, Clean).0 == Taken(l, m, true, true)
    ensures m == EntryFor(l, m.parts, reason, movedAt)
  {
    hide ManifestBytes, ArchiveName;
    var listed := AfterQuarantine(l, m.parts, reason, movedAt, Clean).0.manifest.entries;
    assert listed[|listed| - 1] == m;
  }

  /** Once the canary is archived, the restore of a dying recovery can lose its file. */
  lemma TornRestore() returns (w: LiveTransaction.World<string>, m: Move)
    ensures w == LiveRuns.Happen(TransactionPlan(), CanaryOut(USUAL), LiveRuns.Archive("b.json", "quota", "", Clean))
    ensures LiveRuns.Recoverable(SmallLedger(USUAL), TransactionPlan(), w, [m]) && Restorable(w.ledger, [m])
    ensures LiveRuns.Loses(w, LiveRuns.Recovering(LiveTransaction.RestoreArchived(m.quarantineName), ASTRAY))
  {
    hide LiveRuns.Baseline, AfterQuarantine, AfterRestore, Restorable, Placed, Grown, ManifestBytes, LiveRuns.Pending, LiveRuns.TreeKept,
      ArchiveName, LiveRuns.Happen, LiveRuns.Possible;
    var b, p := SmallLedger(USUAL), TransactionPlan();
    TransactionStarts(USUAL);
    LiveRuns.BaselinePlaced(b, p);
    w, m := CanaryArchived(USUAL, "");
    UsualEntry(CanaryOut(USUAL).ledger, m);
    GrownListing(b, w.ledger, LiveRuns.Batch(p), [m]);
    FirstMoves(b, w.ledger, LiveRuns.Batch(p), [m]);
  }

  /** The entry of a short name is short. */
  lemma UsualEntry(l: Ledger<string>, m: Move)
    requires m == EntryFor(l, ["b.json"], "quota", "") && l.archive == SmallLedger(USUAL).archive
    ensures ManifestBytes([OldEntry(USUAL)] + [m]) <= MAX_MANIFEST_BYTES
  {
    hide ArchiveName;
    BNameFree();
    assert BaseName(["b.json"]) == "b.json";
    TextLength("b.json");
    TextLength("quota");
    SmallManifest(USUAL);
    ManifestGrows([OldEntry(USUAL)], [m]);
    assert [m][1..] == [] && PathBytes(["b.json"]) == TextBytes("b.json");
    assert SafeReason("quota") && TextBytes("") == 0;
  }

  lemma BNameFree()
    ensures ArchiveName("b.json", Present(SmallLedger(USUAL).archive)) == "b.json"
  {
    var l := SmallLedger(USUAL);
    forall n | n in Present(l.archive) ensures n == "old.json" {
      var k :| k in l.archive.Keys && k != [] && k[0] == n;
      assert k == ["old.json"];
    }
    assert "b.json"[0] != "old.json"[0];
    ArchiveNameLeast("b.json", Present(l.archive));
  }

  lemma {:induction false} TextLength(s: string)
    ensures TextBytes(s) <= 6 * |s|
    decreases |s|
  {
    if s != "" {
      TextLength(s[1..]);
    }
  }

  /** Over a full manifest one archived canary blocks every later recovery. */
  lemma FullArchive() returns (w: LiveTransaction.World<string>, m: Move)
    ensures w == LiveRuns.Happen(
                   TransactionPlan(), CanaryOut(MAX_MANIFEST_BYTES - 62), LiveRuns.Archive("b.json", "quota", "", Clean))
    ensures LiveRuns.Recoverable(SmallLedger(MAX_MANIFEST_BYTES - 62), TransactionPlan(), w, [m])
    ensures LiveRecovery.Oversized(w.ledger, [m])
  {
    hide ManifestBytes, ArchiveName, Restorable, Placed, LiveRuns.Pending, LiveRuns.TreeKept, LiveRuns.Happen, LiveRuns.Possible,
      BatchMove;
    var size := MAX_MANIFEST_BYTES - 62;
    w, m := CanaryArchived(size, "");
    GrownListing(SmallLedger(size), w.ledger, LiveRuns.Batch(TransactionPlan()), [m]);
    SmallManifest(size);
    ManifestGrows([OldEntry(size)], [m]);
    assert EntryBytes([m]) >= ENTRY_FRAME by { assert [m][1..] == []; }
  }

  const OLDER := Modern(false, ["b.json"], "old.json", "expired", "", "", "", 133)

  /** The live transaction when its archive has kept a canary of an earlier one: no run ever ends in an accepted recovery. */
  function OlderStart(): LiveTransaction.World<string> {
    TransactionStart(USUAL).(ledger := SmallLedger(USUAL).(manifest := Listed([OLDER])))
  }

  lemma OlderCanary(run: seq<LiveRuns.Event<string>>, d: LiveTransaction.Listings, probe: LiveTransaction.Probe)
    requires OlderEntries.OwnRun(TransactionPlan(), OlderStart(), run)
    ensures LiveRuns.Initial(OlderStart().ledger, TransactionPlan(), OlderStart())
    ensures !LiveTransaction.Recover(TransactionPlan(), LiveRuns.Follow(TransactionPlan(), OlderStart(), run), d, probe).1.Finished?
  {
    hide LiveTransaction.Recover, OlderEntries.OwnRun, LiveRuns.Follow;
    assert OLDER in Listing(OlderStart().ledger.manifest);
    OlderEntries.OlderForever(OlderStart().ledger, TransactionPlan(), OlderStart(), run, d, probe);
  }

  /** The state before the canary is archived, when an older entry's account is the canary's name. */
  function ClaimingOut(): LiveTransaction.World<string> {
    CanaryOut(USUAL).(ledger := ClaimingLedger().(auth := CanaryOut(USUAL).ledger.auth))
  }

  lemma ClaimedMove() returns (m: Move)
    ensures m == EntryFor(ClaimingOut().ledger, ["b.json"], "quota", "") && m.quarantineName == "b.json" && m.parts == ["b.json"]
  {
    hide ArchiveName;
    ClaimingName();
    m := EntryFor(ClaimingOut().ledger, ["b.json"], "quota", "");
    assert BaseName(["b.json"]) == "b.json";
  }

  lemma ClaimedPair(m: Move)
    requires m.quarantineName == "b.json" && m.parts == ["b.json"]
    ensures OlderEntries.Claimed([CLAIMING] + [m], ["b.json"], m, CLAIMING)
  {
    var entries := [CLAIMING] + [m];
    assert entries[0] == CLAIMING && entries[1] == m;
    assert CLAIMING.parts[0] == "old.json" && "b.json"[0] != "old.json"[0];
    assert EntryPaths(CLAIMING).Some?;
  }

  /** The canary archived under a name that an older entry claims: it is never restored. */
  lemma ClaimedCanary() returns (m: Move)
    ensures var e := LiveRuns.Event<string>.Archive("b.json", "quota", "", Clean);
            && OlderEntries.OwnEvent(TransactionPlan(), ClaimingOut(), e)
            && OlderEntries.Claimed(
                 Listing(LiveRuns.Happen(TransactionPlan(), ClaimingOut(), e).ledger.manifest), TransactionPlan().canaries, m, CLAIMING)
  {
    hide ArchiveName, NewEntry, OlderEntries.Claimed;
    m := ClaimedMove();
    ClaimedPair(m);
    assert ManifestBytes([CLAIMING]) <= MAX_MANIFEST_BYTES by { assert [CLAIMING][1..] == [] && EntryBytes([]) == 0; }
    assert ["b.json"] in ClaimingOut().ledger.auth;
    var after := LiveRuns.Happen(TransactionPlan(), ClaimingOut(), LiveRuns.Archive("b.json", "quota", "", Clean));
    assert Listing(after.ledger.manifest) == [CLAIMING] + [m];
  }

  /** A baseline-named watcher file that cannot be read may appear while it is held. */
  lemma UnreadableInput()
    ensures LiveRuns.Possible(SmallLedger(USUAL), TransactionPlan(), CanaryOut(USUAL), LiveRuns.Arrive("state", None))
    ensures !LiveRecovery.SweepReadable(
              TransactionPlan(), LiveRuns.Happen(TransactionPlan(), CanaryOut(USUAL), LiveRuns.Arrive("state", None)).sweep, ["state"])
  {
    assert "state" in ["state"];
  }

  /** A baseline watcher file may be rewritten before it is held, and is then lost. */
  lemma WatcherRewritten()
    ensures LiveRuns.Possible(SmallLedger(USUAL), TransactionPlan(), TransactionStart(USUAL), LiveRuns.Arrive("state", Some("t")))
    ensures !LiveRuns.FileSafe(
              TransactionPlan(), LiveRuns.Happen(TransactionPlan(), TransactionStart(USUAL), LiveRuns.Arrive("state", Some("t"))), "state")
  {
    assert "t"[0] != "s"[0];
  }

  /** The active credential may be rewritten while it is in its place. */
  lemma ActiveRewritten()
    ensures LiveRuns.Possible(SmallLedger(USUAL), TransactionPlan(), TransactionStart(USUAL), LiveRuns.Rewrite("a.json", "renewed"))
    ensures var w := LiveRuns.Happen(TransactionPlan(), TransactionStart(USUAL), LiveRuns.Rewrite("a.json", "renewed"));
            !LiveRuns.ActiveSafe(TransactionPlan(), w.ledger.auth, w.heldActive)
  {
    assert "a.json" in LiveRuns.Batch(TransactionPlan());
    assert "renewed"[0] != "active"[0];
  }

  // ---------------------------------------------------------------- the promotion

  const ANSWERS := Promotion.Probe(true, "running", "available")

  /** With an empty baseline archive no rollback is ever accepted, not even of an untouched promotion. */
  lemma EmptyArchive(d: Promotion.Listings, probe: Promotion.Probe)
    returns (b: Ledger<string>, p: Promotion.Plan<string>, start: Promotion.World<string>)
    ensures PromotionRuns.Baseline(b, p) && PromotionRuns.Initial(b, p, start)
    ensures Promotion.ListsOf(p, start, d) ==> !Promotion.Rollback(p, start, d, probe).1.Finished?
  {
    hide ActivePool, ClashFree, ValidParts, IsJson, Promotion.Rollback, Promotion.ListsOf, PromotionRuns.Recoverable, PromotionLaws.Intact,
      PromotionLaws.Explained, Promotion.Promoted, PromotionLaws.Sifted, PromotionLaws.Answers, PromotionRuns.ImportsOnly, PromotionLaws.CanRefill;
    b := SmallLedger(USUAL).(manifest := Listed([]));
    p := PromotionPlan(USUAL).(archiveEntries := []);
    start := PromotionStart(USUAL).(ledger := b);
    SmallLedgerFacts(USUAL);
    NewName(USUAL);
    EmptyUnclaimed(b, "b.json");
    PromotionRuns.InitialRecoverable(b, p, start);
    if Promotion.ListsOf(p, start, d) {
      var w', verdict, left := PromotionLaws.RollbackRestores(b, p, start, [], d, probe);
    }
  }

  lemma EmptyUnclaimed<C>(b: Ledger<C>, c: string)
    requires b.manifest == Listed([])
    ensures ClashFree(b, c)
  {}

  /** A promotion over an archive that already lists a file of the import's name: once recorded it cannot be rolled back. */
  lemma OlderImport(b: Ledger<string>, run: seq<PromotionRuns.Event<string>>, d: Promotion.Listings, probe: Promotion.Probe)
    returns (p: Promotion.Plan<string>, w: Promotion.World<string>)
    ensures p == PromotionPlan(USUAL).(archiveEntries := [OLDER]) && OlderEntries.Recorded(p, w)
    ensures w.ledger == Imported(USUAL).ledger.(manifest := Listed([OLDER]))
    ensures PromotionRuns.PossibleRun(b, p, w, run) && OlderEntries.OwnPromotions(b, p, w, run)
            && Promotion.ListsOf(p, PromotionRuns.Follow(b, p, w, run), d) ==>
              !Promotion.Rollback(p, PromotionRuns.Follow(b, p, w, run), d, probe).1.Finished?
  {
    hide Promotion.Rollback, OlderEntries.OwnPromotions, PromotionRuns.PossibleRun, PromotionRuns.Follow, Promotion.ListsOf;
    p := PromotionPlan(USUAL).(archiveEntries := [OLDER]);
    w := Imported(USUAL).(ledger := Imported(USUAL).ledger.(manifest := Listed([OLDER])), promoted := Promotion.ImportNames(p),
                          phase := Promotion.Imported, next := 2);
    assert OLDER in Listing(w.ledger.manifest);
    OlderEntries.OthersAll(Listing(w.ledger.manifest), p.imports);
    if PromotionRuns.PossibleRun(b, p, w, run) && OlderEntries.OwnPromotions(b, p, w, run)
       && Promotion.ListsOf(p, PromotionRuns.Follow(b, p, w, run), d) {
      OlderEntries.RecordedForever(b, p, w, run, d, probe);
    }
  }

  /** The credential is imported. */
  function Imported(size: nat): Promotion.World<string> {
    PromotionStart(size).(ledger := SmallLedger(size).(auth := map[["a.json"] := "active", ["b.json"] := "new"]), next := 1)
  }

  lemma ImportedRecoverable(size: nat)
    requires 62 + size <= Promotion.MAX_ARCHIVE_BYTES
    ensures PromotionRuns.Baseline(SmallLedger(size), PromotionPlan(size))
    ensures PromotionRuns.Recoverable(SmallLedger(size), PromotionPlan(size), Imported(size), [])
    ensures Promotion.Advance(PromotionPlan(size), PromotionStart(size), Promotion.Import("b.json")) == Some(Imported(size))
  {
    hide PromotionRuns.Baseline, PromotionRuns.Kept, Grown;
    var b, p, w := SmallLedger(size), PromotionPlan(size), PromotionStart(size);
    PromotionStarts(size);
    NewName(size);
    var w1 := Promotion.Advance(p, w, Promotion.Import(p.imports[0])).value;
    PromotionRuns.ImportKeeps(b, p, w, []);
    assert w1.ledger.auth == Imported(size).ledger.auth;
  }

  /** A receipt names it, before the manifest records anything. */
  function Reported(): Promotion.World<string> {
    Imported(USUAL).(failure := map["r.json" := Receipt("b.json", "failed")])
  }

  lemma ReportedRecoverable()
    ensures PromotionRuns.Baseline(SmallLedger(USUAL), PromotionPlan(USUAL))
    ensures PromotionRuns.Recoverable(SmallLedger(USUAL), PromotionPlan(USUAL), Reported(), [])
  {
    hide Grown, PromotionRuns.TreeKept, PromotionRuns.Baseline;
    ImportedRecoverable(USUAL);
  }

  lemma ReportedAccepted(d: Promotion.Listings)
    requires d == Promotion.Listings(["b.json"], ["r.json"])
    ensures Promotion.ListsOf(PromotionPlan(USUAL), Reported(), d)
    ensures Promotion.Rollback(PromotionPlan(USUAL), Reported(), d, ANSWERS).1.Finished?
  {
    hide PromotionRuns.Baseline, PromotionRuns.Recoverable, Promotion.Rollback, PromotionLaws.Sifted, PromotionLaws.Contained, ManifestBytes,
      PromotionLaws.Judged, Promotion.Promoted;
    var b, p, w := SmallLedger(USUAL), PromotionPlan(USUAL), Reported();
    ReportedRecoverable();
    SmallWithin(USUAL, Promotion.MAX_ARCHIVE_BYTES);
    PromotionRuns.PromotedCovers(b, p, w, []);
    assert Promotion.Promoted(p, w) == {"b.json"};
    var w', verdict, left := PromotionLaws.RollbackRestores(b, p, w, [], d, ANSWERS);
  }

  /** Its rollback would be accepted, but one that dies in the wrong place strands the receipt for good. */
  lemma ReceiptStranded() returns (count: nat, w1: Promotion.World<string>)
    ensures var p, w, d := PromotionPlan(USUAL), Reported(), Promotion.Listings(["b.json"], ["r.json"]);
            && Promotion.ListsOf(p, w, d) && Promotion.Rollback(p, w, d, ANSWERS).1.Finished? && count < |Promotion.RollbackOps(p, w, d)|
            && w1 == PromotionRuns.Died(p, Promotion.Exec(p, Promotion.Stopped(p, w), Promotion.RollbackOps(p, w, d)[..count], ANSWERS).0)
            && PromotionRuns.Recoverable(SmallLedger(USUAL), p, w1, []) && PromotionLaws.Stranded(SmallLedger(USUAL), p, w1, "r.json")
  {
    hide PromotionRuns.Baseline, PromotionRuns.Recoverable, Promotion.Rollback, Promotion.RollbackOps, Promotion.Exec, Promotion.ListsOf,
      PromotionLaws.Stranded;
    var b, p, w, d := SmallLedger(USUAL), PromotionPlan(USUAL), Reported(), Promotion.Listings(["b.json"], ["r.json"]);
    ReportedRecoverable();
    ReportedAccepted(d);
    count, w1 := PromotionLaws.StrandedReceipt(b, p, w, [], d, ANSWERS, "r.json");
  }

  /** Over an archive manifest that the promotion can just read, one archived import blocks every later rollback. */
  lemma LargeArchive() returns (w: Promotion.World<string>)
    ensures var size := Promotion.MAX_ARCHIVE_BYTES - 62;
            var b, p, e := SmallLedger(size), PromotionPlan(size), PromotionRuns.Event<string>.Archiving("b.json", "quota", "", Clean);
            && PromotionRuns.Baseline(b, p) && PromotionRuns.Possible(b, p, Imported(size), e) && w == PromotionRuns.Happen(b, p, Imported(size), e)
            && !Within(w.ledger.manifest, Promotion.MAX_ARCHIVE_BYTES) && !w.ready && w.halfMade == {}
  {
    hide PromotionRuns.Baseline, PromotionRuns.Recoverable, ManifestBytes, ArchiveName, ClashFree;
    var size := Promotion.MAX_ARCHIVE_BYTES - 62;
    var b, p, l := SmallLedger(size), PromotionPlan(size), Imported(size).ledger;
    ImportedRecoverable(size);
    NoClash(size, "b.json");
    assert "b.json" in PromotionRuns.Batch(p);
    w := PromotionRuns.Happen(b, p, Imported(size), PromotionRuns.Archiving("b.json", "quota", "", Clean));
    SmallWithin(size, MAX_MANIFEST_BYTES);
    QuarantineSucceeds(l, ["b.json"], "quota", "");
    var m := EntryFor(l, ["b.json"], "quota", "");
    SmallManifest(size);
    ManifestGrows([OldEntry(size)], [m]);
    assert EntryBytes([m]) >= ENTRY_FRAME by { assert [m][1..] == []; }
  }

  /** A baseline credential may be archived by the watcher. */
  lemma BaselineArchived() returns (w: Promotion.World<string>, es: seq<Move>)
    ensures var b, p, e := SmallLedger(USUAL), PromotionPlan(USUAL), PromotionRuns.Event<string>.Archiving("a.json", "quota", "", Clean);
            && PromotionRuns.Baseline(b, p) && PromotionRuns.Possible(b, p, PromotionStart(USUAL), e)
            && w == PromotionRuns.Happen(b, p, PromotionStart(USUAL), e)
            && PromotionRuns.Recoverable(b, p, w, es) && !PromotionRuns.ImportsOnly(p, es)
  {
    hide PromotionRuns.Baseline, ManifestBytes, ArchiveName, ClashFree, Grown, AfterQuarantine, PromotionRuns.Kept, BatchMove;
    var b, p, l := SmallLedger(USUAL), PromotionPlan(USUAL), SmallLedger(USUAL);
    PromotionStarts(USUAL);
    NoClash(USUAL, "a.json");
    assert "a.json" in PromotionRuns.Batch(p);
    w := PromotionRuns.Happen(b, p, PromotionStart(USUAL), PromotionRuns.Archiving("a.json", "quota", "", Clean));
    es := PromotionRuns.ArchivingKeeps(b, p, PromotionStart(USUAL), [], "a.json", "quota", "", Clean);
    PromotionRuns.BatchPlaces(b, p, "a.json");
    SmallWithin(USUAL, MAX_MANIFEST_BYTES);
    var m := TakeGrows(b, l, PromotionRuns.Batch(p), [], "a.json", "quota", "", Clean);
    assert [] + [m] == [m];
    GrownOnce(b, w.ledger, PromotionRuns.Batch(p), es, [m]);
    assert m in es && m.parts in SourcesOf(es);
  }

  /** The manifest records the import, a baseline credential is rewritten, and then it is held. */
  function Recorded(): Promotion.World<string> {
    Imported(USUAL).(promoted := {"b.json"}, phase := Promotion.Imported, next := 2)
  }

  function Rewritten(): Promotion.World<string> {
    Recorded().(ledger := SmallLedger(USUAL).(auth := map[["a.json"] := "renewed", ["b.json"] := "new"]))
  }

  function HeldRewritten(): Promotion.World<string> {
    Recorded().(ledger := SmallLedger(USUAL).(auth := map[["b.json"] := "new"]), held := map["a.json" := "renewed"], next := 3)
  }

  const PROMOTING := PromotionRuns.Event<string>.Promote
  const REWRITING := PromotionRuns.Event<string>.Rewrite("a.json", "renewed")

  lemma RewritesFirst()
    ensures var b, p := SmallLedger(USUAL), PromotionPlan(USUAL);
            && PromotionRuns.Possible(b, p, Imported(USUAL), PROMOTING) && PromotionRuns.Happen(b, p, Imported(USUAL), PROMOTING) == Recorded()
            && PromotionRuns.Possible(b, p, Recorded(), REWRITING) && PromotionRuns.Happen(b, p, Recorded(), REWRITING) == Rewritten()
  {
    hide Promotion.Script, Promotion.Advance, ManifestBytes;
    PromotionRuns.ScriptAt(PromotionPlan(USUAL), 1);
    RecordsImport();
    assert "a.json" in PromotionRuns.Batch(PromotionPlan(USUAL));
    assert Recorded().ledger.auth[["a.json"] := "renewed"] == Rewritten().ledger.auth;
  }

  lemma HoldsThen()
    ensures var b, p := SmallLedger(USUAL), PromotionPlan(USUAL);
            PromotionRuns.Possible(b, p, Rewritten(), PROMOTING) && PromotionRuns.Happen(b, p, Rewritten(), PROMOTING) == HeldRewritten()
  {
    hide Promotion.Script, ManifestBytes;
    PromotionRuns.ScriptAt(PromotionPlan(USUAL), 2);
    assert Rewritten().ledger.auth - {["a.json"]} == HeldRewritten().ledger.auth by { TwoNames(); }
  }

  lemma TwoNames()
    ensures ["a.json"] != ["b.json"] && "renewed" != "active"
  {
    assert ["a.json"][0][0] != ["b.json"][0][0] && "renewed"[0] != "active"[0];
  }

  /** A baseline credential that is rewritten before it is held cannot be put back. */
  lemma StaleHeld()
    ensures var b, p, w, run := SmallLedger(USUAL), PromotionPlan(USUAL), Imported(USUAL), [PROMOTING, REWRITING, PROMOTING];
            && PromotionRuns.Recoverable(b, p, w, []) && PromotionRuns.PossibleRun(b, p, w, run)
            && PromotionRuns.Follow(b, p, w, run) == HeldRewritten() && PromotionLaws.Astale(p, HeldRewritten(), [], "a.json")
  {
    hide PromotionRuns.Baseline, PromotionRuns.Recoverable, PromotionRuns.Possible, PromotionRuns.Happen, ManifestBytes;
    var b, p := SmallLedger(USUAL), PromotionPlan(USUAL);
    ImportedRecoverable(USUAL);
    RewritesFirst();
    HoldsThen();
    TwoNames();
    assert [PROMOTING][1..] == [] && [REWRITING, PROMOTING][1..] == [PROMOTING] && [PROMOTING, REWRITING, PROMOTING][1..] == [REWRITING, PROMOTING];
    assert PromotionRuns.PossibleRun(b, p, HeldRewritten(), []) && PromotionRuns.Follow(b, p, HeldRewritten(), []) == HeldRewritten();
    assert PromotionRuns.PossibleRun(b, p, Rewritten(), [PROMOTING]) && PromotionRuns.Follow(b, p, Rewritten(), [PROMOTING]) == HeldRewritten();
    assert PromotionRuns.PossibleRun(b, p, Recorded(), [REWRITING, PROMOTING]);
    assert SourcesOf([]) == {};
  }

  lemma RecordsImport()
    ensures Promotion.Advance(PromotionPlan(USUAL), Imported(USUAL), Promotion.RecordImported) ==
              Some(Imported(USUAL).(promoted := {"b.json"}, phase := Promotion.Imported, next := 2))
  {
    hide PromotionRuns.Baseline;
    var b, p, w := SmallLedger(USUAL), PromotionPlan(USUAL), Imported(USUAL);
    ImportedRecoverable(USUAL);
    PromotionRuns.CreatedAreImports(b, p, w);
    assert Promotion.Created(p, w) == {"b.json"};
  }

  /** Once a baseline credential is lost its private copy is written, which may be cut. */
  lemma CopyMayBeCut()
    ensures PromotionRuns.Possible(SmallLedger(USUAL), PromotionPlan(USUAL), PromotionStart(USUAL), PromotionRuns.Lose("a.json"))
    ensures PromotionRuns.Copies(
              PromotionPlan(USUAL),
              PromotionRuns.Happen(SmallLedger(USUAL), PromotionPlan(USUAL), PromotionStart(USUAL), PromotionRuns.Lose("a.json")), "a.json")
  {
    assert ["a.json"] !in SmallLedger(USUAL).dirs;
  }

  // ---------------------------------------------------------------- the gateway config

  /** A key line without its terminator, and a config that ends with it. */
  function OpenLine(key: string): string {
    "  - " + JsonQuote(key)
  }

  function OpenLines(key: string): seq<string> {
    [HEADER + "\n", OpenLine(key)]
  }

  lemma {:induction false} BreaklessLine(line: string)
    requires line != [] && forall c :: c in line ==> !IsBreak(c)
    ensures OneLine(line)
    decreases |line|
  {
    hide IsBreak;
    assert line[0] in line && line[0] != '\r' by { Newline(); }
    if |line| > 1 {
      forall c | c in line[1..] ensures c in line {}
      BreaklessLine(line[1..]);
    } else {
      assert line[1..] == [];
    }
  }

  lemma OpenLineFacts(key: string)
    ensures OneLine(OpenLine(key)) && !Ended(OpenLine(key)) && !Blank(OpenLine(key)) && !IsHeader(OpenLine(key))
    ensures Chomp(NewLine(key)) == OpenLine(key)
  {
    hide JsonQuote, OneLine;
    var u := OpenLine(key);
    QuotePrintable(key);
    QuoteEnds(key);
    forall c | c in u ensures !IsBreak(c) {
      assert ' ' <= c <= '~';
    }
    BreaklessLine(u);
    assert u[|u| - 1] in u && u[0] == ' ' && u[2] == '-' && u[2] in u;
    assert |u| >= |HEADER| ==> u[..|HEADER|][0] == u[0];
    assert NewLine(key) == u + ['\n'];
  }

  lemma OpenConfig(key: string)
    requires ValidKey(key)
    ensures SplitLines(Join(OpenLines(key))) == OpenLines(key)
    ensures ListsKeys(OpenLines(key), 0, [key]) && !Terminated(OpenLines(key), 0)
  {
    hide OpenLine, NewLine, OneLine, Ended, Blank, IsHeader, Chomp, KindOf, ParseScalar;
    var lines, tail := OpenLines(key), [NewLine(key)];
    HeaderLine();
    OpenLineFacts(key);
    LinesKeys(key);
    assert Follows(lines[0], lines[1]) by { OpenFollows(key); }
    SplitJoin(lines);
    assert FirstHeader(lines, 0) == 0 && FirstHeader(lines, 1) == FirstHeader(lines, 2) == 2;
    assert lines[1..] == Chomped(tail) == [OpenLine(key)];
    ChompedKeys(tail);
    ChompKind(NewLine(key));
    NewLineKind(key);
    assert lines[1..][1..] == [] && BlockLength(lines[1..][1..]) == 0;
  }

  lemma OpenFollows(key: string)
    ensures Follows(HEADER + "\n", OpenLine(key))
  {
    HeaderLine();
    assert (HEADER + "\n")[|HEADER + "\n"| - 1] == '\n';
  }

  /** Appending a key to it loses the new key, or does not even leave a readable list. */
  lemma UnterminatedList(key: string, next: string)
    requires ValidKey(key) && ValidKey(next)
    ensures ListsKeys(SplitLines(Join(OpenLines(key))), 0, [key])
    ensures ApiKeys(Appended(SplitLines(Join(OpenLines(key))), 0, next)) != Success([key] + [next])
  {
    hide OpenLine, SplitLines, Join, ListsKeys, Appended, ApiKeys, Terminated, Blank;
    OpenConfig(key);
    OpenLineFacts(key);
    AppendAddsIff(Join(OpenLines(key)), 0, [key], next) by { OpenHolds(key); }
  }

  lemma OpenHolds(key: string)
    requires ListsKeys(OpenLines(key), 0, [key])
    ensures 0 < |OpenLines(key)|
  {}

  // ---------------------------------------------------------------- the key protocol

  /** A rotation rollback cut between config and credential leaves a credential that the config lacks. */
  lemma CutRollback(current: string, next: string, tx: string) returns (d: KeyProtocol.Disk, after: KeyProtocol.Disk)
    requires PlainKey(current) && PlainKey(next) && current != next
    ensures KeyProtocolLaws.Serving(d) && KeyProtocolLaws.NewKey(d, next)
    ensures KeyProtocol.Rotate(d, tx, next, "", KeyProtocol.Fails(3, 1, false, 2)) == (after, KeyProtocol.Incomplete)
    ensures !KeyProtocolLaws.Serving(after)
  {
    hide PlainKey, KeyProtocol.RotationPlan, KeyProtocolLaws.Serving, Strip, ApiKeys;
    d := RotationStarts(current, next, tx);
    var plan := KeyProtocol.RotationPlan(d, tx, next).value;
    KeyProtocolLaws.UndoServesIff(d, tx, next, "", plan, 3, 1, 2);
    after := KeyProtocol.Rotate(d, tx, next, "", KeyProtocol.Fails(3, 1, false, 2)).0;
  }

  /** A revocation whose cleanup fails leaves its receipt: the replaced key stays and can never be revoked by it. */
  lemma LeftReceipt(current: string, next: string, tx: string, actions: seq<KeyProtocolLaws.Action>, later: KeyProtocol.Fate)
    returns (d: KeyProtocol.Disk, after: KeyProtocol.Disk)
    requires PlainKey(current) && PlainKey(next) && current != next
    ensures KeyProtocol.RevocationPlan(d, tx).Some?
    ensures KeyProtocol.Revoke(d, tx, KeyProtocol.Fails(2, 1, true, 1)) == (after, KeyProtocol.Incomplete)
    ensures after.config == d.config && after != d
    ensures KeyProtocol.Revoke(KeyProtocolLaws.Run(after, actions), tx, later).1 == KeyProtocol.Refused
  {
    hide PlainKey, KeyProtocol.RotationPlan, KeyProtocol.RevocationPlan, Strip, ApiKeys, KeyProtocolLaws.NewKey, KeyProtocolLaws.Serving,
      KeyProtocolLaws.Run;
    var start := RotationStarts(current, next, tx);
    var rotated, revoked := KeyProtocolLaws.RotateThenRevoke(start, tx, next, "");
    d := rotated;
    KeyProtocolLaws.CleanupIff(d, tx, KeyProtocol.Fails(2, 1, true, 1));
    after := KeyProtocol.Revoke(d, tx, KeyProtocol.Fails(2, 1, true, 1)).0;
    KeyProtocolLaws.LeftReceiptForever(after, actions, tx, later);
  }
}
