/** Small concrete states from which the transactions can start, so that their laws speak about something. */
module Examples {
  import opened Wrappers
  import opened ArchiveNames
  import opened QuarantineLedger
  import opened LedgerLaws
  import opened ArchivedBatch
  import opened PoolFiles
  import opened TextLines
  import opened Scalars
  import opened GatewayConfig
  import opened GatewayConfigLaws
  import LiveTransaction
  import LiveRuns
  import KeyProtocol
  import KeyProtocolLaws
  import Promotion
  import PromotionRuns

  /** An archived credential whose entry takes up this many bytes; with no other fields than a new entry has, 135. */
  function OldEntry(size: nat): Entry {
    Modern(false, ["old.json"], "old.json", "expired", "", "", "", size)
  }

  const USUAL: nat := 135

  /** One active credential, one archived one. */
  function SmallLedger(size: nat): Ledger<string> {
    Ledger(map[["a.json"] := "active"], {[]}, {}, map[["old.json"] := "expired"], Listed([OldEntry(size)]))
  }

  lemma SmallManifest(size: nat)
    ensures ManifestBytes([OldEntry(size)]) == 62 + size
  {
    assert [OldEntry(size)][1..] == [] && EntryBytes([]) == 0;
  }

  lemma SmallLedgerFacts(size: nat)
    ensures Readable(SmallLedger(size).manifest.entries)
    ensures EntryPaths(OldEntry(size)) == Some(Paths(["old.json"], ["old.json"])) && Selectors(OldEntry(size)) == {"old.json"}
    ensures ActivePool(SmallLedger(size).auth) == {"a.json"}
    ensures ValidParts(["a.json"]) && ValidParts(["b.json"]) && "old.json" in Present(SmallLedger(size).archive)
  {
    var l := SmallLedger(size);
    assert forall p :: p in l.auth ==> p == ["a.json"];
    assert IsJson("a.json") by { assert "a.json"[1..] == ".json"; }
    forall n ensures n in ActivePool(l.auth) <==> n == "a.json" {
      PoolMember(l.auth, n);
      assert [n] == ["a.json"] <==> n == "a.json" by { assert [n][0] == n && ["a.json"][0] == "a.json"; }
    }
    assert ["old.json"] in l.archive.Keys && ["old.json"][0] == "old.json";
    assert BaseName(["old.json"]) == "old.json";
  }

  lemma NoClash(size: nat, n: string)
    ensures ClashFree(SmallLedger(size), n)
  {
    SmallLedgerFacts(size);
    forall present: set<string> | Present(SmallLedger(size).archive) <= present
      ensures Unclaimed(Listing(SmallLedger(size).manifest), ArchiveName(n, present))
    {
      ArchiveNameLeast(n, present);
    }
  }

  lemma NewName(size: nat)
    ensures ["b.json"] !in SmallLedger(size).auth && ["b.json"] !in SmallLedger(size).dirs && "b.json" != "a.json" && IsJson("b.json")
    ensures forall e :: e in SmallLedger(size).manifest.entries ==> !FromNames(e, ["b.json"])
  {
    assert "b.json"[0] != "a.json"[0] && ["b.json"][0] != ["a.json"][0];
    assert "b.json"[1..] == ".json";
    assert OldEntry(size).parts[0] == "old.json" && |"old.json"| != |"b.json"|;
  }

  function PromotionPlan(size: nat): Promotion.Plan<string> {
    Promotion.Plan(["a.json"], map["a.json" := "active"], ["b.json"], map["b.json" := "new"], [OldEntry(size)], map[], "running", "available")
  }

  function PromotionStart(size: nat): Promotion.World<string> {
    Promotion.World(SmallLedger(size), map[], map[], map[], map[], None, None, {}, {}, false, {}, Promotion.Prepared, 0)
  }

  /** A promotion of one credential can start, unless its archive manifest is too large. */
  lemma PromotionStarts(size: nat)
    requires 62 + size <= Promotion.MAX_ARCHIVE_BYTES
    ensures PromotionRuns.Baseline(SmallLedger(size), PromotionPlan(size))
    ensures PromotionRuns.Initial(SmallLedger(size), PromotionPlan(size), PromotionStart(size))
    ensures PromotionRuns.Recoverable(SmallLedger(size), PromotionPlan(size), PromotionStart(size), [])
  {
    hide ActivePool, ClashFree, Readable, ValidParts, IsJson, FromNames, ManifestBytes;
    SmallLedgerFacts(size);
    SmallManifest(size);
    NoClash(size, "b.json");
    NewName(size);
    PromotionRuns.InitialRecoverable(SmallLedger(size), PromotionPlan(size), PromotionStart(size));
  }

  function TransactionPlan(): LiveTransaction.Plan<string> {
    LiveTransaction.Plan("a.json", "active", ["state"], map["state" := "s"], ["b.json"], map["b.json" := "canary"], 1, "running")
  }

  function TransactionStart(size: nat): LiveTransaction.World<string> {
    LiveTransaction.World(SmallLedger(size), LiveTransaction.InputOf(TransactionPlan()), map[], None, map[], map[], map[],
                          LiveTransaction.Prepared, 0)
  }

  /** A live transaction with one canary can start. */
  lemma TransactionStarts(size: nat)
    requires 62 + size <= LiveTransaction.MAX_ARCHIVE_BYTES
    ensures LiveRuns.Baseline(SmallLedger(size), TransactionPlan())
    ensures LiveRuns.Initial(SmallLedger(size), TransactionPlan(), TransactionStart(size))
    ensures LiveRuns.Recoverable(SmallLedger(size), TransactionPlan(), TransactionStart(size), [])
  {
    hide ActivePool, ClashFree, Readable, ValidParts, FromNames, ManifestBytes;
    SmallLedgerFacts(size);
    SmallManifest(size);
    NoClash(size, "b.json");
    NewName(size);
    LiveRuns.InitialRecoverable(SmallLedger(size), TransactionPlan(), TransactionStart(size));
  }

  // ---------------------------------------------------------------- a gateway config

  function Lines(key: string): seq<string> {
    [HEADER + "\n", NewLine(key)]
  }

  function SmallConfig(key: string): string {
    Join(Lines(key))
  }

  lemma HeaderText()
    ensures (forall c :: c in HEADER ==> !IsBreak(c)) && !IsSpace(HEADER[0]) && !IsSpace(HEADER[|HEADER| - 1])
  {}

  lemma HeaderLine()
    ensures OneLine(HEADER + "\n") && Ended(HEADER + "\n") && IsHeader(HEADER + "\n") && Strip(HEADER + "\n") == HEADER
  {
    HeaderText();
    SpacesBlank();
    Newline();
    hide IsSpace, IsBreak, Blank, Strip, OneLine;
    SoleBreakLine(HEADER);
    StripUnique("", HEADER, "\n");
    assert "" + HEADER + "\n" == HEADER + "\n";
    assert (HEADER + "\n")[..|HEADER|] == HEADER;
  }

  lemma LinesTidy(key: string)
    ensures Tidy(Lines(key))
  {
    HeaderLine();
    NewLineIsLine(key);
    hide IsBreak, OneLine, NewLine;
  }

  lemma LinesHeader(key: string)
    ensures Header(Lines(key)) == Some(0)
  {
    HeaderLine();
    NewLineKind(key);
    hide NewLine, IsHeader, Strip, KindOf;
    var lines := Lines(key);
    assert FirstHeader(lines, 0) == 0;
    assert FirstHeader(lines, 1) == FirstHeader(lines, 2) == 2;
  }

  lemma LinesKeys(key: string)
    requires ValidKey(key)
    ensures Lines(key)[1..] == [NewLine(key)] && KeysIn(Lines(key)[1..]) == Success([key])
    ensures Terminated(Lines(key), 0)
  {
    NewLineIsLine(key);
    NewLineKind(key);
    NewHolds(key);
    hide NewLine, KindOf, ParseScalar, Ended, Holds;
    var tail := [NewLine(key)];
    assert Lines(key)[1..] == tail && tail[1..] == [];
    OneKey(NewLine(key), key);
    assert BlockLength(tail) == 1 + BlockLength(tail[1..]);
    assert BlockLength(tail[1..]) == 0;
  }

  lemma ConfigListed(key: string)
    requires ValidKey(key)
    ensures SplitLines(SmallConfig(key)) == Lines(key)
    ensures ListsKeys(SplitLines(SmallConfig(key)), 0, [key]) && Terminated(SplitLines(SmallConfig(key)), 0)
    ensures ApiKeys(SmallConfig(key)) == Success([key])
  {
    LinesTidy(key);
    SplitJoin(Lines(key));
    LinesHeader(key);
    LinesKeys(key);
    hide Lines, SplitLines, Header, KeysIn;
  }

  lemma RotationAllowed(d: KeyProtocol.Disk, current: string, next: string, tx: string)
    requires d.rotations == map[] && KeyProtocol.CredentialKey(d) == current && current != ""
    requires Header(SplitLines(d.config)) == Some(0) && ApiKeys(d.config) == Success([current])
    requires ApiKeys(Appended(SplitLines(d.config), 0, next)) == Success([current] + [next])
    ensures KeyProtocol.RotationPlan(d, tx, next).Some? && KeyProtocolLaws.Serving(d)
  {
    hide Strip, SplitLines, ApiKeys, Appended, Header, ItemCount;
    assert [current][1..] == [];
    assert KeyProtocol.Occurrences([current][1..], current) == 0;
  }

  lemma NewIn(d: KeyProtocol.Disk, current: string, next: string)
    requires d.rotations == map[] && KeyProtocol.CredentialKey(d) == current && ApiKeys(d.config) == Success([current])
    requires PlainKey(next) && current != next
    ensures KeyProtocolLaws.NewKey(d, next)
  {
    hide Strip, SplitLines, ApiKeys, PlainKey;
  }

  /** A gateway whose config and credential agree: a new key can be rotated in. */
  lemma RotationStarts(current: string, next: string, tx: string) returns (d: KeyProtocol.Disk)
    requires PlainKey(current) && PlainKey(next) && current != next
    ensures KeyProtocolLaws.Serving(d) && KeyProtocolLaws.NewKey(d, next) && KeyProtocol.RotationPlan(d, tx, next).Some? && d.receipts == {}
  {
    hide SmallConfig, Strip, SplitLines, ApiKeys, Appended, KeysIn, Terminated, PlainChar, KeyProtocol.RotationPlan,
      KeyProtocolLaws.Serving, KeyProtocolLaws.NewKey;
    d := KeyProtocol.Disk(SmallConfig(current), current + "\n", "", map[], {});
    KeyProtocolLaws.WrittenKey(current);
    KeyProtocolLaws.WrittenKey(next);
    ConfigListed(current);
    AppendAdds(SmallConfig(current), 0, [current], next);
    RotationAllowed(d, current, next, tx);
    NewIn(d, current, next);
  }
}
