/**
 Rotation and revocation of the gateway key: `_apply` of
 scripts/install_scoped_gateway_key.py and of scripts/revoke_scoped_gateway_key.py.

 Files are their contents and a digest is the text it is the digest of.  A fault cuts the
 writes off after some number of them; the rollback may be cut off in the same way.
 */
module KeyProtocol {
  import opened Wrappers
  import opened TextLines
  import opened Scalars
  import opened GatewayConfig

  datatype Status = Prepared | Rotated | Revoked

  /** A rotation manifest. */
  datatype Rotation = Rotation(status: Status, previous: Digest, current: Digest, config: string, countBefore: nat, countAfter: nat)

  datatype Disk = Disk(
    config: string,
    credential: string,
    environment: string,
    rotations: map<string, Rotation>,
    receipts: set<string>)

  /**
   How far a transaction gets: `fault` writes are done before it fails, `undone` files are
   restored after that, and `cleaned` steps of its cleanup are done.
   */
  datatype Fate = AllDone | Fails(fault: nat, undone: nat, verified: bool, cleaned: nat)

  datatype Outcome = Done | RolledBack | Incomplete | Refused

  function CredentialKey(d: Disk): string {
    Strip(d.credential)
  }

  function Occurrences(keys: seq<string>, key: string): nat {
    if keys == [] then 0 else (if keys[0] == key then 1 else 0) + Occurrences(keys[1..], key)
  }

  // ---------------------------------------------------------------- rotation

  /** The config a rotation will write and the number of keys before it; None when a check refuses it. */
  function RotationPlan(d: Disk, tx: string, key: string): Option<(string, nat)> {
    var lines := SplitLines(d.config);
    var listed := ApiKeys(d.config);
    if listed.Failure? || CredentialKey(d) == "" || Occurrences(listed.value, CredentialKey(d)) != 1 then None
    else if Header(lines).None? then None
    else
      var config := Appended(lines, Header(lines).value, key);
      if ApiKeys(config) != Success(listed.value + [key]) || tx in d.rotations then None
      else Some((config, ItemCount(lines[Header(lines).value + 1..])))
  }

  function NewRotation(d: Disk, key: string, plan: (string, nat)): Rotation {
    Rotation(Prepared, Sha256(CredentialKey(d)), Sha256(key), plan.0, plan.1, plan.1 + 1)
  }

  /** The disk after the first `writes` writes of a rotation: manifest, config, credential, environment, manifest. */
  function RotateStage(d: Disk, tx: string, key: string, environment: string, plan: (string, nat), writes: nat): Disk {
    var rotation := NewRotation(d, key, plan);
    Disk(
      if writes >= 2 then plan.0 else d.config,
      if writes >= 3 then key + "\n" else d.credential,
      if writes >= 4 then environment else d.environment,
      if writes >= 5 then d.rotations[tx := rotation.(status := Rotated)]
      else if writes >= 1 then d.rotations[tx := rotation]
      else d.rotations,
      d.receipts)
  }

  /**
   The disk after restoring the first `undone` of config, credential and environment.  The
   cleanup removes the backup and then the transaction, whose removal may fail unnoticed.
   */
  function RotateUndo(stage: Disk, d: Disk, undone: nat, cleaned: nat): Disk {
    Disk(
      if undone >= 1 then d.config else stage.config,
      if undone >= 2 then d.credential else stage.credential,
      if undone >= 3 then d.environment else stage.environment,
      if cleaned >= 2 then d.rotations else stage.rotations,
      stage.receipts)
  }

  /** A rotation that fails before its second write has nothing to restore. */
  function Rotate(d: Disk, tx: string, key: string, environment: string, fate: Fate): (Disk, Outcome) {
    match RotationPlan(d, tx, key)
    case None => (d, Refused)
    case Some(plan) =>
      if fate.AllDone? then (RotateStage(d, tx, key, environment, plan, 5), Done)
      else
        (RotateUndo(RotateStage(d, tx, key, environment, plan, fate.fault), d, fate.undone, fate.cleaned),
         if (fate.fault <= 1 || (fate.undone >= 3 && fate.verified)) && fate.cleaned >= 1 then RolledBack else Incomplete)
  }

  // ---------------------------------------------------------------- revocation

  /** The config a revocation will write; None when a check refuses it. */
  function RevocationPlan(d: Disk, tx: string): Option<string> {
    if tx !in d.rotations || tx in d.receipts then None
    else
      var r := d.rotations[tx];
      var listed := ApiKeys(d.config);
      if !r.status.Rotated? || r.countAfter != r.countBefore + 1 then None
      else if Sha256(CredentialKey(d)) != r.current || d.config != r.config then None
      else if listed.Failure? || Occurrences(listed.value, CredentialKey(d)) != 1 then None
      else match RemoveByDigest(d.config, r.previous)
        case Failure(_) => None
        case Success((updated, previous, count)) =>
          if previous == CredentialKey(d) || count != r.countAfter then None else Some(updated)
  }

  /** The disk after the first `writes` writes of a revocation: config, receipt, manifest. */
  function RevokeStage(d: Disk, tx: string, updated: string, writes: nat): Disk
    requires tx in d.rotations
  {
    d.(config := if writes >= 1 then updated else d.config,
       receipts := if writes >= 2 then d.receipts + {tx} else d.receipts,
       rotations := if writes >= 3 then d.rotations[tx := d.rotations[tx].(status := Revoked)] else d.rotations)
  }

  /** Whether or not the config could be restored, the cleanup restores the manifest and removes the receipt and the backup. */
  function RevokeUndo(stage: Disk, d: Disk, undone: nat, cleaned: nat): Disk {
    d.(config := if undone >= 1 then d.config else stage.config,
       rotations := if cleaned >= 1 then d.rotations else stage.rotations,
       receipts := if cleaned >= 2 then d.receipts else stage.receipts)
  }

  function Revoke(d: Disk, tx: string, fate: Fate): (Disk, Outcome) {
    match RevocationPlan(d, tx)
    case None => (d, Refused)
    case Some(updated) =>
      if fate.AllDone? then (RevokeStage(d, tx, updated, 3), Done)
      else
        (RevokeUndo(RevokeStage(d, tx, updated, fate.fault), d, fate.undone, fate.cleaned),
         if fate.undone >= 1 && fate.verified && fate.cleaned >= 3 then RolledBack else Incomplete)
  }

  // ---------------------------------------------------------------- the host

  class Host {
    var config: string
    var credential: string
    var environment: string
    var rotations: map<string, Rotation>
    var receipts: set<string>

    constructor (config: string, credential: string, environment: string)
      ensures View() == Disk(config, credential, environment, map[], {})
    {
      this.config, this.credential, this.environment, rotations, receipts := config, credential, environment, map[], {};
    }

    function View(): Disk
      reads this
    {
      Disk(config, credential, environment, rotations, receipts)
    }

    method InstallKey(tx: string, key: string, newEnvironment: string, fate: Fate) returns (outcome: Outcome)
      modifies this
      ensures (View(), outcome) == Rotate(old(View()), tx, key, newEnvironment, fate)
    {
      hide SplitLines, Header, ApiKeys, Strip, Appended, ItemCount;
      var configBefore, credentialBefore, environmentBefore := config, credential, environment;
      var previous := Strip(credentialBefore);
      var listed := ListApiKeys(configBefore);
      if listed.Failure? || previous == "" || Occurrences(listed.value, previous) != 1 {
        return Refused;
      }
      var appended := AppendApiKey(configBefore, key);
      if appended.Failure? {
        return Refused;
      }
      var (configAfter, count) := appended.value;
      var relisted := ListApiKeys(configAfter);
      if relisted != Success(listed.value + [key]) || tx in rotations {
        return Refused;
      }
      var manifest := Rotation(Prepared, Sha256(previous), Sha256(key), configAfter, count, count + 1);
      var rotationsBefore := rotations;
      if fate.AllDone? || fate.fault >= 1 { rotations := rotations[tx := manifest]; }
      if fate.AllDone? || fate.fault >= 2 { config := configAfter; }
      if fate.AllDone? || fate.fault >= 3 { credential := key + "\n"; }
      if fate.AllDone? || fate.fault >= 4 { environment := newEnvironment; }
      if fate.AllDone? || fate.fault >= 5 {
        rotations := rotations[tx := manifest.(status := Rotated)];
        assert rotations == old(rotations)[tx := manifest.(status := Rotated)];
      }
      if fate.AllDone? {
        return Done;
      }
      if fate.undone >= 1 { config := configBefore; }
      if fate.undone >= 2 { credential := credentialBefore; }
      if fate.undone >= 3 { environment := environmentBefore; }
      if fate.cleaned >= 2 { rotations := rotationsBefore; }
      return if (fate.fault <= 1 || (fate.undone >= 3 && fate.verified)) && fate.cleaned >= 1 then RolledBack else Incomplete;
    }

    method RevokeKey(tx: string, fate: Fate) returns (outcome: Outcome)
      modifies this
      ensures (View(), outcome) == Revoke(old(View()), tx, fate)
    {
      hide SplitLines, Header, ApiKeys, Strip, RemoveByDigest;
      if tx !in rotations || tx in receipts {
        return Refused;
      }
      var manifest, configBefore, current := rotations[tx], config, Strip(credential);
      if !manifest.status.Rotated? || manifest.countAfter != manifest.countBefore + 1 {
        return Refused;
      }
      if Sha256(current) != manifest.current || config != manifest.config {
        return Refused;
      }
      var listed := ListApiKeys(configBefore);
      if listed.Failure? || Occurrences(listed.value, current) != 1 {
        return Refused;
      }
      var removal := RemoveApiKeyByDigest(configBefore, manifest.previous);
      if removal.Failure? {
        return Refused;
      }
      var (configAfter, previous, count) := removal.value;
      if previous == current || count != manifest.countAfter {
        return Refused;
      }
      var rotationsBefore, receiptsBefore := rotations, receipts;
      if fate.AllDone? || fate.fault >= 1 { config := configAfter; }
      if fate.AllDone? || fate.fault >= 2 { receipts := receipts + {tx}; }
      if fate.AllDone? || fate.fault >= 3 { rotations := rotations[tx := manifest.(status := Revoked)]; }
      if fate.AllDone? {
        return Done;
      }
      if fate.undone >= 1 { config := configBefore; }
      if fate.cleaned >= 1 { rotations := rotationsBefore; }
      if fate.cleaned >= 2 {
        receipts := receipts - {tx};
        assert fate.fault >= 2 || receipts == receiptsBefore;
        assert receipts == receiptsBefore;
      }
      return if fate.undone >= 1 && fate.verified && fate.cleaned >= 3 then RolledBack else Incomplete;
    }
  }
}
