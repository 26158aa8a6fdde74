/** What whole runs of rotations and revocations keep. */
module KeyProtocolLaws {
  import opened Wrappers
  import opened TextLines
  import opened Scalars
  import opened GatewayConfig
  import opened GatewayConfigLaws
  import opened RemovalLaws
  import opened KeyProtocol

  function Keys(d: Disk): seq<string> {
    match ApiKeys(d.config) case Failure(_) => [] case Success(keys) => keys
  }

  /** The credential's key is in the config exactly once. */
  ghost predicate Serving(d: Disk) {
    ApiKeys(d.config).Success? && Occurrences(Keys(d), CredentialKey(d)) == 1
  }

  // ---------------------------------------------------------------- occurrences

  lemma {:induction false} OccurrencesCount(keys: seq<string>, key: string)
    ensures Occurrences(keys, key) == CountMatches(keys, Sha256(key)) == multiset(keys)[key]
    decreases |keys|
  {
    CountIs(keys, key);
    if keys != [] {
      OccurrencesCount(keys[1..], key);
    }
  }

  lemma OccurrencesAppend(keys: seq<string>, last: string, key: string)
    ensures Occurrences(keys + [last], key) == Occurrences(keys, key) + (if last == key then 1 else 0)
  {
    OccurrencesCount(keys, key);
    OccurrencesCount(keys + [last], key);
  }

  lemma {:induction false} OccurrencesOthers(keys: seq<string>, gone: string, key: string)
    ensures Occurrences(Others(keys, gone), key) == if key == gone then 0 else Occurrences(keys, key)
    decreases |keys|
  {
    if keys != [] {
      hide Others, Occurrences;
      var first, tail := keys[0], keys[1..];
      assert keys == [first] + tail;
      OccurrencesOthers(tail, gone, key);
      OthersFirst(first, tail, gone);
      OccurrencesFirst(first, tail, key);
      OccurrencesFirst(first, Others(tail, gone), key);
    }
  }

  lemma OccurrencesFirst(first: string, keys: seq<string>, key: string)
    ensures Occurrences([first] + keys, key) == (if first == key then 1 else 0) + Occurrences(keys, key)
  {
    assert ([first] + keys)[1..] == keys;
  }

  lemma {:induction false} OthersLength(keys: seq<string>, gone: string)
    ensures |Others(keys, gone)| == |keys| - Occurrences(keys, gone)
    decreases |keys|
  {
    if keys != [] {
      OthersLength(keys[1..], gone);
    }
  }

  /** A generated key survives being written with a line feed and trimmed again. */
  lemma WrittenKey(key: string)
    requires PlainKey(key)
    ensures Strip(key + "\n") == key && ValidKey(key)
  {
    SpacesBlank();
    assert PlainChar(key[0]) && PlainChar(key[|key| - 1]);
    StripUnique("", key, "\n");
    assert "" + key + "\n" == key + "\n";
  }

  // ---------------------------------------------------------------- rotation

  lemma RotationPlanned(d: Disk, tx: string, key: string) returns (plan: (string, nat))
    requires RotationPlan(d, tx, key).Some?
    ensures RotationPlan(d, tx, key) == Some(plan) && Serving(d) && CredentialKey(d) != "" && tx !in d.rotations
    ensures ApiKeys(plan.0) == Success(Keys(d) + [key]) && plan.1 == |Keys(d)| && KeyAdded(d.config, plan.0, key)
  {
    hide Appended, Strip, ApiKeys, Header;
    plan := RotationPlan(d, tx, key).value;
    assert ApiKeys(d.config) == NonEmpty(KeysIn(SplitLines(d.config)[Header(SplitLines(d.config)).value + 1..])) by { Listed(d.config); }
    KeysCounted(SplitLines(d.config)[Header(SplitLines(d.config)).value + 1..]);
  }

  lemma Listed(config: string)
    ensures Header(SplitLines(config)).Some? ==> ApiKeys(config) == NonEmpty(KeysIn(SplitLines(config)[Header(SplitLines(config)).value + 1..]))
  {
    hide Header, KeysIn, SplitLines;
  }

  /** At every point of a rotation, and after every complete rollback, the credential's key is in the config once. */
  lemma RotationServes(d: Disk, tx: string, key: string, environment: string, plan: (string, nat), writes: nat)
    requires RotationPlan(d, tx, key) == Some(plan) && PlainKey(key) && key !in Keys(d)
    ensures Serving(RotateStage(d, tx, key, environment, plan, writes))
  {
    hide ApiKeys, Strip, RotationPlan;
    var p := RotationPlanned(d, tx, key);
    WrittenKey(key);
    OccurrencesAppend(Keys(d), key, CredentialKey(d));
    OccurrencesAppend(Keys(d), key, key);
    OccurrencesCount(Keys(d), key);
    OccurrencesCount(Keys(d), CredentialKey(d));
  }

  /** A rollback cut off between restoring the config and the credential leaves a credential that the config lacks. */
  lemma UndoServesIff(d: Disk, tx: string, key: string, environment: string, plan: (string, nat), writes: nat, undone: nat,
                      cleaned: nat)
    requires RotationPlan(d, tx, key) == Some(plan) && PlainKey(key) && key !in Keys(d)
    ensures Serving(RotateUndo(RotateStage(d, tx, key, environment, plan, writes), d, undone, cleaned)) <==> !(writes >= 3 && undone == 1)
  {
    hide ApiKeys, Strip, RotationPlan;
    var p := RotationPlanned(d, tx, key);
    RotationServes(d, tx, key, environment, plan, writes);
    WrittenKey(key);
    OccurrencesCount(Keys(d), key);
  }

  /** Nothing but the rotation's own manifest is left, and that only if its removal failed unnoticed. */
  ghost predicate LeftOver(d: Disk, after: Disk, tx: string, key: string) {
    && after == d.(rotations := after.rotations)
    && (after.rotations == d.rotations
        || (tx !in d.rotations && tx in after.rotations && after.rotations == d.rotations[tx := after.rotations[tx]]
            && after.rotations[tx].current == Sha256(key)))
  }

  /** The config with the key's line put at the end of its list. */
  ghost predicate KeyAdded(before: string, after: string, key: string) {
    Header(SplitLines(before)).Some? && after == Appended(SplitLines(before), Header(SplitLines(before)).value, key)
  }

  /**
   A completed rotation adds its key at the end and makes it the credential, and writes the
   environment; any other leaves the disk as it was, up to its manifest.
   */
  lemma RotationResult(d: Disk, tx: string, key: string, environment: string, fate: Fate)
    requires PlainKey(key)
    ensures var (after, outcome) := Rotate(d, tx, key, environment, fate);
            && (outcome == Done ==> Keys(after) == Keys(d) + [key] && CredentialKey(after) == key && Serving(d)
                                    && KeyAdded(d.config, after.config, key) && after.credential == key + "\n"
                                    && after.environment == environment
                                    && tx !in d.rotations && after.receipts == d.receipts
                                    && after.rotations == d.rotations[tx := Rotation(
                                         Rotated, Sha256(CredentialKey(d)), Sha256(key), after.config, |Keys(d)|, |Keys(d)| + 1)])
            && (outcome == RolledBack || outcome == Refused ==> LeftOver(d, after, tx, key))
            && (outcome == Refused || (outcome == RolledBack && fate.cleaned >= 2) ==> after == d)
  {
    hide ApiKeys, Strip, RotationPlan;
    if RotationPlan(d, tx, key).Some? {
      var plan := RotationPlanned(d, tx, key);
      WrittenKey(key);
    }
  }

  /**
   A rotation is allowed if and only if its transaction is new, the credential's key is in
   the config once, and the list is terminated or ends in a blank line.
   */
  lemma RotationAllowedIff(d: Disk, tx: string, key: string)
    requires ValidKey(key)
    ensures RotationPlan(d, tx, key).Some? <==>
              && Serving(d) && CredentialKey(d) != "" && tx !in d.rotations
              && (Terminated(SplitLines(d.config), Header(SplitLines(d.config)).value) || Blank(SplitLines(d.config)[|SplitLines(d.config)| - 1]))
  {
    hide Appended, Strip, ApiKeys, Header, SplitLines, Terminated, Blank, KeysIn;
    if Serving(d) {
      ServingLists(d);
      AppendAddsIff(d.config, Header(SplitLines(d.config)).value, Keys(d), key);
    }
  }

  lemma ServingLists(d: Disk)
    requires ApiKeys(d.config).Success?
    ensures Header(SplitLines(d.config)).Some? && ListsKeys(SplitLines(d.config), Header(SplitLines(d.config)).value, Keys(d))
  {
    hide SplitLines, KeysIn, Header;
  }

  /**
   A rotation that fails leaves each file new if and only if it had been written and was not
   restored, and its manifest unless that was never written or its removal went through.
   */
  lemma RotationFails(d: Disk, tx: string, key: string, environment: string, fate: Fate)
    requires RotationPlan(d, tx, key).Some? && PlainKey(key) && fate.Fails?
    ensures var (after, outcome) := Rotate(d, tx, key, environment, fate);
            && (if fate.fault >= 2 && fate.undone < 1 then KeyAdded(d.config, after.config, key) else after.config == d.config)
            && after.credential == (if fate.fault >= 3 && fate.undone < 2 then key + "\n" else d.credential)
            && after.environment == (if fate.fault >= 4 && fate.undone < 3 then environment else d.environment)
            && after.receipts == d.receipts
            && (if fate.fault >= 1 && fate.cleaned < 2 then
                  && tx in after.rotations && after.rotations == d.rotations[tx := after.rotations[tx]]
                  && after.rotations[tx].status == (if fate.fault >= 5 then Rotated else Prepared)
                else after.rotations == d.rotations)
            && (outcome == RolledBack <==> fate.cleaned >= 1 && (fate.fault <= 1 || (fate.undone >= 3 && fate.verified)))
            && (outcome != RolledBack ==> outcome == Incomplete)
  {
    hide ApiKeys, Strip, RotationPlan, KeyAdded;
    var plan := RotationPlanned(d, tx, key);
  }

  // ---------------------------------------------------------------- revocation

  lemma RevocationPlanned(d: Disk, tx: string) returns (updated: string, gone: string)
    requires RevocationPlan(d, tx).Some?
    ensures RevocationPlan(d, tx) == Some(updated) && Serving(d)
    ensures tx in d.rotations && tx !in d.receipts && d.rotations[tx].status.Rotated?
    ensures d.rotations[tx].previous == Sha256(gone) && d.rotations[tx].current == Sha256(CredentialKey(d)) && gone != CredentialKey(d)
    ensures RemoveByDigest(d.config, Sha256(gone)) == Success((updated, gone, |Keys(d)|))
    ensures ApiKeys(updated) == Success(Others(Keys(d), gone)) && Occurrences(Keys(d), gone) == 1
    ensures |Keys(d)| == d.rotations[tx].countAfter
  {
    hide ApiKeys, Strip, RemoveByDigest;
    var r := d.rotations[tx];
    RemoveSound(d.config, r.previous);
    var removal := RemoveByDigest(d.config, r.previous).value;
    updated, gone := removal.0, removal.1;
    OccurrencesCount(Keys(d), gone);
  }

  lemma RevocationServes(d: Disk, tx: string, updated: string, writes: nat)
    requires RevocationPlan(d, tx) == Some(updated)
    ensures tx in d.rotations && Serving(RevokeStage(d, tx, updated, writes))
  {
    hide ApiKeys, Strip, RevocationPlan;
    var u, gone := RevocationPlanned(d, tx);
    OccurrencesOthers(Keys(d), gone, CredentialKey(d));
  }

  /** A completed revocation removes the replaced key and nothing else; any other leaves the disk as it was. */
  lemma RevocationResult(d: Disk, tx: string, fate: Fate) returns (gone: string)
    ensures var (after, outcome) := Revoke(d, tx, fate);
            && (outcome == Done ==> Keys(after) == Others(Keys(d), gone) && Occurrences(Keys(d), gone) == 1 && gone != CredentialKey(d)
                                    && after.credential == d.credential && after.environment == d.environment && Serving(d)
                                    && RemoveByDigest(d.config, Sha256(gone)) == Success((after.config, gone, |Keys(d)|))
                                    && tx !in d.receipts && after.receipts == d.receipts + {tx}
                                    && tx in d.rotations && d.rotations[tx].status.Rotated? && d.rotations[tx].current == Sha256(CredentialKey(d))
                                    && d.rotations[tx].previous == Sha256(gone)
                                    && after.rotations == d.rotations[tx := d.rotations[tx].(status := Revoked)])
            && (outcome == RolledBack || outcome == Refused ==> after == d)
  {
    hide ApiKeys, Strip, RevocationPlan;
    gone := "";
    if RevocationPlan(d, tx).Some? {
      var updated;
      updated, gone := RevocationPlanned(d, tx);
    }
  }

  /**
   A revocation is allowed if and only if the transaction is a completed rotation that was
   not revoked, its config and credential are still in force, and the key it replaced is
   another one and in the config once.
   */
  lemma RevocationAllowedIff(d: Disk, tx: string)
    ensures RevocationPlan(d, tx).Some? <==>
              && tx in d.rotations && tx !in d.receipts && d.rotations[tx].status.Rotated?
              && d.rotations[tx].countAfter == d.rotations[tx].countBefore + 1 && d.rotations[tx].countAfter == |Keys(d)| && |Keys(d)| >= 2
              && d.rotations[tx].config == d.config && d.rotations[tx].current == Sha256(CredentialKey(d)) && Serving(d)
              && d.rotations[tx].previous != Sha256(CredentialKey(d)) && CountMatches(Keys(d), d.rotations[tx].previous) == 1
  {
    hide ApiKeys, Strip, RemoveByDigest;
    if tx in d.rotations {
      RemoveSucceedsIff(d.config, d.rotations[tx].previous);
      RemoveSound(d.config, d.rotations[tx].previous);
    }
  }

  /** A revocation that fails, in the same terms. */
  lemma RevocationFails(d: Disk, tx: string, fate: Fate)
    requires RevocationPlan(d, tx).Some? && fate.Fails?
    ensures var (after, outcome) := Revoke(d, tx, fate);
            && (if fate.fault >= 1 && fate.undone < 1 then
                  exists gone, count :: RemoveByDigest(d.config, d.rotations[tx].previous) == Success((after.config, gone, count))
                else after.config == d.config)
            && after.credential == d.credential && after.environment == d.environment
            && after.receipts == (if fate.fault >= 2 && fate.cleaned < 2 then d.receipts + {tx} else d.receipts)
            && after.rotations == (if fate.fault >= 3 && fate.cleaned < 1 then d.rotations[tx := d.rotations[tx].(status := Revoked)] else d.rotations)
            && (outcome == RolledBack <==> fate.undone >= 1 && fate.verified && fate.cleaned >= 3)
            && (outcome != RolledBack ==> outcome == Incomplete)
  {
    hide ApiKeys, Strip, RevocationPlan, RemoveByDigest;
    var updated, gone := RevocationPlanned(d, tx);
    assert RemoveByDigest(d.config, d.rotations[tx].previous) == Success((updated, gone, |Keys(d)|));
  }

  // ---------------------------------------------------------------- runs

  datatype Action =
    | Rotating(tx: string, key: string, environment: string, fate: Fate)
    | Revoking(tx: string, fate: Fate)

  function Take(d: Disk, a: Action): (Disk, Outcome) {
    match a
    case Rotating(tx, key, environment, fate) => Rotate(d, tx, key, environment, fate)
    case Revoking(tx, fate) => Revoke(d, tx, fate)
  }

  /** Generated keys are plain and new to the config and to every recorded rotation. */
  ghost predicate NewKey(d: Disk, key: string) {
    PlainKey(key) && key !in Keys(d) && key != CredentialKey(d) && forall t :: t in d.rotations ==> d.rotations[t].current != Sha256(key)
  }

  /** Every key generated on the way is new and no rollback is left incomplete. */
  ghost predicate Orderly(d: Disk, actions: seq<Action>)
    decreases |actions|
  {
    actions == [] ||
    ((actions[0].Rotating? ==> NewKey(d, actions[0].key))
     && Take(d, actions[0]).1 != Incomplete
     && Orderly(Take(d, actions[0]).0, actions[1..]))
  }

  function Run(d: Disk, actions: seq<Action>): Disk
    decreases |actions|
  {
    if actions == [] then d else Run(Take(d, actions[0]).0, actions[1..])
  }

  function Completed(d: Disk, a: Action): bool {
    Take(d, a).1 == Done
  }

  function Rotations(d: Disk, actions: seq<Action>): nat
    decreases |actions|
  {
    if actions == [] then 0
    else (if actions[0].Rotating? && Completed(d, actions[0]) then 1 else 0) + Rotations(Take(d, actions[0]).0, actions[1..])
  }

  /** The transactions revoked on the way, in order. */
  function RevokedOnes(d: Disk, actions: seq<Action>): seq<string>
    decreases |actions|
  {
    if actions == [] then []
    else (if actions[0].Revoking? && Completed(d, actions[0]) then [actions[0].tx] else []) + RevokedOnes(Take(d, actions[0]).0, actions[1..])
  }

  /** The keys that are not in `involved`, in their order. */
  function Uninvolved(keys: seq<string>, involved: set<Digest>): seq<string> {
    if keys == [] then []
    else (if Sha256(keys[0]) in involved then [] else [keys[0]]) + Uninvolved(keys[1..], involved)
  }

  lemma {:induction false} UninvolvedAppend(keys: seq<string>, key: string, involved: set<Digest>)
    requires Sha256(key) in involved
    ensures Uninvolved(keys + [key], involved) == Uninvolved(keys, involved)
    decreases |keys|
  {
    if keys == [] {
      assert [] + [key] == [key] && [key][1..] == [];
      assert Uninvolved([key][1..], involved) == [];
    } else {
      assert (keys + [key])[1..] == keys[1..] + [key];
      UninvolvedAppend(keys[1..], key, involved);
    }
  }

  lemma {:induction false} UninvolvedOthers(keys: seq<string>, gone: string, involved: set<Digest>)
    requires Sha256(gone) in involved
    ensures Uninvolved(Others(keys, gone), involved) == Uninvolved(keys, involved)
    decreases |keys|
  {
    if keys != [] {
      hide Others, Uninvolved;
      var first, tail := keys[0], keys[1..];
      assert keys == [first] + tail;
      UninvolvedOthers(tail, gone, involved);
      OthersFirst(first, tail, gone);
      UninvolvedFirst(first, tail, involved);
      UninvolvedFirst(first, Others(tail, gone), involved);
    }
  }

  lemma UninvolvedFirst(first: string, keys: seq<string>, involved: set<Digest>)
    ensures Uninvolved([first] + keys, involved) ==
              if Sha256(first) in involved then Uninvolved(keys, involved) else [first] + Uninvolved(keys, involved)
  {
    assert ([first] + keys)[1..] == keys;
    assert [] + Uninvolved(keys, involved) == Uninvolved(keys, involved);
  }

  /** The digests of the keys that an action adds or removes. */
  function InvolvedIn(d: Disk, a: Action): set<Digest> {
    if !Completed(d, a) then {}
    else match a
      case Rotating(_, key, _, _) => {Sha256(key)}
      case Revoking(tx, _) => if tx in d.rotations then {d.rotations[tx].previous} else {}
  }

  function Involved(d: Disk, actions: seq<Action>): set<Digest>
    decreases |actions|
  {
    if actions == [] then {} else InvolvedIn(d, actions[0]) + Involved(Take(d, actions[0]).0, actions[1..])
  }

  lemma TakeKeys(d: Disk, a: Action, involved: set<Digest>)
    requires (a.Rotating? ==> NewKey(d, a.key)) && Take(d, a).1 != Incomplete && InvolvedIn(d, a) <= involved
    ensures var after := Take(d, a).0;
            && |Keys(after)| == |Keys(d)| + (if a.Rotating? && Completed(d, a) then 1 else 0) - (if a.Revoking? && Completed(d, a) then 1 else 0)
            && Uninvolved(Keys(after), involved) == Uninvolved(Keys(d), involved)
            && (Serving(d) ==> Serving(after))
  {
    hide ApiKeys, Strip, Rotate, Revoke;
    match a
    case Rotating(tx, key, environment, fate) =>
      RotationResult(d, tx, key, environment, fate);
      if Completed(d, a) {
        UninvolvedAppend(Keys(d), key, involved);
        RotatedServes(d, tx, key, environment);
      }
    case Revoking(tx, fate) =>
      var gone := RevocationResult(d, tx, fate);
      if Completed(d, a) {
        UninvolvedOthers(Keys(d), gone, involved);
        OthersLength(Keys(d), gone);
        RevokedServes(d, tx);
      }
  }

  lemma RotatedServes(d: Disk, tx: string, key: string, environment: string)
    requires NewKey(d, key)
    ensures forall fate :: Rotate(d, tx, key, environment, fate).1 == Done ==> Serving(Rotate(d, tx, key, environment, fate).0)
  {
    hide ApiKeys, Strip, RotationPlan;
    if RotationPlan(d, tx, key).Some? {
      RotationServes(d, tx, key, environment, RotationPlan(d, tx, key).value, 5);
    }
  }

  lemma RevokedServes(d: Disk, tx: string)
    ensures forall fate :: Revoke(d, tx, fate).1 == Done ==> Serving(Revoke(d, tx, fate).0)
  {
    hide ApiKeys, Strip, RevocationPlan;
    if RevocationPlan(d, tx).Some? {
      RevocationServes(d, tx, RevocationPlan(d, tx).value, 3);
    }
  }

  /**
   Whole runs: the number of keys is the initial one plus the rotations minus the
   revocations, keys that no transaction adds or removes keep their value and order, and
   the credential keeps its place in the config.
   */
  lemma {:induction false} RunLaw(d: Disk, actions: seq<Action>, involved: set<Digest>)
    requires Orderly(d, actions) && Involved(d, actions) <= involved
    ensures |Keys(Run(d, actions))| == |Keys(d)| + Rotations(d, actions) - |RevokedOnes(d, actions)|
    ensures Uninvolved(Keys(Run(d, actions)), involved) == Uninvolved(Keys(d), involved)
    ensures Serving(d) ==> Serving(Run(d, actions))
    decreases |actions|
  {
    hide Keys, Serving, Take, NewKey, InvolvedIn;
    if actions != [] {
      TakeKeys(d, actions[0], involved);
      RunLaw(Take(d, actions[0]).0, actions[1..], involved);
    }
  }

  /** The environment of the last rotation that was completed. */
  function LastEnvironment(d: Disk, actions: seq<Action>, environment: string): string
    decreases |actions|
  {
    if actions == [] then environment
    else
      LastEnvironment(
        Take(d, actions[0]).0, actions[1..],
        if actions[0].Rotating? && Completed(d, actions[0]) then actions[0].environment else environment)
  }

  /** Over whole runs the environment is that of the last completed rotation, or the first one. */
  lemma {:induction false} EnvironmentLaw(d: Disk, actions: seq<Action>)
    requires Orderly(d, actions)
    ensures Run(d, actions).environment == LastEnvironment(d, actions, d.environment)
    decreases |actions|
  {
    hide Keys, Serving, Take, NewKey;
    if actions != [] {
      TakeEnvironment(d, actions[0]);
      EnvironmentLaw(Take(d, actions[0]).0, actions[1..]);
    }
  }

  lemma TakeEnvironment(d: Disk, a: Action)
    requires (a.Rotating? ==> NewKey(d, a.key)) && Take(d, a).1 != Incomplete
    ensures Take(d, a).0.environment == if a.Rotating? && Completed(d, a) then a.environment else d.environment
  {
    hide ApiKeys, Strip, Rotate, Revoke, Keys;
    match a
    case Rotating(tx, key, environment, fate) =>
      assert PlainKey(key);
      RotationResult(d, tx, key, environment, fate);
    case Revoking(tx, fate) =>
      var gone := RevocationResult(d, tx, fate);
  }

  // ---------------------------------------------------------------- revoked at most once

  /** Transaction `t` can no longer be revoked: it is revoked, or a later rotation replaced its credential. */
  ghost predicate Closed(d: Disk, t: string) {
    t in d.rotations && (d.rotations[t].status.Revoked? || d.rotations[t].current != Sha256(CredentialKey(d)))
  }

  lemma ClosedRefused(d: Disk, t: string, fate: Fate)
    requires Closed(d, t)
    ensures Revoke(d, t, fate) == (d, Refused)
  {
    hide ApiKeys, Strip;
  }

  lemma ClosedStays(d: Disk, a: Action, t: string)
    requires Closed(d, t) && (a.Rotating? ==> NewKey(d, a.key)) && Take(d, a).1 != Incomplete
    ensures Closed(Take(d, a).0, t)
  {
    hide ApiKeys, Strip, Rotate, Revoke, Keys;
    match a
    case Rotating(tx, key, environment, fate) =>
      assert PlainKey(key);
      RotationResult(d, tx, key, environment, fate);
    case Revoking(tx, fate) =>
      var gone := RevocationResult(d, tx, fate);
  }

  lemma {:induction false} ClosedNeverRevoked(d: Disk, actions: seq<Action>, t: string)
    requires Closed(d, t) && Orderly(d, actions)
    ensures t !in RevokedOnes(d, actions)
    decreases |actions|
  {
    hide Closed, NewKey, Rotate, Revoke;
    if actions != [] {
      ClosedStays(d, actions[0], t);
      ClosedNeverRevoked(Take(d, actions[0]).0, actions[1..], t);
      if actions[0].Revoking? && actions[0].tx == t {
        ClosedRefused(d, t, actions[0].fate);
      }
    }
  }

  /** No transaction is revoked twice. */
  lemma {:induction false} RevokedOnce(d: Disk, actions: seq<Action>)
    requires Orderly(d, actions)
    ensures forall i, j :: 0 <= i < j < |RevokedOnes(d, actions)| ==> RevokedOnes(d, actions)[i] != RevokedOnes(d, actions)[j]
    decreases |actions|
  {
    hide NewKey, Rotate, Revoke, Closed;
    if actions != [] {
      var after := Take(d, actions[0]).0;
      RevokedOnce(after, actions[1..]);
      if actions[0].Revoking? && Completed(d, actions[0]) {
        RevokedCloses(d, actions[0].tx, actions[0].fate);
        ClosedNeverRevoked(after, actions[1..], actions[0].tx);
      }
    }
  }

  lemma RevokedCloses(d: Disk, tx: string, fate: Fate)
    requires Revoke(d, tx, fate).1 == Done
    ensures Closed(Revoke(d, tx, fate).0, tx)
  {
    hide ApiKeys, Strip, Revoke;
    var gone := RevocationResult(d, tx, fate);
  }

  /** A rotation that a later one supersedes is never revoked again, so the key it replaced stays in the config. */
  lemma SupersededStays(d: Disk, t: string, tx: string, key: string, environment: string, actions: seq<Action>)
    requires t in d.rotations && NewKey(d, key) && Rotate(d, tx, key, environment, AllDone).1 == Done && t != tx
    requires Orderly(Rotate(d, tx, key, environment, AllDone).0, actions)
    ensures t !in RevokedOnes(Rotate(d, tx, key, environment, AllDone).0, actions)
  {
    hide ApiKeys, Strip, Rotate, Orderly, RevokedOnes, Keys;
    RotationResult(d, tx, key, environment, AllDone);
    ClosedNeverRevoked(Rotate(d, tx, key, environment, AllDone).0, actions, t);
  }

  lemma {:induction false} OthersAppend(keys: seq<string>, key: string, gone: string)
    requires key != gone
    ensures Others(keys + [key], gone) == Others(keys, gone) + [key]
    decreases |keys|
  {
    var more := keys + [key];
    if keys == [] {
      assert more == [key] && more[1..] == [];
      assert Others(more, gone) == [key] + Others([], gone);
    } else {
      assert more[0] == keys[0] && more[1..] == keys[1..] + [key];
      OthersAppend(keys[1..], key, gone);
      var first := if keys[0] == gone then [] else [keys[0]];
      assert Others(more, gone) == first + (Others(keys[1..], gone) + [key]) == first + Others(keys[1..], gone) + [key];
    }
  }

  /** A completed rotation can be revoked at once, which replaces the old key by the new one. */
  lemma RotateThenRevoke(d: Disk, tx: string, key: string, environment: string)
    returns (rotated: Disk, revoked: Disk)
    requires NewKey(d, key) && tx !in d.receipts && Rotate(d, tx, key, environment, AllDone).1 == Done
    ensures Rotate(d, tx, key, environment, AllDone).0 == rotated && Revoke(rotated, tx, AllDone) == (revoked, Done)
    ensures Keys(revoked) == Others(Keys(d), CredentialKey(d)) + [key] && CredentialKey(revoked) == key
  {
    hide ApiKeys, Strip, Rotate, Revoke, RemoveByDigest;
    var older := CredentialKey(d);
    RotationResult(d, tx, key, environment, AllDone);
    rotated := Rotate(d, tx, key, environment, AllDone).0;
    revoked := Revoke(rotated, tx, AllDone).0;
    OccurrencesCount(Keys(d), older);
    OccurrencesCount(Keys(d), key);
    OccurrencesAppend(Keys(d), key, key);
    OccurrencesAppend(Keys(d), key, older);
    OccurrencesCount(Keys(rotated), older);
    RotatedRevocable(d, rotated, tx, key);
    var gone := RevocationResult(rotated, tx, AllDone);
    RevocationRuns(rotated, tx);
    OthersAppend(Keys(d), key, older);
  }

  lemma RevocationRuns(d: Disk, tx: string)
    requires RevocationPlan(d, tx).Some?
    ensures Revoke(d, tx, AllDone).1 == Done && Revoke(d, tx, AllDone).0.credential == d.credential
  {
    hide RevocationPlan;
  }

  lemma RotatedRevocable(d: Disk, rotated: Disk, tx: string, key: string)
    requires tx in rotated.rotations && tx !in rotated.receipts && key != CredentialKey(d)
    requires rotated.rotations[tx] == Rotation(Rotated, Sha256(CredentialKey(d)), Sha256(key), rotated.config, |Keys(d)|, |Keys(d)| + 1)
    requires CredentialKey(rotated) == key && Keys(rotated) == Keys(d) + [key]
    requires Occurrences(Keys(rotated), key) == 1 && CountMatches(Keys(rotated), Sha256(CredentialKey(d))) == 1 && |Keys(d)| >= 1
    ensures RevocationPlan(rotated, tx).Some?
  {
    hide Strip, ApiKeys, RemoveByDigest;
    assert ApiKeys(rotated.config).Success?;
    RemoveSucceedsIff(rotated.config, Sha256(CredentialKey(d)));
    RemoveSound(rotated.config, Sha256(CredentialKey(d)));
  }

  // ---------------------------------------------------------------- a cleanup that fails

  /**
   A failed revocation that restored the config leaves the disk as it was if and only if its
   cleanup got as far as what had been written; otherwise it leaves the revoked manifest or
   the receipt.
   */
  lemma CleanupIff(d: Disk, tx: string, fate: Fate)
    requires RevocationPlan(d, tx).Some? && fate.Fails? && fate.undone >= 1
    ensures var after := Revoke(d, tx, fate).0;
            && after.config == d.config && after.credential == d.credential
            && (after == d <==> (fate.fault >= 3 ==> fate.cleaned >= 1) && (fate.fault >= 2 ==> fate.cleaned >= 2))
            && (tx in after.receipts <==> fate.fault >= 2 && fate.cleaned < 2)
  {
    hide ApiKeys, Strip, RevocationPlan;
    var updated, gone := RevocationPlanned(d, tx);
    var stage := RevokeStage(d, tx, updated, fate.fault);
    assert fate.fault >= 3 ==> stage.rotations[tx] != d.rotations[tx];
    assert fate.fault >= 2 ==> tx in stage.receipts;
  }

  lemma ReceiptKept(d: Disk, a: Action, tx: string)
    requires tx in d.receipts
    ensures tx in Take(d, a).0.receipts
  {
    hide ApiKeys, Strip, RotationPlan, RevocationPlan;
    if a.Revoking? && RevocationPlan(d, a.tx).Some? {
      var updated, gone := RevocationPlanned(d, a.tx);
    }
  }

  /** A transaction whose receipt is there is never revoked, whatever rotations and revocations follow. */
  lemma {:induction false} LeftReceiptForever(d: Disk, actions: seq<Action>, tx: string, fate: Fate)
    requires tx in d.receipts
    ensures Revoke(Run(d, actions), tx, fate) == (Run(d, actions), Refused)
    decreases |actions|
  {
    if actions == [] {
      hide ApiKeys, Strip, RemoveByDigest;
    } else {
      hide Take, Revoke;
      ReceiptKept(d, actions[0], tx);
      LeftReceiptForever(Take(d, actions[0]).0, actions[1..], tx, fate);
    }
  }
}
