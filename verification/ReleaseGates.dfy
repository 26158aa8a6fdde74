/**
 The gates between Phi and Cloudx: release ordering, privileged boundary, legacy bridge and
 their composition (scripts/check_phi_cloudx_release_ordering.py,
 check_phi_cloudx_privileged_boundary.py, check_phi_cloudx_legacy_health_bridge.py and
 check_phi_cloudx_failure_semantics.py).
 */
module ReleaseGates {
  import opened Wrappers

  // ---------------------------------------------------------------- release ordering

  datatype Range = Range(min: int, max: int)

  predicate ValidRange(r: Range) {
    1 <= r.min <= r.max
  }

  predicate Speaks(r: Range, version: int) {
    r.min <= version <= r.max
  }

  function Least(a: int, b: int): int { if a <= b then a else b }
  function Greatest(a: int, b: int): int { if a >= b then a else b }

  predicate Overlap(producer: Range, consumer: Range) {
    Greatest(producer.min, consumer.min) <= Least(producer.max, consumer.max)
  }

  /** For valid ranges, overlapping means that some protocol version is spoken by both. */
  lemma OverlapIff(producer: Range, consumer: Range)
    requires ValidRange(producer) && ValidRange(consumer)
    ensures Overlap(producer, consumer)
            <==> exists v: int :: Speaks(producer, v) && Speaks(consumer, v)
  {
    if Overlap(producer, consumer) {
      var v := Greatest(producer.min, consumer.min);
      assert Speaks(producer, v) && Speaks(consumer, v);
    }
  }

  datatype Side = Current | Previous

  datatype Release = Release(protocol: Range, healthContract: string)

  datatype Bridge = Bridge(producerContract: string, consumerContract: string, sourceReady: bool, runtime: map<string, bool>)

  datatype BridgeStatus = SourceIncomplete | SourceReady | RuntimeAccepted

  const RUNTIME_FIELDS := ["signedArtifactPublished", "bridgeUnitInstalled", "rollbackRehearsed"]

  function BridgeStatusOf(b: Bridge): BridgeStatus {
    if !b.sourceReady then SourceIncomplete
    else if exists f :: f in RUNTIME_FIELDS && !(f in b.runtime && b.runtime[f]) then SourceReady
    else RuntimeAccepted
  }

  datatype Evidence = Evidence(
    cloudxCurrent: Release, cloudxPrevious: Release, phiCurrent: Release, phiPrevious: Release, bridge: Bridge)

  type Pair = (Side, Side)

  function CloudxOf(e: Evidence, s: Side): Release { if s.Current? then e.cloudxCurrent else e.cloudxPrevious }
  function PhiOf(e: Evidence, s: Side): Release { if s.Current? then e.phiCurrent else e.phiPrevious }

  datatype Reason = ProtocolRangeMismatch | BridgeNotRuntimeAccepted | HealthContractMismatch

  function Reasons(e: Evidence, p: Pair): seq<Reason> {
    var c, phi := CloudxOf(e, p.0), PhiOf(e, p.1);
    var bridged := c.healthContract == e.bridge.producerContract && phi.healthContract == e.bridge.consumerContract;
    (if Overlap(c.protocol, phi.protocol) then [] else [ProtocolRangeMismatch])
    + (if c.healthContract == phi.healthContract then []
       else if !bridged then [HealthContractMismatch]
       else if BridgeStatusOf(e.bridge).RuntimeAccepted? then []
       else [BridgeNotRuntimeAccepted])
  }

  /** The two releases can run together: a common protocol, and the same health contract or an accepted bridge. */
  ghost predicate WorkTogether(e: Evidence, p: Pair) {
    var c, phi := CloudxOf(e, p.0), PhiOf(e, p.1);
    && (exists v: int :: Speaks(c.protocol, v) && Speaks(phi.protocol, v))
    && (c.healthContract == phi.healthContract
        || (c.healthContract == e.bridge.producerContract && phi.healthContract == e.bridge.consumerContract
            && e.bridge.sourceReady && forall f :: f in RUNTIME_FIELDS ==> f in e.bridge.runtime && e.bridge.runtime[f]))
  }

  ghost predicate ValidEvidence(e: Evidence) {
    ValidRange(e.cloudxCurrent.protocol) && ValidRange(e.cloudxPrevious.protocol)
    && ValidRange(e.phiCurrent.protocol) && ValidRange(e.phiPrevious.protocol)
  }

  /** The bridge between the two health contracts is accepted. */
  ghost predicate BridgeAccepted(b: Bridge) {
    b.sourceReady && forall f :: f in RUNTIME_FIELDS ==> f in b.runtime && b.runtime[f]
  }

  /** Each reason, exactly: at most two, the protocol first. */
  lemma ReasonsLaw(e: Evidence, p: Pair)
    requires ValidEvidence(e)
    ensures var c, phi, rs := CloudxOf(e, p.0), PhiOf(e, p.1), Reasons(e, p);
            var differ := c.healthContract != phi.healthContract;
            var bridged := c.healthContract == e.bridge.producerContract && phi.healthContract == e.bridge.consumerContract;
            && |rs| <= 2 && (ProtocolRangeMismatch in rs ==> rs[0] == ProtocolRangeMismatch)
            && (ProtocolRangeMismatch in rs <==> forall v: int :: !(Speaks(c.protocol, v) && Speaks(phi.protocol, v)))
            && (HealthContractMismatch in rs <==> differ && !bridged)
            && (BridgeNotRuntimeAccepted in rs <==> differ && bridged && !BridgeAccepted(e.bridge))
  {
    hide Overlap, Speaks;
    OverlapIff(CloudxOf(e, p.0).protocol, PhiOf(e, p.1).protocol);
  }

  lemma NoReasonsIff(e: Evidence, p: Pair)
    requires ValidEvidence(e)
    ensures Reasons(e, p) == [] <==> WorkTogether(e, p)
  {
    hide Overlap, Speaks;
    OverlapIff(CloudxOf(e, p.0).protocol, PhiOf(e, p.1).protocol);
  }

  const SIDES := [Current, Previous]

  /** The states an upgrade or rollback passes through, as (Cloudx, Phi). */
  const ORDER_STATES: seq<seq<Pair>> := [
    [(Previous, Previous), (Current, Previous), (Current, Current)],
    [(Previous, Previous), (Previous, Current), (Current, Current)],
    [(Current, Current), (Previous, Current)],
    [(Current, Current), (Current, Previous)]
  ]

  datatype Blocker = Blocker(pair: Pair, reason: Reason)

  ghost predicate ExactBlockers(e: Evidence, blockers: seq<Blocker>, pairs: set<Pair>) {
    && (forall b {:trigger b in blockers} :: b in blockers <==> b.pair in pairs && b.reason in Reasons(e, b.pair))
    && (forall i, j :: 0 <= i < j < |blockers| ==> blockers[i] != blockers[j])
  }

  /** The loop over the reasons of one pair. */
  method AddBlockers(e: Evidence, p: Pair, before: seq<Blocker>, ghost pairs: set<Pair>) returns (blockers: seq<Blocker>)
    requires ExactBlockers(e, before, pairs) && p !in pairs
    ensures ExactBlockers(e, blockers, pairs + {p})
  {
    hide Reasons;
    var reasons, i := Reasons(e, p), 0;
    blockers := before;
    while i < |reasons|
      invariant 0 <= i <= |reasons|
      invariant forall b {:trigger b in blockers} :: b in blockers <==> b in before || (b.pair == p && b.reason in reasons[..i])
      invariant forall m, n :: 0 <= m < n < |blockers| ==> blockers[m] != blockers[n]
    {
      if Blocker(p, reasons[i]) !in blockers {
        blockers := blockers + [Blocker(p, reasons[i])];
      }
      i := i + 1;
    }
    assert reasons[..i] == reasons;
  }

  /** The matrix of all four combinations, the blockers in them, and the verdict over the orders. */
  method EvaluateOrdering(e: Evidence) returns (compatible: bool, matrix: map<Pair, bool>, blockers: seq<Blocker>)
    requires ValidEvidence(e)
    ensures forall p: Pair {:trigger p in matrix} :: p in matrix && (matrix[p] <==> WorkTogether(e, p))
    ensures ExactBlockers(e, blockers, {(Current, Current), (Current, Previous), (Previous, Current), (Previous, Previous)})
    ensures compatible <==> blockers == []
    ensures compatible <==> forall p: Pair {:trigger WorkTogether(e, p)} :: WorkTogether(e, p)
  {
    hide Reasons, WorkTogether;
    matrix, blockers := map[], [];
    ghost var done: set<Pair> := {};
    var i := 0;
    while i < 2
      invariant 0 <= i <= 2
      invariant done == (if i > 0 then {(Current, Current), (Current, Previous)} else {}) + (if i > 1 then {(Previous, Current), (Previous, Previous)} else {})
      invariant matrix.Keys == done && forall p: Pair {:trigger p in done} :: p in done ==> (matrix[p] <==> Reasons(e, p) == [])
      invariant ExactBlockers(e, blockers, done)
    {
      var j := 0;
      ghost var row := done;
      while j < 2
        invariant 0 <= j <= 2
        invariant done == row + (if j > 0 then {(SIDES[i], Current)} else {}) + (if j > 1 then {(SIDES[i], Previous)} else {})
        invariant matrix.Keys == done && forall p: Pair {:trigger p in done} :: p in done ==> (matrix[p] <==> Reasons(e, p) == [])
        invariant ExactBlockers(e, blockers, done)
      {
        var p := (SIDES[i], SIDES[j]);
        blockers := AddBlockers(e, p, blockers, done);
        matrix := matrix[p := Reasons(e, p) == []];
        done := done + {p};
        j := j + 1;
      }
      i := i + 1;
    }
    forall p: Pair ensures p in done && (matrix[p] <==> WorkTogether(e, p)) {
      FourPairs(p);
      NoReasonsIff(e, p);
    }
    compatible := forall o :: 0 <= o < |ORDER_STATES| ==> forall s :: 0 <= s < |ORDER_STATES[o]| ==> matrix[ORDER_STATES[o][s]];
    OrdersCover(matrix, compatible);
    BlockersIff(e, blockers, done);
  }

  lemma FourPairs(p: Pair)
    ensures p in {(Current, Current), (Current, Previous), (Previous, Current), (Previous, Previous)}
  {
    match p
    case (Current, Current) =>
    case (Current, Previous) =>
    case (Previous, Current) =>
    case (Previous, Previous) =>
  }

  /** The orders pass through every combination, so they are all compatible exactly when the whole matrix is. */
  lemma OrdersCover(matrix: map<Pair, bool>, compatible: bool)
    requires forall p: Pair {:trigger p in matrix} :: p in matrix
    requires compatible == forall o :: 0 <= o < |ORDER_STATES| ==> forall s :: 0 <= s < |ORDER_STATES[o]| ==> matrix[ORDER_STATES[o][s]]
    ensures compatible <==> forall p: Pair {:trigger matrix[p]} :: matrix[p]
  {
    if compatible {
      forall p: Pair ensures matrix[p] {
        FourPairs(p);
        assert ORDER_STATES[0][0] == (Previous, Previous) && matrix[ORDER_STATES[0][0]];
        assert ORDER_STATES[0][1] == (Current, Previous) && matrix[ORDER_STATES[0][1]];
        assert ORDER_STATES[1][1] == (Previous, Current) && matrix[ORDER_STATES[1][1]];
        assert ORDER_STATES[2][0] == (Current, Current) && matrix[ORDER_STATES[2][0]];
      }
    }
  }

  lemma BlockersIff(e: Evidence, blockers: seq<Blocker>, pairs: set<Pair>)
    requires ExactBlockers(e, blockers, pairs)
    ensures blockers == [] <==> forall p: Pair {:trigger p in pairs} :: p in pairs ==> Reasons(e, p) == []
  {
    hide Reasons;
    if blockers != [] {
      assert blockers[0] in blockers && blockers[0].pair in pairs && Reasons(e, blockers[0].pair) != [];
    }
    forall p: Pair | blockers == [] && p in pairs ensures Reasons(e, p) == [] {
      var r := if Reasons(e, p) == [] then HealthContractMismatch else Reasons(e, p)[0];
      assert Blocker(p, r) in blockers <==> r in Reasons(e, p);
    }
  }

  // ---------------------------------------------------------------- privileged boundary

  datatype Capability = AuthRead | ImportInvoke | GatewayMutate | ReleaseMutate

  const CAPABILITIES: seq<Capability> := [AuthRead, ImportInvoke, GatewayMutate, ReleaseMutate]

  datatype Elevation = NoElevation | Scoped | UnrestrictedRoot

  datatype Identity = Identity(elevation: Elevation, elevated: set<Capability>)

  /** What the evidence loader demands of an identity. */
  predicate ValidIdentity(i: Identity) {
    && (i.elevation.NoElevation? ==> i.elevated == {})
    && (i.elevation.UnrestrictedRoot? ==> forall c :: c in CAPABILITIES ==> c in i.elevated)
  }

  datatype Surface = Surface(
    name: string, available: bool, agentControls: bool, arbitrary: bool, identity: string, noNewPrivileges: bool, direct: set<Capability>)

  datatype Boundary = Boundary(scopedCredential: bool, identities: map<string, Identity>, surfaces: seq<Surface>)

  ghost predicate ValidBoundary(b: Boundary) {
    && (forall s :: s in b.surfaces ==> s.identity in b.identities)
    && (forall n :: n in b.identities ==> ValidIdentity(b.identities[n]))
  }

  predicate Reachable(s: Surface, i: Identity) {
    s.available && s.agentControls && s.arbitrary && !s.noNewPrivileges && !i.elevation.NoElevation?
  }

  /** The agent can exercise the capability through the surface. */
  predicate Exercises(b: Boundary, s: Surface, c: Capability)
    requires s.identity in b.identities
  {
    && s.available && s.agentControls
    && (c in s.direct || (Reachable(s, b.identities[s.identity]) && c in b.identities[s.identity].elevated))
  }

  datatype BoundaryBlocker = CredentialNotScoped | Exercised(surface: string, capability: Capability)

  /** The effective capabilities of one surface, in the order of the capability names. */
  method SurfaceBlockers(b: Boundary, s: Surface) returns (blockers: seq<BoundaryBlocker>)
    requires s.identity in b.identities
    ensures forall x {:trigger x in blockers} :: x in blockers <==> x.Exercised? && x.surface == s.name && Exercises(b, s, x.capability)
  {
    var identity := b.identities[s.identity];
    var effective := s.direct;
    var reachable := s.available && s.agentControls && s.arbitrary && !s.noNewPrivileges && !identity.elevation.NoElevation?;
    if reachable {
      effective := effective + identity.elevated;
    }
    blockers := [];
    if s.available && s.agentControls {
      var i := 0;
      while i < |CAPABILITIES|
        invariant 0 <= i <= |CAPABILITIES|
        invariant forall x {:trigger x in blockers} :: x in blockers <==>
                    x.Exercised? && x.surface == s.name && x.capability in CAPABILITIES[..i] && x.capability in effective
      {
        if CAPABILITIES[i] in effective {
          blockers := blockers + [Exercised(s.name, CAPABILITIES[i])];
        }
        i := i + 1;
      }
      assert CAPABILITIES[..i] == CAPABILITIES;
      AllCapabilities();
    }
  }

  lemma AllCapabilities()
    ensures forall c: Capability :: c in CAPABILITIES
  {
    forall c: Capability ensures c in CAPABILITIES {
      match c
      case AuthRead => assert CAPABILITIES[0] == c;
      case ImportInvoke => assert CAPABILITIES[1] == c;
      case GatewayMutate => assert CAPABILITIES[2] == c;
      case ReleaseMutate => assert CAPABILITIES[3] == c;
    }
  }

  /**
   What the agent can exercise, for valid identities: what the surface offers directly, and
   everything elevated once it runs arbitrary commands without a privilege barrier.
   */
  lemma ExercisesIff(b: Boundary, s: Surface, c: Capability)
    requires ValidBoundary(b) && s in b.surfaces
    ensures Exercises(b, s, c) <==>
              && s.available && s.agentControls
              && (c in s.direct || (s.arbitrary && !s.noNewPrivileges && c in b.identities[s.identity].elevated))
  {
    assert ValidIdentity(b.identities[s.identity]);
  }

  /** The blockers of the first surfaces, and the credential's. */
  ghost predicate BlocksOf(b: Boundary, n: nat, x: BoundaryBlocker)
    requires ValidBoundary(b) && n <= |b.surfaces|
  {
    match x
    case CredentialNotScoped => !b.scopedCredential
    case Exercised(name, c) => exists j :: 0 <= j < n && b.surfaces[j].name == name && Exercises(b, b.surfaces[j], c)
  }

  /** Secure exactly when the credential is scoped and no surface lets the agent exercise anything. */
  method EvaluateBoundary(b: Boundary) returns (secure: bool, blockers: seq<BoundaryBlocker>)
    requires ValidBoundary(b)
    ensures secure <==> blockers == []
    ensures forall x {:trigger x in blockers} :: x in blockers <==> BlocksOf(b, |b.surfaces|, x)
    ensures secure <==> b.scopedCredential && forall s, c :: s in b.surfaces ==> !Exercises(b, s, c)
  {
    hide Exercises;
    blockers := if b.scopedCredential then [] else [CredentialNotScoped];
    var i := 0;
    while i < |b.surfaces|
      invariant 0 <= i <= |b.surfaces|
      invariant forall x {:trigger x in blockers} :: x in blockers <==> BlocksOf(b, i, x)
      invariant blockers == [] <==>
                  b.scopedCredential
                  && forall j, c {:trigger Exercises(b, b.surfaces[j], c)} :: 0 <= j < i ==> !Exercises(b, b.surfaces[j], c)
    {
      var found := SurfaceBlockers(b, b.surfaces[i]);
      ghost var earlier := blockers;
      if found != [] {
        assert found[0] in found && Exercises(b, b.surfaces[i], found[0].capability);
      } else {
        forall c ensures !Exercises(b, b.surfaces[i], c) {
          assert Exercised(b.surfaces[i].name, c) !in found;
        }
      }
      blockers := blockers + found;
      forall x ensures x in blockers <==> BlocksOf(b, i + 1, x) {
        assert x in blockers <==> x in earlier || x in found;
        OneMore(b, i, x);
      }
      i := i + 1;
    }
    secure := blockers == [];
    forall s, c | secure && s in b.surfaces ensures !Exercises(b, s, c) {
      var j :| 0 <= j < |b.surfaces| && b.surfaces[j] == s;
    }
  }

  lemma OneMore(b: Boundary, i: nat, x: BoundaryBlocker)
    requires ValidBoundary(b) && i < |b.surfaces|
    ensures BlocksOf(b, i + 1, x) <==>
              BlocksOf(b, i, x) || (x.Exercised? && x.surface == b.surfaces[i].name && Exercises(b, b.surfaces[i], x.capability))
  {
    hide Exercises;
  }

  /** An available surface with arbitrary commands and no privilege barrier rules out an unrestricted identity. */
  lemma SecureHasNoRoot(b: Boundary, s: Surface)
    requires ValidBoundary(b) && s in b.surfaces && forall t, c :: t in b.surfaces ==> !Exercises(b, t, c)
    ensures s.available && s.agentControls && s.arbitrary && !s.noNewPrivileges ==>
              !b.identities[s.identity].elevation.UnrestrictedRoot?
  {
    assert CAPABILITIES[0] in CAPABILITIES;
    assert !Exercises(b, s, CAPABILITIES[0]);
  }

  // ---------------------------------------------------------------- composition

  datatype Acceptance = Acceptance(roadmapInformational: bool, roadmap: map<string, string>, fixturesAccepted: bool)

  /**
   The failure-semantics gate over both others: accepted only if every combination of
   releases works together, the credential is scoped, no agent-controlled surface that is
   available has an effective capability, and the Phi side accepts.
   */
  method EvaluateFailureSemantics(e: Evidence, b: Boundary, a: Acceptance) returns (accepted: bool, blockers: nat)
    requires ValidEvidence(e) && ValidBoundary(b)
    ensures accepted <==> blockers == 0
    ensures accepted <==>
              && (forall p: Pair {:trigger WorkTogether(e, p)} :: WorkTogether(e, p))
              && b.scopedCredential && (forall s, c :: s in b.surfaces ==> !Exercises(b, s, c))
              && (a.roadmapInformational || forall item :: item in a.roadmap ==> a.roadmap[item] == "complete")
              && a.fixturesAccepted
    ensures blockers >= (if forall p: Pair {:trigger WorkTogether(e, p)} :: WorkTogether(e, p) then 0 else 1)
                        + (if b.scopedCredential && forall s, c :: s in b.surfaces ==> !Exercises(b, s, c) then 0 else 1)
                        + (if a.fixturesAccepted then 0 else 1)
  {
    hide WorkTogether, Exercises, ValidEvidence, ValidBoundary, ExactBlockers;
    var compatible, matrix, orderBlockers := EvaluateOrdering(e);
    var secure, boundaryBlockers := EvaluateBoundary(b);
    blockers := 0;
    if !compatible { blockers := blockers + 1; }
    if !secure { blockers := blockers + 1; }
    if !a.roadmapInformational {
      var open := set item | item in a.roadmap.Keys && a.roadmap[item] != "complete";
      blockers := blockers + |open|;
      assert |open| == 0 <==> open == {};
      assert open == {} <==> forall item :: item in a.roadmap ==> item !in open;
    }
    if !a.fixturesAccepted { blockers := blockers + 1; }
    accepted := blockers == 0;
  }
}
